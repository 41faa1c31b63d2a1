/** Articles: posting one, the likes ("stars") and bookmarks ("collects") users put on them,
    their counts, the shortened content of the list views and the list of a user's
    bookmarked articles. */
module ArticleApi {
  import opened Wrappers
  import opened Models
  import opened Util
  import opened Seqs
  import opened Paginator
  import opened Marks

  const BadCommodityMsg: string := "无效的商品id"
  const AlreadyStarredMsg: string := "你已经赞过了"
  const StarStateMsg: string := "点赞状态出错"
  const AlreadyCollectedMsg: string := "你已经收藏过了"
  const CollectStateMsg: string := "收藏状态出错"

  /** The content a list shows: as it is below 200 characters, else its first 198 followed by "...". */
  function Brief(content: string): (r: string)
    ensures |content| < 200 ==> r == content
    ensures |content| >= 200 ==> |r| == 201 && r[..198] == content[..198] && r[198..] == "..."
  {
    if |content| < 200 then content else content[..198] + "..."
  }

  /** A shortened content shortens to itself, and no brief is longer than 201 characters. */
  lemma BriefIsStable(content: string)
    ensures |Brief(content)| <= 201
    ensures Brief(Brief(content)) == Brief(content)
  {
    if |content| >= 200 {
      var b := Brief(content);
      assert b[..198] == content[..198];
    }
  }

  /** `user_new_article`, after the body gate; `newId` is the id auto-increment hands out. A title
      longer than its column makes the insertion raise. */
  method NewArticle(db: Database, user: Id, title: string, content: string, commodityId: Option<Id>, newId: Id)
    returns (r: ApiResult<Id>)
    modifies db`articles
    ensures commodityId.Some? && commodityId.value !in db.commodities ==> (
      r == Failure(InvalidRequestArgs, BadCommodityMsg) && db.articles == old(db.articles))
    ensures (commodityId.None? || commodityId.value in db.commodities) && !FitsChars(title, ArticleTitleMax) ==> (
      r == Uncaught && db.articles == old(db.articles))
    ensures (commodityId.None? || commodityId.value in db.commodities) && FitsChars(title, ArticleTitleMax) ==> (
      r == Success(newId) && db.articles == old(db.articles)[newId := Article(newId, user, title, content, commodityId)])
  {
    if commodityId.Some? && commodityId.value !in db.commodities {
      return Failure(InvalidRequestArgs, BadCommodityMsg);
    }
    if !FitsChars(title, ArticleTitleMax) {
      return Uncaught;
    }
    db.articles := db.articles[newId := Article(newId, user, title, content, commodityId)];
    return Success(newId);
  }

  // ---------------------------------------------------------------------------------------
  // Likes and bookmarks

  /** An operation is identified by its kind, its user and its article. */
  function OpKey(o: ArticleOp): (OpKind, Id, Id) {
    (o.op, o.user, o.article)
  }

  /** The shared handler of starring and collecting: refused when the user already has that
      operation on the article, else one row is added. */
  method AddOp(db: Database, op: OpKind, user: Id, articleId: Id, now: Instant, duplicateMsg: string)
    returns (r: ApiResult<()>)
    modifies db`articleOps
    ensures Marked(old(db.articleOps), OpKey, (op, user, articleId)) ==> (
      r == Failure(InvalidRequestArgs, duplicateMsg) && db.articleOps == old(db.articleOps))
    ensures !Marked(old(db.articleOps), OpKey, (op, user, articleId)) ==> (
      r == Success(()) && db.articleOps == old(db.articleOps) + [ArticleOp(op, user, articleId, now)])
  {
    if Marked(db.articleOps, OpKey, (op, user, articleId)) {
      return Failure(InvalidRequestArgs, duplicateMsg);
    }
    db.articleOps := db.articleOps + [ArticleOp(op, user, articleId, now)];
    return Success(());
  }

  /** The shared handler of the two cancellations: refused when the user has no such
      operation on the article, else every such row is deleted. */
  method RemoveOp(db: Database, op: OpKind, user: Id, articleId: Id, stateMsg: string)
    returns (r: ApiResult<()>)
    modifies db`articleOps
    ensures !Marked(old(db.articleOps), OpKey, (op, user, articleId)) ==> (
      r == Failure(InvalidRequestArgs, stateMsg) && db.articleOps == old(db.articleOps))
    ensures Marked(old(db.articleOps), OpKey, (op, user, articleId)) ==> (
      r == Success(()) && db.articleOps == Unmark(old(db.articleOps), OpKey, (op, user, articleId)))
  {
    if !Marked(db.articleOps, OpKey, (op, user, articleId)) {
      return Failure(InvalidRequestArgs, stateMsg);
    }
    db.articleOps := Unmark(db.articleOps, OpKey, (op, user, articleId));
    return Success(());
  }

  /** `user_star_article`, after the article check. */
  method StarArticle(db: Database, user: Id, articleId: Id, now: Instant) returns (r: ApiResult<()>)
    modifies db`articleOps
    ensures Marked(old(db.articleOps), OpKey, (Good, user, articleId)) ==> (
      r == Failure(InvalidRequestArgs, AlreadyStarredMsg) && db.articleOps == old(db.articleOps))
    ensures !Marked(old(db.articleOps), OpKey, (Good, user, articleId)) ==> (
      r == Success(()) && db.articleOps == old(db.articleOps) + [ArticleOp(Good, user, articleId, now)])
  {
    r := AddOp(db, Good, user, articleId, now, AlreadyStarredMsg);
  }

  /** `user_cancel_star_article`, after the article check. */
  method CancelStarArticle(db: Database, user: Id, articleId: Id) returns (r: ApiResult<()>)
    modifies db`articleOps
    ensures !Marked(old(db.articleOps), OpKey, (Good, user, articleId)) ==> (
      r == Failure(InvalidRequestArgs, StarStateMsg) && db.articleOps == old(db.articleOps))
    ensures Marked(old(db.articleOps), OpKey, (Good, user, articleId)) ==> (
      r == Success(()) && db.articleOps == Unmark(old(db.articleOps), OpKey, (Good, user, articleId)))
  {
    r := RemoveOp(db, Good, user, articleId, StarStateMsg);
  }

  /** `user_collect_article`, after the article check. */
  method CollectArticle(db: Database, user: Id, articleId: Id, now: Instant) returns (r: ApiResult<()>)
    modifies db`articleOps
    ensures Marked(old(db.articleOps), OpKey, (Collect, user, articleId)) ==> (
      r == Failure(InvalidRequestArgs, AlreadyCollectedMsg) && db.articleOps == old(db.articleOps))
    ensures !Marked(old(db.articleOps), OpKey, (Collect, user, articleId)) ==> (
      r == Success(()) && db.articleOps == old(db.articleOps) + [ArticleOp(Collect, user, articleId, now)])
  {
    r := AddOp(db, Collect, user, articleId, now, AlreadyCollectedMsg);
  }

  /** `user_cancel_collect_article`, after the article check. */
  method CancelCollectArticle(db: Database, user: Id, articleId: Id) returns (r: ApiResult<()>)
    modifies db`articleOps
    ensures !Marked(old(db.articleOps), OpKey, (Collect, user, articleId)) ==> (
      r == Failure(InvalidRequestArgs, CollectStateMsg) && db.articleOps == old(db.articleOps))
    ensures Marked(old(db.articleOps), OpKey, (Collect, user, articleId)) ==> (
      r == Success(()) && db.articleOps == Unmark(old(db.articleOps), OpKey, (Collect, user, articleId)))
  {
    r := RemoveOp(db, Collect, user, articleId, CollectStateMsg);
  }

  /** The operations of one kind on an article. */
  function OpsOn(ops: seq<ArticleOp>, op: OpKind, articleId: Id): (r: seq<ArticleOp>)
    ensures forall i :: 0 <= i < |r| ==> r[i].op == op && r[i].article == articleId
  {
    Where(ops, (o: ArticleOp) => o.op == op && o.article == articleId)
  }

  /** `get_article_star_count`. */
  function StarCount(ops: seq<ArticleOp>, articleId: Id): nat {
    |OpsOn(ops, Good, articleId)|
  }

  /** `get_article_collect_count`. */
  function CollectCount(ops: seq<ArticleOp>, articleId: Id): nat {
    |OpsOn(ops, Collect, articleId)|
  }

  /** An accepted star or collect raises that count of the article by one and leaves the
      other count, and the counts of other articles, as they were. */
  lemma AddOpCounts(ops: seq<ArticleOp>, op: OpKind, user: Id, articleId: Id, now: Instant, other: OpKind, otherArticle: Id)
    ensures |OpsOn(ops + [ArticleOp(op, user, articleId, now)], op, articleId)| == |OpsOn(ops, op, articleId)| + 1
    ensures (other, otherArticle) != (op, articleId) ==>
      OpsOn(ops + [ArticleOp(op, user, articleId, now)], other, otherArticle) == OpsOn(ops, other, otherArticle)
  {
    MarkCount(ops, ArticleOp(op, user, articleId, now), (o: ArticleOp) => o.op == op && o.article == articleId);
    WhereAppend(ops, [ArticleOp(op, user, articleId, now)], (o: ArticleOp) => o.op == other && o.article == otherArticle);
  }

  /** An accepted cancellation lowers that count of the article by one, when each user holds
      each operation on an article at most once, and leaves every other count as it was. */
  lemma RemoveOpCounts(ops: seq<ArticleOp>, op: OpKind, user: Id, articleId: Id, other: OpKind, otherArticle: Id)
    requires UniqueKeys(ops, OpKey) && Marked(ops, OpKey, (op, user, articleId))
    ensures |OpsOn(Unmark(ops, OpKey, (op, user, articleId)), op, articleId)| == |OpsOn(ops, op, articleId)| - 1
    ensures (other, otherArticle) != (op, articleId) ==>
      OpsOn(Unmark(ops, OpKey, (op, user, articleId)), other, otherArticle) == OpsOn(ops, other, otherArticle)
  {
    UnmarkCount(ops, OpKey, (op, user, articleId), (o: ArticleOp) => o.op == op && o.article == articleId);
    if (other, otherArticle) != (op, articleId) {
      UnmarkCountOthers(ops, OpKey, (op, user, articleId), (o: ArticleOp) => o.op == other && o.article == otherArticle);
    }
  }

  /** Through these handlers a user holds each operation on an article at most once, so a
      star count is the number of users who starred the article. */
  lemma OpsStayUnique(ops: seq<ArticleOp>, op: OpKind, user: Id, articleId: Id, now: Instant)
    requires UniqueKeys(ops, OpKey)
    ensures !Marked(ops, OpKey, (op, user, articleId)) ==> UniqueKeys(ops + [ArticleOp(op, user, articleId, now)], OpKey)
    ensures UniqueKeys(Unmark(ops, OpKey, (op, user, articleId)), OpKey)
  {
    if !Marked(ops, OpKey, (op, user, articleId)) {
      MarkKeepsUnique(ops, OpKey, ArticleOp(op, user, articleId, now));
    }
    UnmarkKeepsUnique(ops, OpKey, (op, user, articleId));
  }

  /** Starring and cancelling the star again restores the table exactly. */
  lemma StarCancelRoundTrip(ops: seq<ArticleOp>, op: OpKind, user: Id, articleId: Id, now: Instant)
    requires !Marked(ops, OpKey, (op, user, articleId))
    ensures Marked(ops + [ArticleOp(op, user, articleId, now)], OpKey, (op, user, articleId))
    ensures Unmark(ops + [ArticleOp(op, user, articleId, now)], OpKey, (op, user, articleId)) == ops
  {
    MarkSets(ops, OpKey, ArticleOp(op, user, articleId, now));
    MarkThenUnmark(ops, OpKey, ArticleOp(op, user, articleId, now));
  }

  // ---------------------------------------------------------------------------------------
  // The bookmarked-article list

  /** An `order_by("-op_time")`: a rearrangement with the latest operation first. */
  ghost predicate NewestFirst(byTime: seq<ArticleOp> -> seq<ArticleOp>) {
    forall s: seq<ArticleOp> :: (multiset(byTime(s)) == multiset(s)
      && forall i, j :: 0 <= i < j < |byTime(s)| ==> byTime(s)[i].opTime >= byTime(s)[j].opTime)
  }

  /** The user's bookmark rows. */
  function MyCollects(ops: seq<ArticleOp>, user: Id): seq<ArticleOp> {
    Where(ops, (o: ArticleOp) => o.user == user && o.op == Collect)
  }

  datatype CollectList<P> = CollectList(page: int, pageAll: nat, count: nat, articles: seq<P>)

  /** `user_get_collect_article_list`, after `query_page`; `project` turns a bookmark row into
      the brief of its article. */
  function CollectedArticleList<P>(ops: seq<ArticleOp>, user: Id, page: int, pageSize: int,
                                   byTime: seq<ArticleOp> -> seq<ArticleOp>, project: ArticleOp -> P): (r: CollectList<P>)
    requires page >= 1 && pageSize >= 1
    requires NewestFirst(byTime)
    ensures r.count == |MyCollects(ops, user)| && r.page == page && r.pageAll == NumPages(r.count, pageSize)
    ensures |r.articles| <= pageSize
    ensures page > r.pageAll ==> r.articles == []
    ensures page <= r.pageAll && r.count > 0 ==> |r.articles| > 0
    ensures |byTime(MyCollects(ops, user))| == r.count
    ensures page <= r.pageAll ==> r.articles == MapSeq(project, PageSlice(byTime(MyCollects(ops, user)), page, pageSize))
  {
    var mine := byTime(MyCollects(ops, user));
    assert |mine| == |multiset(mine)| == |multiset(MyCollects(ops, user))| == |MyCollects(ops, user)|;
    var pageAll := NumPages(|mine|, pageSize);
    CollectList(page, pageAll, |mine|,
                if page > pageAll then [] else MapSeq(project, PageSlice(mine, page, pageSize)))
  }

  /** The rows behind a page of the list are the user's own bookmarks, latest first. */
  lemma CollectedPageIsNewestFirst(ops: seq<ArticleOp>, user: Id, page: int, pageSize: int,
                                   byTime: seq<ArticleOp> -> seq<ArticleOp>)
    requires pageSize >= 1 && NewestFirst(byTime)
    requires 1 <= page <= NumPages(|byTime(MyCollects(ops, user))|, pageSize)
    ensures var rows := PageSlice(byTime(MyCollects(ops, user)), page, pageSize);
      && (forall i :: 0 <= i < |rows| ==> rows[i].user == user && rows[i].op == Collect)
      && (forall i, j :: 0 <= i < j < |rows| ==> rows[i].opTime >= rows[j].opTime)
  {
    var mine := byTime(MyCollects(ops, user));
    var rows := PageSlice(mine, page, pageSize);
    PageBounds(|mine|, page, pageSize);
    var lo := (page - 1) * pageSize;
    forall i | 0 <= i < |rows|
      ensures rows[i] == mine[lo + i] && rows[i].user == user && rows[i].op == Collect
    {
      assert rows[i] == mine[lo + i];
      assert mine[lo + i] in multiset(MyCollects(ops, user));
    }
  }
}
