/** Replies to articles: each reply sits on a numbered floor of the article's thread and may
    quote the reply on another floor. Rows are held in primary-key order, which is the order
    `first()` uses. */
module ReplyApi {
  import opened Wrappers
  import opened Models
  import opened Util
  import opened Seqs

  const NoSuchFloorMsg: string := "引用的楼层不存在"
  const IllegalAccessMsg: string := "非法访问！"

  /** `get_next_floor(article_id)`: 1 for an article without replies, else one above the
      highest floor. */
  function NextFloor(replies: seq<Reply>, articleId: Id): (r: int)
    ensures !Any(replies, (x: Reply) => x.article == articleId) ==> r == 1
    ensures forall i :: 0 <= i < |replies| && replies[i].article == articleId ==> replies[i].floor < r
    ensures Any(replies, (x: Reply) => x.article == articleId) ==>
      exists i :: 0 <= i < |replies| && replies[i].article == articleId && replies[i].floor == r - 1
    decreases |replies|
  {
    if |replies| == 0 then 1
    else
      var rest := NextFloor(replies[1..], articleId);
      assert forall i :: 1 <= i < |replies| ==> replies[i] == replies[1..][i - 1];
      if replies[0].article != articleId then
        assert Any(replies, (x: Reply) => x.article == articleId) ==> Any(replies[1..], (x: Reply) => x.article == articleId);
        rest
      else if !Any(replies[1..], (x: Reply) => x.article == articleId) then replies[0].floor + 1
      else if replies[0].floor + 1 > rest then replies[0].floor + 1
      else rest
  }

  /** `Reply.objects.filter(article_id=..., floor=...).first()`. */
  function FirstOnFloor(replies: seq<Reply>, articleId: Id, floor: int): (r: Option<Reply>)
    ensures r.None? <==> !Any(replies, (x: Reply) => x.article == articleId && x.floor == floor)
    ensures r.Some? ==> exists i :: (0 <= i < |replies| && replies[i] == r.value && r.value.article == articleId && r.value.floor == floor
      && forall j :: 0 <= j < i ==> !(replies[j].article == articleId && replies[j].floor == floor))
    decreases |replies|
  {
    if |replies| == 0 then None
    else if replies[0].article == articleId && replies[0].floor == floor then Some(replies[0])
    else
      var rest := FirstOnFloor(replies[1..], articleId, floor);
      assert forall i :: 1 <= i < |replies| ==> replies[i] == replies[1..][i - 1];
      assert Any(replies, (x: Reply) => x.article == articleId && x.floor == floor)
        ==> Any(replies[1..], (x: Reply) => x.article == articleId && x.floor == floor);
      if rest.Some? then
        var i :| 0 <= i < |replies[1..]| && replies[1..][i] == rest.value
          && forall j :: 0 <= j < i ==> !(replies[1..][j].article == articleId && replies[1..][j].floor == floor);
        assert replies[i + 1] == rest.value;
        rest
      else rest
  }

  /** The `ref_floor` of a body: absent, present but null, or a floor number. */
  datatype RefArg = NoRef | NullRef | RefFloor(floor: int)

  /** `user_new_reply`, after the body gate and the article check; `newId` is the id
      auto-increment hands out. A null `ref_floor` survives `filter_data` and reaches the row
      constructor, which refuses it. The answer carries the id and the floor. */
  method NewReply(db: Database, user: Id, articleId: Id, content: string, ref: RefArg, newId: Id)
    returns (r: ApiResult<(Id, int)>)
    modifies db`replies
    ensures ref.RefFloor? && FirstOnFloor(old(db.replies), articleId, ref.floor).None? ==> (
      r == Failure(InvalidRequestArgs, NoSuchFloorMsg) && db.replies == old(db.replies))
    ensures ref.NullRef? ==> r == Uncaught && db.replies == old(db.replies)
    ensures ref.NoRef? || (ref.RefFloor? && FirstOnFloor(old(db.replies), articleId, ref.floor).Some?) ==> (
      var floor := NextFloor(old(db.replies), articleId);
      var refer := if ref.RefFloor? then Some(FirstOnFloor(old(db.replies), articleId, ref.floor).value.id) else None;
      r == Success((newId, floor)) && db.replies == old(db.replies) + [Reply(newId, user, articleId, floor, refer, content)])
  {
    var refer: Option<Id> := None;
    if ref.RefFloor? {
      var quoted := FirstOnFloor(db.replies, articleId, ref.floor);
      if quoted.None? {
        return Failure(InvalidRequestArgs, NoSuchFloorMsg);
      }
      refer := Some(quoted.value.id);
    }
    if ref.NullRef? {
      return Uncaught;
    }
    var floor := NextFloor(db.replies, articleId);
    db.replies := db.replies + [Reply(newId, user, articleId, floor, refer, content)];
    return Success((newId, floor));
  }

  /** No two replies of one article share a floor. */
  predicate FloorsDistinct(replies: seq<Reply>) {
    forall i, j :: 0 <= i < j < |replies| && replies[i].article == replies[j].article ==> replies[i].floor != replies[j].floor
  }

  /** A new reply lands above every floor of its article, so floors stay distinct. */
  lemma NewFloorIsFresh(replies: seq<Reply>, reply: Reply)
    requires FloorsDistinct(replies)
    requires reply.floor == NextFloor(replies, reply.article)
    ensures forall i :: 0 <= i < |replies| && replies[i].article == reply.article ==> replies[i].floor < reply.floor
    ensures FloorsDistinct(replies + [reply])
  {
    var s := replies + [reply];
    forall i, j | 0 <= i < j < |s| && s[i].article == s[j].article
      ensures s[i].floor != s[j].floor
    {
      if j == |replies| {
        assert s[i] == replies[i];
      } else {
        assert s[i] == replies[i] && s[j] == replies[j];
      }
    }
  }

  /** The author and the administrators may change or delete a reply. */
  predicate MayEdit(user: User, reply: Reply) {
    user.id == reply.user || user.role == AdminRole
  }

  /** `update_reply`, after the reply check. The body is parsed without a key gate: anything but
      an object has no `keys()` for `filter_data`, and bytes that are not UTF-8 fail to decode,
      so both raise. For an object, `content` and `ref` are its `content` and `ref_floor`
      entries. `storeError` is the text of the exception the update raises (a value a column
      refuses, or a null `ref_floor`, which stays in the update under a name that is no column),
      `None` when it succeeds. */
  method UpdateReply<V>(db: Database, user: User, row: nat, body: RequestBody<V>, content: Option<string>, ref: RefArg,
                        storeError: Option<string>) returns (r: ApiResult<()>)
    requires row < |db.replies|
    requires ref.NullRef? ==> storeError.Some?
    modifies db`replies
    ensures var reply := old(db.replies[row]);
      && (!MayEdit(user, reply) ==> r == Failure(InvalidRequestArgs, IllegalAccessMsg) && db.replies == old(db.replies))
      && (MayEdit(user, reply) && !body.Object? ==> r == Uncaught && db.replies == old(db.replies))
      && (MayEdit(user, reply) && body.Object? && ref.RefFloor? && FirstOnFloor(old(db.replies), reply.article, ref.floor).None? ==> (
            r == Failure(InvalidRequestArgs, NoSuchFloorMsg) && db.replies == old(db.replies)))
      && ((MayEdit(user, reply) && body.Object? && !(ref.RefFloor? && FirstOnFloor(old(db.replies), reply.article, ref.floor).None?)
           && storeError.Some?) ==> (
            r == Failure(InvalidRequestArgs, storeError.value) && db.replies == old(db.replies)))
      && ((MayEdit(user, reply) && body.Object? && !(ref.RefFloor? && FirstOnFloor(old(db.replies), reply.article, ref.floor).None?)
           && storeError.None?) ==> (
            var refer := if ref.RefFloor? then Some(FirstOnFloor(old(db.replies), reply.article, ref.floor).value.id) else reply.refer;
            r == Success(()) && db.replies == old(db.replies)[row := reply.(content := content.GetOr(reply.content), refer := refer)]))
  {
    var reply := db.replies[row];
    if !MayEdit(user, reply) {
      return Failure(InvalidRequestArgs, IllegalAccessMsg);
    }
    if !body.Object? {
      return Uncaught;
    }
    var refer := reply.refer;
    if ref.RefFloor? {
      var quoted := FirstOnFloor(db.replies, reply.article, ref.floor);
      if quoted.None? {
        return Failure(InvalidRequestArgs, NoSuchFloorMsg);
      }
      refer := Some(quoted.value.id);
    }
    if storeError.Some? {
      return Failure(InvalidRequestArgs, storeError.value);
    }
    db.replies := db.replies[row := reply.(content := content.GetOr(reply.content), refer := refer)];
    return Success(());
  }

  /** A quote of a deleted reply becomes null (`on_delete=SET_NULL`). */
  function Unquote(x: Reply, deleted: Id): Reply {
    if x.refer == Some(deleted) then x.(refer := None) else x
  }

  /** The replies left after deleting the one with id `deleted`: the row goes and the replies
      quoting it lose their quote. */
  function AfterDelete(replies: seq<Reply>, deleted: Id): seq<Reply> {
    MapSeq((x: Reply) => Unquote(x, deleted), Where(replies, (x: Reply) => x.id != deleted))
  }

  /** `delete_reply`, after the reply check. */
  method DeleteReply(db: Database, user: User, row: nat) returns (r: ApiResult<()>)
    requires row < |db.replies|
    modifies db`replies
    ensures var reply := old(db.replies[row]);
      && (!MayEdit(user, reply) ==> r == Failure(InvalidRequestArgs, IllegalAccessMsg) && db.replies == old(db.replies))
      && (MayEdit(user, reply) ==> r == Success(()) && db.replies == AfterDelete(old(db.replies), reply.id))
  {
    var reply := db.replies[row];
    if !MayEdit(user, reply) {
      return Failure(InvalidRequestArgs, IllegalAccessMsg);
    }
    db.replies := AfterDelete(db.replies, reply.id);
    return Success(());
  }

  /** After a deletion no reply has the deleted id or quotes it. */
  lemma DeleteLeavesNoDangling(replies: seq<Reply>, deleted: Id)
    ensures forall i :: 0 <= i < |AfterDelete(replies, deleted)| ==>
      AfterDelete(replies, deleted)[i].id != deleted && AfterDelete(replies, deleted)[i].refer != Some(deleted)
  {
    var kept := Where(replies, (x: Reply) => x.id != deleted);
    var after := AfterDelete(replies, deleted);
    forall i | 0 <= i < |after|
      ensures after[i].id != deleted && after[i].refer != Some(deleted)
    {
      assert after[i] == Unquote(kept[i], deleted);
      assert kept[i].id != deleted;
    }
  }

  /** Every other reply stays, keeping its id, article, floor, author and content. */
  lemma DeleteKeepsOthers(replies: seq<Reply>, deleted: Id, i: int)
    requires 0 <= i < |replies| && replies[i].id != deleted
    ensures exists k :: 0 <= k < |AfterDelete(replies, deleted)| && AfterDelete(replies, deleted)[k] == Unquote(replies[i], deleted)
  {
    var kept := Where(replies, (x: Reply) => x.id != deleted);
    assert replies[i] in kept;
    var k :| 0 <= k < |kept| && kept[k] == replies[i];
    assert AfterDelete(replies, deleted)[k] == Unquote(replies[i], deleted);
  }
}
