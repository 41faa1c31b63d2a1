/** Order comments: the buyer's comment on a confirmed order, the comment list of a
    commodity and its average grade. */
module CommentApi {
  import opened Wrappers
  import opened Models
  import opened Util
  import opened Seqs
  import opened QueryUtil
  import OrderApi

  /** The number of leading ids that name an existing file: the index of the first id that
      names none, or the length when every id names one. */
  function FirstMissing(ids: seq<Id>, files: set<Id>): (k: nat)
    ensures k <= |ids|
    ensures forall j :: 0 <= j < k ==> ids[j] in files
    ensures k < |ids| ==> ids[k] !in files
    decreases |ids|
  {
    if |ids| == 0 || ids[0] !in files then 0
    else
      var k := FirstMissing(ids[1..], files);
      assert forall j :: 1 <= j < |ids| ==> ids[j] == ids[1..][j - 1];
      1 + k
  }

  /** `comment_order`, after the body gate and the order check: only the buyer, only a
      confirmed order. The order is saved as commented before the comment row is created, so a
      grade outside the 32-bit column breaks that insertion with the order already commented.
      The images are attached one by one; an id that names no file breaks the insertion of its
      link, after the order, the comment and the earlier links are stored. */
  method CommentOrder(db: Database, user: Id, orderId: Id, grade: int, content: Option<string>,
                      images: seq<Id>, newId: Id) returns (r: ApiResult<Id>)
    requires orderId in db.orders
    modifies db`orders, db`comments
    ensures var o := old(db.orders[orderId]);
      && (user != o.user ==> (r == Failure(BadRequestError, OrderApi.IllegalAccessMsg)
            && db.orders == old(db.orders) && db.comments == old(db.comments)))
      && (user == o.user && o.status != Confirmed ==> (r == Failure(InvalidRequestArgs, OrderApi.StatusErrorMsg)
            && db.orders == old(db.orders) && db.comments == old(db.comments)))
      && (user == o.user && o.status == Confirmed && !FitsInteger(grade) ==> (r == Uncaught
            && db.orders == old(db.orders)[orderId := o.(status := Commented)] && db.comments == old(db.comments)))
      && (user == o.user && o.status == Confirmed && FitsInteger(grade) ==> (
            var k := FirstMissing(images, db.files);
            && (k == |images| ==> r == Success(newId))
            && (k < |images| ==> r == Uncaught)
            && db.orders == old(db.orders)[orderId := o.(status := Commented)]
            && db.comments == old(db.comments) + [Comment(newId, orderId, grade, content, set i | 0 <= i < k :: images[i])]))
  {
    var order := db.orders[orderId];
    if user != order.user {
      return Failure(BadRequestError, OrderApi.IllegalAccessMsg);
    }
    if order.status != Confirmed {
      return Failure(InvalidRequestArgs, OrderApi.StatusErrorMsg);
    }
    db.orders := db.orders[orderId := order.(status := Commented)];
    if !FitsInteger(grade) {
      return Uncaught;
    }
    var comment := Comment(newId, orderId, grade, content, {});
    var row := |db.comments|;
    db.comments := db.comments + [comment];
    ghost var k := FirstMissing(images, db.files);
    for i := 0 to |images|
      invariant i <= k
      invariant comment == Comment(newId, orderId, grade, content, set j | 0 <= j < i :: images[j])
      invariant row == |old(db.comments)| && db.comments == old(db.comments) + [comment]
      invariant db.orders == old(db.orders)[orderId := order.(status := Commented)]
    {
      if images[i] !in db.files {
        return Uncaught;
      }
      comment := comment.(images := comment.images + {images[i]});
      db.comments := db.comments[row := comment];
    }
    return Success(newId);
  }

  /** Commenting advances the order along its lifecycle by the comment step. */
  lemma CommentIsLifecycleStep(o: Order)
    requires o.status == Confirmed
    ensures OrderApi.Advance(o.status, OrderApi.CommentStep) == Some(Commented)
  {
  }

  /** Whether a comment belongs to an order of the commodity (`order__commodity_id`). */
  predicate OfCommodity(orders: map<Id, Order>, commodityId: Id, c: Comment) {
    c.order in orders && orders[c.order].commodity == commodityId
  }

  /** `Comment.objects.filter(order__commodity_id=commodity_id)`. */
  function CommodityComments(comments: seq<Comment>, orders: map<Id, Order>, commodityId: Id): seq<Comment> {
    Where(comments, (c: Comment) => OfCommodity(orders, commodityId, c))
  }

  function SumGrades(cs: seq<Comment>): int
    decreases |cs|
  {
    if |cs| == 0 then 0 else cs[0].grade + SumGrades(cs[1..])
  }

  /** `get_commodity_avg_grade(commodity_id)`: `None` without comments, else the mean grade. */
  function AvgGrade(comments: seq<Comment>, orders: map<Id, Order>, commodityId: Id): (r: Option<real>)
    ensures r.None? <==> !Any(comments, (c: Comment) => OfCommodity(orders, commodityId, c))
    ensures r.Some? ==> (|CommodityComments(comments, orders, commodityId)| > 0
      && r.value == SumGrades(CommodityComments(comments, orders, commodityId)) as real / |CommodityComments(comments, orders, commodityId)| as real)
  {
    var cs := CommodityComments(comments, orders, commodityId);
    WhereEmptyIffNone(comments, (c: Comment) => OfCommodity(orders, commodityId, c));
    if cs == [] then None else Some(SumGrades(cs) as real / |cs| as real)
  }

  /** Grades between 1 and 5 add up to between one and five times their number. */
  lemma {:induction false} SumGradesBounds(cs: seq<Comment>)
    requires forall i :: 0 <= i < |cs| ==> 1 <= cs[i].grade <= 5
    ensures |cs| <= SumGrades(cs) <= 5 * |cs|
    decreases |cs|
  {
    if |cs| > 0 {
      assert forall i :: 0 < i < |cs| ==> cs[1..][i - 1] == cs[i];
      SumGradesBounds(cs[1..]);
    }
  }

  /** When every comment has one of the five grades, the average lies between 1 and 5. */
  lemma AvgGradeInRange(comments: seq<Comment>, orders: map<Id, Order>, commodityId: Id)
    requires forall i :: 0 <= i < |comments| ==> 1 <= comments[i].grade <= 5
    requires AvgGrade(comments, orders, commodityId).Some?
    ensures 1.0 <= AvgGrade(comments, orders, commodityId).value <= 5.0
  {
    var cs := CommodityComments(comments, orders, commodityId);
    forall i | 0 <= i < |cs|
      ensures 1 <= cs[i].grade <= 5
    {
      assert cs[i] in comments;
    }
    SumGradesBounds(cs);
    RatioBounds(SumGrades(cs) as real, |cs| as real);
  }

  lemma RatioBounds(s: real, n: real)
    requires n > 0.0 && n <= s <= 5.0 * n
    ensures 1.0 <= s / n <= 5.0
  {
    DivMono(n, s, n);
    DivMono(s, 5.0 * n, n);
    assert n / n == 1.0;
    assert (5.0 * n) / n == 5.0;
  }

  lemma DivMono(a: real, b: real, n: real)
    requires n > 0.0 && a <= b
    ensures a / n <= b / n
  {
    assert b / n - a / n == (b - a) / n;
  }

  const CommentFilterFields: seq<(string, FieldType)> := [("grade", IntType)]
  const CommentOrderFields: seq<string> := ["id", "comment_time", "grade"]

  /** `get_commodity_comment_list`: the comments on the commodity's orders through the
      listing decorators (page size 10 by default) and the pipeline. */
  function CommodityCommentList<V, P>(q: QueryDict, comments: seq<Comment>, orders: map<Id, Order>, commodityId: Id,
                                      coerce: (FieldType, string) -> Coercion<V>, parseInt: string -> Option<int>,
                                      orm: Orm<Comment, V>, project: Comment -> P): (r: ApiResult<Listing<P>>)
    requires Reorders(orm)
    ensures r.Success? ==> r.data.Listing? && r.data.totCount == |CommodityComments(comments, orders, commodityId)|
  {
    ListEndpoint(q, CommentFilterFields, CommentOrderFields, 10, coerce, parseInt,
                 CommodityComments(comments, orders, commodityId), orm, project)
  }

  /** A commodity's comment list shows only comments on orders of that commodity. */
  lemma CommentListIsScoped<V, P>(q: QueryDict, comments: seq<Comment>, orders: map<Id, Order>, commodityId: Id,
                                  coerce: (FieldType, string) -> Coercion<V>, parseInt: string -> Option<int>,
                                  orm: Orm<Comment, V>, project: Comment -> P, i: int)
    requires Reorders(orm)
    requires CommodityCommentList(q, comments, orders, commodityId, coerce, parseInt, orm, project).Success?
    requires 0 <= i < |CommodityCommentList(q, comments, orders, commodityId, coerce, parseInt, orm, project).data.data|
    ensures exists c :: (c in comments && OfCommodity(orders, commodityId, c)
      && CommodityCommentList(q, comments, orders, commodityId, coerce, parseInt, orm, project).data.data[i] == project(c))
  {
    var rows := CommodityComments(comments, orders, commodityId);
    ListEndpointRowsMatch(q, CommentFilterFields, CommentOrderFields, 10, coerce, parseInt, rows, orm, project, i);
  }
}
