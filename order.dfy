/** Orders: pricing from the chosen parameters, creation through the `create_order` database
    procedure, the buyer's and the seller's status changes, closing through the `close_order`
    procedure, and the address update. The procedures' own effects (which order id the claim
    returns, which sale count they leave) are parameters; what the Python code does around
    them is modelled as written. */
module OrderApi {
  import opened Wrappers
  import opened Models
  import opened Util

  /** The bound `create_order` checks prices against (88888888.88), in cents. It is looser
      than the order's price column can store. */
  const PriceCeiling: Cents := 8888888888

  /** Whether the row `create_order` inserts fits the order's columns: the price in the
      `Decimal(8, 2)` price column, the quantity in the 32-bit `num` column and the address in
      its 100 characters. */
  predicate FitsOrderRow(price: Cents, num: int, address: Option<string>) {
    FitsDecimal82(price) && FitsInteger(num) && FitsOptChars(address, OrderAddressMax)
  }

  /** Every non-negative price the column holds passes the check, but the check also lets
      through prices the column cannot hold: 1000000.00 is one. */
  lemma CeilingLooserThanColumn(p: Cents)
    requires 0 <= p && FitsDecimal82(p)
    ensures p <= PriceCeiling
    ensures 100000000 <= PriceCeiling && !FitsDecimal82(100000000)
  {
  }

  const IllegalAccessMsg: string := "非法访问！"
  const IllegalOrderMsg: string := "非法订单"
  const SoldOutMsg: string := "很抱歉，该商品被抢光了"
  const CloseFailedMsg: string := "订单关闭失败"
  const StatusErrorMsg: string := "订单状态出出错"

  // ---------------------------------------------------------------- the order lifecycle

  /** The status changes an API call makes on an order by itself. */
  datatype Step = PayStep | DeliverStep | ConfirmStep | CommentStep

  /** The only status each step accepts. */
  function Source(step: Step): OrderStatus {
    match step
    case PayStep => Ordered
    case DeliverStep => Paid
    case ConfirmStep => Delivered
    case CommentStep => Confirmed
  }

  /** The status each step leaves. */
  function Target(step: Step): OrderStatus {
    match step
    case PayStep => Paid
    case DeliverStep => Delivered
    case ConfirmStep => Confirmed
    case CommentStep => Commented
  }

  /** The status after a step, or `None` when the call is refused with "订单状态出出错". */
  function Advance(status: OrderStatus, step: Step): (r: Option<OrderStatus>)
    ensures r.Some? <==> status == Source(step)
    ensures r.Some? ==> r.value == Target(step) && r.value != status
  {
    if status == Source(step) then Some(Target(step)) else None
  }

  /** Position along ordered, paid, delivered, confirmed, commented; closed sits apart. */
  function Rank(s: OrderStatus): nat {
    match s
    case Ordered => 0
    case Paid => 1
    case Delivered => 2
    case Confirmed => 3
    case Commented => 4
    case Closed => 0
  }

  /** Every accepted step moves the order exactly one place forward and never closes it. */
  lemma AdvanceMovesForward(s: OrderStatus, step: Step)
    requires Advance(s, step).Some?
    ensures Rank(Advance(s, step).value) == Rank(s) + 1
    ensures s != Closed && Advance(s, step).value != Closed
  {
  }

  /** A step is never accepted twice in a row: the second call is refused. */
  lemma StepNotRepeatable(s: OrderStatus, step: Step)
    requires Advance(s, step).Some?
    ensures Advance(Advance(s, step).value, step).None?
  {
  }

  /** Commented and closed orders accept no step. */
  lemma TerminalStatuses(step: Step)
    ensures Advance(Commented, step).None? && Advance(Closed, step).None?
  {
  }

  /** Each status is the source of at most one step, so the steps form a single chain. */
  lemma OneStepPerStatus(s: OrderStatus, a: Step, b: Step)
    requires Advance(s, a).Some? && Advance(s, b).Some?
    ensures a == b
  {
  }

  /** The status after a series of calls; a refused call changes nothing. */
  function Run(s: OrderStatus, steps: seq<Step>): OrderStatus
    decreases |steps|
  {
    if |steps| == 0 then s
    else Run(Advance(s, steps[0]).GetOr(s), steps[1..])
  }

  /** Calls never move an order backwards, move it at most one place each, and never close
      an open order. */
  lemma {:induction false} RunProgress(s: OrderStatus, steps: seq<Step>)
    ensures Rank(s) <= Rank(Run(s, steps)) <= Rank(s) + |steps|
    ensures (s == Closed) == (Run(s, steps) == Closed)
    decreases |steps|
  {
    if |steps| > 0 {
      var next := Advance(s, steps[0]).GetOr(s);
      if Advance(s, steps[0]).Some? {
        AdvanceMovesForward(s, steps[0]);
      }
      RunProgress(next, steps[1..]);
    }
  }

  /** Reaching "commented" from "ordered" takes at least the four steps of the chain. */
  lemma CommentedNeedsFourCalls(steps: seq<Step>)
    requires Run(Ordered, steps) == Commented
    ensures |steps| >= 4
  {
    RunProgress(Ordered, steps);
  }

  // ---------------------------------------------------------------- pricing

  /** Whether every chosen parameter id names a parameter. */
  predicate AllKnown(params: map<Id, Parameter>, ids: seq<Id>) {
    forall i :: 0 <= i < |ids| ==> ids[i] in params
  }

  /** The surcharges of the chosen parameters, one per occurrence. */
  function SumAdds(params: map<Id, Parameter>, ids: seq<Id>): Cents
    requires AllKnown(params, ids)
    decreases |ids|
  {
    if |ids| == 0 then 0 else SumAdds(params, ids[..|ids| - 1]) + params[ids[|ids| - 1]].add
  }

  /** Surcharges add up over concatenated choices. */
  lemma {:induction false} SumAddsAppend(params: map<Id, Parameter>, a: seq<Id>, b: seq<Id>)
    requires AllKnown(params, a) && AllKnown(params, b)
    ensures AllKnown(params, a + b)
    ensures SumAdds(params, a + b) == SumAdds(params, a) + SumAdds(params, b)
    decreases |b|
  {
    assert forall i :: 0 <= i < |a| + |b| ==> (a + b)[i] == if i < |a| then a[i] else b[i - |a|];
    if |b| > 0 {
      var b' := b[..|b| - 1];
      assert (a + b)[..|a + b| - 1] == a + b';
      assert (a + b)[|a + b| - 1] == b[|b| - 1];
      SumAddsAppend(params, a, b');
    } else {
      assert a + b == a;
    }
  }

  /** `get_comm_para_price(comm, para_list)` per unit: the discounted price plus every chosen
      surcharge; `None` where a `Parameter.objects.get` raises. */
  method CommParaPrice(comm: Commodity, params: map<Id, Parameter>, paraList: seq<Id>) returns (r: Option<Cents>)
    ensures r.Some? <==> AllKnown(params, paraList)
    ensures r.Some? ==> r.value == comm.price - comm.discount + SumAdds(params, paraList)
  {
    var basePrice := comm.price - comm.discount;
    for i := 0 to |paraList|
      invariant AllKnown(params, paraList[..i])
      invariant basePrice == comm.price - comm.discount + SumAdds(params, paraList[..i])
    {
      if paraList[i] !in params {
        return None;
      }
      assert paraList[..i + 1][..i] == paraList[..i];
      basePrice := basePrice + params[paraList[i]].add;
    }
    assert paraList[..|paraList|] == paraList;
    return Some(basePrice);
  }

  /** `check_paras(para_list)`. */
  method CheckParas(params: map<Id, Parameter>, paraList: seq<Id>) returns (ok: bool)
    ensures ok <==> AllKnown(params, paraList)
  {
    for i := 0 to |paraList|
      invariant AllKnown(params, paraList[..i])
    {
      if paraList[i] !in params {
        return false;
      }
    }
    return true;
  }

  // ---------------------------------------------------------------- commodity status around orders

  /** The status `create_order` leaves on the commodity object it loaded before the claim:
      closed once that object's sale count has reached its total. */
  function StatusAfterCreate(c: Commodity): (s: CommStatus)
    ensures s == CommClosed <==> c.status == CommClosed || c.sale >= c.total
    ensures s != CommClosed ==> s == c.status
  {
    if c.sale >= c.total && c.status != CommClosed then CommClosed else c.status
  }

  /** The status `close_order` leaves on the commodity it reads after the procedure: a closed
      commodity with stock left goes back on sale; any other status stays. */
  function StatusAfterClose(c: Commodity): (s: CommStatus)
    ensures c.status != CommClosed ==> s == c.status
    ensures c.status == CommClosed ==> (s == OnSell <==> c.sale < c.total)
    ensures c.status == CommClosed && c.sale >= c.total ==> s == CommClosed
  {
    if c.sale < c.total && c.status == CommClosed then OnSell else c.status
  }

  /** A commodity on sale that an order closes as sold out is put back on sale by closing an
      order once the sale count is below the total again. */
  lemma CloseUndoesSoldOut(c: Commodity, laterSale: int)
    requires c.status == OnSell && c.sale >= c.total && laterSale < c.total
    ensures StatusAfterCreate(c) == CommClosed
    ensures StatusAfterClose(c.(status := StatusAfterCreate(c), sale := laterSale)) == c.status
  {
  }

  // ---------------------------------------------------------------- handlers

  /** The unit price times the quantity, or `None` where a parameter lookup raises. */
  function OrderPrice(comm: Commodity, params: map<Id, Parameter>, paraList: seq<Id>, num: int): Option<Cents> {
    if AllKnown(params, paraList) then Some((comm.price - comm.discount + SumAdds(params, paraList)) * num) else None
  }

  /** The order row the `create_order` procedure inserts carries the arguments it is called
      with: the buyer, the commodity, the quantity, the total price, the address and the note. */
  predicate ProcedureRow(o: Order, user: Id, commodityId: Id, num: int, address: Option<string>,
                         note: Option<string>, price: Option<Cents>) {
    o.user == user && o.commodity == commodityId && o.num == num && o.address == address && o.note == note
    && (price.Some? ==> o.price == price.value)
  }

  /** `create_order`, after the body gate and the commodity check. The procedure is called
      with the quantity: it answers `procRet` (0 when sold out), leaves the commodity's sale
      count at `procSale` and, for a non-zero answer, inserts `procOrder` under that id. A price
      that passes the check but does not fit the price column, a quantity outside the 32-bit
      `num` column, or an address longer than its column makes that insertion raise, which
      undoes the whole call. The Python code then adds the chosen parameters to the order and,
      judging by the commodity object it read before the call, may close the commodity; that
      `save()` writes the whole stale object. */
  method CreateOrder(db: Database, user: Id, commodityId: Id, num: int, selectParas: seq<Id>,
                     address: Option<string>, note: Option<string>,
                     procRet: Id, procSale: int, procOrder: Order) returns (r: ApiResult<Id>)
    requires commodityId in db.commodities
    requires procRet != 0 ==> procOrder.id == procRet && procRet !in db.orders
    requires procRet != 0 ==> ProcedureRow(procOrder, user, commodityId, num, address, note,
                                           OrderPrice(db.commodities[commodityId], db.parameters, selectParas, num))
    modifies db`orders, db`commodities
    ensures var comm := old(db.commodities[commodityId]);
      var price := OrderPrice(comm, old(db.parameters), selectParas, num);
      && (price.None? ==> r == Uncaught && db.orders == old(db.orders) && db.commodities == old(db.commodities))
      && (price.Some? && price.value > PriceCeiling ==> (
            r == Failure(InvalidRequestArgs, IllegalOrderMsg) && db.orders == old(db.orders) && db.commodities == old(db.commodities)))
      && (price.Some? && price.value <= PriceCeiling && procRet == 0 ==> (
            r == Failure(InvalidRequestArgs, SoldOutMsg) && db.orders == old(db.orders)
            && db.commodities == old(db.commodities)[commodityId := comm.(sale := procSale)]))
      && (price.Some? && price.value <= PriceCeiling && procRet != 0 && !FitsOrderRow(price.value, num, address) ==> (
            r == Uncaught && db.orders == old(db.orders) && db.commodities == old(db.commodities)))
      && (price.Some? && price.value <= PriceCeiling && procRet != 0 && FitsOrderRow(price.value, num, address) ==> (
            r == Success(procRet) && procRet !in old(db.orders) && procRet in db.orders
            && db.orders[procRet].user == user && db.orders[procRet].commodity == commodityId
            && db.orders[procRet].price == price.value && db.orders[procRet].num == num
            && db.orders[procRet].address == address && db.orders[procRet].note == note
            && db.orders == old(db.orders)[procRet := procOrder.(selectParas := procOrder.selectParas + set i | 0 <= i < |selectParas| :: selectParas[i])]
            && db.commodities == old(db.commodities)[commodityId :=
                 if StatusAfterCreate(comm) != comm.status then comm.(status := StatusAfterCreate(comm)) else comm.(sale := procSale)]))
  {
    var comm := db.commodities[commodityId];
    var _ := CheckParas(db.parameters, selectParas);
    var unit := CommParaPrice(comm, db.parameters, selectParas);
    if unit.None? {
      return Uncaught;
    }
    var price := unit.value * num;
    if price > PriceCeiling {
      return Failure(InvalidRequestArgs, IllegalOrderMsg);
    }
    // the procedure call
    if procRet != 0 && !FitsOrderRow(price, num, address) {
      return Uncaught;
    }
    db.commodities := db.commodities[commodityId := db.commodities[commodityId].(sale := procSale)];
    var ret := procRet;
    if ret == 0 {
      return Failure(InvalidRequestArgs, SoldOutMsg);
    }
    db.orders := db.orders[ret := procOrder];
    var order := db.orders[ret];
    for i := 0 to |selectParas|
      invariant order == procOrder.(selectParas := procOrder.selectParas + set k | 0 <= k < i :: selectParas[k])
      invariant db.orders == old(db.orders)[ret := order]
      invariant db.commodities == old(db.commodities)[commodityId := old(db.commodities)[commodityId].(sale := procSale)]
    {
      order := order.(selectParas := order.selectParas + {selectParas[i]});
      db.orders := db.orders[ret := order];
    }
    if comm.sale >= comm.total && comm.status != CommClosed {
      comm := comm.(status := CommClosed);
      db.commodities := db.commodities[commodityId := comm];
    }
    return Success(ret);
  }

  /** Shared shape of the buyer's and the seller's status changes: the permission check, then the
      status check, then the step with its time stamp. */
  function Stamp(o: Order, step: Step, now: Instant): (o': Order)
    ensures o'.id == o.id && o'.user == o.user && o'.commodity == o.commodity && o'.price == o.price
    ensures Advance(o.status, step).Some? ==> o'.status == Advance(o.status, step).value
    ensures step == PayStep ==> o' == o.(status := Target(step), payTime := Some(now))
    ensures step == DeliverStep ==> o' == o.(status := Target(step), deliverTime := Some(now))
    ensures step == ConfirmStep ==> o' == o.(status := Target(step), confirmTime := Some(now))
    ensures step == CommentStep ==> o' == o.(status := Target(step))
  {
    match step
    case PayStep => o.(status := Paid, payTime := Some(now))
    case DeliverStep => o.(status := Delivered, deliverTime := Some(now))
    case ConfirmStep => o.(status := Confirmed, confirmTime := Some(now))
    case CommentStep => o.(status := Commented)
  }

  method ApplyStep(db: Database, orderId: Id, permitted: bool, step: Step, now: Instant) returns (r: ApiResult<()>)
    requires orderId in db.orders
    modifies db`orders
    ensures var o := old(db.orders[orderId]);
      && (!permitted ==> r == Failure(BadRequestError, IllegalAccessMsg) && db.orders == old(db.orders))
      && (permitted && Advance(o.status, step).None? ==> r == Failure(InvalidRequestArgs, StatusErrorMsg) && db.orders == old(db.orders))
      && (permitted && Advance(o.status, step).Some? ==> r == Success(()) && db.orders == old(db.orders)[orderId := Stamp(o, step, now)])
  {
    var order := db.orders[orderId];
    if !permitted {
      return Failure(BadRequestError, IllegalAccessMsg);
    }
    if order.status != Source(step) {
      return Failure(InvalidRequestArgs, StatusErrorMsg);
    }
    db.orders := db.orders[orderId := Stamp(order, step, now)];
    return Success(());
  }

  /** `pay_order`: only the buyer, only an order in "ordered". */
  method PayOrder(db: Database, user: Id, orderId: Id, now: Instant) returns (r: ApiResult<()>)
    requires orderId in db.orders
    modifies db`orders
    ensures var o := old(db.orders[orderId]);
      && (user != o.user ==> r == Failure(BadRequestError, IllegalAccessMsg) && db.orders == old(db.orders))
      && (user == o.user && o.status != Ordered ==> r == Failure(InvalidRequestArgs, StatusErrorMsg) && db.orders == old(db.orders))
      && (user == o.user && o.status == Ordered ==> (
            r == Success(()) && db.orders == old(db.orders)[orderId := o.(status := Paid, payTime := Some(now))]))
  {
    var order := db.orders[orderId];
    r := ApplyStep(db, orderId, user == order.user, PayStep, now);
  }

  /** Whether `user` may act for the shop: its owner or one of its administrators. */
  predicate ManagesShop(shop: Shop, user: Id) {
    user == shop.owner || user in shop.admins
  }

  /** `deliver_order`: only the owner or an administrator of the commodity's shop, only a paid order. */
  method DeliverOrder(db: Database, user: Id, orderId: Id, now: Instant) returns (r: ApiResult<()>)
    requires orderId in db.orders
    requires db.orders[orderId].commodity in db.commodities
    requires db.commodities[db.orders[orderId].commodity].shop in db.shops
    modifies db`orders
    ensures var o := old(db.orders[orderId]);
      var shop := old(db.shops[db.commodities[o.commodity].shop]);
      && (!ManagesShop(shop, user) ==> r == Failure(BadRequestError, IllegalAccessMsg) && db.orders == old(db.orders))
      && (ManagesShop(shop, user) && o.status != Paid ==> r == Failure(InvalidRequestArgs, StatusErrorMsg) && db.orders == old(db.orders))
      && (ManagesShop(shop, user) && o.status == Paid ==> (
            r == Success(()) && db.orders == old(db.orders)[orderId := o.(status := Delivered, deliverTime := Some(now))]))
  {
    var order := db.orders[orderId];
    var shop := db.shops[db.commodities[order.commodity].shop];
    r := ApplyStep(db, orderId, ManagesShop(shop, user), DeliverStep, now);
  }

  /** `confirm_order`: only the buyer, only a delivered order. */
  method ConfirmOrder(db: Database, user: Id, orderId: Id, now: Instant) returns (r: ApiResult<()>)
    requires orderId in db.orders
    modifies db`orders
    ensures var o := old(db.orders[orderId]);
      && (user != o.user ==> r == Failure(BadRequestError, IllegalAccessMsg) && db.orders == old(db.orders))
      && (user == o.user && o.status != Delivered ==> r == Failure(InvalidRequestArgs, StatusErrorMsg) && db.orders == old(db.orders))
      && (user == o.user && o.status == Delivered ==> (
            r == Success(()) && db.orders == old(db.orders)[orderId := o.(status := Confirmed, confirmTime := Some(now))]))
  {
    var order := db.orders[orderId];
    r := ApplyStep(db, orderId, user == order.user, ConfirmStep, now);
  }

  /** `close_order`: only the buyer, only an order in "ordered". The procedure closes this
      order without moving it to another id, buyer or commodity, and leaves the order row as `procOrder` and the commodity's sale count at `procSale`; the commodity is read
      after it, so the re-opening decision sees the procedure's values. */
  method CloseOrder(db: Database, user: Id, orderId: Id, procSale: int, procOrder: Order) returns (r: ApiResult<()>)
    requires orderId in db.orders
    requires db.orders[orderId].commodity in db.commodities
    requires procOrder.id == orderId && procOrder.user == db.orders[orderId].user
    requires procOrder.commodity == db.orders[orderId].commodity
    modifies db`orders, db`commodities
    ensures var o := old(db.orders[orderId]);
      var after := old(db.commodities[o.commodity]).(sale := procSale);
      && (user != o.user ==> (r == Failure(BadRequestError, IllegalAccessMsg)
            && db.orders == old(db.orders) && db.commodities == old(db.commodities)))
      && (user == o.user && o.status != Ordered ==> (r == Failure(InvalidRequestArgs, CloseFailedMsg)
            && db.orders == old(db.orders) && db.commodities == old(db.commodities)))
      && (user == o.user && o.status == Ordered ==> (r == Success(())
            && db.orders == old(db.orders)[orderId := procOrder]
            && db.commodities == old(db.commodities)[o.commodity := after.(status := StatusAfterClose(after))]))
  {
    var order := db.orders[orderId];
    if user != order.user {
      return Failure(BadRequestError, IllegalAccessMsg);
    }
    if order.status != Ordered {
      return Failure(InvalidRequestArgs, CloseFailedMsg);
    }
    // the procedure call
    db.orders := db.orders[orderId := procOrder];
    db.commodities := db.commodities[order.commodity := db.commodities[order.commodity].(sale := procSale)];
    var commodity := db.commodities[order.commodity];
    if commodity.sale < commodity.total && commodity.status == CommClosed {
      commodity := commodity.(status := OnSell);
      db.commodities := db.commodities[order.commodity := commodity];
    }
    return Success(());
  }

  /** `update_order_address`: only the buyer; `storeError` is the text of the exception the
      update raises (a value the column refuses, such as an address over 100 characters), `None`
      when it succeeds. */
  method UpdateOrderAddress(db: Database, user: Id, orderId: Id, address: string, storeError: Option<string>)
    returns (r: ApiResult<()>)
    requires orderId in db.orders
    requires !FitsChars(address, OrderAddressMax) ==> storeError.Some?
    modifies db`orders
    ensures var o := old(db.orders[orderId]);
      && (user != o.user ==> r == Failure(BadRequestError, IllegalAccessMsg) && db.orders == old(db.orders))
      && (user == o.user && storeError.Some? ==> r == Failure(InvalidRequestArgs, storeError.value) && db.orders == old(db.orders))
      && (user == o.user && storeError.None? ==> r == Success(()) && db.orders == old(db.orders)[orderId := o.(address := Some(address))])
    ensures user == old(db.orders[orderId].user) && !FitsChars(address, OrderAddressMax) ==> (
      r.Failure? && r.code == InvalidRequestArgs && db.orders == old(db.orders))
  {
    if user != db.orders[orderId].user {
      return Failure(BadRequestError, IllegalAccessMsg);
    }
    if storeError.Some? {
      return Failure(InvalidRequestArgs, storeError.value);
    }
    db.orders := db.orders[orderId := db.orders[orderId].(address := Some(address))];
    return Success(());
  }
}
