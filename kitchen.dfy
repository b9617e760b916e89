/**
 * The kitchen display: two columns of order cards, filled by the initial
 * fetch of all orders and kept current by the messages the kitchen channel
 * pushes (a new order, or an order whose status changed).
 */
module Kitchen {
  import opened Wrappers
  import opened Domain
  import opened OrderFlow

  /** A message of the kitchen channel: its `type` and its order payload. */
  datatype Message = Message(kind: string, payload: Order)

  const NewOrderKind: string := "NEW_ORDER"
  const StatusUpdatedKind: string := "ORDER_STATUS_UPDATED"

  /** The two columns of the display: pending (with cancelled orders shown
      struck through) and in preparation. */
  datatype Board = Board(pending: seq<Order>, inProgress: seq<Order>)

  // ------------------------------------------------------- list operations

  /** `orders.filter(o => o.status === s)`. */
  function WithStatus(orders: seq<Order>, s: Status): (r: seq<Order>)
    ensures |r| <= |orders|
    ensures forall o :: o in r <==> o in orders && o.status == s
  {
    if orders == [] then []
    else (if orders[0].status == s then [orders[0]] else []) + WithStatus(orders[1..], s)
  }

  /** `orders.filter(o => o.id !== id)`. */
  function WithoutId(orders: seq<Order>, id: string): (r: seq<Order>)
    ensures |r| <= |orders|
    ensures forall o :: o in r <==> o in orders && o.id != id
  {
    if orders == [] then []
    else if orders[0].id != id then [orders[0]] + WithoutId(orders[1..], id)
    else WithoutId(orders[1..], id)
  }

  /** How many cards of the list carry the order `id`. */
  function CountId(orders: seq<Order>, id: string): nat {
    if orders == [] then 0
    else (if orders[0].id == id then 1 else 0) + CountId(orders[1..], id)
  }

  // ----------------------------------------------------- the specification

  /** The columns after the initial fetch: the pending and the preparing orders, in fetch order. */
  function InitialBoard(orders: seq<Order>): (b: Board)
    ensures WellPlaced(b)
  {
    Board(WithStatus(orders, Pending), WithStatus(orders, Preparing))
  }

  /** A status update: the order leaves both columns, then goes to the front
      of the pending column when it is pending or cancelled, to the front of
      the preparation column when it is being prepared, and nowhere otherwise. */
  function ApplyStatusUpdate(b: Board, u: Order): (r: Board)
    ensures |r.pending| + |r.inProgress| <= |b.pending| + |b.inProgress| + 1
  {
    var pending := WithoutId(b.pending, u.id);
    var inProgress := WithoutId(b.inProgress, u.id);
    if u.status == Pending then Board([u] + pending, inProgress)
    else if u.status == Preparing then Board(pending, [u] + inProgress)
    else if u.status == Cancelled then Board([u] + pending, inProgress)
    else Board(pending, inProgress)
  }

  /** The columns after one message; a message of any other type changes nothing. */
  function ApplyMessage(b: Board, m: Message): Board {
    if m.kind == NewOrderKind then b.(pending := [m.payload] + b.pending)
    else if m.kind == StatusUpdatedKind then ApplyStatusUpdate(b, m.payload)
    else b
  }

  /** The column an order of status `s` belongs in, as the status update places it. */
  predicate ShownPending(s: Status) {
    s == Pending || s == Cancelled
  }

  /** Every card sits in the column of its status. */
  predicate WellPlaced(b: Board) {
    && (forall o | o in b.pending :: ShownPending(o.status))
    && (forall o | o in b.inProgress :: o.status == Preparing)
  }

  /** No order has two cards on the board, in one column or across both. */
  ghost predicate NoDuplicates(b: Board) {
    forall id :: CountId(b.pending, id) + CountId(b.inProgress, id) <= 1
  }

  // ------------------------------------------------------------- the class

  class KitchenDisplay {
    var pending: seq<Order>
    var inProgress: seq<Order>

    function Current(): Board
      reads this
    {
      Board(pending, inProgress)
    }

    constructor()
      ensures Current() == Board([], [])
    {
      pending, inProgress := [], [];
    }

    /** The response of the initial fetch of all orders. */
    method Load(orders: seq<Order>)
      modifies this
      ensures Current() == InitialBoard(orders)
      ensures WellPlaced(Current())
    {
      pending := WithStatus(orders, Pending);
      inProgress := WithStatus(orders, Preparing);
    }

    /** The `onmessage` handler. */
    method OnMessage(m: Message)
      modifies this
      ensures Current() == ApplyMessage(old(Current()), m)
    {
      var order := m.payload;
      if m.kind == NewOrderKind {
        pending := [order] + pending;
      } else if m.kind == StatusUpdatedKind {
        pending := WithoutId(pending, order.id);
        inProgress := WithoutId(inProgress, order.id);
        if order.status == Pending {
          pending := [order] + pending;
        } else if order.status == Preparing {
          inProgress := [order] + inProgress;
        } else if order.status == Cancelled {
          pending := [order] + pending;
        }
      }
    }
  }

  // ---------------------------------------------------------------- lemmas

  lemma {:induction false} CountIdWithout(orders: seq<Order>, id: string, x: string)
    ensures CountId(WithoutId(orders, id), x) == if x == id then 0 else CountId(orders, x)
  {
    if orders != [] {
      CountIdWithout(orders[1..], id, x);
      if orders[0].id != id {
        assert ([orders[0]] + WithoutId(orders[1..], id))[1..] == WithoutId(orders[1..], id);
      }
    }
  }

  lemma {:induction false} WithoutIdTwice(orders: seq<Order>, id: string)
    ensures WithoutId(WithoutId(orders, id), id) == WithoutId(orders, id)
  {
    if orders != [] {
      WithoutIdTwice(orders[1..], id);
      if orders[0].id != id {
        assert ([orders[0]] + WithoutId(orders[1..], id))[1..] == WithoutId(orders[1..], id);
      }
    }
  }

  lemma WithoutIdFront(u: Order, orders: seq<Order>)
    ensures WithoutId([u] + orders, u.id) == WithoutId(orders, u.id)
  {
    assert ([u] + orders)[1..] == orders;
  }

  lemma CountIdFront(u: Order, orders: seq<Order>, x: string)
    ensures CountId([u] + orders, x) == (if u.id == x then 1 else 0) + CountId(orders, x)
  {
    assert ([u] + orders)[1..] == orders;
  }

  /** After a status update the order has exactly one card, at the front of
      the column of its status, when that status is shown, and no card
      otherwise; every other card stays where it was, in the same order. */
  lemma StatusUpdatePlacement(b: Board, u: Order)
    ensures var r := ApplyStatusUpdate(b, u);
      && CountId(r.pending, u.id) == (if ShownPending(u.status) then 1 else 0)
      && CountId(r.inProgress, u.id) == (if u.status == Preparing then 1 else 0)
      && (ShownPending(u.status) ==> r.pending[0] == u)
      && (u.status == Preparing ==> r.inProgress[0] == u)
      && WithoutId(r.pending, u.id) == WithoutId(b.pending, u.id)
      && WithoutId(r.inProgress, u.id) == WithoutId(b.inProgress, u.id)
  {
    var p := WithoutId(b.pending, u.id);
    var q := WithoutId(b.inProgress, u.id);
    CountIdWithout(b.pending, u.id, u.id);
    CountIdWithout(b.inProgress, u.id, u.id);
    CountIdFront(u, p, u.id);
    CountIdFront(u, q, u.id);
    WithoutIdTwice(b.pending, u.id);
    WithoutIdTwice(b.inProgress, u.id);
    WithoutIdFront(u, p);
    WithoutIdFront(u, q);
  }

  /** A repeated status update leaves the columns as the first one did. */
  lemma StatusUpdateIdempotent(b: Board, m: Message)
    requires m.kind == StatusUpdatedKind
    ensures ApplyMessage(ApplyMessage(b, m), m) == ApplyMessage(b, m)
  {
    StatusUpdateTwice(b, m.payload);
  }

  lemma StatusUpdateTwice(b: Board, u: Order)
    ensures ApplyStatusUpdate(ApplyStatusUpdate(b, u), u) == ApplyStatusUpdate(b, u)
  {
    var p := WithoutId(b.pending, u.id);
    var q := WithoutId(b.inProgress, u.id);
    WithoutIdTwice(b.pending, u.id);
    WithoutIdTwice(b.inProgress, u.id);
    WithoutIdFront(u, p);
    WithoutIdFront(u, q);
    if ShownPending(u.status) {
      assert ApplyStatusUpdate(b, u) == Board([u] + p, q);
      assert ApplyStatusUpdate(Board([u] + p, q), u) == Board([u] + p, q);
    } else if u.status == Preparing {
      assert ApplyStatusUpdate(b, u) == Board(p, [u] + q);
      assert ApplyStatusUpdate(Board(p, [u] + q), u) == Board(p, [u] + q);
    } else {
      assert ApplyStatusUpdate(b, u) == Board(p, q);
      assert ApplyStatusUpdate(Board(p, q), u) == Board(p, q);
    }
  }

  /** A new order is put in front of the pending column without looking for
      an earlier card of the same order, so a repeated message duplicates it. */
  lemma NewOrderAddsCard(b: Board, m: Message)
    requires m.kind == NewOrderKind
    ensures var r := ApplyMessage(b, m);
      && r.pending[0] == m.payload
      && r.pending[1..] == b.pending
      && r.inProgress == b.inProgress
      && CountId(r.pending, m.payload.id) == CountId(b.pending, m.payload.id) + 1
  {
    assert ([m.payload] + b.pending)[1..] == b.pending;
  }

  lemma OtherMessagesIgnored(b: Board, m: Message)
    requires m.kind != NewOrderKind && m.kind != StatusUpdatedKind
    ensures ApplyMessage(b, m) == b
  {
  }

  /** Status updates keep every card in the column of its status; a new
      order does exactly when it is pending or cancelled. */
  lemma MessagesKeepPlacement(b: Board, m: Message)
    requires WellPlaced(b)
    ensures m.kind != NewOrderKind || ShownPending(m.payload.status) ==> WellPlaced(ApplyMessage(b, m))
    ensures m.kind == NewOrderKind && !ShownPending(m.payload.status) ==> !WellPlaced(ApplyMessage(b, m))
  {
    if m.kind == NewOrderKind {
      assert m.payload in ApplyMessage(b, m).pending;
    }
  }

  /** A status update never gives an order a second card: boards without
      duplicates stay so. */
  lemma StatusUpdateKeepsNoDuplicates(b: Board, m: Message)
    requires NoDuplicates(b)
    requires m.kind == StatusUpdatedKind
    ensures NoDuplicates(ApplyMessage(b, m))
  {
    var u := m.payload;
    var p := WithoutId(b.pending, u.id);
    var q := WithoutId(b.inProgress, u.id);
    var r := ApplyMessage(b, m);
    if ShownPending(u.status) {
      assert r == Board([u] + p, q);
    } else if u.status == Preparing {
      assert r == Board(p, [u] + q);
    } else {
      assert r == Board(p, q);
    }
    forall x ensures CountId(r.pending, x) + CountId(r.inProgress, x) <= 1 {
      CountIdWithout(b.pending, u.id, x);
      CountIdWithout(b.inProgress, u.id, x);
      CountIdFront(u, p, x);
      CountIdFront(u, q, x);
    }
  }

  /** Filtering by status goes through the list in order: the filter of a
      concatenation is the concatenation of the filters. */
  lemma {:induction false} WithStatusAppend(a: seq<Order>, b: seq<Order>, s: Status)
    ensures WithStatus(a + b, s) == WithStatus(a, s) + WithStatus(b, s)
  {
    if a == [] {
      assert a + b == b;
    } else {
      assert (a + b)[1..] == a[1..] + b;
      WithStatusAppend(a[1..], b, s);
    }
  }

  /** Filtering by status keeps every order of that status as often as the
      list holds it, and no other. */
  lemma {:induction false} WithStatusMultiplicity(orders: seq<Order>, s: Status)
    ensures forall x :: multiset(WithStatus(orders, s))[x] == if x.status == s then multiset(orders)[x] else 0
  {
    if orders != [] {
      WithStatusMultiplicity(orders[1..], s);
      assert orders == [orders[0]] + orders[1..];
    }
  }

  /** Removing an id goes through the list in order: the cards that stay
      keep their relative order. */
  lemma {:induction false} WithoutIdAppend(a: seq<Order>, b: seq<Order>, id: string)
    ensures WithoutId(a + b, id) == WithoutId(a, id) + WithoutId(b, id)
  {
    if a == [] {
      assert a + b == b;
    } else {
      assert (a + b)[1..] == a[1..] + b;
      WithoutIdAppend(a[1..], b, id);
    }
  }

  /** The initial board keeps fetch order: the board of a fetch split in two
      is the board of the first part followed, column by column, by the
      board of the second; and each column holds every order of its status
      as often as the fetch does. */
  lemma InitialBoardInFetchOrder(a: seq<Order>, b: seq<Order>)
    ensures InitialBoard(a + b).pending == InitialBoard(a).pending + InitialBoard(b).pending
    ensures InitialBoard(a + b).inProgress == InitialBoard(a).inProgress + InitialBoard(b).inProgress
    ensures forall x :: multiset(InitialBoard(a).pending)[x] == if x.status == Pending then multiset(a)[x] else 0
    ensures forall x :: multiset(InitialBoard(a).inProgress)[x] == if x.status == Preparing then multiset(a)[x] else 0
  {
    WithStatusAppend(a, b, Pending);
    WithStatusAppend(a, b, Preparing);
    WithStatusMultiplicity(a, Pending);
    WithStatusMultiplicity(a, Preparing);
  }

  /** The initial fetch puts every order of the fetch that is pending or in
      preparation on the board, and nothing else. */
  lemma InitialBoardContents(orders: seq<Order>)
    ensures WellPlaced(InitialBoard(orders))
    ensures forall o :: o in InitialBoard(orders).pending <==> o in orders && o.status == Pending
    ensures forall o :: o in InitialBoard(orders).inProgress <==> o in orders && o.status == Preparing
  {
  }

  // ----------------------------------------------------------------- cards

  /** What a card shows: a cancelled order struck through with no button,
      any other order with the button of its next kitchen step, if any. */
  datatype Card = CancelledCard | ActiveCard(action: Option<Status>)

  function CardFor(o: Order): (c: Card)
    ensures c == CancelledCard <==> o.status == Cancelled
    ensures c.ActiveCard? ==> c.action == KitchenAction(o.status)
  {
    if o.status == Cancelled then CancelledCard else ActiveCard(KitchenAction(o.status))
  }

  /** The request a card's button sends: the order and its new status. */
  datatype StatusRequest = StatusRequest(orderId: string, status: Status)

  function ClickRequest(o: Order): (r: Option<StatusRequest>)
    ensures r.Some? <==> o.status == Pending || o.status == Preparing
  {
    match CardFor(o)
    case ActiveCard(Some(t)) => Some(StatusRequest(o.id, t))
    case _ => None
  }

  /** The buttons only ask for the next step of the lifecycle, for the order
      of the card, and only ever for preparing or ready. */
  lemma ClickRequestFollowsLifecycle(o: Order)
    ensures ClickRequest(o).Some? ==>
      && ClickRequest(o).value.orderId == o.id
      && LifecycleStep(o.status, ClickRequest(o).value.status)
      && Stage(o.status) < Stage(ClickRequest(o).value.status)
      && ClickRequest(o).value.status in {Preparing, Ready}
    ensures CardFor(o) == CancelledCard <==> o.status == Cancelled
  {
  }
}
