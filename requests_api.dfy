/** The JSON endpoints of the requests page: the request tables, the
    counters in the menu and the order-details dialog. */
module RequestsApi {
  import opened Text
  import opened Records
  import opened Managers
  import opened RequestHelper

  /** Closed requests drop off the tables three days after closing. */
  const SkipOldSeconds: int := 3 * 24 * 60 * 60

  /** `exclude(status=s, closed_at__lt=now - 3 days)`: the request has
      status `s` and was closed before the cut-off. A request with no
      closing time is never excluded. */
  predicate IsOldClosed(r: Request, s: Status, now: int) {
    r.status == s && r.closedAt.Some? && r.closedAt.value < now - SkipOldSeconds
  }

  /** Rows of the general table: visible, and neither cancelled nor
      completed more than three days ago. */
  predicate Listed(u: User, now: int, r: Request) {
    RequestVisible(u, r) && !IsOldClosed(r, Cancelled, now) && !IsOldClosed(r, Completed, now)
  }

  /** Rows of the "my requests" table: visible, raised by the user, and not
      cancelled more than three days ago (completed ones stay). */
  predicate MyListed(u: User, now: int, r: Request) {
    RequestVisible(u, r) && r.requestingUser == u.id && !IsOldClosed(r, Cancelled, now)
  }

  function ListedRequests(u: User, reqs: seq<Request>, now: int): seq<Request> {
    Filter(reqs, r => Listed(u, now, r))
  }

  function MyListedRequests(u: User, reqs: seq<Request>, now: int): seq<Request> {
    Filter(reqs, r => MyListed(u, now, r))
  }

  /** One row of either table. `status` is the request's status (the source
      shows its display label there) and `action` its raw value. */
  datatype RequestRow = RequestRow(
    id: int,
    status: Status,
    order: Cell,
    action: Status,
    created: int,
    closed: Option<int>,
    approver: Option<string>,
    requestor: string,
    actions: Cell)

  /** The row of request `r`; `mine` selects the requester's buttons. */
  function Row(r: Request, perm: bool, admin: bool, mine: bool): RequestRow {
    RequestRow(r.pk, r.status, RequestList(r, perm), r.status, r.createdAt, r.closedAt,
               r.approverName, r.requesterName,
               if mine then MyRequestActions(r, admin) else RequestActions(r, admin))
  }

  function Rows(rs: seq<Request>, perm: bool, admin: bool, mine: bool): (rows: seq<RequestRow>)
    ensures |rows| == |rs|
    ensures forall i :: 0 <= i < |rs| ==> rows[i] == Row(rs[i], perm, admin, mine)
  {
    seq(|rs|, i requires 0 <= i < |rs| => Row(rs[i], perm, admin, mine))
  }

  lemma RowsAppend(rs: seq<Request>, r: Request, perm: bool, admin: bool, mine: bool)
    ensures Rows(rs + [r], perm, admin, mine) == Rows(rs, perm, admin, mine) + [Row(r, perm, admin, mine)]
  {
  }

  lemma ListedAppend(u: User, reqs: seq<Request>, r: Request, now: int)
    ensures ListedRequests(u, reqs + [r], now)
      == ListedRequests(u, reqs, now) + (if Listed(u, now, r) then [r] else [])
  {
    FilterAppend(reqs, r, r => Listed(u, now, r));
  }

  lemma MyListedAppend(u: User, reqs: seq<Request>, r: Request, now: int)
    ensures MyListedRequests(u, reqs + [r], now)
      == MyListedRequests(u, reqs, now) + (if MyListed(u, now, r) then [r] else [])
  {
    FilterAppend(reqs, r, r => MyListed(u, now, r));
  }

  /** `get_manage_permission`: some owner is managed by the user. */
  predicate ManagePermission(u: User, owners: seq<Owner>) {
    exists i :: 0 <= i < |owners| && OwnerManaged(u, owners[i])
  }

  /** `get_requests`: the rows of the listed requests, in queryset order.
      `perm` is the result of `get_character_permission`. */
  method GetRequests(u: User, reqs: seq<Request>, owners: seq<Owner>, perm: bool, now: int)
    returns (rows: seq<RequestRow>)
    ensures rows == Rows(ListedRequests(u, reqs, now), perm, ManagePermission(u, owners), false)
  {
    var admin := ManagePermission(u, owners);
    rows := [];
    var i := 0;
    while i < |reqs|
      invariant 0 <= i <= |reqs|
      invariant rows == Rows(ListedRequests(u, reqs[..i], now), perm, admin, false)
    {
      ListedAppend(u, reqs[..i], reqs[i], now);
      assert reqs[..i + 1] == reqs[..i] + [reqs[i]];
      if Listed(u, now, reqs[i]) {
        RowsAppend(ListedRequests(u, reqs[..i], now), reqs[i], perm, admin, false);
        rows := rows + [Row(reqs[i], perm, admin, false)];
      }
      i := i + 1;
    }
    assert reqs[..i] == reqs;
  }

  /** `get_my_requests`: the same with the requester's filter and buttons. */
  method GetMyRequests(u: User, reqs: seq<Request>, owners: seq<Owner>, perm: bool, now: int)
    returns (rows: seq<RequestRow>)
    ensures rows == Rows(MyListedRequests(u, reqs, now), perm, ManagePermission(u, owners), true)
  {
    var admin := ManagePermission(u, owners);
    rows := [];
    var i := 0;
    while i < |reqs|
      invariant 0 <= i <= |reqs|
      invariant rows == Rows(MyListedRequests(u, reqs[..i], now), perm, admin, true)
    {
      MyListedAppend(u, reqs[..i], reqs[i], now);
      assert reqs[..i + 1] == reqs[..i] + [reqs[i]];
      if MyListed(u, now, reqs[i]) {
        RowsAppend(MyListedRequests(u, reqs[..i], now), reqs[i], perm, admin, true);
        rows := rows + [Row(reqs[i], perm, admin, true)];
      }
      i := i + 1;
    }
    assert reqs[..i] == reqs;
  }

  /** A request is in the general table exactly when the user may see it
      and it was not closed (cancelled or completed) more than three days
      ago; managers see every other user's recent requests too. */
  lemma ListedRequestsDecision(u: User, reqs: seq<Request>, now: int, r: Request)
    requires r in reqs
    ensures r in ListedRequests(u, reqs, now) <==>
      (u.isSuperuser || ManageRequests in u.perms || (u.mainCharacter.Some? && r.requestingUser == u.id))
      && !(r.status != Open && r.closedAt.Some? && r.closedAt.value < now - SkipOldSeconds)
  {
  }

  /** A request is in the user's own table exactly when the user raised it,
      has a main character or may see all requests, and it was not
      cancelled more than three days ago. */
  lemma MyListedRequestsDecision(u: User, reqs: seq<Request>, now: int, r: Request)
    requires r in reqs
    ensures r in MyListedRequests(u, reqs, now) <==>
      r.requestingUser == u.id
      && (u.isSuperuser || ManageRequests in u.perms || u.mainCharacter.Some?)
      && !(r.status == Cancelled && r.closedAt.Some? && r.closedAt.value < now - SkipOldSeconds)
  {
  }

  /** The two tables differ on old completed requests: one of the user's
      own completed more than three days ago stays in their table but has
      left the general one. */
  lemma OldCompletedOnlyInMyTable(u: User, reqs: seq<Request>, now: int, r: Request)
    requires r in reqs && r.requestingUser == u.id && u.mainCharacter.Some?
    requires r.status == Completed && r.closedAt.Some? && r.closedAt.value < now - SkipOldSeconds
    ensures r in MyListedRequests(u, reqs, now)
    ensures r !in ListedRequests(u, reqs, now)
  {
  }

  /** Every row of the user's own table that is not an old completed
      request is also a row of the general table. */
  lemma MyTableWithinGeneral(u: User, reqs: seq<Request>, now: int)
    ensures forall r :: r in MyListedRequests(u, reqs, now) && !IsOldClosed(r, Completed, now) ==>
      r in ListedRequests(u, reqs, now)
  {
  }

  // ---------------------------------------------------------------------
  // Statistics

  /** Reply of `get_requests_statistics`; `requestCount` is `None` for
      users who do not manage requests. */
  datatype Statistics = StatsForbidden | Stats(requestCount: Option<nat>, myRequestCount: nat)

  function RequestsStatistics(u: User, reqs: Requests): Statistics {
    if !HasPerm(u, BasicAccess) then StatsForbidden
    else Stats(if HasPerm(u, ManageRequests) then Some(OpenRequestCount(reqs)) else None,
               MyOpenRequestCount(reqs, u.id))
  }

  /** Users without `basic_access` are refused; only request managers get
      the total, and it is never below the user's own open count. */
  lemma StatisticsBounds(u: User, reqs: Requests)
    ensures RequestsStatistics(u, reqs) == StatsForbidden <==> !u.isSuperuser && BasicAccess !in u.perms
    ensures RequestsStatistics(u, reqs).Stats? ==>
      (RequestsStatistics(u, reqs).requestCount.Some? <==> u.isSuperuser || ManageRequests in u.perms)
    ensures RequestsStatistics(u, reqs).Stats? && RequestsStatistics(u, reqs).requestCount.Some? ==>
      RequestsStatistics(u, reqs).myRequestCount <= RequestsStatistics(u, reqs).requestCount.value
  {
    MyOpenRequestsAmongOpen(reqs, u.id);
  }

  /** A new open request raises the open count by one. */
  lemma NewOpenCount(reqs: Requests, r: Request)
    requires r.pk !in reqs && IsOpenRequest(r)
    ensures OpenRequestCount(reqs[r.pk := r]) == OpenRequestCount(reqs) + 1
  {
    var after := reqs[r.pk := r];
    var before := set k | k in reqs && IsOpenRequest(reqs[k]);
    var now' := set k | k in after && IsOpenRequest(after[k]);
    forall k | k in now' ensures k in before + {r.pk} {
      if k != r.pk { assert after[k] == reqs[k]; }
    }
    forall k | k in before ensures k in now' {
      assert after[k] == reqs[k];
    }
    assert now' == before + {r.pk};
    assert r.pk !in before;
  }

  /** A new open request of the user raises the user's open count by one. */
  lemma NewMyOpenCount(reqs: Requests, r: Request, userId: int)
    requires r.pk !in reqs && IsMyOpenRequest(r, userId)
    ensures MyOpenRequestCount(reqs[r.pk := r], userId) == MyOpenRequestCount(reqs, userId) + 1
  {
    var after := reqs[r.pk := r];
    var before := set k | k in reqs && IsMyOpenRequest(reqs[k], userId);
    var now' := set k | k in after && IsMyOpenRequest(after[k], userId);
    forall k | k in now' ensures k in before + {r.pk} {
      if k != r.pk { assert after[k] == reqs[k]; }
    }
    forall k | k in before ensures k in now' {
      assert after[k] == reqs[k];
    }
    assert now' == before + {r.pk};
    assert r.pk !in before;
  }

  /** Opening a new request of the user raises both counters by one. */
  lemma NewOpenRequestCounts(u: User, reqs: Requests, r: Request)
    requires r.pk !in reqs && IsMyOpenRequest(r, u.id)
    ensures OpenRequestCount(reqs[r.pk := r]) == OpenRequestCount(reqs) + 1
    ensures MyOpenRequestCount(reqs[r.pk := r], u.id) == MyOpenRequestCount(reqs, u.id) + 1
  {
    NewOpenCount(reqs, r);
    NewMyOpenCount(reqs, r, u.id);
  }

  // ---------------------------------------------------------------------
  // Order details

  /** One line of the order dialog. */
  datatype OrderEntry = OrderEntry(itemId: int, name: string, quantity: int)

  /** The rendered dialog, or the 403 refusal with its message. */
  datatype OrderReply =
    | OrderForbidden(message: string)
    | OrderView(requestId: int, orders: seq<OrderEntry>, requestor: string)

  predicate OfRequest(id: int, l: RequestAsset) {
    l.requestPk == id
  }

  function OrderEntries(lines: seq<RequestAsset>, typeName: int -> string): (es: seq<OrderEntry>)
    ensures |es| == |lines|
  {
    seq(|lines|, i requires 0 <= i < |lines| => OrderEntry(lines[i].typeId, typeName(lines[i].typeId), lines[i].quantity))
  }

  lemma OrderEntriesAppend(lines: seq<RequestAsset>, l: RequestAsset, typeName: int -> string)
    ensures OrderEntries(lines + [l], typeName)
      == OrderEntries(lines, typeName) + [OrderEntry(l.typeId, typeName(l.typeId), l.quantity)]
  {
  }

  /** The lines of request `id`, in table order. */
  function OwnLines(lines: seq<RequestAsset>, id: int): seq<RequestAsset> {
    Filter(lines, l => OfRequest(id, l))
  }

  lemma OwnLinesAppend(lines: seq<RequestAsset>, l: RequestAsset, id: int)
    ensures OwnLines(lines + [l], id) == OwnLines(lines, id) + (if l.requestPk == id then [l] else [])
  {
    FilterAppend(lines, l, l => OfRequest(id, l));
  }

  function RequestOrder(u: User, reqs: Requests, lines: seq<RequestAsset>, id: int,
                        typeName: int -> string): OrderReply {
    if !HasPerm(u, BasicAccess) then OrderForbidden("Permission Denied")
    else if id !in reqs then OrderForbidden("Request does not exist")
    else OrderView(id, OrderEntries(OwnLines(lines, id), typeName), reqs[id].requesterName)
  }

  /** `get_request_order`: one entry per line of the request, in table
      order. */
  method GetRequestOrder(u: User, reqs: Requests, lines: seq<RequestAsset>, id: int, typeName: int -> string)
    returns (reply: OrderReply)
    ensures reply == RequestOrder(u, reqs, lines, id, typeName)
  {
    if !HasPerm(u, BasicAccess) {
      return OrderForbidden("Permission Denied");
    }
    if id !in reqs {
      return OrderForbidden("Request does not exist");
    }
    var orders: seq<OrderEntry> := [];
    var i := 0;
    while i < |lines|
      invariant 0 <= i <= |lines|
      invariant orders == OrderEntries(OwnLines(lines[..i], id), typeName)
    {
      OwnLinesAppend(lines[..i], lines[i], id);
      assert lines[..i + 1] == lines[..i] + [lines[i]];
      if lines[i].requestPk == id {
        OrderEntriesAppend(OwnLines(lines[..i], id), lines[i], typeName);
        orders := orders + [OrderEntry(lines[i].typeId, typeName(lines[i].typeId), lines[i].quantity)];
      }
      i := i + 1;
    }
    assert lines[..i] == lines;
    return OrderView(id, orders, reqs[id].requesterName);
  }

  function EntriesQuantity(es: seq<OrderEntry>): int {
    if |es| == 0 then 0 else EntriesQuantity(es[..|es| - 1]) + es[|es| - 1].quantity
  }

  lemma {:induction false} EntriesQuantityIsTotal(lines: seq<RequestAsset>, typeName: int -> string)
    ensures EntriesQuantity(OrderEntries(lines, typeName)) == Total(lines)
    decreases |lines|
  {
    if |lines| > 0 {
      var init := lines[..|lines| - 1];
      EntriesQuantityIsTotal(init, typeName);
      assert OrderEntries(lines, typeName)[..|lines| - 1] == OrderEntries(init, typeName);
    }
  }

  /** The dialog is refused (403) without `basic_access` and for an
      unknown request, and otherwise lists exactly the lines of that
      request, each with its type's id and name, adding up to the reserved
      quantity of the request. */
  lemma RequestOrderOutcomes(u: User, reqs: Requests, lines: seq<RequestAsset>, id: int, typeName: int -> string)
    ensures RequestOrder(u, reqs, lines, id, typeName).OrderForbidden? <==>
      (!u.isSuperuser && BasicAccess !in u.perms) || id !in reqs
    ensures RequestOrder(u, reqs, lines, id, typeName).OrderView? ==>
      var v := RequestOrder(u, reqs, lines, id, typeName);
      var own := OwnLines(lines, id);
      && v.requestId == id && v.requestor == reqs[id].requesterName
      && |v.orders| == |own|
      && (forall i :: 0 <= i < |own| ==>
            v.orders[i] == OrderEntry(own[i].typeId, typeName(own[i].typeId), own[i].quantity))
      && EntriesQuantity(v.orders) == Total(own)
      && (forall i :: 0 <= i < |lines| && lines[i].requestPk == id ==> lines[i] in own)
      && (forall i :: 0 <= i < |own| ==> own[i].requestPk == id)
  {
    if RequestOrder(u, reqs, lines, id, typeName).OrderView? {
      EntriesQuantityIsTotal(OwnLines(lines, id), typeName);
    }
  }
}
