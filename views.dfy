/** The order views: the per-(user, request, mode) cooldown, the stock
    check of a new reservation, creating single and multi-item orders, and
    changing a request's status. */
module Views {
  import opened Text
  import opened Records
  import opened CacheStore

  const StatusOk: int := 200
  const StatusBadRequest: int := 400
  const StatusForbidden: int := 403
  const StatusNotFound: int := 404
  const StatusConflict: int := 409
  /** An uncaught exception in a view. */
  const StatusServerError: int := 500

  /** A JSON reply: HTTP status, the `success` field, and the type names
      listed in a 409 message. */
  datatype Reply = Reply(status: int, success: bool, exceeding: seq<string>)

  // ---------------------------------------------------------------------
  // Cooldown

  const CooldownSeconds: int := 60

  /** The three status changes and the mode word each uses in its
      cooldown tag. */
  datatype Mode = CancelMode | CompleteMode | ReopenMode

  function ModeName(m: Mode): (s: string)
    ensures '_' !in s
  {
    match m
    case CancelMode => "canceled"
    case CompleteMode => "completed"
    case ReopenMode => "open"
  }

  lemma ModeNameInjective(a: Mode, b: Mode)
    requires ModeName(a) == ModeName(b)
    ensures a == b
  {
    assert ModeName(a)[0] == ModeName(b)[0];
    if ModeName(a)[0] == 'c' {
      assert ModeName(a)[1] == ModeName(b)[1];
    }
  }

  /** `build_apr_cooldown_cache_tag`; `user` is the username. */
  function CooldownTag(user: string, requestId: int, mode: string): string {
    "cooldown_request_" + user + "_" + IntToString(requestId) + "_" + mode
  }

  /** Usernames may contain `_`, but the id and the mode cannot, so a tag
      determines its user, request and mode. */
  lemma CooldownTagInjective(u1: string, i1: int, m1: string, u2: string, i2: int, m2: string)
    requires '_' !in m1 && '_' !in m2
    requires CooldownTag(u1, i1, m1) == CooldownTag(u2, i2, m2)
    ensures u1 == u2 && i1 == i2 && m1 == m2
  {
    var q1, q2 := "cooldown_request_" + u1, "cooldown_request_" + u2;
    var p1, p2 := q1 + "_" + IntToString(i1), q2 + "_" + IntToString(i2);
    SplitAtLastUnderscore(p1, m1, p2, m2);
    SplitAtLastUnderscore(q1, IntToString(i1), q2, IntToString(i2));
    IntToStringInjective(i1, i2);
    assert u1 == q1[17..] && u2 == q2[17..];
  }

  /** `get_apr_cooldown`. */
  predicate OnCooldown(entries: Entries, user: string, requestId: int, mode: Mode, now: int) {
    IsSet(entries, CooldownTag(user, requestId, ModeName(mode)), now)
  }

  /** `set_apr_cooldown`: the tag holds `True` for sixty seconds. */
  function SetCooldown(entries: Entries, user: string, requestId: int, mode: Mode, now: int): Entries {
    Put(entries, CooldownTag(user, requestId, ModeName(mode)), Flag(true), CooldownSeconds, now)
  }

  /** A cooldown set at `now` blocks the same user, request and mode until
      `now + 60` and no other combination. */
  lemma CooldownScope(entries: Entries, user: string, requestId: int, mode: Mode, now: int,
                      user2: string, requestId2: int, mode2: Mode, t: int)
    ensures OnCooldown(SetCooldown(entries, user, requestId, mode, now), user, requestId, mode, t)
        <==> t < now + CooldownSeconds
    ensures (user2, requestId2, mode2) != (user, requestId, mode) ==>
      OnCooldown(SetCooldown(entries, user, requestId, mode, now), user2, requestId2, mode2, t)
        == OnCooldown(entries, user2, requestId2, mode2, t)
  {
    if (user2, requestId2, mode2) != (user, requestId, mode) {
      var k1, k2 := CooldownTag(user, requestId, ModeName(mode)), CooldownTag(user2, requestId2, ModeName(mode2));
      if k1 == k2 {
        CooldownTagInjective(user, requestId, ModeName(mode), user2, requestId2, ModeName(mode2));
        ModeNameInjective(mode, mode2);
      }
    }
  }

  // ---------------------------------------------------------------------
  // Stock check

  /** Lines counted against an asset: same asset pk, same type, request
      open. */
  predicate IsOpenRowOf(reqs: Requests, asset: AssetRow, l: RequestAsset) {
    l.assetPk == asset.pk && l.typeId == asset.typeId && LineHasStatus(reqs, l, Open)
  }

  function OpenRows(reqs: Requests, lines: seq<RequestAsset>, asset: AssetRow): seq<RequestAsset> {
    Filter(lines, l => IsOpenRowOf(reqs, asset, l))
  }

  /** `validate_asset_quantity`: refuse only when some open line exists and
      the open lines plus `amount` exceed the stack. With no open line any
      amount passes. */
  predicate ValidateAssetQuantity(asset: AssetRow, amount: int, reqs: Requests, lines: seq<RequestAsset>) {
    var rows := OpenRows(reqs, lines, asset);
    !(|rows| > 0 && Total(rows) + amount > asset.quantity)
  }

  /** With no open line for the asset, every amount is accepted, even one
      larger than the stack. */
  lemma NoOpenRowsAcceptsAnyAmount(asset: AssetRow, amount: int, reqs: Requests, lines: seq<RequestAsset>)
    requires forall i :: 0 <= i < |lines| ==> !IsOpenRowOf(reqs, asset, lines[i])
    ensures ValidateAssetQuantity(asset, amount, reqs, lines)
  {
    FilterKeepsNone(lines, l => IsOpenRowOf(reqs, asset, l));
  }

  /** A line of a completed or cancelled request (or of another asset or
      type) never changes the verdict. */
  lemma ClosedRowsNeverCount(asset: AssetRow, amount: int, reqs: Requests, lines: seq<RequestAsset>, line: RequestAsset)
    requires !IsOpenRowOf(reqs, asset, line)
    ensures ValidateAssetQuantity(asset, amount, reqs, lines + [line]) == ValidateAssetQuantity(asset, amount, reqs, lines)
  {
    FilterAppend(lines, line, l => IsOpenRowOf(reqs, asset, l));
  }

  /** `create_request_asset_object`: an unsaved line of request
      `requestPk` copying the asset's pk, location, flag, type and type name
      and holding the requested amount. */
  function CreateRequestAssetObject(requestPk: int, asset: AssetRow, amount: int): (r: RequestAsset)
    ensures r.requestPk == requestPk && r.assetPk == asset.pk && r.typeId == asset.typeId
    ensures r.name == asset.typeName && r.locationId == asset.location.id && r.locationFlag == asset.locationFlag
    ensures r.quantity == amount
  {
    RequestAsset(requestPk, asset.typeName, asset.pk, asset.location.id, asset.locationFlag, asset.typeId, amount)
  }

  /** Once an asset has open lines, an accepted amount booked into a new
      open request keeps the open total within the stack. */
  lemma AcceptedReservationFitsStock(asset: AssetRow, amount: int, reqs: Requests, lines: seq<RequestAsset>, pk: int, r: Request)
    requires forall i :: 0 <= i < |lines| ==> lines[i].requestPk != pk
    requires r.status == Open
    requires |OpenRows(reqs, lines, asset)| > 0 && ValidateAssetQuantity(asset, amount, reqs, lines)
    ensures Total(OpenRows(reqs[pk := r], lines + [CreateRequestAssetObject(pk, asset, amount)], asset)) <= asset.quantity
  {
    var reqs2 := reqs[pk := r];
    var line := CreateRequestAssetObject(pk, asset, amount);
    FilterSame(lines, l => IsOpenRowOf(reqs, asset, l), l => IsOpenRowOf(reqs2, asset, l));
    FilterAppend(lines, line, l => IsOpenRowOf(reqs2, asset, l));
    TotalAppend(OpenRows(reqs, lines, asset), line);
  }

  /** The first reservation of an asset is not bounded: with no open line,
      an amount above the stack is booked and the open total exceeds it. */
  lemma FirstReservationUnbounded(asset: AssetRow, amount: int, reqs: Requests, lines: seq<RequestAsset>, pk: int, r: Request)
    requires forall i :: 0 <= i < |lines| ==> lines[i].requestPk != pk && !IsOpenRowOf(reqs, asset, lines[i])
    requires r.status == Open
    requires amount > asset.quantity
    ensures ValidateAssetQuantity(asset, amount, reqs, lines)
    ensures Total(OpenRows(reqs[pk := r], lines + [CreateRequestAssetObject(pk, asset, amount)], asset)) > asset.quantity
  {
    var reqs2 := reqs[pk := r];
    var line := CreateRequestAssetObject(pk, asset, amount);
    NoOpenRowsAcceptsAnyAmount(asset, amount, reqs, lines);
    FilterKeepsNone(lines, l => IsOpenRowOf(reqs2, asset, l));
    FilterAppend(lines, line, l => IsOpenRowOf(reqs2, asset, l));
    assert OpenRows(reqs2, lines + [line], asset) == [line];
    TotalAppend([], line);
  }

  // ---------------------------------------------------------------------
  // Multi-order field names

  const ItemPrefix: string := "item_id_"

  /** What a multi-order field name yields: not an item field, an asset
      pk, or a `ValueError` from `int(...)`. */
  datatype KeyParse = NotItem | ItemPk(pk: int) | Malformed

  /** `int(key.split("_")[2])` for keys starting with `item_id_`. */
  function ParseItemKey(key: string): (r: KeyParse)
    ensures r.NotItem? <==> !(|key| >= |ItemPrefix| && key[..|ItemPrefix|] == ItemPrefix)
  {
    if !(|key| >= |ItemPrefix| && key[..|ItemPrefix|] == ItemPrefix) then NotItem
    else match SplitField(key, 2)
      case None => Malformed
      case Some(field) =>
        match ParseInt(field)
        case None => Malformed
        case Some(pk) => ItemPk(pk)
  }

  /** The field name the multi-order form gives asset `pk`. */
  function ItemKey(pk: int): string {
    ItemPrefix + IntToString(pk)
  }

  lemma ItemKeyRoundTrip(pk: int)
    ensures ParseItemKey(ItemKey(pk)) == ItemPk(pk)
  {
    var s := IntToString(pk);
    var key := ItemKey(pk);
    assert key[..|ItemPrefix|] == ItemPrefix;
    assert key == "item" + "_" + ("id" + "_" + s);
    SplitFieldAfterUnderscore("item", "id" + "_" + s, 1);
    SplitFieldAfterUnderscore("id", s, 0);
    assert IndexOf(s, '_') == |s|;
    assert s[..|s|] == s;
    assert SplitField(s, 0) == Some(s);
    assert SplitField(key, 2) == Some(s);
    ParseIntRoundTrip(pk);
  }

  /** The `asset_data` comprehension: (pk, amount) for every item field,
      in field order; `None` when some item field does not parse. */
  function AssetData(fields: seq<(string, Option<int>)>): Option<seq<(int, Option<int>)>>
    decreases |fields|
  {
    if |fields| == 0 then Some([])
    else match AssetData(fields[..|fields| - 1])
      case None => None
      case Some(d) =>
        var (key, amount) := fields[|fields| - 1];
        match ParseItemKey(key)
        case NotItem => Some(d)
        case ItemPk(pk) => Some(d + [(pk, amount)])
        case Malformed => None
  }

  /** The (pk, amount) pairs of fields whose names carry `pks`. */
  function ItemPairs(fields: seq<(string, Option<int>)>, pks: seq<int>): seq<(int, Option<int>)>
    requires |pks| == |fields|
  {
    seq(|fields|, i requires 0 <= i < |fields| => (pks[i], fields[i].1))
  }

  /** Item fields (such as those named by `ItemKey`, see
      `ItemKeyRoundTrip`) come back as their pks and amounts, in order. */
  lemma {:induction false} AssetDataOfItemKeys(fields: seq<(string, Option<int>)>, pks: seq<int>)
    requires |pks| == |fields|
    requires forall i :: 0 <= i < |fields| ==> ParseItemKey(fields[i].0) == ItemPk(pks[i])
    ensures AssetData(fields) == Some(ItemPairs(fields, pks))
    decreases |fields|
  {
    if |fields| > 0 {
      var n := |fields| - 1;
      var init := ItemPairs(fields[..n], pks[..n]);
      AssetDataOfItemKeys(fields[..n], pks[..n]);
      AssetDataSnoc(fields[..n], fields[n], init, pks[n]);
      assert fields[..n] + [fields[n]] == fields;
      ItemPairsSnoc(fields, pks);
    } else {
      assert ItemPairs(fields, pks) == [];
    }
  }

  lemma ItemPairsSnoc(fields: seq<(string, Option<int>)>, pks: seq<int>)
    requires |pks| == |fields| > 0
    ensures ItemPairs(fields, pks)
      == ItemPairs(fields[..|fields| - 1], pks[..|fields| - 1]) + [(pks[|fields| - 1], fields[|fields| - 1].1)]
  {
  }

  lemma AssetDataSnoc(init: seq<(string, Option<int>)>, field: (string, Option<int>), d: seq<(int, Option<int>)>, pk: int)
    requires AssetData(init) == Some(d) && ParseItemKey(field.0) == ItemPk(pk)
    ensures AssetData(init + [field]) == Some(d + [(pk, field.1)])
  {
    assert (init + [field])[..|init|] == init;
  }

  // ---------------------------------------------------------------------
  // Multi-order sorting

  /** The multi-order loop's verdict: some listed asset does not exist, or
      the accepted (asset, amount) pairs and the exceeding type names. */
  datatype Sorting = MissingAsset | Sorted(accepted: seq<(AssetRow, int)>, exceeding: seq<string>)

  /** The loop over `asset_data`, checked against the table as it was
      before the order (nothing is saved inside the loop). */
  function SortItems(assets: map<int, AssetRow>, reqs: Requests, lines: seq<RequestAsset>,
                     data: seq<(int, Option<int>)>): Sorting
    decreases |data|
  {
    if |data| == 0 then Sorted([], [])
    else match SortItems(assets, reqs, lines, data[..|data| - 1])
      case MissingAsset => MissingAsset
      case Sorted(acc, ex) =>
        var (pk, amount) := data[|data| - 1];
        if amount.None? then Sorted(acc, ex)
        else if pk !in assets then MissingAsset
        else if ValidateAssetQuantity(assets[pk], amount.value, reqs, lines) then Sorted(acc + [(assets[pk], amount.value)], ex)
        else Sorted(acc, ex + [assets[pk].typeName])
  }

  /** The order fails with a missing asset exactly when some item with an
      amount names no stored asset. */
  lemma {:induction false} SortItemsMissing(assets: map<int, AssetRow>, reqs: Requests, lines: seq<RequestAsset>,
                                            data: seq<(int, Option<int>)>)
    ensures SortItems(assets, reqs, lines, data).MissingAsset?
        <==> exists i :: 0 <= i < |data| && data[i].1.Some? && data[i].0 !in assets
    decreases |data|
  {
    if |data| > 0 {
      var n := |data| - 1;
      var init := data[..n];
      SortItemsMissing(assets, reqs, lines, init);
      assert forall i :: 0 <= i < n ==> data[i] == init[i];
      if SortItems(assets, reqs, lines, init).MissingAsset? {
        var i :| 0 <= i < n && init[i].1.Some? && init[i].0 !in assets;
        assert data[i] == init[i];
      }
    }
  }

  /** An item that carries an amount, names a stored asset and passes the
      stock check. */
  predicate Passes(assets: map<int, AssetRow>, reqs: Requests, lines: seq<RequestAsset>, d: (int, Option<int>)) {
    d.1.Some? && d.0 in assets && ValidateAssetQuantity(assets[d.0], d.1.value, reqs, lines)
  }

  /** An item that carries an amount, names a stored asset and fails the
      stock check. */
  predicate Exceeds(assets: map<int, AssetRow>, reqs: Requests, lines: seq<RequestAsset>, d: (int, Option<int>)) {
    d.1.Some? && d.0 in assets && !ValidateAssetQuantity(assets[d.0], d.1.value, reqs, lines)
  }

  /** The (asset, amount) pairs of items that name stored assets. */
  function ToItems(assets: map<int, AssetRow>, ds: seq<(int, Option<int>)>): (r: seq<(AssetRow, int)>)
    requires forall i :: 0 <= i < |ds| ==> ds[i].1.Some? && ds[i].0 in assets
    ensures |r| == |ds|
  {
    seq(|ds|, i requires 0 <= i < |ds| => (assets[ds[i].0], ds[i].1.value))
  }

  /** The type names of items that name stored assets. */
  function ToNames(assets: map<int, AssetRow>, ds: seq<(int, Option<int>)>): (r: seq<string>)
    requires forall i :: 0 <= i < |ds| ==> ds[i].0 in assets
    ensures |r| == |ds|
  {
    seq(|ds|, i requires 0 <= i < |ds| => assets[ds[i].0].typeName)
  }

  /** Reference for the accepted items: the passing items, in form order. */
  function AcceptedItems(assets: map<int, AssetRow>, reqs: Requests, lines: seq<RequestAsset>,
                         data: seq<(int, Option<int>)>): seq<(AssetRow, int)>
  {
    ToItems(assets, Filter(data, d => Passes(assets, reqs, lines, d)))
  }

  /** Reference for the exceeding names: the failing items' type names, in
      form order. */
  function ExceedingNames(assets: map<int, AssetRow>, reqs: Requests, lines: seq<RequestAsset>,
                          data: seq<(int, Option<int>)>): seq<string>
  {
    ToNames(assets, Filter(data, d => Exceeds(assets, reqs, lines, d)))
  }

  lemma AcceptedItemsAppend(assets: map<int, AssetRow>, reqs: Requests, lines: seq<RequestAsset>,
                            data: seq<(int, Option<int>)>, d: (int, Option<int>))
    ensures AcceptedItems(assets, reqs, lines, data + [d])
      == AcceptedItems(assets, reqs, lines, data)
         + (if Passes(assets, reqs, lines, d) then [(assets[d.0], d.1.value)] else [])
  {
    FilterAppend(data, d, d => Passes(assets, reqs, lines, d));
  }

  lemma ExceedingNamesAppend(assets: map<int, AssetRow>, reqs: Requests, lines: seq<RequestAsset>,
                             data: seq<(int, Option<int>)>, d: (int, Option<int>))
    ensures ExceedingNames(assets, reqs, lines, data + [d])
      == ExceedingNames(assets, reqs, lines, data)
         + (if Exceeds(assets, reqs, lines, d) then [assets[d.0].typeName] else [])
  {
    FilterAppend(data, d, d => Exceeds(assets, reqs, lines, d));
  }

  /** Without a missing asset, the accepted items are exactly the items
      that pass the stock check and the exceeding names exactly those of
      the items that fail it, each in form order. */
  lemma {:induction false} SortItemsAssignment(assets: map<int, AssetRow>, reqs: Requests, lines: seq<RequestAsset>,
                                               data: seq<(int, Option<int>)>)
    ensures var s := SortItems(assets, reqs, lines, data);
      s.Sorted? ==>
        && s.accepted == AcceptedItems(assets, reqs, lines, data)
        && s.exceeding == ExceedingNames(assets, reqs, lines, data)
    decreases |data|
  {
    if |data| > 0 {
      var n := |data| - 1;
      SortItemsAssignment(assets, reqs, lines, data[..n]);
      AcceptedItemsAppend(assets, reqs, lines, data[..n], data[n]);
      ExceedingNamesAppend(assets, reqs, lines, data[..n], data[n]);
      assert data == data[..n] + [data[n]];
    }
  }

  /** The two halves together: a missing asset exactly when some item with
      an amount names none, and otherwise the passing items are accepted
      and the failing ones listed as exceeding, in form order. */
  lemma SortItemsPartition(assets: map<int, AssetRow>, reqs: Requests, lines: seq<RequestAsset>,
                           data: seq<(int, Option<int>)>)
    ensures SortItems(assets, reqs, lines, data).MissingAsset?
        <==> exists i :: 0 <= i < |data| && data[i].1.Some? && data[i].0 !in assets
    ensures var s := SortItems(assets, reqs, lines, data);
      s.Sorted? ==>
        && s.accepted == AcceptedItems(assets, reqs, lines, data)
        && s.exceeding == ExceedingNames(assets, reqs, lines, data)
  {
    SortItemsMissing(assets, reqs, lines, data);
    SortItemsAssignment(assets, reqs, lines, data);
  }

  // ---------------------------------------------------------------------
  // Orders

  /** The tables an order touches; `nextPk` is the primary key the next
      saved request receives. */
  datatype Tables = Tables(assets: map<int, AssetRow>, requests: Requests, lines: seq<RequestAsset>, nextPk: int)

  /** The database hands out primary keys in increasing order: every stored
      request, and every line's request, has a key below `nextPk`. */
  predicate Fresh(t: Tables) {
    && (forall k :: k in t.requests ==> k < t.nextPk)
    && (forall i :: 0 <= i < |t.lines| ==> t.lines[i].requestPk < t.nextPk)
  }

  /** A valid single-order form: the amount, and the raw `asset_pk` POST
      value (`None` when it is not posted). */
  datatype SingleForm = SingleForm(amount: int, assetPk: Option<string>)

  /** The posted pk cannot be read as an integer, so the lookup raises
      `ValueError`. */
  predicate BadPk(f: SingleForm) {
    f.assetPk.Some? && ParsePyInt(f.assetPk.value).None?
  }

  /** The pk the lookup uses; `None` matches no row. */
  function PostedPk(f: SingleForm): Option<int> {
    if f.assetPk.None? then None else ParsePyInt(f.assetPk.value)
  }

  /** The asset the single form names, when it is stored. */
  predicate NamesStoredAsset(t: Tables, f: SingleForm) {
    PostedPk(f).Some? && PostedPk(f).value in t.assets
  }

  function NewRequest(pk: int, user: User, now: int): Request {
    Request(pk, user.id, user.username, Open, None, None, now)
  }

  function OrderLines(pk: int, items: seq<(AssetRow, int)>): seq<RequestAsset> {
    seq(|items|, i requires 0 <= i < |items| => CreateRequestAssetObject(pk, items[i].0, items[i].1))
  }

  /** Saving an order: one open request and one line per item. */
  function SaveOrder(t: Tables, user: User, items: seq<(AssetRow, int)>, now: int): Tables {
    t.(requests := t.requests[t.nextPk := NewRequest(t.nextPk, user, now)],
       lines := t.lines + OrderLines(t.nextPk, items),
       nextPk := t.nextPk + 1)
  }

  /** Saving under a fresh key adds a request without replacing one, its
      lines are the only lines of that request, and keys stay fresh. */
  lemma SaveOrderFresh(t: Tables, user: User, items: seq<(AssetRow, int)>, now: int)
    requires Fresh(t)
    ensures var t2 := SaveOrder(t, user, items, now);
      && Fresh(t2)
      && t.nextPk !in t.requests
      && |t2.requests| == |t.requests| + 1
      && (forall i :: 0 <= i < |t.lines| ==> t.lines[i].requestPk != t.nextPk)
  {
    var t2 := SaveOrder(t, user, items, now);
    forall i | 0 <= i < |t2.lines| ensures t2.lines[i].requestPk < t2.nextPk {
      if i >= |t.lines| {
        assert t2.lines[i] == OrderLines(t.nextPk, items)[i - |t.lines|];
      }
    }
  }

  /** `create_order`: the single form wins when valid; then the multi form;
      neither valid answers 404 with `success: True`. */
  function CreateOrderSpec(t: Tables, user: User, single: Option<SingleForm>,
                           multi: Option<seq<(string, Option<int>)>>, now: int): (Reply, Tables)
  {
    match single
    case Some(f) =>
      if BadPk(f) then (Reply(StatusServerError, false, []), t)
      else if !NamesStoredAsset(t, f) then (Reply(StatusNotFound, false, []), t)
      else
        var asset := t.assets[PostedPk(f).value];
        if !ValidateAssetQuantity(asset, f.amount, t.requests, t.lines) then (Reply(StatusForbidden, false, []), t)
        else (Reply(StatusOk, true, []), SaveOrder(t, user, [(asset, f.amount)], now))
    case None =>
      match multi
      case None => (Reply(StatusNotFound, true, []), t)
      case Some(fields) =>
        match AssetData(fields)
        case None => (Reply(StatusServerError, false, []), t)
        case Some(data) =>
          match SortItems(t.assets, t.requests, t.lines, data)
          case MissingAsset => (Reply(StatusNotFound, false, []), t)
          case Sorted(acc, ex) =>
            var t2 := if |acc| > 0 then SaveOrder(t, user, acc, now) else t;
            if |ex| > 0 then (Reply(StatusConflict, false, ex), t2) else (Reply(StatusOk, true, []), t2)
  }

  /** Single order: an unreadable pk (500), a missing asset (404) or an
      over-limit amount (403) saves nothing; otherwise exactly one open
      request owned by the user and one line for the asset and amount are
      added. */
  lemma SingleOrderOutcomes(t: Tables, user: User, f: SingleForm, multi: Option<seq<(string, Option<int>)>>, now: int)
    ensures var (reply, t2) := CreateOrderSpec(t, user, Some(f), multi, now);
      && (reply.status == StatusServerError <==> BadPk(f))
      && (reply.status == StatusNotFound <==> !BadPk(f) && !NamesStoredAsset(t, f))
      && (reply.status == StatusForbidden <==>
            NamesStoredAsset(t, f)
            && !ValidateAssetQuantity(t.assets[PostedPk(f).value], f.amount, t.requests, t.lines))
      && (reply.status != StatusOk ==> t2 == t && !reply.success)
      && (reply.status == StatusOk ==>
            && reply.success
            && t2.assets == t.assets && t2.nextPk == t.nextPk + 1
            && t2.requests.Keys == t.requests.Keys + {t.nextPk}
            && t2.requests[t.nextPk].status == Open && t2.requests[t.nextPk].requestingUser == user.id
            && (forall k :: k in t.requests && k != t.nextPk ==> t2.requests[k] == t.requests[k])
            && t2.lines == t.lines + [CreateRequestAssetObject(t.nextPk, t.assets[PostedPk(f).value], f.amount)])
    ensures var (reply, t2) := CreateOrderSpec(t, user, Some(f), multi, now);
      Fresh(t) ==>
        && Fresh(t2)
        && (reply.status == StatusOk ==>
              && t.nextPk !in t.requests && |t2.requests| == |t.requests| + 1
              && (forall i :: 0 <= i < |t.lines| ==> t.lines[i].requestPk != t.nextPk))
  {
    if !BadPk(f) && NamesStoredAsset(t, f) {
      var asset := t.assets[PostedPk(f).value];
      if ValidateAssetQuantity(asset, f.amount, t.requests, t.lines) {
        assert OrderLines(t.nextPk, [(asset, f.amount)]) == [CreateRequestAssetObject(t.nextPk, asset, f.amount)];
        if Fresh(t) {
          SaveOrderFresh(t, user, [(asset, f.amount)], now);
        }
      }
    }
  }

  /** Multi order: a request is saved exactly when some item was accepted,
      with one line per accepted item; any exceeding item answers 409 and
      names them all, though the accepted items are saved all the same. */
  lemma MultiOrderOutcomes(t: Tables, user: User, fields: seq<(string, Option<int>)>, data: seq<(int, Option<int>)>,
                           acc: seq<(AssetRow, int)>, ex: seq<string>, now: int)
    requires AssetData(fields) == Some(data)
    requires SortItems(t.assets, t.requests, t.lines, data) == Sorted(acc, ex)
    ensures var (reply, t2) := CreateOrderSpec(t, user, None, Some(fields), now);
      && (t2 != t <==> |acc| > 0)
      && (|acc| > 0 ==>
            && t2.lines == t.lines + OrderLines(t.nextPk, acc)
            && t2.assets == t.assets && t2.nextPk == t.nextPk + 1
            && t2.requests.Keys == t.requests.Keys + {t.nextPk}
            && t2.requests[t.nextPk].status == Open && t2.requests[t.nextPk].requestingUser == user.id
            && (forall k :: k in t.requests && k != t.nextPk ==> t2.requests[k] == t.requests[k]))
      && (reply.status == StatusConflict <==> |ex| > 0)
      && (|ex| > 0 ==> reply == Reply(StatusConflict, false, ex))
      && (|ex| == 0 ==> reply == Reply(StatusOk, true, []))
    ensures var (reply, t2) := CreateOrderSpec(t, user, None, Some(fields), now);
      Fresh(t) ==>
        && Fresh(t2)
        && (|acc| > 0 ==>
              && t.nextPk !in t.requests && |t2.requests| == |t.requests| + 1
              && (forall i :: 0 <= i < |t.lines| ==> t.lines[i].requestPk != t.nextPk))
  {
    if |acc| > 0 {
      var t2 := SaveOrder(t, user, acc, now);
      assert t2.nextPk != t.nextPk;
      if Fresh(t) {
        SaveOrderFresh(t, user, acc, now);
      }
    }
  }

  /** Neither form valid: 404, `success: True`, nothing saved. */
  lemma InvalidFormsNotFound(t: Tables, user: User, now: int)
    ensures CreateOrderSpec(t, user, None, None, now) == (Reply(StatusNotFound, true, []), t)
  {
  }

  // ---------------------------------------------------------------------
  // Status changes

  /** `Request.mark_request` with the mode's target status: the updated
      record when the change is allowed, `None` when it is refused. */
  type MarkOracle = (Request, User, Mode) -> Option<Request>

  /** The 403 cooldown reply says `success: True` for cancel and reopen
      and `False` for complete. */
  function CooldownReply(mode: Mode): Reply {
    Reply(StatusForbidden, mode != CompleteMode, [])
  }

  /** `mark_request_canceled` / `_completed` / `_open`. */
  function MarkRequestSpec(entries: Entries, reqs: Requests, user: User, requestId: int, mode: Mode,
                           mark: MarkOracle, now: int): (Reply, Entries, Requests)
  {
    if OnCooldown(entries, user.username, requestId, mode, now) then (CooldownReply(mode), entries, reqs)
    else if requestId !in reqs then (Reply(StatusNotFound, false, []), entries, reqs)
    else match mark(reqs[requestId], user, mode)
      case Some(updated) =>
        (Reply(StatusOk, true, []), SetCooldown(entries, user.username, requestId, mode, now), reqs[requestId := updated])
      case None => (Reply(StatusBadRequest, false, []), entries, reqs)
  }

  /** A successful change blocks the same user, request and mode for sixty
      seconds: a repeat within that window answers 403 and changes nothing,
      whatever `mark_request` would say. */
  lemma RepeatWithinCooldownRefused(entries: Entries, reqs: Requests, user: User, requestId: int, mode: Mode,
                                    mark: MarkOracle, now: int, t: int)
    requires requestId in reqs && mark(reqs[requestId], user, mode).Some?
    requires t < now + CooldownSeconds
    ensures var (r1, e1, q1) := MarkRequestSpec(entries, reqs, user, requestId, mode, mark, now);
      r1.status == StatusOk ==>
        MarkRequestSpec(e1, q1, user, requestId, mode, mark, t) == (CooldownReply(mode), e1, q1)
  {
    CooldownScope(entries, user.username, requestId, mode, now, user.username, requestId, mode, t);
  }

  /** A refused or failed change leaves the requests table alone, and only
      a successful one sets a cooldown. */
  lemma MarkRequestOutcomes(entries: Entries, reqs: Requests, user: User, requestId: int, mode: Mode,
                            mark: MarkOracle, now: int)
    ensures var (r, e, q) := MarkRequestSpec(entries, reqs, user, requestId, mode, mark, now);
      && (r.status != StatusOk ==> e == entries && q == reqs)
      && (r.status == StatusOk <==>
            !OnCooldown(entries, user.username, requestId, mode, now) && requestId in reqs
            && mark(reqs[requestId], user, mode).Some?)
      && (r.status == StatusOk ==> q == reqs[requestId := mark(reqs[requestId], user, mode).value]
                                   && OnCooldown(e, user.username, requestId, mode, now))
  {
    if !OnCooldown(entries, user.username, requestId, mode, now) && requestId in reqs
       && mark(reqs[requestId], user, mode).Some? {
      CooldownScope(entries, user.username, requestId, mode, now, user.username, requestId, mode, now);
    }
  }

  // ---------------------------------------------------------------------
  // The database the views write

  class Database {
    var assets: map<int, AssetRow>
    var requests: Requests
    var lines: seq<RequestAsset>
    var nextPk: int

    function Snapshot(): Tables
      reads this
    {
      Tables(assets, requests, lines, nextPk)
    }

    /** Primary keys stay fresh. */
    predicate Valid()
      reads this
    {
      Fresh(Snapshot())
    }

    /** A database holding the given tables, whose keys are fresh. */
    constructor(t: Tables)
      requires Fresh(t)
      ensures Snapshot() == t && Valid()
    {
      assets, requests, lines, nextPk := t.assets, t.requests, t.lines, t.nextPk;
    }

    /** Saves one open request and its lines. */
    method Save(user: User, items: seq<(AssetRow, int)>, now: int)
      requires Valid()
      modifies this
      ensures Snapshot() == SaveOrder(old(Snapshot()), user, items, now)
      ensures Valid() && old(nextPk) !in old(requests) && |requests| == |old(requests)| + 1
    {
      SaveOrderFresh(Snapshot(), user, items, now);
      var pk := nextPk;
      requests := requests[pk := NewRequest(pk, user, now)];
      var j := 0;
      while j < |items|
        invariant 0 <= j <= |items|
        invariant lines == old(lines) + OrderLines(pk, items[..j])
        invariant requests == old(requests)[pk := NewRequest(pk, user, now)]
        invariant assets == old(assets) && nextPk == pk == old(nextPk)
      {
        assert OrderLines(pk, items[..j + 1]) == OrderLines(pk, items[..j]) + [CreateRequestAssetObject(pk, items[j].0, items[j].1)];
        lines := lines + [CreateRequestAssetObject(pk, items[j].0, items[j].1)];
        j := j + 1;
      }
      assert items[..j] == items;
      nextPk := pk + 1;
    }

    /** `create_order`. */
    method CreateOrder(user: User, single: Option<SingleForm>, multi: Option<seq<(string, Option<int>)>>, now: int)
      returns (reply: Reply)
      requires Valid()
      modifies this
      ensures (reply, Snapshot()) == CreateOrderSpec(old(Snapshot()), user, single, multi, now)
      ensures Valid()
    {
      if single.Some? {
        var f := single.value;
        if BadPk(f) {
          return Reply(StatusServerError, false, []);
        }
        var pk := PostedPk(f);
        if pk.None? || pk.value !in assets {
          return Reply(StatusNotFound, false, []);
        }
        var asset := assets[pk.value];
        if !ValidateAssetQuantity(asset, f.amount, requests, lines) {
          return Reply(StatusForbidden, false, []);
        }
        Save(user, [(asset, f.amount)], now);
        return Reply(StatusOk, true, []);
      }
      if multi.None? {
        return Reply(StatusNotFound, true, []);
      }
      var parsed := AssetData(multi.value);
      if parsed.None? {
        return Reply(StatusServerError, false, []);
      }
      var data := parsed.value;
      var acc: seq<(AssetRow, int)> := [];
      var ex: seq<string> := [];
      var i := 0;
      while i < |data|
        invariant 0 <= i <= |data|
        invariant SortItems(assets, requests, lines, data[..i]) == Sorted(acc, ex)
        invariant Snapshot() == old(Snapshot())
      {
        assert data[..i + 1][..i] == data[..i];
        var (pk, amount) := data[i];
        if amount.Some? {
          if pk !in assets {
            assert SortItems(assets, requests, lines, data[..i + 1]) == MissingAsset;
            SortItemsStaysMissing(assets, requests, lines, data, i + 1);
            assert data[..|data|] == data;
            return Reply(StatusNotFound, false, []);
          }
          var asset := assets[pk];
          if ValidateAssetQuantity(asset, amount.value, requests, lines) {
            acc := acc + [(asset, amount.value)];
          } else {
            ex := ex + [asset.typeName];
          }
        }
        i := i + 1;
      }
      assert data[..i] == data;
      if |acc| > 0 {
        Save(user, acc, now);
      }
      if |ex| > 0 {
        return Reply(StatusConflict, false, ex);
      }
      return Reply(StatusOk, true, []);
    }

    /** `mark_request_*`: the cooldown is read from and written to the
        shared cache. */
    method MarkRequest(cache: Cache, user: User, requestId: int, mode: Mode, mark: MarkOracle, now: int)
      returns (reply: Reply)
      requires Valid()
      modifies this, cache
      ensures (reply, cache.entries, requests) == MarkRequestSpec(old(cache.entries), old(requests), user, requestId, mode, mark, now)
      ensures assets == old(assets) && lines == old(lines) && nextPk == old(nextPk)
      ensures Valid()
    {
      if OnCooldown(cache.entries, user.username, requestId, mode, now) {
        return CooldownReply(mode);
      }
      if requestId !in requests {
        return Reply(StatusNotFound, false, []);
      }
      var updated := mark(requests[requestId], user, mode);
      if updated.None? {
        return Reply(StatusBadRequest, false, []);
      }
      requests := requests[requestId := updated.value];
      cache.Set(CooldownTag(user.username, requestId, ModeName(mode)), Flag(true), CooldownSeconds, now);
      return Reply(StatusOk, true, []);
    }
  }

  /** Once the loop meets a missing asset the verdict stays missing. */
  lemma {:induction false} SortItemsStaysMissing(assets: map<int, AssetRow>, reqs: Requests, lines: seq<RequestAsset>,
                                                 data: seq<(int, Option<int>)>, k: nat)
    requires k <= |data|
    requires SortItems(assets, reqs, lines, data[..k]) == MissingAsset
    ensures SortItems(assets, reqs, lines, data[..|data|]) == MissingAsset
    decreases |data| - k
  {
    if k < |data| {
      assert data[..k + 1][..k] == data[..k];
      SortItemsStaysMissing(assets, reqs, lines, data, k + 1);
    }
  }
}
