/** The querysets and managers of the plugin's models: the market price
    cache, the location/system/owner name annotations, the visibility and
    management filters, the open-request filters, and the freshness rule
    that decides when a stored location is fetched again. */
module Managers {
  import opened Text
  import opened Records
  import opened CacheStore

  // ---------------------------------------------------------------------
  // Market price cache

  /** Prices are kept for two hours. */
  const PriceTimeout: int := 60 * 60 * 2

  /** At most this many type ids go into one market request. */
  const ChunkSize: nat := 100

  /** `build_market_price_cache_tag`: the configured storage prefix followed
      by the item id. */
  function PriceKey(base: string, itemId: int): string {
    base + IntToString(itemId)
  }

  /** Two item ids share a cache entry only if they are the same id. */
  lemma PriceKeyInjective(base: string, a: int, b: int)
    requires PriceKey(base, a) == PriceKey(base, b)
    ensures a == b
  {
    var ka, kb := PriceKey(base, a), PriceKey(base, b);
    assert ka[|base|..] == IntToString(a);
    assert kb[|base|..] == IntToString(b);
    IntToStringInjective(a, b);
  }

  /** `item_ids[i : i + 100]` for i = 0, 100, 200, ...: consecutive chunks
      of at most 100 ids that concatenate back to the input. */
  function Chunks(ids: seq<int>): (r: seq<seq<int>>)
    ensures Flatten(r) == ids
    ensures forall i :: 0 <= i < |r| ==> 1 <= |r[i]| <= ChunkSize
    decreases |ids|
  {
    if |ids| == 0 then []
    else
      var n := if |ids| < ChunkSize then |ids| else ChunkSize;
      assert ids[..n] + ids[n..] == ids;
      [ids[..n]] + Chunks(ids[n..])
  }

  function Flatten(chunks: seq<seq<int>>): seq<int>
    decreases |chunks|
  {
    if |chunks| == 0 then [] else chunks[0] + Flatten(chunks[1..])
  }

  /** A market reply: the buy-max price per type id that the aggregate
      service knows, or `None` when the HTTP request failed. */
  type MarketReply = Option<map<int, int>>

  /** The keys one successful chunk writes. */
  function ChunkKeys(base: string, chunk: seq<int>, reply: map<int, int>): set<string> {
    set id | id in chunk && id in reply :: PriceKey(base, id)
  }

  /** Writing the prices of one chunk: `for item_id in chunk: if item_id in
      response: set_market_price_cache(...)`, one cache write at a time. */
  function StoreChunk(entries: Entries, base: string, chunk: seq<int>, reply: map<int, int>, now: int): Entries
    decreases |chunk|
  {
    if |chunk| == 0 then entries
    else
      var e := StoreChunk(entries, base, chunk[..|chunk| - 1], reply, now);
      var id := chunk[|chunk| - 1];
      if id in reply then Put(e, PriceKey(base, id), Number(reply[id]), PriceTimeout, now) else e
  }

  /** Every id of the chunk that the reply prices is cached with its price
      for two hours; no other key changes. */
  lemma {:induction false} StoreChunkEffect(entries: Entries, base: string, chunk: seq<int>, reply: map<int, int>, now: int)
    ensures forall id :: id in chunk && id in reply ==>
      var r := StoreChunk(entries, base, chunk, reply, now);
      PriceKey(base, id) in r && r[PriceKey(base, id)] == Entry(Number(reply[id]), now + PriceTimeout)
    ensures forall k :: k !in ChunkKeys(base, chunk, reply) ==>
      var r := StoreChunk(entries, base, chunk, reply, now);
      (k in r <==> k in entries) && (k in entries ==> r[k] == entries[k])
    decreases |chunk|
  {
    if |chunk| > 0 {
      var front, last := chunk[..|chunk| - 1], chunk[|chunk| - 1];
      StoreChunkEffect(entries, base, front, reply, now);
      assert ChunkKeys(base, front, reply) <= ChunkKeys(base, chunk, reply);
      forall id | id in chunk && id in reply
        ensures var r := StoreChunk(entries, base, chunk, reply, now);
          PriceKey(base, id) in r && r[PriceKey(base, id)] == Entry(Number(reply[id]), now + PriceTimeout)
      {
        if id != last {
          assert id in front;
          if PriceKey(base, id) == PriceKey(base, last) {
            PriceKeyInjective(base, id, last);
          }
        }
      }
    }
  }

  /** The whole refresh: one market request per chunk; a failed request
      leaves the cache as it was for that chunk. */
  function StorePrices(entries: Entries, base: string, chunks: seq<seq<int>>, market: seq<int> -> MarketReply, now: int): Entries
    decreases |chunks|
  {
    if |chunks| == 0 then entries
    else
      var e := match market(chunks[0])
        case None => entries
        case Some(reply) => StoreChunk(entries, base, chunks[0], reply, now);
      StorePrices(e, base, chunks[1..], market, now)
  }

  lemma StorePricesCons(entries: Entries, base: string, chunk: seq<int>, rest: seq<seq<int>>,
                        market: seq<int> -> MarketReply, now: int)
    ensures StorePrices(entries, base, [chunk] + rest, market, now)
      == StorePrices(if market(chunk).Some? then StoreChunk(entries, base, chunk, market(chunk).value, now) else entries,
                     base, rest, market, now)
  {
    assert ([chunk] + rest)[0] == chunk;
    assert ([chunk] + rest)[1..] == rest;
  }

  /** Keys of ids that were not requested are never written. */
  lemma {:induction false} StorePricesTouchesOnlyRequested(entries: Entries, base: string, chunks: seq<seq<int>>,
                                                          market: seq<int> -> MarketReply, now: int, k: string)
    requires forall id :: id in Flatten(chunks) ==> k != PriceKey(base, id)
    ensures var r := StorePrices(entries, base, chunks, market, now);
      (k in r <==> k in entries) && (k in entries ==> r[k] == entries[k])
    decreases |chunks|
  {
    if |chunks| > 0 {
      var e := match market(chunks[0])
        case None => entries
        case Some(reply) => StoreChunk(entries, base, chunks[0], reply, now);
      assert Flatten(chunks) == chunks[0] + Flatten(chunks[1..]);
      match market(chunks[0]) {
        case None =>
        case Some(reply) =>
          StoreChunkEffect(entries, base, chunks[0], reply, now);
          assert k !in ChunkKeys(base, chunks[0], reply);
      }
      StorePricesTouchesOnlyRequested(e, base, chunks[1..], market, now, k);
    }
  }

  /** When every market request fails the cache is left as it was. */
  lemma {:induction false} StorePricesAllFailed(entries: Entries, base: string, chunks: seq<seq<int>>,
                                               market: seq<int> -> MarketReply, now: int)
    requires forall i :: 0 <= i < |chunks| ==> market(chunks[i]).None?
    ensures StorePrices(entries, base, chunks, market, now) == entries
    decreases |chunks|
  {
    if |chunks| > 0 {
      assert market(chunks[0]).None?;
      StorePricesAllFailed(entries, base, chunks[1..], market, now);
    }
  }

  /** The returned prices: each requested id whose cached price is present. */
  function CachedPrices(entries: Entries, base: string, ids: seq<int>, now: int): (r: map<int, Value>)
    ensures forall id :: id in r <==> id in ids && Get(entries, PriceKey(base, id), now).Some?
    ensures forall id :: id in r ==> r[id] == Get(entries, PriceKey(base, id), now).value
  {
    map id | id in ids && Get(entries, PriceKey(base, id), now).Some? :: Get(entries, PriceKey(base, id), now).value
  }

  /** `update_or_create_prices`: refreshes the cache chunk by chunk and
      returns the cached price of every requested id that has one. */
  method UpdateOrCreatePrices(cache: Cache, base: string, itemIds: seq<int>, market: seq<int> -> MarketReply, now: int)
    returns (prices: map<int, Value>)
    modifies cache
    ensures cache.entries == StorePrices(old(cache.entries), base, Chunks(itemIds), market, now)
    ensures prices == CachedPrices(cache.entries, base, itemIds, now)
  {
    var i := 0;
    while i < |itemIds|
      invariant 0 <= i <= |itemIds|
      invariant StorePrices(old(cache.entries), base, Chunks(itemIds), market, now)
             == StorePrices(cache.entries, base, Chunks(itemIds[i..]), market, now)
      decreases |itemIds| - i
    {
      var end := if i + ChunkSize < |itemIds| then i + ChunkSize else |itemIds|;
      var chunk := itemIds[i..end];
      assert Chunks(itemIds[i..]) == [chunk] + Chunks(itemIds[end..]) by {
        assert itemIds[i..][..end - i] == chunk;
        assert itemIds[i..][end - i..] == itemIds[end..];
      }
      StorePricesCons(cache.entries, base, chunk, Chunks(itemIds[end..]), market, now);
      var reply := market(chunk);
      if reply.Some? {
        StoreChunkPrices(cache, base, chunk, reply.value, now);
      }
      i := end;
    }
    assert itemIds[i..] == [];
    prices := map id | id in itemIds && cache.Lookup(PriceKey(base, id), now).Some? :: cache.Lookup(PriceKey(base, id), now).value;
  }

  /** The inner loop of `update_or_create_prices`: cache every id of the
      chunk that the reply prices. */
  method StoreChunkPrices(cache: Cache, base: string, chunk: seq<int>, reply: map<int, int>, now: int)
    modifies cache
    ensures cache.entries == StoreChunk(old(cache.entries), base, chunk, reply, now)
  {
    var j := 0;
    while j < |chunk|
      invariant 0 <= j <= |chunk|
      invariant cache.entries == StoreChunk(old(cache.entries), base, chunk[..j], reply, now)
    {
      var id := chunk[j];
      assert chunk[..j + 1][..j] == chunk[..j];
      if id in reply {
        cache.Set(PriceKey(base, id), Number(reply[id]), PriceTimeout, now);
      }
      j := j + 1;
    }
    assert chunk[..j] == chunk;
  }

  // ---------------------------------------------------------------------
  // Name annotations

  /** Reference definition: the first non-empty name among `depth` levels
      of the chain starting at `l`. */
  function FirstName(l: Option<Location>, depth: nat): Option<string>
    decreases depth
  {
    if depth == 0 || l.None? then None
    else if l.value.name != "" then Some(l.value.name)
    else FirstName(l.value.parent, depth - 1)
  }

  /** `annotate_location_name`: the location's own name, else its parent's,
      grandparent's or great-grandparent's, following only parents that
      exist; else "Location #" and the id. */
  function LocationName(loc: Location): string {
    if loc.name != "" then loc.name
    else if loc.parent.Some? && loc.parent.value.name != "" then loc.parent.value.name
    else if loc.parent.Some? && loc.parent.value.parent.Some?
         && loc.parent.value.parent.value.name != "" then loc.parent.value.parent.value.name
    else if loc.parent.Some? && loc.parent.value.parent.Some? && loc.parent.value.parent.value.parent.Some?
         && loc.parent.value.parent.value.parent.value.name != "" then loc.parent.value.parent.value.parent.value.name
    else "Location #" + IntToString(loc.id)
  }

  /** The name annotation is the first named location among the location
      and its three nearest ancestors, with the id-based default. */
  lemma LocationNameIsFirstNamed(loc: Location)
    ensures LocationName(loc) == match FirstName(Some(loc), 4)
      case Some(n) => n
      case None => "Location #" + IntToString(loc.id)
  {
  }

  /** Reference definition for the system annotation: the first solar
      system id set among `depth` levels of the chain. */
  function FirstSystem(l: Option<Location>, depth: nat): Option<int>
    decreases depth
  {
    if depth == 0 || l.None? then None
    else if l.value.systemId.Some? then l.value.systemId
    else FirstSystem(l.value.parent, depth - 1)
  }

  /** `annotate_system_name`: the name of the first solar system found on
      the location or its three nearest ancestors, else "N/A".
      `systemName` is the solar system table. */
  function SystemName(loc: Location, systemName: int -> string): string {
    if loc.systemId.Some? then systemName(loc.systemId.value)
    else if loc.parent.Some? && loc.parent.value.systemId.Some? then systemName(loc.parent.value.systemId.value)
    else if loc.parent.Some? && loc.parent.value.parent.Some? && loc.parent.value.parent.value.systemId.Some?
      then systemName(loc.parent.value.parent.value.systemId.value)
    else if loc.parent.Some? && loc.parent.value.parent.Some? && loc.parent.value.parent.value.parent.Some?
         && loc.parent.value.parent.value.parent.value.systemId.Some?
      then systemName(loc.parent.value.parent.value.parent.value.systemId.value)
    else "N/A"
  }

  lemma SystemNameIsFirstSystem(loc: Location, systemName: int -> string)
    ensures SystemName(loc, systemName) == match FirstSystem(Some(loc), 4)
      case Some(s) => systemName(s)
      case None => "N/A"
  {
  }

  /** `annotate_owner_name`: a character owner is named after its
      character, a corporation owner after its corporation. */
  function OwnerName(owner: Owner): (r: string)
    ensures owner.corporation.None? ==> r == owner.characterName
    ensures owner.corporation.Some? ==> r == owner.corporation.value.name
  {
    match owner.corporation
    case None => owner.characterName
    case Some(corp) => corp.name
  }

  // ---------------------------------------------------------------------
  // Visibility and management filters

  /** `AssetsQuerySet.visible_to` as written: the lookup
      `owner__character__character_id` ends in the foreign-key column of the
      ownership, so the main character's EVE id is compared with the row
      key of the owner's character. */
  predicate AssetVisibleAsWritten(u: User, a: AssetRow) {
    if u.isSuperuser then true
    else if HasPerm(u, AdminAccess) then true
    else match u.mainCharacter
      case None => false
      case Some(c) =>
        a.owner.characterRowPk == c.characterId
        || (HasPerm(u, CorporationAccess) && a.owner.corporation.Some?
            && a.owner.corporation.value.corporationId == c.corporationId)
  }

  /** The comparison as written hides a user's own character assets as soon
      as the character's row key differs from its EVE id, which it does for
      every character stored under an automatic key. */
  lemma OwnAssetHiddenAsWritten()
    ensures var c := Character(90000001, 98000001);
      var u := User(7, "pilot", false, {BasicAccess}, Some(c));
      var o := Owner(1, 90000001, 42, "Pilot", 7, None, true, 0);
      var l := Location(60003760, "Jita IV - Moon 4", None, None, None, None, 0);
      var a := AssetRow(1, 1000000001, 34, "Tritanium", o, l, "Hangar", 100, None);
      !AssetVisibleAsWritten(u, a) && AssetVisible(u, a)
  {
  }

  /** The two comparisons agree wherever the row key is the EVE id. */
  lemma AssetVisibleAgreesOnEveKeys(u: User, a: AssetRow)
    requires a.owner.characterRowPk == a.owner.characterId
    ensures AssetVisibleAsWritten(u, a) == AssetVisible(u, a)
  {
  }

  /** `AssetsQuerySet.visible_to` as intended, row by row: the owner's
      character is the user's main character (compared by EVE id). */
  predicate AssetVisible(u: User, a: AssetRow) {
    if u.isSuperuser then true
    else if HasPerm(u, AdminAccess) then true
    else match u.mainCharacter
      case None => false
      case Some(c) =>
        a.owner.characterId == c.characterId
        || (HasPerm(u, CorporationAccess) && a.owner.corporation.Some?
            && a.owner.corporation.value.corporationId == c.corporationId)
  }

  function VisibleAssets(u: User, rows: seq<AssetRow>): seq<AssetRow> {
    Filter(rows, a => AssetVisible(u, a))
  }

  /** Superusers and `admin_Access` see every asset; a user without a main
      character sees none; anyone else sees the rows of their own character
      and, only with `corporation_access`, those of their corporation. */
  lemma VisibleAssetsDecision(u: User, rows: seq<AssetRow>)
    ensures (u.isSuperuser || AdminAccess in u.perms) ==> VisibleAssets(u, rows) == rows
    ensures (!u.isSuperuser && AdminAccess !in u.perms && u.mainCharacter.None?) ==> VisibleAssets(u, rows) == []
    ensures (!u.isSuperuser && AdminAccess !in u.perms && u.mainCharacter.Some?) ==>
      forall i :: 0 <= i < |rows| ==>
        (rows[i] in VisibleAssets(u, rows) <==>
          rows[i].owner.characterId == u.mainCharacter.value.characterId
          || (CorporationAccess in u.perms && rows[i].owner.corporation.Some?
              && rows[i].owner.corporation.value.corporationId == u.mainCharacter.value.corporationId))
  {
    if u.isSuperuser || AdminAccess in u.perms {
      FilterKeepsAll(rows, a => AssetVisible(u, a));
    } else if u.mainCharacter.None? {
      FilterKeepsNone(rows, a => AssetVisible(u, a));
    }
  }

  /** `AssetsQuerySet.manage_to`, row by row. */
  predicate AssetManaged(u: User, a: AssetRow) {
    if u.isSuperuser || HasPerm(u, AdminAccess) || HasPerm(u, ManageRequests) then true
    else u.mainCharacter.Some? && a.owner.userId == u.id
  }

  function ManagedAssets(u: User, rows: seq<AssetRow>): seq<AssetRow> {
    Filter(rows, a => AssetManaged(u, a))
  }

  /** Managers see every asset; anyone else with a main character only the
      assets of owners linked to their own account. */
  lemma ManagedAssetsDecision(u: User, rows: seq<AssetRow>)
    ensures (u.isSuperuser || AdminAccess in u.perms || ManageRequests in u.perms) ==> ManagedAssets(u, rows) == rows
    ensures (!u.isSuperuser && AdminAccess !in u.perms && ManageRequests !in u.perms) ==>
      forall i :: 0 <= i < |rows| ==>
        (rows[i] in ManagedAssets(u, rows) <==> u.mainCharacter.Some? && rows[i].owner.userId == u.id)
  {
    if u.isSuperuser || AdminAccess in u.perms || ManageRequests in u.perms {
      FilterKeepsAll(rows, a => AssetManaged(u, a));
    }
  }

  /** `LocationQuerySet.visible_to`: the location's owner entity must be the
      user's character or, with `corporation_access`, their corporation. */
  predicate LocationVisible(u: User, l: Location) {
    if u.isSuperuser || HasPerm(u, AdminAccess) then true
    else match u.mainCharacter
      case None => false
      case Some(c) =>
        l.ownerId == Some(c.characterId)
        || (HasPerm(u, CorporationAccess) && l.ownerId == Some(c.corporationId))
  }

  function VisibleLocations(u: User, locs: seq<Location>): seq<Location> {
    Filter(locs, l => LocationVisible(u, l))
  }

  lemma VisibleLocationsDecision(u: User, locs: seq<Location>)
    ensures (u.isSuperuser || AdminAccess in u.perms) ==> VisibleLocations(u, locs) == locs
    ensures (!u.isSuperuser && AdminAccess !in u.perms && u.mainCharacter.None?) ==> VisibleLocations(u, locs) == []
    ensures (!u.isSuperuser && AdminAccess !in u.perms && u.mainCharacter.Some?) ==>
      forall i :: 0 <= i < |locs| ==>
        (locs[i] in VisibleLocations(u, locs) <==>
          locs[i].ownerId == Some(u.mainCharacter.value.characterId)
          || (CorporationAccess in u.perms && locs[i].ownerId == Some(u.mainCharacter.value.corporationId)))
  {
    if u.isSuperuser || AdminAccess in u.perms {
      FilterKeepsAll(locs, l => LocationVisible(u, l));
    } else if u.mainCharacter.None? {
      FilterKeepsNone(locs, l => LocationVisible(u, l));
    }
  }

  /** `LocationQuerySet.manage_to`: the filter compares the location's
      owner id with the user's primary key. */
  predicate LocationManaged(u: User, l: Location) {
    if u.isSuperuser || HasPerm(u, AdminAccess) || HasPerm(u, ManageRequests) then true
    else u.mainCharacter.Some? && l.ownerId == Some(u.id)
  }

  /** `OwnerQuerySet.visible_to`. */
  predicate OwnerVisible(u: User, o: Owner) {
    if u.isSuperuser || HasPerm(u, AdminAccess) then true
    else match u.mainCharacter
      case None => false
      case Some(c) =>
        o.userId == u.id
        || (HasPerm(u, CorporationAccess) && o.corporation.Some? && o.corporation.value.corporationId == c.corporationId)
  }

  function VisibleOwners(u: User, owners: seq<Owner>): seq<Owner> {
    Filter(owners, o => OwnerVisible(u, o))
  }

  /** Superusers and `admin_Access` see every owner; a user without a main
      character sees none; anyone else sees the owners linked to their own
      account and, only with `corporation_access`, their corporation's. */
  lemma VisibleOwnersDecision(u: User, owners: seq<Owner>)
    ensures (u.isSuperuser || AdminAccess in u.perms) ==> VisibleOwners(u, owners) == owners
    ensures (!u.isSuperuser && AdminAccess !in u.perms && u.mainCharacter.None?) ==> VisibleOwners(u, owners) == []
    ensures (!u.isSuperuser && AdminAccess !in u.perms && u.mainCharacter.Some?) ==>
      forall i :: 0 <= i < |owners| ==>
        (owners[i] in VisibleOwners(u, owners) <==>
          owners[i].userId == u.id
          || (CorporationAccess in u.perms && owners[i].corporation.Some?
              && owners[i].corporation.value.corporationId == u.mainCharacter.value.corporationId))
  {
    if u.isSuperuser || AdminAccess in u.perms {
      FilterKeepsAll(owners, o => OwnerVisible(u, o));
    } else if u.mainCharacter.None? {
      FilterKeepsNone(owners, o => OwnerVisible(u, o));
    }
  }

  /** `OwnerQuerySet.manage_to`. */
  predicate OwnerManaged(u: User, o: Owner) {
    if u.isSuperuser || HasPerm(u, AdminAccess) || HasPerm(u, ManageRequests) then true
    else u.mainCharacter.Some? && o.userId == u.id
  }

  /** `RequestQuerySet.visible_to`: request managers see every request,
      anyone else with a main character only their own. */
  predicate RequestVisible(u: User, r: Request) {
    if u.isSuperuser || HasPerm(u, ManageRequests) then true
    else u.mainCharacter.Some? && r.requestingUser == u.id
  }

  /** `RequestQuerySet.manage_to`: only superusers and request managers
      manage requests; the filter built for everyone else is empty. */
  predicate RequestManaged(u: User, r: Request) {
    u.isSuperuser || HasPerm(u, ManageRequests)
  }

  function ManagedRequests(u: User, reqs: seq<Request>): seq<Request> {
    Filter(reqs, r => RequestManaged(u, r))
  }

  lemma ManagedRequestsDecision(u: User, reqs: seq<Request>)
    ensures (u.isSuperuser || ManageRequests in u.perms) ==> ManagedRequests(u, reqs) == reqs
    ensures (!u.isSuperuser && ManageRequests !in u.perms) ==> ManagedRequests(u, reqs) == []
  {
    if u.isSuperuser || ManageRequests in u.perms {
      FilterKeepsAll(reqs, r => RequestManaged(u, r));
    } else {
      FilterKeepsNone(reqs, r => RequestManaged(u, r));
    }
  }

  // ---------------------------------------------------------------------
  // Open requests

  /** `requests_open`: not closed and in the open status. */
  predicate IsOpenRequest(r: Request) {
    r.closedAt.None? && r.status == Open
  }

  /** `my_requests_open`: additionally raised by the given user. */
  predicate IsMyOpenRequest(r: Request, userId: int) {
    r.closedAt.None? && r.status == Open && r.requestingUser == userId
  }

  /** `open_requests_total_count`. */
  function OpenRequestCount(reqs: Requests): nat {
    |set k | k in reqs && IsOpenRequest(reqs[k])|
  }

  /** `my_requests_total_count`. */
  function MyOpenRequestCount(reqs: Requests, userId: int): nat {
    |set k | k in reqs && IsMyOpenRequest(reqs[k], userId)|
  }

  /** A user's own open requests are among all open requests, so their
      count never exceeds the total. */
  lemma MyOpenRequestsAmongOpen(reqs: Requests, userId: int)
    ensures (set k | k in reqs && IsMyOpenRequest(reqs[k], userId)) <= (set k | k in reqs && IsOpenRequest(reqs[k]))
    ensures MyOpenRequestCount(reqs, userId) <= OpenRequestCount(reqs)
  {
    var mine := set k | k in reqs && IsMyOpenRequest(reqs[k], userId);
    var all := set k | k in reqs && IsOpenRequest(reqs[k]);
    SubsetCard(mine, all);
  }

  lemma SubsetCard(a: set<int>, b: set<int>)
    requires a <= b
    ensures |a| <= |b|
  {
    assert b == a + (b - a);
    assert a * (b - a) == {};
  }

  // ---------------------------------------------------------------------
  // Location freshness

  /** Empty records (no type and no solar system) are refetched after 360
      minutes. */
  const UpdateEmptyGraceMinutes: int := 360

  /** A stored location is reused unless it is older than the stale
      threshold, or it is an empty record older than the grace period. */
  predicate IsReusable(l: Location, now: int, staleHours: int) {
    var emptyThreshold := now - UpdateEmptyGraceMinutes * 60;
    var staleThreshold := now - staleHours * 3600;
    !(l.typeId.None? && l.systemId.None? && l.updatedAt < emptyThreshold)
    && !(l.updatedAt < staleThreshold)
  }

  /** `get_or_create_esi`: the stored location when it is reusable,
      otherwise whatever `update_or_create_esi` yields (`refetched`). */
  function GetOrCreateEsi(table: map<int, Location>, id: int, now: int, staleHours: int,
                          refetched: (Location, bool)): (r: (Location, bool))
    ensures (id in table && IsReusable(table[id], now, staleHours)) ==> r == (table[id], false)
    ensures !(id in table && IsReusable(table[id], now, staleHours)) ==> r == refetched
  {
    if id in table && IsReusable(table[id], now, staleHours) then (table[id], false) else refetched
  }

  /** An empty record older than six hours is fetched again even when it
      is newer than the stale threshold; a non-empty record within the
      stale threshold is reused whatever its age relative to the grace
      period. */
  lemma FreshnessCases(l: Location, now: int, staleHours: int)
    ensures (l.typeId.None? && l.systemId.None? && l.updatedAt < now - 21600) ==> !IsReusable(l, now, staleHours)
    ensures ((l.typeId.Some? || l.systemId.Some?) && l.updatedAt >= now - staleHours * 3600) ==> IsReusable(l, now, staleHours)
  {
  }
}
