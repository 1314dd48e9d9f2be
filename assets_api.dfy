/** The JSON endpoints of the asset pages: the items at one location (net
    of reservations) and the list of locations holding assets. */
module AssetsApi {
  import opened Text
  import opened Records
  import opened Managers
  import opened AssetHelper

  // ---------------------------------------------------------------------
  // Assets at a location

  /** `get_asset`'s permission: some asset at the location is visible to
      the user. The page then shows every asset there, whoever owns it. */
  predicate AssetAccess(u: User, rows: seq<AssetRow>, locationId: int) {
    exists i :: 0 <= i < |rows| && rows[i].location.id == locationId && AssetVisible(u, rows[i])
  }

  /** "all" stands for the standard flags; any other value for itself. */
  function ExpandFlag(flag: string, standardFlags: seq<string>): seq<string> {
    if flag == "all" then standardFlags else [flag]
  }

  predicate IsCandidate(locationId: int, flags: seq<string>, a: AssetRow) {
    a.location.id == locationId && a.locationFlag in flags
  }

  function Candidates(rows: seq<AssetRow>, locationId: int, flags: seq<string>): seq<AssetRow> {
    Filter(rows, a => IsCandidate(locationId, flags, a))
  }

  /** The value column: unit price times the reduced quantity, or "N/A"
      when the asset has no price. */
  datatype PriceCell = Price(amount: int) | NotAvailable

  datatype AssetEntry = AssetEntry(
    assetPk: int,
    itemId: int,
    name: string,
    quantity: int,
    locationId: int,
    location: string,
    locationFlag: string,
    price: PriceCell)

  datatype AssetsReply =
    | AssetsForbidden
    | AssetsView(locationId: int, locationFlag: string, assets: seq<AssetEntry>)

  function MakeEntry(a: AssetRow, quantity: int): AssetEntry {
    AssetEntry(a.pk, a.itemId, a.typeName, quantity, a.location.id, LocationName(a.location),
               a.locationFlag, if a.price.Some? then Price(a.price.value * quantity) else NotAvailable)
  }

  /** The entry of one candidate, or `None` when `update_asset_object`
      drops it. */
  function EntryFor(reqs: Requests, lines: seq<RequestAsset>, now: int, a: AssetRow): Option<AssetEntry> {
    match Reduce(a.quantity, Total(RecentLines(reqs, lines, a.pk, now)), Total(OpenLines(reqs, lines, a.pk)))
    case Dropped => None
    case Kept(q) => Some(MakeEntry(a, q))
  }

  function PageEntries(cands: seq<AssetRow>, reqs: Requests, lines: seq<RequestAsset>, now: int): seq<AssetEntry>
    decreases |cands|
  {
    if |cands| == 0 then []
    else
      var e := EntryFor(reqs, lines, now, cands[|cands| - 1]);
      PageEntries(cands[..|cands| - 1], reqs, lines, now) + (if e.Some? then [e.value] else [])
  }

  lemma PageEntriesSnoc(cands: seq<AssetRow>, i: int, reqs: Requests, lines: seq<RequestAsset>, now: int)
    requires 0 <= i < |cands|
    ensures var e := EntryFor(reqs, lines, now, cands[i]);
      PageEntries(cands[..i + 1], reqs, lines, now)
        == PageEntries(cands[..i], reqs, lines, now) + (if e.Some? then [e.value] else [])
  {
    assert cands[..i + 1][..i] == cands[..i];
  }

  function AssetsPage(u: User, rows: seq<AssetRow>, locationId: int, flag: string, standardFlags: seq<string>,
                      reqs: Requests, lines: seq<RequestAsset>, now: int): AssetsReply {
    if !AssetAccess(u, rows, locationId) then AssetsForbidden
    else AssetsView(locationId, flag,
                    PageEntries(Candidates(rows, locationId, ExpandFlag(flag, standardFlags)), reqs, lines, now))
  }

  /** `get_assets`: each candidate is loaded, reduced by its reservations
      and listed unless it was dropped. */
  method GetAssets(u: User, rows: seq<AssetRow>, locationId: int, flag: string, standardFlags: seq<string>,
                   reqs: Requests, lines: seq<RequestAsset>, now: int)
    returns (reply: AssetsReply)
    ensures reply == AssetsPage(u, rows, locationId, flag, standardFlags, reqs, lines, now)
  {
    if !AssetAccess(u, rows, locationId) {
      return AssetsForbidden;
    }
    var cands := Candidates(rows, locationId, ExpandFlag(flag, standardFlags));
    var out: seq<AssetEntry> := [];
    for i := 0 to |cands|
      invariant out == PageEntries(cands[..i], reqs, lines, now)
    {
      var asset := new AssetInstance.Load(cands[i]);
      var kept := UpdateAssetObject(asset, reqs, lines, now);
      assert EntryFor(reqs, lines, now, cands[i]) == if kept then Some(MakeEntry(cands[i], asset.quantity)) else None;
      PageEntriesSnoc(cands, i, reqs, lines, now);
      if kept {
        out := out + [MakeEntry(cands[i], asset.quantity)];
      }
    }
    assert cands[..|cands|] == cands;
    return AssetsView(locationId, flag, out);
  }

  /** Every listed entry comes from a candidate that was kept, and every
      kept candidate is listed. */
  lemma {:induction false} PageEntriesAreKept(cands: seq<AssetRow>, reqs: Requests, lines: seq<RequestAsset>, now: int)
    ensures forall e :: e in PageEntries(cands, reqs, lines, now) ==>
      exists a :: a in cands && EntryFor(reqs, lines, now, a) == Some(e)
    ensures forall a :: a in cands && EntryFor(reqs, lines, now, a).Some? ==>
      EntryFor(reqs, lines, now, a).value in PageEntries(cands, reqs, lines, now)
    decreases |cands|
  {
    if |cands| > 0 {
      var init := cands[..|cands| - 1];
      PageEntriesAreKept(init, reqs, lines, now);
      assert cands == init + [cands[|cands| - 1]];
    }
  }

  /** One asset's entry: it is listed exactly when nothing is reserved or
      the reservations leave some stock; it shows the stock minus the open
      and recently completed reservations, and a price exactly when the
      asset has a unit price. */
  lemma EntryForDecision(reqs: Requests, lines: seq<RequestAsset>, now: int, a: AssetRow)
    requires forall l :: l in lines ==> l.quantity >= 0
    ensures var recent := Total(RecentLines(reqs, lines, a.pk, now));
      var open := Total(OpenLines(reqs, lines, a.pk));
      && (EntryFor(reqs, lines, now, a).Some? <==> (recent == 0 && open == 0) || recent + open < a.quantity)
      && (EntryFor(reqs, lines, now, a).Some? ==>
            var e := EntryFor(reqs, lines, now, a).value;
            && e.assetPk == a.pk && e.quantity == a.quantity - recent - open
            && (e.price.NotAvailable? <==> a.price.None?)
            && (a.price.Some? ==> e.price.amount == a.price.value * e.quantity))
  {
    TotalNonNegative(RecentLines(reqs, lines, a.pk, now));
    TotalNonNegative(OpenLines(reqs, lines, a.pk));
    ReduceDecision(a.quantity, Total(RecentLines(reqs, lines, a.pk, now)), Total(OpenLines(reqs, lines, a.pk)));
  }

  /** The page is refused exactly when no asset at the location is visible
      to the user; otherwise it lists only assets at that location under
      the requested flags ("all" meaning the standard ones), each kept
      after its reservations, and every such kept asset. */
  lemma AssetsPageOutcomes(u: User, rows: seq<AssetRow>, locationId: int, flag: string, standardFlags: seq<string>,
                           reqs: Requests, lines: seq<RequestAsset>, now: int)
    ensures AssetsPage(u, rows, locationId, flag, standardFlags, reqs, lines, now).AssetsForbidden? <==>
      forall i :: 0 <= i < |rows| && rows[i].location.id == locationId ==> !AssetVisible(u, rows[i])
    ensures AssetsPage(u, rows, locationId, flag, standardFlags, reqs, lines, now).AssetsView? ==>
      var page := AssetsPage(u, rows, locationId, flag, standardFlags, reqs, lines, now);
      var flags := if flag == "all" then standardFlags else [flag];
      && page.locationId == locationId && page.locationFlag == flag
      && (forall e :: e in page.assets ==> e.locationId == locationId && e.locationFlag in flags)
      && (forall a ::
            (a in rows && a.location.id == locationId && a.locationFlag in flags && EntryFor(reqs, lines, now, a).Some?)
            ==> EntryFor(reqs, lines, now, a).value in page.assets)
  {
    if AssetAccess(u, rows, locationId) {
      var flags := ExpandFlag(flag, standardFlags);
      var cands := Candidates(rows, locationId, flags);
      PageEntriesAreKept(cands, reqs, lines, now);
      forall e | e in PageEntries(cands, reqs, lines, now)
        ensures e.locationId == locationId && e.locationFlag in flags
      {
        var a :| a in cands && EntryFor(reqs, lines, now, a) == Some(e);
      }
    }
  }

  /** Any two users allowed to see a location get the same page: access
      decides only whether the page is shown, not what it holds. */
  lemma PageIndependentOfViewer(u1: User, u2: User, rows: seq<AssetRow>, locationId: int, flag: string,
                                 standardFlags: seq<string>, reqs: Requests, lines: seq<RequestAsset>, now: int)
    requires AssetAccess(u1, rows, locationId) && AssetAccess(u2, rows, locationId)
    ensures AssetsPage(u1, rows, locationId, flag, standardFlags, reqs, lines, now)
         == AssetsPage(u2, rows, locationId, flag, standardFlags, reqs, lines, now)
  {
  }

  // ---------------------------------------------------------------------
  // Location list

  datatype LocationEntry = LocationEntry(locationId: int, name: string, solarSystem: string)

  datatype LocationsReply = LocationsForbidden | LocationList(locations: seq<LocationEntry>)

  /** `get_owner`'s permission: some owner is visible to the user. */
  predicate OwnerAccess(u: User, owners: seq<Owner>) {
    exists i :: 0 <= i < |owners| && OwnerVisible(u, owners[i])
  }

  /** Ids of the locations holding assets under a standard flag. The
      source filters by `Owner.objects.all()`, so these are the locations
      of every owner's assets, not only of the owners the user may see. */
  function ListedLocationIds(assets: seq<AssetRow>, standardFlags: seq<string>): set<int> {
    set i | 0 <= i < |assets| && assets[i].locationFlag in standardFlags :: assets[i].location.id
  }

  function LocationEntryOf(l: Location, systemName: int -> string): LocationEntry {
    LocationEntry(l.id, LocationName(l), SystemName(l, systemName))
  }

  /** The rows for the stored locations whose id is in `ids`, in table
      order. */
  function LocationEntries(table: seq<Location>, ids: set<int>, systemName: int -> string): seq<LocationEntry>
    decreases |table|
  {
    if |table| == 0 then []
    else
      var l := table[|table| - 1];
      LocationEntries(table[..|table| - 1], ids, systemName)
        + (if l.id in ids then [LocationEntryOf(l, systemName)] else [])
  }

  function LocationsPage(u: User, owners: seq<Owner>, assets: seq<AssetRow>, table: seq<Location>,
                         standardFlags: seq<string>, systemName: int -> string): LocationsReply {
    if !OwnerAccess(u, owners) then LocationsForbidden
    else LocationList(LocationEntries(table, ListedLocationIds(assets, standardFlags), systemName))
  }

  /** `get_locations`. */
  method GetLocations(u: User, owners: seq<Owner>, assets: seq<AssetRow>, table: seq<Location>,
                      standardFlags: seq<string>, systemName: int -> string)
    returns (reply: LocationsReply)
    ensures reply == LocationsPage(u, owners, assets, table, standardFlags, systemName)
  {
    if !OwnerAccess(u, owners) {
      return LocationsForbidden;
    }
    var ids := ListedLocationIds(assets, standardFlags);
    var out: seq<LocationEntry> := [];
    for i := 0 to |table|
      invariant out == LocationEntries(table[..i], ids, systemName)
    {
      assert table[..i + 1][..i] == table[..i];
      if table[i].id in ids {
        out := out + [LocationEntryOf(table[i], systemName)];
      }
    }
    assert table[..|table|] == table;
    return LocationList(out);
  }

  /** Over a table with distinct ids, each listed row is the annotated row
      of a stored location whose id is wanted, every wanted stored
      location is listed, and no location is listed twice. */
  lemma {:induction false} LocationEntriesListed(table: seq<Location>, ids: set<int>, systemName: int -> string)
    requires forall i, j :: 0 <= i < j < |table| ==> table[i].id != table[j].id
    ensures var es := LocationEntries(table, ids, systemName);
      && (forall e :: e in es ==>
            (e.locationId in ids && exists i :: 0 <= i < |table| && e == LocationEntryOf(table[i], systemName)))
      && (forall i :: 0 <= i < |table| && table[i].id in ids ==> LocationEntryOf(table[i], systemName) in es)
      && (forall i, j :: 0 <= i < j < |es| ==> es[i].locationId != es[j].locationId)
    decreases |table|
  {
    if |table| > 0 {
      var init := table[..|table| - 1];
      var l := table[|table| - 1];
      LocationEntriesListed(init, ids, systemName);
      var es0 := LocationEntries(init, ids, systemName);
      forall e | e in es0 ensures e.locationId != l.id {
        var i :| 0 <= i < |init| && e == LocationEntryOf(init[i], systemName);
        assert init[i] == table[i];
      }
      forall i | 0 <= i < |table| && table[i].id in ids
        ensures LocationEntryOf(table[i], systemName) in LocationEntries(table, ids, systemName)
      {
        if i < |table| - 1 {
          assert table[i] == init[i];
        }
      }
      forall e | e in LocationEntries(table, ids, systemName)
        ensures exists i :: 0 <= i < |table| && e == LocationEntryOf(table[i], systemName)
      {
        if e in es0 {
          var i :| 0 <= i < |init| && e == LocationEntryOf(init[i], systemName);
          assert table[i] == init[i];
        } else {
          assert e == LocationEntryOf(table[|table| - 1], systemName);
        }
      }
    }
  }

  /** The list is refused exactly when no owner is visible to the user;
      otherwise a stored location is listed, once, exactly when some asset
      (of any owner) lies there under a standard flag, with its name and
      solar system annotations. */
  lemma LocationsPageOutcomes(u: User, owners: seq<Owner>, assets: seq<AssetRow>, table: seq<Location>,
                              standardFlags: seq<string>, systemName: int -> string)
    requires forall i, j :: 0 <= i < j < |table| ==> table[i].id != table[j].id
    ensures LocationsPage(u, owners, assets, table, standardFlags, systemName).LocationsForbidden? <==>
      forall i :: 0 <= i < |owners| ==> !OwnerVisible(u, owners[i])
    ensures LocationsPage(u, owners, assets, table, standardFlags, systemName).LocationList? ==>
      var es := LocationsPage(u, owners, assets, table, standardFlags, systemName).locations;
      && (forall i :: 0 <= i < |table| ==>
            (LocationEntryOf(table[i], systemName) in es <==>
              exists k :: 0 <= k < |assets| && assets[k].locationFlag in standardFlags
                          && assets[k].location.id == table[i].id))
      && (forall i, j :: 0 <= i < j < |es| ==> es[i].locationId != es[j].locationId)
  {
    var ids := ListedLocationIds(assets, standardFlags);
    LocationEntriesListed(table, ids, systemName);
  }
}
