/** The background jobs: which owners get an asset refresh, which
    locations get resolved, how one location is resolved through the
    characters that hold assets there, which container items get a parent
    lookup, and how one parent is recorded. Queueing a job is appending it
    to an output sequence. */
module Tasks {
  import opened Text
  import opened Records
  import opened CacheStore
  import opened LocationHelpers

  /** A failed attempt caused by the rate limit is retried after five
      minutes. */
  const RetryCountdown: int := 300

  /** The location table, updated in place by the tasks. */
  class LocationTable {
    var locations: map<int, Location>

    constructor (locations: map<int, Location>)
      ensures this.locations == locations
    {
      this.locations := locations;
    }
  }

  // ---------------------------------------------------------------------
  // update_all_assets

  datatype AssetsJob = AssetsJob(ownerPk: int, forceRefresh: bool)

  /** An owner is due when its last update is at least `periodMinutes` old,
      or when a refresh is forced. */
  predicate IsDue(o: Owner, now: int, periodMinutes: int, force: bool) {
    o.lastUpdate <= now - periodMinutes * 60 || force
  }

  predicate IsQueuedOwner(o: Owner, now: int, periodMinutes: int, force: bool) {
    o.isActive && IsDue(o, now, periodMinutes, force)
  }

  function DueOwners(owners: seq<Owner>, now: int, periodMinutes: int, force: bool): seq<Owner> {
    Filter(owners, o => IsQueuedOwner(o, now, periodMinutes, force))
  }

  function JobsFor(owners: seq<Owner>, force: bool): (r: seq<AssetsJob>)
    ensures |r| == |owners|
    ensures forall i :: 0 <= i < |owners| ==> r[i] == AssetsJob(owners[i].pk, force)
  {
    seq(|owners|, i requires 0 <= i < |owners| => AssetsJob(owners[i].pk, force))
  }

  lemma JobsForAppend(owners: seq<Owner>, o: Owner, force: bool)
    ensures JobsFor(owners + [o], force) == JobsFor(owners, force) + [AssetsJob(o.pk, force)]
  {
  }

  lemma DueOwnersAppend(owners: seq<Owner>, o: Owner, now: int, periodMinutes: int, force: bool)
    ensures DueOwners(owners + [o], now, periodMinutes, force)
      == DueOwners(owners, now, periodMinutes, force) + (if IsQueuedOwner(o, now, periodMinutes, force) then [o] else [])
  {
    FilterAppend(owners, o, o => IsQueuedOwner(o, now, periodMinutes, force));
  }

  /** `update_all_assets`: one job per due active owner, in table order,
      each carrying the force flag. */
  method UpdateAllAssets(owners: seq<Owner>, now: int, periodMinutes: int, force: bool) returns (queued: seq<AssetsJob>)
    ensures queued == JobsFor(DueOwners(owners, now, periodMinutes, force), force)
  {
    queued := [];
    var i := 0;
    while i < |owners|
      invariant 0 <= i <= |owners|
      invariant queued == JobsFor(DueOwners(owners[..i], now, periodMinutes, force), force)
    {
      assert owners[..i + 1] == owners[..i] + [owners[i]];
      DueOwnersAppend(owners[..i], owners[i], now, periodMinutes, force);
      var owner := owners[i];
      if owner.isActive && (owner.lastUpdate <= now - periodMinutes * 60 || force) {
        JobsForAppend(DueOwners(owners[..i], now, periodMinutes, force), owner, force);
        queued := queued + [AssetsJob(owner.pk, force)];
      }
      i := i + 1;
    }
    assert owners[..i] == owners;
  }

  /** Every active due owner gets a job, every job names an active due
      owner, and a forced run queues every active owner. */
  lemma UpdateAllAssetsSelection(owners: seq<Owner>, now: int, periodMinutes: int, force: bool)
    ensures var q := JobsFor(DueOwners(owners, now, periodMinutes, force), force);
      && (forall i :: 0 <= i < |owners| && owners[i].isActive && IsDue(owners[i], now, periodMinutes, force)
            ==> AssetsJob(owners[i].pk, force) in q)
      && (forall j :: 0 <= j < |q| ==>
            exists i :: 0 <= i < |owners| && owners[i].pk == q[j].ownerPk && owners[i].isActive
                        && IsDue(owners[i], now, periodMinutes, force))
      && (force ==> DueOwners(owners, now, periodMinutes, force) == Filter(owners, (o: Owner) => o.isActive))
  {
    var due := DueOwners(owners, now, periodMinutes, force);
    var q := JobsFor(due, force);
    forall i | 0 <= i < |owners| && owners[i].isActive && IsDue(owners[i], now, periodMinutes, force)
      ensures AssetsJob(owners[i].pk, force) in q
    {
      var k :| 0 <= k < |due| && due[k] == owners[i];
      assert q[k] == AssetsJob(owners[i].pk, force);
    }
    forall j | 0 <= j < |q|
      ensures exists i :: 0 <= i < |owners| && owners[i].pk == q[j].ownerPk && owners[i].isActive
                          && IsDue(owners[i], now, periodMinutes, force)
    {
      assert due[j] in owners;
      var i :| 0 <= i < |owners| && owners[i] == due[j];
    }
    if force {
      FilterSame(owners, o => IsQueuedOwner(o, now, periodMinutes, force), (o: Owner) => o.isActive);
    }
  }

  // ---------------------------------------------------------------------
  // update_all_locations

  /** The hangar and delivery flags whose locations are resolved. */
  const LocationFlags: seq<string> := ["Deliveries", "Hangar", "HangarAll", "AssetSafety", "CorpDeliveries"]

  /** Stored locations older than seven days are stale. */
  const StaleSeconds: int := 60 * 60 * 24 * 7

  function AssetLocationIds(assets: seq<AssetRow>): set<int> {
    set i | 0 <= i < |assets| && assets[i].locationFlag in LocationFlags :: assets[i].location.id
  }

  function StaleLocationIds(table: map<int, Location>, ids: set<int>, now: int): set<int> {
    set id | id in ids && id in table && table[id].updatedAt <= now - StaleSeconds
  }

  /** The stale ids are drawn from the asset ids, so adding them queues
      nothing new. */
  lemma StaleIdsAddNothing(assets: seq<AssetRow>, table: map<int, Location>, now: int)
    ensures AssetLocationIds(assets) + StaleLocationIds(table, AssetLocationIds(assets), now) == AssetLocationIds(assets)
  {
  }

  /** A queued `update_location` job: the location id and the force flag. */
  datatype LocationJob = LocationJob(locationId: int, forceRefresh: bool)

  /** `update_all_locations`: every location id of an asset under one of
      the five flags is queued exactly once, with the run's force flag. */
  method UpdateAllLocations(assets: seq<AssetRow>, table: map<int, Location>, now: int, force: bool)
    returns (queued: seq<LocationJob>)
    ensures forall i :: 0 <= i < |queued| ==> queued[i].forceRefresh == force
    ensures forall i, j :: 0 <= i < j < |queued| ==> queued[i].locationId != queued[j].locationId
    ensures forall id :: LocationJob(id, force) in queued <==> id in AssetLocationIds(assets)
  {
    var assetIds := AssetLocationIds(assets);
    var all := assetIds + StaleLocationIds(table, assetIds, now);
    StaleIdsAddNothing(assets, table, now);
    var remaining := all;
    queued := [];
    while remaining != {}
      invariant remaining <= all
      invariant forall i :: 0 <= i < |queued| ==> queued[i].forceRefresh == force
      invariant forall id :: LocationJob(id, force) in queued <==> id in all && id !in remaining
      invariant forall i, j :: 0 <= i < j < |queued| ==> queued[i].locationId != queued[j].locationId
      decreases |remaining|
    {
      var id :| id in remaining;
      queued := queued + [LocationJob(id, force)];
      remaining := remaining - {id};
    }
  }

  // ---------------------------------------------------------------------
  // update_location

  datatype LocationOutcome =
    | SavedLocation(location: Location)
    | NoCharacters
    | RetryLater(countdown: int)
    | Done
    | TaskFailed

  /** Characters owning assets at location `id`. */
  function CharacterIdsAt(assets: seq<AssetRow>, id: int): set<int> {
    set i | 0 <= i < |assets| && assets[i].location.id == id :: assets[i].owner.characterId
  }

  /** The loop over the characters: stop at the first location found;
      after the last attempt, retry only if that attempt hit the rate
      limit. `limited` is the flag of the previous attempt. The fetch is
      called without a location flag, so no flag list is consulted. */
  function TryCharacters(entries: Entries, prefix: string, table: map<int, Location>, id: int, chars: seq<int>,
                         limited: bool, env: Env, now: int): (LocationOutcome, Entries)
    decreases |chars|
  {
    if |chars| == 0 then (if limited then RetryLater(RetryCountdown) else Done, entries)
    else
      var s := FetchLocation(entries, prefix, table, id, None, {}, chars[0], env, now);
      match s.result
      case Raised => (TaskFailed, s.entries)
      case Fetched(location, lim) =>
        if location.Some? then (SavedLocation(location.value), s.entries)
        else TryCharacters(s.entries, prefix, table, id, chars[1..], lim, env, now)
  }

  /** `update_location`: ids below 64,000,000 are tried first with
      character 0; then each character in turn. */
  function UpdateLocationSpec(entries: Entries, prefix: string, table: map<int, Location>, id: int, chars: seq<int>,
                              env: Env, now: int): (LocationOutcome, Entries)
  {
    if id < StructureIdBound then
      var s := FetchLocation(entries, prefix, table, id, None, {}, 0, env, now);
      match s.result
      case Raised => (TaskFailed, s.entries)
      case Fetched(location, _) =>
        if location.Some? then (SavedLocation(location.value), s.entries)
        else if |chars| == 0 then (NoCharacters, s.entries)
        else TryCharacters(s.entries, prefix, table, id, chars, false, env, now)
    else if |chars| == 0 then (NoCharacters, entries)
    else TryCharacters(entries, prefix, table, id, chars, false, env, now)
  }

  /** A saved location is written under its own id; `save()` stamps
      `updated_at` (`auto_now`) with the current time. */
  function AfterLocationTask(table: map<int, Location>, o: LocationOutcome, now: int): map<int, Location> {
    if o.SavedLocation? then table[o.location.id := o.location.(updatedAt := now)] else table
  }

  /** A retry is scheduled only when the last character's attempt reached
      the structure endpoint and got 420. */
  lemma {:induction false} RetryOnlyIfLastRateLimited(entries: Entries, prefix: string, table: map<int, Location>, id: int,
                                                      chars: seq<int>, limited: bool, env: Env, now: int)
    requires |chars| > 0
    ensures TryCharacters(entries, prefix, table, id, chars, limited, env, now).0.RetryLater? ==>
      env.hasToken(chars[|chars| - 1]) && env.structure(id, chars[|chars| - 1]) == EsiClientError(420)
    decreases |chars|
  {
    var s := FetchLocation(entries, prefix, table, id, None, {}, chars[0], env, now);
    RateLimitAndForbidden(entries, prefix, table, id, None, {}, chars[0], env, now);
    if s.result.Fetched? && s.result.location.None? && |chars| > 1 {
      RetryOnlyIfLastRateLimited(s.entries, prefix, table, id, chars[1..], s.result.rateLimited, env, now);
      assert chars[1..][|chars[1..]| - 1] == chars[|chars| - 1];
    } else if s.result.Fetched? && s.result.location.None? {
      assert TryCharacters(entries, prefix, table, id, chars, limited, env, now)
          == TryCharacters(s.entries, prefix, table, id, [], s.result.rateLimited, env, now);
    }
  }

  /** Once the no-permission marker is set, no remaining character is
      asked and the task ends without a retry. */
  lemma {:induction false} MarkedLocationSkipsAll(entries: Entries, prefix: string, table: map<int, Location>, id: int,
                                                  chars: seq<int>, env: Env, now: int)
    requires |chars| > 0
    requires IsSet(entries, NoPermissionKey(prefix, id), now)
    ensures forall limited :: TryCharacters(entries, prefix, table, id, chars, limited, env, now) == (Done, entries)
    decreases |chars|
  {
    if |chars| > 1 {
      MarkedLocationSkipsAll(entries, prefix, table, id, chars[1..], env, now);
    }
  }

  /** A 403 for the first character of a structure blocks every later
      character in the same run: the task ends without saving or retrying,
      and the marker stays for seven days. */
  lemma ForbiddenBlocksLaterCharacters(entries: Entries, prefix: string, table: map<int, Location>, id: int,
                                       chars: seq<int>, limited: bool, env: Env, now: int)
    requires |chars| > 0 && id >= StructureIdBound
    requires !IsSet(entries, NoPermissionKey(prefix, id), now)
    requires env.hasToken(chars[0]) && env.structure(id, chars[0]) == EsiClientError(403)
    ensures TryCharacters(entries, prefix, table, id, chars, limited, env, now)
         == (Done, Put(entries, NoPermissionKey(prefix, id), Number(1), NoPermissionTimeout, now))
  {
    var e1 := Put(entries, NoPermissionKey(prefix, id), Number(1), NoPermissionTimeout, now);
    assert FetchLocation(entries, prefix, table, id, None, {}, chars[0], env, now) == FetchStep(Fetched(None, false), e1);
    if |chars| > 1 {
      MarkedLocationSkipsAll(e1, prefix, table, id, chars[1..], env, now);
    }
  }

  /** `update_location` on the shared cache and the location table; `chars`
      lists the characters holding assets at the location, each once, in
      the order the set yields them. */
  method UpdateLocation(store: LocationTable, cache: Cache, prefix: string, id: int, assets: seq<AssetRow>,
                        chars: seq<int>, env: Env, now: int) returns (outcome: LocationOutcome)
    requires forall i, j :: 0 <= i < j < |chars| ==> chars[i] != chars[j]
    requires forall c :: c in chars <==> c in CharacterIdsAt(assets, id)
    modifies store, cache
    ensures var (o, e) := UpdateLocationSpec(old(cache.entries), prefix, old(store.locations), id, chars, env, now);
      outcome == o && cache.entries == e && store.locations == AfterLocationTask(old(store.locations), o, now)
  {
    var table := store.locations;
    if id < StructureIdBound {
      var r := FetchLocationInto(cache, prefix, table, id, None, {}, 0, env, now);
      if r.Raised? {
        return TaskFailed;
      }
      if r.location.Some? {
        store.locations := table[r.location.value.id := r.location.value.(updatedAt := now)];
        return SavedLocation(r.location.value);
      }
    }
    if |chars| == 0 {
      return NoCharacters;
    }
    ghost var start := cache.entries;
    var limited := false;
    var i := 0;
    while i < |chars|
      invariant 0 <= i <= |chars|
      invariant store.locations == table
      invariant TryCharacters(cache.entries, prefix, table, id, chars[i..], limited, env, now)
             == TryCharacters(start, prefix, table, id, chars, false, env, now)
    {
      var r := FetchLocationInto(cache, prefix, table, id, None, {}, chars[i], env, now);
      if r.Raised? {
        return TaskFailed;
      }
      if r.location.Some? {
        store.locations := table[r.location.value.id := r.location.value.(updatedAt := now)];
        return SavedLocation(r.location.value);
      }
      limited := r.rateLimited;
      assert chars[i..][1..] == chars[i + 1..];
      i := i + 1;
    }
    if limited {
      return RetryLater(RetryCountdown);
    }
    return Done;
  }

  // ---------------------------------------------------------------------
  // update_all_parent_locations

  /** One entry of an owner's asset list from ESI. */
  datatype EsiAsset = EsiAsset(itemId: int, locationId: int, typeId: int)

  /** The asset list request for an owner: the list, Not Modified (the
      owner is skipped), or another error, which ends the task. */
  datatype AssetsReply = AssetsOk(assets: seq<EsiAsset>) | AssetsNotModified | AssetsFailed

  datatype ParentJob = ParentJob(locationId: int, parentId: int, characterId: int, typeId: int, forceRefresh: bool)

  /** The three accumulators: item ids seen so far, assets by item id, and
      container ids in first-seen order. */
  datatype Scan = Scan(assetIds: seq<int>, byId: map<int, EsiAsset>, containers: seq<int>)

  ghost predicate ScanValid(sc: Scan) {
    && (forall k :: k in sc.byId <==> k in sc.assetIds)
    && (forall i :: 0 <= i < |sc.containers| ==> sc.containers[i] in sc.byId)
    && (forall i, j :: 0 <= i < j < |sc.containers| ==> sc.containers[i] != sc.containers[j])
  }

  /** One asset: its item id is appended and recorded first; its location
      becomes a container when it is an item id seen so far. */
  function ScanAsset(sc: Scan, a: EsiAsset): Scan {
    var ids := sc.assetIds + [a.itemId];
    Scan(ids, sc.byId[a.itemId := a],
         if a.locationId in ids && a.locationId !in sc.containers then sc.containers + [a.locationId] else sc.containers)
  }

  function ScanAssets(sc: Scan, assets: seq<EsiAsset>): Scan
    decreases |assets|
  {
    if |assets| == 0 then sc else ScanAsset(ScanAssets(sc, assets[..|assets| - 1]), assets[|assets| - 1])
  }

  lemma {:induction false} ScanAssetsValid(sc: Scan, assets: seq<EsiAsset>)
    requires ScanValid(sc)
    ensures ScanValid(ScanAssets(sc, assets))
    decreases |assets|
  {
    if |assets| > 0 {
      ScanAssetsValid(sc, assets[..|assets| - 1]);
    }
  }

  /** The accumulators only grow: earlier containers stay, in place. */
  lemma {:induction false} ScanAssetsGrows(sc: Scan, assets: seq<EsiAsset>)
    ensures var r := ScanAssets(sc, assets);
      |sc.containers| <= |r.containers| && r.containers[..|sc.containers|] == sc.containers
      && (forall k :: k in sc.assetIds ==> k in r.assetIds)
    decreases |assets|
  {
    if |assets| > 0 {
      ScanAssetsGrows(sc, assets[..|assets| - 1]);
    }
  }

  /** A container is found only if it appeared as an item id before (or
      at) the asset located in it, so the list order matters: item 1 in
      location 2 followed by item 2 gives no container, the reverse order
      gives container 2. */
  lemma ContainerOrderMatters()
    ensures ScanAssets(Scan([], map[], []), [EsiAsset(1, 2, 10), EsiAsset(2, 50, 11)]).containers == []
    ensures ScanAssets(Scan([], map[], []), [EsiAsset(2, 50, 11), EsiAsset(1, 2, 10)]).containers == [2]
  {
    var a, b := EsiAsset(1, 2, 10), EsiAsset(2, 50, 11);
    assert [a, b][..1] == [a] && [b, a][..1] == [b];
    assert [a][..0] == [] && [b][..0] == [];
  }

  /** One job per container, with the container item's own location as
      the parent and its type, carrying the run's force flag. */
  function ParentJobs(sc: Scan, characterId: int, force: bool): (r: seq<ParentJob>)
    requires ScanValid(sc)
    ensures |r| == |sc.containers|
    ensures forall i :: 0 <= i < |r| ==>
      r[i].locationId == sc.containers[i] && r[i].characterId == characterId && r[i].forceRefresh == force
    ensures forall i :: 0 <= i < |r| ==>
      r[i].parentId == sc.byId[sc.containers[i]].locationId && r[i].typeId == sc.byId[sc.containers[i]].typeId
  {
    seq(|sc.containers|, i requires 0 <= i < |sc.containers| =>
      var a := sc.byId[sc.containers[i]];
      ParentJob(sc.containers[i], a.locationId, characterId, a.typeId, force))
  }

  datatype ParentRun = ParentRun(scan: Scan, jobs: seq<ParentJob>, failed: bool)

  function EmptyScan(): Scan {
    Scan([], map[], [])
  }

  /** The loop over the active owners; the accumulators are never reset,
      so each owner re-queues every container found so far. */
  function RunOwners(owners: seq<Owner>, replies: int -> AssetsReply, force: bool): (r: ParentRun)
    ensures ScanValid(r.scan)
    decreases |owners|
  {
    if |owners| == 0 then ParentRun(EmptyScan(), [], false)
    else
      var r := RunOwners(owners[..|owners| - 1], replies, force);
      var o := owners[|owners| - 1];
      if r.failed then r
      else match replies(o.pk)
        case AssetsNotModified => r
        case AssetsFailed => r.(failed := true)
        case AssetsOk(assets) =>
          ScanAssetsValid(r.scan, assets);
          var sc := ScanAssets(r.scan, assets);
          ParentRun(sc, r.jobs + ParentJobs(sc, o.characterId, force), false)
  }

  function ActiveOwners(owners: seq<Owner>): seq<Owner> {
    Filter(owners, (o: Owner) => o.isActive)
  }

  /** With no active owner nothing is queued. */
  lemma NoActiveOwnersQueueNothing(owners: seq<Owner>, replies: int -> AssetsReply, force: bool)
    requires forall i :: 0 <= i < |owners| ==> !owners[i].isActive
    ensures RunOwners(ActiveOwners(owners), replies, force).jobs == []
  {
    FilterKeepsNone(owners, (o: Owner) => o.isActive);
  }

  /** Every queued job names an item id some owner's list reported, so
      only container items get a parent lookup. */
  ghost predicate JobsNameItems(r: ParentRun) {
    forall j :: 0 <= j < |r.jobs| ==> r.jobs[j].locationId in r.scan.assetIds
  }

  /** One owner's step keeps the property: the new jobs name containers,
      which are recorded items, and earlier items stay recorded. */
  lemma JobsNameItemsStep(prev: ParentRun, sc: Scan, characterId: int, force: bool)
    requires JobsNameItems(prev) && ScanValid(sc)
    requires forall k :: k in prev.scan.assetIds ==> k in sc.assetIds
    ensures JobsNameItems(ParentRun(sc, prev.jobs + ParentJobs(sc, characterId, force), false))
  {
    var jobs := prev.jobs + ParentJobs(sc, characterId, force);
    forall j | 0 <= j < |jobs| ensures jobs[j].locationId in sc.assetIds {
      if j >= |prev.jobs| {
        var k := j - |prev.jobs|;
        assert jobs[j] == ParentJobs(sc, characterId, force)[k];
        assert sc.containers[k] in sc.byId;
      } else {
        assert jobs[j] == prev.jobs[j];
      }
    }
  }

  lemma {:induction false} JobsNameSeenItems(owners: seq<Owner>, replies: int -> AssetsReply, force: bool)
    ensures JobsNameItems(RunOwners(owners, replies, force))
    decreases |owners|
  {
    if |owners| > 0 {
      var init := owners[..|owners| - 1];
      JobsNameSeenItems(init, replies, force);
      var prev := RunOwners(init, replies, force);
      var o := owners[|owners| - 1];
      if !prev.failed && replies(o.pk).AssetsOk? {
        var assets := replies(o.pk).assets;
        ScanAssetsValid(prev.scan, assets);
        ScanAssetsGrows(prev.scan, assets);
        JobsNameItemsStep(prev, ScanAssets(prev.scan, assets), o.characterId, force);
      }
    }
  }

  /** Each of `containers` has a job for character `characterId`. */
  ghost predicate QueuesAllFor(r: ParentRun, containers: seq<int>, characterId: int) {
    forall c :: c in containers ==>
      exists j :: 0 <= j < |r.jobs| && r.jobs[j].locationId == c && r.jobs[j].characterId == characterId
  }

  /** Containers found so far are queued again with the next owner's
      character id when that owner's list arrives. */
  lemma RequeuedForLaterOwner(owners: seq<Owner>, o: Owner, replies: int -> AssetsReply, force: bool)
    requires !RunOwners(owners, replies, force).failed && replies(o.pk).AssetsOk?
    ensures QueuesAllFor(RunOwners(owners + [o], replies, force), RunOwners(owners, replies, force).scan.containers, o.characterId)
  {
    var before := RunOwners(owners, replies, force);
    assert (owners + [o])[..|owners|] == owners;
    var assets := replies(o.pk).assets;
    ScanAssetsValid(before.scan, assets);
    ScanAssetsGrows(before.scan, assets);
    var sc := ScanAssets(before.scan, assets);
    var after := RunOwners(owners + [o], replies, force);
    assert after.jobs == before.jobs + ParentJobs(sc, o.characterId, force);
    forall c | c in before.scan.containers
      ensures exists j :: 0 <= j < |after.jobs| && after.jobs[j].locationId == c && after.jobs[j].characterId == o.characterId
    {
      var i :| 0 <= i < |before.scan.containers| && before.scan.containers[i] == c;
      assert sc.containers[i] == c;
      var j := |before.jobs| + i;
      assert after.jobs[j] == ParentJobs(sc, o.characterId, force)[i];
      assert after.jobs[j].locationId == c && after.jobs[j].characterId == o.characterId;
    }
  }

  /** `update_all_parent_locations`: returns the queued jobs and whether an
      owner's asset request failed and ended the task. */
  method UpdateAllParentLocations(owners: seq<Owner>, replies: int -> AssetsReply, force: bool) returns (jobs: seq<ParentJob>, failed: bool)
    ensures var r := RunOwners(ActiveOwners(owners), replies, force);
      jobs == r.jobs && failed == r.failed
  {
    var active := ActiveOwners(owners);
    jobs := [];
    failed := false;
    if |active| == 0 {
      return;
    }
    var ids: seq<int> := [];
    var byId: map<int, EsiAsset> := map[];
    var containers: seq<int> := [];
    var i := 0;
    while i < |active|
      invariant 0 <= i <= |active|
      invariant RunOwners(active[..i], replies, force) == ParentRun(Scan(ids, byId, containers), jobs, false)
    {
      assert active[..i + 1][..i] == active[..i];
      var owner := active[i];
      var reply := replies(owner.pk);
      if reply.AssetsFailed? {
        failed := true;
        assert RunOwners(active[..i + 1], replies, force).failed;
        RunOwnersStaysFailed(active, i + 1, replies, force);
        assert active[..|active|] == active;
        return;
      }
      if reply.AssetsOk? {
        ScanAssetsValid(Scan(ids, byId, containers), reply.assets);
        ids, byId, containers := ScanOwnerAssets(ids, byId, containers, reply.assets);
        var queued := QueueParents(Scan(ids, byId, containers), owner.characterId, force);
        jobs := jobs + queued;
      }
      i := i + 1;
    }
    assert active[..i] == active;
  }

  /** The loop over one owner's asset list. */
  method ScanOwnerAssets(ids0: seq<int>, byId0: map<int, EsiAsset>, containers0: seq<int>, assets: seq<EsiAsset>)
    returns (ids: seq<int>, byId: map<int, EsiAsset>, containers: seq<int>)
    ensures Scan(ids, byId, containers) == ScanAssets(Scan(ids0, byId0, containers0), assets)
  {
    ids, byId, containers := ids0, byId0, containers0;
    var j := 0;
    while j < |assets|
      invariant 0 <= j <= |assets|
      invariant Scan(ids, byId, containers) == ScanAssets(Scan(ids0, byId0, containers0), assets[..j])
    {
      assert assets[..j + 1][..j] == assets[..j];
      var a := assets[j];
      ids := ids + [a.itemId];
      byId := byId[a.itemId := a];
      if a.locationId in ids && a.locationId !in containers {
        containers := containers + [a.locationId];
      }
      j := j + 1;
    }
    assert assets[..j] == assets;
  }

  /** The loop queueing one job per container found so far. */
  method QueueParents(sc: Scan, characterId: int, force: bool) returns (jobs: seq<ParentJob>)
    requires ScanValid(sc)
    ensures jobs == ParentJobs(sc, characterId, force)
  {
    jobs := [];
    var k := 0;
    while k < |sc.containers|
      invariant 0 <= k <= |sc.containers|
      invariant jobs == ParentJobs(sc, characterId, force)[..k]
    {
      var item := sc.byId[sc.containers[k]];
      jobs := jobs + [ParentJob(sc.containers[k], item.locationId, characterId, item.typeId, force)];
      k := k + 1;
    }
  }

  lemma {:induction false} RunOwnersStaysFailed(owners: seq<Owner>, k: nat, replies: int -> AssetsReply, force: bool)
    requires k <= |owners|
    requires RunOwners(owners[..k], replies, force).failed
    ensures RunOwners(owners[..|owners|], replies, force) == RunOwners(owners[..k], replies, force)
    decreases |owners| - k
  {
    if k < |owners| {
      assert owners[..k + 1][..k] == owners[..k];
      RunOwnersStaysFailed(owners, k + 1, replies, force);
    }
  }

  // ---------------------------------------------------------------------
  // update_parent_location

  datatype ParentOutcome = ParentSet | AlreadyHasParent | ParentRetry(countdown: int) | ParentDone | ParentFailed

  /** `update_parent_location`: a missing location row raises; a location
      that has a parent is left alone; a found parent is recorded with the
      container's type, and `update_or_create` stamps `updated_at`.
      The foreign key stores only the parent's id: a parent row that is
      stored is linked as stored (changes the fetch made to the in-memory
      record are not saved), and a parent that has no row violates the
      foreign key, so the update fails. */
  function UpdateParentSpec(entries: Entries, prefix: string, table: map<int, Location>, locationId: int, parentId: int,
                            characterId: int, typeId: int, env: Env, now: int): (ParentOutcome, Entries, map<int, Location>)
  {
    if locationId !in table then (ParentFailed, entries, table)
    else if table[locationId].parent.Some? then (AlreadyHasParent, entries, table)
    else
      var s := FetchParentLocation(entries, prefix, table, parentId, characterId, env, now);
      match s.result
      case Raised => (ParentFailed, s.entries, table)
      case Fetched(parent, limited) =>
        if parent.Some? then
          if parent.value.id in table then
            (ParentSet, s.entries,
             table[locationId := table[locationId].(parent := Some(table[parent.value.id]), typeId := Some(typeId), updatedAt := now)])
          else (ParentFailed, s.entries, table)
        else (if limited then ParentRetry(RetryCountdown) else ParentDone, s.entries, table)
  }

  /** A location that already has a parent changes nothing, whatever ESI
      would say; otherwise only that row's parent, type and update time
      change, a parent without a stored row makes the update fail, and a
      retry is scheduled exactly when the parent fetch hit the rate
      limit. */
  lemma UpdateParentOutcomes(entries: Entries, prefix: string, table: map<int, Location>, locationId: int, parentId: int,
                             characterId: int, typeId: int, env: Env, now: int)
    ensures var (o, e, t) := UpdateParentSpec(entries, prefix, table, locationId, parentId, characterId, typeId, env, now);
      && (locationId in table && table[locationId].parent.Some? ==> o == AlreadyHasParent && e == entries && t == table)
      && (t.Keys == table.Keys)
      && (forall k :: k in table && k != locationId ==> t[k] == table[k])
      && (o == ParentSet ==> t[locationId].parent.Some? && t[locationId].typeId == Some(typeId) && t[locationId].updatedAt == now
                             && t[locationId].name == table[locationId].name && t[locationId].id == table[locationId].id)
      && (o != ParentSet ==> t == table)
      && (o.ParentRetry? <==>
            locationId in table && table[locationId].parent.None?
            && !IsSet(entries, NoPermissionKey(prefix, parentId), now)
            && AsksStructure(table, parentId, characterId, env, now)
            && env.structure(parentId, characterId) == EsiClientError(420))
    ensures var (o, e, t) := UpdateParentSpec(entries, prefix, table, locationId, parentId, characterId, typeId, env, now);
      var f := FetchParentLocation(entries, prefix, table, parentId, characterId, env, now).result;
      && (o == ParentSet <==>
            locationId in table && table[locationId].parent.None? && f.Fetched? && f.location.Some?
            && f.location.value.id in table)
      && ((locationId in table && table[locationId].parent.None? && f.Fetched? && f.location.Some? && f.location.value.id !in table)
            ==> o == ParentFailed && t == table)
      && (o == ParentSet ==>
            t[locationId] == table[locationId].(parent := Some(table[f.location.value.id]), typeId := Some(typeId), updatedAt := now))
      && ((forall k :: k in table ==> table[k].id == k) && o == ParentSet ==>
            t[locationId].parent == Some(table[parentId]))
  {
    RateLimitAndForbidden(entries, prefix, table, parentId, None, {}, characterId, env, now);
    if forall k :: k in table ==> table[k].id == k {
      FetchKeepsId(entries, prefix, table, parentId, None, {}, characterId, env, now);
    }
  }

  method UpdateParentLocation(store: LocationTable, cache: Cache, prefix: string, locationId: int, parentId: int,
                              characterId: int, typeId: int, env: Env, now: int) returns (outcome: ParentOutcome)
    modifies store, cache
    ensures (outcome, cache.entries, store.locations)
         == UpdateParentSpec(old(cache.entries), prefix, old(store.locations), locationId, parentId, characterId, typeId, env, now)
  {
    var table := store.locations;
    if locationId !in table {
      return ParentFailed;
    }
    if table[locationId].parent.Some? {
      return AlreadyHasParent;
    }
    var s := FetchParentLocation(cache.entries, prefix, table, parentId, characterId, env, now);
    if s.entries != cache.entries {
      cache.Set(NoPermissionKey(prefix, parentId), Number(1), NoPermissionTimeout, now);
    }
    if s.result.Raised? {
      return ParentFailed;
    }
    if s.result.location.Some? {
      var pid := s.result.location.value.id;
      if pid !in table {
        return ParentFailed;
      }
      store.locations := table[locationId := table[locationId].(parent := Some(table[pid]), typeId := Some(typeId), updatedAt := now)];
      return ParentSet;
    }
    if s.result.rateLimited {
      return ParentRetry(RetryCountdown);
    }
    return ParentDone;
  }
}
