/** Resolving a location id to a Location record: classification by id
    range, the cached no-permission marker, the location-flag filter, the
    token check and the structure endpoint's replies (Not Modified, 403,
    420 and other client errors). */
module LocationHelpers {
  import opened Text
  import opened Records
  import opened CacheStore

  /** A 403 from the structure endpoint is remembered for seven days. */
  const NoPermissionTimeout: int := 60 * 60 * 24 * 7

  const AssetSafetyId: int := 2004

  /** Ids below this bound are solar systems, stations and other fixed
      places; structures have larger ids. */
  const StructureIdBound: int := 64_000_000

  predicate IsSolarSystemId(id: int) {
    30_000_000 < id < 33_000_000
  }

  predicate IsStationId(id: int) {
    60_000_000 < id < 64_000_000
  }

  /** `get_cache_key`: the configured cache prefix, a dash, the id and
      `_no_permission`. */
  function NoPermissionKey(prefix: string, id: int): string {
    prefix + "-" + IntToString(id) + "_no_permission"
  }

  /** Distinct locations never share a no-permission marker. */
  lemma NoPermissionKeyInjective(prefix: string, a: int, b: int)
    requires NoPermissionKey(prefix, a) == NoPermissionKey(prefix, b)
    ensures a == b
  {
    var ka, kb := NoPermissionKey(prefix, a), NoPermissionKey(prefix, b);
    var n := |prefix| + 1;
    var sa, sb := IntToString(a), IntToString(b);
    assert |ka| == n + |sa| + 14 && |kb| == n + |sb| + 14;
    assert ka[n..|ka| - 14] == sa;
    assert kb[n..|kb| - 14] == sb;
    IntToStringInjective(a, b);
  }

  /** The station endpoint's reply. Errors other than Not Modified are not
      caught and end the task. */
  datatype StationReply = StationOk(name: string, systemId: int) | StationNotModified | StationError

  datatype Structure = Structure(name: string, ownerId: int, solarSystemId: int, typeId: int)

  /** The structure endpoint's reply to a request made with a character's
      token. */
  datatype EsiReply =
    | EsiOk(structure: Structure)
    | EsiNotModified
    | EsiClientError(code: int)
    | EsiServerError

  /** What a fetch consults besides the location table and the cache:
      the solar system lookup (`None` when it yields nothing), the station
      endpoint, whether a character has a token with the structure scope,
      and the structure endpoint per (structure id, character id). */
  datatype Env = Env(
    systemName: int -> Option<string>,
    station: int -> StationReply,
    hasToken: int -> bool,
    structure: (int, int) -> EsiReply)

  /** Locations fetched in this run are unsaved; the table stamps them when
      they are saved, and `now` stands for that stamp. */
  function NewLocation(id: int, name: string, systemId: Option<int>, typeId: Option<int>, ownerId: Option<int>, now: int): Location {
    Location(id, name, systemId, typeId, ownerId, None, now)
  }

  /** Result of `get_location_type`: a location that needs no structure
      fetch (or `None`), and the stored record for the id, if any. */
  datatype TypeResult = Typed(location: Option<Location>, existing: Option<Location>) | TypeRaised

  /** `get_location_type` as intended, in its order: a stored id below
      64,000,000, Asset Safety (2004), a solar system (a new location named
      after the system), a station, else a structure. */
  function GetLocationType(table: map<int, Location>, id: int, env: Env, now: int): (r: TypeResult)
    ensures (id in table && id < StructureIdBound) ==> r == Typed(Some(table[id]), Some(table[id]))
    ensures (id >= StructureIdBound) ==> r == Typed(None, if id in table then Some(table[id]) else None)
    ensures r.Typed? && r.location.Some? && !(id in table && id < StructureIdBound) ==> r.location.value.id == id
  {
    if id in table && id < StructureIdBound then Typed(Some(table[id]), Some(table[id]))
    else
      var existing := if id in table then Some(table[id]) else None;
      if id == AssetSafetyId then Typed(Some(NewLocation(id, "Asset Safety", None, None, None, now)), existing)
      else if IsSolarSystemId(id) then
        match env.systemName(id)
        case None => TypeRaised
        case Some(name) => Typed(Some(NewLocation(id, name, Some(id), None, None, now)), existing)
      else if IsStationId(id) then
        match env.station(id)
        case StationOk(name, systemId) => Typed(Some(NewLocation(id, name, Some(systemId), None, None, now)), existing)
        case StationNotModified => Typed(existing, existing)
        case StationError => TypeRaised
      else Typed(None, existing)
  }

  /** `get_location_type` as written. In the solar-system branch the
      lookup returns the system record itself (the structure fetches below
      use the same call's result as a record), so the following
      `system.first()` raises for every system it finds; every other id
      resolves as in `GetLocationType`. */
  function GetLocationTypeAsWritten(table: map<int, Location>, id: int, env: Env, now: int): (r: TypeResult)
    ensures !IsSolarSystemId(id) ==> r == GetLocationType(table, id, env, now)
  {
    if !(id in table && id < StructureIdBound) && id != AssetSafetyId && IsSolarSystemId(id) then TypeRaised
    else GetLocationType(table, id, env, now)
  }

  /** An unstored solar system that the lookup knows ends the caller with
      an error as written, where the evidently intended branch returns a
      new location named after the system and placed in it. */
  lemma SolarSystemRaisesAsWritten(table: map<int, Location>, id: int, env: Env, now: int, name: string)
    requires IsSolarSystemId(id) && id !in table && env.systemName(id) == Some(name)
    ensures GetLocationTypeAsWritten(table, id, env, now) == TypeRaised
    ensures GetLocationType(table, id, env, now) == Typed(Some(NewLocation(id, name, Some(id), None, None, now)), None)
  {
  }

  /** The structure endpoint is left to decide exactly for ids that are
      not stored below 64,000,000, not Asset Safety, not a solar system and
      not a station (or an unstored station the station endpoint answers
      Not Modified for). Every range is open, so its end points go to the
      structure endpoint. */
  lemma GetLocationTypeClassification(table: map<int, Location>, id: int, env: Env, now: int)
    ensures var existing := if id in table then Some(table[id]) else None;
      GetLocationType(table, id, env, now) == Typed(None, existing) <==>
        !(id in table && id < StructureIdBound) && id != AssetSafetyId && !IsSolarSystemId(id)
        && (!IsStationId(id) || (id !in table && env.station(id) == StationNotModified))
    ensures GetLocationType(table, id, env, now).TypeRaised? <==>
      !(id in table && id < StructureIdBound)
      && ((IsSolarSystemId(id) && env.systemName(id).None?) || (IsStationId(id) && env.station(id) == StationError))
    ensures id in {30_000_000, 33_000_000, 60_000_000} && id !in table ==>
      GetLocationType(table, id, env, now) == Typed(None, None)
  {
  }

  /** Outcome of a fetch: the location (or `None`) and whether the rate
      limit was hit; `Raised` when an uncaught error ends the caller. */
  datatype FetchResult = Fetched(location: Option<Location>, rateLimited: bool) | Raised

  /** A fetch's outcome together with the cache it leaves behind. */
  datatype FetchStep = FetchStep(result: FetchResult, entries: Entries)

  /** The shared tail of both fetch functions: token check, structure
      request, error handling and building the result. `notModified` is
      what a Not Modified reply yields. */
  function FetchStructure(entries: Entries, prefix: string, id: int, characterId: int, existing: Option<Location>,
                          notModified: Option<Location>, env: Env, now: int): FetchStep
  {
    if !env.hasToken(characterId) then FetchStep(Fetched(None, false), entries)
    else match env.structure(id, characterId)
      case EsiNotModified => FetchStep(Fetched(notModified, false), entries)
      case EsiClientError(code) =>
        if code == 403 then
          FetchStep(Fetched(None, false), Put(entries, NoPermissionKey(prefix, id), Number(1), NoPermissionTimeout, now))
        else if code == 420 then FetchStep(Fetched(None, true), entries)
        else FetchStep(Fetched(None, false), entries)
      case EsiServerError => FetchStep(Raised, entries)
      case EsiOk(s) =>
        if env.systemName(s.solarSystemId).None? then FetchStep(Fetched(None, false), entries)
        else match existing
          case Some(l) =>
            FetchStep(Fetched(Some(l.(name := s.name, systemId := Some(s.solarSystemId),
                                      typeId := Some(s.typeId), ownerId := Some(s.ownerId))), false), entries)
          case None =>
            FetchStep(Fetched(Some(NewLocation(id, s.name, Some(s.solarSystemId), Some(s.typeId), Some(s.ownerId), now)), false), entries)
  }

  /** `fetch_location`. `flag` is the asset's location flag, `None` when
      the caller passes none; `standardFlags` is the configured list of
      hangar flags. */
  function FetchLocation(entries: Entries, prefix: string, table: map<int, Location>, id: int, flag: Option<string>,
                         standardFlags: set<string>, characterId: int, env: Env, now: int): FetchStep
  {
    if IsSet(entries, NoPermissionKey(prefix, id), now) then FetchStep(Fetched(None, false), entries)
    else if flag.Some? && flag.value !in standardFlags then FetchStep(Fetched(None, false), entries)
    else match GetLocationType(table, id, env, now)
      case TypeRaised => FetchStep(Raised, entries)
      case Typed(location, existing) =>
        if location.Some? then FetchStep(Fetched(location, false), entries)
        else FetchStructure(entries, prefix, id, characterId, existing, None, env, now)
  }

  /** `fetch_parent_location`: as `fetch_location` without the flag
      filter, and a Not Modified reply yields the stored record. */
  function FetchParentLocation(entries: Entries, prefix: string, table: map<int, Location>, parentId: int,
                               characterId: int, env: Env, now: int): FetchStep
  {
    if IsSet(entries, NoPermissionKey(prefix, parentId), now) then FetchStep(Fetched(None, false), entries)
    else match GetLocationType(table, parentId, env, now)
      case TypeRaised => FetchStep(Raised, entries)
      case Typed(location, existing) =>
        if location.Some? then FetchStep(Fetched(location, false), entries)
        else FetchStructure(entries, prefix, parentId, characterId, existing, existing, env, now)
  }

  /** The id is left to the structure endpoint: a structure id, or an
      unclassified id below 64,000,000 that is not stored. */
  predicate NeedsStructure(table: map<int, Location>, id: int, env: Env, now: int) {
    GetLocationType(table, id, env, now) == Typed(None, if id in table then Some(table[id]) else None)
  }

  /** The structure endpoint is asked only for such an id, with a token. */
  predicate AsksStructure(table: map<int, Location>, id: int, characterId: int, env: Env, now: int) {
    NeedsStructure(table, id, env, now) && env.hasToken(characterId)
  }

  /** A set no-permission marker answers (None, False) before anything else
      is looked at, in both fetch functions, and leaves the cache alone. */
  lemma NoPermissionMarkerShortCircuits(entries: Entries, prefix: string, table: map<int, Location>, id: int,
                                        flag: Option<string>, standardFlags: set<string>, characterId: int, env: Env, now: int)
    requires IsSet(entries, NoPermissionKey(prefix, id), now)
    ensures FetchLocation(entries, prefix, table, id, flag, standardFlags, characterId, env, now)
         == FetchStep(Fetched(None, false), entries)
    ensures FetchParentLocation(entries, prefix, table, id, characterId, env, now)
         == FetchStep(Fetched(None, false), entries)
  {
  }

  /** Only a 420 reply reports the rate limit. The cache is written
      exactly on a 403 reply: it sets the no-permission marker for seven
      days and the fetch answers (None, False). */
  lemma {:induction false} RateLimitAndForbidden(entries: Entries, prefix: string, table: map<int, Location>, id: int,
                                                 flag: Option<string>, standardFlags: set<string>, characterId: int, env: Env, now: int)
    ensures var s := FetchLocation(entries, prefix, table, id, flag, standardFlags, characterId, env, now);
      && (s.result.Fetched? && s.result.rateLimited <==>
            !IsSet(entries, NoPermissionKey(prefix, id), now) && !(flag.Some? && flag.value !in standardFlags)
            && AsksStructure(table, id, characterId, env, now) && env.structure(id, characterId) == EsiClientError(420))
      && (s.entries != entries <==>
            !IsSet(entries, NoPermissionKey(prefix, id), now) && !(flag.Some? && flag.value !in standardFlags)
            && AsksStructure(table, id, characterId, env, now) && env.structure(id, characterId) == EsiClientError(403))
      && (s.entries != entries ==>
            s == FetchStep(Fetched(None, false), Put(entries, NoPermissionKey(prefix, id), Number(1), NoPermissionTimeout, now)))
    ensures var s := FetchParentLocation(entries, prefix, table, id, characterId, env, now);
      && (s.result.Fetched? && s.result.rateLimited <==>
            !IsSet(entries, NoPermissionKey(prefix, id), now)
            && AsksStructure(table, id, characterId, env, now) && env.structure(id, characterId) == EsiClientError(420))
      && (s.entries != entries <==>
            !IsSet(entries, NoPermissionKey(prefix, id), now)
            && AsksStructure(table, id, characterId, env, now) && env.structure(id, characterId) == EsiClientError(403))
      && (s.entries != entries ==>
            s == FetchStep(Fetched(None, false), Put(entries, NoPermissionKey(prefix, id), Number(1), NoPermissionTimeout, now)))
  {
    var existing := if id in table then Some(table[id]) else None;
    match GetLocationType(table, id, env, now) {
      case TypeRaised =>
      case Typed(location, ex) =>
        if location.None? {
          assert ex == existing;
        }
    }
  }

  /** The two other early answers: an asset under a non-standard flag is
      skipped, and a character without a structure token gets nothing;
      both answer (None, False) without touching the cache. */
  lemma FetchSkips(entries: Entries, prefix: string, table: map<int, Location>, id: int,
                   flag: Option<string>, standardFlags: set<string>, characterId: int, env: Env, now: int)
    ensures flag.Some? && flag.value !in standardFlags ==>
      FetchLocation(entries, prefix, table, id, flag, standardFlags, characterId, env, now)
        == FetchStep(Fetched(None, false), entries)
    ensures !(flag.Some? && flag.value !in standardFlags) && NeedsStructure(table, id, env, now) && !env.hasToken(characterId) ==>
      FetchLocation(entries, prefix, table, id, flag, standardFlags, characterId, env, now)
        == FetchStep(Fetched(None, false), entries)
    ensures NeedsStructure(table, id, env, now) && !env.hasToken(characterId) ==>
      FetchParentLocation(entries, prefix, table, id, characterId, env, now)
        == FetchStep(Fetched(None, false), entries)
  {
  }

  /** With a token and a successful reply whose solar system resolves, the
      stored record is updated with the structure's name, system, type and
      owner; without one a new record with the requested id is built. */
  lemma FetchSuccess(entries: Entries, prefix: string, table: map<int, Location>, id: int,
                     characterId: int, env: Env, now: int, s: Structure)
    requires !IsSet(entries, NoPermissionKey(prefix, id), now)
    requires id >= StructureIdBound
    requires env.hasToken(characterId) && env.structure(id, characterId) == EsiOk(s)
    requires env.systemName(s.solarSystemId).Some?
    ensures var r := FetchLocation(entries, prefix, table, id, None, {}, characterId, env, now).result;
      r == FetchParentLocation(entries, prefix, table, id, characterId, env, now).result
      && r.Fetched? && !r.rateLimited && r.location.Some?
      && r.location.value.name == s.name && r.location.value.systemId == Some(s.solarSystemId)
      && r.location.value.typeId == Some(s.typeId) && r.location.value.ownerId == Some(s.ownerId)
      && (id in table ==> r.location.value == table[id].(name := s.name, systemId := Some(s.solarSystemId),
                                                        typeId := Some(s.typeId), ownerId := Some(s.ownerId)))
      && (id !in table ==> r.location.value.id == id && r.location.value.parent.None?)
  {
  }

  /** The two fetch functions differ only in the flag filter and in what a
      Not Modified reply yields: nothing for `fetch_location`, the stored
      record for `fetch_parent_location`. */
  lemma FetchFunctionsAgree(entries: Entries, prefix: string, table: map<int, Location>, id: int,
                            characterId: int, env: Env, now: int)
    ensures var a := FetchLocation(entries, prefix, table, id, None, {}, characterId, env, now);
      var b := FetchParentLocation(entries, prefix, table, id, characterId, env, now);
      a.entries == b.entries
      && (a.result != b.result ==>
            !IsSet(entries, NoPermissionKey(prefix, id), now) && AsksStructure(table, id, characterId, env, now)
            && env.structure(id, characterId) == EsiNotModified
            && a.result == Fetched(None, false)
            && b.result == Fetched(if id in table then Some(table[id]) else None, false))
  {
    match GetLocationType(table, id, env, now) {
      case TypeRaised =>
      case Typed(location, ex) =>
    }
  }

  /** When the table keeps each record under its own id, a fetch never
      returns a location for another id. */
  lemma FetchKeepsId(entries: Entries, prefix: string, table: map<int, Location>, id: int, flag: Option<string>,
                     standardFlags: set<string>, characterId: int, env: Env, now: int)
    requires forall k :: k in table ==> table[k].id == k
    ensures var r := FetchLocation(entries, prefix, table, id, flag, standardFlags, characterId, env, now).result;
      r.Fetched? && r.location.Some? ==> r.location.value.id == id
    ensures var r := FetchParentLocation(entries, prefix, table, id, characterId, env, now).result;
      r.Fetched? && r.location.Some? ==> r.location.value.id == id
  {
  }

  /** `fetch_location` as the tasks call it: the cache write of a 403
      happens in the shared cache. */
  method FetchLocationInto(cache: Cache, prefix: string, table: map<int, Location>, id: int, flag: Option<string>,
                           standardFlags: set<string>, characterId: int, env: Env, now: int)
    returns (result: FetchResult)
    modifies cache
    ensures var s := FetchLocation(old(cache.entries), prefix, table, id, flag, standardFlags, characterId, env, now);
      result == s.result && cache.entries == s.entries
  {
    var s := FetchLocation(cache.entries, prefix, table, id, flag, standardFlags, characterId, env, now);
    if s.entries != cache.entries {
      cache.Set(NoPermissionKey(prefix, id), Number(1), NoPermissionTimeout, now);
    }
    result := s.result;
  }
}
