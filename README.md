# aa-assets in Dafny

A model of the rules inside aa-assets, an Alliance Auth plugin that mirrors
the EVE Online assets of characters and corporations and lets members
request items from them. The model covers:

- the stock check and the order views that create item requests;
- the quantity still available once open and recently completed requests
  are taken off;
- the request lifecycle: cancel, complete, reopen, the sixty-second
  cooldown, the buttons each status offers, the request tables and counters;
- how a location id is resolved, through the id ranges, the stored table,
  the no-permission cache marker and the structure endpoint's replies, and
  how the background jobs choose what to refresh;
- the visibility and management rules of the querysets, the name
  annotations and the market-price cache;
- the JSON endpoints that list assets and locations.

Tables are sequences or maps of records. The Django cache is a map from
key to value and expiry time. The current time is an integer `now` in
seconds. Every outside service is a parameter: ESI (the game's HTTP API),
the market price service, the solar-system lookup and the token store.
Each module follows one source file:

| module | source |
|---|---|
| `Text` | decimal formatting and parsing, `_`-separated fields (Python `str`/`int`/`split`) |
| `CacheStore` | the Django cache: `get` with expiry, `set` with a timeout |
| `Records` | the model records, `has_perm`, queryset filtering and `Sum` |
| `Managers` | `assets/managers.py` |
| `LocationHelpers` | `assets/task_helpers/location_helpers.py` |
| `Tasks` | `assets/tasks.py` |
| `Views` | `assets/views.py` |
| `AssetHelper` | `assets/api/assets/helper.py` |
| `AssetsApi` | `assets/api/assets/assets.py` (with the permission helpers of `assets/api/helpers.py`) |
| `RequestHelper` | `assets/api/requests/helper.py` |
| `RequestsApi` | `assets/api/requests/requests.py` |

Code that updates state step by step is modelled with methods and loops. This covers
`update_or_create_prices`, `update_asset_object`, `create_order`,
`mark_request_*`, the task loops and the endpoint loops. Each method is
proved equal to a function of the old state, and the properties are proved
about that function. Python `int` is unbounded, like Dafny's.

Where the code and its description disagree, the model follows the code,
except for the two defects listed under "## Findings". For each of them the
model states the code as written beside the intended behaviour, and the
rest of the model uses the intended one. Other differences:

- `get_locations` is described as listing the locations of the user's
  visible owners' assets. The code filters assets by `Owner.objects.all()`,
  so once any owner is visible it lists every owner's locations.
  `AssetsApi.ListedLocationIds` models what the code does.
- The `requests_data is None` branches of `get_requests` and
  `get_my_requests` cannot be taken, because `visible_to` never returns
  `None`. The model has no 403 for them.

## Model

| member | source | states |
|---|---|---|
| Text.IntToStringInjective | assets/views.py:29-30 | distinct integers format to distinct decimal strings, so an id inside a key identifies the record |
| Text.ParseIntRoundTrip | assets/views.py:236-240 | `int(str(i)) == i` for every integer, so the pk written into an `item_id_` key is read back |
| Text.ParsePyIntWithoutSeparators | assets/views.py:191-195 | on a string without underscores the digit-separator parse agrees with the plain one |
| Text.ParsePyIntSeparated | assets/views.py:191-195 | an underscore between digits is dropped: `int("1_0") == 10` |
| Text.ParsePyIntMisplacedSeparator | assets/views.py:191-195 | an underscore at either end or doubled makes `int()` fail |
| Text.SplitAtLastUnderscore | assets/views.py:29-30 | two strings joined by `_` with an underscore-free tail split back into the same parts |
| CacheStore.Get | assets/views.py:33-36 | a key yields its value exactly while it is stored and `now` is before its expiry |
| CacheStore.Put | assets/views.py:39-41 | a write stores the value until `now + timeout` and leaves every other key as it was |
| CacheStore.Cache.Set | assets/task_helpers/location_helpers.py:124-126 | the cache's new contents are the old ones with that single write |
| Managers.PriceKeyInjective | assets/managers.py:34-40 | two item ids share a price cache entry only if they are equal |
| Managers.Chunks | assets/managers.py:176-178 | the ids are split into consecutive chunks of 1 to 100 ids that concatenate back to the input |
| Managers.StoreChunkEffect | assets/managers.py:186-192 | each id of a chunk that the reply prices is cached with that price for two hours; no other key changes |
| Managers.StorePricesTouchesOnlyRequested | assets/managers.py:176-192 | a key that is not the price key of a requested id is never written |
| Managers.StorePricesAllFailed | assets/managers.py:186-189 | when every market request fails the cache is unchanged |
| Managers.CachedPrices | assets/managers.py:193-198 | the result maps exactly the requested ids whose price is cached, to that price |
| Managers.UpdateOrCreatePrices | assets/managers.py:165-198 | the loop leaves the cache as the chunk-by-chunk refresh does and returns the cached prices of the requested ids |
| Managers.StoreChunkPrices | assets/managers.py:186-192 | the inner loop writes the cache as one chunk's refresh does |
| Managers.LocationNameIsFirstNamed | assets/managers.py:134-163 | the asset's location name is the first non-empty name among its location and three nearest ancestors, else "Location #" and the id |
| Managers.SystemNameIsFirstSystem | assets/managers.py:316-343 | the system name is that of the first solar system set on the location or its three nearest ancestors, else "N/A" |
| Managers.OwnerName | assets/managers.py:119-132 | a character owner is named after its character, a corporation owner after its corporation |
| Managers.OwnAssetHiddenAsWritten | assets/managers.py:59-62 | as written, the character filter compares the ownership's character row key with the main character's EVE id, so a user whose main character (EVE id 90000001) is stored as row 42 does not see their own character's asset, which the intended rule shows |
| Managers.AssetVisibleAgreesOnEveKeys | assets/managers.py:59-62 | the written and the intended filters agree whenever a character's row key equals its EVE id |
| Managers.VisibleAssetsDecision | assets/managers.py:49-83 | as intended: superusers and `admin_Access` see every asset; without a main character a user sees none; otherwise a row is visible iff it belongs to the user's main character or, with `corporation_access`, to the main character's corporation |
| Managers.ManagedAssetsDecision | assets/managers.py:85-117 | superusers, `admin_Access` and `manage_requests` manage every asset; anyone else manages a row iff they have a main character and the row's owner is linked to their account |
| Managers.VisibleLocationsDecision | assets/managers.py:218-249 | superusers and `admin_Access` see every location; a user without a main character sees none; otherwise a location is visible iff its owner id is the main character's id or, with `corporation_access`, the main character's corporation id |
| Managers.VisibleOwnersDecision | assets/managers.py:447-480 | superusers and `admin_Access` see every owner; a user without a main character sees none; otherwise an owner is visible iff it belongs to the user's account or, with `corporation_access`, is an owner of the main character's corporation |
| Managers.ManagedRequestsDecision | assets/managers.py:583-609 | only superusers and `manage_requests` manage requests: all of them; everyone else manages none |
| Managers.MyOpenRequestsAmongOpen | assets/managers.py:611-625 | the user's open requests are a subset of all open requests, and so their count is no larger |
| Managers.GetOrCreateEsi | assets/managers.py:360-378 | a reusable stored location is returned unchanged with `created = False`; otherwise the result of the refetch |
| Managers.FreshnessCases | assets/managers.py:360-378 | an empty record (no type, no system) older than 360 minutes is refetched even inside the stale window; a non-empty record inside the stale window is reused |
| LocationHelpers.NoPermissionKeyInjective | assets/task_helpers/location_helpers.py:22-23 | distinct locations never share a no-permission key |
| LocationHelpers.GetLocationTypeAsWritten | assets/task_helpers/location_helpers.py:26-76 | the function as written agrees with the intended one on every id outside the solar-system range |
| LocationHelpers.SolarSystemRaisesAsWritten | assets/task_helpers/location_helpers.py:41-46 | as written, an unstored solar-system id whose system is found raises (`.first()` on a model instance), where the intended function returns a new location named after the system |
| LocationHelpers.GetLocationType | assets/task_helpers/location_helpers.py:26-76 | as intended: a stored id below 64,000,000 returns the stored record; an id of 64,000,000 or more returns no location and the stored record if any; a new location carries the requested id |
| LocationHelpers.GetLocationTypeClassification | assets/task_helpers/location_helpers.py:26-76 | as intended: the structure endpoint is consulted exactly when the id is neither stored below 64,000,000, nor Asset Safety, nor a solar system, nor a station (except an unstored Not Modified station); an error arises exactly for an unknown solar system or a failed station reply; the open bounds send 30,000,000, 33,000,000 and 60,000,000 to the structure endpoint |
| LocationHelpers.NoPermissionMarkerShortCircuits | assets/task_helpers/location_helpers.py:85-91 | a live no-permission marker makes both fetch functions return (None, False) with the cache unchanged |
| LocationHelpers.RateLimitAndForbidden | assets/task_helpers/location_helpers.py:121-138 | the second result is True exactly when the structure endpoint answered 420; the cache changes exactly when the structure endpoint answered 403, and then the fetch answers (None, False) and the marker is set for seven days; the same for the parent fetch |
| LocationHelpers.FetchSkips | assets/task_helpers/location_helpers.py:93-111 | an asset under a flag outside the standard flags, and a structure id asked for by a character without a structure token, both answer (None, False) with the cache unchanged; the token case holds for the parent fetch too |
| LocationHelpers.FetchSuccess | assets/task_helpers/location_helpers.py:140-162 | on a successful reply with a known system, the stored record is updated with name, system, type and owner, or a new record with the requested id is built; both fetch functions agree |
| LocationHelpers.FetchFunctionsAgree | assets/task_helpers/location_helpers.py:165-241 | without a flag the two fetch functions write the same cache and differ only on Not Modified, where `fetch_location` gives None and `fetch_parent_location` the stored record |
| LocationHelpers.FetchKeepsId | assets/task_helpers/location_helpers.py:26-162 | a fetched location always has the requested id when the table keeps each record under its own id |
| LocationHelpers.FetchLocationInto | assets/task_helpers/location_helpers.py:80-162 | the method's result and the cache it leaves equal those of the fetch function |
| Tasks.UpdateAllAssets | assets/tasks.py:51-63 | the loop queues one job per due active owner, in table order, with the force flag |
| Tasks.UpdateAllAssetsSelection | assets/tasks.py:53-62 | an active owner gets a job iff its last update is at least the period old or the refresh is forced; every job names an active owner |
| Tasks.JobsFor | assets/tasks.py:58-62 | one job per owner, position by position, naming that owner with the force flag |
| Tasks.StaleIdsAddNothing | assets/tasks.py:83-97 | the stale location ids are drawn from the asset location ids, so the union equals the asset location ids |
| Tasks.UpdateAllLocations | assets/tasks.py:75-105 | every location id of an asset under the five hangar and delivery flags is queued, exactly once, each job carrying the run's force flag |
| Tasks.RetryOnlyIfLastRateLimited | assets/tasks.py:133-158 | a retry is scheduled only if the last character's structure request was answered 420 |
| Tasks.MarkedLocationSkipsAll | assets/tasks.py:133-158 | with the no-permission marker set, no character is asked, nothing is saved and there is no retry |
| Tasks.ForbiddenBlocksLaterCharacters | assets/tasks.py:133-158 | a 403 for the first character ends the task without a save or retry and leaves the marker |
| Tasks.UpdateLocation | assets/tasks.py:108-158 | ids below 64,000,000 are tried first with character 0, then each character in turn until a location is found; a found location is saved under its id with `updated_at` stamped now, and the cache and table end as the specification says |
| Tasks.ScanAssetsValid | assets/tasks.py:216-222 | the accumulators stay consistent: every seen item id is recorded, every container is a recorded item, and no container is listed twice |
| Tasks.ScanAssetsGrows | assets/tasks.py:171-173 | the accumulators only grow: earlier containers keep their place and earlier item ids stay |
| Tasks.ContainerOrderMatters | assets/tasks.py:216-222 | the same two assets in opposite order give no container or one container, so the result depends on list order |
| Tasks.ParentJobs | assets/tasks.py:224-236 | one job per container, in order, for that container and the owner's character, with the container's own location as parent, its type and the run's force flag |
| Tasks.RunOwners | assets/tasks.py:171-223 | the owner-by-owner scan keeps its accumulators consistent: every container is a recorded item and listed once |
| Tasks.NoActiveOwnersQueueNothing | assets/tasks.py:165-169 | with no active owner nothing is queued |
| Tasks.JobsNameSeenItems | assets/tasks.py:216-236 | every queued job names an item some owner's list reported |
| Tasks.RequeuedForLaterOwner | assets/tasks.py:171-236 | when one more owner's assets are read, every container found for the earlier owners is queued again with that owner's character |
| Tasks.UpdateAllParentLocations | assets/tasks.py:161-239 | the loop queues exactly the jobs of the owner-by-owner scan and reports a failed asset request |
| Tasks.ScanOwnerAssets | assets/tasks.py:216-222 | the inner loop scans one owner's list as the scan function does |
| Tasks.QueueParents | assets/tasks.py:224-236 | the inner loop queues one job per container found so far |
| Tasks.RunOwnersStaysFailed | assets/tasks.py:171-214 | once an owner's asset request fails, later owners change nothing |
| Tasks.UpdateParentOutcomes | assets/tasks.py:243-274 | a location that already has a parent changes nothing; no other row ever changes; a parent is set iff the location is stored without a parent and the parent fetch found a location that has a stored row, and then the row becomes the stored one linked to that stored parent row, with the container's type and `updated_at` stamped now, the parent being the requested parent id's row; a found parent without a stored row violates the foreign key and fails, changing no row; a retry is scheduled exactly when the unmarked parent's structure request was answered 420 |
| Tasks.UpdateParentLocation | assets/tasks.py:243-274 | the method's outcome, cache and table equal those of the specification |
| Views.ModeNameInjective | assets/views.py:302-415 | the three mode words of the cooldown tags differ |
| Views.ModeName | assets/views.py:302-415 | the mode words contain no `_`, so a cooldown tag splits back into its parts |
| Views.CooldownTagInjective | assets/views.py:29-30 | a cooldown tag determines its user, request id and mode, even for usernames containing `_` |
| Views.CooldownScope | assets/views.py:33-41 | a cooldown set at `now` holds for that user, request and mode until `now + 60` and affects no other combination |
| Views.NoOpenRowsAcceptsAnyAmount | assets/views.py:44-53 | with no open line for the asset the check accepts every amount, even one above the stock |
| Views.ClosedRowsNeverCount | assets/views.py:44-53 | a line of a completed or cancelled request, or of another asset or type, never changes the verdict |
| Views.CreateRequestAssetObject | assets/views.py:56-68 | the new line copies the asset's pk, location id, flag, type and type name, and carries the requested amount |
| Views.AcceptedReservationFitsStock | assets/views.py:44-53 | when open lines exist and the check passes, the open lines stay within the stock after the new line is added |
| Views.FirstReservationUnbounded | assets/views.py:44-53 | the first reservation of an asset may exceed the stock, and the open total then does |
| Views.ParseItemKey | assets/views.py:236-240 | a key not starting with `item_id_` is skipped |
| Views.ItemKeyRoundTrip | assets/views.py:236-240 | the key `item_id_<pk>` yields pk |
| Views.AssetDataOfItemKeys | assets/views.py:236-240 | item keys yield their pks and amounts in field order |
| Views.SortItemsPartition | assets/views.py:250-269 | the order fails with a missing asset iff some item with an amount names no asset; otherwise the accepted items are exactly the items that pass the stock check, with their assets and amounts in form order, and the exceeding names exactly the type names of those that fail it |
| Views.SortItemsMissing | assets/views.py:250-261 | the loop ends with a missing asset iff some item with an amount names no stored asset |
| Views.SortItemsAssignment | assets/views.py:250-269 | without a missing asset the loop's accepted list is the passing items and its exceeding list the failing items' names, both in form order |
| Views.AcceptedItemsAppend | assets/views.py:264-268 | one more item adds its asset and amount to the accepted items exactly when it passes the stock check |
| Views.ExceedingNamesAppend | assets/views.py:264-270 | one more item adds its type name to the exceeding names exactly when it fails the stock check |
| Views.SortItemsStaysMissing | assets/views.py:255-261 | once a missing asset is met, the loop's answer stays "missing asset" |
| Views.SingleOrderOutcomes | assets/views.py:189-231 | an `asset_pk` that is not an optionally signed run of ASCII digits with single underscores between digits gives 500, a missing or unknown asset 404 and an over-limit amount 403, all saving nothing; otherwise one open request of the user under the next pk and one line are added, the next pk grows by one, and the assets and other requests are unchanged; on tables whose keys are all below the next pk, that pk is new, the request count grows by one and the tables stay so |
| Views.MultiOrderOutcomes | assets/views.py:233-290 | a request is saved iff some item was accepted: one open request of the user under the next pk, one line per accepted item, the next pk grown by one, the assets and other requests unchanged; any exceeding item answers 409 naming them, though the accepted items were saved; on tables whose keys are all below the next pk, the saved request is new and the tables stay so |
| Views.SaveOrderFresh | assets/views.py:219-224 | on tables whose request keys and line references are all below the next pk, a save adds a request under a pk no request or line uses, grows the request count by one and keeps that property |
| Views.InvalidFormsNotFound | assets/views.py:292-296 | with neither form valid the reply is 404 with `success: True`, and nothing is saved |
| Views.RepeatWithinCooldownRefused | assets/views.py:302-351 | after a successful change, the same change by the same user within 60 seconds answers 403 and changes nothing |
| Views.MarkRequestOutcomes | assets/views.py:302-457 | a change succeeds iff not on cooldown, the request exists and `mark_request` accepts it; only then is the request updated and the cooldown set |
| Views.Database.Save | assets/views.py:219-224 | saving adds one open request under a pk not used before, and its lines; the request count grows by one and every pk stays below the next one |
| Views.Database.CreateOrder | assets/views.py:181-296 | the view's reply and the new tables equal the order specification |
| Views.Database.MarkRequest | assets/views.py:302-457 | the reply, cache and requests equal the status-change specification; assets and lines are unchanged |
| AssetHelper.ReduceDecision | assets/api/assets/helper.py:27-37 | the asset is kept iff both totals are zero or they leave some stock; the kept quantity is stock − recent − open, positive if anything was taken off and unchanged if both totals are zero |
| AssetHelper.IgnoredLineChangesNothing | assets/api/assets/helper.py:15-25 | a line of another asset, of a cancelled request, or of a request completed more than two hours ago changes neither total |
| AssetHelper.OpenLineCounts | assets/api/assets/helper.py:23-25 | a line of an open request for the asset raises the open total by its quantity and leaves the recent total |
| AssetHelper.AssetInstance.Load | assets/api/assets/assets.py:47-55 | the in-memory asset starts as the stored row, with the row's quantity |
| AssetHelper.UpdateAssetObject | assets/api/assets/helper.py:13-37 | the method keeps the asset exactly when the reduction does, and then the in-memory quantity is the reduced one |
| AssetsApi.GetAssets | assets/api/assets/assets.py:32-83 | the reply equals the page specification: 403 without access, else the kept candidates in order |
| AssetsApi.PageEntriesAreKept | assets/api/assets/assets.py:54-58 | every listed entry comes from a kept candidate and every kept candidate is listed |
| AssetsApi.EntryForDecision | assets/api/assets/assets.py:54-73 | an asset is listed iff nothing is reserved or stock remains; its quantity is the reduced one, and its price is unit price × quantity, or "N/A" exactly when there is no unit price |
| AssetsApi.AssetsPageOutcomes | assets/api/assets/assets.py:32-81 | 403 iff no asset at the location is visible to the user; otherwise the reply echoes id and flag and lists only assets at the location under the expanded flags, including every kept one |
| AssetsApi.PageIndependentOfViewer | assets/api/assets/assets.py:33-81 | once access is granted, the page is the same for every user: only the permission check depends on the viewer |
| AssetsApi.GetLocations | assets/api/assets/assets.py:91-135 | the reply equals the location list specification |
| AssetsApi.LocationEntriesListed | assets/api/assets/assets.py:109-133 | each row is a stored, wanted location with its name and system annotations; every wanted stored location is listed; no id appears twice |
| AssetsApi.LocationsPageOutcomes | assets/api/assets/assets.py:96-135 | 403 iff no owner is visible; otherwise a stored location is listed, once, iff some asset of any owner lies there under a standard flag |
| RequestHelper.EndpointInjective | assets/api/requests/helper.py:51-89 | the three buttons target three different views |
| RequestHelper.RequestList | assets/api/requests/helper.py:12-30 | the order cell is empty exactly without permission |
| RequestHelper.RequestActionsAreTransitions | assets/api/requests/helper.py:33-98 | without permission all cells are empty; with it the manager is offered exactly the transitions the status allows, each once, cancel before complete, each targeting its own view and the request's pk |
| RequestHelper.MyActionsWithinManagerActions | assets/api/requests/helper.py:101-149 | the requester is offered the manager's buttons except complete |
| RequestsApi.GetRequests | assets/api/requests/requests.py:32-79 | the loop builds one row per listed request, in order, with the manager buttons |
| RequestsApi.GetMyRequests | assets/api/requests/requests.py:86-131 | the loop builds one row per request in the user's table, in order, with the requester buttons |
| RequestsApi.Rows | assets/api/requests/requests.py:54-77 | each row carries the request's pk, status, raw status as action, dates, approver and requester |
| RequestsApi.ListedRequestsDecision | assets/api/requests/requests.py:33-50 | a request is listed iff visible and not cancelled or completed more than three days ago; open requests always stay |
| RequestsApi.MyListedRequestsDecision | assets/api/requests/requests.py:87-102 | a request is in the user's table iff the user raised it, may see it, and it was not cancelled more than three days ago |
| RequestsApi.OldCompletedOnlyInMyTable | assets/api/requests/requests.py:41-102 | an own request completed more than three days ago stays in the user's table but leaves the general one |
| RequestsApi.MyTableWithinGeneral | assets/api/requests/requests.py:33-102 | every row of the user's table other than an old completed request is in the general table |
| RequestsApi.StatisticsBounds | assets/api/requests/requests.py:138-156 | 403 iff no `basic_access`; the total is present iff the user manages requests, and is never below the user's open count |
| RequestsApi.NewOpenCount | assets/managers.py:693-695 | adding an open request under a fresh pk raises the open count by one |
| RequestsApi.NewMyOpenCount | assets/managers.py:697-699 | adding an open request of the user under a fresh pk raises the user's open count by one |
| RequestsApi.NewOpenRequestCounts | assets/managers.py:693-699 | a new open request of the user raises both counters by one |
| RequestsApi.EntriesQuantityIsTotal | assets/api/requests/requests.py:183-190 | the order entries add up to the reserved quantity of the lines |
| RequestsApi.GetRequestOrder | assets/api/requests/requests.py:163-201 | the reply equals the order specification |
| RequestsApi.RequestOrderOutcomes | assets/api/requests/requests.py:163-201 | 403 iff no `basic_access` or no such request; otherwise one entry per line of that request, in order, with type id, type name and quantity, adding up to its total |

## Left out

- HTTP, ESI and the market service are not modelled as such. Their replies
  are parameters: `Env`, `MarketReply`, `AssetsReply`, `typeName`,
  `systemName`.
- Token lookup is modelled as a boolean per character.
- Celery scheduling is not modelled. `apply_async` becomes an appended
  job, and `self.retry` becomes a retry outcome with its countdown.
- `when_esi_is_available`, `QueueOnce`, `transaction.atomic`,
  notifications, logging and `clear_all_etags` (Redis) are not modelled.
- Market prices are floats in the source. The model uses integer prices
  and tracks only whether a price is present.
- `update_assets_for_owner`, `Owner.update_assets_esi` and
  `update_or_create_esi` are not part of this model.
  `Managers.GetOrCreateEsi` takes the refetch result as a parameter.
- `Request.mark_request`, the status display labels and the location-flag
  display labels live in `models.py`, which is not part of this model.
  - `mark_request` is a parameter (`MarkOracle`).
  - `RequestsApi.RequestRow.status` holds the status itself.
  - `AssetsApi.AssetEntry.locationFlag` holds the raw flag.
- `STANDARD_FLAG` is imported from `assets/constants.py`, but its value is
  not in the available source. It is a parameter (`standardFlags`).
- `ASSETS_CACHE_KEY`, `STORAGE_BASE_KEY`, `ASSETS_UPDATE_PERIOD` and the
  stale threshold of `get_or_create_esi` are settings. They are parameters.
- Buttons and links are not modelled as HTML. Templates, the
  "View Assets" link of `get_locations` and the translated messages are
  left out. The model keeps each button's mode, endpoint name and request
  pk.
- The permission decorators (`login_required`, `permissions_required`,
  `token_required`, `require_POST`) are not modelled. Each view assumes
  its caller passed them.
- `get_character_permission` looks up EVE characters and their ownership
  in Alliance Auth tables. Its result is the `perm` parameter.
- Django form validation is not modelled, including the rule
  `min_value=1` on amounts. A valid single form is `SingleForm`, and a
  valid multi form is its list of fields.
- Views.AssetData: `int()` on a malformed pk raises `ValueError`. The model
  returns `None` and answers 500. The pk comes from a field name split at
  `_`, so it never holds an underscore. The model does not accept the
  leading and trailing whitespace that `int()` accepts, or non-ASCII
  decimal digits.
- Views.SingleOrderOutcomes: the raw `asset_pk` is read with
  `Text.ParsePyInt`, which accepts underscores between digits as `int()`
  does. Leading and trailing whitespace and non-ASCII decimal digits,
  which `int()` also accepts, answer 500 in the model.
- LocationHelpers.FetchLocation: `existing_location` is updated in place.
  Nothing else holds a reference to it before it is returned, so the model
  returns an updated value. `updated_at` (`auto_now`) is stamped with
  `now` on new records here, and by every save in the tasks.
- LocationHelpers.FetchLocation: the `force_refresh` flag passed to
  `.result()` only decides whether ESI's cached reply may be reused. The
  reply is a parameter (`Env.structure`), so the flag does not reach it;
  the jobs of `Tasks.UpdateAllLocations` and `Tasks.ParentJobs` carry it.
- Tasks.UpdateLocation: the follow-up `Assets...update(location_id=...)`
  writes every matched row's own value back. It changes nothing, so it is
  not modelled. `char_ids` is a Python set, so the model takes the
  characters in some fixed order, each once.
- Tasks.UpdateParentLocation: `EveType.objects.get_or_create_esi` is
  modelled as always returning the type with the given id. The parent
  record returned by the fetch is not saved, as in the source. The model
  assumes a database that enforces foreign keys: a parent without a stored
  row (a new structure, station or solar system) makes the update fail
  (`ParentFailed`). On a database that does not enforce them the source
  would save a dangling reference instead.
- Records.Location: `parent` is a foreign key that the name and system
  annotations read through at query time. The model embeds the parent
  record by value, so a child's copy does not follow a later refresh of
  the parent row; the annotations are proved against the embedded copy.
  `Tasks.UpdateParentSpec` embeds the parent's stored row at the time of
  linking.
- `get_location_type` for a solar system returns a bare `None` when the
  system lookup fails. Callers cannot unpack that, so the model treats it
  as an error that ends the task (`TypeRaised`).

## Findings

| source | as written | input that shows it | evidently intended | confidence | as-written member | corrected member |
|---|---|---|---|---|---|---|
| assets/managers.py:62 | `owner__character__character_id` is the character ownership's column holding the character's row key, compared with `char.character_id`, the main character's EVE id | a main character with EVE id 90000001 stored as row 42: the user's own character asset is hidden | the user sees the assets of their own main character (`owner__character__character__character_id`) | not executed | Managers.OwnAssetHiddenAsWritten | Managers.VisibleAssetsDecision |
| assets/task_helpers/location_helpers.py:46 | `get_or_create_esi` returns an (instance, created) pair, so `system` is a model instance and `system.first()` raises `AttributeError` | an unstored id 30000142 whose system is known: the call raises and the task ends | a new location named after the system, with that system set | not executed | LocationHelpers.SolarSystemRaisesAsWritten | LocationHelpers.GetLocationTypeClassification |
