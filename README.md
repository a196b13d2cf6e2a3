# Trip state manager, modelled in Dafny

A vehicle API is polled for trips. After each poll, `StateManager.update_state`
merges the returned batch into the state kept from the previous poll and returns
a new state with two indexes over one set of trips:

- `byTripId`: an insertion-ordered dict from `trip_id` to trip. An incoming trip
  replaces the stored trip with the same id wholesale. Within a batch, the last
  trip with a given id wins.
- `byStartDate`: a dict from the day key `YYYY-MM-DD` of each trip's `start_time`
  to the list of trips that start that day. It is rebuilt from `byTripId` on
  every call, in `byTripId` order.

The model has four modules besides `Wrappers` (`Option`, `Result`):

- `OrderedMaps` models a Python dict as a sequence of distinct keys plus a map.
  It covers `{k: v for ...}` (`FromPairs`), `{**a, **b}` (`Union`) and
  `.values()` (`Values`). A reference definition, `FirstOccurrences`, states
  the resulting key order.
- `Timestamps` reads `start_time` in the fixed-width layout that
  `"%Y-%m-%dT%H:%M:%S%z"` describes and renders the day key with `"%Y-%m-%d"`
  (`_simplify_date_string`).
- `Grouping` models the `setdefault(key, []).append(x)` loop for any key
  function that may fail. `GroupBy` is its specification.
- `StateManager` holds the trip records, the errors, the specification
  `Updated`, and the methods `UpdateState` and `BuildStartDateIndex`.
  `CurrentTrips` models `_extract_trips_from_state` (src/state_manager.py:30-31)
  after line 11 has replaced a falsy state by `{}`. `StartDate` models
  `_simplify_date_string(trip["start_time"])` on line 22, with the exception
  each step can raise.
  `BuildStartDateIndex` is the imperative grouping loop. It is proved against
  `GroupBy` with a loop invariant.

A trip is a Python dict (`map<string, Value>`). Only `trip_id` and `start_time`
are read; every other field passes through unchanged. The exceptions that
`update_state` lets escape are modelled as a `Result`. The exceptions are:

- `KeyError("trips")` when the payload has no `trips`.
- `KeyError("trip_id")` when an incoming trip has no `trip_id`.
- `KeyError("start_time")` when a trip of the merged index has no `start_time`.
- `TypeError` when `start_time` is not a string.
- `ValueError` when `start_time` does not parse.

The first failing trip, in iteration order, decides the error.

Three consequences of the code are worth stating:

- Errors are Python's `KeyError`, `TypeError` and `ValueError`; the code
  defines no error types of its own.
- `start_time` is read only in the loop over the merged index
  (src/state_manager.py:21-22). So an incoming trip without `start_time`
  raises nothing when a later trip of the same batch, with the same id and a
  usable `start_time`, replaces it.
- For the same reason, a stored trip without a usable `start_time` makes every
  later call fail, even with an empty batch (`StateManager.EmptyBatch`), until
  a batch carries a trip with the same id and a usable `start_time`, which
  replaces it at line 18 before the loop runs.

## Model

| member | source | states |
|---|---|---|
| OrderedMaps.FirstOccurrences | src/state_manager.py:14-18 | reference order: the elements not yet seen, once each, in first-occurrence order, and exactly those |
| OrderedMaps.LastIndex | src/state_manager.py:14-17 | the position of the last occurrence of a key; no later position holds it |
| OrderedMaps.PutAllAt | src/state_manager.py:14-18 | assigning pairs in order: a key is present iff it was before or some pair names it; its value is that of the last pair naming it, or else the old value |
| OrderedMaps.PutAllKeys | src/state_manager.py:14-18 | assigning pairs keeps the old keys in order and appends new keys in first-occurrence order |
| OrderedMaps.FromPairsAt | src/state_manager.py:14-17 | a dict comprehension holds exactly the keys produced, each with the value of the last pair producing it |
| OrderedMaps.FromPairsKeys | src/state_manager.py:14-17 | a dict comprehension orders its keys by first occurrence |
| OrderedMaps.UnionEntries | src/state_manager.py:18 | `{**a, **b}` maps every key of `b` to its `b` value and every other key of `a` to its `a` value |
| OrderedMaps.UnionKeys | src/state_manager.py:18 | `{**a, **b}` keeps `a`'s key order, then appends the keys only `b` has, in `b`'s order |
| OrderedMaps.UnionIdempotent | src/state_manager.py:18 | merging the same dict again changes nothing |
| OrderedMaps.UnionEmpty | src/state_manager.py:18 | merging an empty dict is the identity |
| OrderedMaps.FirstOccurrencesTwice | src/state_manager.py:14-18 | removing seen elements in two passes is the same as removing them in one pass |
| Timestamps.SimplifyDateStringIsDatePart | src/state_manager.py:33-34 | `_simplify_date_string` gives the first ten characters, the date part, exactly when the string is a well-formed timestamp in the `api_date_fmt` layout, and fails otherwise |
| Timestamps.ParseFormatRoundTrip | src/state_manager.py:7 | parsing a rendered valid timestamp gives it back |
| Timestamps.SameDayKeyIffSameDate | src/state_manager.py:33-34 | two well-formed timestamps share a day key iff they share a date part, whatever their time or offset |
| Timestamps.PadNumber | src/state_manager.py:34 | rendering the value of a digit string in its own width gives the string back |
| Timestamps.NumberPad | src/state_manager.py:34 | reading back a number rendered in enough digits gives the number |
| Timestamps.EpochExample | tests/state_manager_test.py:153-167 | the tests' default start time has the day key `1970-01-01` |
| Timestamps.SpaceExample | src/state_manager.py:33-34 | a space in place of the `T` is rejected |
| Grouping.GroupByGroups | src/state_manager.py:19-23 | a successful loop gave every element a key; a key is present iff some element has it; its list is exactly those elements, in order |
| Grouping.GroupByOrder | src/state_manager.py:21-23 | the keys appear in the order of their first element |
| Grouping.GroupByPartition | src/state_manager.py:19-23 | the lists together are a permutation of the elements: each element appears in exactly one list, once |
| Grouping.GroupByFails | src/state_manager.py:21-22 | the loop fails iff some element's key cannot be computed |
| Grouping.GroupByFirstError | src/state_manager.py:21-22 | a failing loop reports the error of the first element whose key fails, with every earlier key computed |
| Grouping.FailureExtends | src/state_manager.py:21-22 | once a prefix fails, the whole loop fails with the same error |
| StateManager.BuildStartDateIndex | src/state_manager.py:19-23 | the loop over `updated_trips.values()` with `setdefault(...).append(...)` computes `GroupBy` of the trips by start date |
| StateManager.UpdateState | src/state_manager.py:10-28 | the method computes the specification `Updated`, including every error path |
| StateManager.StartDateIsDatePart | src/state_manager.py:22 | a trip's day is `d` iff its `start_time` is a well-formed timestamp string with date part `d`; a missing, non-string or malformed `start_time` gives `KeyError`, `TypeError` or `ValueError` |
| StateManager.IncomingLast | src/state_manager.py:14-17 | in the batch comprehension, the id of a trip that no later trip repeats maps to that trip |
| StateManager.MergedTripIndex | src/state_manager.py:14-18 | the merged ids are the old ids plus the batch ids; the last batch trip with an id replaces the stored one; other stored trips are kept unchanged |
| StateManager.MergedKeyOrder | src/state_manager.py:14-18 | the merged index lists the old ids in their old order, then the new ids in first-occurrence order |
| StateManager.UpdatedDayIndex | src/state_manager.py:19-23 | every trip has a day; a day is a key iff some trip starts on it; its list is exactly those trips, in `byTripId` order; the lists together are a permutation of the trips; days are ordered by their first trip |
| StateManager.UpdatedDaysAreStartDates | src/state_manager.py:19-23 | every trip filed under a day starts on that day and is a trip of `byTripId`; no list is empty |
| StateManager.UpdateIdempotent | src/state_manager.py:19-28 | the old `byStartDate` is never read: merging the same batch into the result again, with any stored day index, gives the same state |
| StateManager.EmptyBatch | src/state_manager.py:18-23 | an empty batch keeps `byTripId` unchanged, and fails only when a stored trip has no day |
| StateManager.EmptyBatchIdentity | src/state_manager.py:18-28 | a consistent state comes back unchanged from an empty batch |
| StateManager.AbsentState | src/state_manager.py:11-12 | an absent state is the same as one without `byTripId`, which `_extract_trips_from_state` reads as an empty index; an empty batch on it gives two empty indexes |
| StateManager.UpdatedFails | src/state_manager.py:14-22 | a call fails iff the payload has no `trips`, a batch trip has no `trip_id`, or some merged trip has no day; the first two give their `KeyError` |
| StateManager.UpdatedFirstError | src/state_manager.py:21-22 | a failing grouping reports the error of the first merged trip, in `byTripId` order, whose day cannot be derived |

## Left out

- Parsing accepts only the fixed-width layout `YYYY-MM-DDTHH:MM:SS±HHMM`. Python's `strptime` also accepts, among others, one-digit fields, a space-padded day, non-ASCII decimal digits, a lower-case `t`, `Z`, and `+HH:MM` or seconds in the offset. Modelling that would need the internals of `datetime`.
- Timestamps.SimplifyDateString: a year below 1000 is rendered zero-padded to four digits. Python's `strftime("%Y")` pads such a year or not depending on the platform's C library.
- Field values are `None`, integers or strings. Floats, booleans and nested values are not modelled. Nor is Python's equality `1 == 1.0 == True` between dict keys.
- The shallow copy `{**trip}` and the sharing of trip objects between the two indexes are not modelled: trips are values.
- The grouping dict is a value that the loop reassigns. The model does not capture in-place mutation or aliasing of the lists.
- Fields of the payload other than `trips`, such as `vehicle_no`, are not read by the core and are not modelled.
- Any falsy `state` (such as `None` or `{}`) is modelled as an absent state. A `state`, payload, trip or stored `byTripId` that is not a dict is not modelled. Neither is a `trips` value that is not a list.
- Exception messages are reduced to the offending key or value.
- Fetching trips over HTTP and persisting the state are outside `src/state_manager.py` and are not part of this model.
