/** The trip index kept between API polls: `StateManager.update_state` and
    its two helpers. A previous state (possibly absent) and an API payload
    give a new state with two views of one set of trips: `byTripId`, an
    insertion-ordered dict from trip id to trip, and `byStartDate`, a dict
    from the `YYYY-MM-DD` day of each trip's `start_time` to the trips that
    start that day, rebuilt from scratch on every call. */
module StateManager {
  import opened Wrappers
  import opened OrderedMaps
  import opened Grouping
  import Timestamps

  /** A field value of a trip record, as the API sends it. */
  datatype Value = Null | Int(i: int) | Text(s: string)

  /** A trip record: field names to values. The merge reads only `trip_id`
      and `start_time`; every other field is passed through untouched. */
  type Trip = map<string, Value>

  type TripIndex = Dict<Value, Trip>
  type DayIndex = Dict<string, seq<Trip>>

  /** The exceptions `update_state` lets escape. */
  datatype Error =
    | KeyError(key: string)     // a required key is missing
    | TypeError(arg: Value)     // `start_time` is not a string
    | ValueError(data: string)  // `start_time` does not parse

  /** A previously persisted state; either key may be missing. */
  datatype PersistedState = PersistedState(byTripId: Option<TripIndex>, byStartDate: Option<DayIndex>)

  /** The state `update_state` returns. */
  datatype State = State(byTripId: TripIndex, byStartDate: DayIndex)

  /** The API payload; only its `trips` list is read. */
  datatype ApiResponse = ApiResponse(trips: Option<seq<Trip>>)

  const TripIdKey := "trip_id"
  const StartTimeKey := "start_time"

  /** `_extract_trips_from_state`, applied after an absent or empty state
      has been replaced by `{}`. */
  function CurrentTrips(state: Option<PersistedState>): TripIndex {
    match state
    case None => Empty()
    case Some(p) =>
      match p.byTripId
      case None => Empty()
      case Some(trips) => trips
  }

  predicate HasTripIds(trips: seq<Trip>) {
    forall i :: 0 <= i < |trips| ==> TripIdKey in trips[i]
  }

  function TripIds(trips: seq<Trip>): (ids: seq<Value>)
    requires HasTripIds(trips)
    ensures |ids| == |trips|
  {
    seq(|trips|, i requires 0 <= i < |trips| => trips[i][TripIdKey])
  }

  /** No later trip of the batch has the id of trip `i`. */
  predicate LastWithId(trips: seq<Trip>, i: int)
    requires HasTripIds(trips) && 0 <= i < |trips|
  {
    forall j :: i < j < |trips| ==> trips[j][TripIdKey] != trips[i][TripIdKey]
  }

  function Keyed(trips: seq<Trip>): seq<(Value, Trip)>
    requires HasTripIds(trips)
  {
    seq(|trips|, i requires 0 <= i < |trips| => (trips[i][TripIdKey], trips[i]))
  }

  /** `{trip["trip_id"]: {**trip} for trip in trips}`. */
  function IncomingTrips(trips: seq<Trip>): Result<TripIndex, Error> {
    if HasTripIds(trips) then Success(FromPairs(Keyed(trips)))
    else Failure(KeyError(TripIdKey))
  }

  /** `{**current_trips, **incoming_trips}` for a batch whose trips all have ids. */
  function Merged(state: Option<PersistedState>, trips: seq<Trip>): TripIndex
    requires HasTripIds(trips)
  {
    Union(CurrentTrips(state), FromPairs(Keyed(trips)))
  }

  /** `_simplify_date_string(trip["start_time"])`, with the exception each
      step can raise. */
  function StartDate(trip: Trip): Result<string, Error> {
    if StartTimeKey !in trip then Failure(KeyError(StartTimeKey))
    else
      match trip[StartTimeKey]
      case Text(s) =>
        (match Timestamps.SimplifyDateString(s)
         case Success(day) => Success(day)
         case Failure(_) => Failure(ValueError(s)))
      case other => Failure(TypeError(other))
  }

  /** The grouping loop of `update_state` as a specification: the trips in
      order, each appended to the group of its day; the first trip whose day
      cannot be derived ends it with that trip's error. */
  function GroupByStartDate(trips: seq<Trip>): Result<DayIndex, Error> {
    GroupBy(trips, StartDate)
  }

  /** `update_state` as a specification. */
  function Updated(state: Option<PersistedState>, response: ApiResponse): Result<State, Error> {
    if response.trips.None? then Failure(KeyError("trips"))
    else if !HasTripIds(response.trips.value) then Failure(KeyError(TripIdKey))
    else
      var merged := Merged(state, response.trips.value);
      match GroupByStartDate(Values(merged))
      case Failure(e) => Failure(e)
      case Success(groups) => Success(State(merged, groups))
  }

  /** The grouping loop of `update_state`: for every trip of the merged
      index, in iteration order, append it to the group of its day. */
  method BuildStartDateIndex(trips: TripIndex) returns (r: Result<DayIndex, Error>)
    ensures r == GroupByStartDate(Values(trips))
  {
    ghost var all := Values(trips);
    var groups: DayIndex := Empty();
    var i := 0;
    while i < |trips.keys|
      invariant 0 <= i <= |trips.keys|
      invariant GroupBy(all[..i], StartDate) == Success(groups)
    {
      var trip := trips.entries[trips.keys[i]];
      var day := StartDate(trip);
      GroupByExtend(all, StartDate, i, groups);
      if day.Failure? {
        FailureExtends(all, StartDate, i + 1);
        return Failure(day.error);
      }
      groups := Append(groups, day.value, trip);
      i := i + 1;
    }
    assert all[..i] == all;
    r := Success(groups);
  }

  /** `StateManager.update_state`. */
  method UpdateState(state: Option<PersistedState>, response: ApiResponse) returns (r: Result<State, Error>)
    ensures r == Updated(state, response)
  {
    var current := CurrentTrips(state);
    if response.trips.None? {
      return Failure(KeyError("trips"));
    }
    var incoming := IncomingTrips(response.trips.value);
    if incoming.Failure? {
      return Failure(incoming.error);
    }
    var updated := Union(current, incoming.value);
    var byStartDate := BuildStartDateIndex(updated);
    if byStartDate.Failure? {
      return Failure(byStartDate.error);
    }
    r := Success(State(updated, byStartDate.value));
  }

  /** `trip` has a well-formed `start_time` whose date part is `day`. */
  predicate StartsOn(trip: Trip, day: string) {
    && StartTimeKey in trip
    && trip[StartTimeKey].Text?
    && Timestamps.WellFormedTimestamp(trip[StartTimeKey].s)
    && trip[StartTimeKey].s[..Timestamps.DayKeyLength] == day
  }

  /** The day a trip is filed under is the date part of its own
      `start_time`, with no conversion between offsets; the three ways of
      failing are told apart by what is wrong with the field. */
  lemma StartDateIsDatePart(trip: Trip)
    ensures forall day :: StartDate(trip) == Success(day) <==> StartsOn(trip, day)
    ensures StartTimeKey !in trip ==> StartDate(trip) == Failure(KeyError(StartTimeKey))
    ensures StartTimeKey in trip && !trip[StartTimeKey].Text? ==> StartDate(trip) == Failure(TypeError(trip[StartTimeKey]))
    ensures (StartTimeKey in trip && trip[StartTimeKey].Text? && !Timestamps.WellFormedTimestamp(trip[StartTimeKey].s))
              ==> StartDate(trip) == Failure(ValueError(trip[StartTimeKey].s))
  {
    if StartTimeKey in trip && trip[StartTimeKey].Text? {
      Timestamps.SimplifyDateStringIsDatePart(trip[StartTimeKey].s);
    }
  }

  /** In the comprehension over a batch, the id of a trip that no later
      trip repeats maps to that trip. */
  lemma IncomingLast(trips: seq<Trip>, i: int)
    requires HasTripIds(trips) && 0 <= i < |trips| && LastWithId(trips, i)
    ensures trips[i][TripIdKey] in FromPairs(Keyed(trips)).entries
    ensures FromPairs(Keyed(trips)).entries[trips[i][TripIdKey]] == trips[i]
  {
    var id, ids := trips[i][TripIdKey], TripIds(trips);
    assert KeysOf(Keyed(trips)) == ids;
    assert ids[i] == id;
    FromPairsAt(Keyed(trips), id);
    assert LastIndex(ids, id) == i;
  }

  /** What a successful update is made of: a batch of trips with ids, the
      merged index as the trip index, and its grouping by day as the day
      index. */
  lemma UpdatedParts(state: Option<PersistedState>, response: ApiResponse, s: State)
    requires Updated(state, response) == Success(s)
    ensures response.trips.Some? && HasTripIds(response.trips.value)
    ensures s.byTripId == Merged(state, response.trips.value)
    ensures GroupByStartDate(Values(s.byTripId)) == Success(s.byStartDate)
  {
  }

  /** The merged trip index: the ids of the old index and of the batch; for
      each id in the batch, the last trip of the batch carrying it, whatever
      the old index held; every other id keeps its old trip. */
  lemma MergedTripIndex(state: Option<PersistedState>, trips: seq<Trip>)
    requires HasTripIds(trips)
    ensures forall id :: id in Merged(state, trips).entries <==> id in CurrentTrips(state).entries || id in TripIds(trips)
    ensures forall i :: 0 <= i < |trips| && LastWithId(trips, i) ==>
              trips[i][TripIdKey] in Merged(state, trips).entries && Merged(state, trips).entries[trips[i][TripIdKey]] == trips[i]
    ensures forall id :: id in CurrentTrips(state).entries && id !in TripIds(trips) ==>
              id in Merged(state, trips).entries && Merged(state, trips).entries[id] == CurrentTrips(state).entries[id]
  {
    var current, incoming := CurrentTrips(state), FromPairs(Keyed(trips));
    assert KeysOf(Keyed(trips)) == TripIds(trips);
    UnionEntries(current, incoming);
    forall id ensures id in incoming.entries <==> id in TripIds(trips) {
      FromPairsAt(Keyed(trips), id);
    }
    forall i | 0 <= i < |trips| && LastWithId(trips, i)
      ensures trips[i][TripIdKey] in incoming.entries && incoming.entries[trips[i][TripIdKey]] == trips[i]
    {
      IncomingLast(trips, i);
    }
  }

  /** The order of the merged trip index: the old ids in their old order,
      then the ids new to it in the order they first occur in the batch. */
  lemma MergedKeyOrder(state: Option<PersistedState>, trips: seq<Trip>)
    requires HasTripIds(trips)
    ensures Merged(state, trips).keys == CurrentTrips(state).keys + FirstOccurrences(TripIds(trips), CurrentTrips(state).entries.Keys)
  {
    var current := CurrentTrips(state);
    assert KeysOf(Keyed(trips)) == TripIds(trips);
    UnionKeys(current, FromPairs(Keyed(trips)));
    FromPairsKeys(Keyed(trips));
    FirstOccurrencesTwice(TripIds(trips), {}, current.entries.Keys);
    assert {} + current.entries.Keys == current.entries.Keys;
  }

  /** The day index after a successful update, rebuilt from the trip index
      alone: every trip has a day; a day is a key exactly when some trip
      starts on it, and its list holds exactly the trips starting that day
      in the order of the trip index; the lists together hold every trip of
      the index once; the days come in the order of their first trip. */
  lemma UpdatedDayIndex(state: Option<PersistedState>, response: ApiResponse, s: State)
    requires Updated(state, response) == Success(s)
    ensures AllKeyed(Values(s.byTripId), StartDate)
    ensures forall day :: day in s.byStartDate.entries <==> Where(Values(s.byTripId), StartDate, day) != []
    ensures forall day :: day in s.byStartDate.entries ==> s.byStartDate.entries[day] == Where(Values(s.byTripId), StartDate, day)
    ensures multiset(Flatten(s.byStartDate)) == multiset(Values(s.byTripId))
    ensures s.byStartDate.keys == FirstOccurrences(KeySeq(Values(s.byTripId), StartDate), {})
  {
    UpdatedParts(state, response, s);
    var all := Values(s.byTripId);
    GroupByGroups(all, StartDate, s.byStartDate);
    GroupByPartition(all, StartDate, s.byStartDate);
    GroupByOrder(all, StartDate, s.byStartDate);
  }

  /** Every trip filed under a day starts on that day, and is a trip of the
      index; no day has an empty list. */
  lemma UpdatedDaysAreStartDates(state: Option<PersistedState>, response: ApiResponse, s: State)
    requires Updated(state, response) == Success(s)
    ensures forall day, trip :: day in s.byStartDate.entries && trip in s.byStartDate.entries[day] ==>
              StartsOn(trip, day) && trip in s.byTripId.entries.Values
    ensures forall day :: day in s.byStartDate.entries ==> s.byStartDate.entries[day] != []
  {
    UpdatedDayIndex(state, response, s);
    ValuesIn(s.byTripId);
    forall day, trip | day in s.byStartDate.entries && trip in s.byStartDate.entries[day]
      ensures StartsOn(trip, day)
    {
      StartDateIsDatePart(trip);
    }
  }

  /** The old day index is never read: merging the same batch again into the
      result, whatever day index is stored beside it, gives the same state. */
  lemma UpdateIdempotent(state: Option<PersistedState>, response: ApiResponse, s: State, staleDays: Option<DayIndex>)
    requires Updated(state, response) == Success(s)
    ensures Updated(Some(PersistedState(Some(s.byTripId), staleDays)), response) == Success(s)
  {
    UpdatedParts(state, response, s);
    UnionIdempotent(CurrentTrips(state), FromPairs(Keyed(response.trips.value)));
  }

  /** An empty batch leaves the trip index as it was, and fails only when a
      stored trip has no usable `start_time`. */
  lemma EmptyBatch(state: Option<PersistedState>)
    ensures Updated(state, ApiResponse(Some([]))).Success? <==> AllKeyed(Values(CurrentTrips(state)), StartDate)
    ensures Updated(state, ApiResponse(Some([]))).Success? ==> Updated(state, ApiResponse(Some([]))).value.byTripId == CurrentTrips(state)
  {
    var none: seq<Trip> := [];
    assert Keyed(none) == [];
    UnionEmpty(CurrentTrips(state));
    GroupByFails(Values(CurrentTrips(state)), StartDate);
  }

  /** A state whose day index is the grouping of its trip index comes back
      unchanged from an empty batch. */
  lemma EmptyBatchIdentity(s: State)
    requires GroupByStartDate(Values(s.byTripId)) == Success(s.byStartDate)
    ensures Updated(Some(PersistedState(Some(s.byTripId), Some(s.byStartDate))), ApiResponse(Some([]))) == Success(s)
  {
    var none: seq<Trip> := [];
    assert Keyed(none) == [];
    UnionEmpty(s.byTripId);
  }

  /** An absent state, an empty one and one without `byTripId` are all an
      empty index; an empty batch on it gives two empty indexes. */
  lemma AbsentState(response: ApiResponse, staleDays: Option<DayIndex>)
    ensures Updated(None, response) == Updated(Some(PersistedState(None, staleDays)), response)
    ensures Updated(None, ApiResponse(Some([]))) == Success(State(Empty(), Empty()))
  {
    var none: seq<Trip> := [];
    assert Keyed(none) == [];
    UnionEmpty<Value, Trip>(Empty());
  }

  /** When an update fails: the payload has no `trips`, a trip of the batch
      has no `trip_id`, or a trip of the merged index has no day. */
  lemma UpdatedFails(state: Option<PersistedState>, response: ApiResponse)
    ensures response.trips.None? ==> Updated(state, response) == Failure(KeyError("trips"))
    ensures response.trips.Some? && !HasTripIds(response.trips.value) ==> Updated(state, response) == Failure(KeyError(TripIdKey))
    ensures Updated(state, response).Failure? <==>
              || response.trips.None?
              || !HasTripIds(response.trips.value)
              || !AllKeyed(Values(Merged(state, response.trips.value)), StartDate)
  {
    if response.trips.Some? && HasTripIds(response.trips.value) {
      GroupByFails(Values(Merged(state, response.trips.value)), StartDate);
    }
  }

  /** A failing grouping reports the error of the first trip of the merged
      index, in its order, whose day cannot be derived. */
  lemma UpdatedFirstError(state: Option<PersistedState>, trips: seq<Trip>)
    requires HasTripIds(trips)
    requires Updated(state, ApiResponse(Some(trips))).Failure?
    ensures var all := Values(Merged(state, trips));
            exists i :: 0 <= i < |all| && StartDate(all[i]) == Failure(Updated(state, ApiResponse(Some(trips))).error)
                        && AllKeyed(all[..i], StartDate)
  {
    GroupByFirstError(Values(Merged(state, trips)), StartDate);
  }
}
