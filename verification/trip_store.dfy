/**
 * The trip store: the two persisted entries `allTrips` and `currentTrip`,
 * seen as one abstract state, and the operations that rewrite them.
 * Every write is assumed to succeed; identifiers and timestamps are passed in.
 */
module TripStore {
  import opened Wrappers
  import opened Types

  /** The persisted store: the trip collection and the current-trip copy. */
  datatype State = State(allTrips: seq<Trip>, current: Option<Trip>)

  /** Trip ids in the collection are pairwise distinct. */
  predicate UniqueIds(ts: seq<Trip>) {
    forall i, j :: 0 <= i < j < |ts| ==> ts[i].id != ts[j].id
  }

  /** No trip of the collection carries `id`. */
  predicate FreshId(ts: seq<Trip>, id: string) {
    forall i :: 0 <= i < |ts| ==> ts[i].id != id
  }

  /** The current trip, when there is one, is an element of the collection. */
  predicate Consistent(s: State) {
    s.current.Some? ==> s.current.value in s.allTrips
  }

  /** `findIndex` by id: the position of the first trip carrying `id`. */
  function FindTripIndex(ts: seq<Trip>, id: string): (r: Option<nat>)
    ensures r.None? <==> FreshId(ts, id)
    ensures r.Some? ==> r.value < |ts| && ts[r.value].id == id
    ensures r.Some? ==> forall j :: 0 <= j < r.value ==> ts[j].id != id
  {
    if |ts| == 0 then None
    else if ts[0].id == id then Some(0)
    else
      match FindTripIndex(ts[1..], id)
      case None => None
      case Some(k) => Some(k + 1)
  }

  /** `getCurrentTrip`. */
  function GetCurrentTrip(s: State): Option<Trip> {
    s.current
  }

  /** `getCurrentTripName`: the current trip's name, or the empty string. */
  function GetCurrentTripName(s: State): (name: string)
    ensures s.current.Some? ==> name == s.current.value.name
    ensures s.current.None? ==> name == ""
  {
    match s.current
    case Some(t) => t.name
    case None => ""
  }

  /** `getTrips`. */
  function GetTrips(s: State): seq<Trip> {
    s.allTrips
  }

  /**
   * `getNewTrip`: an unsaved blank trip whose base and local currencies are
   * both the head of the supplied currency list.
   */
  function GetNewTrip(currencies: seq<SlimCurrency>, freshId: string, now: string): (t: Trip)
    ensures t.id == freshId && t.createdAt == now
    ensures t.name == "" && t.expenses == []
    ensures t.currenciesList == currencies
    ensures t.baseCurrency == t.localCurrency
    ensures t.baseCurrency.Some? <==> |currencies| > 0
    ensures t.baseCurrency.Some? ==> t.baseCurrency.value == currencies[0]
  {
    var head := if |currencies| > 0 then Some(currencies[0]) else None;
    Trip(freshId, "", head, head, currencies, [], now)
  }

  /**
   * `saveCurrentTrip`: replace the first trip with the same id, or append,
   * then make the trip current.
   */
  function SaveCurrentTrip(s: State, t: Trip): (r: State)
    ensures r.current == Some(t)
    ensures t in r.allTrips
    ensures !FreshId(s.allTrips, t.id) ==>
              |r.allTrips| == |s.allTrips|
              && exists i :: 0 <= i < |s.allTrips| && s.allTrips[i].id == t.id
                             && (forall j :: 0 <= j < i ==> s.allTrips[j].id != t.id)
                             && r.allTrips == s.allTrips[i := t]
    ensures FreshId(s.allTrips, t.id) ==> r.allTrips == s.allTrips + [t]
  {
    match FindTripIndex(s.allTrips, t.id)
    case Some(i) =>
      var ts := s.allTrips[i := t];
      assert ts[i] == t;
      State(ts, Some(t))
    case None => State(s.allTrips + [t], Some(t))
  }

  /** `filter(trip => !tripsList.includes(trip.id))`. */
  function KeepTrips(ts: seq<Trip>, ids: seq<string>): (r: seq<Trip>)
    ensures forall t :: t in r <==> t in ts && t.id !in ids
    ensures |r| <= |ts|
  {
    if |ts| == 0 then []
    else if ts[0].id !in ids then [ts[0]] + KeepTrips(ts[1..], ids)
    else KeepTrips(ts[1..], ids)
  }

  /**
   * `removeFromTrips`: drop every trip whose id is listed; clear the current
   * trip only when no trip is left.
   */
  function RemoveFromTrips(s: State, ids: seq<string>): (r: State)
    ensures r.allTrips == KeepTrips(s.allTrips, ids)
    ensures forall t :: t in r.allTrips <==> t in s.allTrips && t.id !in ids
    ensures |r.allTrips| == 0 ==> r.current.None?
    ensures |r.allTrips| > 0 ==> r.current == s.current
  {
    var kept := KeepTrips(s.allTrips, ids);
    State(kept, if |kept| == 0 then None else s.current)
  }

  /** The expenses `saveTrip` writes on an edited trip: `currentTrip?.expenses || []`. */
  function CurrentExpenses(s: State): seq<Expense> {
    match s.current
    case Some(c) => c.expenses
    case None => []
  }

  /**
   * `saveTrip`: with a non-empty id found in the collection, overwrite that
   * trip's name and currencies, give it the current trip's expenses, write
   * the collection and save it as current; otherwise build a new trip with
   * `freshId` and `now`, append it, write the collection and save it as current.
   */
  function SaveTrip(s: State, tripId: string, name: string, base: SlimCurrency, local: SlimCurrency,
                    currencies: seq<SlimCurrency>, freshId: string, now: string): (r: State)
    ensures r.current.Some? && r.current.value in r.allTrips
    ensures r.current.value.name == name
    ensures r.current.value.baseCurrency == Some(base) && r.current.value.localCurrency == Some(local)
    ensures r.current.value.currenciesList == currencies
  {
    var found := if tripId != "" then FindTripIndex(s.allTrips, tripId) else None;
    match found
    case Some(i) =>
      var edited := s.allTrips[i].(name := name, baseCurrency := Some(base), localCurrency := Some(local),
                                   currenciesList := currencies, expenses := CurrentExpenses(s));
      SaveCurrentTrip(State(s.allTrips[i := edited], s.current), edited)
    case None =>
      var created := Trip(freshId, name, Some(base), Some(local), currencies, [], now);
      SaveCurrentTrip(State(s.allTrips + [created], s.current), created)
  }

  /** The first index holding `id` is the one `findIndex` reports. */
  lemma FindTripIndexIsFirst(ts: seq<Trip>, id: string, i: nat)
    requires i < |ts| && ts[i].id == id
    requires forall j :: 0 <= j < i ==> ts[j].id != id
    ensures FindTripIndex(ts, id) == Some(i)
  {
  }

  /** Saving a trip keeps the collection's ids pairwise distinct. */
  lemma SaveCurrentTripPreservesUniqueIds(s: State, t: Trip)
    requires UniqueIds(s.allTrips)
    ensures UniqueIds(SaveCurrentTrip(s, t).allTrips)
    ensures Consistent(SaveCurrentTrip(s, t))
  {
    var r := SaveCurrentTrip(s, t);
    match FindTripIndex(s.allTrips, t.id)
    case Some(i) =>
      assert r.allTrips == s.allTrips[i := t];
      forall a, b | 0 <= a < b < |r.allTrips|
        ensures r.allTrips[a].id != r.allTrips[b].id
      {
        assert r.allTrips[a].id == s.allTrips[a].id;
        assert r.allTrips[b].id == s.allTrips[b].id;
      }
    case None =>
      assert r.allTrips == s.allTrips + [t];
  }

  /** The trip filter distributes over concatenation, so it keeps the original order. */
  lemma {:induction false} KeepTripsConcat(a: seq<Trip>, b: seq<Trip>, ids: seq<string>)
    ensures KeepTrips(a + b, ids) == KeepTrips(a, ids) + KeepTrips(b, ids)
    decreases |a|
  {
    if |a| == 0 {
      assert a + b == b;
    } else {
      assert (a + b)[0] == a[0];
      assert (a + b)[1..] == a[1..] + b;
      KeepTripsConcat(a[1..], b, ids);
    }
  }

  /** When no stored trip carries a listed id, the filter keeps the whole collection. */
  lemma {:induction false} KeepTripsIdentityWhenNoneListed(ts: seq<Trip>, ids: seq<string>)
    requires forall i :: 0 <= i < |ts| ==> ts[i].id !in ids
    ensures KeepTrips(ts, ids) == ts
    decreases |ts|
  {
    if |ts| > 0 {
      KeepTripsIdentityWhenNoneListed(ts[1..], ids);
      assert [ts[0]] + ts[1..] == ts;
    }
  }

  /** Removing trips keeps the collection's ids pairwise distinct. */
  lemma {:induction false} KeepTripsPreservesUniqueIds(ts: seq<Trip>, ids: seq<string>)
    requires UniqueIds(ts)
    ensures UniqueIds(KeepTrips(ts, ids))
    decreases |ts|
  {
    if |ts| > 0 {
      var tail := ts[1..];
      assert UniqueIds(tail) by {
        forall a, b | 0 <= a < b < |tail| ensures tail[a].id != tail[b].id {
          assert tail[a] == ts[a + 1] && tail[b] == ts[b + 1];
        }
      }
      KeepTripsPreservesUniqueIds(tail, ids);
      if ts[0].id !in ids {
        var rest := KeepTrips(tail, ids);
        var r := [ts[0]] + rest;
        forall a, b | 0 <= a < b < |r| ensures r[a].id != r[b].id {
          if a == 0 {
            assert r[b] == rest[b - 1] && r[b] in tail;
            var k :| 0 <= k < |tail| && tail[k] == r[b];
            assert ts[k + 1] == r[b];
          } else {
            assert r[a] == rest[a - 1] && r[b] == rest[b - 1];
          }
        }
      }
    }
  }

  /**
   * `removeFromTrips` keeps the survivors in their original order: removing
   * from a concatenation is removing from each part and concatenating.
   */
  lemma RemoveFromTripsKeepsOrder(s: State, ids: seq<string>, a: seq<Trip>, b: seq<Trip>)
    requires s.allTrips == a + b
    ensures RemoveFromTrips(s, ids).allTrips
              == RemoveFromTrips(State(a, s.current), ids).allTrips + RemoveFromTrips(State(b, s.current), ids).allTrips
  {
    KeepTripsConcat(a, b, ids);
  }

  /** `removeFromTrips` keeps ids pairwise distinct. */
  lemma RemoveFromTripsPreservesUniqueIds(s: State, ids: seq<string>)
    requires UniqueIds(s.allTrips)
    ensures UniqueIds(RemoveFromTrips(s, ids).allTrips)
  {
    KeepTripsPreservesUniqueIds(s.allTrips, ids);
  }

  /**
   * Removing the current trip while other trips remain leaves the current
   * trip in place although no stored trip carries its id any more.
   */
  lemma RemovalCanLeaveCurrentDangling(s: State, ids: seq<string>)
    requires s.current.Some? && s.current.value.id in ids
    requires exists i :: 0 <= i < |s.allTrips| && s.allTrips[i].id !in ids
    ensures RemoveFromTrips(s, ids).current == s.current
    ensures forall t :: t in RemoveFromTrips(s, ids).allTrips ==> t.id != s.current.value.id
    ensures !Consistent(RemoveFromTrips(s, ids))
  {
    var i :| 0 <= i < |s.allTrips| && s.allTrips[i].id !in ids;
    assert s.allTrips[i] in RemoveFromTrips(s, ids).allTrips;
  }

  /**
   * Editing a stored trip: the trip keeps its position, id and creation
   * time, takes the new name and currencies, and receives the expenses of
   * whichever trip is current (none if there is no current trip); all
   * other trips are untouched and the edited trip becomes current.
   */
  lemma SaveTripUpdatesInPlace(s: State, tripId: string, name: string, base: SlimCurrency, local: SlimCurrency,
                               currencies: seq<SlimCurrency>, freshId: string, now: string, i: nat)
    requires tripId != ""
    requires i < |s.allTrips| && s.allTrips[i].id == tripId
    requires forall j :: 0 <= j < i ==> s.allTrips[j].id != tripId
    ensures |SaveTrip(s, tripId, name, base, local, currencies, freshId, now).allTrips| == |s.allTrips|
    ensures forall j :: 0 <= j < |s.allTrips| && j != i ==>
              SaveTrip(s, tripId, name, base, local, currencies, freshId, now).allTrips[j] == s.allTrips[j]
    ensures var t := SaveTrip(s, tripId, name, base, local, currencies, freshId, now).allTrips[i];
              && t.id == tripId && t.createdAt == s.allTrips[i].createdAt
              && t.name == name && t.baseCurrency == Some(base) && t.localCurrency == Some(local)
              && t.currenciesList == currencies
              && (s.current.Some? ==> t.expenses == s.current.value.expenses)
              && (s.current.None? ==> t.expenses == [])
    ensures var r := SaveTrip(s, tripId, name, base, local, currencies, freshId, now);
              r.current == Some(r.allTrips[i])
  {
    FindTripIndexIsFirst(s.allTrips, tripId, i);
    var edited := s.allTrips[i].(name := name, baseCurrency := Some(base), localCurrency := Some(local),
                                 currenciesList := currencies, expenses := CurrentExpenses(s));
    var written := s.allTrips[i := edited];
    FindTripIndexIsFirst(written, tripId, i);
    assert SaveTrip(s, tripId, name, base, local, currencies, freshId, now) == State(written[i := edited], Some(edited));
    assert written[i := edited] == written;
  }

  /**
   * Creating a trip (empty or unknown id, fresh new id): exactly one trip
   * with no expenses is appended, existing trips are unchanged, and the new
   * trip becomes current.
   */
  lemma SaveTripAppendsNewTrip(s: State, tripId: string, name: string, base: SlimCurrency, local: SlimCurrency,
                               currencies: seq<SlimCurrency>, freshId: string, now: string)
    requires tripId == "" || FreshId(s.allTrips, tripId)
    requires FreshId(s.allTrips, freshId)
    ensures var r := SaveTrip(s, tripId, name, base, local, currencies, freshId, now);
              && |r.allTrips| == |s.allTrips| + 1
              && r.allTrips[..|s.allTrips|] == s.allTrips
              && r.allTrips[|s.allTrips|] == Trip(freshId, name, Some(base), Some(local), currencies, [], now)
              && r.current == Some(r.allTrips[|s.allTrips|])
  {
    var created := Trip(freshId, name, Some(base), Some(local), currencies, [], now);
    var written := s.allTrips + [created];
    FindTripIndexIsFirst(written, freshId, |s.allTrips|);
    assert written[|s.allTrips| := created] == written;
    assert written[..|s.allTrips|] == s.allTrips;
  }

  /** `saveTrip` keeps ids pairwise distinct when the generated id is fresh. */
  lemma SaveTripPreservesUniqueIds(s: State, tripId: string, name: string, base: SlimCurrency, local: SlimCurrency,
                                   currencies: seq<SlimCurrency>, freshId: string, now: string)
    requires UniqueIds(s.allTrips)
    requires FreshId(s.allTrips, freshId)
    ensures UniqueIds(SaveTrip(s, tripId, name, base, local, currencies, freshId, now).allTrips)
  {
    var r := SaveTrip(s, tripId, name, base, local, currencies, freshId, now);
    var found := if tripId != "" then FindTripIndex(s.allTrips, tripId) else None;
    match found
    case Some(i) =>
      SaveTripUpdatesInPlace(s, tripId, name, base, local, currencies, freshId, now, i);
      forall a, b | 0 <= a < b < |r.allTrips| ensures r.allTrips[a].id != r.allTrips[b].id {
        assert r.allTrips[a].id == s.allTrips[a].id && r.allTrips[b].id == s.allTrips[b].id;
      }
    case None =>
      SaveTripAppendsNewTrip(s, tripId, name, base, local, currencies, freshId, now);
      assert r.allTrips == s.allTrips + [r.allTrips[|s.allTrips|]];
  }

  /** What the readers return after `saveCurrentTrip`: the saved trip, stored and current. */
  lemma ReadBackAfterSaveCurrentTrip(s: State, t: Trip)
    ensures GetCurrentTrip(SaveCurrentTrip(s, t)) == Some(t)
    ensures t in GetTrips(SaveCurrentTrip(s, t))
    ensures GetCurrentTripName(SaveCurrentTrip(s, t)) == t.name
  {
  }

  /** What the readers return after `saveTrip`: a current trip with the given name, also in the collection. */
  lemma ReadBackAfterSaveTrip(s: State, tripId: string, name: string, base: SlimCurrency, local: SlimCurrency,
                              currencies: seq<SlimCurrency>, freshId: string, now: string)
    ensures var r := SaveTrip(s, tripId, name, base, local, currencies, freshId, now);
              && GetCurrentTrip(r).Some?
              && GetCurrentTrip(r).value in GetTrips(r)
              && GetCurrentTripName(r) == name
  {
  }

  /** After removing every stored id, both readers report an empty store. */
  lemma ReadBackAfterRemovingAll(s: State, ids: seq<string>)
    requires forall i :: 0 <= i < |s.allTrips| ==> s.allTrips[i].id in ids
    ensures GetTrips(RemoveFromTrips(s, ids)) == []
    ensures GetCurrentTrip(RemoveFromTrips(s, ids)) == None
    ensures GetCurrentTripName(RemoveFromTrips(s, ids)) == ""
  {
    KeepTripsAllListed(s.allTrips, ids);
  }

  /** When every stored id is listed, the filter keeps nothing. */
  lemma {:induction false} KeepTripsAllListed(ts: seq<Trip>, ids: seq<string>)
    requires forall i :: 0 <= i < |ts| ==> ts[i].id in ids
    ensures KeepTrips(ts, ids) == []
    decreases |ts|
  {
    if |ts| > 0 {
      assert ts[0].id in ids;
      KeepTripsAllListed(ts[1..], ids);
    }
  }
}
