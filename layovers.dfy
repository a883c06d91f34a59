/**
 * layovers.py: the popularity score of itinerary details and the "could
 * plausibly meet" matching of stored layover intentions. The SQL queries
 * become functions over a sequence of `layovers` rows; the candidate rows
 * of the matching query are an input.
 */
module Layovers {
  import opened Wrappers
  import opened Models

  /** Minimum gap, in minutes, that the window test asks for. */
  const MIN_GAP: int := 30

  // ------------------------------------------------------------------
  // Popularity
  // ------------------------------------------------------------------

  /** `COUNT(*)` of the stored intentions at `code`. */
  function CountAt(store: seq<LayoverDb>, code: string): nat
  {
    if store == [] then 0
    else CountAt(store[..|store| - 1], code) + (if store[|store| - 1].iataCode == code then 1 else 0)
  }

  /** The grouped count query, turned into the `popularity` dict: one entry
    * per queried code that has at least one stored intention. */
  function GroupedCounts(store: seq<LayoverDb>, codes: seq<string>): map<string, nat>
  {
    map c | c in codes && CountAt(store, c) > 0 :: CountAt(store, c)
  }

  /** The destination display codes of a leg's layovers, in order. */
  function LayoverCodes(ls: seq<Layover>): seq<string>
  {
    seq(|ls|, k requires 0 <= k < |ls| => ls[k].destination.displayCode)
  }

  function LegCodes(leg: LegDetail): seq<string>
  {
    match leg.layovers
    case None => []
    case Some(ls) => LayoverCodes(ls)
  }

  function LegsCodes(legs: seq<LegDetail>): seq<string>
  {
    if legs == [] then [] else LegsCodes(legs[..|legs| - 1]) + LegCodes(legs[|legs| - 1])
  }

  /** The codes collected for one flight, its `iata_flights` entry. */
  function FlightCodes(legs: Option<seq<LegDetail>>): seq<string>
  {
    match legs
    case None => []
    case Some(ls) => LegsCodes(ls)
  }

  /** Sum over `codes`, each occurrence counted, of the stored-intention count. */
  function CodesScore(codes: seq<string>, store: seq<LayoverDb>): nat
  {
    if codes == [] then 0 else CodesScore(codes[..|codes| - 1], store) + CountAt(store, codes[|codes| - 1])
  }

  /** The popularity score a flight-detail object is owed. */
  function Popularity(d: FlightDetail, store: seq<LayoverDb>): nat
  {
    CodesScore(FlightCodes(d.legs), store)
  }

  function Flatten(ss: seq<seq<string>>): seq<string>
  {
    if ss == [] then [] else Flatten(ss[..|ss| - 1]) + ss[|ss| - 1]
  }

  /** How many of the first `n` responses hold the data object `d`. */
  ghost function Hits(flights: seq<FlightDetailResponse>, n: nat, d: FlightDetail?): nat
    requires n <= |flights|
  {
    if n == 0 then 0 else Hits(flights, n - 1, d) + (if flights[n - 1].data == d then 1 else 0)
  }

  /** No other response in the list holds the same data object as response `i`. */
  ghost predicate Unshared(flights: seq<FlightDetailResponse>, i: int)
    requires 0 <= i < |flights|
  {
    forall k :: 0 <= k < |flights| && k != i ==> flights[k].data != flights[i].data
  }

  /** The innermost collection loop: append the destination code of every
    * layover of one leg to both `iatas` and the flight's own list. */
  method AppendLayoverCodes(iatas: seq<string>, mine: seq<string>, lays: seq<Layover>)
    returns (iatas': seq<string>, mine': seq<string>)
    ensures iatas' == iatas + LayoverCodes(lays)
    ensures mine' == mine + LayoverCodes(lays)
  {
    iatas', mine' := iatas, mine;
    for k := 0 to |lays|
      invariant iatas' == iatas + LayoverCodes(lays[..k])
      invariant mine' == mine + LayoverCodes(lays[..k])
    {
      var code := lays[k].destination.displayCode;
      iatas' := iatas' + [code];
      mine' := mine' + [code];
      assert LayoverCodes(lays[..k + 1]) == LayoverCodes(lays[..k]) + [code];
    }
    assert lays[..|lays|] == lays;
  }

  /** The loop over one flight's legs: legs without a layover list are
    * skipped. */
  method AppendLegsCodes(iatas: seq<string>, mine: seq<string>, ls: seq<LegDetail>)
    returns (iatas': seq<string>, mine': seq<string>)
    ensures iatas' == iatas + LegsCodes(ls)
    ensures mine' == mine + LegsCodes(ls)
  {
    iatas', mine' := iatas, mine;
    for j := 0 to |ls|
      invariant iatas' == iatas + LegsCodes(ls[..j])
      invariant mine' == mine + LegsCodes(ls[..j])
    {
      var leg := ls[j];
      assert ls[..j + 1][..j] == ls[..j] && ls[..j + 1][j] == leg;
      assert LegsCodes(ls[..j + 1]) == LegsCodes(ls[..j]) + LegCodes(leg);
      if leg.layovers.Some? {
        AppendAssoc(iatas, LegsCodes(ls[..j]), LegCodes(leg));
        AppendAssoc(mine, LegsCodes(ls[..j]), LegCodes(leg));
        iatas', mine' := AppendLayoverCodes(iatas', mine', leg.layovers.value);
      }
    }
    assert ls[..|ls|] == ls;
  }

  /** The first two loops of `set_popularity_for_flights`: the codes of every
    * flight, and all of them together in the order they were met. Flights
    * without detail legs are skipped. */
  method CollectCodes(flights: seq<FlightDetailResponse>) returns (iatas: seq<string>, iataFlights: seq<seq<string>>)
    requires forall i :: 0 <= i < |flights| ==> flights[i].data != null
    ensures |iataFlights| == |flights|
    ensures forall i :: 0 <= i < |flights| ==> iataFlights[i] == FlightCodes(flights[i].data.legs)
    ensures iatas == Flatten(iataFlights)
  {
    iatas := [];
    iataFlights := seq(|flights|, _ => []);
    for i := 0 to |flights|
      invariant |iataFlights| == |flights|
      invariant forall j :: 0 <= j < i ==> iataFlights[j] == FlightCodes(flights[j].data.legs)
      invariant forall j :: i <= j < |flights| ==> iataFlights[j] == []
      invariant iatas == Flatten(iataFlights[..i])
    {
      ghost var before := iataFlights;
      iatas, iataFlights := CollectFlight(iatas, iataFlights, i, flights[i].data.legs);
      assert iataFlights[..i] == before[..i];
      FlattenStep(iataFlights, i);
    }
    assert iataFlights[..|flights|] == iataFlights;
  }

  /** One round of the collection loop: the codes of flight `i` go both to
    * `iatas` and to its own, still empty, list. */
  method CollectFlight(iatas: seq<string>, iataFlights: seq<seq<string>>, i: int, legs: Option<seq<LegDetail>>)
    returns (iatas': seq<string>, iataFlights': seq<seq<string>>)
    requires 0 <= i < |iataFlights| && iataFlights[i] == []
    ensures iatas' == iatas + FlightCodes(legs)
    ensures iataFlights' == iataFlights[i := FlightCodes(legs)]
  {
    iatas', iataFlights' := iatas, iataFlights;
    if legs.Some? {
      var mine;
      iatas', mine := AppendLegsCodes(iatas, iataFlights[i], legs.value);
      assert mine == LegsCodes(legs.value);
      iataFlights' := iataFlights[i := mine];
    } else {
      assert iatas + [] == iatas && iataFlights[i := []] == iataFlights;
    }
  }

  lemma AppendAssoc<T>(a: seq<T>, b: seq<T>, c: seq<T>)
    ensures a + b + c == a + (b + c)
  {
  }

  lemma FlattenStep(ss: seq<seq<string>>, i: int)
    requires 0 <= i < |ss|
    ensures Flatten(ss[..i + 1]) == Flatten(ss[..i]) + ss[i]
  {
    assert ss[..i + 1][..i] == ss[..i];
  }

  /** The first loop of `set_popularity_for_flights`: every `pop_score` is 0. */
  method ResetScores(flights: seq<FlightDetailResponse>)
    requires forall i :: 0 <= i < |flights| ==> flights[i].data != null
    modifies set i | 0 <= i < |flights| :: flights[i].data
    ensures forall i :: 0 <= i < |flights| ==> flights[i].data.popScore == Some(0)
  {
    for i := 0 to |flights|
      invariant forall j :: 0 <= j < i ==> flights[j].data.popScore == Some(0)
    {
      flights[i].data.popScore := Some(0);
    }
  }

  /** The innermost loop of the last pass: add the `popularity` entry of each
    * code, where a code missing from the dict adds nothing. */
  method AddCodeScores(d: FlightDetail, codes: seq<string>, popularity: map<string, nat>, ghost store: seq<LayoverDb>)
    requires d.popScore.Some?
    requires forall c :: c in codes ==> (if c in popularity then popularity[c] else 0) == CountAt(store, c)
    modifies d
    ensures d.popScore == Some(old(d.popScore.value) + CodesScore(codes, store))
  {
    for k := 0 to |codes|
      invariant d.popScore == Some(old(d.popScore.value) + CodesScore(codes[..k], store))
    {
      assert codes[..k + 1][..k] == codes[..k];
      if codes[k] in popularity {
        d.popScore := Some(d.popScore.value + popularity[codes[k]]);
      }
    }
    assert codes[..|codes|] == codes;
  }

  /** What the first `n` responses have credited to data object `d`: its
    * popularity once for every one of them that holds `d`. */
  ghost function Credit(flights: seq<FlightDetailResponse>, n: nat, d: FlightDetail, p: nat): nat
    requires n <= |flights|
  {
    if n == 0 then 0
    else Credit(flights, n - 1, d, p) + (if flights[n - 1].data == d then p else 0)
  }

  /** The credit of `d` with `p = Popularity(d, store)`. */
  ghost function Owed(flights: seq<FlightDetailResponse>, n: nat, d: FlightDetail, store: seq<LayoverDb>): nat
    requires n <= |flights|
  {
    Credit(flights, n, d, Popularity(d, store))
  }

  lemma CreditStep(flights: seq<FlightDetailResponse>, i: nat, d: FlightDetail, store: seq<LayoverDb>)
    requires i < |flights|
    ensures Owed(flights, i + 1, d, store) ==
      Owed(flights, i, d, store) + (if flights[i].data == d then Popularity(d, store) else 0)
  {
  }

  /** The credit is `p` times the number of responses holding `d`. */
  lemma {:induction false} CreditIsMultiple(flights: seq<FlightDetailResponse>, n: nat, d: FlightDetail, p: nat)
    requires n <= |flights|
    ensures Credit(flights, n, d, p) == Hits(flights, n, d) * p
  {
    if n > 0 {
      CreditIsMultiple(flights, n - 1, d, p);
      var h := Hits(flights, n - 1, d);
      assert (h + 1) * p == h * p + p;
    }
  }

  /** Every code collected for flight `i` was queried, so the dict lookup of
    * the last pass gives its stored-intention count. */
  lemma DictAgreesWithCounts(store: seq<LayoverDb>, iatas: seq<string>, iataFlights: seq<seq<string>>, i: int)
    requires 0 <= i < |iataFlights| && iatas == Flatten(iataFlights)
    ensures forall c :: c in iataFlights[i] ==>
      (if c in GroupedCounts(store, iatas) then GroupedCounts(store, iatas)[c] else 0) == CountAt(store, c)
  {
    forall c | c in iataFlights[i]
      ensures (if c in GroupedCounts(store, iatas) then GroupedCounts(store, iatas)[c] else 0) == CountAt(store, c)
    {
      var k :| 0 <= k < |iataFlights[i]| && iataFlights[i][k] == c;
      FlattenContains(iataFlights, i, k);
      PopularityLookup(store, iatas, c);
    }
  }

  /** One round of the last pass: response `i` adds the popularity of its
    * codes to its data object, so that object's credit now counts response
    * `i` too; every other object is untouched. */
  method CreditOne(flights: seq<FlightDetailResponse>, i: int, codes: seq<string>, popularity: map<string, nat>, ghost store: seq<LayoverDb>)
    requires 0 <= i < |flights|
    requires forall j :: 0 <= j < |flights| ==> flights[j].data != null
    requires codes == FlightCodes(flights[i].data.legs)
    requires forall c :: c in codes ==> (if c in popularity then popularity[c] else 0) == CountAt(store, c)
    requires forall e :: e in Datas(flights) ==> e.popScore == Some(Owed(flights, i, e, store))
    modifies flights[i].data
    ensures forall e :: e in Datas(flights) ==> e.popScore == Some(Owed(flights, i + 1, e, store))
  {
    var d := flights[i].data;
    assert d in Datas(flights);
    ghost var before := d.popScore.value;
    OwedAfter(flights, i, codes, store, before);
    AddCodeScores(d, codes, popularity, store);
    forall e | e in Datas(flights)
      ensures e.popScore == Some(Owed(flights, i + 1, e, store))
    {
      if e != d {
        OwedUnchanged(flights, i, e, store);
      }
    }
  }

  /** The data objects of the responses. */
  ghost function Datas(flights: seq<FlightDetailResponse>): set<FlightDetail>
    requires forall j :: 0 <= j < |flights| ==> flights[j].data != null
  {
    set j | 0 <= j < |flights| :: flights[j].data
  }

  /** Response `i` adds the popularity of its codes to the credit its data
    * object had. */
  lemma OwedAfter(flights: seq<FlightDetailResponse>, i: nat, codes: seq<string>, store: seq<LayoverDb>, before: nat)
    requires i < |flights| && flights[i].data != null
    requires codes == FlightCodes(flights[i].data.legs)
    requires before == Owed(flights, i, flights[i].data, store)
    ensures before + CodesScore(codes, store) == Owed(flights, i + 1, flights[i].data, store)
  {
    CreditStep(flights, i, flights[i].data, store);
  }

  /** Response `i` adds nothing to the credit of a data object it does not hold. */
  lemma OwedUnchanged(flights: seq<FlightDetailResponse>, i: nat, e: FlightDetail, store: seq<LayoverDb>)
    requires i < |flights| && flights[i].data != e
    ensures Owed(flights, i + 1, e, store) == Owed(flights, i, e, store)
  {
    CreditStep(flights, i, e, store);
  }

  /** `set_popularity_for_flights`: every `pop_score` is reset to 0, then each
    * response adds, for every code it passes through, the number of stored
    * intentions at that code. A data object held by several responses is
    * credited once per response that holds it; one held by a single response
    * ends with exactly its own popularity. Nothing but `pop_score` is written. */
  method SetPopularityForFlights(flights: seq<FlightDetailResponse>, store: seq<LayoverDb>)
    requires forall i :: 0 <= i < |flights| ==> flights[i].data != null
    modifies set i | 0 <= i < |flights| :: flights[i].data
    ensures forall i :: 0 <= i < |flights| ==>
      flights[i].data.popScore == Some(Hits(flights, |flights|, flights[i].data) * Popularity(flights[i].data, store))
    ensures forall i :: 0 <= i < |flights| && Unshared(flights, i) ==>
      flights[i].data.popScore == Some(Popularity(flights[i].data, store))
  {
    ResetScores(flights);
    var iatas, iataFlights := CollectCodes(flights);
    var popularity := GroupedCounts(store, iatas);

    for i := 0 to |flights|
      invariant forall e :: e in Datas(flights) ==> e.popScore == Some(Owed(flights, i, e, store))
    {
      DictAgreesWithCounts(store, iatas, iataFlights, i);
      CreditOne(flights, i, iataFlights[i], popularity, store);
    }
    FinalCredits(flights, store);
    forall j | 0 <= j < |flights|
      ensures flights[j].data.popScore == Some(Owed(flights, |flights|, flights[j].data, store))
    {
      assert flights[j].data in Datas(flights);
    }
  }

  /** After the last response, each data object's credit is its popularity
    * times its multiplicity in the list, which is 1 for an unshared one. */
  lemma FinalCredits(flights: seq<FlightDetailResponse>, store: seq<LayoverDb>)
    requires forall i :: 0 <= i < |flights| ==> flights[i].data != null
    ensures forall j :: 0 <= j < |flights| ==>
      Owed(flights, |flights|, flights[j].data, store)
        == Hits(flights, |flights|, flights[j].data) * Popularity(flights[j].data, store)
    ensures forall j :: 0 <= j < |flights| && Unshared(flights, j) ==> Hits(flights, |flights|, flights[j].data) == 1
  {
    forall j | 0 <= j < |flights|
      ensures Owed(flights, |flights|, flights[j].data, store)
        == Hits(flights, |flights|, flights[j].data) * Popularity(flights[j].data, store)
      ensures Unshared(flights, j) ==> Hits(flights, |flights|, flights[j].data) == 1
    {
      CreditIsMultiple(flights, |flights|, flights[j].data, Popularity(flights[j].data, store));
      if Unshared(flights, j) {
        HitsOfUnshared(flights, |flights|, j);
      }
    }
  }

  /** Response `i` -- and no other -- contributes to the multiplicity of its
    * own data object when that object is unshared. */
  lemma {:induction false} HitsOfUnshared(flights: seq<FlightDetailResponse>, n: nat, i: int)
    requires n <= |flights| && 0 <= i < |flights| && Unshared(flights, i)
    ensures Hits(flights, n, flights[i].data) == if i < n then 1 else 0
  {
    if n > 0 {
      HitsOfUnshared(flights, n - 1, i);
    }
  }

  lemma {:induction false} FlattenContains(ss: seq<seq<string>>, i: int, k: int)
    requires 0 <= i < |ss| && 0 <= k < |ss[i]|
    ensures ss[i][k] in Flatten(ss)
  {
    var n := |ss| - 1;
    if i < n {
      FlattenContains(ss[..n], i, k);
    }
  }

  /** Looking a queried code up in the `popularity` dict, with 0 for a code
    * that has no row, gives its stored-intention count. */
  lemma PopularityLookup(store: seq<LayoverDb>, codes: seq<string>, c: string)
    requires c in codes
    ensures (if c in GroupedCounts(store, codes) then GroupedCounts(store, codes)[c] else 0) == CountAt(store, c)
  {
  }

  /** A flight with no detail legs, or whose legs carry no layover lists,
    * collects no codes and so scores 0. */
  lemma {:induction false} NoLayoversScoreZero(legs: Option<seq<LegDetail>>, store: seq<LayoverDb>)
    requires legs.Some? ==> forall j :: 0 <= j < |legs.value| ==> legs.value[j].layovers.None?
    ensures FlightCodes(legs) == []
    ensures CodesScore(FlightCodes(legs), store) == 0
  {
    if legs.Some? {
      NoLayoverListsNoCodes(legs.value);
    }
  }

  lemma {:induction false} NoLayoverListsNoCodes(ls: seq<LegDetail>)
    requires forall j :: 0 <= j < |ls| ==> ls[j].layovers.None?
    ensures LegsCodes(ls) == []
  {
    if ls != [] {
      NoLayoverListsNoCodes(ls[..|ls| - 1]);
    }
  }

  /** Codes are collected leg by leg: the codes of two runs of legs are the
    * codes of the first followed by those of the second. */
  lemma {:induction false} LegsCodesConcat(a: seq<LegDetail>, b: seq<LegDetail>)
    ensures LegsCodes(a + b) == LegsCodes(a) + LegsCodes(b)
  {
    if b == [] {
      assert a + b == a;
    } else {
      var b' := b[..|b| - 1];
      var last := b[|b| - 1];
      assert (a + b)[..|a + b| - 1] == a + b';
      assert (a + b)[|a + b| - 1] == last;
      assert LegsCodes(a + b) == LegsCodes(a + b') + LegCodes(last);
      LegsCodesConcat(a, b');
      assert LegsCodes(b) == LegsCodes(b') + LegCodes(last);
      assert LegsCodes(a) + LegsCodes(b') + LegCodes(last) == LegsCodes(a) + (LegsCodes(b') + LegCodes(last));
    }
  }

  /** Within one leg exactly the layovers' destination codes are collected,
    * one per layover, in layover order. */
  lemma OneLegCodes(leg: LegDetail)
    requires leg.layovers.Some?
    ensures |LegsCodes([leg])| == |leg.layovers.value|
    ensures forall k :: 0 <= k < |leg.layovers.value| ==>
      LegsCodes([leg])[k] == leg.layovers.value[k].destination.displayCode
  {
    assert [leg][..0] == [];
  }

  /** The score is additive over the collected codes. */
  lemma {:induction false} CodesScoreConcat(a: seq<string>, b: seq<string>, store: seq<LayoverDb>)
    ensures CodesScore(a + b, store) == CodesScore(a, store) + CodesScore(b, store)
  {
    if b == [] {
      assert a + b == a;
    } else {
      var b' := b[..|b| - 1];
      assert (a + b)[..|a + b| - 1] == a + b';
      CodesScoreConcat(a, b', store);
    }
  }

  /** A code with no stored intention adds nothing, wherever it occurs. */
  lemma UnpopularCodeAddsNothing(a: seq<string>, c: string, b: seq<string>, store: seq<LayoverDb>)
    requires CountAt(store, c) == 0
    ensures CodesScore(a + [c] + b, store) == CodesScore(a + b, store)
  {
    CodesScoreConcat(a + [c], b, store);
    CodesScoreConcat(a, [c], store);
    CodesScoreConcat(a, b, store);
    assert [c][..0] == [];
  }

  function Occurrences(codes: seq<string>, c: string): nat
  {
    if codes == [] then 0 else Occurrences(codes[..|codes| - 1], c) + (if codes[|codes| - 1] == c then 1 else 0)
  }

  /** Storing one more intention at `r.iataCode` raises the score of a
    * flight by the number of times it passes through that code: popularity
    * is cumulative, not deduplicated. */
  lemma {:induction false} ScoreGrowsWithIntention(codes: seq<string>, store: seq<LayoverDb>, r: LayoverDb)
    ensures CodesScore(codes, store + [r]) == CodesScore(codes, store) + Occurrences(codes, r.iataCode)
  {
    if codes != [] {
      ScoreGrowsWithIntention(codes[..|codes| - 1], store, r);
      assert (store + [r])[..|store + [r]| - 1] == store;
    }
  }

  // ------------------------------------------------------------------
  // Matching
  // ------------------------------------------------------------------

  /** The caller's own intention at the airport: the first stored row with
    * this user and this code, if any. */
  function OwnIntention(store: seq<LayoverDb>, userId: string, iataCode: string): Option<LayoverDb>
  {
    if store == [] then None
    else if store[0].iataCode == iataCode && store[0].userId == userId then Some(store[0])
    else OwnIntention(store[1..], userId, iataCode)
  }

  /** The own-intention lookup finds a row exactly when one exists, and what
    * it finds is the earliest matching row. */
  lemma {:induction false} OwnIntentionFinds(store: seq<LayoverDb>, userId: string, iataCode: string)
    ensures OwnIntention(store, userId, iataCode).None? <==>
      forall k :: 0 <= k < |store| ==> !(store[k].iataCode == iataCode && store[k].userId == userId)
    ensures OwnIntention(store, userId, iataCode).Some? ==>
      exists k :: 0 <= k < |store| && store[k] == OwnIntention(store, userId, iataCode).value
        && store[k].iataCode == iataCode && store[k].userId == userId
        && forall m :: 0 <= m < k ==> !(store[m].iataCode == iataCode && store[m].userId == userId)
  {
    if store != [] && !(store[0].iataCode == iataCode && store[0].userId == userId) {
      OwnIntentionFinds(store[1..], userId, iataCode);
      if OwnIntention(store, userId, iataCode).Some? {
        var k :| 0 <= k < |store[1..]| && store[1..][k] == OwnIntention(store, userId, iataCode).value
          && store[1..][k].iataCode == iataCode && store[1..][k].userId == userId
          && forall m :: 0 <= m < k ==> !(store[1..][m].iataCode == iataCode && store[1..][m].userId == userId);
        assert store[k + 1] == store[1..][k];
        forall m | 0 <= m < k + 1
          ensures !(store[m].iataCode == iataCode && store[m].userId == userId)
        {
          if m > 0 { assert store[m] == store[1..][m - 1]; }
        }
      } else {
        forall k | 0 <= k < |store|
          ensures !(store[k].iataCode == iataCode && store[k].userId == userId)
        {
          if k > 0 { assert store[k] == store[1..][k - 1]; }
        }
      }
    }
  }

  /** A row of the candidate query: `arrive`, `depart` and the user's columns. */
  datatype CandidateRow = CandidateRow(arrive: int, depart: int, user: UserResponse)

  /** The window test: the other traveller departs at least `MIN_GAP` after
    * `me` arrives, or arrives at least `MIN_GAP` before `me` departs. */
  predicate CouldMeet(me: LayoverDb, arrive: int, depart: int)
  {
    || (depart > me.arrive && depart - me.arrive >= MIN_GAP)
    || (arrive < me.depart && me.depart - arrive >= MIN_GAP)
  }

  /** The test fails exactly when the other window departs less than
    * `MIN_GAP` after `me` arrives and arrives less than `MIN_GAP` before
    * `me` departs: it is not an interval-intersection test. */
  lemma CouldMeetExactly(me: LayoverDb, arrive: int, depart: int)
    ensures !CouldMeet(me, arrive, depart) <==> depart < me.arrive + MIN_GAP && arrive > me.depart - MIN_GAP
    ensures depart >= me.arrive + MIN_GAP ==> CouldMeet(me, arrive, depart)
  {
  }

  /** A window from 12:20 to 14:00 passes against one from 10:00 to 12:00
    * (minutes since midnight), although the two do not overlap. */
  lemma DisjointWindowsMeet()
    ensures CouldMeet(LayoverDb("a", 600, 720, "LAX"), 740, 840)
  {
  }

  /** Against a caller window of at least twice `MIN_GAP`, every window that
    * does not end before it starts passes the test. */
  lemma LongWindowMeetsAll(me: LayoverDb, arrive: int, depart: int)
    requires me.depart - me.arrive >= 2 * MIN_GAP && arrive <= depart
    ensures CouldMeet(me, arrive, depart)
  {
  }

  /** The `times` dict: user id to (arrive, depart); for a user id met in
    * several rows, the last row wins. */
  function Times(rows: seq<CandidateRow>): (times: map<string, (int, int)>)
    ensures forall k :: 0 <= k < |rows| ==> rows[k].user.id in times
  {
    if rows == [] then map[]
    else
      var last := rows[|rows| - 1];
      Times(rows[..|rows| - 1])[last.user.id := (last.arrive, last.depart)]
  }

  function Users(rows: seq<CandidateRow>): seq<UserResponse>
  {
    seq(|rows|, k requires 0 <= k < |rows| => rows[k].user)
  }

  predicate Passes(me: LayoverDb, u: UserResponse, times: map<string, (int, int)>)
    requires u.id in times
  {
    CouldMeet(me, times[u.id].0, times[u.id].1)
  }

  /** The users whose recorded window passes the test, in their order. */
  function Matching(me: LayoverDb, users: seq<UserResponse>, times: map<string, (int, int)>): seq<UserResponse>
    requires forall k :: 0 <= k < |users| ==> users[k].id in times
  {
    if users == [] then []
    else
      var u := users[|users| - 1];
      Matching(me, users[..|users| - 1], times) + (if Passes(me, u, times) then [u] else [])
  }

  /** `get_users_in_layover`: nothing when the caller has no intention at the
    * airport; otherwise the candidate users whose window passes the test
    * against the caller's, in row order. */
  method GetUsersInLayover(userId: string, iataCode: string, store: seq<LayoverDb>, rows: seq<CandidateRow>)
    returns (matching: seq<UserResponse>)
    ensures OwnIntention(store, userId, iataCode).None? ==> matching == []
    ensures OwnIntention(store, userId, iataCode).Some? ==>
      matching == Matching(OwnIntention(store, userId, iataCode).value, Users(rows), Times(rows))
  {
    var row := OwnIntention(store, userId, iataCode);
    if row.None? {
      return [];
    }
    var currUser := row.value;

    // The filter `r[0] != user_id` compares the `arrive` column with the
    // user id; they never coincide, so every row is kept.
    var users := Users(rows);
    var times := BuildTimes(rows);
    matching := SelectMatching(currUser, users, times);
  }

  /** The loop that fills the `times` dict, row by row. */
  method BuildTimes(rows: seq<CandidateRow>) returns (times: map<string, (int, int)>)
    ensures times == Times(rows)
  {
    times := map[];
    for i := 0 to |rows|
      invariant times == Times(rows[..i])
    {
      assert rows[..i + 1][..i] == rows[..i];
      times := times[rows[i].user.id := (rows[i].arrive, rows[i].depart)];
    }
    assert rows[..|rows|] == rows;
  }

  /** The loop that appends each user whose window passes either test. */
  method SelectMatching(currUser: LayoverDb, users: seq<UserResponse>, times: map<string, (int, int)>)
    returns (matching: seq<UserResponse>)
    requires forall k :: 0 <= k < |users| ==> users[k].id in times
    ensures matching == Matching(currUser, users, times)
  {
    matching := [];
    for i := 0 to |users|
      invariant matching == Matching(currUser, users[..i], times)
    {
      var user := users[i];
      var (arrive, depart) := times[user.id];
      assert users[..i + 1][..i] == users[..i];
      if depart > currUser.arrive && depart - currUser.arrive >= MIN_GAP {
        matching := matching + [user];
      } else if arrive < currUser.depart && currUser.depart - arrive >= MIN_GAP {
        matching := matching + [user];
      }
    }
    assert users[..|users|] == users;
  }

  /** `idx` picks `a` out of `b` at strictly increasing positions. */
  ghost predicate Embeds<T>(a: seq<T>, b: seq<T>, idx: seq<int>)
  {
    && |idx| == |a|
    && (forall k :: 0 <= k < |idx| ==> 0 <= idx[k] < |b| && a[k] == b[idx[k]])
    && (forall k, l :: 0 <= k < l < |idx| ==> idx[k] < idx[l])
  }

  /** The matches are a subsequence of the candidate users, and a candidate
    * position is picked exactly when its user passes the window test. */
  lemma {:induction false} MatchingIsSelection(me: LayoverDb, users: seq<UserResponse>, times: map<string, (int, int)>)
    returns (idx: seq<int>)
    requires forall k :: 0 <= k < |users| ==> users[k].id in times
    ensures Embeds(Matching(me, users, times), users, idx)
    ensures forall k :: 0 <= k < |users| ==> (k in idx <==> Passes(me, users[k], times))
  {
    if users == [] {
      idx := [];
    } else {
      var n := |users| - 1;
      var pre := MatchingIsSelection(me, users[..n], times);
      var m := Matching(me, users[..n], times);
      assert Matching(me, users, times) == m + (if Passes(me, users[n], times) then [users[n]] else []);
      assert forall k :: 0 <= k < |pre| ==> pre[k] < n && m[k] == users[pre[k]];
      if Passes(me, users[n], times) {
        idx := pre + [n];
      } else {
        idx := pre;
      }
      forall k | 0 <= k < n
        ensures (k in idx <==> Passes(me, users[k], times))
      {
        assert users[..n][k] == users[k];
      }
    }
  }

  /** When every candidate user appears in one row only (the query groups by
    * user), each user is judged by the window of its own row. */
  lemma {:induction false} TimesOfUniqueRow(rows: seq<CandidateRow>, k: int)
    requires 0 <= k < |rows|
    requires forall m :: 0 <= m < |rows| && m != k ==> rows[m].user.id != rows[k].user.id
    ensures Times(rows)[rows[k].user.id] == (rows[k].arrive, rows[k].depart)
  {
    var n := |rows| - 1;
    if k < n {
      TimesOfUniqueRow(rows[..n], k);
    }
  }
}
