/**
 * flights.py: the layover score of one search-result leg. The great-circle
 * distance (`calculate_distance`, haversine over floats) is a parameter:
 * any function from two coordinates to a real.
 */
module Flights {
  import opened Wrappers
  import opened Models
  import opened Airports

  /** Assumed cruising speed, km/h. */
  const PLANE_SPEED: real := 900.0

  /** `(lat, long)` as passed to `calculate_distance`. */
  datatype Coord = Coord(lat: real, long: real)

  function CoordOf(a: Airport): Coord
  {
    Coord(a.lat, a.long)
  }

  /** The stop sequence `[origin, *stops, destination]`; a leg without a stop
    * list contributes no intermediate stops. */
  function StopSeq(leg: Leg): seq<Option<Stop>>
  {
    [leg.origin] + Intermediate(leg.stops) + [leg.destination]
  }

  function Intermediate(stops: Option<seq<Stop>>): seq<Option<Stop>>
  {
    match stops
    case None => []
    case Some(ss) => seq(|ss|, k requires 0 <= k < |ss| => Some(ss[k]))
  }

  function StopCount(stops: Option<seq<Stop>>): nat
  {
    match stops
    case None => 0
    case Some(ss) => |ss|
  }

  /** Both stops present and both with a display code; other pairs are skipped. */
  predicate ValidPair(a: Option<Stop>, b: Option<Stop>)
  {
    a.Some? && b.Some? && a.value.displayCode.Some? && b.value.displayCode.Some?
  }

  /** The distance of one valid pair, or None when either code is not a known
    * airport: the lookup then raises (see `Airports.GetByIataAsWritten`), and
    * so would reading `.lat` of a missing airport. */
  function PairDistance(a: Option<Stop>, b: Option<Stop>, airports: AirportTable, distance: (Coord, Coord) -> real): Option<real>
    requires ValidPair(a, b)
  {
    var a1 := GetByIata(airports, a.value.displayCode.value);
    var a2 := GetByIata(airports, b.value.displayCode.value);
    if a1.None? || a2.None? then None
    else Some(distance(CoordOf(a1.value), CoordOf(a2.value)))
  }

  /** `flight_distance` after the first `n` pairs, or None if one of them raised. */
  function DistanceUpTo(stops: seq<Option<Stop>>, n: nat, airports: AirportTable, distance: (Coord, Coord) -> real): Option<real>
    requires n < |stops|
  {
    if n == 0 then Some(0.0)
    else
      match DistanceUpTo(stops, n - 1, airports, distance)
      case None => None
      case Some(d) =>
        if !ValidPair(stops[n - 1], stops[n]) then Some(d)
        else
          match PairDistance(stops[n - 1], stops[n], airports, distance)
          case None => None
          case Some(x) => Some(d + x)
  }

  /** The leg's duration from departure to arrival, in seconds. */
  function DurationSeconds(leg: Leg): int
  {
    leg.arrival - leg.departure
  }

  /** The estimated total time less the estimated flight time over the given
    * distance, both as the source computes them. */
  function ScoreFor(leg: Leg, flightDistance: real): real
  {
    (DurationSeconds(leg) as real) / PLANE_SPEED - flightDistance / PLANE_SPEED
  }

  /** The score of a leg as `layover_score` computes it, or None if it raises. */
  function LegScore(leg: Leg, airports: AirportTable, distance: (Coord, Coord) -> real): Option<real>
  {
    var stops := StopSeq(leg);
    match DistanceUpTo(stops, |stops| - 1, airports, distance)
    case None => None
    case Some(d) => Some(ScoreFor(leg, d))
  }

  /** `layover_score`: walk the consecutive stop pairs, adding the distance
    * of each valid pair, then compare the leg's duration with the flight
    * time at `PLANE_SPEED`. */
  method LayoverScore(leg: Leg, airports: AirportTable, distance: (Coord, Coord) -> real) returns (r: Option<real>)
    ensures r == LegScore(leg, airports, distance)
  {
    var flightDistance: real := 0.0;
    var stops := StopSeq(leg);
    var i := 0;
    while i < |stops| - 1
      invariant 0 <= i <= |stops| - 1
      invariant DistanceUpTo(stops, i, airports, distance) == Some(flightDistance)
    {
      var stop1 := stops[i];
      var stop2 := stops[i + 1];
      if ValidPair(stop1, stop2) {
        var stop1Airport := GetByIata(airports, stop1.value.displayCode.value);
        var stop2Airport := GetByIata(airports, stop2.value.displayCode.value);
        if stop1Airport.None? || stop2Airport.None? {
          RaisedStaysRaised(stops, i + 1, |stops| - 1, airports, distance);
          return None;
        }
        flightDistance := flightDistance + distance(CoordOf(stop1Airport.value), CoordOf(stop2Airport.value));
      }
      i := i + 1;
    }
    var estimatedFlightTime := flightDistance / PLANE_SPEED;
    var totalDuration := DurationSeconds(leg) as real;
    var estimatedTotalTime := totalDuration / PLANE_SPEED;
    r := Some(estimatedTotalTime - estimatedFlightTime);
  }

  /** Once a pair has raised, the whole computation has. */
  lemma {:induction false} RaisedStaysRaised(stops: seq<Option<Stop>>, n: nat, m: nat, airports: AirportTable, distance: (Coord, Coord) -> real)
    requires n <= m < |stops|
    requires DistanceUpTo(stops, n, airports, distance).None?
    ensures DistanceUpTo(stops, m, airports, distance).None?
  {
    if n < m {
      RaisedStaysRaised(stops, n, m - 1, airports, distance);
    }
  }

  /** The pair loop visits one pair more than there are intermediate stops,
    * and the sequence starts at the origin and ends at the destination. */
  lemma StopSeqShape(leg: Leg)
    ensures |StopSeq(leg)| - 1 == StopCount(leg.stops) + 1
    ensures StopSeq(leg)[0] == leg.origin && StopSeq(leg)[|StopSeq(leg)| - 1] == leg.destination
    ensures leg.stops.Some? ==> forall k :: 0 <= k < |leg.stops.value| ==> StopSeq(leg)[k + 1] == Some(leg.stops.value[k])
  {
  }

  /** With a non-negative distance function the accumulated distance is
    * non-negative. */
  lemma {:induction false} DistanceNonNegative(stops: seq<Option<Stop>>, n: nat, airports: AirportTable, distance: (Coord, Coord) -> real)
    requires n < |stops|
    requires forall p, q :: distance(p, q) >= 0.0
    ensures DistanceUpTo(stops, n, airports, distance).Some? ==> DistanceUpTo(stops, n, airports, distance).value >= 0.0
  {
    if n > 0 {
      DistanceNonNegative(stops, n - 1, airports, distance);
    }
  }

  /** Pairs with a missing stop or code contribute nothing: if no pair is
    * valid the distance is 0 and nothing raises. */
  lemma {:induction false} NoValidPairNoDistance(stops: seq<Option<Stop>>, n: nat, airports: AirportTable, distance: (Coord, Coord) -> real)
    requires n < |stops|
    requires forall i :: 0 <= i < n ==> !ValidPair(stops[i], stops[i + 1])
    ensures DistanceUpTo(stops, n, airports, distance) == Some(0.0)
  {
    if n > 0 {
      NoValidPairNoDistance(stops, n - 1, airports, distance);
    }
  }

  /** A valid pair whose codes are not both known airports. */
  predicate UnknownPair(stops: seq<Option<Stop>>, i: int, airports: AirportTable)
    requires 0 <= i < |stops| - 1
  {
    ValidPair(stops[i], stops[i + 1])
    && (stops[i].value.displayCode.value !in airports || stops[i + 1].value.displayCode.value !in airports)
  }

  /** The score computation raises exactly when some valid pair names an
    * airport the lookup does not know. */
  lemma {:induction false} RaisesIffUnknownAirport(stops: seq<Option<Stop>>, n: nat, airports: AirportTable, distance: (Coord, Coord) -> real)
    requires n < |stops|
    ensures DistanceUpTo(stops, n, airports, distance).None? <==> exists i :: 0 <= i < n && UnknownPair(stops, i, airports)
  {
    if n > 0 {
      RaisesIffUnknownAirport(stops, n - 1, airports, distance);
      if UnknownPair(stops, n - 1, airports) {
        assert exists i :: 0 <= i < n && UnknownPair(stops, i, airports);
      }
    }
  }

  /** With no valid pair the score is the duration over `PLANE_SPEED`. */
  lemma NoValidPairScore(leg: Leg, airports: AirportTable, distance: (Coord, Coord) -> real)
    requires forall i :: 0 <= i < |StopSeq(leg)| - 1 ==> !ValidPair(StopSeq(leg)[i], StopSeq(leg)[i + 1])
    ensures LegScore(leg, airports, distance) == Some((DurationSeconds(leg) as real) / PLANE_SPEED)
  {
    NoValidPairNoDistance(StopSeq(leg), |StopSeq(leg)| - 1, airports, distance);
  }

  /** With a non-negative distance the score never exceeds the duration over
    * `PLANE_SPEED`. */
  lemma ScoreAtMostDuration(leg: Leg, airports: AirportTable, distance: (Coord, Coord) -> real)
    requires forall p, q :: distance(p, q) >= 0.0
    ensures LegScore(leg, airports, distance).Some? ==>
      LegScore(leg, airports, distance).value <= (DurationSeconds(leg) as real) / PLANE_SPEED
  {
    DistanceNonNegative(StopSeq(leg), |StopSeq(leg)| - 1, airports, distance);
  }

  /** Two legs through the same stops: the one with the longer duration
    * scores higher, by the extra duration over `PLANE_SPEED`. */
  lemma LongerLegScoresHigher(a: Leg, b: Leg, airports: AirportTable, distance: (Coord, Coord) -> real)
    requires a.origin == b.origin && a.destination == b.destination && a.stops == b.stops
    requires DurationSeconds(a) < DurationSeconds(b)
    ensures LegScore(a, airports, distance).Some? <==> LegScore(b, airports, distance).Some?
    ensures LegScore(a, airports, distance).Some? ==>
      LegScore(b, airports, distance).value - LegScore(a, airports, distance).value
        == ((DurationSeconds(b) - DurationSeconds(a)) as real) / PLANE_SPEED
      && LegScore(a, airports, distance).value < LegScore(b, airports, distance).value
  {
    assert StopSeq(a) == StopSeq(b);
  }

  // ------------------------------------------------------------------
  // The intended score in hours
  // ------------------------------------------------------------------

  /** The layover estimate with both terms in hours: the duration in seconds
    * over 3600, minus the flight time at `PLANE_SPEED`. */
  function LayoverHours(leg: Leg, flightDistance: real): real
  {
    (DurationSeconds(leg) as real) / 3600.0 - flightDistance / PLANE_SPEED
  }

  /** In hours, a leg whose whole duration is flying time has no layover, and
    * every extra hour on the ground adds one to the estimate. */
  lemma LayoverHoursMeasuresGroundTime(leg: Leg, flightDistance: real, groundHours: real)
    requires (DurationSeconds(leg) as real) == (flightDistance / PLANE_SPEED + groundHours) * 3600.0
    ensures LayoverHours(leg, flightDistance) == groundHours
  {
  }

  /** As written, the duration in seconds is divided by the speed in km/h:
    * a one-hour nonstop leg of 900 km, all of it flying, still scores 3. */
  lemma SecondsOverSpeedMismatch(airports: AirportTable, x: Airport, y: Airport)
    requires airports == map["AAA" := x, "BBB" := y]
    ensures var leg := Leg(None, Some(Stop(None, None, Some("AAA"))), Some(Stop(None, None, Some("BBB"))), 0, 3600, None);
      && LegScore(leg, airports, (p, q) => 900.0) == Some(3.0)
      && LayoverHours(leg, 900.0) == 0.0
  {
    var leg := Leg(None, Some(Stop(None, None, Some("AAA"))), Some(Stop(None, None, Some("BBB"))), 0, 3600, None);
    assert StopSeq(leg) == [leg.origin, leg.destination];
    assert DistanceUpTo(StopSeq(leg), 1, airports, (p, q) => 900.0) == Some(900.0);
  }
}
