/**
 * The record shapes of models.py that the core reads or writes. Only the
 * fields the core touches are kept; datetimes are integer seconds (flights)
 * or integer minutes (layover intentions), floats are reals.
 */
module Models {
  import opened Wrappers

  /** The ways a request can end other than with a value: an `HTTPException`
    * the handler raises on purpose, or an uncaught Python exception (which
    * the framework answers with status 500). */
  datatype Failure = HttpError(status: int, detail: string) | Crash(reason: string)

  datatype UserResponse = UserResponse(id: string, email: string, firstName: string, profilePicture: Option<string>)

  /** Body of `PATCH /api/me`: every field optional. */
  datatype MeUpdate = MeUpdate(email: Option<string>, firstName: Option<string>, profilePicture: Option<string>)

  datatype Airport = Airport(iata: string, name: string, city: string, state: Option<string>, country: string, lat: real, long: real)

  /** A stop of a search-result leg; only its display code is used. */
  datatype Stop = Stop(id: Option<int>, name: Option<string>, displayCode: Option<string>)

  /** A search-result leg; `departure` and `arrival` in seconds. */
  datatype Leg = Leg(
    id: Option<string>,
    origin: Option<Stop>,
    destination: Option<Stop>,
    departure: int,
    arrival: int,
    stops: Option<seq<Stop>>)

  /** One itinerary of a search response. */
  datatype Flight = Flight(id: Option<string>, legs: Option<seq<Leg>>)

  /** The upstream search response. */
  datatype FlightApiResponse = FlightApiResponse(status: Option<bool>, data: Option<seq<Flight>>)

  datatype DetailStop = DetailStop(id: string, name: string, displayCode: string, city: string)

  datatype Layover = Layover(segmentId: string, origin: DetailStop, destination: DetailStop, duration: Option<int>)

  /** A leg of an itinerary-detail response; only its layovers are used. */
  datatype LegDetail = LegDetail(id: Option<string>, layovers: Option<seq<Layover>>)

  /** The parsed form of `FlightDetail` as it travels through the cache and
    * the upstream call, before it becomes an object. */
  datatype FlightDetailValue = FlightDetailValue(legs: Option<seq<LegDetail>>, popScore: Option<int>)

  /** The parsed form of `FlightDetailResponse`. */
  datatype DetailResponseValue = DetailResponseValue(status: Option<bool>, data: Option<FlightDetailValue>)

  /** A live `FlightDetail` object: `pop_score` is assigned in place. */
  class FlightDetail {
    const legs: Option<seq<LegDetail>>
    var popScore: Option<int>

    constructor (legs: Option<seq<LegDetail>>, popScore: Option<int>)
      ensures this.legs == legs && this.popScore == popScore
    {
      this.legs := legs;
      this.popScore := popScore;
    }
  }

  /** A live `FlightDetailResponse` object. */
  class FlightDetailResponse {
    const status: Option<bool>
    const data: FlightDetail?

    constructor (status: Option<bool>, data: FlightDetail?)
      ensures this.status == status && this.data == data
    {
      this.status := status;
      this.data := data;
    }
  }

  /** A row of the `layovers` table: a stored layover intention, times in minutes. */
  datatype LayoverDb = LayoverDb(userId: string, arrive: int, depart: int, iataCode: string)
}
