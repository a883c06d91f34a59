/**
 * airports.py, reduced to the one operation the core calls: look an airport
 * up by its IATA code in the local `airports` table, here a map.
 */
module Airports {
  import opened Wrappers
  import opened Models

  type AirportTable = map<string, Airport>

  /** `get_by_iata` as its callers use it: the airport, or None when the
    * code is unknown. */
  function GetByIata(t: AirportTable, iata: string): Option<Airport>
  {
    if iata in t then Some(t[iata]) else None
  }

  /** `get_by_iata` as written: it builds the Airport from `row[0]` ... `row[6]`
    * without checking that `fetchone` found a row, so an unknown code raises
    * a TypeError instead of returning None. */
  function GetByIataAsWritten(t: AirportTable, iata: string): Result<Airport, Failure>
  {
    if iata in t then Ok(t[iata]) else Err(Crash("'NoneType' object is not subscriptable"))
  }
}
