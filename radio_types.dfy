/** The records the station service exchanges with the station directory. */
module RadioTypes {

  /**
   * A station record of the directory. Only `stationuuid`, `name`,
   * `url_resolved`, `codec` and `votes` are ever inspected; the other fields
   * travel through the service unchanged. A missing `url_resolved` or
   * `codec` is the empty string, which the truthiness tests treat like
   * `undefined`; a record missing `name` or `votes` is not represented.
   */
  datatype Station = Station(
    changeuuid: string,
    stationuuid: string,
    name: string,
    url: string,
    url_resolved: string,
    homepage: string,
    favicon: string,
    tags: string,
    country: string,
    state: string,
    language: string,
    votes: int,
    codec: string,
    bitrate: int)

  /**
   * A decoded JSON response body: an array, an object with the shape of a
   * station record, or anything else (null, numbers, strings, other objects).
   */
  datatype Json = JArray(items: seq<Json>) | JStation(station: Station) | JOther
}
