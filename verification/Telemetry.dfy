/** The canonical telemetry event (ingestion/schemas.py). */
module Telemetry {
  import opened Common

  datatype TelemetryEvent = TelemetryEvent(
    source: string,
    icao24: string,
    callsign: Option<string>,
    originCountry: Option<string>,
    timePosition: Option<int>,
    lastContact: Option<int>,
    longitude: Option<real>,
    latitude: Option<real>,
    baroAltitudeM: Option<real>,
    geoAltitudeM: Option<real>,
    velocityMps: Option<real>,
    trueTrackDeg: Option<real>,
    verticalRateMps: Option<real>,
    onGround: Option<bool>,
    ingestedAt: string,
    ingestionId: string,
    collectorId: Option<string>)
}
