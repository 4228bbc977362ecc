/**
 * The values the location service hands to the map component
 * (src/app/Services/geolocation.ts). The watchPosition/Observable plumbing
 * itself is not part of this model; only its records are.
 */
module Geolocation {

  /** One position fix: coordinates in degrees, accuracy radius in meters. */
  datatype Coords = Coords(lat: real, lng: real, accuracy: real)

  /**
   * What reaches the subscriber's `error` callback: either a device
   * error with a numeric code (permission denied, position unavailable,
   * timeout), or the plain Error raised when the browser has no
   * geolocation capability, which carries no code.
   */
  datatype LocationError =
    | DeviceError(code: int, message: string)
    | Unsupported(message: string)

  /** The device error code for "timed out". */
  const TIMEOUT: int := 3
}
