/** Status codes of the ESP-IDF framework as the driver sees them. */
module Esp {

  /** `esp_err_t` is a 32-bit integer; only its bit pattern matters to the driver. */
  type EspErr = bv32

  /** `ESP_OK`: the one code meaning success; every other value is a failure. */
  const ESP_OK: EspErr := 0

  /** The `err |= other` of the init routines: the combined status is a success
      exactly when both steps succeeded, and a failure of either survives. */
  function Combine(first: EspErr, second: EspErr): (r: EspErr)
    ensures r == ESP_OK <==> first == ESP_OK && second == ESP_OK
  {
    first | second
  }
}
