/** The collector's settings, read once at start-up and never changed afterwards. */
module Configuration {

  /**
   * The fields of the collector's `Config` that the modelled logic reads. Where
   * they come from (environment variables, defaults) is not part of this model.
   */
  datatype Config = Config(
    airlyApiKey: string,
    installationId: int,
    latitude: real,
    longitude: real,
    cityName: string,
    enableDatabase: bool,
    enableCsv: bool,
    hsbiApiUrl: string,
    hsbiSensorId: int,
    hsbiAltitude: real,
    enableHsbi: bool)
}
