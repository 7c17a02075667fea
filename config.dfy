/**
 * The settings object of app/config.py. It is read from the environment at
 * start-up; here it is an explicit value passed to every operation that
 * needs it, with the source's defaults as constants.
 */
module Config {

  datatype Settings = Settings(
    secretKey: string,
    algorithm: string,
    accessTokenExpireMinutes: int,
    refreshTokenExpireDays: int)

  const DefaultAlgorithm: string := "HS256"
  const DefaultAccessTokenExpireMinutes: int := 30
  const DefaultRefreshTokenExpireDays: int := 7

  /** Time is counted in whole seconds throughout the model. */
  const SecondsPerMinute: int := 60
  const SecondsPerDay: int := 86400

  /** The settings when only the (required) secret key is configured. */
  function Defaults(secretKey: string): (s: Settings)
  {
    Settings(secretKey, DefaultAlgorithm, DefaultAccessTokenExpireMinutes, DefaultRefreshTokenExpireDays)
  }
}
