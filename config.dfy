/** The `config` object of a build request. */
module Config {

  /**
   * A field that the handler tests for truthiness. Every falsy JavaScript
   * value (a missing field, null, false, 0, "", NaN) is `Unset`; a truthy
   * value is `Set`, carrying the text a template literal turns it into.
   */
  datatype Setting = Unset | Set(text: string)

  /**
   * The recognised configuration fields. The fields the handler uses without
   * a truthiness test (packageName, appName, buildType) are kept as the text
   * they interpolate to, so a missing one is the text "undefined". The
   * handler's `=== 'release'` and `=== 'dark'` comparisons are modelled on
   * that text. A missing or empty plugin list is [].
   */
  datatype BuildConfig = BuildConfig(
    packageName: string,
    appName: string,
    version: Setting,
    buildType: string,
    orientation: Setting,
    fullscreen: Setting,
    theme: Setting,
    plugins: seq<string>)
}
