/**
 * The logical commands the build handler sends to the Cordova command line,
 * and the choice between the debug and the release variant.
 */
module Toolchain {

  /**
   * One external command. `Create` scaffolds the project, `PlatformAdd` adds
   * the Android platform, `PluginAdd` installs one plugin and `Build` builds
   * the APK, with `--release` when `release` holds.
   */
  datatype Command =
    | Create(packageName: string, appName: string)
    | PlatformAdd
    | PluginAdd(plugin: string)
    | Build(release: bool)

  /** The build command for a build type: the release variant only for exactly "release". */
  function BuildCommand(buildType: string): Command {
    if buildType == "release" then Build(true) else Build(false)
  }

  /** The directories under the scaffolded project in which Cordova leaves its APKs. */
  const ApkOutputs: seq<string> := ["platforms", "android", "app", "build", "outputs", "apk"]

  /** Where, relative to the scaffolded project, the handler looks for the built APK. */
  function ApkSource(buildType: string): seq<string> {
    if buildType == "release" then ApkOutputs + ["release", "app-release.apk"]
    else ApkOutputs + ["debug", "app-debug.apk"]
  }

  /** The variant directory a build command writes its APK into. */
  function VariantDirectory(c: Command): string
    requires c.Build?
  {
    if c.release then "release" else "debug"
  }

  /**
   * The command and the APK path agree: the handler looks for the APK in the
   * directory of the variant it built, and that variant is the release one
   * exactly when the build type is "release" (any other text, such as
   * "Release" or a missing field, builds debug).
   */
  lemma VariantsAgree(buildType: string)
    ensures BuildCommand(buildType).release <==> buildType == "release"
    ensures |ApkSource(buildType)| == |ApkOutputs| + 2
    ensures ApkSource(buildType)[|ApkOutputs|] == VariantDirectory(BuildCommand(buildType))
    ensures ApkSource(buildType)[|ApkOutputs| + 1] == "app-" + VariantDirectory(BuildCommand(buildType)) + ".apk"
  {
    if buildType == "release" {
      assert "app-" + "release" + ".apk" == "app-release.apk";
    } else {
      assert "app-" + "debug" + ".apk" == "app-debug.apk";
    }
  }
}
