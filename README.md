# HTML-to-APK converter: the build server's core, modelled in Dafny

The converter's Express server (`html-to-apk-converter/server.js`) turns a
folder of uploaded web files into an Android APK with the Cordova command
line. This project models the part of the server that decides what happens
during a request:

- **config.xml patch** (`Manifest`, over `JsString`). The handler writes the
  app name into the first `<name>…</name>` element. It matches with the lazy
  pattern `/<name>.*?<\/name>/`, so the match is the leftmost, then the
  shortest, and `.` excludes line terminators. It then inserts the
  preference elements in front of the first `</widget>`. Both edits use
  JavaScript's `String.prototype.replace`, which replaces only the first
  occurrence. The replacement string is not literal: `$$`, `$&`, `` $` ``
  and `$'` are expanded. The model includes this expansion, and
  `NameDollarAmpersand` shows its effect on an app name.
- **Variant and artifact naming** (`Toolchain`, `Artifact`). Only the build
  type "release" builds with `--release`, and the APK is then looked for in
  the release directory. The output file is named
  `{projectId}-{version or 1.0.0}-{buildType}.apk`, and the response gives
  its `path.basename` under `/output/`.
- **The build request** (`Orchestrator`, `BuildProperties`). `Server` is a
  class holding the storage state:
  - the project ids that have an upload directory;
  - the listing of the projects directory;
  - the projects that have a www;
  - the config.xml last written per project;
  - the files in the output directory;
  - the log of external commands.

  `Server.Build` runs the steps in the handler's order. It stops at the
  first step that fails, as the handler's `try`/`catch` does. It is proved
  equal to the function `HandleBuild` over a snapshot of the storage.
  `BuildProperties` proves what a request promises about the commands it
  issues, the response, cleanup and the project listing.
- **Project listing** (`Registry`). `GET /api/projects` keeps the directory
  entries of the projects directory, in listing order, and reports each one
  with id = name = folder name. `ensureDirSync` keeps an existing workspace
  directory, creates a missing one, and fails on a file of the same name.

External commands are decided by an `Executor` value, which is a parameter:
- the attempt at which a command first fails, if any;
- the config.xml text found once the plugins are installed, or none when
  it cannot be read;
- whether the build left an APK at the expected path.

The request's creation time is also a parameter (`now`).

Where the code and the usual description differ, the model follows the code:
- `fs.copySync` at `server.js:70` throws when the project has no www. A
  first build without uploads therefore fails with `WwwMissing`, after
  `cordova create` and `cordova platform add` have already run.
- A build type that is not exactly "release", including a missing one,
  builds debug. The missing text still appears as `undefined` in the
  output file name, because `packageName`, `appName` and `buildType` are
  kept as the text a template literal makes of them.

## Model

| member | source | states |
|---|---|---|
| JsString.FirstOccurrence | html-to-apk-converter/server.js:92 | the result is the leftmost index at or after `from` where the pattern occurs; none means it occurs nowhere from there |
| JsString.SubstituteLiteral | html-to-apk-converter/server.js:84 | a replacement string without `$` is inserted exactly as written |
| JsString.SubstituteMatched | html-to-apk-converter/server.js:84 | a `$&` between two `$`-free parts of the replacement stands for the matched text |
| JsString.ReplaceFirstLiteral | html-to-apk-converter/server.js:92 | a string-pattern replace changes only the leftmost occurrence; the text before and after it, later occurrences included, is kept |
| JsString.ReplaceFirstAbsent | html-to-apk-converter/server.js:92 | a text without the pattern comes back unchanged |
| Manifest.NameMatchAt | html-to-apk-converter/server.js:84 | the lazy `.*?` gives the shortest match starting at the index; none means no match starts there |
| Manifest.FirstNameMatch | html-to-apk-converter/server.js:84 | the match found starts leftmost and is the shortest from that start; none means the pattern matches nowhere |
| Manifest.FirstNameMatchIs | html-to-apk-converter/server.js:84 | the leftmost-shortest match is unique, and it is the one the replace acts on |
| Manifest.NamePatchNoMatch | html-to-apk-converter/server.js:84 | config.xml without a `<name>` element on one line is left unchanged |
| Manifest.NamePatch | html-to-apk-converter/server.js:84 | for an app name without `$`, only the first match becomes `<name>appName</name>` and everything around it is kept |
| Manifest.NameDollarAmpersand | html-to-apk-converter/server.js:84 | an app name containing `$&` puts the whole old `<name>` element inside the new one |
| Manifest.PreferencesSpec | html-to-apk-converter/server.js:87-90 | Orientation, Fullscreen and BackgroundColor each appear exactly when their field is truthy, with the field's value, in that order; the colour is `#000000` exactly for the theme "dark" (otherwise `#FFFFFF`); there are none when no field is set |
| Manifest.RenderAppend | html-to-apk-converter/server.js:87-90 | rendering is compositional, so the text keeps the preferences' order |
| Manifest.PreferenceBlockEmpty | html-to-apk-converter/server.js:87-90 | the preference text is empty exactly when orientation, fullscreen and theme are all falsy |
| Manifest.BuildPreferences | html-to-apk-converter/server.js:87-90 | building the text with `+=`, one field at a time, yields the rendered preference list |
| Manifest.InsertPreferencesAt | html-to-apk-converter/server.js:92 | a `$`-free block goes immediately before the first `</widget>`; everything before it and from it on is unchanged |
| Manifest.InsertPreferencesAbsent | html-to-apk-converter/server.js:92 | config.xml without `</widget>` gets no preferences |
| Manifest.InsertEmptyBlock | html-to-apk-converter/server.js:87-92 | with no preferences, the insertion leaves config.xml unchanged |
| Manifest.PreferenceBlockLiteral | html-to-apk-converter/server.js:87-92 | the block contains no `$` unless the orientation or fullscreen text does, so then it is inserted literally |
| Toolchain.VariantsAgree | html-to-apk-converter/server.js:97-106 | the build command uses `--release` exactly when the build type is "release"; the APK path names the same variant's directory and file |
| Artifact.ArtifactNameDeterminesVersion | html-to-apk-converter/server.js:109 | for one project and build type, two builds get the same output file name exactly when their versions read the same, so a missing version and "1.0.0" share a file |
| Artifact.ArtifactNamesCollide | html-to-apk-converter/server.js:109 | the naming is not injective across projects: project "a" at version "b-1" and project "a-b" at version "1" write the same file |
| Artifact.Basename | html-to-apk-converter/server.js:117 | the base name has no `/`, is a suffix of the path, and is preceded by `/` when it is shorter than the path |
| Artifact.BasenameOfSegment | html-to-apk-converter/server.js:117 | the base name of `dir/segment` is the segment when the segment has no `/` |
| Artifact.DownloadPathPlain | html-to-apk-converter/server.js:109-117 | when no part of the name holds `/`, the returned path is `/output/` followed by the full output file name |
| Artifact.DownloadPathAfterSlash | html-to-apk-converter/server.js:109-117 | a `/` in the version makes the returned path name only the part after it, not the file the handler wrote |
| Registry.Lookup | html-to-apk-converter/server.js:55 | the entry found has the name asked for; none means no entry has it |
| Registry.EnsureDirectorySpec | html-to-apk-converter/server.js:55 | among unique names: creating the workspace fails exactly when a file holds its name; otherwise names stay unique, the name is a directory, and the listing is kept, followed at most by the new directory |
| Registry.Listed | html-to-apk-converter/server.js:126-148 | every reported project has id = name and is a directory entry with its times; every directory entry is reported; non-directories are not |
| Registry.ListedAppend | html-to-apk-converter/server.js:131-144 | listing is compositional, so projects are reported in the directory's order |
| Registry.ListedOnce | html-to-apk-converter/server.js:126-148 | among unique names, a directory is reported exactly once and a name that is no directory is not reported |
| Registry.ListProjects | html-to-apk-converter/server.js:126-148 | the loop reports what `Listed` specifies for the listing, and nothing when the projects directory is missing |
| Orchestrator.PlanShape | html-to-apk-converter/server.js:64-101 | the commands are `cordova create`, `platform add android`, one `plugin add` per plugin in list order, then the variant's build |
| Orchestrator.StepsAfterScaffold | html-to-apk-converter/server.js:64-79 | once scaffolding succeeded, the request's commands are the two scaffold commands followed by those of the later steps |
| Orchestrator.Server.constructor | html-to-apk-converter/server.js:16-22 | the server starts with the storage that earlier runs left and an empty command log |
| Orchestrator.Server.Run | html-to-apk-converter/server.js:160-175 | every command attempted is logged, and it fails exactly at the executor's failing attempt |
| Orchestrator.Server.Build | html-to-apk-converter/server.js:48-124 | the handler's new storage, the commands it issues and its response are those of `HandleBuild`; project names stay unique |
| Orchestrator.Server.RunSteps | html-to-apk-converter/server.js:63-113 | from scaffolding on, the state, commands and response are those of `Steps` |
| Orchestrator.Server.Scaffold | html-to-apk-converter/server.js:63-67 | the two scaffold commands run in order until the first failure; it succeeds exactly when neither fails |
| Orchestrator.Server.InstallAndComplete | html-to-apk-converter/server.js:69-113 | the www copy, the plugins and completion act as `AfterScaffold` specifies |
| Orchestrator.Server.InstallPlugins | html-to-apk-converter/server.js:73-77 | plugins are added in list order up to the first failure; it succeeds exactly when no plugin fails |
| Orchestrator.Server.Complete | html-to-apk-converter/server.js:79-113 | config.xml is patched and written before the build; the output file is written and the uploads removed only after the build and the APK copy succeed |
| BuildProperties.CommandsFollowPlan | html-to-apk-converter/server.js:63-101 | the issued commands are a prefix of the plan; a failed command is the last one issued, at the executor's failing attempt |
| BuildProperties.PluginFailureStops | html-to-apk-converter/server.js:73-77 | when plugin `j` fails, the response names it, exactly the commands up to it were issued, there is no build, and the disk holds only the workspace and staging |
| BuildProperties.BuiltExactlyWhen | html-to-apk-converter/server.js:48-124 | with the file-system calls not listed under "Left out" succeeding: success happens exactly when the workspace can be made, a www exists or is uploaded, no command fails, config.xml is readable and the APK appears; a success issued the whole plan and returns the download path |
| BuildProperties.CleanupOnlyOnSuccess | html-to-apk-converter/server.js:108-113 | the uploads are removed and the output file written exactly by a successful build; a modelled failure leaves both untouched |
| BuildProperties.WwwOnlyFromUploads | html-to-apk-converter/server.js:57-61 | the project's www is added only when the workspace exists and uploads wait for it |
| BuildProperties.ManifestPatchedBeforeBuild | html-to-apk-converter/server.js:79-101 | a request that issues the build has read config.xml and stored its patched text; one that stops earlier changes no config.xml |
| BuildProperties.ProjectListedOnce | html-to-apk-converter/server.js:55 | among unique names, the request fails on its workspace exactly when a file holds the id; otherwise names stay unique and `/api/projects` then reports the project exactly once |
| Manifest.PatchName | html-to-apk-converter/server.js:84 | defined by its body; stated by `NamePatch`, `NamePatchNoMatch` and `NameDollarAmpersand` |
| Manifest.InsertPreferences | html-to-apk-converter/server.js:92 | defined by its body; stated by `InsertPreferencesAt`, `InsertPreferencesAbsent` and `InsertEmptyBlock` |
| Manifest.PatchManifest | html-to-apk-converter/server.js:84-92 | defined by its body: the name patch, then the preference insertion; stated through the two rows above and `BuildProperties.ManifestPatchedBeforeBuild` |
| Toolchain.BuildCommand | html-to-apk-converter/server.js:97-99 | defined by its body; stated by `VariantsAgree` |
| Toolchain.ApkSource | html-to-apk-converter/server.js:104-106 | defined by its body; stated by `VariantsAgree` |
| Artifact.ArtifactName | html-to-apk-converter/server.js:109 | defined by its body; stated by `ArtifactNameDeterminesVersion` and `ArtifactNamesCollide` |
| Artifact.DownloadPath | html-to-apk-converter/server.js:117 | defined by its body; stated by `DownloadPathPlain` and `DownloadPathAfterSlash` |
| Registry.EnsureDirectory | html-to-apk-converter/server.js:55 | defined by its body; stated by `EnsureDirectorySpec` |
| Orchestrator.HandleBuild | html-to-apk-converter/server.js:48-124 | defined by its body through `Steps`, `AfterScaffold` and `Completion`; stated by `Server.Build` and the `BuildProperties` lemmas |

## Left out

- `html-to-apk-converter/main.js` (the Electron shell that starts the server) is not part of this model.
- Express routing, CORS, static files and the multer upload handler (`server.js:24-46`): the upload handler appears only as the set of project ids that have an upload directory.
- `executeCommand` and `exec` (`server.js:160-175`) are the `Executor` parameter. Shell quoting and interpolation of user text into the command lines are not modelled: commands are logical values.
- Only four file-system failures are modelled: `ensureDirSync` (`server.js:55`, `WorkspaceBlocked`), the www copy (`:70`, `WwwMissing`), the config.xml read (`:81`, `ManifestMissing`) and the APK copy (`:110`, `ApkMissing`). The model assumes that these calls succeed: the uploads copy `copySync` (`:60`), the config.xml write `writeFileSync` (`:94`), the cleanup `removeSync` (`:113`) and `statSync` in the listing (`:134`). In the handler, a failing `writeFileSync` stops the request before the build command. A failing `removeSync` answers with an error after the APK has been written. A failing `statSync` fails the whole `/api/projects` request. None of these cases is captured.
- Names are compared exactly, as on a case-sensitive file system that does not normalise names, and paths follow POSIX `path` with `/` as the only separator. On a case-insensitive file system (the macOS and Windows defaults), `ensureDirSync` for "Demo" reuses an existing "demo", and the listing then reports "demo". `Registry.EnsureDirectorySpec` and `BuildProperties.ProjectListedOnce` do not describe that case. On win32, `path.basename` (`:117`) also cuts at `\`.
- Real file-system effects are snapshots. Directory contents are not copied; a project's www is a flag, and file times are opaque integers. `ensureDirSync` is modelled on the top-level projects directory; a file named `build` inside an existing workspace is not.
- `path.join` normalisation is left out. Identifiers and versions holding `/` or `..`, an empty or non-string `projectId`, and the failing `copyFileSync` into a missing output subdirectory are not modelled: the output set records the joined file name as text.
- Artifact.DownloadPathAfterSlash: states only what `path.basename` makes of the name, not whether the copy at `server.js:110` can write that path.
- A newly created workspace is listed after the existing entries; `readdir` order is not specified by the platform.
- The `/output/:filename` download route (`server.js:150-157`) is not modelled.
- A request without a `config` object, or with `config: null`, is not modelled. The handler still creates the workspace (`server.js:55`) and stages the uploads into www (`:59-61`), then throws a TypeError at `config.packageName` (`:64`) before any command runs. A `BuildConfig` is always present in the model, so `BuildProperties.BuiltExactlyWhen` and the other build lemmas cover only requests that carry one.
- Truthy field values that are not strings (numbers, objects, arrays) are represented only by the text they interpolate to, and the `=== 'release'` (`server.js:97`, `:104`) and `=== 'dark'` (`:90`) comparisons are modelled on that text: a non-string whose text is "release", such as `["release"]`, builds debug in the handler but release in the model. A `plugins` value that is not an array is not modelled.
- Regular expression matching is modelled only for the single pattern `/<name>.*?<\/name>/`, not in general.
- Concurrent requests, console logging and the text of error messages are left out; a failure is reported as its `BuildError` kind.
