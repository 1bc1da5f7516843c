/**
 * The `/api/build` handler: it stages the uploads into the workspace, drives
 * the Cordova commands one at a time, patches config.xml, copies the APK to
 * the output directory and removes the uploads, stopping at the first step
 * that fails.
 */
module Orchestrator {
  import opened Wrappers
  import opened Config
  import opened Manifest
  import opened Toolchain
  import opened Artifact
  import opened Registry

  /**
   * What the outside world does during one build: the attempt (counted from
   * 0 within the request) at which a command first fails, if any; the
   * config.xml text found once the plugins are installed (None when it
   * cannot be read); and whether the build left an APK where the handler looks for it.
   */
  datatype Executor = Executor(failAt: Option<nat>, scaffoldManifest: Option<string>, apkProduced: bool)

  /** Why a build stopped. */
  datatype BuildError =
    | WorkspaceBlocked          // a file, not a directory, holds the workspace name
    | CommandFailed(command: Command)
    | WwwMissing                // neither staged uploads nor an earlier www to copy into the project
    | ManifestMissing           // config.xml could not be read
    | ApkMissing                // the build produced no APK at the expected path

  /** The JSON answer: the download path, or the failure. */
  datatype Response = Built(apkPath: string) | Failed(error: BuildError)

  /** The files under the storage root that the handler reads and writes. */
  datatype Disk = Disk(
    uploads: set<string>,           // identifiers with an uploads/{id} directory
    projects: seq<DirEntry>,        // the listing of projects/
    www: set<string>,               // identifiers whose projects/{id}/www exists
    manifests: map<string, string>, // the config.xml last written into each workspace
    outputs: set<string>)           // file names in output/

  /** The outcome of one request: the disk afterwards, the commands attempted in order, the response. */
  datatype Trace = Trace(disk: Disk, commands: seq<Command>, response: Response)

  function PluginCommands(plugins: seq<string>): seq<Command> {
    seq(|plugins|, i requires 0 <= i < |plugins| => PluginAdd(plugins[i]))
  }

  /** Every command a build issues, in the order it issues them. */
  function Plan(c: BuildConfig): seq<Command> {
    [Create(c.packageName, c.appName), PlatformAdd] + PluginCommands(c.plugins) + [BuildCommand(c.buildType)]
  }

  /** The plan scaffolds, adds the platform, installs each plugin in list order, then builds. */
  lemma PlanShape(c: BuildConfig)
    ensures |Plan(c)| == |c.plugins| + 3
    ensures Plan(c)[0] == Create(c.packageName, c.appName) && Plan(c)[1] == PlatformAdd
    ensures forall j :: 0 <= j < |c.plugins| ==> Plan(c)[2 + j] == PluginAdd(c.plugins[j])
    ensures Plan(c)[|Plan(c)| - 1] == BuildCommand(c.buildType)
    ensures Plan(c)[..|Plan(c)| - 1] == [Plan(c)[0], Plan(c)[1]] + PluginCommands(c.plugins)
  {
  }

  /** The index of the first command of an `n`-command plan that fails, or `n` when none does. */
  function FirstFailure(x: Executor, n: nat): nat {
    if x.failAt.Some? && x.failAt.value < n then x.failAt.value else n
  }

  /** The disk once the workspace exists and any staged uploads have been copied into its www. */
  function Staged(d: Disk, id: string, projects: seq<DirEntry>): Disk {
    d.(projects := projects, www := if id in d.uploads then d.www + {id} else d.www)
  }

  /** The whole handler on an abstract disk: the specification of `Server.Build`. */
  function HandleBuild(d: Disk, id: string, c: BuildConfig, x: Executor, now: int): Trace {
    match EnsureDirectory(d.projects, id, now)
    case None => Trace(d, [], Failed(WorkspaceBlocked))
    case Some(projects) => Steps(Staged(d, id, projects), id, c, x)
  }

  /** From scaffolding on: the commands up to the build, the www copy between them, then `Completion`. */
  function Steps(s: Disk, id: string, c: BuildConfig, x: Executor): Trace {
    var plan := Plan(c);
    var f := FirstFailure(x, |plan|);
    if f < 2 then Trace(s, plan[..f + 1], Failed(CommandFailed(plan[f])))
    else if id !in s.www then Trace(s, plan[..2], Failed(WwwMissing))
    else if f < |plan| - 1 then Trace(s, plan[..f + 1], Failed(CommandFailed(plan[f])))
    else
      var t := Completion(s, id, c, x);
      Trace(t.disk, plan[..|plan| - 1] + t.commands, t.response)
  }

  /**
   * What follows a successful scaffold: the www copy, the plugins and
   * `Completion`. Its commands are those it adds after the first two.
   */
  function AfterScaffold(s: Disk, id: string, c: BuildConfig, x: Executor): Trace
    requires FirstFailure(x, |Plan(c)|) >= 2
  {
    var plan := Plan(c);
    var f := FirstFailure(x, |plan|);
    if id !in s.www then Trace(s, [], Failed(WwwMissing))
    else if f < |plan| - 1 then Trace(s, plan[2..f + 1], Failed(CommandFailed(plan[f])))
    else
      var t := Completion(s, id, c, x);
      Trace(t.disk, plan[2..|plan| - 1] + t.commands, t.response)
  }

  /** Once scaffolding succeeded, `Steps` is the scaffold commands followed by `AfterScaffold`. */
  lemma StepsAfterScaffold(s: Disk, id: string, c: BuildConfig, x: Executor)
    requires FirstFailure(x, |Plan(c)|) >= 2
    ensures var t := AfterScaffold(s, id, c, x);
      Steps(s, id, c, x) == Trace(t.disk, Plan(c)[..2] + t.commands, t.response)
  {
    var plan := Plan(c);
    var f := FirstFailure(x, |plan|);
    if id in s.www {
      if f < |plan| - 1 {
        assert plan[..2] + plan[2..f + 1] == plan[..f + 1];
      } else {
        var t := Completion(s, id, c, x);
        assert plan[..2] + (plan[2..|plan| - 1] + t.commands) == plan[..|plan| - 1] + t.commands;
      }
    }
  }

  /**
   * Once every plugin is installed: patch config.xml, build, copy the APK
   * out and remove the uploads. Its commands are those it adds.
   */
  function Completion(s: Disk, id: string, c: BuildConfig, x: Executor): Trace {
    var build := BuildCommand(c.buildType);
    match x.scaffoldManifest
    case None => Trace(s, [], Failed(ManifestMissing))
    case Some(text) =>
      var patched := s.(manifests := s.manifests[id := PatchManifest(text, c)]);
      if x.failAt == Some(2 + |c.plugins|) then Trace(patched, [build], Failed(CommandFailed(build)))
      else if !x.apkProduced then Trace(patched, [build], Failed(ApkMissing))
      else
        Trace(
          patched.(outputs := patched.outputs + {ArtifactName(id, c.version, c.buildType)},
                   uploads := patched.uploads - {id}),
          [build],
          Built(DownloadPath(id, c.version, c.buildType)))
  }

  /** The server's storage and the commands it has attempted so far. */
  class Server {
    var uploads: set<string>
    var projects: seq<DirEntry>
    var www: set<string>
    var manifests: map<string, string>
    var outputs: set<string>
    var log: seq<Command>

    ghost predicate Valid()
      reads this
    {
      UniqueNames(projects)
    }

    function Storage(): Disk
      reads this
    {
      Disk(uploads, projects, www, manifests, outputs)
    }

    /** Start-up: the storage directories exist, holding what earlier runs left. */
    constructor (d: Disk)
      requires UniqueNames(d.projects)
      ensures Valid() && Storage() == d && log == []
    {
      uploads, projects, www, manifests, outputs := d.uploads, d.projects, d.www, d.manifests, d.outputs;
      log := [];
    }

    /** Runs one external command as attempt number `attempt`. */
    method Run(cmd: Command, x: Executor, attempt: nat) returns (ok: bool)
      modifies this`log
      ensures log == old(log) + [cmd]
      ensures ok <==> x.failAt != Some(attempt)
    {
      log := log + [cmd];
      ok := x.failAt != Some(attempt);
    }

    /** `POST /api/build` for project `id` with configuration `c`. */
    method Build(id: string, c: BuildConfig, x: Executor, now: int) returns (r: Response)
      requires Valid()
      modifies this
      ensures Valid()
      ensures var t := HandleBuild(old(Storage()), id, c, x, now);
        Storage() == t.disk && log == old(log) + t.commands && r == t.response
    {
      EnsureDirectorySpec(projects, id, now);
      var workspace := EnsureDirectory(projects, id, now);
      if workspace.None? {
        return Failed(WorkspaceBlocked);
      }
      projects := workspace.value;
      if id in uploads {
        www := www + {id};
      }
      assert Storage() == Staged(old(Storage()), id, workspace.value);
      r := RunSteps(id, c, x);
    }

    /** Scaffolding, the Android platform, the www copy and the plugins, one command at a time. */
    method RunSteps(id: string, c: BuildConfig, x: Executor) returns (r: Response)
      requires Valid()
      modifies this
      ensures Valid()
      ensures var t := Steps(old(Storage()), id, c, x);
        Storage() == t.disk && log == old(log) + t.commands && r == t.response
    {
      var ok, failed := Scaffold(c, x);
      if !ok {
        return Failed(CommandFailed(failed));
      }
      StepsAfterScaffold(old(Storage()), id, c, x);
      ghost var scaffolded := log;
      r := InstallAndComplete(id, c, x);
      assert log == old(log) + (Plan(c)[..2] + (log[|scaffolded|..]));
    }

    /** The www copy, the plugins and `Complete`, once scaffolding succeeded. */
    method InstallAndComplete(id: string, c: BuildConfig, x: Executor) returns (r: Response)
      requires Valid() && FirstFailure(x, |Plan(c)|) >= 2
      modifies this
      ensures Valid()
      ensures var t := AfterScaffold(old(Storage()), id, c, x);
        Storage() == t.disk && log == old(log) + t.commands && r == t.response
    {
      if id !in www {
        return Failed(WwwMissing);
      }
      var ok, failed := InstallPlugins(c, x);
      if !ok {
        return Failed(CommandFailed(failed));
      }
      r := Complete(id, c, x);
    }

    /** `cordova create` and `cordova platform add android`, stopping at the first failure. */
    method Scaffold(c: BuildConfig, x: Executor) returns (ok: bool, failed: Command)
      modifies this`log
      ensures ok <==> FirstFailure(x, |Plan(c)|) >= 2
      ensures !ok ==> failed == Plan(c)[FirstFailure(x, |Plan(c)|)]
      ensures log == old(log) + Plan(c)[..if ok then 2 else FirstFailure(x, |Plan(c)|) + 1]
    {
      PlanShape(c);
      failed := Create(c.packageName, c.appName);
      ok := Run(failed, x, 0);
      if ok {
        failed := PlatformAdd;
        ok := Run(failed, x, 1);
        assert Plan(c)[..2] == [Plan(c)[0], Plan(c)[1]];
      }
    }

    /** `cordova plugin add` for each plugin in list order, stopping at the first failure. */
    method InstallPlugins(c: BuildConfig, x: Executor) returns (ok: bool, failed: Command)
      requires FirstFailure(x, |Plan(c)|) >= 2
      modifies this`log
      ensures ok <==> FirstFailure(x, |Plan(c)|) >= |Plan(c)| - 1
      ensures !ok ==> 2 <= FirstFailure(x, |Plan(c)|) < |Plan(c)| - 1 && failed == Plan(c)[FirstFailure(x, |Plan(c)|)]
      ensures log == old(log) + Plan(c)[2..if ok then |Plan(c)| - 1 else FirstFailure(x, |Plan(c)|) + 1]
    {
      ghost var plan := Plan(c);
      PlanShape(c);
      failed := PlatformAdd;
      var k := 0;
      while k < |c.plugins|
        invariant 0 <= k <= |c.plugins|
        invariant log == old(log) + plan[2..2 + k]
        invariant FirstFailure(x, |plan|) >= 2 + k
      {
        failed := PluginAdd(c.plugins[k]);
        assert plan[2..2 + k] + [failed] == plan[2..2 + k + 1];
        ok := Run(failed, x, 2 + k);
        if !ok {
          return;
        }
        k := k + 1;
      }
      ok := true;
    }

    /** Patches config.xml, builds, copies the APK out and removes the uploads. */
    method Complete(id: string, c: BuildConfig, x: Executor) returns (r: Response)
      requires Valid()
      modifies this
      ensures Valid()
      ensures var t := Completion(old(Storage()), id, c, x);
        Storage() == t.disk && log == old(log) + t.commands && r == t.response
    {
      if x.scaffoldManifest.None? {
        return Failed(ManifestMissing);
      }
      var text := PatchName(x.scaffoldManifest.value, c.appName);
      var preferences := BuildPreferences(c);
      text := InsertPreferences(text, preferences);
      manifests := manifests[id := text];

      var build := BuildCommand(c.buildType);
      var ok := Run(build, x, 2 + |c.plugins|);
      if !ok {
        return Failed(CommandFailed(build));
      }
      if !x.apkProduced {
        return Failed(ApkMissing);
      }
      outputs := outputs + {ArtifactName(id, c.version, c.buildType)};
      uploads := uploads - {id};
      r := Built(DownloadPath(id, c.version, c.buildType));
    }
  }
}
