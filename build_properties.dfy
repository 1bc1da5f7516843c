/**
 * What one `/api/build` request promises about the commands it issues, the
 * response it gives and the files it leaves behind, stated over the
 * handler's specification `HandleBuild`.
 */
module BuildProperties {
  import opened Wrappers
  import opened Config
  import opened Toolchain
  import opened Artifact
  import opened Registry
  import opened Orchestrator

  /** The executor lets every command of the plan succeed. */
  predicate NoCommandFails(x: Executor, c: BuildConfig) {
    FirstFailure(x, |Plan(c)|) == |Plan(c)|
  }

  /**
   * The commands run in plan order with nothing skipped, and the handler
   * stops at the first one that fails: a failed command is the last one
   * issued and the one the executor failed.
   */
  lemma CommandsFollowPlan(d: Disk, id: string, c: BuildConfig, x: Executor, now: int)
    ensures var t := HandleBuild(d, id, c, x, now);
      t.commands <= Plan(c)
      && (t.response.Failed? && t.response.error.CommandFailed? ==>
            |t.commands| > 0
            && x.failAt == Some(|t.commands| - 1)
            && t.response.error.command == t.commands[|t.commands| - 1])
  {
    match EnsureDirectory(d.projects, id, now)
    case None =>
    case Some(projects) => StepsFollowPlan(Staged(d, id, projects), id, c, x);
  }

  lemma StepsFollowPlan(s: Disk, id: string, c: BuildConfig, x: Executor)
    ensures var t := Steps(s, id, c, x);
      t.commands <= Plan(c)
      && (t.response.Failed? && t.response.error.CommandFailed? ==>
            |t.commands| > 0
            && x.failAt == Some(|t.commands| - 1)
            && t.response.error.command == t.commands[|t.commands| - 1])
  {
    var plan := Plan(c);
    PlanShape(c);
    var f := FirstFailure(x, |plan|);
    if 2 <= f && id in s.www && |plan| - 1 <= f {
      var t := Completion(s, id, c, x);
      if t.commands != [] {
        assert t.commands == [plan[|plan| - 1]];
        assert plan[..|plan| - 1] + t.commands == plan;
      }
    }
  }

  /**
   * When plugin `j` fails in a workspace that has a www, the handler answers
   * with that plugin's command after issuing exactly the commands up to it,
   * never builds, and changes nothing on disk beyond creating the
   * workspace and staging the uploads.
   */
  lemma PluginFailureStops(d: Disk, id: string, c: BuildConfig, x: Executor, now: int, j: nat)
    requires EnsureDirectory(d.projects, id, now).Some?
    requires id in d.uploads || id in d.www
    requires j < |c.plugins| && x.failAt == Some(2 + j)
    ensures var t := HandleBuild(d, id, c, x, now);
      t.response == Failed(CommandFailed(PluginAdd(c.plugins[j])))
      && t.commands == Plan(c)[..3 + j]
      && t.disk == Staged(d, id, EnsureDirectory(d.projects, id, now).value)
  {
    PlanShape(c);
  }

  /**
   * A build succeeds exactly when the workspace can be created, there is a
   * www to copy (fresh uploads or one staged earlier), every command
   * succeeds, config.xml can be read and the APK appears; a success has
   * issued the whole plan and answers with the download path.
   */
  lemma BuiltExactlyWhen(d: Disk, id: string, c: BuildConfig, x: Executor, now: int)
    ensures var t := HandleBuild(d, id, c, x, now);
      t.response.Built? <==>
        EnsureDirectory(d.projects, id, now).Some?
        && (id in d.uploads || id in d.www)
        && NoCommandFails(x, c)
        && x.scaffoldManifest.Some?
        && x.apkProduced
    ensures var t := HandleBuild(d, id, c, x, now);
      t.response.Built? ==>
        t.commands == Plan(c) && t.response.apkPath == DownloadPath(id, c.version, c.buildType)
  {
    match EnsureDirectory(d.projects, id, now)
    case None =>
    case Some(projects) =>
      var s := Staged(d, id, projects);
      var plan := Plan(c);
      PlanShape(c);
      if NoCommandFails(x, c) && id in s.www {
        var t := Completion(s, id, c, x);
        if t.response.Built? {
          assert plan[..|plan| - 1] + t.commands == plan;
        }
      }
  }

  /**
   * The uploads are removed and the APK written to the output directory
   * only by a successful build; every modelled failure leaves both untouched.
   */
  lemma CleanupOnlyOnSuccess(d: Disk, id: string, c: BuildConfig, x: Executor, now: int)
    ensures var t := HandleBuild(d, id, c, x, now);
      t.disk.uploads == (if t.response.Built? then d.uploads - {id} else d.uploads)
    ensures var t := HandleBuild(d, id, c, x, now);
      t.disk.outputs == (if t.response.Built? then d.outputs + {ArtifactName(id, c.version, c.buildType)} else d.outputs)
  {
    match EnsureDirectory(d.projects, id, now)
    case None =>
    case Some(projects) =>
      var s := Staged(d, id, projects);
      assert s.uploads == d.uploads && s.outputs == d.outputs;
  }

  /**
   * The project's www gains the identifier only when the workspace exists
   * and uploads are waiting for it; nothing else is ever staged.
   */
  lemma WwwOnlyFromUploads(d: Disk, id: string, c: BuildConfig, x: Executor, now: int)
    ensures var t := HandleBuild(d, id, c, x, now);
      t.disk.www == (if EnsureDirectory(d.projects, id, now).Some? && id in d.uploads then d.www + {id} else d.www)
  {
    match EnsureDirectory(d.projects, id, now)
    case None =>
    case Some(projects) =>
      var s := Staged(d, id, projects);
      assert Steps(s, id, c, x).disk.www == s.www;
  }

  /**
   * config.xml is written, patched with the app name and preferences,
   * before the build command is issued: a request that reaches the build has
   * read config.xml and stored its patched text, and one that stops earlier
   * leaves every config.xml as it was.
   */
  lemma ManifestPatchedBeforeBuild(d: Disk, id: string, c: BuildConfig, x: Executor, now: int)
    ensures var t := HandleBuild(d, id, c, x, now);
      |t.commands| == |Plan(c)| ==>
        x.scaffoldManifest.Some?
        && t.disk.manifests == d.manifests[id := Manifest.PatchManifest(x.scaffoldManifest.value, c)]
    ensures var t := HandleBuild(d, id, c, x, now);
      |t.commands| < |Plan(c)| ==> t.disk.manifests == d.manifests
  {
    CommandsFollowPlan(d, id, c, x, now);
    match EnsureDirectory(d.projects, id, now)
    case None =>
    case Some(projects) =>
      var s := Staged(d, id, projects);
      assert s.manifests == d.manifests;
      PlanShape(c);
  }

  /**
   * Starting from a projects directory with unique names, a build fails
   * for its workspace exactly when a file holds the project's name;
   * otherwise names stay unique and `/api/projects` then reports the
   * project exactly once.
   */
  lemma ProjectListedOnce(d: Disk, id: string, c: BuildConfig, x: Executor, now: int)
    requires UniqueNames(d.projects)
    ensures var t := HandleBuild(d, id, c, x, now);
      t.response == Failed(WorkspaceBlocked) <==> exists e :: e in d.projects && e.name == id && !e.isDirectory
    ensures var t := HandleBuild(d, id, c, x, now);
      UniqueNames(t.disk.projects)
      && (t.response != Failed(WorkspaceBlocked) ==> Occurrences(Listed(t.disk.projects), id) == 1)
  {
    EnsureDirectorySpec(d.projects, id, now);
    match EnsureDirectory(d.projects, id, now)
    case None =>
    case Some(projects) =>
      var s := Staged(d, id, projects);
      assert Steps(s, id, c, x).disk.projects == projects;
      ListedOnce(projects, id);
  }
}
