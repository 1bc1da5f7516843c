/** How a finished APK is named in the output directory and offered for download. */
module Artifact {
  import opened Config

  /** `config.version || '1.0.0'`. */
  function VersionText(version: Setting): string {
    match version
    case Set(text) => text
    case Unset => "1.0.0"
  }

  /** `${projectId}-${config.version || '1.0.0'}-${config.buildType}.apk`. */
  function ArtifactName(projectId: string, version: Setting, buildType: string): string {
    projectId + "-" + VersionText(version) + "-" + buildType + ".apk"
  }

  /**
   * For one project and build type, two builds share an output file exactly
   * when their versions read the same, so a rebuild of the same version
   * overwrites the earlier APK and a new version does not.
   */
  lemma ArtifactNameDeterminesVersion(projectId: string, v1: Setting, v2: Setting, buildType: string)
    ensures ArtifactName(projectId, v1, buildType) == ArtifactName(projectId, v2, buildType)
      <==> VersionText(v1) == VersionText(v2)
  {
    var head, tail := projectId + "-", "-" + buildType + ".apk";
    assert ArtifactName(projectId, v1, buildType) == head + VersionText(v1) + tail;
    assert ArtifactName(projectId, v2, buildType) == head + VersionText(v2) + tail;
    if ArtifactName(projectId, v1, buildType) == ArtifactName(projectId, v2, buildType) {
      Sandwich(head, VersionText(v1), VersionText(v2), tail);
    }
  }

  /** The middle of `p + a + q` is determined by the whole and its two ends. */
  lemma Sandwich(p: string, a: string, b: string, q: string)
    requires p + a + q == p + b + q
    ensures a == b
  {
    var w := p + a + q;
    assert |a| == |b|;
    assert a == w[|p|..|p| + |a|];
  }

  /**
   * The naming scheme is not injective across projects: project "a" at
   * version "b-1" and project "a-b" at version "1" write the same file.
   */
  lemma ArtifactNamesCollide()
    ensures ArtifactName("a", Set("b-1"), "debug") == ArtifactName("a-b", Set("1"), "debug")
  {
  }

  /**
   * `path.basename` for a path that does not end in `/`: the text after the
   * last `/`. (Node drops a trailing `/` first, which this does not; the
   * output path always ends in ".apk".)
   */
  function Basename(p: string): (b: string)
    ensures '/' !in b
    ensures |b| <= |p| && b == p[|p| - |b|..]
    ensures |b| < |p| ==> p[|p| - |b| - 1] == '/'
  {
    if p == [] then ""
    else if p[|p| - 1] == '/' then ""
    else Basename(p[..|p| - 1]) + [p[|p| - 1]]
  }

  /** The `apkPath` of a successful response. */
  function DownloadPath(projectId: string, version: Setting, buildType: string): string {
    "/output/" + Basename(ArtifactName(projectId, version, buildType))
  }

  /**
   * When no part of the name holds a `/`, the download path is "/output/"
   * followed by the whole artifact name.
   */
  lemma DownloadPathPlain(projectId: string, version: Setting, buildType: string)
    requires '/' !in projectId && '/' !in VersionText(version) && '/' !in buildType
    ensures DownloadPath(projectId, version, buildType) == "/output/" + ArtifactName(projectId, version, buildType)
  {
    BasenameOfName(ArtifactName(projectId, version, buildType));
  }

  /** A path without `/` is its own base name. */
  lemma {:induction false} BasenameOfName(name: string)
    requires '/' !in name
    ensures Basename(name) == name
    decreases |name|
  {
    if name != [] {
      var init := name[..|name| - 1];
      assert '/' !in init by {
        forall k | 0 <= k < |init| ensures init[k] != '/' {
          assert init[k] == name[k];
        }
      }
      BasenameOfName(init);
      assert name == init + [name[|name| - 1]];
    }
  }

  /** The base name of a path is the segment after its last `/`. */
  lemma {:induction false} BasenameOfSegment(dir: string, segment: string)
    requires '/' !in segment
    ensures Basename(dir + "/" + segment) == segment
    decreases |segment|
  {
    var p := dir + "/" + segment;
    if segment == [] {
      assert p[|p| - 1] == '/';
    } else {
      var init := segment[..|segment| - 1];
      assert '/' !in init by {
        forall k | 0 <= k < |init| ensures init[k] != '/' {
          assert init[k] == segment[k];
        }
      }
      assert p[|p| - 1] == segment[|segment| - 1] != '/';
      assert p[..|p| - 1] == dir + "/" + init;
      BasenameOfSegment(dir, init);
      assert segment == init + [segment[|segment| - 1]];
    }
  }

  /**
   * A `/` in the version cuts the download path short: it names only what
   * follows the last `/`, not the file the handler wrote.
   */
  lemma DownloadPathAfterSlash(projectId: string, v1: string, v2: string, buildType: string)
    requires '/' !in v2 && '/' !in buildType
    ensures DownloadPath(projectId, Set(v1 + "/" + v2), buildType) == "/output/" + (v2 + "-" + buildType + ".apk")
  {
    var dir := projectId + "-" + v1;
    var segment := v2 + "-" + buildType + ".apk";
    SplitAtVersionSlash(projectId, v1, v2, buildType);
    NoSlashAppend(v2, "-");
    NoSlashAppend(v2 + "-", buildType);
    NoSlashAppend(v2 + "-" + buildType, ".apk");
    BasenameOfSegment(dir, segment);
  }

  lemma SplitAtVersionSlash(projectId: string, v1: string, v2: string, buildType: string)
    ensures ArtifactName(projectId, Set(v1 + "/" + v2), buildType)
      == (projectId + "-" + v1) + "/" + (v2 + "-" + buildType + ".apk")
  {
  }

  lemma NoSlashAppend(a: string, b: string)
    requires '/' !in a && '/' !in b
    ensures '/' !in a + b
  {
  }
}
