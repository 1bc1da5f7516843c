/**
 * The projects directory as the handlers see it: a listing of entries, the
 * `ensureDirSync` that creates a project's workspace, and the
 * `/api/projects` listing that reports every project directory.
 */
module Registry {
  import opened Wrappers

  /** One entry of the projects directory with the metadata `statSync` reports. */
  datatype DirEntry = DirEntry(name: string, isDirectory: bool, created: int, modified: int)

  /** One element of the `/api/projects` response. */
  datatype ProjectInfo = ProjectInfo(id: string, name: string, created: int, modified: int)

  /** A directory holds at most one entry per name. */
  ghost predicate UniqueNames(entries: seq<DirEntry>) {
    forall j, k :: 0 <= j < k < |entries| ==> entries[j].name != entries[k].name
  }

  /** The entry called `name`, if there is one. */
  function Lookup(entries: seq<DirEntry>, name: string): (r: Option<DirEntry>)
    ensures r.Some? ==> r.value in entries && r.value.name == name
    ensures r.None? ==> forall e :: e in entries ==> e.name != name
  {
    if entries == [] then None
    else if entries[0].name == name then Some(entries[0])
    else Lookup(entries[1..], name)
  }

  /**
   * `ensureDirSync` on the workspace `name`: an existing directory is kept, a
   * missing one is created (stamped `now`) after the existing entries, and a
   * file in its place makes the call fail.
   */
  function EnsureDirectory(entries: seq<DirEntry>, name: string, now: int): Option<seq<DirEntry>> {
    match Lookup(entries, name)
    case Some(e) => if e.isDirectory then Some(entries) else None
    case None => Some(entries + [DirEntry(name, true, now, now)])
  }

  /**
   * In a directory with unique names, creating the workspace fails exactly
   * when a non-directory entry holds its name; otherwise names stay unique,
   * `name` is a directory afterwards, and the listing is kept, followed at
   * most by the new directory.
   */
  lemma EnsureDirectorySpec(entries: seq<DirEntry>, name: string, now: int)
    requires UniqueNames(entries)
    ensures EnsureDirectory(entries, name, now).None?
      <==> exists e :: e in entries && e.name == name && !e.isDirectory
    ensures EnsureDirectory(entries, name, now).Some? ==>
      var r := EnsureDirectory(entries, name, now).value;
      UniqueNames(r)
      && (exists e :: e in r && e.name == name && e.isDirectory)
      && (r == entries || r == entries + [DirEntry(name, true, now, now)])
  {
    match Lookup(entries, name)
    case Some(e) =>
      forall d | d in entries && d.name == name ensures d == e {
        var j :| 0 <= j < |entries| && entries[j] == d;
        var k :| 0 <= k < |entries| && entries[k] == e;
        assert j == k;
      }
    case None =>
      var r := entries + [DirEntry(name, true, now, now)];
      assert r[|entries|] in r;
  }

  /** What `/api/projects` reports for a listing: each directory, in listing order, named by its folder. */
  function Listed(entries: seq<DirEntry>): (r: seq<ProjectInfo>)
    ensures |r| <= |entries|
    ensures forall p :: p in r ==> p.id == p.name && DirEntry(p.name, true, p.created, p.modified) in entries
    ensures forall e :: e in entries && e.isDirectory ==> ProjectInfo(e.name, e.name, e.created, e.modified) in r
  {
    if entries == [] then []
    else
      var last := entries[|entries| - 1];
      Listed(entries[..|entries| - 1])
      + (if last.isDirectory then [ProjectInfo(last.name, last.name, last.created, last.modified)] else [])
  }

  /** Listing is compositional, so it keeps the order of the directory listing. */
  lemma {:induction false} ListedAppend(a: seq<DirEntry>, b: seq<DirEntry>)
    ensures Listed(a + b) == Listed(a) + Listed(b)
    decreases |b|
  {
    if b == [] {
      assert a + b == a;
    } else {
      var init := b[..|b| - 1];
      assert (a + b)[..|a + b| - 1] == a + init;
      assert (a + b)[|a + b| - 1] == b[|b| - 1];
      ListedAppend(a, init);
    }
  }

  /** How many reported projects carry the identifier `id`. */
  function Occurrences(projects: seq<ProjectInfo>, id: string): nat {
    if projects == [] then 0
    else Occurrences(projects[..|projects| - 1], id) + (if projects[|projects| - 1].id == id then 1 else 0)
  }

  /**
   * In a directory with unique names, a project directory is reported
   * exactly once, and a name that is no directory is not reported.
   */
  lemma {:induction false} ListedOnce(entries: seq<DirEntry>, id: string)
    requires UniqueNames(entries)
    ensures Occurrences(Listed(entries), id) == (if exists e :: e in entries && e.name == id && e.isDirectory then 1 else 0)
    decreases |entries|
  {
    if entries != [] {
      var init := entries[..|entries| - 1];
      var last := entries[|entries| - 1];
      assert UniqueNames(init);
      ListedOnce(init, id);
      var tail := if last.isDirectory then [ProjectInfo(last.name, last.name, last.created, last.modified)] else [];
      OccurrencesAppend(Listed(init), tail, id);
      if last.name == id {
        forall e | e in init ensures e.name != id {
          var j :| 0 <= j < |init| && init[j] == e;
          assert entries[j] == e;
        }
      }
      if exists e :: e in entries && e.name == id && e.isDirectory {
        var e :| e in entries && e.name == id && e.isDirectory;
        if e !in init {
          assert e == last;
        }
      }
    }
  }

  lemma {:induction false} OccurrencesAppend(a: seq<ProjectInfo>, b: seq<ProjectInfo>, id: string)
    ensures Occurrences(a + b, id) == Occurrences(a, id) + Occurrences(b, id)
    decreases |b|
  {
    if b == [] {
      assert a + b == a;
    } else {
      var init := b[..|b| - 1];
      assert (a + b)[..|a + b| - 1] == a + init;
      OccurrencesAppend(a, init, id);
    }
  }

  /**
   * `/api/projects`: walks the listing of the projects directory, when that
   * directory exists, and collects every directory entry.
   */
  method ListProjects(listing: Option<seq<DirEntry>>) returns (projects: seq<ProjectInfo>)
    ensures listing.None? ==> projects == []
    ensures listing.Some? ==> projects == Listed(listing.value)
  {
    projects := [];
    if listing.Some? {
      var folders := listing.value;
      for k := 0 to |folders|
        invariant projects == Listed(folders[..k])
      {
        var entry := folders[k];
        assert folders[..k + 1][..k] == folders[..k];
        if entry.isDirectory {
          projects := projects + [ProjectInfo(entry.name, entry.name, entry.created, entry.modified)];
        }
      }
      assert folders[..|folders|] == folders;
    }
  }
}
