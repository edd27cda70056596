/** The file snapshot a config mutation rolls back to, and the rollback of
    formula sources (cmd/gc/api_state.go). */
module ConfigRollback {
  import opened Prelude

  /** An absolute path as its components. */
  type Path = seq<string>

  datatype Node = File(bytes: string) | Link(target: Path)

  type Fs = map<Path, Node>

  predicate Under(dir: Path, p: Path) {
    dir < p
  }

  function AgentsDir(city: Path): Path {
    city + ["agents"]
  }

  function CityToml(city: Path): Path {
    city + ["city.toml"]
  }

  function SiteToml(city: Path): Path {
    city + [".gc", "site.toml"]
  }

  predicate IsAgentToml(city: Path, p: Path) {
    |p| == |city| + 3 && Under(AgentsDir(city), p) && p[|p| - 1] == "agent.toml"
  }

  /** Follows the links at a path's final component; None on a cycle. */
  function Resolve(fs: Fs, p: Path, seen: set<Path>): Option<Path>
    decreases fs.Keys - seen
  {
    if p in fs && fs[p].Link? then
      if p in seen then None else Resolve(fs, fs[p].target, seen + {p})
    else Some(p)
  }

  function Content(fs: Fs, p: Path): Option<string> {
    if p in fs && fs[p].File? then Some(fs[p].bytes) else None
  }

  /** What a reader of the path sees: the bytes behind its links. */
  function ReadThrough(fs: Fs, p: Path): Option<string> {
    match Resolve(fs, p, {})
    case None => None
    case Some(q) => Content(fs, q)
  }

  datatype Snapshot = Snapshot(existed: map<Path, bool>, files: map<Path, string>, tree: Fs)

  function TreeOf(fs: Fs, dir: Path): Fs {
    map p | p in fs && Under(dir, p) :: fs[p]
  }

  /** The paths a mutation snapshots besides the agents tree. */
  function CapturePaths(fs: Fs, city: Path): set<Path> {
    {CityToml(city), SiteToml(city)} + set p | p in fs && IsAgentToml(city, p) && fs[p].Link?
  }

  ghost predicate Captures(fs: Fs, city: Path, s: Snapshot) {
    && s.tree == TreeOf(fs, AgentsDir(city))
    && (forall p | p in CapturePaths(fs, city) :: Resolve(fs, p, {}).Some? && Resolve(fs, p, {}).value in s.existed)
    && (forall q | q in s.existed :: exists p | p in CapturePaths(fs, city) :: Resolve(fs, p, {}) == Some(q))
    && FilesOf(fs, s)
  }

  ghost predicate FilesOf(fs: Fs, s: Snapshot) {
    forall q | q in s.existed ::
      && (s.existed[q] ==> q in s.files && q in fs && fs[q] == File(s.files[q]))
      && (!s.existed[q] ==> q !in fs)
  }

  lemma {:induction false} ResolveIsNoLink(fs: Fs, p: Path, seen: set<Path>)
    ensures Resolve(fs, p, seen).Some? ==>
              Resolve(fs, p, seen).value !in fs || fs[Resolve(fs, p, seen).value].File?
    decreases fs.Keys - seen
  {
    if p in fs && fs[p].Link? && p !in seen {
      ResolveIsNoLink(fs, fs[p].target, seen + {p});
    }
  }

  /** The snapshot, or None when some link chain does not resolve or an I/O
      error is met: `broken` are the paths whose links or bytes cannot be read,
      `treeFails` whether walking the agents tree fails. */
  method Capture(fs: Fs, city: Path, broken: set<Path>, treeFails: bool) returns (r: Option<Snapshot>)
    ensures r.Some? ==> Captures(fs, city, r.value)
    ensures r.None? <==> treeFails || exists p | p in CapturePaths(fs, city) :: p in broken || Resolve(fs, p, {}).None?
  {
    if treeFails {
      return None;
    }
    var targets := map p | p in CapturePaths(fs, city) :: if p in broken then None else Resolve(fs, p, {});
    forall p | p in targets && targets[p].Some? ensures targets[p].value in fs ==> fs[targets[p].value].File? {
      ResolveIsNoLink(fs, p, {});
    }
    r := CaptureFiles(fs, targets, TreeOf(fs, AgentsDir(city)));
    assert forall p | p in CapturePaths(fs, city) :: p in targets;
    if r.Some? {
      forall p | p in CapturePaths(fs, city) ensures targets[p] == Resolve(fs, p, {}) {
        assert targets[p].Some?;
      }
      forall q | q in r.value.existed ensures exists p | p in CapturePaths(fs, city) :: Resolve(fs, p, {}) == Some(q) {
        var p :| p in targets.Keys && targets[p] == Some(q);
      }
    }
  }

  method CaptureFiles(fs: Fs, targets: map<Path, Option<Path>>, tree: Fs) returns (r: Option<Snapshot>)
    requires forall p | p in targets && targets[p].Some? && targets[p].value in fs :: fs[targets[p].value].File?
    ensures r.Some? ==> r.value.tree == tree && FilesOf(fs, r.value) && LedTo(targets, targets.Keys, r.value)
    ensures r.None? <==> exists p | p in targets :: targets[p].None?
  {
    var s := Snapshot(map[], map[], tree);
    var todo := targets.Keys;
    ghost var done: set<Path> := {};
    while todo != {}
      invariant todo <= targets.Keys && done == targets.Keys - todo
      invariant s.tree == tree && FilesOf(fs, s) && LedTo(targets, done, s)
      decreases todo
    {
      var p :| p in todo;
      if targets[p].None? {
        return None;
      }
      s := CaptureFile(fs, targets[p].value, s);
      todo, done := todo - {p}, done + {p};
    }
    assert done == targets.Keys;
    return Some(s);
  }

  /** The captured files are those the paths lead to. */
  ghost predicate LedTo(targets: map<Path, Option<Path>>, done: set<Path>, s: Snapshot)
    requires done <= targets.Keys
  {
    && (forall p | p in done :: targets[p].Some? && targets[p].value in s.existed)
    && (forall q | q in s.existed :: exists p | p in done :: targets[p] == Some(q))
  }

  method CaptureFile(fs: Fs, q: Path, s: Snapshot) returns (r: Snapshot)
    requires FilesOf(fs, s) && (q in fs ==> fs[q].File?)
    ensures FilesOf(fs, r) && r.tree == s.tree && r.existed.Keys == s.existed.Keys + {q}
  {
    if q in fs {
      r := s.(files := s.files[q := fs[q].bytes], existed := s.existed[q := true]);
    } else {
      r := s.(existed := s.existed[q := false]);
    }
  }

  /** The files after a restore that meets no I/O error. */
  ghost function Restored(fs: Fs, city: Path, s: Snapshot): Fs
    requires forall q | q in s.existed && s.existed[q] :: q in s.files
  {
    var outside := map p | p in fs && !Under(AgentsDir(city), p) :: fs[p];
    var gone := set q | q in s.existed && !s.existed[q];
    (outside + s.tree + (map q | q in s.existed && s.existed[q] :: File(s.files[q]))) - gone
  }

  class Disk {
    var nodes: Fs

    /** Temp file and rename: replaces whatever is at the path. */
    method WriteFileAtomic(p: Path, bytes: string, fails: bool)
      modifies this
      ensures nodes == if fails then old(nodes) else old(nodes)[p := File(bytes)]
    {
      if !fails {
        nodes := nodes[p := File(bytes)];
      }
    }

    method Remove(p: Path, fails: bool)
      modifies this
      ensures nodes == if fails then old(nodes) else old(nodes) - {p}
    {
      if !fails {
        nodes := nodes - {p};
      }
    }

    /** Restores every captured path in any order, going on after a failure:
        a path whose own restore succeeds is right even when others fail. */
    method RestoreFiles(s: Snapshot, fails: set<Path>) returns (failed: bool)
      requires forall q | q in s.existed && s.existed[q] :: q in s.files
      modifies this
      ensures failed <==> exists q | q in s.existed :: q in fails
      ensures forall q | q in s.existed && q !in fails :: RightAt(nodes, s, q)
      ensures forall q | q !in s.existed || q in fails :: SameAt(nodes, old(nodes), q)
    {
      failed := false;
      var todo := s.existed.Keys;
      while todo != {}
        invariant todo <= s.existed.Keys
        invariant failed <==> exists q | q in s.existed && q !in todo :: q in fails
        invariant forall q | q in s.existed && q !in todo && q !in fails :: RightAt(nodes, s, q)
        invariant forall q | q !in s.existed || q in todo || q in fails :: SameAt(nodes, old(nodes), q)
        decreases todo
      {
        var q :| q in todo;
        todo := todo - {q};
        if s.existed[q] {
          WriteFileAtomic(q, s.files[q], q in fails);
        } else {
          Remove(q, q in fails);
        }
        failed := failed || q in fails;
      }
    }

    /** Restores the agents tree and then the captured paths. `treeLeft` is what
        a failed tree restore leaves of the tree, None for a good one; `fails`
        are the paths whose own restore fails. */
    method Restore(city: Path, s: Snapshot, treeLeft: Option<Fs>, fails: set<Path>) returns (failed: bool)
      requires forall q | q in s.existed && s.existed[q] :: q in s.files
      requires forall q | q in s.tree :: Under(AgentsDir(city), q)
      modifies this
      ensures failed <==> treeLeft.Some? || exists q | q in s.existed :: q in fails
      ensures !failed ==> nodes == Restored(old(nodes), city, s)
      ensures forall q | q in s.existed && q !in fails :: RightAt(nodes, s, q)
      ensures forall q | q !in s.existed && !Under(AgentsDir(city), q) :: SameAt(nodes, old(nodes), q)
    {
      var tree := if treeLeft.None? then s.tree else map p | p in treeLeft.value && Under(AgentsDir(city), p) :: treeLeft.value[p];
      nodes := (map p | p in nodes && !Under(AgentsDir(city), p) :: nodes[p]) + tree;
      ghost var base := nodes;
      failed := RestoreFiles(s, fails);
      failed := failed || treeLeft.Some?;
      if !failed {
        RestoredFromParts(old(nodes), base, nodes, city, s);
      }
    }
  }

  ghost predicate SameAt(a: Fs, b: Fs, q: Path) {
    (q in a <==> q in b) && (q in a ==> a[q] == b[q])
  }

  /** The path has the content or the absence the snapshot recorded. */
  ghost predicate RightAt(fs: Fs, s: Snapshot, q: Path)
    requires q in s.existed && (s.existed[q] ==> q in s.files)
  {
    if s.existed[q] then q in fs && fs[q] == File(s.files[q]) else q !in fs
  }

  lemma RestoredFromParts(fs: Fs, base: Fs, r: Fs, city: Path, s: Snapshot)
    requires forall q | q in s.existed && s.existed[q] :: q in s.files
    requires base == (map p | p in fs && !Under(AgentsDir(city), p) :: fs[p]) + s.tree
    requires forall q | q in s.existed :: RightAt(r, s, q)
    requires forall q | q !in s.existed :: SameAt(r, base, q)
    ensures r == Restored(fs, city, s)
  {
    var t := Restored(fs, city, s);
    forall q ensures SameAt(r, t, q) {
      if q in s.existed {
        assert RightAt(r, s, q);
      } else {
        assert SameAt(r, base, q);
      }
    }
    forall q ensures q in r.Keys <==> q in t.Keys {
      assert SameAt(r, t, q);
    }
    forall q | q in r.Keys ensures r[q] == t[q] {
      assert SameAt(r, t, q);
    }
  }

  /** Whatever a mutation did in between, a clean restore gives every captured
      path and the whole agents tree their prior content or absence, and leaves
      every other path alone. */
  lemma RestoreUndoesMutation(before: Fs, after: Fs, city: Path, s: Snapshot, q: Path)
    requires Captures(before, city, s)
    ensures var r := Restored(after, city, s);
            if q in s.existed || Under(AgentsDir(city), q)
            then (q in r <==> q in before) && (q in r ==> r[q] == before[q])
            else (q in r <==> q in after) && (q in r ==> r[q] == after[q])
  {
  }

  lemma {:induction false} SameResolution(before: Fs, r: Fs, p: Path, seen: set<Path>)
    requires Resolve(before, p, seen).Some?
    requires forall q | q in before && before[q].Link? :: q in r && r[q] == before[q]
    requires Resolve(before, p, seen).value in r ==> r[Resolve(before, p, seen).value].File?
    ensures Resolve(r, p, seen) == Resolve(before, p, seen)
    decreases before.Keys - seen
  {
    if p in before && before[p].Link? {
      SameResolution(before, r, before[p].target, seen + {p});
    }
  }

  /** If the mutation left the links outside the agents tree in place, readers
      of city.toml, site.toml and every agent.toml see the prior bytes again,
      through whatever chain of links they read. */
  lemma RestoreUndoesReads(before: Fs, after: Fs, city: Path, s: Snapshot, p: Path)
    requires Captures(before, city, s)
    requires forall q | q in before && before[q].Link? && !Under(AgentsDir(city), q) :: q in after && after[q] == before[q]
    requires p in {CityToml(city), SiteToml(city)} || (p in before && IsAgentToml(city, p))
    ensures ReadThrough(Restored(after, city, s), p) == ReadThrough(before, p)
  {
    var r := Restored(after, city, s);
    forall q ensures (q in s.existed || Under(AgentsDir(city), q)) ==> (q in r <==> q in before) && (q in r ==> r[q] == before[q]) {
      RestoreUndoesMutation(before, after, city, s, q);
    }
    forall q | q in before && before[q].Link? ensures q in r && r[q] == before[q] {
      RestoreUndoesMutation(before, after, city, s, q);
    }
    if p in CapturePaths(before, city) {
      ResolveIsNoLink(before, p, {});
      SameResolution(before, r, p, {});
    }
  }

  // ---- formula sources ------------------------------------------------------

  /** What an editor operation meets: it succeeds, or fails leaving `left` as
      the formula's source. */
  datatype EditOutcome = Success | Failure(left: Option<string>)

  datatype EditError = NoError | NotFound | Infra

  function Put(sources: map<string, string>, name: string, v: Option<string>): map<string, string> {
    if v.Some? then sources[name := v.value] else sources - {name}
  }

  class FormulaStore {
    var sources: map<string, string>

    method EditorUpsert(name: string, content: string, out: EditOutcome) returns (err: EditError)
      modifies this
      ensures sources == if out.Success? then old(sources)[name := content] else Put(old(sources), name, out.left)
      ensures err == if out.Success? then NoError else Infra
    {
      if out.Success? {
        sources := sources[name := content];
        return NoError;
      }
      sources := Put(sources, name, out.left);
      return Infra;
    }

    method EditorDelete(name: string, out: EditOutcome) returns (err: EditError)
      modifies this
      ensures name !in old(sources) ==> sources == old(sources) && err == NotFound
      ensures name in old(sources) ==>
                && sources == Put(old(sources), name, if out.Success? then None else out.left)
                && err == if out.Success? then NoError else Infra
    {
      if name !in sources {
        return NotFound;
      }
      sources := Put(sources, name, if out.Success? then None else out.left);
      return if out.Success? then NoError else Infra;
    }

    /** `unreadable`: a prior source exists but cannot be read; `snapshots`:
        the config snapshot was taken; `refreshes`: the refresh after the edit
        worked; `back`: how the rollback edit goes. */
    method UpsertFormula(name: string, content: string, unreadable: bool, snapshots: bool, edit: EditOutcome, refreshes: bool, back: EditOutcome)
      returns (failed: bool, rollbackFailed: bool)
      modifies this
      ensures !failed ==> sources == old(sources)[name := content]
      ensures failed && !rollbackFailed ==> sources == old(sources)
      ensures failed <==> unreadable || !snapshots || edit.Failure? || !refreshes
      ensures rollbackFailed <==>
              failed && !unreadable && back.Failure? && (name in old(sources) || (snapshots && (edit.Success? || edit.left.Some?)))
      ensures forall n | n != name :: n in sources <==> n in old(sources)
      ensures forall n | n != name && n in sources :: sources[n] == old(sources)[n]
    {
      rollbackFailed := false;
      if unreadable {
        return true, false;
      }
      var prior := if name in sources then Some(sources[name]) else None;
      failed := !snapshots;
      if snapshots {
        var err := EditorUpsert(name, content, edit);
        failed := err != NoError || !refreshes;
      }
      if failed {
        if prior.Some? {
          var rb := EditorUpsert(name, prior.value, back);
          rollbackFailed := rb != NoError;
        } else {
          var rb := EditorDelete(name, back);
          rollbackFailed := rb != NoError && rb != NotFound;
        }
      }
      assert failed && !rollbackFailed ==> sources == old(sources);
    }

    method DeleteFormula(name: string, unreadable: bool, snapshots: bool, edit: EditOutcome, refreshes: bool, back: EditOutcome)
      returns (failed: bool, rollbackFailed: bool)
      modifies this
      ensures !failed ==> name in old(sources) && sources == old(sources) - {name}
      ensures failed && !rollbackFailed ==> sources == old(sources)
      ensures failed <==> unreadable || !snapshots || name !in old(sources) || edit.Failure? || !refreshes
      ensures rollbackFailed <==> failed && !unreadable && name in old(sources) && back.Failure?
      ensures forall n | n != name :: n in sources <==> n in old(sources)
      ensures forall n | n != name && n in sources :: sources[n] == old(sources)[n]
    {
      rollbackFailed := false;
      if unreadable {
        return true, false;
      }
      var prior := if name in sources then Some(sources[name]) else None;
      failed := !snapshots;
      if snapshots {
        var err := EditorDelete(name, edit);
        failed := err != NoError || !refreshes;
      }
      if failed && prior.Some? {
        var rb := EditorUpsert(name, prior.value, back);
        rollbackFailed := rb != NoError;
      }
      assert failed && !rollbackFailed ==> sources == old(sources);
    }
  }
}
