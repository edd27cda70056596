/** The reaper of closed-bead worktrees (reapClosedBeadWorktrees in
    cmd/gc/bead_worktree_reaper.go, worktreeIsLive in
    cmd/gc/bead_worktree_liveness.go): two passes over a rig's worktrees around
    one batched borrow-veto query. */
module WorktreeReaper {
  import opened Prelude
  import opened PathContainment

  /** Path normalisation: None only for the empty path. */
  type Norm = string -> Option<Path>

  /** A worktree with what the gates observe about it: the bead its leaf name
      names, that bead's status, its age, and its git state. */
  datatype Worktree = Worktree(
    path: string, leaf: string, beadId: string, status: Option<string>, age: Option<nat>,
    uncommitted: bool, unpushed: bool, stashes: bool)

  /** A bead of the rig's store with its two work-dir keys. */
  datatype Bead = Bead(id: string, status: string, workDir: string, legacyWorkDir: string)

  /** The pass-wide inputs. `cwds` are normalised live process directories,
      `scanned` whether that scan worked. */
  datatype Setup = Setup(
    rigDir: string, wtRoot: string, homes: set<string>, minAge: int,
    scanned: bool, cwds: seq<Path>, sessionDirs: seq<string>)

  // ---- gates ----------------------------------------------------------------------

  predicate PathWithin(norm: Norm, root: string, candidate: string) {
    norm(root).Some? && norm(candidate).Some? && PathAtOrUnder(norm(root).value, norm(candidate).value)
  }

  predicate InScope(norm: Norm, s: Setup, w: Worktree) {
    && PathWithin(norm, s.rigDir, w.path) && norm(s.rigDir) != norm(w.path)
    && norm(s.wtRoot).Some? && StrictlyUnderDir(norm(s.wtRoot).value, norm(w.path).value)
  }

  /** A per-bead worktree of the rig whose bead is closed. */
  predicate ClosedBead(norm: Norm, s: Setup, w: Worktree) {
    InScope(norm, s, w) && w.leaf !in s.homes && w.beadId != "" && w.status == Some("closed")
  }

  predicate OldEnough(s: Setup, w: Worktree) {
    w.age.Some? && (s.minAge > 0 ==> w.age.value >= s.minAge)
  }

  predicate IsLive(norm: Norm, s: Setup, path: string) {
    var wt := norm(path);
    && wt.Some?
    && (|| (exists i | 0 <= i < |s.cwds| :: PathAtOrUnder(wt.value, s.cwds[i]))
        || (exists i | 0 <= i < |s.sessionDirs| ::
              norm(s.sessionDirs[i]).Some? && PathAtOrUnder(wt.value, norm(s.sessionDirs[i]).value)))
  }

  predicate GitClean(w: Worktree) {
    !w.uncommitted && !w.unpushed && !w.stashes
  }

  predicate Terminal(b: Bead) {
    b.status == "closed" || b.status == "tombstone"
  }

  predicate Names(norm: Norm, dir: string, path: string) {
    !Blank(dir) && norm(Trim(dir)) == norm(path)
  }

  /** The bead still works in the directory, by either key. */
  predicate Borrows(norm: Norm, b: Bead, path: string) {
    !Terminal(b) && (Names(norm, b.workDir, path) || Names(norm, b.legacyWorkDir, path))
  }

  ghost predicate Borrowed(norm: Norm, beads: seq<Bead>, path: string) {
    exists i | 0 <= i < |beads| :: Borrows(norm, beads[i], path)
  }

  // ---- the batched veto ---------------------------------------------------------------

  /** The last candidate whose path normalises to np. */
  function LastRaw(norm: Norm, paths: seq<string>, np: Option<Path>): Option<string> {
    if paths == [] then None
    else if norm(paths[|paths| - 1]) == np then Some(paths[|paths| - 1])
    else LastRaw(norm, paths[..|paths| - 1], np)
  }

  function HitOf(norm: Norm, paths: seq<string>, dir: string): Option<string> {
    if Blank(dir) then None else LastRaw(norm, paths, norm(Trim(dir)))
  }

  /** The one candidate a bead is charged to: its first key that hits. */
  function FirstHit(norm: Norm, paths: seq<string>, b: Bead): Option<string> {
    if Terminal(b) then None
    else if HitOf(norm, paths, b.workDir).Some? then HitOf(norm, paths, b.workDir)
    else HitOf(norm, paths, b.legacyWorkDir)
  }

  /** The beads charged to a path, in listing order. */
  function VetoIds(norm: Norm, paths: seq<string>, beads: seq<Bead>, path: string): seq<string> {
    if beads == [] then []
    else
      var b := beads[|beads| - 1];
      VetoIds(norm, paths, beads[..|beads| - 1], path) + if FirstHit(norm, paths, b) == Some(path) then [b.id] else []
  }

  ghost predicate Indexes(norm: Norm, paths: seq<string>, byNorm: map<Option<Path>, string>) {
    forall np :: (if np in byNorm then Some(byNorm[np]) else None) == LastRaw(norm, paths, np)
  }

  method IndexCandidates(norm: Norm, paths: seq<string>) returns (byNorm: map<Option<Path>, string>)
    ensures Indexes(norm, paths, byNorm)
  {
    byNorm := map[];
    for i := 0 to |paths|
      invariant Indexes(norm, paths[..i], byNorm)
    {
      assert paths[..i + 1][..i] == paths[..i];
      byNorm := byNorm[norm(paths[i]) := paths[i]];
    }
    assert paths[..|paths|] == paths;
  }

  /** The keys of a bead are tried in order; the first hit ends the search. */
  method ChargeBead(norm: Norm, ghost paths: seq<string>, byNorm: map<Option<Path>, string>, b: Bead) returns (hit: Option<string>)
    requires Indexes(norm, paths, byNorm) && !Terminal(b)
    ensures hit == FirstHit(norm, paths, b)
  {
    var keys := [b.workDir, b.legacyWorkDir];
    for k := 0 to 2
      invariant k >= 1 ==> HitOf(norm, paths, b.workDir).None?
      invariant k == 2 ==> HitOf(norm, paths, b.legacyWorkDir).None?
    {
      if !Blank(keys[k]) && norm(Trim(keys[k])) in byNorm {
        return Some(byNorm[norm(Trim(keys[k]))]);
      }
      assert LastRaw(norm, paths, norm(Trim(keys[k]))).None? || Blank(keys[k]);
    }
    return None;
  }

  function At(refs: map<string, seq<string>>, p: string): seq<string> {
    if p in refs then refs[p] else []
  }

  /** scanBorrowVetoReferences, on the listed beads. */
  method ScanBorrowVeto(norm: Norm, paths: seq<string>, beads: seq<Bead>) returns (refs: map<string, seq<string>>)
    ensures forall p :: At(refs, p) == VetoIds(norm, paths, beads, p)
  {
    var byNorm := IndexCandidates(norm, paths);
    refs := map[];
    for i := 0 to |beads|
      invariant forall p :: At(refs, p) == VetoIds(norm, paths, beads[..i], p)
    {
      var b := beads[i];
      assert beads[..i + 1][..i] == beads[..i];
      if Terminal(b) {
        continue;
      }
      var hit := ChargeBead(norm, paths, byNorm, b);
      if hit.Some? {
        refs := refs[hit.value := At(refs, hit.value) + [b.id]];
      }
    }
    assert beads[..|beads|] == beads;
  }

  lemma {:induction false} VetoIdsMeaning(norm: Norm, paths: seq<string>, beads: seq<Bead>, path: string)
    ensures VetoIds(norm, paths, beads, path) != [] <==>
              exists i | 0 <= i < |beads| :: FirstHit(norm, paths, beads[i]) == Some(path)
  {
    if beads != [] {
      VetoIdsMeaning(norm, paths, beads[..|beads| - 1], path);
      var last := |beads| - 1;
      assert beads[last] == beads[|beads| - 1];
    }
  }

  lemma {:induction false} LastRawMeaning(norm: Norm, paths: seq<string>, np: Option<Path>)
    ensures LastRaw(norm, paths, np).Some? ==> LastRaw(norm, paths, np).value in paths && norm(LastRaw(norm, paths, np).value) == np
    ensures (exists p | p in paths :: norm(p) == np) ==> LastRaw(norm, paths, np).Some?
  {
    if paths != [] {
      LastRawMeaning(norm, paths[..|paths| - 1], np);
      assert paths == paths[..|paths| - 1] + [paths[|paths| - 1]];
    }
  }

  /** The borrower's first key charges it to another candidate. */
  predicate ChargedElsewhere(norm: Norm, paths: seq<string>, b: Bead, path: string) {
    HitOf(norm, paths, b.workDir).Some? && !Names(norm, b.workDir, path)
  }

  /** The borrowers of a path that the batch charges to it. */
  ghost predicate SomeBorrowerCharged(norm: Norm, paths: seq<string>, beads: seq<Bead>, path: string) {
    exists i | 0 <= i < |beads| :: Borrows(norm, beads[i], path) && !ChargedElsewhere(norm, paths, beads[i], path)
  }

  lemma ChargedTo(norm: Norm, paths: seq<string>, b: Bead, path: string)
    requires path in paths
    ensures FirstHit(norm, paths, b) == Some(path) <==>
              Borrows(norm, b, path) && !ChargedElsewhere(norm, paths, b, path) && LastRaw(norm, paths, norm(path)) == Some(path)
  {
    LastRawMeaning(norm, paths, norm(path));
    LastRawMeaning(norm, paths, norm(Trim(b.workDir)));
    LastRawMeaning(norm, paths, norm(Trim(b.legacyWorkDir)));
  }

  /** The batched veto protects a borrowed candidate exactly when no later
      candidate normalises to the same path and some borrower's first key does
      not name another candidate. An unborrowed candidate is never vetoed. */
  lemma BatchedVetoExactlyWhen(norm: Norm, paths: seq<string>, beads: seq<Bead>, path: string)
    requires path in paths
    ensures VetoIds(norm, paths, beads, path) != [] <==>
              LastRaw(norm, paths, norm(path)) == Some(path) && SomeBorrowerCharged(norm, paths, beads, path)
    ensures VetoIds(norm, paths, beads, path) != [] ==> Borrowed(norm, beads, path)
  {
    VetoIdsMeaning(norm, paths, beads, path);
    forall i | 0 <= i < |beads|
      ensures FirstHit(norm, paths, beads[i]) == Some(path) <==>
                Borrows(norm, beads[i], path) && !ChargedElsewhere(norm, paths, beads[i], path) && LastRaw(norm, paths, norm(path)) == Some(path)
    {
      ChargedTo(norm, paths, beads[i], path);
    }
  }

  /** Asking about one candidate alone gives the per-candidate veto. */
  lemma SingleVetoIsBorrow(norm: Norm, beads: seq<Bead>, path: string)
    ensures VetoIds(norm, [path], beads, path) != [] <==> Borrowed(norm, beads, path)
  {
    BatchedVetoExactlyWhen(norm, [path], beads, path);
    forall b: Bead ensures !ChargedElsewhere(norm, [path], b, path) {
      LastRawMeaning(norm, [path], norm(Trim(b.workDir)));
    }
    LastRawMeaning(norm, [path], norm(path));
  }

  /** A live bead whose two keys name two candidates vetoes only the first: the
      batch leaves the second unprotected although it is borrowed. */
  lemma SplitBorrowerIsMissed(norm: Norm, a: string, b: string, bead: Bead)
    requires norm(a) != norm(b) && Trim(a) == a != "" && Trim(b) == b != ""
    requires !Terminal(bead) && bead.workDir == a && bead.legacyWorkDir == b
    ensures Borrowed(norm, [bead], b)
    ensures VetoIds(norm, [a, b], [bead], a) == [bead.id] && VetoIds(norm, [a, b], [bead], b) == []
  {
    var paths := [a, b];
    assert Borrows(norm, [bead][0], b);
    LastRawMeaning(norm, paths, norm(a));
    assert FirstHit(norm, paths, bead) == Some(a);
    assert [bead][..0] == [];
  }

  // ---- the two passes -----------------------------------------------------------------

  predicate Candidate(norm: Norm, s: Setup, w: Worktree) {
    ClosedBead(norm, s, w) && OldEnough(s, w)
  }

  /** What the first pass makes of a worktree. */
  datatype Class = Ignored | Quarantined | Eligible

  function ClassOf(norm: Norm, s: Setup, w: Worktree): Class {
    if !ClosedBead(norm, s, w) then Ignored else if !OldEnough(s, w) then Quarantined else Eligible
  }

  function Classes(norm: Norm, s: Setup, ws: seq<Worktree>): (cs: seq<Class>)
    ensures |cs| == |ws| && forall i | 0 <= i < |ws| :: cs[i] == ClassOf(norm, s, ws[i])
  {
    seq(|ws|, i requires 0 <= i < |ws| => ClassOf(norm, s, ws[i]))
  }

  function Chosen(ws: seq<Worktree>, cs: seq<Class>): seq<Worktree>
    requires |ws| == |cs|
  {
    if ws == [] then []
    else
      var n := |ws| - 1;
      Chosen(ws[..n], cs[..n]) + if cs[n] == Eligible then [ws[n]] else []
  }

  function Candidates(norm: Norm, s: Setup, ws: seq<Worktree>): seq<Worktree> {
    Chosen(ws, Classes(norm, s, ws))
  }

  function Paths(ws: seq<Worktree>): seq<string> {
    seq(|ws|, i requires 0 <= i < |ws| => ws[i].path)
  }

  /** The gates of the second pass. */
  predicate Passes(norm: Norm, s: Setup, paths: seq<string>, beads: seq<Bead>, w: Worktree) {
    VetoIds(norm, paths, beads, w.path) == [] && s.scanned && !IsLive(norm, s, w.path) && GitClean(w)
  }

  function Passing(norm: Norm, s: Setup, paths: seq<string>, beads: seq<Bead>, ws: seq<Worktree>): seq<Worktree> {
    if ws == [] then []
    else Passing(norm, s, paths, beads, ws[..|ws| - 1]) + if Passes(norm, s, paths, beads, ws[|ws| - 1]) then [ws[|ws| - 1]] else []
  }

  /** The worktrees a pass over a rig sets out to remove; `beads` is None when
      the borrow-veto query fails. */
  function Plan(norm: Norm, s: Setup, ws: seq<Worktree>, beads: Option<seq<Bead>>): seq<Worktree> {
    if beads.None? then []
    else
      var cands := Candidates(norm, s, ws);
      Passing(norm, s, Paths(cands), beads.value, cands)
  }

  function Removed(plan: seq<Worktree>, removable: set<string>): seq<Worktree> {
    if plan == [] then []
    else Removed(plan[..|plan| - 1], removable) + if plan[|plan| - 1].path in removable then [plan[|plan| - 1]] else []
  }

  /** The pass over one rig. `removable` are the paths whose removal works. A
      dry run lists exactly what a real run attempts and attempts nothing. */
  method ReapRig(norm: Norm, s: Setup, ws: seq<Worktree>, beads: Option<seq<Bead>>, dryRun: bool, removable: set<string>)
    returns (reaped: seq<Worktree>, protected: seq<Worktree>, attempted: seq<Worktree>)
    ensures attempted == if dryRun then [] else Plan(norm, s, ws, beads)
    ensures reaped == if dryRun then Plan(norm, s, ws, beads) else Removed(Plan(norm, s, ws, beads), removable)
    ensures forall w :: w in protected <==> w in ws && ClosedBead(norm, s, w) && w !in Plan(norm, s, ws, beads)
    ensures beads.None? ==> reaped == [] && attempted == []
  {
    reaped, attempted := [], [];
    var cands;
    var classes := Classes(norm, s, ws);
    cands, protected := FirstPass(ws, classes);
    ChosenMeaning(ws, classes);
    if beads.None? {
      protected := protected + cands;
      return;
    }
    var refs := ScanBorrowVeto(norm, Paths(cands), beads.value);
    var oks := Gates(norm, s, cands, beads.value, refs);
    var kept;
    reaped, kept, attempted := SecondPass(cands, oks, dryRun, removable);
    ghost var plan := Plan(norm, s, ws, beads);
    forall w ensures w in protected + kept <==> w in ws && ClosedBead(norm, s, w) && w !in plan {
      ProtectedIs(norm, s, ws, Paths(cands), beads.value, cands, oks, protected, kept, w);
    }
    protected := protected + kept;
  }

  /** Quarantined worktrees and candidates that fail a later gate. */
  lemma ProtectedIs(norm: Norm, s: Setup, ws: seq<Worktree>, paths: seq<string>, beads: seq<Bead>, cands: seq<Worktree>, oks: seq<bool>,
                    young: seq<Worktree>, kept: seq<Worktree>, w: Worktree)
    requires cands == Candidates(norm, s, ws) && |oks| == |cands|
    requires forall i | 0 <= i < |cands| :: oks[i] == Passes(norm, s, paths, beads, cands[i])
    requires w in young <==> exists i | 0 <= i < |ws| :: ws[i] == w && ClassOf(norm, s, ws[i]) == Quarantined
    requires w in kept <==> exists i | 0 <= i < |cands| :: cands[i] == w && !oks[i]
    ensures w in young + kept <==> w in ws && ClosedBead(norm, s, w) && w !in Passing(norm, s, paths, beads, cands)
  {
    CandidatesMeaning(norm, s, ws);
    PassingMeaning(norm, s, paths, beads, cands);
    assert w in young <==> w in ws && ClosedBead(norm, s, w) && !OldEnough(s, w);
    assert w in kept <==> w in cands && !Passes(norm, s, paths, beads, w);
  }

  lemma RemovedSnoc(plan: seq<Worktree>, w: Worktree, removable: set<string>)
    ensures Removed(plan + [w], removable) == Removed(plan, removable) + if w.path in removable then [w] else []
  {
  }

  function Pick(ws: seq<Worktree>, oks: seq<bool>): seq<Worktree>
    requires |ws| == |oks|
  {
    if ws == [] then []
    else
      var n := |ws| - 1;
      Pick(ws[..n], oks[..n]) + if oks[n] then [ws[n]] else []
  }

  lemma {:induction false} PassingIsPick(norm: Norm, s: Setup, paths: seq<string>, beads: seq<Bead>, ws: seq<Worktree>, oks: seq<bool>)
    requires |ws| == |oks| && forall i | 0 <= i < |ws| :: oks[i] == Passes(norm, s, paths, beads, ws[i])
    ensures Pick(ws, oks) == Passing(norm, s, paths, beads, ws)
  {
    if ws != [] {
      var n := |ws| - 1;
      PassingIsPick(norm, s, paths, beads, ws[..n], oks[..n]);
    }
  }

  /** The veto, liveness and git gates, candidate by candidate. */
  method Gates(norm: Norm, s: Setup, cands: seq<Worktree>, ghost beads: seq<Bead>, refs: map<string, seq<string>>) returns (oks: seq<bool>)
    requires forall p :: At(refs, p) == VetoIds(norm, Paths(cands), beads, p)
    ensures |oks| == |cands| && Pick(cands, oks) == Passing(norm, s, Paths(cands), beads, cands)
    ensures forall i | 0 <= i < |cands| :: oks[i] == Passes(norm, s, Paths(cands), beads, cands[i])
  {
    oks := seq(|cands|, i requires 0 <= i < |cands| =>
      At(refs, cands[i].path) == [] && s.scanned && !IsLive(norm, s, cands[i].path) && GitClean(cands[i]));
    PassingIsPick(norm, s, Paths(cands), beads, cands, oks);
  }

  /** Removes the candidates that pass the gates, unless this is a dry run. */
  method SecondPass(cands: seq<Worktree>, oks: seq<bool>, dryRun: bool, removable: set<string>)
    returns (reaped: seq<Worktree>, protected: seq<Worktree>, attempted: seq<Worktree>)
    requires |oks| == |cands|
    ensures attempted == if dryRun then [] else Pick(cands, oks)
    ensures reaped == if dryRun then Pick(cands, oks) else Removed(Pick(cands, oks), removable)
    ensures forall w :: w in protected <==> exists i | 0 <= i < |cands| :: cands[i] == w && !oks[i]
  {
    reaped, protected, attempted := [], [], [];
    ghost var plan: seq<Worktree> := [];
    for i := 0 to |cands|
      invariant plan == Pick(cands[..i], oks[..i])
      invariant attempted == if dryRun then [] else plan
      invariant reaped == if dryRun then plan else Removed(plan, removable)
      invariant forall w :: w in protected <==> exists k | 0 <= k < i :: cands[k] == w && !oks[k]
    {
      var c := cands[i];
      assert cands[..i + 1][..i] == cands[..i] && oks[..i + 1][..i] == oks[..i];
      if !oks[i] {
        protected := protected + [c];
        continue;
      }
      RemovedSnoc(plan, c, removable);
      plan := plan + [c];
      if dryRun {
        reaped := reaped + [c];
        continue;
      }
      attempted := attempted + [c];
      if c.path in removable {
        reaped := reaped + [c];
      }
    }
    assert cands[..|cands|] == cands && oks[..|oks|] == oks;
  }

  /** Splits off the candidates from the worktrees in quarantine. */
  method FirstPass(ws: seq<Worktree>, cs: seq<Class>) returns (cands: seq<Worktree>, protected: seq<Worktree>)
    requires |ws| == |cs|
    ensures cands == Chosen(ws, cs)
    ensures forall w :: w in protected <==> exists i | 0 <= i < |ws| :: ws[i] == w && cs[i] == Quarantined
  {
    cands, protected := [], [];
    for i := 0 to |ws|
      invariant cands == Chosen(ws[..i], cs[..i])
      invariant forall w :: w in protected <==> exists k | 0 <= k < i :: ws[k] == w && cs[k] == Quarantined
    {
      assert ws[..i + 1][..i] == ws[..i] && cs[..i + 1][..i] == cs[..i];
      if cs[i] == Ignored {
        continue;
      }
      if cs[i] == Quarantined {
        protected := protected + [ws[i]];
        continue;
      }
      cands := cands + [ws[i]];
    }
    assert ws[..|ws|] == ws && cs[..|cs|] == cs;
  }

  lemma {:induction false} ChosenMeaning(ws: seq<Worktree>, cs: seq<Class>)
    requires |ws| == |cs|
    ensures forall w :: w in Chosen(ws, cs) <==> exists i | 0 <= i < |ws| :: ws[i] == w && cs[i] == Eligible
  {
    if ws != [] {
      var n := |ws| - 1;
      ChosenMeaning(ws[..n], cs[..n]);
      forall w ensures w in Chosen(ws, cs) <==> exists i | 0 <= i < |ws| :: ws[i] == w && cs[i] == Eligible {
        if i :| 0 <= i < |ws| && ws[i] == w && cs[i] == Eligible {
          assert i < n ==> ws[..n][i] == w && cs[..n][i] == Eligible;
        }
      }
    }
  }

  lemma CandidatesMeaning(norm: Norm, s: Setup, ws: seq<Worktree>)
    ensures forall w :: w in Candidates(norm, s, ws) <==> w in ws && Candidate(norm, s, w)
  {
    ChosenMeaning(ws, Classes(norm, s, ws));
  }

  lemma {:induction false} PassingMeaning(norm: Norm, s: Setup, paths: seq<string>, beads: seq<Bead>, ws: seq<Worktree>)
    ensures forall w :: w in Passing(norm, s, paths, beads, ws) <==> w in ws && Passes(norm, s, paths, beads, w)
  {
    if ws != [] {
      PassingMeaning(norm, s, paths, beads, ws[..|ws| - 1]);
      assert ws == ws[..|ws| - 1] + [ws[|ws| - 1]];
    }
  }

  /** Nothing live, by component containment: no process directory and no
      session directory is the worktree or lies beneath it. */
  ghost predicate Idle(norm: Norm, s: Setup, path: string) {
    && norm(path).Some?
    && (forall i | 0 <= i < |s.cwds| :: !(norm(path).value <= s.cwds[i]))
    && (forall i | 0 <= i < |s.sessionDirs| && norm(s.sessionDirs[i]).Some? :: !(norm(path).value <= norm(s.sessionDirs[i]).value))
  }

  ghost predicate CleanInputs(norm: Norm, s: Setup) {
    && (forall i | 0 <= i < |s.cwds| :: CleanPath(s.cwds[i]))
    && (forall p: string :: norm(p).Some? ==> CleanPath(norm(p).value))
  }

  // ---- the plan in the fields of worktrees and beads -----------------------------------

  /** Strictly inside the rig's worktree directory and the city's, no session
      home, named after a closed bead, of known and sufficient age. */
  ghost predicate Discovered(norm: Norm, s: Setup, w: Worktree) {
    && norm(w.path).Some?
    && norm(s.rigDir).Some? && norm(s.rigDir).value < norm(w.path).value
    && norm(s.wtRoot).Some? && norm(s.wtRoot).value < norm(w.path).value
    && !HasPrefix(norm(w.path).value[|norm(s.wtRoot).value|], "..")
    && w.leaf !in s.homes && w.beadId != "" && w.status == Some("closed")
    && w.age.Some? && (s.minAge > 0 ==> w.age.value >= s.minAge)
  }

  /** Discovered, and with nothing live in it and nothing to lose in git. */
  ghost predicate MeetsGates(norm: Norm, s: Setup, w: Worktree) {
    && Discovered(norm, s, w)
    && s.scanned && Idle(norm, s, w.path)
    && !w.uncommitted && !w.unpushed && !w.stashes
  }

  /** A bead that is neither closed nor a tombstone names the path. */
  ghost predicate WorksIn(norm: Norm, b: Bead, path: string) {
    && b.status != "closed" && b.status != "tombstone"
    && ((Trim(b.workDir) != "" && norm(Trim(b.workDir)) == norm(path)) || (Trim(b.legacyWorkDir) != "" && norm(Trim(b.legacyWorkDir)) == norm(path)))
  }

  lemma DiscoveredIsCandidate(norm: Norm, s: Setup, w: Worktree)
    requires CleanInputs(norm, s)
    ensures Discovered(norm, s, w) <==> Candidate(norm, s, w)
  {
    if norm(w.path).Some? && norm(s.rigDir).Some? {
      AtOrUnderIsContainment(norm(s.rigDir).value, norm(w.path).value);
    }
    if norm(w.path).Some? && norm(s.wtRoot).Some? {
      StrictlyUnderIsContainment(norm(s.wtRoot).value, norm(w.path).value);
    }
  }

  lemma IdleIsNotLive(norm: Norm, s: Setup, path: string)
    requires CleanInputs(norm, s) && norm(path).Some?
    ensures Idle(norm, s, path) <==> !IsLive(norm, s, path)
  {
    forall i | 0 <= i < |s.cwds| ensures PathAtOrUnder(norm(path).value, s.cwds[i]) <==> norm(path).value <= s.cwds[i] {
      AtOrUnderIsContainment(norm(path).value, s.cwds[i]);
    }
    forall i | 0 <= i < |s.sessionDirs| && norm(s.sessionDirs[i]).Some?
      ensures PathAtOrUnder(norm(path).value, norm(s.sessionDirs[i]).value) <==> norm(path).value <= norm(s.sessionDirs[i]).value
    {
      AtOrUnderIsContainment(norm(path).value, norm(s.sessionDirs[i]).value);
    }
  }

  /** A worktree of the list is planned exactly when it meets every gate and
      the batch charges no live bead to it. */
  lemma PlannedExactlyWhen(norm: Norm, s: Setup, ws: seq<Worktree>, beads: seq<Bead>, w: Worktree)
    requires CleanInputs(norm, s)
    ensures w in Plan(norm, s, ws, Some(beads)) <==>
            w in ws && MeetsGates(norm, s, w) && VetoIds(norm, Paths(Candidates(norm, s, ws)), beads, w.path) == []
  {
    CandidatesMeaning(norm, s, ws);
    PassingMeaning(norm, s, Paths(Candidates(norm, s, ws)), beads, Candidates(norm, s, ws));
    DiscoveredIsCandidate(norm, s, w);
    if norm(w.path).Some? {
      IdleIsNotLive(norm, s, w.path);
    }
  }

  /** A real run reaps exactly the planned worktrees whose removal works. */
  lemma {:induction false} ReapedIs(plan: seq<Worktree>, removable: set<string>, w: Worktree)
    ensures w in Removed(plan, removable) <==> w in plan && w.path in removable
  {
    if plan != [] {
      ReapedIs(plan[..|plan| - 1], removable, w);
      assert plan == plan[..|plan| - 1] + [plan[|plan| - 1]];
    }
  }

  /** Every worktree a pass sets out to remove meets all gates together. A live
      bead can still work in it only if the batch charged every such bead to
      another candidate, or a later candidate is the same path. */
  lemma PlannedMeetsEveryGate(norm: Norm, s: Setup, ws: seq<Worktree>, beads: seq<Bead>, w: Worktree)
    requires CleanInputs(norm, s) && w in Plan(norm, s, ws, Some(beads))
    ensures w in ws && norm(s.rigDir).Some? && norm(w.path).Some? && norm(s.rigDir).value < norm(w.path).value
    ensures w.leaf !in s.homes && w.status == Some("closed") && w.age.Some? && (s.minAge > 0 ==> w.age.value >= s.minAge)
    ensures s.scanned && Idle(norm, s, w.path) && !w.uncommitted && !w.unpushed && !w.stashes
    ensures var paths := Paths(Candidates(norm, s, ws));
            || !IsLastOfItsPath(norm, paths, w.path)
            || forall b | b in beads && WorksIn(norm, b, w.path) :: Elsewhere(norm, paths, b, w.path)
  {
    PlannedExactlyWhen(norm, s, ws, beads, w);
    var cands := Candidates(norm, s, ws);
    CandidatesMeaning(norm, s, ws);
    DiscoveredIsCandidate(norm, s, w);
    var k :| 0 <= k < |cands| && cands[k] == w;
    assert Paths(cands)[k] == w.path;
    VetoedExactlyWhen(norm, Paths(cands), beads, w.path);
  }

  /** A worktree that meets every gate and in which no live bead works is
      planned: the reaper does reap. */
  lemma UnborrowedIsPlanned(norm: Norm, s: Setup, ws: seq<Worktree>, beads: seq<Bead>, w: Worktree)
    requires CleanInputs(norm, s) && w in ws && MeetsGates(norm, s, w)
    requires forall b | b in beads :: !WorksIn(norm, b, w.path)
    ensures w in Plan(norm, s, ws, Some(beads))
  {
    PlannedExactlyWhen(norm, s, ws, beads, w);
    var cands := Candidates(norm, s, ws);
    CandidatesMeaning(norm, s, ws);
    DiscoveredIsCandidate(norm, s, w);
    var k :| 0 <= k < |cands| && cands[k] == w;
    assert Paths(cands)[k] == w.path;
    VetoedExactlyWhen(norm, Paths(cands), beads, w.path);
  }

  /** No later candidate normalises to the same path under another name. */
  ghost predicate IsLastOfItsPath(norm: Norm, paths: seq<string>, path: string) {
    exists i | 0 <= i < |paths| :: paths[i] == path && forall k | i < k < |paths| :: norm(paths[k]) != norm(path)
  }

  /** The bead's first key names a candidate other than the path. */
  ghost predicate Elsewhere(norm: Norm, paths: seq<string>, b: Bead, path: string) {
    && Trim(b.workDir) != "" && norm(Trim(b.workDir)) != norm(path)
    && exists i | 0 <= i < |paths| :: norm(paths[i]) == norm(Trim(b.workDir))
  }

  lemma {:induction false} LastRawIs(norm: Norm, paths: seq<string>, path: string)
    ensures LastRaw(norm, paths, norm(path)) == Some(path) <==> IsLastOfItsPath(norm, paths, path)
  {
    if paths != [] {
      var n := |paths| - 1;
      var rest := paths[..n];
      LastRawIs(norm, rest, path);
      if norm(paths[n]) != norm(path) {
        if i :| 0 <= i < |rest| && rest[i] == path && forall k | i < k < |rest| :: norm(rest[k]) != norm(path) {
          assert paths[i] == path && forall k | i < k < |paths| :: norm(paths[k]) != norm(path);
        }
        if i :| 0 <= i < |paths| && paths[i] == path && forall k | i < k < |paths| :: norm(paths[k]) != norm(path) {
          assert rest[i] == path && forall k | i < k < |rest| :: norm(rest[k]) != norm(path);
        }
      } else if paths[n] == path {
        assert paths[n] == path;
      }
    }
  }

  lemma ElsewhereIsCharged(norm: Norm, paths: seq<string>, b: Bead, path: string)
    ensures Elsewhere(norm, paths, b, path) <==> ChargedElsewhere(norm, paths, b, path)
    ensures WorksIn(norm, b, path) <==> Borrows(norm, b, path)
  {
    LastRawMeaning(norm, paths, norm(Trim(b.workDir)));
  }

  /** The batched veto, in the fields of the beads. */
  lemma VetoedExactlyWhen(norm: Norm, paths: seq<string>, beads: seq<Bead>, path: string)
    requires path in paths
    ensures VetoIds(norm, paths, beads, path) != [] <==>
            IsLastOfItsPath(norm, paths, path) && exists b | b in beads :: WorksIn(norm, b, path) && !Elsewhere(norm, paths, b, path)
  {
    BatchedVetoExactlyWhen(norm, paths, beads, path);
    LastRawIs(norm, paths, path);
    forall b ensures Elsewhere(norm, paths, b, path) <==> ChargedElsewhere(norm, paths, b, path)
             ensures WorksIn(norm, b, path) <==> Borrows(norm, b, path)
    {
      ElsewhereIsCharged(norm, paths, b, path);
    }
    if b :| b in beads && WorksIn(norm, b, path) && !Elsewhere(norm, paths, b, path) {
      var i :| 0 <= i < |beads| && beads[i] == b;
      assert Borrows(norm, beads[i], path);
    }
  }

  /** No live bead's keys name two different candidates. */
  ghost predicate NoSplitBorrower(norm: Norm, paths: seq<string>, beads: seq<Bead>) {
    forall b | b in beads && !Terminal(b) && HitOf(norm, paths, b.workDir).Some? && HitOf(norm, paths, b.legacyWorkDir).Some? ::
      norm(Trim(b.workDir)) == norm(Trim(b.legacyWorkDir))
  }

  ghost predicate NormalizeDistinctly(norm: Norm, paths: seq<string>) {
    forall p, q | p in paths && q in paths && norm(p) == norm(q) :: p == q
  }

  /** Then the batched veto is the per-candidate veto. */
  lemma BatchedVetoIsPerCandidate(norm: Norm, paths: seq<string>, beads: seq<Bead>, path: string)
    requires path in paths && NormalizeDistinctly(norm, paths) && NoSplitBorrower(norm, paths, beads)
    ensures VetoIds(norm, paths, beads, path) != [] <==> VetoIds(norm, [path], beads, path) != []
  {
    BatchedVetoExactlyWhen(norm, paths, beads, path);
    SingleVetoIsBorrow(norm, beads, path);
    LastRawMeaning(norm, paths, norm(path));
    if i :| 0 <= i < |beads| && Borrows(norm, beads[i], path) {
      UnsplitIsCharged(norm, paths, beads, beads[i], path);
    }
  }

  lemma UnsplitIsCharged(norm: Norm, paths: seq<string>, beads: seq<Bead>, b: Bead, path: string)
    requires path in paths && NoSplitBorrower(norm, paths, beads) && b in beads && Borrows(norm, b, path)
    ensures !ChargedElsewhere(norm, paths, b, path)
  {
    LastRawMeaning(norm, paths, norm(Trim(b.workDir)));
    LastRawMeaning(norm, paths, norm(Trim(b.legacyWorkDir)));
  }

  /** So nothing a live bead borrows is ever planned. */
  lemma NoBorrowedWorktreeIsPlanned(norm: Norm, s: Setup, ws: seq<Worktree>, beads: seq<Bead>, w: Worktree)
    requires w in Plan(norm, s, ws, Some(beads))
    requires var paths := Paths(Candidates(norm, s, ws)); NormalizeDistinctly(norm, paths) && NoSplitBorrower(norm, paths, beads)
    ensures !Borrowed(norm, beads, w.path)
  {
    var cands := Candidates(norm, s, ws);
    var paths := Paths(cands);
    PassingMeaning(norm, s, paths, beads, cands);
    var k :| 0 <= k < |cands| && cands[k] == w;
    assert paths[k] == w.path;
    BatchedVetoIsPerCandidate(norm, paths, beads, w.path);
    SingleVetoIsBorrow(norm, beads, w.path);
  }
}
