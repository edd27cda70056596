/** Lexical containment of normalised paths: the relative-path tests of
    pathAtOrUnder (cmd/gc/bead_worktree_liveness.go) and isStrictlyUnderDir
    (cmd/gc/bead_worktree_reaper.go). */
module PathContainment {
  import opened Prelude

  /** An absolute, cleaned path as its components. */
  type Path = seq<string>

  predicate CleanName(c: string) {
    c != "" && c != "." && c != ".." && '/' !in c
  }

  predicate CleanPath(p: Path) {
    forall i | 0 <= i < |p| :: CleanName(p[i])
  }

  function Join(p: Path): string {
    if p == [] then "" else if |p| == 1 then p[0] else p[0] + "/" + Join(p[1..])
  }

  function Ups(n: nat): Path {
    if n == 0 then [] else [".."] + Ups(n - 1)
  }

  function Common(a: Path, b: Path): (n: nat)
    ensures n <= |a| && n <= |b| && a[..n] == b[..n]
    ensures n < |a| && n < |b| ==> a[n] != b[n]
  {
    if a == [] || b == [] || a[0] != b[0] then 0
    else
      var n := Common(a[1..], b[1..]);
      assert a[..n + 1] == [a[0]] + a[1..][..n] && b[..n + 1] == [b[0]] + b[1..][..n];
      n + 1
  }

  /** filepath.Rel on two absolute, cleaned paths. */
  function Rel(base: Path, target: Path): string {
    if base == target then "."
    else
      var n := Common(base, target);
      Join(Ups(|base| - n) + target[n..])
  }

  predicate PathAtOrUnder(root: Path, candidate: Path) {
    root == candidate || (Rel(root, candidate) != ".." && !HasPrefix(Rel(root, candidate), "../"))
  }

  predicate StrictlyUnderDir(dir: Path, path: Path) {
    Rel(dir, path) != "." && !HasPrefix(Rel(dir, path), "..")
  }

  lemma JoinHead(p: Path)
    requires p != []
    ensures Join(p) == p[0] || HasPrefix(Join(p), p[0] + "/")
    ensures HasPrefix(Join(p), p[0])
  {
  }

  /** A clean name keeps its first component recognisable in the joined path. */
  lemma JoinNotUp(p: Path)
    requires p != [] && CleanName(p[0])
    ensures Join(p) != ".." && !HasPrefix(Join(p), "../") && Join(p) != "."
    ensures HasPrefix(Join(p), "..") <==> HasPrefix(p[0], "..")
  {
    var j, c := Join(p), p[0];
    JoinHead(p);
    assert |c| <= |j| && j[..|c|] == c;
    if |p| > 1 {
      assert j == (c + "/") + Join(p[1..]);
      assert j[|c|] == '/';
    }
    if |c| >= 2 {
      assert j[..2] == c[..2];
    }
    if |j| >= 3 {
      assert j[..3][..2] == j[..2] && j[..3][2] == j[2];
    }
    if |c| >= 3 {
      assert j[2] == c[2] && c[2] in c;
    }
  }

  lemma RelShape(base: Path, target: Path)
    requires CleanPath(base) && CleanPath(target)
    ensures base < target ==> Rel(base, target) == Join(target[|base|..])
    ensures !(base <= target) ==> Rel(base, target) == ".." || HasPrefix(Rel(base, target), "../")
  {
    var n := Common(base, target);
    if base < target {
      assert n == |base|;
      assert Ups(0) + target[n..] == target[n..];
    } else if !(base <= target) {
      assert n < |base|;
      var p := Ups(|base| - n) + target[n..];
      assert p[0] == "..";
      JoinHead(p);
      assert p[0] + "/" == "../";
    }
  }

  /** The relative-path test is containment of components: at or beneath. */
  lemma AtOrUnderIsContainment(root: Path, candidate: Path)
    requires CleanPath(root) && CleanPath(candidate)
    ensures PathAtOrUnder(root, candidate) <==> root <= candidate
  {
    RelShape(root, candidate);
    if root < candidate {
      JoinNotUp(candidate[|root|..]);
    }
  }

  /** The guard of the reaper is strict containment, short of children whose
      own name begins with two dots, which it leaves alone. */
  lemma StrictlyUnderIsContainment(dir: Path, path: Path)
    requires CleanPath(dir) && CleanPath(path)
    ensures StrictlyUnderDir(dir, path) <==> dir < path && !HasPrefix(path[|dir|], "..")
  {
    RelShape(dir, path);
    if dir < path {
      JoinNotUp(path[|dir|..]);
    } else if dir != path {
      var rel := Rel(dir, path);
      if HasPrefix(rel, "../") {
        assert rel[..2] == rel[..3][..2] == "..";
      }
    }
  }
}
