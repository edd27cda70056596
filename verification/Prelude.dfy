/** Small value types and string helpers shared by every component. */
module Prelude {

  datatype Option<+T> = None | Some(value: T)

  datatype Result<+T> = Ok(value: T) | Err(error: string)

  /** Go's unicode.IsSpace, the character class strings.TrimSpace removes. */
  predicate IsSpace(c: char) {
    || c == ' ' || '\t' <= c <= '\r'
    || c == '\U{0085}' || c == '\U{00A0}' || c == '\U{1680}'
    || '\U{2000}' <= c <= '\U{200a}'
    || c == '\U{2028}' || c == '\U{2029}' || c == '\U{202f}' || c == '\U{205f}' || c == '\U{3000}'
  }

  function TrimLeft(s: string): string {
    if s != [] && IsSpace(s[0]) then TrimLeft(s[1..]) else s
  }

  function TrimRight(s: string): string {
    if s != [] && IsSpace(s[|s| - 1]) then TrimRight(s[..|s| - 1]) else s
  }

  /** strings.TrimSpace. */
  function Trim(s: string): string {
    TrimRight(TrimLeft(s))
  }

  predicate Blank(s: string) {
    Trim(s) == ""
  }

  predicate HasPrefix(s: string, p: string) {
    |p| <= |s| && s[..|p|] == p
  }

  /** Pairwise distinct elements. */
  predicate Distinct<T(==)>(s: seq<T>) {
    forall i, j | 0 <= i < j < |s| :: s[i] != s[j]
  }

  lemma {:induction false} TrimRightShape(s: string)
    ensures TrimRight(s) == [] || !IsSpace(TrimRight(s)[|TrimRight(s)| - 1])
    ensures TrimRight(s) <= s
  {
    if s != [] && IsSpace(s[|s| - 1]) {
      TrimRightShape(s[..|s| - 1]);
    }
  }

  lemma {:induction false} TrimLeftShape(s: string)
    ensures TrimLeft(s) == [] || !IsSpace(TrimLeft(s)[0])
  {
    if s != [] && IsSpace(s[0]) {
      TrimLeftShape(s[1..]);
    }
  }

  /** Trimming is idempotent, so a trimmed key compares equal to its own trim. */
  lemma TrimIdempotent(s: string)
    ensures Trim(Trim(s)) == Trim(s)
  {
    TrimLeftShape(s);
    TrimRightShape(TrimLeft(s));
    var t := Trim(s);
    assert TrimLeft(t) == t;
    assert TrimRight(t) == t;
  }

  predicate AllSpace(s: string) {
    forall i | 0 <= i < |s| :: IsSpace(s[i])
  }

  lemma {:induction false} TrimLeftOf(a: string, t: string)
    requires AllSpace(a) && (t == [] || !IsSpace(t[0]))
    ensures TrimLeft(a + t) == t
  {
    if a == [] {
      assert a + t == t;
    } else {
      assert (a + t)[1..] == a[1..] + t;
      TrimLeftOf(a[1..], t);
    }
  }

  lemma {:induction false} TrimRightOf(t: string, b: string)
    requires AllSpace(b) && (t == [] || !IsSpace(t[|t| - 1]))
    ensures TrimRight(t + b) == t
  {
    if b == [] {
      assert t + b == t;
    } else {
      var s := t + b;
      assert s[..|s| - 1] == t + b[..|b| - 1];
      TrimRightOf(t, b[..|b| - 1]);
    }
  }

  /** Trimming takes off exactly the surrounding space: whatever lies between,
      inner space included, comes back. */
  lemma TrimOf(a: string, t: string, b: string)
    requires AllSpace(a) && AllSpace(b)
    requires t == [] || (!IsSpace(t[0]) && !IsSpace(t[|t| - 1]))
    ensures Trim(a + t + b) == t
  {
    if t == [] {
      assert a + t + b == (a + b) + [] && AllSpace(a + b);
      TrimLeftOf(a + b, []);
    } else {
      assert a + t + b == a + (t + b);
      TrimLeftOf(a, t + b);
      TrimRightOf(t, b);
    }
  }

  /** The same for what a reader can see: blanks, tabs and line ends around
      printable ends. */
  lemma TrimsBlanks(a: string, t: string, b: string)
    requires forall i | 0 <= i < |a| :: a[i] == ' ' || a[i] == '\t' || a[i] == '\n' || a[i] == '\r'
    requires forall i | 0 <= i < |b| :: b[i] == ' ' || b[i] == '\t' || b[i] == '\n' || b[i] == '\r'
    requires t == [] || ('!' <= t[0] <= '~' && '!' <= t[|t| - 1] <= '~')
    ensures Trim(a + t + b) == t
  {
    TrimOf(a, t, b);
  }

  /** A label in front of a trimmed text needs no trimming. */
  lemma TrimLabelled(p: string, n: string)
    requires p != "" && !IsSpace(p[0]) && Trim(n) == n != ""
    ensures Trim(p + n) == p + n
  {
    TrimRightShape(TrimLeft(n));
    assert [] + (p + n) + [] == p + n;
    TrimOf([], p + n, []);
  }

  lemma PrefixSplits(s: string, p: string)
    ensures HasPrefix(s, p) <==> exists rest: string :: s == p + rest
    ensures HasPrefix(s, p) ==> s == p + s[|p|..]
  {
    if HasPrefix(s, p) {
      assert s == p + s[|p|..];
    }
    if rest: string :| s == p + rest {
      assert s[..|p|] == p;
    }
  }

  // ---- order-preserving selections ------------------------------------------------

  /** `out` is the rows at the positions `at`, in their order. */
  ghost predicate Picks<T>(rows: seq<T>, out: seq<T>, at: seq<nat>) {
    && |at| == |out|
    && (forall k, m | 0 <= k < m < |at| :: at[k] < at[m])
    && forall k | 0 <= k < |at| :: at[k] < |rows| && out[k] == rows[at[k]]
  }

  lemma PicksSnoc<T>(rows: seq<T>, out: seq<T>, at: seq<nat>)
    requires rows != [] && Picks(rows[..|rows| - 1], out, at)
    ensures Picks(rows, out, at) && Picks(rows, out + [rows[|rows| - 1]], at + [|rows| - 1])
  {
  }

  /** `out` is exactly the rows marked in `oks`. */
  ghost predicate PicksExactly<T>(rows: seq<T>, oks: seq<bool>, out: seq<T>, at: seq<nat>) {
    |oks| == |rows| && Picks(rows, out, at) && forall i: nat | i < |rows| :: i in at <==> oks[i]
  }

  lemma PicksExactlySnoc<T>(rows: seq<T>, oks: seq<bool>, out: seq<T>, at: seq<nat>)
    requires rows != [] && |oks| == |rows| && PicksExactly(rows[..|rows| - 1], oks[..|rows| - 1], out, at)
    ensures var n := |rows| - 1;
            PicksExactly(rows, oks, if oks[n] then out + [rows[n]] else out, if oks[n] then at + [n] else at)
  {
    var n := |rows| - 1;
    PicksSnoc(rows, out, at);
    assert forall i: nat | i < n :: oks[..n][i] == oks[i];
    assert forall i | i in at :: i < n;
  }
}
