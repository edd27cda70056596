/** The outcome of landing a bundled import, binding by binding
    (ensureBundledImportBinding in cmd/gc/builtin_include_doctor_check.go). */
module LandingCases {
  import opened Prelude
  import opened PoolSlotName
  import opened BundledImports

  /** Composed with default options: neither exported, nor cut off from its own
      imports, nor silenced. */
  ghost predicate Plain(i: Import) {
    !i.exported && !(i.transitive.Some? && !i.transitive.value) && (Trim(i.shadow) == "" || Trim(i.shadow) == "warn")
  }

  ghost predicate OfSource(imports: Imports, imp: Import, b: string) {
    b in imports && imports[b].source == imp.source
  }

  /** A plain, pinned binding of the source: nothing has to land. */
  ghost predicate Covers(imports: Imports, imp: Import, b: string) {
    OfSource(imports, imp, b) && Plain(imports[b]) && Trim(imports[b].version) != ""
  }

  /** A plain binding of the source that lacks a pin. */
  ghost predicate Unpinned(imports: Imports, imp: Import, b: string) {
    OfSource(imports, imp, b) && Plain(imports[b]) && Trim(imports[b].version) == ""
  }

  /** A binding with other options at another pin. */
  ghost predicate Clashes(imports: Imports, imp: Import, b: string) {
    OfSource(imports, imp, b) && !Plain(imports[b]) && Trim(imports[b].version) != "" && Trim(imports[b].version) != Trim(imp.version)
  }

  /** `a` comes before `b` byte by byte: a proper prefix, or smaller at the
      first difference. */
  ghost predicate Before(a: string, b: string) {
    exists k | 0 <= k <= |a| && k <= |b| :: a[..k] == b[..k] && (if k < |a| then k < |b| && a[k] < b[k] else k < |b|)
  }

  lemma {:induction false} BeforeIsLess(a: string, b: string)
    ensures Before(a, b) <==> Less(a, b)
  {
    if a != [] && b != [] && a[0] == b[0] {
      BeforeIsLess(a[1..], b[1..]);
      if k :| 0 <= k <= |a| && k <= |b| && a[..k] == b[..k] && (if k < |a| then k < |b| && a[k] < b[k] else k < |b|) {
        assert k > 0;
        assert a[1..][..k - 1] == a[..k][1..] && b[1..][..k - 1] == b[..k][1..];
      }
      if k :| 0 <= k <= |a[1..]| && k <= |b[1..]| && a[1..][..k] == b[1..][..k]
              && (if k < |a[1..]| then k < |b[1..]| && a[1..][k] < b[1..][k] else k < |b[1..]|) {
        assert a[..k + 1] == [a[0]] + a[1..][..k] && b[..k + 1] == [b[0]] + b[1..][..k];
      }
    } else {
      if Less(a, b) {
        assert a[..0] == b[..0];
      }
    }
  }

  /** The smallest of the bindings with a property. */
  ghost predicate Smallest(s: set<string>, b: string) {
    b in s && forall x | x in s :: x == b || Before(b, x)
  }

  lemma BindingIs(imports: Imports, imp: Import, b: string)
    ensures Covers(imports, imp, b) <==> b in imports && StandsIn(imports[b], imp.source)
    ensures Unpinned(imports, imp, b) <==> PinCandidate(imports, imp, b)
    ensures Clashes(imports, imp, b) <==> ConflictsAt(imports, imp, b)
  {
  }

  lemma CasesAre(imports: Imports, imp: Import)
    ensures HasStandIn(imports, imp.source) <==> exists b :: Covers(imports, imp, b)
    ensures Candidates(imports, imp) == set b | b in imports && Unpinned(imports, imp, b)
    ensures Conflicts(imports, imp) == set b | b in imports && Clashes(imports, imp, b)
  {
    forall b
      ensures Covers(imports, imp, b) <==> b in imports && StandsIn(imports[b], imp.source)
      ensures Unpinned(imports, imp, b) <==> PinCandidate(imports, imp, b)
      ensures Clashes(imports, imp, b) <==> ConflictsAt(imports, imp, b)
    {
      BindingIs(imports, imp, b);
    }
  }

  lemma LeastIs(order: seq<string>, imports: Imports, s: set<string>)
    requires OrderOf(imports, order) && s <= imports.Keys && "" !in imports
    ensures if s == {} then FoldLeast(order, s) == "" else FoldLeast(order, s) != "" && Smallest(s, FoldLeast(order, s))
  {
    FoldFindsLeast(order, s);
    assert Seen(order, s) == s;
    forall x ensures Before(FoldLeast(order, s), x) <==> Less(FoldLeast(order, s), x) {
      BeforeIsLess(FoldLeast(order, s), x);
    }
  }

  /** Without an empty binding: a covered source changes nothing; else a clash
      refuses and names the smallest; else the smallest unpinned binding gains
      the pin; else the import lands on a binding of its own. */
  lemma LandingOutcome(imports: Imports, order: seq<string>, name: string, imp: Import)
    requires OrderOf(imports, order) && "" !in imports
    ensures var r := Ensure(imports, order, name, imp);
            var clashes, unpinned := set b | b in imports && Clashes(imports, imp, b), set b | b in imports && Unpinned(imports, imp, b);
            if exists b :: Covers(imports, imp, b) then r == Landed(imports)
            else if clashes != {} then r.Refused? && Smallest(clashes, r.binding)
            else if unpinned != {} then exists b :: Smallest(unpinned, b) && r == Landed(imports[b := imports[b].(version := imp.version)])
            else exists b :: Own(imports, name, b) && r == Landed(imports[b := imp])
  {
    CasesAre(imports, imp);
    LeastIs(order, imports, Candidates(imports, imp));
    LeastIs(order, imports, Conflicts(imports, imp));
    OwnBinding(imports, name);
  }

  /** The binding a new import gets: its name ("import" without one), or that
      name with the smallest free number from 2. */
  ghost predicate Own(imports: Imports, name: string, b: string) {
    var base := if name == "" then "import" else name;
    if base !in imports then b == base
    else exists i: nat :: FirstFree(imports, base, i) && b == base + "-" + Decimal(i)
  }

  ghost predicate FirstFree(imports: Imports, base: string, i: nat) {
    i >= 2 && base + "-" + Decimal(i) !in imports && forall j: nat | 2 <= j < i :: base + "-" + Decimal(j) in imports
  }

  lemma OwnBinding(imports: Imports, name: string)
    ensures Own(imports, name, UniqueBinding(imports, name))
  {
    var base := if name == "" then "import" else name;
    if base in imports {
      FreeIsFirst(imports, base, 2, imports.Keys);
    }
  }

  lemma {:induction false} FreeIsFirst(imports: Imports, base: string, i: nat, left: set<string>)
    requires i >= 2 && (forall j | j >= i && Numbered(base, j) in imports :: Numbered(base, j) in left)
    requires forall j: nat | 2 <= j < i :: base + "-" + Decimal(j) in imports
    ensures exists k: nat :: FirstFree(imports, base, k) && FreeFrom(imports, base, i, left) == base + "-" + Decimal(k)
    decreases |left|
  {
    if Numbered(base, i) !in imports {
      assert FirstFree(imports, base, i);
    } else {
      forall j | j >= i + 1 && Numbered(base, j) in imports ensures Numbered(base, j) in left - {Numbered(base, i)} {
        if Numbered(base, j) == Numbered(base, i) {
          NumberedInjective(base, i, j);
        }
      }
      FreeIsFirst(imports, base, i + 1, left - {Numbered(base, i)});
    }
  }
}
