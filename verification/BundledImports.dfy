/** Landing a bundled import without narrowing what a scope composes
    (ensureBundledImportBinding in cmd/gc/builtin_include_doctor_check.go). The
    source ranges over a Go map, so the order of the bindings is arbitrary. */
module BundledImports {
  import opened Prelude
  import opened PoolSlotName

  datatype Import = Import(source: string, version: string, exported: bool, transitive: Option<bool>, shadow: string)

  type Imports = map<string, Import>

  predicate DefaultSemantics(i: Import) {
    !i.exported && i.transitive != Some(false) && (Blank(i.shadow) || Trim(i.shadow) == "warn")
  }

  predicate Pinned(i: Import) {
    !Blank(i.version)
  }

  /** What a conversion wants in the scope: the source at some pin, composed
      with default options. */
  predicate StandsIn(i: Import, source: string) {
    i.source == source && DefaultSemantics(i) && Pinned(i)
  }

  // ---- string order -----------------------------------------------------------

  predicate Less(a: string, b: string) {
    b != [] && (a == [] || a[0] < b[0] || (a[0] == b[0] && Less(a[1..], b[1..])))
  }

  lemma {:induction false} LessTotal(a: string, b: string)
    ensures a == b || Less(a, b) || Less(b, a)
    ensures !(Less(a, b) && Less(b, a)) && !Less(a, a)
  {
    if a != [] {
      LessTotal(a[1..], a[1..]);
      if b != [] {
        LessTotal(a[1..], b[1..]);
        if a[0] == b[0] && a[1..] == b[1..] {
          assert a == [a[0]] + a[1..] && b == [b[0]] + b[1..];
        }
      }
    }
  }

  lemma {:induction false} LessTransitive(a: string, b: string, c: string)
    requires Less(a, b) && Less(b, c)
    ensures Less(a, c)
  {
    if a != [] && a[0] == b[0] && b[0] == c[0] {
      LessTransitive(a[1..], b[1..], c[1..]);
    }
  }

  ghost predicate IsLeast(s: set<string>, m: string) {
    m in s && forall x | x in s :: x == m || Less(m, x)
  }

  // ---- a fresh binding ----------------------------------------------------------

  function Numbered(base: string, i: nat): string {
    base + "-" + Decimal(i)
  }

  lemma NumberedInjective(base: string, i: nat, j: nat)
    requires Numbered(base, i) == Numbered(base, j)
    ensures i == j
  {
    SlotDigitsOf(base, Decimal(i));
    SlotDigitsOf(base, Decimal(j));
    ValueOfDecimal(i);
    ValueOfDecimal(j);
  }

  /** The first free "base-N" from i on. `left` holds every later candidate
      that is taken. */
  function FreeFrom(target: Imports, base: string, i: nat, ghost left: set<string>): (r: string)
    requires forall j | j >= i && Numbered(base, j) in target :: Numbered(base, j) in left
    ensures r !in target
    decreases |left|
  {
    if Numbered(base, i) !in target then Numbered(base, i)
    else
      assert forall j | j >= i + 1 && Numbered(base, j) in target :: Numbered(base, j) in left - {Numbered(base, i)} by {
        forall j | j >= i + 1 && Numbered(base, j) in target ensures Numbered(base, j) in left - {Numbered(base, i)} {
          if Numbered(base, j) == Numbered(base, i) {
            NumberedInjective(base, i, j);
          }
        }
      }
      FreeFrom(target, base, i + 1, left - {Numbered(base, i)})
  }

  /** UniqueLegacyImportBinding: the base itself, or the first free number. */
  function UniqueBinding(target: Imports, name: string): (r: string)
    ensures r !in target
  {
    var base := if name == "" then "import" else name;
    if base !in target then base else FreeFrom(target, base, 2, target.Keys)
  }

  // ---- the scan -------------------------------------------------------------------

  /** The bindings that already stand in for the import. */
  ghost predicate HasStandIn(imports: Imports, source: string) {
    exists b | b in imports :: StandsIn(imports[b], source)
  }

  /** Same source and default options, but without a version. */
  predicate PinCandidate(imports: Imports, imp: Import, b: string) {
    b in imports && imports[b].source == imp.source && DefaultSemantics(imports[b]) && !Pinned(imports[b])
  }

  /** Same source, other options, pinned at another version. */
  predicate ConflictsAt(imports: Imports, imp: Import, b: string) {
    && b in imports && imports[b].source == imp.source && !DefaultSemantics(imports[b])
    && Pinned(imports[b]) && Trim(imports[b].version) != Trim(imp.version)
  }

  function Candidates(imports: Imports, imp: Import): set<string> {
    set b | b in imports && PinCandidate(imports, imp, b)
  }

  function Conflicts(imports: Imports, imp: Import): set<string> {
    set b | b in imports && ConflictsAt(imports, imp, b)
  }

  /** The running minimum as the loop keeps it, "" meaning none yet. */
  function Lower(cur: string, b: string): string {
    if cur == "" || Less(b, cur) then b else cur
  }

  /** What the loop holds after the bindings of `order`. */
  function FoldLeast(order: seq<string>, s: set<string>): string {
    if order == [] then ""
    else
      var cur, b := FoldLeast(order[..|order| - 1], s), order[|order| - 1];
      if b in s then Lower(cur, b) else cur
  }

  /** An iteration order of the map: every binding once. */
  ghost predicate OrderOf(imports: Imports, order: seq<string>) {
    Distinct(order) && forall b :: b in order <==> b in imports
  }

  datatype Outcome = Landed(imports: Imports) | Refused(binding: string)

  /** What happens once the scan is over. */
  function Conclude(imports: Imports, name: string, imp: Import, pin: string, conflict: string): Outcome {
    if conflict != "" then Refused(conflict)
    else if pin != "" && pin in imports then Landed(imports[pin := imports[pin].(version := imp.version)])
    else Landed(imports[UniqueBinding(imports, name) := imp])
  }

  /** The outcome for one iteration order. */
  ghost function Ensure(imports: Imports, order: seq<string>, name: string, imp: Import): Outcome {
    if HasStandIn(imports, imp.source) then Landed(imports)
    else Conclude(imports, name, imp, FoldLeast(order, Candidates(imports, imp)), FoldLeast(order, Conflicts(imports, imp)))
  }

  lemma {:induction false} FoldLeastIn(order: seq<string>, s: set<string>)
    ensures FoldLeast(order, s) == "" || (FoldLeast(order, s) in s && FoldLeast(order, s) in order)
  {
    if order != [] {
      FoldLeastIn(order[..|order| - 1], s);
    }
  }

  /** ensureBundledImportBinding: some order of the bindings explains it. */
  method EnsureBundledImportBinding(imports: Imports, name: string, imp: Import) returns (r: Outcome)
    ensures exists order :: OrderOf(imports, order) && r == Ensure(imports, order, name, imp)
  {
    ghost var order;
    r, order := ScanBindings(imports, name, imp);
  }

  /** The loop, visiting the bindings in any order. */
  method ScanBindings(imports: Imports, name: string, imp: Import) returns (r: Outcome, ghost order: seq<string>)
    ensures OrderOf(imports, order) && r == Ensure(imports, order, name, imp)
  {
    var pinInPlace, conflict := "", "";
    var todo := imports.Keys;
    order := [];
    ghost var candidates, conflicts := Candidates(imports, imp), Conflicts(imports, imp);
    while todo != {}
      invariant todo <= imports.Keys
      invariant Distinct(order) && forall b :: b in order <==> b in imports && b !in todo
      invariant forall b | b in order :: !StandsIn(imports[b], imp.source)
      invariant pinInPlace == FoldLeast(order, candidates) && conflict == FoldLeast(order, conflicts)
      decreases todo
    {
      var binding :| binding in todo;
      todo := todo - {binding};
      var existing := imports[binding];
      ghost var next := order + [binding];
      assert next[..|next| - 1] == order;
      if existing.source == imp.source && DefaultSemantics(existing) && Pinned(existing) {
        order := CompleteOrder(imports, next);
        return Landed(imports), order;
      }
      if existing.source == imp.source && !DefaultSemantics(existing) {
        if Pinned(existing) && Trim(existing.version) != Trim(imp.version) {
          conflict := Lower(conflict, binding);
        }
      } else if existing.source == imp.source {
        pinInPlace := Lower(pinInPlace, binding);
      }
      order := next;
    }
    FoldLeastIn(order, candidates);
    r := Conclude(imports, name, imp, pinInPlace, conflict);
  }

  /** Any distinct start can be completed to an order of the whole map. */
  lemma CompleteOrder(imports: Imports, start: seq<string>) returns (order: seq<string>)
    requires Distinct(start) && forall b | b in start :: b in imports
    ensures OrderOf(imports, order) && start <= order
  {
    order := start;
    var todo := imports.Keys - set b | b in start;
    while todo != {}
      invariant todo <= imports.Keys && Distinct(order) && start <= order
      invariant forall b :: b in order <==> b in imports && b !in todo
      decreases todo
    {
      var b :| b in todo;
      todo := todo - {b};
      order := order + [b];
    }
  }

  // ---- order independence -----------------------------------------------------------

  function Seen(order: seq<string>, s: set<string>): set<string> {
    set b | b in order && b in s
  }

  /** Without the empty binding the loop finds the least member, whatever the
      order. */
  lemma {:induction false} FoldFindsLeast(order: seq<string>, s: set<string>)
    requires !("" in order && "" in s)
    ensures var seen := Seen(order, s);
            if seen == {} then FoldLeast(order, s) == "" else FoldLeast(order, s) != "" && IsLeast(seen, FoldLeast(order, s))
  {
    if order != [] {
      var rest, b := order[..|order| - 1], order[|order| - 1];
      assert order == rest + [b];
      FoldFindsLeast(rest, s);
      var before, seen := Seen(rest, s), Seen(order, s);
      if b in s {
        assert seen == before + {b};
        var cur := FoldLeast(rest, s);
        forall x | x in seen ensures x == Lower(cur, b) || Less(Lower(cur, b), x) {
          LessTotal(cur, b);
          if cur != "" && Less(b, cur) && x != b && x != cur {
            LessTransitive(b, cur, x);
          }
        }
      } else {
        assert seen == before;
      }
    }
  }

  /** The empty binding wipes what the loop found before it. */
  lemma EmptyLastWins(order: seq<string>, s: set<string>)
    requires "" in s
    ensures FoldLeast(order + [""], s) == ""
  {
  }

  lemma {:induction false} EmptyFirstIsLost(order: seq<string>, s: set<string>)
    ensures FoldLeast([""] + order, s) == FoldLeast(order, s)
  {
    var all := [""] + order;
    if order == [] {
      assert all[..0] == [] && all == [""];
    } else {
      assert all[..|all| - 1] == [""] + order[..|order| - 1];
      EmptyFirstIsLost(order[..|order| - 1], s);
    }
  }

  ghost predicate HasEmptyAndOther(s: set<string>) {
    "" in s && exists b | b in s :: b != ""
  }

  /** The empty binding competes with another one for the same role. */
  ghost predicate OrderSensitive(imports: Imports, imp: Import) {
    && !HasStandIn(imports, imp.source)
    && (HasEmptyAndOther(Conflicts(imports, imp))
        || (Conflicts(imports, imp) == {} && HasEmptyAndOther(Candidates(imports, imp))))
  }

  lemma SameFold(imports: Imports, o1: seq<string>, o2: seq<string>, s: set<string>)
    requires OrderOf(imports, o1) && OrderOf(imports, o2) && s <= imports.Keys && !HasEmptyAndOther(s)
    ensures FoldLeast(o1, s) == FoldLeast(o2, s)
    ensures FoldLeast(o1, s) == "" <==> s <= {""}
  {
    if "" in s {
      FoldLeastIn(o1, s);
      FoldLeastIn(o2, s);
    } else {
      FoldFindsLeast(o1, s);
      FoldFindsLeast(o2, s);
      assert Seen(o1, s) == s == Seen(o2, s);
      if s != {} {
        LessTotal(FoldLeast(o1, s), FoldLeast(o2, s));
      }
    }
  }

  lemma InsensitiveAgrees(imports: Imports, o1: seq<string>, o2: seq<string>, name: string, imp: Import)
    requires OrderOf(imports, o1) && OrderOf(imports, o2) && !OrderSensitive(imports, imp)
    ensures Ensure(imports, o1, name, imp) == Ensure(imports, o2, name, imp)
  {
    var conflicts, candidates := Conflicts(imports, imp), Candidates(imports, imp);
    if !HasStandIn(imports, imp.source) {
      SameFold(imports, o1, o2, conflicts);
      if FoldLeast(o1, conflicts) == "" {
        if "" in conflicts {
          assert "" !in candidates;
        }
        SameFold(imports, o1, o2, candidates);
      }
    }
  }

  /** Two orders, with the empty binding first and last. */
  lemma EmptyFirstAndLast(imports: Imports) returns (rest: seq<string>)
    requires "" in imports
    ensures OrderOf(imports, [""] + rest) && OrderOf(imports, rest + [""]) && "" !in rest
  {
    var order := CompleteOrder(imports, [""]);
    rest := order[1..];
    assert order == [""] + rest;
    EmptyMovesLast(rest);
    forall b ensures b in rest + [""] <==> b in imports {
      assert b in rest + [""] <==> b in order;
    }
  }

  lemma EmptyMovesLast(rest: seq<string>)
    requires Distinct([""] + rest)
    ensures Distinct(rest + [""]) && "" !in rest
  {
    var first := [""] + rest;
    assert forall i | 0 <= i < |rest| :: first[i + 1] == rest[i] && first[0] != first[i + 1];
    var last := rest + [""];
    forall i, j | 0 <= i < j < |last| ensures last[i] != last[j] {
      if j < |rest| {
        assert first[i + 1] != first[j + 1];
      }
    }
  }

  /** A set with the empty binding and another one: the first order finds the
      other, the second finds nothing. */
  lemma EmptyEndsDiffer(imports: Imports, rest: seq<string>, s: set<string>)
    requires OrderOf(imports, [""] + rest) && "" !in rest && s <= imports.Keys && HasEmptyAndOther(s)
    ensures FoldLeast([""] + rest, s) != "" && FoldLeast([""] + rest, s) in s
    ensures FoldLeast(rest + [""], s) == ""
  {
    EmptyFirstIsLost(rest, s);
    EmptyLastWins(rest, s);
    FoldFindsLeast(rest, s);
    var other :| other in s && other != "";
    assert other in [""] + rest && other in rest;
    assert other in Seen(rest, s);
  }

  lemma SensitiveDiffers(imports: Imports, name: string, imp: Import) returns (o1: seq<string>, o2: seq<string>)
    requires OrderSensitive(imports, imp)
    ensures OrderOf(imports, o1) && OrderOf(imports, o2)
    ensures Ensure(imports, o1, name, imp) != Ensure(imports, o2, name, imp)
  {
    var conflicts, candidates := Conflicts(imports, imp), Candidates(imports, imp);
    var rest := EmptyFirstAndLast(imports);
    o1, o2 := [""] + rest, rest + [""];
    if HasEmptyAndOther(conflicts) {
      EmptyEndsDiffer(imports, rest, conflicts);
      assert Ensure(imports, o1, name, imp).Refused?;
    } else {
      EmptyEndsDiffer(imports, rest, candidates);
      FoldLeastIn(o1, conflicts);
      FoldLeastIn(o2, conflicts);
      assert UniqueBinding(imports, name) in Ensure(imports, o2, name, imp).imports;
      assert UniqueBinding(imports, name) !in Ensure(imports, o1, name, imp).imports;
    }
  }

  /** The outcome is the same for every iteration order exactly when the empty
      binding does not compete with another one. */
  lemma SameForEveryOrderExactlyWhen(imports: Imports, name: string, imp: Import)
    ensures (forall o1, o2 | OrderOf(imports, o1) && OrderOf(imports, o2) ::
               Ensure(imports, o1, name, imp) == Ensure(imports, o2, name, imp)) <==> !OrderSensitive(imports, imp)
  {
    if OrderSensitive(imports, imp) {
      var o1, o2 := SensitiveDiffers(imports, name, imp);
    } else {
      forall o1, o2 | OrderOf(imports, o1) && OrderOf(imports, o2)
        ensures Ensure(imports, o1, name, imp) == Ensure(imports, o2, name, imp)
      {
        InsensitiveAgrees(imports, o1, o2, name, imp);
      }
    }
  }

  /** An unpinned import of the source under "" and under "a": visited in this
      order "a" is pinned, visited in the other a third binding lands. */
  lemma EmptyBindingMakesOrderMatter()
    ensures var plain, imp := Import("s", "", false, None, ""), Import("s", "v", false, None, "");
            var imports: Imports := map["" := plain, "a" := plain];
            && OrderOf(imports, ["", "a"]) && OrderOf(imports, ["a", ""])
            && Ensure(imports, ["", "a"], "n", imp) == Landed(imports["a" := imp])
            && Ensure(imports, ["a", ""], "n", imp) == Landed(imports["n" := imp])
  {
    var plain, imp := Import("s", "", false, None, ""), Import("s", "v", false, None, "");
    var imports: Imports := map["" := plain, "a" := plain];
    assert Blank("") && !Blank("v");
    assert "" in Candidates(imports, imp) && "a" in Candidates(imports, imp) && Conflicts(imports, imp) == {};
    FoldTwo("", "a", Candidates(imports, imp));
    FoldTwo("a", "", Candidates(imports, imp));
    FoldTwo("", "a", {});
    FoldTwo("a", "", {});
    assert "n" !in imports;
  }

  lemma FoldTwo(a: string, b: string, s: set<string>)
    ensures a in s && b in s ==> FoldLeast([a, b], s) == Lower(Lower("", a), b)
    ensures s == {} ==> FoldLeast([a, b], s) == ""
  {
    assert [a, b][..1] == [a] && [a][..0] == [];
    assert FoldLeast([a], s) == if a in s then Lower("", a) else "";
  }

  // ---- what a landing keeps --------------------------------------------------------------

  /** A binding keeps its source and options, and its version unless it had
      none. */
  predicate Kept(before: Import, after: Import) {
    && after == before.(version := after.version)
    && (Pinned(before) ==> after == before)
  }

  ghost predicate Extends(before: Imports, after: Imports) {
    forall b | b in before :: b in after && Kept(before[b], after[b])
  }

  /** On success no binding is lost or redirected, and the scope imports the
      source pinned with default options; so landing it again, in any order,
      changes nothing. */
  lemma LandingComposes(imports: Imports, order: seq<string>, again: seq<string>, name: string, imp: Import)
    requires Ensure(imports, order, name, imp).Landed? && DefaultSemantics(imp) && Pinned(imp)
    ensures var after := Ensure(imports, order, name, imp).imports;
            Extends(imports, after) && HasStandIn(after, imp.source) && Ensure(after, again, name, imp) == Landed(after)
  {
    var after := Ensure(imports, order, name, imp).imports;
    if !HasStandIn(imports, imp.source) {
      var pin := FoldLeast(order, Candidates(imports, imp));
      FoldLeastIn(order, Candidates(imports, imp));
      if pin != "" && pin in imports {
        assert StandsIn(after[pin], imp.source);
      } else {
        assert StandsIn(after[UniqueBinding(imports, name)], imp.source);
      }
    }
  }

  /** The pins a scope holds for a source. */
  function Pins(imports: Imports, source: string): set<string> {
    set b | b in imports && imports[b].source == source && Pinned(imports[b]) :: Trim(imports[b].version)
  }

  lemma PinsWithoutStandIn(imports: Imports, imp: Import)
    requires !HasStandIn(imports, imp.source)
    ensures Pins(imports, imp.source) <= {Trim(imp.version)} <==> Conflicts(imports, imp) == {}
  {
    if b :| b in Conflicts(imports, imp) {
      assert Trim(imports[b].version) in Pins(imports, imp.source);
    } else {
      forall v | v in Pins(imports, imp.source) ensures v == Trim(imp.version) {
        var b :| b in imports && imports[b].source == imp.source && Pinned(imports[b]) && Trim(imports[b].version) == v;
        assert !StandsIn(imports[b], imp.source) && b !in Conflicts(imports, imp);
      }
    }
  }

  /** Where the import did not stand already, a success leaves the source at
      the bundled pin alone exactly when no other binding pins it elsewhere;
      the only way past that check is a conflict under the empty binding. */
  lemma SecondPinExactlyWhen(imports: Imports, order: seq<string>, name: string, imp: Import)
    requires OrderOf(imports, order) && Pinned(imp) && !HasStandIn(imports, imp.source)
    requires Ensure(imports, order, name, imp).Landed?
    ensures var after := Ensure(imports, order, name, imp).imports;
            && (Pins(after, imp.source) == {Trim(imp.version)} <==> Conflicts(imports, imp) == {})
            && (Conflicts(imports, imp) != {} ==> "" in Conflicts(imports, imp))
  {
    var conflicts := Conflicts(imports, imp);
    var after := Ensure(imports, order, name, imp).imports;
    PinsWithoutStandIn(imports, imp);
    if "" !in conflicts {
      FoldFindsLeast(order, conflicts);
      assert Seen(order, conflicts) == conflicts;
    }
    FoldLeastIn(order, Candidates(imports, imp));
    PinsAfter(imports, order, name, imp);
  }

  lemma PinsAfter(imports: Imports, order: seq<string>, name: string, imp: Import)
    requires OrderOf(imports, order) && Pinned(imp) && !HasStandIn(imports, imp.source)
    requires Ensure(imports, order, name, imp).Landed?
    ensures Pins(Ensure(imports, order, name, imp).imports, imp.source) == Pins(imports, imp.source) + {Trim(imp.version)}
  {
    var after := Ensure(imports, order, name, imp).imports;
    var pin := FoldLeast(order, Candidates(imports, imp));
    FoldLeastIn(order, Candidates(imports, imp));
    var at := if pin != "" && pin in imports then pin else UniqueBinding(imports, name);
    assert after[at].source == imp.source && after[at].version == imp.version;
    forall v | v in Pins(imports, imp.source) ensures v in Pins(after, imp.source) {
      var b :| b in imports && imports[b].source == imp.source && Pinned(imports[b]) && Trim(imports[b].version) == v;
      assert after[b] == imports[b];
    }
  }

  /** One exported import of the source under "", pinned elsewhere: the landing
      is not refused and the source ends at two pins. */
  lemma EmptyConflictLandsSecondPin()
    ensures var imp := Import("s", "v", false, None, "");
            var imports: Imports := map["" := Import("s", "w", true, None, "")];
            && Conflicts(imports, imp) == {""} && OrderOf(imports, [""])
            && Ensure(imports, [""], "n", imp) == Landed(imports["n" := imp])
            && Pins(imports["n" := imp], "s") == {"v", "w"}
  {
    var imp := Import("s", "v", false, None, "");
    var imports: Imports := map["" := Import("s", "w", true, None, "")];
    assert Trim("v") == "v" && Trim("w") == "w" && "v" != "w";
    assert Conflicts(imports, imp) == {""} && Candidates(imports, imp) == {};
    assert [""][..0] == [];
    assert FoldLeast([""], {""}) == "" && FoldLeast([""], {}) == "";
    assert "n" !in imports;
    var after := imports["n" := imp];
    assert after["n"] == imp && after[""] == imports[""];
    assert Trim(after["n"].version) in Pins(after, "s") && Trim(after[""].version) in Pins(after, "s");
  }
}
