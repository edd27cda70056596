/** The migration of a city manifest off the retired system-packs tree
    (migrateLegacySystemPacksManifest in cmd/gc/builtin_include_doctor_check.go):
    it narrows no scope and is a fixpoint on its second run. */
module ManifestMigration {
  import opened Prelude
  import opened BundledImports

  datatype Bundled = Bundled(imp: Import, name: string)

  /** How references classify: `bundled` has the canonical import of a
      reference to a builtin pack under the retired tree, `legacy` all
      references under that tree, `wave1` the public packs another check owns. */
  datatype Catalog = Catalog(bundled: map<string, Bundled>, legacy: set<string>, wave1: set<string>)

  /** Canonical imports are pinned, have default options and no longer point
      under the retired tree. */
  predicate Canonical(cat: Catalog, imp: Import) {
    DefaultSemantics(imp) && Pinned(imp) && imp.source !in cat.bundled
  }

  predicate WellFormed(cat: Catalog) {
    && cat.bundled.Keys <= cat.legacy
    && forall r | r in cat.bundled :: Canonical(cat, cat.bundled[r].imp)
  }

  // ---- import sources ---------------------------------------------------------

  predicate Stale(cat: Catalog, i: Import) {
    i.source !in cat.wave1 && i.source in cat.bundled
  }

  function Relocated(cat: Catalog, i: Import): Import {
    if Stale(cat, i)
    then i.(source := cat.bundled[i.source].imp.source, version := cat.bundled[i.source].imp.version)
    else i
  }

  function RelocatedAll(cat: Catalog, imports: Imports): Imports {
    map b | b in imports :: Relocated(cat, imports[b])
  }

  predicate CleanImports(cat: Catalog, imports: Imports) {
    forall b | b in imports :: !Stale(cat, imports[b])
  }

  method RewriteLegacySources(cat: Catalog, imports: Imports) returns (out: Imports, changed: bool)
    ensures out == RelocatedAll(cat, imports) && (changed <==> !CleanImports(cat, imports))
  {
    out, changed := imports, false;
    var todo := imports.Keys;
    while todo != {}
      invariant todo <= imports.Keys && out.Keys == imports.Keys
      invariant forall b | b in imports :: out[b] == if b in todo then imports[b] else Relocated(cat, imports[b])
      invariant changed <==> exists b | b in imports && b !in todo :: Stale(cat, imports[b])
      decreases todo
    {
      var binding :| binding in todo;
      todo := todo - {binding};
      if !Stale(cat, imports[binding]) {
        continue;
      }
      out := out[binding := Relocated(cat, imports[binding])];
      changed := true;
    }
  }

  lemma RelocatedIsClean(cat: Catalog, imports: Imports)
    requires WellFormed(cat)
    ensures CleanImports(cat, RelocatedAll(cat, imports))
    ensures CleanImports(cat, imports) ==> RelocatedAll(cat, imports) == imports
  {
  }

  // ---- includes ----------------------------------------------------------------

  function Unbundled(cat: Catalog, includes: seq<string>): seq<string> {
    if includes == [] then []
    else Unbundled(cat, includes[..|includes| - 1]) +
         if includes[|includes| - 1] in cat.bundled then [] else [includes[|includes| - 1]]
  }

  predicate CleanIncludes(cat: Catalog, includes: seq<string>) {
    forall i | 0 <= i < |includes| :: includes[i] !in cat.bundled
  }

  lemma {:induction false} UnbundledIsClean(cat: Catalog, includes: seq<string>)
    ensures CleanIncludes(cat, Unbundled(cat, includes))
    ensures CleanIncludes(cat, includes) ==> Unbundled(cat, includes) == includes
  {
    if includes != [] {
      UnbundledIsClean(cat, includes[..|includes| - 1]);
      assert includes == includes[..|includes| - 1] + [includes[|includes| - 1]];
    }
  }

  /** Every include of a builtin pack has a pinned import of that pack. */
  ghost predicate Composed(cat: Catalog, includes: seq<string>, imports: Imports) {
    forall i | 0 <= i < |includes| && includes[i] in cat.bundled ::
      HasStandIn(imports, cat.bundled[includes[i]].imp.source)
  }

  lemma ExtendsTransitive(a: Imports, b: Imports, c: Imports)
    requires Extends(a, b) && Extends(b, c)
    ensures Extends(a, c)
  {
  }

  /** A landing adds the import's own source and no other. */
  lemma LandingStaysClean(cat: Catalog, imports: Imports, order: seq<string>, name: string, imp: Import)
    requires CleanImports(cat, imports) && imp.source !in cat.bundled
    requires Ensure(imports, order, name, imp).Landed?
    ensures CleanImports(cat, Ensure(imports, order, name, imp).imports)
  {
  }

  /** Bindings with options of their own are those there were. */
  ghost predicate SpecialsKept(before: Imports, after: Imports) {
    forall b | b in after && !DefaultSemantics(after[b]) :: b in before && before[b] == after[b]
  }

  lemma SpecialsStay(imports: Imports, order: seq<string>, name: string, imp: Import)
    requires Ensure(imports, order, name, imp).Landed? && DefaultSemantics(imp)
    ensures SpecialsKept(imports, Ensure(imports, order, name, imp).imports)
  {
    FoldLeastIn(order, Candidates(imports, imp));
  }

  /** Lands the import of one builtin pack; None when it is refused. */
  method LandOne(cat: Catalog, imports: Imports, name: string, imp: Import) returns (r: Option<Imports>)
    requires Canonical(cat, imp)
    ensures r.Some? ==> Extends(imports, r.value) && HasStandIn(r.value, imp.source)
    ensures r.Some? && CleanImports(cat, imports) ==> CleanImports(cat, r.value)
    ensures HasStandIn(imports, imp.source) ==> r == Some(imports)
    ensures r.Some? ==> SpecialsKept(imports, r.value)
    ensures r.None? ==> exists b :: ConflictsAt(imports, imp, b)
  {
    var outcome := EnsureBundledImportBinding(imports, name, imp);
    ghost var order :| OrderOf(imports, order) && outcome == Ensure(imports, order, name, imp);
    if outcome.Refused? {
      FoldLeastIn(order, Conflicts(imports, imp));
      return None;
    }
    LandingComposes(imports, order, order, name, imp);
    SpecialsStay(imports, order, name, imp);
    if CleanImports(cat, imports) {
      LandingStaysClean(cat, imports, order, name, imp);
    }
    return Some(outcome.imports);
  }

  lemma {:induction false} ComposedStep(cat: Catalog, includes: seq<string>, inc: string, before: Imports, after: Imports)
    requires Composed(cat, includes, before) && Extends(before, after)
    requires inc in cat.bundled ==> HasStandIn(after, cat.bundled[inc].imp.source)
    ensures Composed(cat, includes + [inc], after)
  {
    var all := includes + [inc];
    forall i | 0 <= i < |all| && all[i] in cat.bundled ensures HasStandIn(after, cat.bundled[all[i]].imp.source) {
      if i < |includes| {
        assert all[i] == includes[i];
      }
    }
  }

  lemma {:induction false} IncludesStep(cat: Catalog, includes: seq<string>, inc: string)
    ensures Unbundled(cat, includes + [inc]) == Unbundled(cat, includes) + if inc in cat.bundled then [] else [inc]
    ensures CleanIncludes(cat, includes + [inc]) <==> CleanIncludes(cat, includes) && inc !in cat.bundled
  {
    var all := includes + [inc];
    assert all[..|all| - 1] == includes && all[|all| - 1] == inc;
    assert forall i | 0 <= i < |includes| :: all[i] == includes[i];
  }

  /** The includes of `done` converted: `out` and `kept` are what is left. */
  ghost predicate Converted(cat: Catalog, imports: Imports, done: seq<string>, out: Imports, kept: seq<string>, changed: bool) {
    && kept == Unbundled(cat, done) && (changed <==> !CleanIncludes(cat, done))
    && Extends(imports, out) && Composed(cat, done, out)
    && (CleanImports(cat, imports) ==> CleanImports(cat, out))
    && (!changed ==> out == imports)
  }

  lemma KeepStep(cat: Catalog, imports: Imports, done: seq<string>, inc: string, out: Imports, kept: seq<string>, changed: bool)
    requires Converted(cat, imports, done, out, kept, changed) && inc !in cat.bundled
    ensures Converted(cat, imports, done + [inc], out, kept + [inc], changed)
  {
    IncludesStep(cat, done, inc);
    ComposedStep(cat, done, inc, out, out);
  }

  lemma LandStep(cat: Catalog, imports: Imports, done: seq<string>, inc: string, out: Imports, kept: seq<string>, changed: bool, landed: Imports)
    requires Converted(cat, imports, done, out, kept, changed) && inc in cat.bundled
    requires Extends(out, landed) && HasStandIn(landed, cat.bundled[inc].imp.source) && (CleanImports(cat, out) ==> CleanImports(cat, landed))
    ensures Converted(cat, imports, done + [inc], landed, kept, true)
  {
    IncludesStep(cat, done, inc);
    ComposedStep(cat, done, inc, out, landed);
    ExtendsTransitive(imports, out, landed);
  }

  /** Converts a scope's includes to imports; None when a landing is refused.
      The order of the bindings in each landing is arbitrary. */
  method ConvertIncludes(cat: Catalog, imports: Imports, includes: seq<string>)
    returns (r: Option<Imports>, kept: seq<string>, changed: bool)
    requires WellFormed(cat)
    ensures r.Some? ==> Converted(cat, imports, includes, r.value, kept, changed)
    ensures CleanIncludes(cat, includes) ==> r == Some(imports)
  {
    var out := imports;
    kept, changed := [], false;
    for i := 0 to |includes|
      invariant Converted(cat, imports, includes[..i], out, kept, changed)
    {
      var inc := includes[i];
      assert includes[..i + 1] == includes[..i] + [inc];
      if inc !in cat.bundled {
        KeepStep(cat, imports, includes[..i], inc, out, kept, changed);
        kept := kept + [inc];
        continue;
      }
      var landed := LandOne(cat, out, cat.bundled[inc].name, cat.bundled[inc].imp);
      if landed.None? {
        return None, kept, changed;
      }
      LandStep(cat, imports, includes[..i], inc, out, kept, changed, landed.value);
      out, changed := landed.value, true;
    }
    assert includes[..|includes|] == includes;
    return Some(out), kept, changed;
  }

  // ---- the manifest ---------------------------------------------------------------

  datatype Rig = Rig(imports: Imports, includes: seq<string>)

  /** A legacy workspace include goes when its pack has a canonical import,
      landed before, or was folded into the core pack. */
  predicate Strips(cat: Catalog, inc: string) {
    inc in cat.legacy && (inc in cat.bundled || inc in cat.wave1)
  }

  function WithoutStripped(cat: Catalog, includes: seq<string>): seq<string> {
    if includes == [] then []
    else WithoutStripped(cat, includes[..|includes| - 1]) +
         if Strips(cat, includes[|includes| - 1]) then [] else [includes[|includes| - 1]]
  }

  predicate NoneStripped(cat: Catalog, includes: seq<string>) {
    forall i | 0 <= i < |includes| :: !Strips(cat, includes[i])
  }

  lemma {:induction false} KeptIsClean(cat: Catalog, includes: seq<string>)
    ensures NoneStripped(cat, WithoutStripped(cat, includes))
    ensures NoneStripped(cat, includes) ==> WithoutStripped(cat, includes) == includes
  {
    if includes != [] {
      KeptIsClean(cat, includes[..|includes| - 1]);
      assert includes == includes[..|includes| - 1] + [includes[|includes| - 1]];
    }
  }

  predicate CleanRig(cat: Catalog, r: Rig) {
    CleanImports(cat, r.imports) && CleanIncludes(cat, r.includes)
  }

  /** A rig after migration composes what it composed before: relocated
      bindings are kept and every converted include is imported. */
  ghost predicate RigMigrated(cat: Catalog, before: Rig, after: Rig) {
    && CleanRig(cat, after) && after.includes == Unbundled(cat, before.includes)
    && Extends(RelocatedAll(cat, before.imports), after.imports)
    && Composed(cat, before.includes, after.imports)
    && (CleanRig(cat, before) ==> after == before)
  }

  method MigrateRig(cat: Catalog, rig: Rig) returns (r: Option<Rig>, changed: bool)
    requires WellFormed(cat)
    ensures r.Some? ==> RigMigrated(cat, rig, r.value) && (changed <==> !CleanRig(cat, rig))
    ensures CleanRig(cat, rig) ==> r.Some?
  {
    var imports, rewritten := RewriteLegacySources(cat, rig.imports);
    RelocatedIsClean(cat, rig.imports);
    UnbundledIsClean(cat, rig.includes);
    var out, kept, converted := ConvertIncludes(cat, imports, rig.includes);
    if out.None? {
      return None, false;
    }
    return Some(Rig(out.value, kept)), rewritten || converted;
  }

  predicate OwnClean(cat: Catalog, imports: Imports, includes: seq<string>) {
    CleanImports(cat, imports) && NoneStripped(cat, includes)
  }

  predicate DefaultsClean(cat: Catalog, imports: Imports, includes: seq<string>) {
    CleanImports(cat, imports) && CleanIncludes(cat, includes)
  }

  predicate RigsClean(cat: Catalog, rigs: seq<Rig>) {
    forall i | 0 <= i < |rigs| :: CleanRig(cat, rigs[i])
  }

  ghost predicate RigsMigrated(cat: Catalog, before: seq<Rig>, after: seq<Rig>) {
    |after| == |before| && forall i | 0 <= i < |after| :: RigMigrated(cat, before[i], after[i])
  }

  /** The scope new rigs start from composes what it did. */
  ghost predicate DefaultsMigrated(cat: Catalog, imports: Imports, includes: seq<string>, imports': Imports, includes': seq<string>) {
    && DefaultsClean(cat, imports', includes') && includes' == Unbundled(cat, includes)
    && Extends(RelocatedAll(cat, imports), imports') && Composed(cat, includes, imports')
  }

  /** The manifest as written in city.toml. */
  datatype City = City(imports: Imports, defaultRigImports: Imports, includes: seq<string>, defaultRigIncludes: seq<string>, rigs: seq<Rig>)

  predicate CleanCity(cat: Catalog, c: City) {
    OwnClean(cat, c.imports, c.includes) && DefaultsClean(cat, c.defaultRigImports, c.defaultRigIncludes) && RigsClean(cat, c.rigs)
  }

  /** Sources are relocated, retired includes stripped, and the other scopes
      compose what they did. */
  ghost predicate Migrated(cat: Catalog, before: City, after: City) {
    && CleanCity(cat, after)
    && after.imports == RelocatedAll(cat, before.imports) && after.includes == WithoutStripped(cat, before.includes)
    && DefaultsMigrated(cat, before.defaultRigImports, before.defaultRigIncludes, after.defaultRigImports, after.defaultRigIncludes)
    && RigsMigrated(cat, before.rigs, after.rigs)
  }

  class Manifest {
    var imports: Imports
    var defaultRigImports: Imports
    var includes: seq<string>
    var defaultRigIncludes: seq<string>
    var rigs: seq<Rig>

    constructor (c: City)
      ensures Value() == c
    {
      imports, defaultRigImports, includes, defaultRigIncludes, rigs := c.imports, c.defaultRigImports, c.includes, c.defaultRigIncludes, c.rigs;
    }

    function Value(): City
      reads this
    {
      City(imports, defaultRigImports, includes, defaultRigIncludes, rigs)
    }

    method StripIncludes(cat: Catalog) returns (changed: bool)
      modifies this`includes
      ensures includes == WithoutStripped(cat, old(includes)) && (changed <==> !NoneStripped(cat, old(includes)))
    {
      var kept := [];
      changed := false;
      for i := 0 to |includes|
        invariant includes == old(includes)
        invariant kept == WithoutStripped(cat, includes[..i]) && (changed <==> !NoneStripped(cat, includes[..i]))
      {
        ghost var before := includes[..i + 1];
        assert before[..i] == includes[..i] && before[i] == includes[i];
        if Strips(cat, includes[i]) {
          changed := true;
        } else {
          kept := kept + [includes[i]];
        }
      }
      assert includes[..|includes|] == includes;
      includes := kept;
    }

    /** One migration of the manifest in memory; None is the refusal of a
        landing, after which nothing is written. A success leaves a clean
        manifest in which every scope still composes what it did; a manifest
        that is clean already does not change, so a second run is a no-op. */
    method Migrate(cat: Catalog) returns (r: Option<bool>)
      requires WellFormed(cat)
      modifies this
      ensures r.Some? ==> Migrated(cat, old(Value()), Value()) && (r.value <==> !CleanCity(cat, old(Value())))
      ensures CleanCity(cat, old(Value())) ==> r == Some(false) && Value() == old(Value())
    {
      var c1 := MigrateOwn(cat);
      var c2 := MigrateDefaults(cat);
      if c2.None? {
        return None;
      }
      var c3 := MigrateRigs(cat);
      if c3.None? {
        return None;
      }
      return Some(c1 || c2.value || c3.value);
    }

    /** The workspace's own imports and includes. */
    method MigrateOwn(cat: Catalog) returns (changed: bool)
      requires WellFormed(cat)
      modifies this`imports, this`includes
      ensures imports == RelocatedAll(cat, old(imports)) && includes == WithoutStripped(cat, old(includes))
      ensures OwnClean(cat, imports, includes) && (changed <==> !OwnClean(cat, old(imports), old(includes)))
      ensures !changed ==> imports == old(imports) && includes == old(includes)
    {
      RelocatedIsClean(cat, imports);
      KeptIsClean(cat, includes);
      var c1;
      imports, c1 := RewriteLegacySources(cat, imports);
      var c2 := StripIncludes(cat);
      return c1 || c2;
    }

    /** The imports and includes new rigs start from; a landing may be refused. */
    method MigrateDefaults(cat: Catalog) returns (r: Option<bool>)
      requires WellFormed(cat)
      modifies this`defaultRigImports, this`defaultRigIncludes
      ensures r.Some? ==> DefaultsMigrated(cat, old(defaultRigImports), old(defaultRigIncludes), defaultRigImports, defaultRigIncludes)
      ensures r.Some? ==> (r.value <==> !DefaultsClean(cat, old(defaultRigImports), old(defaultRigIncludes)))
      ensures DefaultsClean(cat, old(defaultRigImports), old(defaultRigIncludes)) ==>
                r == Some(false) && defaultRigImports == old(defaultRigImports) && defaultRigIncludes == old(defaultRigIncludes)
    {
      RelocatedIsClean(cat, defaultRigImports);
      UnbundledIsClean(cat, defaultRigIncludes);
      var moved, c1 := RewriteLegacySources(cat, defaultRigImports);
      var out, kept, c2 := ConvertIncludes(cat, moved, defaultRigIncludes);
      if out.None? {
        return None;
      }
      defaultRigImports, defaultRigIncludes := out.value, kept;
      return Some(c1 || c2);
    }

    method MigrateRigs(cat: Catalog) returns (r: Option<bool>)
      requires WellFormed(cat)
      modifies this`rigs
      ensures r.Some? ==> RigsMigrated(cat, old(rigs), rigs) && RigsClean(cat, rigs) && (r.value <==> !RigsClean(cat, old(rigs)))
      ensures RigsClean(cat, old(rigs)) ==> r.Some? && rigs == old(rigs)
    {
      var changed := false;
      for i := 0 to |rigs|
        invariant |rigs| == |old(rigs)|
        invariant forall k | 0 <= k < i :: RigMigrated(cat, old(rigs)[k], rigs[k])
        invariant forall k | i <= k < |rigs| :: rigs[k] == old(rigs)[k]
        invariant changed <==> exists k | 0 <= k < i :: !CleanRig(cat, old(rigs)[k])
      {
        var migrated, c := MigrateRig(cat, rigs[i]);
        if migrated.None? {
          return None;
        }
        rigs := rigs[i := migrated.value];
        changed := changed || c;
      }
      return Some(changed);
    }
  }

  /** Running the migration twice: the second run reports no change. */
  method MigrateTwice(m: Manifest, cat: Catalog) returns (first: Option<bool>, second: Option<bool>)
    requires WellFormed(cat)
    modifies m
    ensures first.Some? ==> second == Some(false)
  {
    first := m.Migrate(cat);
    second := m.Migrate(cat);
  }
}
