/** The repair of a city's builtin imports over its two manifests (Fix in
    cmd/gc/builtin_include_doctor_check.go): the imports land in pack.toml before
    city.toml loses the includes they replace. */
module ImportFix {
  import opened Prelude
  import opened BundledImports
  import opened ManifestMigration

  /** The canonical import of each builtin pack, by name. A reference to a
      pack under the retired tree classifies through its name. */
  predicate Named(canon: map<string, Import>, cat: Catalog) {
    && WellFormed(cat)
    && (forall n | n in canon :: Canonical(cat, canon[n]))
    && forall r | r in cat.bundled :: cat.bundled[r].name in canon && cat.bundled[r].imp == canon[cat.bundled[r].name]
  }

  // ---- the imports to land ---------------------------------------------------------

  predicate FromInclude(cat: Catalog, includes: seq<string>, n: string) {
    exists i | 0 <= i < |includes| && includes[i] in cat.bundled :: cat.bundled[includes[i]].name == n
  }

  predicate IsWanted(canon: map<string, Import>, cat: Catalog, missing: seq<string>, includes: seq<string>, n: string) {
    (n in missing && n in canon) || FromInclude(cat, includes, n)
  }

  lemma IncludeSnoc(cat: Catalog, includes: seq<string>, i: nat, n: string)
    requires i < |includes|
    ensures FromInclude(cat, includes[..i + 1], n) <==>
            FromInclude(cat, includes[..i], n) || (includes[i] in cat.bundled && cat.bundled[includes[i]].name == n)
  {
    var less, more := includes[..i], includes[..i + 1];
    assert more[i] == includes[i] && forall k | 0 <= k < i :: more[k] == less[k];
  }

  /** builtinImportsForNames: names without a canonical source are left out. */
  method ImportsForNames(canon: map<string, Import>, names: seq<string>) returns (order: seq<string>)
    ensures forall n :: n in order <==> n in names && n in canon
  {
    order := [];
    for i := 0 to |names|
      invariant forall n :: n in order <==> n in names[..i] && n in canon
    {
      assert names[..i + 1] == names[..i] + [names[i]];
      if names[i] in canon {
        order := order + [names[i]];
      }
    }
    assert names[..|names|] == names;
  }

  /** The missing packs, and every pack whose workspace include is stripped. */
  method ImportsToLand(canon: map<string, Import>, cat: Catalog, missing: seq<string>, includes: seq<string>) returns (order: seq<string>)
    requires Named(canon, cat)
    ensures forall n :: n in order <==> IsWanted(canon, cat, missing, includes, n)
  {
    order := ImportsForNames(canon, missing);
    for i := 0 to |includes|
      invariant forall n :: n in order <==> IsWanted(canon, cat, missing, includes[..i], n)
    {
      forall n ensures FromInclude(cat, includes[..i + 1], n) <==>
                       FromInclude(cat, includes[..i], n) || (includes[i] in cat.bundled && cat.bundled[includes[i]].name == n) {
        IncludeSnoc(cat, includes, i, n);
      }
      if includes[i] in cat.bundled && cat.bundled[includes[i]].name !in order {
        order := order + [cat.bundled[includes[i]].name];
      }
    }
    assert includes[..|includes|] == includes;
  }

  ghost predicate AllStandIn(canon: map<string, Import>, pack: Imports, order: seq<string>) {
    forall n | n in order && n in canon :: HasStandIn(pack, canon[n].source)
  }

  lemma StandInKept(before: Imports, after: Imports, source: string)
    requires Extends(before, after) && HasStandIn(before, source)
    ensures HasStandIn(after, source)
  {
    var b :| b in before && StandsIn(before[b], source);
    assert StandsIn(after[b], source);
  }

  lemma StandInSnoc(canon: map<string, Import>, before: Imports, after: Imports, order: seq<string>, n: string)
    requires AllStandIn(canon, before, order) && Extends(before, after) && n in canon && HasStandIn(after, canon[n].source)
    ensures AllStandIn(canon, after, order + [n])
  {
    forall m | m in order + [n] && m in canon ensures HasStandIn(after, canon[m].source) {
      if m in order {
        StandInKept(before, after, canon[m].source);
      }
    }
  }

  /** `out` is `pack` with the imports of `done` landed. */
  ghost predicate LandedFrom(canon: map<string, Import>, pack: Imports, done: seq<string>, out: Imports) {
    Extends(pack, out) && AllStandIn(canon, out, done) && SpecialsKept(pack, out)
  }

  /** Some binding of a wanted pack has options of its own and another pin. */
  ghost predicate Clashes(canon: map<string, Import>, pack: Imports, order: seq<string>) {
    exists n, b :: n in order && n in canon && ConflictsAt(pack, canon[n], b)
  }

  lemma LandedStep(canon: map<string, Import>, pack: Imports, done: seq<string>, out: Imports, n: string, next: Imports)
    requires LandedFrom(canon, pack, done, out) && Extends(out, next) && SpecialsKept(out, next) && n in canon && HasStandIn(next, canon[n].source)
    ensures LandedFrom(canon, pack, done + [n], next)
  {
    StandInSnoc(canon, out, next, done, n);
    ExtendsTransitive(pack, out, next);
  }

  method LandNext(canon: map<string, Import>, cat: Catalog, pack: Imports, done: seq<string>, out: Imports, n: string)
    returns (r: Option<Imports>)
    requires LandedFrom(canon, pack, done, out) && n in canon && Canonical(cat, canon[n])
    ensures r.Some? ==> LandedFrom(canon, pack, done + [n], r.value)
    ensures HasStandIn(out, canon[n].source) ==> r == Some(out)
    ensures r.None? ==> exists b :: ConflictsAt(pack, canon[n], b)
  {
    r := LandOne(cat, out, n, canon[n]);
    if r.Some? {
      LandedStep(canon, pack, done, out, n, r.value);
    } else {
      ghost var b :| ConflictsAt(out, canon[n], b);
      assert ConflictsAt(pack, canon[n], b);
    }
  }

  /** Lands the imports one after the other; None when one is refused. */
  method LandAll(canon: map<string, Import>, cat: Catalog, pack: Imports, order: seq<string>) returns (r: Option<Imports>)
    requires forall n | n in order :: n in canon && Canonical(cat, canon[n])
    ensures r.Some? ==> LandedFrom(canon, pack, order, r.value)
    ensures AllStandIn(canon, pack, order) ==> r == Some(pack)
    ensures r.None? ==> Clashes(canon, pack, order)
  {
    r := Some(pack);
    for i := 0 to |order|
      invariant r.Some? && LandedFrom(canon, pack, order[..i], r.value)
      invariant AllStandIn(canon, pack, order) ==> r.value == pack
    {
      assert order[..i + 1] == order[..i] + [order[i]];
      r := LandNext(canon, cat, pack, order[..i], r.value, order[i]);
      if r.None? {
        return;
      }
    }
    assert order[..|order|] == order;
  }

  // ---- the two files ---------------------------------------------------------------------

  /** Which of the reads, writes and the final resync work. */
  datatype Faults = Faults(packLoads: bool, packWrites: bool, cityWrites: bool, resyncs: bool)

  /** Every builtin pack `before` included is still included or imported. */
  ghost predicate StillComposed(cat: Catalog, before: City, pack: Imports, city: City) {
    forall i | 0 <= i < |before.includes| && before.includes[i] in cat.bundled ::
      before.includes[i] in city.includes || HasStandIn(pack, cat.bundled[before.includes[i]].imp.source)
  }

  ghost predicate Settled(canon: map<string, Import>, cat: Catalog, missing: seq<string>, pack: Imports, city: City) {
    CleanCity(cat, city) && AllStandIn(canon, pack, missing)
  }

  lemma WantedCovers(canon: map<string, Import>, cat: Catalog, missing: seq<string>, city: City, order: seq<string>, pack: Imports)
    requires Named(canon, cat) && AllStandIn(canon, pack, order)
    requires forall n :: n in order <==> IsWanted(canon, cat, missing, city.includes, n)
    ensures AllStandIn(canon, pack, missing)
    ensures forall i | 0 <= i < |city.includes| && city.includes[i] in cat.bundled :: HasStandIn(pack, cat.bundled[city.includes[i]].imp.source)
  {
    forall n | n in missing && n in canon ensures HasStandIn(pack, canon[n].source) {
      assert IsWanted(canon, cat, missing, city.includes, n);
    }
    forall i | 0 <= i < |city.includes| && city.includes[i] in cat.bundled
      ensures HasStandIn(pack, cat.bundled[city.includes[i]].imp.source)
    {
      var n := cat.bundled[city.includes[i]].name;
      assert FromInclude(cat, city.includes, n) && IsWanted(canon, cat, missing, city.includes, n);
    }
  }

  lemma SettledWantsNothingNew(canon: map<string, Import>, cat: Catalog, missing: seq<string>, city: City, order: seq<string>, pack: Imports)
    requires Named(canon, cat) && Settled(canon, cat, missing, pack, city)
    requires forall n :: n in order <==> IsWanted(canon, cat, missing, city.includes, n)
    ensures AllStandIn(canon, pack, order)
  {
    forall n | n in order && n in canon ensures HasStandIn(pack, canon[n].source) {
      assert IsWanted(canon, cat, missing, city.includes, n);
    }
  }

  /** How the repair ends. */
  datatype End = Fixed | PackUnread | LandingRefused | PackUnwritten | MigrationRefused | CityUnwritten | ResyncFailed

  class Files {
    var pack: Imports
    var city: City

    /** Step 1: pack.toml gains the imports, before city.toml changes. It stops
        only at a read or write that fails, or at a binding that clashes. */
    method LandImports(canon: map<string, Import>, cat: Catalog, missing: seq<string>, f: Faults) returns (r: End, any: bool)
      requires Named(canon, cat)
      modifies this`pack
      ensures Extends(old(pack), pack) && (r != Fixed ==> pack == old(pack)) && (pack != old(pack) ==> any && f.packLoads && f.packWrites)
      ensures r == Fixed ==> AllStandIn(canon, pack, missing) && StillComposed(cat, city, pack, city.(includes := []))
      ensures Settled(canon, cat, missing, old(pack), city) ==> pack == old(pack) && (f.packLoads ==> r == Fixed)
      ensures Stopped(r, f, canon, cat, missing, old(pack), city)
      ensures r == Fixed || r == PackUnread || r == LandingRefused || r == PackUnwritten
      ensures any <==> exists n :: IsWanted(canon, cat, missing, city.includes, n)
      ensures any && r == Fixed ==> f.packLoads
    {
      var order := ImportsToLand(canon, cat, missing, city.includes);
      any := order != [];
      assert any ==> order[0] in order;
      if any {
        if !f.packLoads {
          return PackUnread, any;
        }
        if Settled(canon, cat, missing, pack, city) {
          SettledWantsNothingNew(canon, cat, missing, city, order, pack);
        }
        var landed := LandAll(canon, cat, pack, order);
        if landed.None? {
          ClashIsWanted(canon, cat, missing, city.includes, order, pack);
          return LandingRefused, any;
        }
        WantedCovers(canon, cat, missing, city, order, landed.value);
        if landed.value != pack {
          if !f.packWrites {
            return PackUnwritten, any;
          }
          pack := landed.value;
        }
      } else {
        WantedCovers(canon, cat, missing, city, order, pack);
      }
      return Fixed, any;
    }

    /** The whole repair. Wherever it stops, also between the two writes, no
        scope has lost a pack; each stop has its cause; a success is complete,
        and a repair of what a success left writes nothing. */
    method Fix(canon: map<string, Import>, cat: Catalog, missing: seq<string>, f: Faults) returns (r: End)
      requires Named(canon, cat)
      modifies this
      ensures Extends(old(pack), pack) && StillComposed(cat, old(city), pack, city)
      ensures city == old(city) || Migrated(cat, old(city), city)
      ensures pack != old(pack) ==> f.packLoads && f.packWrites
      ensures city != old(city) ==> f.cityWrites
      ensures r == Fixed || r == ResyncFailed ==> Settled(canon, cat, missing, pack, city) && Migrated(cat, old(city), city)
      ensures Stopped(r, f, canon, cat, missing, old(pack), old(city))
      ensures Settled(canon, cat, missing, old(pack), old(city)) ==>
                pack == old(pack) && city == old(city) && (f.packLoads && f.resyncs ==> r == Fixed)
      ensures r == Fixed && (pack != old(pack) || city != old(city)) ==> f.resyncs
    {
      var landed, any := LandImports(canon, cat, missing, f);
      if landed != Fixed {
        return landed;
      }
      var manifest := new Manifest(city);
      var changed := manifest.Migrate(cat);
      if changed.None? {
        return MigrationRefused;
      }
      if changed.value {
        if !f.cityWrites {
          return CityUnwritten;
        }
        city := manifest.Value();
      }
      if !any && !changed.value {
        return Fixed;
      }
      return if f.resyncs then Fixed else ResyncFailed;
    }
  }

  /** Every stop is due to what it says. */
  ghost predicate Stopped(r: End, f: Faults, canon: map<string, Import>, cat: Catalog, missing: seq<string>, pack: Imports, city: City) {
    && (r == PackUnread ==> !f.packLoads) && (r == PackUnwritten ==> !f.packWrites)
    && (r == CityUnwritten ==> !f.cityWrites) && (r == ResyncFailed ==> !f.resyncs)
    && (r == LandingRefused ==> exists n, b :: IsWanted(canon, cat, missing, city.includes, n) && n in canon && ConflictsAt(pack, canon[n], b))
  }

  lemma ClashIsWanted(canon: map<string, Import>, cat: Catalog, missing: seq<string>, includes: seq<string>, order: seq<string>, pack: Imports)
    requires Clashes(canon, pack, order) && forall n :: n in order <==> IsWanted(canon, cat, missing, includes, n)
    ensures exists n, b :: IsWanted(canon, cat, missing, includes, n) && n in canon && ConflictsAt(pack, canon[n], b)
  {
    var n, b :| n in order && n in canon && ConflictsAt(pack, canon[n], b);
    assert IsWanted(canon, cat, missing, includes, n);
  }

  method FixTwice(files: Files, canon: map<string, Import>, cat: Catalog, missing: seq<string>, f: Faults, g: Faults)
    returns (first: End, second: End, once: (Imports, City))
    requires Named(canon, cat)
    modifies files
    ensures first == Fixed && g.packLoads && g.resyncs ==> second == Fixed
    ensures first == Fixed ==> once == (files.pack, files.city)
  {
    first := files.Fix(canon, cat, missing, f);
    once := (files.pack, files.city);
    second := files.Fix(canon, cat, missing, g);
  }
}
