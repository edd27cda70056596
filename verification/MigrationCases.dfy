/** What a migrated manifest holds, reference by reference
    (migrateLegacySystemPacksManifest in
    cmd/gc/builtin_include_doctor_check.go). */
module MigrationCases {
  import opened Prelude
  import opened BundledImports
  import opened LandingCases
  import opened ManifestMigration

  /** An import whose source is a builtin pack under the retired tree, and not
      a public pack, moves to the pack's own source and pin; any other stays. */
  ghost predicate Moved(cat: Catalog, was: Import, now: Import) {
    if was.source in cat.bundled && was.source !in cat.wave1
    then now == was.(source := cat.bundled[was.source].imp.source, version := cat.bundled[was.source].imp.version)
    else now == was
  }

  ghost predicate AllMoved(cat: Catalog, was: Imports, now: Imports) {
    now.Keys == was.Keys && forall b | b in was :: Moved(cat, was[b], now[b])
  }

  lemma RelocatedMoves(cat: Catalog, imports: Imports)
    ensures AllMoved(cat, imports, RelocatedAll(cat, imports))
  {
  }

  // ---- includes ------------------------------------------------------------------

  ghost function NotBundled(cat: Catalog, includes: seq<string>): seq<bool> {
    seq(|includes|, i requires 0 <= i < |includes| => includes[i] !in cat.bundled)
  }

  /** Not under the retired tree, or neither a builtin nor a public pack. */
  ghost function NotRetired(cat: Catalog, includes: seq<string>): seq<bool> {
    seq(|includes|, i requires 0 <= i < |includes| =>
      !(includes[i] in cat.legacy && (includes[i] in cat.bundled || includes[i] in cat.wave1)))
  }

  lemma NotBundledSnoc(cat: Catalog, includes: seq<string>)
    requires includes != []
    ensures var n := |includes| - 1;
            && NotBundled(cat, includes)[..n] == NotBundled(cat, includes[..n])
            && Unbundled(cat, includes) == if NotBundled(cat, includes)[n] then Unbundled(cat, includes[..n]) + [includes[n]] else Unbundled(cat, includes[..n])
  {
  }

  lemma {:induction false} UnbundledPicks(cat: Catalog, includes: seq<string>) returns (at: seq<nat>)
    ensures PicksExactly(includes, NotBundled(cat, includes), Unbundled(cat, includes), at)
  {
    at := [];
    if includes != [] {
      var n, oks := |includes| - 1, NotBundled(cat, includes);
      var before := UnbundledPicks(cat, includes[..n]);
      NotBundledSnoc(cat, includes);
      PicksExactlySnoc(includes, oks, Unbundled(cat, includes[..n]), before);
      at := if oks[n] then before + [n] else before;
    }
  }

  lemma NotRetiredSnoc(cat: Catalog, includes: seq<string>)
    requires includes != []
    ensures var n := |includes| - 1;
            && NotRetired(cat, includes)[..n] == NotRetired(cat, includes[..n])
            && WithoutStripped(cat, includes) == if NotRetired(cat, includes)[n] then WithoutStripped(cat, includes[..n]) + [includes[n]] else WithoutStripped(cat, includes[..n])
  {
  }

  lemma {:induction false} StrippedPicks(cat: Catalog, includes: seq<string>) returns (at: seq<nat>)
    ensures PicksExactly(includes, NotRetired(cat, includes), WithoutStripped(cat, includes), at)
  {
    at := [];
    if includes != [] {
      var n, oks := |includes| - 1, NotRetired(cat, includes);
      var before := StrippedPicks(cat, includes[..n]);
      NotRetiredSnoc(cat, includes);
      PicksExactlySnoc(includes, oks, WithoutStripped(cat, includes[..n]), before);
      at := if oks[n] then before + [n] else before;
    }
  }

  // ---- scopes ---------------------------------------------------------------------

  /** Every binding of `was` keeps its source and options, and its pin if it
      has one. */
  ghost predicate NothingLost(was: Imports, now: Imports) {
    forall b | b in was ::
      && b in now && now[b].source == was[b].source && now[b].exported == was[b].exported
      && now[b].transitive == was[b].transitive && now[b].shadow == was[b].shadow
      && (Trim(was[b].version) != "" ==> now[b] == was[b])
  }

  /** A plain binding imports the source at some pin. */
  ghost predicate Brings(now: Imports, source: string) {
    exists b | b in now :: now[b].source == source && Plain(now[b]) && Trim(now[b].version) != ""
  }

  lemma ExtendsLosesNothing(was: Imports, now: Imports)
    requires Extends(was, now)
    ensures NothingLost(was, now)
  {
    forall b | b in was ensures b in now && Kept(was[b], now[b]) {
    }
  }

  lemma StandInImports(now: Imports, source: string)
    ensures HasStandIn(now, source) <==> Brings(now, source)
  {
    forall b | b in now ensures StandsIn(now[b], source) <==> now[b].source == source && Plain(now[b]) && Trim(now[b].version) != "" {
    }
  }

  /** A migrated rig: the includes of builtin packs are gone and imported, the
      others stay in order; moved imports are all still there. */
  lemma RigAfter(cat: Catalog, was: Rig, now: Rig) returns (moved: Imports, at: seq<nat>)
    requires RigMigrated(cat, was, now)
    ensures AllMoved(cat, was.imports, moved) && NothingLost(moved, now.imports)
    ensures PicksExactly(was.includes, NotBundled(cat, was.includes), now.includes, at)
    ensures forall i | 0 <= i < |was.includes| && was.includes[i] in cat.bundled :: Brings(now.imports, cat.bundled[was.includes[i]].imp.source)
  {
    moved := RelocatedAll(cat, was.imports);
    RelocatedMoves(cat, was.imports);
    ExtendsLosesNothing(moved, now.imports);
    at := UnbundledPicks(cat, was.includes);
    forall i | 0 <= i < |was.includes| && was.includes[i] in cat.bundled ensures Brings(now.imports, cat.bundled[was.includes[i]].imp.source) {
      StandInImports(now.imports, cat.bundled[was.includes[i]].imp.source);
    }
  }

  /** The workspace itself: imports moved, exactly the retired includes gone. */
  lemma WorkspaceAfter(cat: Catalog, was: City, now: City) returns (at: seq<nat>)
    requires Migrated(cat, was, now)
    ensures AllMoved(cat, was.imports, now.imports)
    ensures PicksExactly(was.includes, NotRetired(cat, was.includes), now.includes, at)
  {
    RelocatedMoves(cat, was.imports);
    at := StrippedPicks(cat, was.includes);
  }
}
