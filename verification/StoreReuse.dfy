/** What a runtime delivery does to the stores (updateFromRuntime and
    sameStoreTopology in cmd/gc/api_state.go), in the fields of the installed
    state and of the delivered config. */
module StoreReuse {
  import opened Prelude
  import opened ConfigReload

  /** Entry i is the one that counts for n: no later entry has that name. */
  ghost predicate Counts(rigs: seq<Rig>, i: int, n: string) {
    0 <= i < |rigs| && rigs[i].name == n && forall k | i < k < |rigs| :: rigs[k].name != n
  }

  ghost predicate Mentions(rigs: seq<Rig>, n: string) {
    exists i | 0 <= i < |rigs| :: rigs[i].name == n
  }

  /** Equal prefixes and equal roots, a rig without a path having none. As
      resolved roots are not empty, both or neither have a path. */
  ghost predicate SameRig(a: Rig, b: Rig) {
    a.prefix == b.prefix && (if Trim(a.path) == "" then "" else a.root) == (if Trim(b.path) == "" then "" else b.root)
  }

  ghost predicate AgreeOn(a: seq<Rig>, b: seq<Rig>, n: string) {
    && (Mentions(a, n) <==> Mentions(b, n))
    && forall i, j | Counts(a, i, n) && Counts(b, j, n) :: SameRig(a[i], b[j])
  }

  /** The same rig names, and the entries that count agree. */
  ghost predicate RigsAgree(a: seq<Rig>, b: seq<Rig>) {
    forall n :: AgreeOn(a, b, n)
  }

  lemma MentionsSnoc(rigs: seq<Rig>, n: string)
    requires rigs != [] && rigs[|rigs| - 1].name != n
    ensures Mentions(rigs, n) <==> Mentions(rigs[..|rigs| - 1], n)
    ensures forall i :: Counts(rigs, i, n) <==> Counts(rigs[..|rigs| - 1], i, n)
  {
    var rest := rigs[..|rigs| - 1];
    assert forall m | 0 <= m < |rest| :: rest[m] == rigs[m];
  }

  /** A name that is mentioned has an entry that counts, the one the map of the
      topology holds. */
  lemma {:induction false} TopologyAt(rigs: seq<Rig>, n: string) returns (i: int)
    ensures n in TopologyRigs(rigs) <==> Mentions(rigs, n)
    ensures Mentions(rigs, n) ==> Counts(rigs, i, n) && TopologyRigs(rigs)[n] == TopologyOf(rigs[i])
  {
    i := |rigs| - 1;
    if rigs != [] && rigs[i].name != n {
      MentionsSnoc(rigs, n);
      i := TopologyAt(rigs[..i], n);
    }
  }

  lemma {:induction false} PathAt(rigs: seq<Rig>, n: string) returns (i: int)
    ensures if Mentions(rigs, n) then Counts(rigs, i, n) && PathOf(rigs, n) == Trim(rigs[i].path) else PathOf(rigs, n) == ""
  {
    i := |rigs| - 1;
    if rigs != [] && rigs[i].name != n {
      MentionsSnoc(rigs, n);
      i := PathAt(rigs[..i], n);
    }
  }

  lemma OneEntryCounts(rigs: seq<Rig>, n: string, i: int, j: int)
    requires Counts(rigs, i, n) && Counts(rigs, j, n)
    ensures i == j
  {
  }

  lemma SameRigIsTopology(a: Rig, b: Rig)
    ensures SameRig(a, b) <==> TopologyOf(a) == TopologyOf(b)
  {
  }

  lemma AgreeOnIsTopology(a: seq<Rig>, b: seq<Rig>, n: string)
    ensures AgreeOn(a, b, n) <==>
            (n in TopologyRigs(a) <==> n in TopologyRigs(b)) && (n in TopologyRigs(a) ==> n in TopologyRigs(b) && TopologyRigs(a)[n] == TopologyRigs(b)[n])
  {
    var i := TopologyAt(a, n);
    var j := TopologyAt(b, n);
    if Mentions(a, n) && Mentions(b, n) {
      SameRigIsTopology(a[i], b[j]);
      forall x, y | Counts(a, x, n) && Counts(b, y, n) ensures x == i && y == j {
        OneEntryCounts(a, n, x, i);
        OneEntryCounts(b, n, y, j);
      }
    }
  }

  lemma RigsAgreeIsTopology(a: seq<Rig>, b: seq<Rig>)
    ensures RigsAgree(a, b) <==> TopologyRigs(a) == TopologyRigs(b)
  {
    var x, y := TopologyRigs(a), TopologyRigs(b);
    forall n ensures AgreeOn(a, b, n) <==> (n in x <==> n in y) && (n in x ==> n in y && x[n] == y[n]) {
      AgreeOnIsTopology(a, b, n);
    }
    if RigsAgree(a, b) {
      assert forall n | n in x :: AgreeOn(a, b, n);
      assert forall n | n in y :: AgreeOn(a, b, n);
      assert x.Keys == y.Keys;
    }
  }

  /** The installed stores still serve the delivered config. */
  ghost predicate StoresServe(c: Ctl, next: City, signature: string) {
    && c.cityStore.Some? && c.cfg.Some?
    && Trim(c.cfg.value.beadsProvider) == Trim(next.beadsProvider)
    && Trim(c.cfg.value.mailProvider) == Trim(next.mailProvider)
    && c.cfg.value.hqPrefix == next.hqPrefix
    && RigsAgree(c.cfg.value.rigs, next.rigs)
    && (c.signature == "" || c.signature == signature)
    && forall i | 0 <= i < |next.rigs| && Trim(next.rigs[i].path) != "" ::
         next.rigs[i].name in c.rigStores && c.rigStores[next.rigs[i].name].Some?
  }

  /** An accepted delivery installs its config and ends the pending phase. It
      keeps every store and closes none when the stores still serve it, and in
      every other case replaces the rig stores by the opened ones. */
  lemma AcceptedDeliveryKeepsStoresExactlyWhen(c: Ctl, next: City, rev: string, current: Option<string>, signature: string, o: Opened)
    requires Accepts(c, next, rev, current)
    ensures var d := Deliver(c, next, rev, current, signature, o);
            && d.cfg == Some(next) && !d.pending && d.pendingRev == "" && d.cityPath == c.cityPath
            && if StoresServe(c, next, signature)
               then d.rigStores == c.rigStores && d.cityStore == c.cityStore && d.signature == c.signature && d.closing == c.closing
               else
                 && d.rigStores == o.rigs
                 && d.cityStore == (if o.city.Some? then o.city else c.cityStore)
                 && d.signature == (if o.city.Some? then o.signature else c.signature)
  {
    if c.cfg.Some? {
      RigsAgreeIsTopology(c.cfg.value.rigs, next.rigs);
    }
  }

  /** What a rebuild closes: every rig handle it does not reuse, and the city
      handle if another was opened. */
  lemma RebuildCloses(c: Ctl, next: City, o: Opened, h: Handle)
    ensures var rig := (exists n | n in c.rigStores :: c.rigStores[n] == Some(h)) && !(exists n | n in o.rigs :: o.rigs[n] == Some(h));
            var city := c.cityStore == Some(h) && o.city.Some? && o.city != Some(h);
            Update(c, next, o).closing[h] == c.closing[h] + (if rig then 1 else 0) + (if city then 1 else 0)
  {
    assert h in Handles(c.rigStores) <==> exists n | n in c.rigStores :: c.rigStores[n] == Some(h);
    assert h in Handles(o.rigs) <==> exists n | n in o.rigs :: o.rigs[n] == Some(h);
  }

  /** A delivery is accepted exactly so. While a mutation is pending it has to
      carry the pending revision and lose no bound rig, or be the revision on
      disk; otherwise it has no revision or the one on disk. */
  lemma AcceptedExactlyWhen(c: Ctl, next: City, rev: string, current: Option<string>)
    ensures !c.pending ==> (Accepts(c, next, rev, current) <==> rev == "" || current == Some(rev))
    ensures c.pending && (c.pendingRev == "" || rev == "") ==> !Accepts(c, next, rev, current)
    ensures c.pending && c.pendingRev != "" && rev != "" && rev != c.pendingRev ==>
              (Accepts(c, next, rev, current) <==> current == Some(rev))
    ensures c.pending && c.pendingRev == rev != "" ==> (Accepts(c, next, rev, current) <==> !LosesRig(c.cfg, next))
  {
    if c.cfg.Some? {
      forall i | 0 <= i < |c.cfg.value.rigs| ensures Unbinds(next.rigs, c.cfg.value.rigs[i].name) <==> PathOf(next.rigs, c.cfg.value.rigs[i].name) == "" {
        UnbindsIsPath(next.rigs, c.cfg.value.rigs[i].name);
      }
    }
  }

  /** No entry that counts for n has a path. */
  ghost predicate Unbinds(rigs: seq<Rig>, n: string) {
    forall j | Counts(rigs, j, n) :: Trim(rigs[j].path) == ""
  }

  /** Some installed rig has a path that the delivered config takes away. */
  ghost predicate LosesRig(current: Option<City>, next: City) {
    current.Some? && exists i | 0 <= i < |current.value.rigs| :: Trim(current.value.rigs[i].path) != "" && Unbinds(next.rigs, current.value.rigs[i].name)
  }

  lemma UnbindsIsPath(rigs: seq<Rig>, n: string)
    ensures Unbinds(rigs, n) <==> PathOf(rigs, n) == ""
  {
    var i := PathAt(rigs, n);
    forall j | Counts(rigs, j, n) ensures j == i {
      assert Mentions(rigs, n);
      OneEntryCounts(rigs, n, i, j);
    }
  }

  // ---- a mutation in the fields of its inputs --------------------------------------------

  /** An API mutation: a failed snapshot or edit changes nothing; without a city
      path or a config it only leaves an empty pending revision; an edit that
      loads with a revision is installed with the opened stores and pending
      under that revision; any other edit changes nothing. */
  lemma MutationOutcome(c: Ctl, m: Mutation)
    ensures !m.Edits? ==> Mutate(c, m) == c
    ensures m.Edits? && (c.cityPath == "" || c.cfg.None?) ==> Mutate(c, m) == c.(pendingRev := "", pending := true)
    ensures m.Edits? && c.cityPath != "" && c.cfg.Some? && m.entry.Loads? && m.entry.rev != "" ==>
              var d := Mutate(c, m);
              && d.cfg == Some(m.entry.cfg) && d.pending && d.pendingRev == m.entry.rev
              && d.rigStores == m.o.rigs && d.cityStore == (if m.o.city.Some? then m.o.city else c.cityStore)
              && d.signature == (if m.o.city.Some? then m.o.signature else c.signature)
    ensures m.Edits? && c.cityPath != "" && c.cfg.Some? && !(m.entry.Loads? && m.entry.rev != "") ==> Mutate(c, m) == c
  {
  }

  /** What it leaves on disk: nothing new after a failed snapshot or a rolled
      back refresh, what a failed edit wrote, or the edit. */
  lemma MutationWrites(c: Ctl, m: Mutation)
    ensures m.SnapshotFails? ==> Written(c, m) == []
    ensures m.EditFails? ==> Written(c, m) == m.left
    ensures m.Edits? ==>
              Written(c, m) == if c.cityPath != "" && c.cfg.Some? && !(m.entry.Loads? && m.entry.rev != "") && m.restored then [] else [m.entry]
  {
  }
}
