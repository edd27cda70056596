/** Default demand in the fields of targets and beads
    (defaultScaleCheckCountsAndDemand in cmd/gc/build_desired_state.go). */
module DemandFields {
  import opened Prelude
  import opened ScaleDemand

  /** Unassigned, claimable work routed to the template, or to a pool instance
      whose base it is. */
  ghost predicate Wants(bases: map<string, string>, b: Bead, n: string) {
    && Trim(b.assignee) == "" && !b.workflowRoot && Trim(b.route) != ""
    && (if Trim(b.route) in bases then bases[Trim(b.route)] == n else Trim(b.route) == n)
  }

  /** The target names a template and has a store to probe. */
  ghost predicate Probing(t: Target) {
    Trim(t.template) != "" && t.store.Some?
  }

  /** One store key, or no key and one store. */
  ghost predicate SameKey(t: Target, u: Target) {
    Trim(t.storeKey) == Trim(u.storeKey) && (Trim(t.storeKey) == "" ==> t.store == u.store)
  }

  /** Target i is the first with its key, so its store is the one probed. */
  ghost predicate Leads(targets: seq<Target>, i: int) {
    0 <= i < |targets| && Probing(targets[i]) && forall k | 0 <= k < i && Probing(targets[k]) :: !SameKey(targets[k], targets[i])
  }

  /** Target j of the template shares its key with the leading target i. */
  ghost predicate ProbedThrough(targets: seq<Target>, i: int, j: int, n: string) {
    Leads(targets, i) && 0 <= j < |targets| && Probing(targets[j]) && Trim(targets[j].template) == n && SameKey(targets[i], targets[j])
  }

  lemma KeysAgree(t: Target, u: Target)
    requires Probing(t) && Probing(u)
    ensures SameKey(t, u) <==> KeyOf(t) == KeyOf(u)
  {
  }

  lemma {:induction false} FirstStoreLeads(targets: seq<Target>, key: Key) returns (i: int)
    requires FirstStore(targets, key).Some?
    ensures 0 <= i < |targets| && Probing(targets[i]) && KeyOf(targets[i]) == key && targets[i].store == FirstStore(targets, key)
    ensures forall k | 0 <= k < i && Probing(targets[k]) :: KeyOf(targets[k]) != key
  {
    if Probes(targets[0]) && KeyOf(targets[0]) == key {
      i := 0;
    } else {
      var rest := targets[1..];
      var j := FirstStoreLeads(rest, key);
      i := j + 1;
      forall k | 0 <= k < i && Probing(targets[k]) ensures KeyOf(targets[k]) != key {
        assert k > 0 ==> targets[k] == rest[k - 1];
      }
    }
  }

  lemma LeaderIsFirst(targets: seq<Target>, key: Key) returns (i: int)
    requires FirstStore(targets, key).Some?
    ensures Leads(targets, i) && KeyOf(targets[i]) == key && targets[i].store == FirstStore(targets, key)
  {
    i := FirstStoreLeads(targets, key);
    forall k | 0 <= k < i && Probing(targets[k]) ensures !SameKey(targets[k], targets[i]) {
      KeysAgree(targets[k], targets[i]);
    }
  }

  lemma OneLeader(targets: seq<Target>, i: int, j: int)
    requires Leads(targets, i) && Leads(targets, j) && KeyOf(targets[i]) == KeyOf(targets[j])
    ensures i == j
  {
    KeysAgree(targets[i], targets[j]);
    KeysAgree(targets[j], targets[i]);
  }

  /** The store that answers for a template is the leading target's. */
  lemma ProbedStore(targets: seq<Target>, i: int, j: int, n: string)
    requires ProbedThrough(targets, i, j, n)
    ensures ProbesFor(targets, KeyOf(targets[i]), n) && FirstStore(targets, KeyOf(targets[i])) == targets[i].store
  {
    var key := KeyOf(targets[i]);
    KeysAgree(targets[i], targets[j]);
    assert ProbesFor(targets, key, n);
    ProbeHasFirstStore(targets, key, n);
    var l := LeaderIsFirst(targets, key);
    OneLeader(targets, i, l);
  }

  lemma ProbeLeads(targets: seq<Target>, key: Key, n: string) returns (i: int, j: int)
    requires ProbesFor(targets, key, n)
    ensures ProbedThrough(targets, i, j, n) && KeyOf(targets[i]) == key && targets[i].store == FirstStore(targets, key)
  {
    ProbeHasFirstStore(targets, key, n);
    i := LeaderIsFirst(targets, key);
    j :| 0 <= j < |targets| && Probes(targets[j]) && KeyOf(targets[j]) == key && Trim(targets[j].template) == n;
    KeysAgree(targets[i], targets[j]);
  }

  lemma WantsIsCounts(bases: map<string, string>, b: Bead, n: string)
    ensures Wants(bases, b, n) <==> Counts(bases, b, n)
  {
  }

  /** The store of target i did not fail and lists demand with that id. */
  ghost predicate Lists(bases: map<string, string>, targets: seq<Target>, stores: map<string, Ready>, i: int, n: string, id: string)
    requires Leads(targets, i)
  {
    && targets[i].store.value in stores && stores[targets[i].store.value].err != Hard
    && exists b | b in stores[targets[i].store.value].rows :: b.id == id && Wants(bases, b, n)
  }

  lemma ListsIsFound(bases: map<string, string>, targets: seq<Target>, stores: map<string, Ready>, i: int, n: string, id: string)
    requires Leads(targets, i) && targets[i].store.value in stores
    ensures Lists(bases, targets, stores, i, n, id) <==> FoundIn(bases, stores[targets[i].store.value], n, id)
  {
    forall b ensures Wants(bases, b, n) <==> Counts(bases, b, n) {
      WantsIsCounts(bases, b, n);
    }
  }

  /** A bead is demand for a template exactly when the store some probe of the
      template reaches lists it as unassigned, claimable work routed there. */
  lemma DemandedExactlyWhen(bases: map<string, string>, targets: seq<Target>, stores: map<string, Ready>, n: string, id: string)
    ensures Demanded(bases, targets, stores, n, id) <==>
            exists i, j :: ProbedThrough(targets, i, j, n) && Lists(bases, targets, stores, i, n, id)
  {
    if Demanded(bases, targets, stores, n, id) {
      var key, s :| ProbesFor(targets, key, n) && FirstStore(targets, key) == Some(s) && s in stores && FoundIn(bases, stores[s], n, id);
      var i, j := ProbeLeads(targets, key, n);
      ListsIsFound(bases, targets, stores, i, n, id);
    }
    if i, j :| ProbedThrough(targets, i, j, n) && Lists(bases, targets, stores, i, n, id) {
      ProbedStore(targets, i, j, n);
      ListsIsFound(bases, targets, stores, i, n, id);
    }
  }

  /** A template is marked partial exactly when one of its targets has an error
      or no store, or the store some probe reaches failed, even in part. */
  lemma PartialExactlyWhen(targets: seq<Target>, stores: map<string, Ready>, n: string)
    ensures IsPartial(targets, stores, n) <==>
            || (exists i | 0 <= i < |targets| :: Trim(targets[i].template) == n != "" && (targets[i].err || targets[i].store.None?))
            || (exists i, j :: ProbedThrough(targets, i, j, n) && targets[i].store.value in stores && stores[targets[i].store.value].err != NoError)
  {
    if key, s :| ProbesFor(targets, key, n) && FirstStore(targets, key) == Some(s) && s in stores && stores[s].err != NoError {
      var i, j := ProbeLeads(targets, key, n);
    }
    if i, j :| ProbedThrough(targets, i, j, n) && targets[i].store.value in stores && stores[targets[i].store.value].err != NoError {
      ProbedStore(targets, i, j, n);
    }
  }
}
