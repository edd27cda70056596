/** Which collected work may wake a session, and with which readiness
    (filterAssignedWorkBeadsForSessionWake and readyAssignedFlagsForBeads in
    cmd/gc/assigned_work_scope.go). */
module WorkScope {
  import opened Prelude
  import opened AssignedWork

  /** A resolved agent: `cross` agents serve every store, others the store of
      their rig. */
  datatype Agent = Agent(cross: bool, ref: string)

  /** A configured named session, or a session with its identities and its
      template; agent is None where no agent is found. */
  datatype Owner = Owner(identities: seq<string>, agent: Option<Agent>, closed: bool)

  predicate OwnerReaches(o: Owner, a: string, ref: string) {
    !o.closed && o.agent.Some? && (exists i | 0 <= i < |o.identities| :: Trim(o.identities[i]) == a) && (o.agent.value.cross || o.agent.value.ref == ref)
  }

  /** Some owner under that identity serves the store. */
  ghost predicate Reaches(owners: seq<Owner>, a: string, ref: string) {
    exists i | 0 <= i < |owners| :: OwnerReaches(owners[i], a, ref)
  }

  // ---- the two tables -------------------------------------------------------------------------

  /** Identities that reach every store, and the stores the others reach. */
  datatype Tables = Tables(cross: set<string>, refs: map<string, set<string>>)

  predicate InTables(t: Tables, a: string, ref: string) {
    a in t.cross || (a in t.refs && ref in t.refs[a])
  }

  ghost predicate Tabulates(t: Tables, owners: seq<Owner>) {
    forall a, ref | a != "" :: InTables(t, a, ref) <==> Reaches(owners, a, ref)
  }

  method AddIdentity(t: Tables, identity: string, agent: Agent) returns (t': Tables)
    ensures forall a, ref | a != "" :: InTables(t', a, ref) <==> InTables(t, a, ref) || (a == Trim(identity) && (agent.cross || agent.ref == ref))
  {
    var id := Trim(identity);
    if agent.cross {
      return t.(cross := t.cross + {id});
    }
    if id == "" {
      return t;
    }
    var refs := if id in t.refs then t.refs[id] else {};
    return t.(refs := t.refs[id := refs + {agent.ref}]);
  }

  method AddOwner(t: Tables, o: Owner) returns (t': Tables)
    ensures forall a, ref | a != "" :: InTables(t', a, ref) <==> InTables(t, a, ref) || OwnerReaches(o, a, ref)
  {
    t' := t;
    if o.closed || o.agent.None? {
      return;
    }
    for i := 0 to |o.identities|
      invariant forall a, ref | a != "" :: InTables(t', a, ref) <==> InTables(t, a, ref) || OwnerReaches(o.(identities := o.identities[..i]), a, ref)
    {
      ghost var before := t';
      t' := AddIdentity(t', o.identities[i], o.agent.value);
      forall a, ref | a != "" ensures InTables(t', a, ref) <==> InTables(t, a, ref) || OwnerReaches(o.(identities := o.identities[..i + 1]), a, ref) {
        OneMoreIdentity(o, i, a, ref);
      }
    }
    assert o.(identities := o.identities[..|o.identities|]) == o by {
      assert o.identities[..|o.identities|] == o.identities;
    }
  }

  lemma OneMoreIdentity(o: Owner, i: nat, a: string, ref: string)
    requires i < |o.identities| && !o.closed && o.agent.Some?
    ensures OwnerReaches(o.(identities := o.identities[..i + 1]), a, ref) <==>
            OwnerReaches(o.(identities := o.identities[..i]), a, ref) || (Trim(o.identities[i]) == a && (o.agent.value.cross || o.agent.value.ref == ref))
  {
    var less, more := o.identities[..i], o.identities[..i + 1];
    assert more[..i] == less && more[i] == o.identities[i];
    assert forall k | 0 <= k < i :: more[k] == less[k];
  }

  /** Named sessions first, then the open sessions. */
  method BuildTables(owners: seq<Owner>) returns (t: Tables)
    ensures Tabulates(t, owners)
  {
    t := Tables({}, map[]);
    for i := 0 to |owners|
      invariant Tabulates(t, owners[..i])
    {
      ghost var before := t;
      t := AddOwner(t, owners[i]);
      forall a, ref | a != "" ensures InTables(t, a, ref) <==> Reaches(owners[..i + 1], a, ref) {
        OneMoreOwner(owners, i, a, ref);
        assert InTables(before, a, ref) <==> Reaches(owners[..i], a, ref);
      }
    }
    assert owners[..|owners|] == owners;
  }

  lemma OneMoreOwner(owners: seq<Owner>, i: nat, a: string, ref: string)
    requires i < |owners|
    ensures Reaches(owners[..i + 1], a, ref) <==> Reaches(owners[..i], a, ref) || OwnerReaches(owners[i], a, ref)
  {
    var less, more := owners[..i], owners[..i + 1];
    assert more[i] == owners[i] && forall k | 0 <= k < i :: more[k] == less[k];
  }

  // ---- the rows kept ---------------------------------------------------------------------------

  /** Without a config every row is kept. */
  ghost predicate Wakes(cfg: Option<seq<Owner>>, b: Bead, ref: string) {
    cfg.Some? ==> Trim(b.assignee) != "" && Reaches(cfg.value, Trim(b.assignee), ref)
  }

  ghost function Verdicts(cfg: Option<seq<Owner>>, c: Collected): (oks: seq<bool>)
    requires |c.beads| == |c.refs|
  {
    seq(|c.beads|, i requires 0 <= i < |c.beads| => Wakes(cfg, c.beads[i], c.refs[i]))
  }

  /** The rows that pass, each once and in order. */
  ghost function KeptRows(oks: seq<bool>, n: nat): (rows: seq<nat>)
    requires n <= |oks|
  {
    if n == 0 then [] else KeptRows(oks, n - 1) + if oks[n - 1] then [n - 1] else []
  }

  lemma {:induction false} KeptExactly(oks: seq<bool>, n: nat, i: nat)
    requires n <= |oks|
    ensures i in KeptRows(oks, n) <==> i < n && oks[i]
  {
    if n > 0 {
      KeptExactly(oks, n - 1, i);
    }
  }

  /** Strictly increasing, so no row is kept twice. */
  lemma {:induction false} KeptInOrder(oks: seq<bool>, n: nat)
    requires n <= |oks|
    ensures Increasing(KeptRows(oks, n), n)
  {
    if n > 0 {
      KeptInOrder(oks, n - 1);
    }
  }

  ghost predicate Increasing(rows: seq<nat>, n: nat) {
    (forall k, m | 0 <= k < m < |rows| :: rows[k] < rows[m]) && forall k | 0 <= k < |rows| :: rows[k] < n
  }

  /** Exactly the rows some owner of their assignee serves are kept. */
  lemma KeptExactlyReachable(cfg: Option<seq<Owner>>, c: Collected, i: nat)
    requires |c.beads| == |c.refs| && i < |c.beads|
    ensures i in KeptRows(Verdicts(cfg, c), |c.beads|) <==> Wakes(cfg, c.beads[i], c.refs[i])
  {
    KeptExactly(Verdicts(cfg, c), |c.beads|, i);
  }

  /** Bead, ref and flag k belong to row rows[k]; the flag is readiness in the
      row's own store. */
  predicate Projects(c: Collected, rows: seq<nat>, beads: seq<Bead>, refs: seq<string>, flags: seq<bool>)
    requires |c.beads| == |c.refs|
  {
    && |beads| == |refs| == |flags| == |rows|
    && forall k | 0 <= k < |rows| ::
         && rows[k] < |c.beads| && beads[k] == c.beads[rows[k]] && refs[k] == c.refs[rows[k]]
         && (flags[k] <==> (refs[k], beads[k].id) in c.ready)
  }

  lemma ProjectsSnoc(c: Collected, rows: seq<nat>, i: nat, beads: seq<Bead>, refs: seq<string>, flags: seq<bool>)
    requires i < |c.beads| == |c.refs| && Projects(c, rows, beads, refs, flags)
    ensures Projects(c, rows + [i], beads + [c.beads[i]], refs + [c.refs[i]], flags + [(c.refs[i], c.beads[i].id) in c.ready])
  {
  }

  method RowWakes(cfg: Option<seq<Owner>>, t: Tables, b: Bead, ref: string) returns (wakes: bool)
    requires cfg.Some? ==> Tabulates(t, cfg.value)
    ensures wakes <==> Wakes(cfg, b, ref)
  {
    if cfg.None? {
      return true;
    }
    var a := Trim(b.assignee);
    return a != "" && InTables(t, a, ref);
  }

  /** The kept beads, refs and readiness flags come from the same rows of the
      collection. */
  method WakeDemand(c: Collected, cfg: Option<seq<Owner>>) returns (beads: seq<Bead>, refs: seq<string>, flags: seq<bool>)
    requires |c.beads| == |c.refs|
    ensures Projects(c, KeptRows(Verdicts(cfg, c), |c.beads|), beads, refs, flags)
  {
    beads, refs, flags := [], [], [];
    var t := Tables({}, map[]);
    if cfg.Some? {
      t := BuildTables(cfg.value);
    }
    ghost var oks := Verdicts(cfg, c);
    for i := 0 to |c.beads|
      invariant Projects(c, KeptRows(oks, i), beads, refs, flags)
    {
      var wakes := RowWakes(cfg, t, c.beads[i], c.refs[i]);
      assert oks[i] == wakes;
      if wakes {
        ProjectsSnoc(c, KeptRows(oks, i), i, beads, refs, flags);
        beads, refs := beads + [c.beads[i]], refs + [c.refs[i]];
        flags := flags + [(c.refs[i], c.beads[i].id) in c.ready];
      } else {
        assert KeptRows(oks, i + 1) == KeptRows(oks, i);
      }
    }
  }

  /** The k-th kept entry: bead and ref of the k-th row that passes, and its
      readiness in that row's store. */
  lemma KeptEntry(c: Collected, cfg: Option<seq<Owner>>, beads: seq<Bead>, refs: seq<string>, flags: seq<bool>, k: nat)
    requires |c.beads| == |c.refs| && Projects(c, KeptRows(Verdicts(cfg, c), |c.beads|), beads, refs, flags)
    requires k < |KeptRows(Verdicts(cfg, c), |c.beads|)|
    ensures var i := KeptRows(Verdicts(cfg, c), |c.beads|)[k];
            && |beads| == |refs| == |flags| == |KeptRows(Verdicts(cfg, c), |c.beads|)|
            && i < |c.beads| && Wakes(cfg, c.beads[i], c.refs[i])
            && beads[k] == c.beads[i] && refs[k] == c.refs[i] && (flags[k] <==> (c.refs[i], c.beads[i].id) in c.ready)
  {
    var i := KeptRows(Verdicts(cfg, c), |c.beads|)[k];
    assert i in KeptRows(Verdicts(cfg, c), |c.beads|);
    KeptExactly(Verdicts(cfg, c), |c.beads|, i);
  }
}
