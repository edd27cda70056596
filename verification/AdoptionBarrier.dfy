/** The adoption barrier (runAdoptionBarrier in cmd/gc/adoption_barrier.go):
    every running session gets exactly one open bead, also when several
    controllers adopt at once. */
module AdoptionBarrier {
  import opened Prelude

  /** A listed session, with the agent name adoption would give its bead. */
  datatype Session = Session(name: string, agentName: string)

  datatype Counters = Counters(total: int, adopted: nat, alreadyHad: nat, skipped: nat)

  /** Total = Adopted + AlreadyHadBead + Skipped. */
  predicate Conserved(c: Counters) {
    c.total == c.adopted + c.alreadyHad + c.skipped
  }

  // ---- concurrent barriers at lock granularity --------------------------------------

  /** Where a barrier is. `Adopting` waits for the identifier locks, `Holding`
      has them, `Checked` has looked for an open bead under them. */
  datatype Pc =
    | Idle
    | Scanning
    | Adopting(s: Session)
    | Holding(s: Session)
    | Checked(s: Session, has: bool)
    | Finished(s: Session, outcome: Outcome)

  datatype Outcome = Adopted | HadBead | Failed

  /** `known` are the session names with an open bead when the barrier listed
      them; `alive` the listed sessions it observed alive, `served` those it left
      with an open bead. */
  datatype Barrier = Barrier(pc: Pc, todo: seq<Session>, known: set<string>, alive: set<string>, served: set<string>, count: Counters)

  /** `open` counts the open session beads per name, `held` maps a locked
      identifier to the barrier that holds it. */
  datatype System = System(open: multiset<string>, held: map<string, nat>, barriers: seq<Barrier>)

  datatype Step =
    | Start(p: nat, running: seq<Session>)  // list the sessions and the open beads
    | Observe(p: nat, alive: bool)          // the head of the list: dead, known, or to adopt
    | Acquire(p: nat)
    | Check(p: nat, readable: bool)
    | Create(p: nat, ok: bool)
    | Release(p: nat)
    | Close(name: string)                   // some other component closes a bead

  function Ids(s: Session): set<string> {
    {s.name, s.agentName}
  }

  function With(c: Counters, o: Outcome): Counters {
    match o
    case Adopted => c.(adopted := c.adopted + 1)
    case HadBead => c.(alreadyHad := c.alreadyHad + 1)
    case Failed => c.(skipped := c.skipped + 1)
  }

  predicate Enabled(y: System, t: Step) {
    match t
    case Close(name) => name in y.open
    case Start(p, _) => p < |y.barriers| && y.barriers[p].pc.Idle?
    case Observe(p, _) => p < |y.barriers| && y.barriers[p].pc.Scanning? && y.barriers[p].todo != []
    case Acquire(p) =>
      p < |y.barriers| && y.barriers[p].pc.Adopting? && y.held.Keys !! Ids(y.barriers[p].pc.s)
    case Check(p, _) => p < |y.barriers| && y.barriers[p].pc.Holding?
    case Create(p, _) => p < |y.barriers| && y.barriers[p].pc.Checked? && !y.barriers[p].pc.has
    case Release(p) =>
      p < |y.barriers| && (y.barriers[p].pc.Finished? || (y.barriers[p].pc.Checked? && y.barriers[p].pc.has))
  }

  function Next(y: System, t: Step): System
    requires Enabled(y, t)
  {
    match t
    case Close(name) => y.(open := y.open - multiset{name})
    case Start(p, running) =>
      y.(barriers := y.barriers[p :=
        Barrier(Scanning, running, set n | n in y.open, {}, {}, Counters(|running|, 0, 0, 0))])
    case Observe(p, alive) => y.(barriers := y.barriers[p := Observed(y.barriers[p], alive)])
    case Acquire(p) =>
      var b := y.barriers[p];
      y.(held := y.held[b.pc.s.name := p][b.pc.s.agentName := p], barriers := y.barriers[p := b.(pc := Holding(b.pc.s))])
    case Check(p, readable) =>
      var b := y.barriers[p];
      y.(barriers := y.barriers[p := b.(pc :=
        if readable then Checked(b.pc.s, b.pc.s.name in y.open) else Finished(b.pc.s, Failed))])
    case Create(p, ok) =>
      var b := y.barriers[p];
      y.(open := if ok then y.open + multiset{b.pc.s.name} else y.open,
         barriers := y.barriers[p := b.(pc := Finished(b.pc.s, if ok then Adopted else Failed))])
    case Release(p) =>
      var b := y.barriers[p];
      y.(held := y.held - Ids(b.pc.s), barriers := y.barriers[p := Settled(b)])
  }

  function Observed(b: Barrier, alive: bool): Barrier
    requires b.pc.Scanning? && b.todo != []
  {
    var s, rest := b.todo[0], b.todo[1..];
    if !alive then b.(todo := rest, count := b.count.(total := b.count.total - 1))
    else if s.name in b.known then b.(todo := rest, alive := b.alive + {s.name}, served := b.served + {s.name}, count := With(b.count, HadBead))
    else b.(todo := rest, alive := b.alive + {s.name}, pc := Adopting(s))
  }

  function Settled(b: Barrier): Barrier
    requires b.pc.Finished? || (b.pc.Checked? && b.pc.has)
  {
    var o := if b.pc.Checked? then HadBead else b.pc.outcome;
    b.(pc := Scanning, count := With(b.count, o), served := if o == Failed then b.served else b.served + {b.pc.s.name})
  }

  /** A barrier that holds the locks of its session. */
  predicate Locked(b: Barrier) {
    b.pc.Holding? || b.pc.Checked? || b.pc.Finished?
  }

  /** Locks are held by the barriers that need them; under them, a check that
      found no bead stays true; every counter accounts for the list. */
  ghost predicate Inv(y: System) {
    && (forall p | 0 <= p < |y.barriers| && Locked(y.barriers[p]) :: HoldsLocks(y.held, y.barriers[p].pc.s, p))
    && (forall p | 0 <= p < |y.barriers| && y.barriers[p].pc.Checked? && !y.barriers[p].pc.has ::
          y.barriers[p].pc.s.name !in y.open)
    && (forall p | 0 <= p < |y.barriers| :: Accounted(y.barriers[p]))
  }

  predicate HoldsLocks(held: map<string, nat>, s: Session, p: nat) {
    s.name in held && held[s.name] == p && s.agentName in held && held[s.agentName] == p
  }

  predicate Accounted(b: Barrier) {
    b.count.total == b.count.adopted + b.count.alreadyHad + b.count.skipped + |b.todo| + if b.pc.Idle? || b.pc.Scanning? then 0 else 1
  }

  /** What holds as long as nobody closes a bead. */
  ghost predicate Kept(y: System) {
    forall p | 0 <= p < |y.barriers| ::
      && (forall n | n in y.barriers[p].known || n in y.barriers[p].served :: n in y.open)
      && (y.barriers[p].pc.Checked? && y.barriers[p].pc.has ==> y.barriers[p].pc.s.name in y.open)
      && (y.barriers[p].pc.Finished? && y.barriers[p].pc.outcome != Failed ==> y.barriers[p].pc.s.name in y.open)
  }

  /** Two barriers never hold the locks of one identifier. */
  lemma LocksExclude(y: System, p: nat, q: nat, id: string)
    requires Inv(y) && p < |y.barriers| && q < |y.barriers|
    requires Locked(y.barriers[p]) && Locked(y.barriers[q])
    requires id in Ids(y.barriers[p].pc.s) && id in Ids(y.barriers[q].pc.s)
    ensures p == q
  {
  }

  /** Releasing the locks of one barrier leaves those of the others. */
  lemma StepKeepsLocks(y: System, t: Step)
    requires Inv(y) && Enabled(y, t)
    ensures var y' := Next(y, t);
            forall q | 0 <= q < |y'.barriers| && Locked(y'.barriers[q]) :: HoldsLocks(y'.held, y'.barriers[q].pc.s, q)
  {
  }

  /** A check that found no bead stays true under its locks. */
  lemma StepKeepsChecks(y: System, t: Step, q: nat)
    requires Inv(y) && Enabled(y, t) && q < |y.barriers|
    ensures var b, y' := Next(y, t).barriers[q], Next(y, t);
            b.pc.Checked? && !b.pc.has ==> b.pc.s.name !in y'.open
  {
  }

  lemma StepKeepsAccounts(y: System, t: Step, q: nat)
    requires Enabled(y, t) && q < |y.barriers| && Accounted(y.barriers[q])
    ensures Accounted(Next(y, t).barriers[q])
  {
  }

  lemma StepKeepsInv(y: System, t: Step)
    requires Inv(y) && Enabled(y, t)
    ensures Inv(Next(y, t))
  {
    var y' := Next(y, t);
    StepKeepsLocks(y, t);
    forall q | 0 <= q < |y'.barriers| && y'.barriers[q].pc.Checked? && !y'.barriers[q].pc.has
      ensures y'.barriers[q].pc.s.name !in y'.open
    {
      StepKeepsChecks(y, t, q);
    }
    forall q | 0 <= q < |y'.barriers| ensures Accounted(y'.barriers[q]) {
      StepKeepsAccounts(y, t, q);
    }
  }

  /** A step never creates a second open bead for a name. */
  lemma StepNeverDuplicates(y: System, t: Step, name: string)
    requires Inv(y) && Enabled(y, t)
    ensures Next(y, t).open[name] > y.open[name] ==> y.open[name] == 0 && Next(y, t).open[name] == 1
  {
  }

  lemma StepKeepsServed(y: System, t: Step)
    requires Kept(y) && Enabled(y, t) && !t.Close?
    ensures Kept(Next(y, t))
  {
  }

  ghost predicate ValidRun(y: System, steps: seq<Step>)
    decreases |steps|
  {
    steps == [] || (Enabled(y, steps[0]) && ValidRun(Next(y, steps[0]), steps[1..]))
  }

  ghost function Run(y: System, steps: seq<Step>): System
    requires ValidRun(y, steps)
    decreases |steps|
  {
    if steps == [] then y else Run(Next(y, steps[0]), steps[1..])
  }

  /** Any interleaving of barriers: a name never has more open beads than it
      started with, or one; the counters of every barrier stay accounted for;
      and unless a bead is closed every served session keeps an open bead. */
  lemma {:induction false} BarriersNeverDuplicate(y: System, steps: seq<Step>, name: string)
    requires Inv(y) && ValidRun(y, steps)
    ensures Inv(Run(y, steps))
    ensures Run(y, steps).open[name] <= if y.open[name] > 1 then y.open[name] else 1
    ensures Kept(y) && (forall i | 0 <= i < |steps| :: !steps[i].Close?) ==> Kept(Run(y, steps))
    ensures |Run(y, steps).barriers| == |y.barriers|
    decreases |steps|
  {
    if steps != [] {
      StepKeepsInv(y, steps[0]);
      StepNeverDuplicates(y, steps[0], name);
      if Kept(y) && !steps[0].Close? {
        StepKeepsServed(y, steps[0]);
      }
      BarriersNeverDuplicate(Next(y, steps[0]), steps[1..], name);
    }
  }

  /** A barrier that has worked off its list satisfies the conservation law. */
  lemma FinishedBarrierConserves(y: System, steps: seq<Step>, p: nat)
    requires Inv(y) && ValidRun(y, steps) && p < |y.barriers|
    ensures p < |Run(y, steps).barriers|
    ensures var b := Run(y, steps).barriers[p]; b.pc.Scanning? && b.todo == [] ==> Conserved(b.count)
  {
    BarriersNeverDuplicate(y, steps, "");
  }

  /** As long as nothing is skipped, every session observed alive is served,
      but for the one in work. */
  predicate Tied(b: Barrier) {
    b.count.skipped == 0 ==>
      forall n | n in b.alive :: n in b.served || (!b.pc.Idle? && !b.pc.Scanning? && b.pc.s.name == n)
  }

  ghost predicate AllTied(y: System) {
    forall p | 0 <= p < |y.barriers| :: Tied(y.barriers[p])
  }

  lemma StepKeepsTied(y: System, t: Step)
    requires AllTied(y) && Enabled(y, t)
    ensures AllTied(Next(y, t))
  {
    forall q | 0 <= q < |Next(y, t).barriers| ensures Tied(Next(y, t).barriers[q]) {
      assert Tied(y.barriers[q]);
    }
  }

  lemma {:induction false} RunKeepsTied(y: System, steps: seq<Step>)
    requires AllTied(y) && ValidRun(y, steps)
    ensures AllTied(Run(y, steps))
    decreases |steps|
  {
    if steps != [] {
      StepKeepsTied(y, steps[0]);
      RunKeepsTied(Next(y, steps[0]), steps[1..]);
    }
  }

  /** Interleaved with any others and with no bead closed, a barrier that reaches
      its gate without a skip leaves every session it observed alive with an
      open bead. */
  lemma GateMeansOpen(y: System, steps: seq<Step>, p: nat)
    requires Inv(y) && Kept(y) && AllTied(y) && ValidRun(y, steps) && p < |y.barriers|
    requires forall i | 0 <= i < |steps| :: !steps[i].Close?
    ensures p < |Run(y, steps).barriers|
    ensures var y', b := Run(y, steps), Run(y, steps).barriers[p];
            b.pc.Scanning? && b.todo == [] && b.count.skipped == 0 ==> forall n | n in b.alive :: n in y'.open
  {
    BarriersNeverDuplicate(y, steps, "");
    RunKeepsTied(y, steps);
  }

  // ---- one barrier -----------------------------------------------------------------

  /** How one session fares: alive or not, and what the lookup and the create
      under its locks meet. `others` are beads other barriers create before its
      locks are taken. */
  datatype Observation = Observation(alive: bool, readable: bool, creates: bool, others: set<string>)

  datatype Listing = ListFails | Listed(running: seq<Session>, partial: bool)

  class SessionStore {
    var open: multiset<string>

    /** The create-if-absent under the identifier locks of a session. */
    method AdoptUnderLocks(name: string, o: Observation) returns (outcome: Outcome)
      modifies this
      ensures outcome == if !o.readable then Failed else if name in old(open) then HadBead else if o.creates then Adopted else Failed
      ensures open == old(open) + if outcome == Adopted then multiset{name} else multiset{}
    {
      if !o.readable {
        return Failed;
      }
      if name in open {
        return HadBead;
      }
      if !o.creates {
        return Failed;
      }
      open := open + multiset{name};
      return Adopted;
    }

    /** One listed session: other barriers first, then its own turn. */
    method AdoptOne(name: string, known: set<string>, dryRun: bool, o: Observation, before: Counters) returns (count: Counters)
      modifies this
      ensures One(name, known, dryRun, o, old(open), before, open, count)
    {
      // other barriers adopt only names without an open bead
      var added := set n | n in o.others && n !in open;
      open := open + multiset(added);
      if !o.alive {
        return before.(total := before.total - 1);
      }
      if name in known {
        return With(before, HadBead);
      }
      if dryRun {
        return With(before, Adopted);
      }
      var outcome := AdoptUnderLocks(name, o);
      return With(before, outcome);
    }

    /** The run of one barrier. Beads are only added while it runs, by it or by
        other barriers; `beadsReadable` is whether the listing of beads works.
        A pass leaves every live listed session with an open bead, and a run
        that finds them all open adopts and skips none. */
    method RunAdoptionBarrier(listing: Listing, beadsReadable: bool, dryRun: bool, obs: seq<Observation>)
      returns (count: Counters, passed: bool, reachedGate: bool)
      requires listing.Listed? ==> |obs| == |listing.running|
      modifies this
      ensures reachedGate <==> listing.Listed? && (listing.running == [] || beadsReadable)
      ensures !reachedGate ==> !passed && open == old(open)
      ensures !reachedGate ==> count == Counters(if listing.Listed? then |listing.running| else 0, 0, 0, 0)
      ensures reachedGate ==> Conserved(count) && (passed <==> count.skipped == 0 && !listing.partial)
      ensures Grew(old(open), open)
      ensures dryRun ==> forall n | open[n] > old(open)[n] :: FromOthers(obs, n)
      ensures passed && !dryRun ==> AllOpen(listing.running, obs, open)
      ensures reachedGate && AllOpen(listing.running, obs, old(open)) ==> count.adopted == 0 && count.skipped == 0
      ensures reachedGate ==> count.total == Alive(obs)
      ensures reachedGate && dryRun ==> count.adopted == Unknowns(listing.running, obs, set n | n in old(open))
      ensures reachedGate && Alone(obs) ==> |open| == |old(open)| + if dryRun then 0 else count.adopted
    {
      count := Counters(0, 0, 0, 0);
      if listing.ListFails? {
        return count, false, false;
      }
      var running := listing.running;
      count := count.(total := |running|);
      if running == [] {
        assert obs == [];
        return count, !listing.partial, true;
      }
      if !beadsReadable {
        return count, false, false;
      }
      count := AdoptAll(running, obs, dryRun);
      assert obs[..|obs|] == obs && running[..|running|] == running;
      return count, count.skipped == 0 && !listing.partial, true;
    }

    method AdoptAll(running: seq<Session>, obs: seq<Observation>, dryRun: bool) returns (count: Counters)
      requires |obs| == |running|
      modifies this
      ensures Progress(running, obs, |running|, dryRun, old(open), open, count)
    {
      var known := set n | n in open;
      count := Counters(|running|, 0, 0, 0);
      for i := 0 to |running|
        invariant Progress(running, obs, i, dryRun, old(open), open, count)
      {
        ghost var open', count' := open, count;
        count := AdoptOne(running[i].name, known, dryRun, obs[i], count);
        ProgressStep(running, obs, i, dryRun, old(open), open', count', open, count);
      }
    }

    /** A rerun right after a pass, over the same live sessions, adopts none. */
    method RerunAfterPass(listing: Listing, obs: seq<Observation>, again: seq<Observation>) returns (first: Counters, second: Counters)
      requires listing.Listed? && |obs| == |again| == |listing.running|
      requires forall i | 0 <= i < |obs| :: again[i].alive ==> obs[i].alive
      modifies this
      ensures !listing.partial && first.skipped == 0 ==> second.adopted == 0 && second.skipped == 0
    {
      var passed, gate;
      first, passed, gate := RunAdoptionBarrier(listing, true, false, obs);
      second, passed, gate := RunAdoptionBarrier(listing, true, false, again);
    }
  }

  /** How many sessions the counters do not account for yet. */
  function Slack(c: Counters): int {
    c.total - c.adopted - c.alreadyHad - c.skipped
  }

  /** What one listed session does to the open beads and the counters. */
  ghost predicate One(name: string, known: set<string>, dryRun: bool, o: Observation,
                      open: multiset<string>, c: Counters, open': multiset<string>, c': Counters)
  {
    && Grew(open, open') && (forall n | n in o.others :: n in open')
    && (dryRun ==> forall n | open'[n] > open[n] :: n in o.others)
    && Slack(c') == Slack(c) - 1 && c.skipped <= c'.skipped
    && (o.alive && !dryRun && c'.skipped == c.skipped && known <= (set n | n in open) ==> name in open')
    && ((o.alive ==> name in known) ==> c'.adopted == c.adopted && c'.skipped == c.skipped)
    && c'.total == c.total - (if o.alive then 0 else 1)
    && (dryRun ==> c'.skipped == c.skipped && c'.adopted == c.adopted + if Unknown(name, o, known) then 1 else 0)
    && (o.others == {} ==> |open'| == |open| + if dryRun then 0 else c'.adopted - c.adopted)
  }

  /** What the first k listed sessions did. */
  ghost predicate Progress(running: seq<Session>, obs: seq<Observation>, k: nat, dryRun: bool,
                           open: multiset<string>, open': multiset<string>, c: Counters)
    requires k <= |running| == |obs|
  {
    var known := set n | n in open;
    && Slack(c) == |running| - k && c.total == |running| - k + Alive(obs[..k])
    && Grew(open, open')
    && (dryRun ==> (forall n | open'[n] > open[n] :: FromOthers(obs[..k], n)) && c.adopted == Unknowns(running[..k], obs[..k], known))
    && (c.skipped == 0 && !dryRun ==> AllOpen(running[..k], obs[..k], open'))
    && (AllOpen(running, obs, open) ==> c.adopted == 0 && c.skipped == 0)
    && (Alone(obs) ==> |open'| == |open| + if dryRun then 0 else c.adopted)
  }

  lemma ProgressStep(running: seq<Session>, obs: seq<Observation>, k: nat, dryRun: bool, open0: multiset<string>,
                    open: multiset<string>, c: Counters, open': multiset<string>, c': Counters)
    requires k < |running| == |obs| && Progress(running, obs, k, dryRun, open0, open, c)
    requires One(running[k].name, (set n | n in open0), dryRun, obs[k], open, c, open', c')
    ensures Progress(running, obs, k + 1, dryRun, open0, open', c')
  {
    assert obs[..k + 1] == obs[..k] + [obs[k]] && running[..k + 1] == running[..k] + [running[k]];
    assert obs[..k + 1][..k] == obs[..k] && running[..k + 1][..k] == running[..k];
  }

  predicate Unknown(name: string, o: Observation, known: set<string>) {
    o.alive && name !in known
  }

  function Alive(obs: seq<Observation>): nat {
    if obs == [] then 0 else Alive(obs[..|obs| - 1]) + if obs[|obs| - 1].alive then 1 else 0
  }

  /** How many listed sessions are alive and have no open bead. */
  function Unknowns(running: seq<Session>, obs: seq<Observation>, known: set<string>): nat
    requires |running| == |obs|
  {
    if obs == [] then 0
    else
      var n := |obs| - 1;
      Unknowns(running[..n], obs[..n], known) + if Unknown(running[n].name, obs[n], known) then 1 else 0
  }

  /** No other barrier adopts while this one runs. */
  predicate Alone(obs: seq<Observation>) {
    forall i | 0 <= i < |obs| :: obs[i].others == {}
  }

  /** No name gained a second bead and none lost one. */
  ghost predicate Grew(a: multiset<string>, b: multiset<string>) {
    forall n :: a[n] <= b[n] && (b[n] == a[n] || b[n] == 1)
  }

  ghost predicate FromOthers(obs: seq<Observation>, n: string) {
    exists o | o in obs :: n in o.others
  }

  ghost predicate AllOpen(running: seq<Session>, obs: seq<Observation>, open: multiset<string>)
    requires |running| == |obs|
  {
    forall i | 0 <= i < |obs| && obs[i].alive :: running[i].name in open
  }
}
