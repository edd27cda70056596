/** Health checks and recover attempts of a bead provider, many checks at once:
    cmd/gc/beads_provider_lifecycle.go. A city stands for its normalised path,
    which keys both the semaphore and the time of the last recover. */
module RecoverCooldown {
  import opened Prelude

  type City = string

  /** What a failed check finds out about its provider: an exec provider outside
      the bd contract, an ownership query that failed, a Dolt server owned by
      somebody else, or our own. */
  datatype Kind = Plain | Unknown | Foreign | Owned

  predicate Contains(s: string, sub: string) {
    exists i | 0 <= i <= |s| :: HasPrefix(s[i..], sub)
  }

  predicate BreakerOpen(text: string) {
    Contains(text, "dolt circuit breaker is open") || Contains(text, "server appears down, failing fast")
  }

  predicate Cooling(last: map<City, int>, city: City, now: int, cooldown: nat) {
    city in last && now - last[city] < cooldown
  }

  // ---- one check -----------------------------------------------------------------------------

  class Provider {
    const cooldown: nat
    var last: map<City, int>

    constructor (cooldown: nat)
      ensures this.cooldown == cooldown && last == map[]
    {
      this.cooldown := cooldown;
      last := map[];
    }

    /** After a failed health operation: whether recover is started. */
    method DecideRecover(city: City, kind: Kind, text: string, now: int) returns (start: bool)
      modifies this
      ensures start <==> kind.Plain? || (kind.Owned? && !BreakerOpen(text) && (city in old(last) ==> now - old(last)[city] >= cooldown))
      ensures last == if start && kind.Owned? then old(last)[city := now] else old(last)
    {
      if !kind.Plain? {
        if !kind.Owned? {
          return false;
        }
        if BreakerOpen(text) {
          return false;
        }
        if city in last && now - last[city] < cooldown {
          return false;
        }
        last := last[city := now];
      }
      return true;
    }
  }

  // ---- many checks ---------------------------------------------------------------------------

  /** Where a check is; from Probing to Leaving it holds its city's semaphore. */
  datatype Phase =
    | Idle
    | Waiting(city: City)
    | Probing(city: City)
    | Failed(city: City, text: string)
    | Sick(city: City, text: string)
    | Timed(city: City, text: string, now: int)
    | Ready(city: City, text: string, now: int)
    | Recovering(city: City)
    | Leaving(city: City)

  predicate Holds(p: Phase, city: City) {
    !p.Idle? && !p.Waiting? && p.city == city
  }

  /** A recover that was started: decided at `at`, on the error `text`. */
  datatype Attempt = Attempt(city: City, kind: Kind, text: string, at: int)

  datatype World = World(clock: int, sem: map<City, nat>, last: map<City, int>, checks: map<nat, Phase>, log: seq<Attempt>)

  function PhaseOf(w: World, t: nat): Phase {
    if t in w.checks then w.checks[t] else Idle
  }

  datatype Step =
    | Advance(d: nat)
    | Begin(t: nat, city: City)
    | Cancel(t: nat)
    | Acquire(t: nat)
    | Probe(t: nat, error: Option<string>)
    | Classify(t: nat, kind: Kind)
    | ReadClock(t: nat)
    | Decide(t: nat)
    | Start(t: nat)
    | Finish(t: nat)
    | Release(t: nat)

  predicate Enabled(w: World, s: Step) {
    match s
    case Advance(_) => true
    case Begin(t, _) => PhaseOf(w, t).Idle?
    case Cancel(t) => PhaseOf(w, t).Waiting?
    case Acquire(t) => PhaseOf(w, t).Waiting? && PhaseOf(w, t).city !in w.sem
    case Probe(t, _) => PhaseOf(w, t).Probing?
    case Classify(t, _) => PhaseOf(w, t).Failed?
    case ReadClock(t) => PhaseOf(w, t).Sick?
    case Decide(t) => PhaseOf(w, t).Timed?
    case Start(t) => PhaseOf(w, t).Ready?
    case Finish(t) => PhaseOf(w, t).Recovering?
    case Release(t) => PhaseOf(w, t).Leaving?
  }

  function Goto(w: World, t: nat, p: Phase): World {
    w.(checks := w.checks[t := p])
  }

  function Next(w: World, s: Step, cooldown: nat): World
    requires Enabled(w, s)
  {
    match s
    case Advance(d) => w.(clock := w.clock + d)
    case Begin(t, city) => Goto(w, t, Waiting(city))
    case Cancel(t) => Goto(w, t, Idle)
    case Acquire(t) =>
      var city := PhaseOf(w, t).city;
      Goto(w, t, Probing(city)).(sem := w.sem[city := t])
    case Probe(t, error) =>
      var city := PhaseOf(w, t).city;
      Goto(w, t, if error.None? then Leaving(city) else Failed(city, error.value))
    case Classify(t, kind) =>
      var p := PhaseOf(w, t);
      if kind.Plain? then Goto(w, t, Recovering(p.city)).(log := w.log + [Attempt(p.city, kind, p.text, w.clock)])
      else if !kind.Owned? || BreakerOpen(p.text) then Goto(w, t, Leaving(p.city))
      else Goto(w, t, Sick(p.city, p.text))
    case ReadClock(t) =>
      var p := PhaseOf(w, t);
      Goto(w, t, Timed(p.city, p.text, w.clock))
    case Decide(t) =>
      var p := PhaseOf(w, t);
      if Cooling(w.last, p.city, p.now, cooldown) then Goto(w, t, Leaving(p.city))
      else Goto(w, t, Ready(p.city, p.text, p.now)).(last := w.last[p.city := p.now])
    case Start(t) =>
      var p := PhaseOf(w, t);
      Goto(w, t, Recovering(p.city)).(log := w.log + [Attempt(p.city, Owned, p.text, p.now)])
    case Finish(t) => Goto(w, t, Leaving(PhaseOf(w, t).city))
    case Release(t) => Goto(w, t, Idle).(sem := w.sem - {PhaseOf(w, t).city})
  }

  ghost predicate ValidRun(w: World, run: seq<Step>, cooldown: nat)
    decreases |run|
  {
    run == [] || (Enabled(w, run[0]) && ValidRun(Next(w, run[0], cooldown), run[1..], cooldown))
  }

  function Run(w: World, run: seq<Step>, cooldown: nat): World
    requires ValidRun(w, run, cooldown)
    decreases |run|
  {
    if run == [] then w else Run(Next(w, run[0], cooldown), run[1..], cooldown)
  }

  function Boot(clock: int): World {
    World(clock, map[], map[], map[], [])
  }

  // ---- invariants ------------------------------------------------------------------------------

  /** The semaphore of a city is with the one check inside it. */
  ghost predicate Mutex(w: World) {
    forall t, city :: Inside(w, t, city) <==> HasSlot(w, t, city)
  }

  predicate Inside(w: World, t: nat, city: City) {
    Holds(PhaseOf(w, t), city)
  }

  predicate HasSlot(w: World, t: nat, city: City) {
    city in w.sem && w.sem[city] == t
  }

  lemma OneInside(w: World, t: nat, t': nat, city: City)
    requires Mutex(w) && Inside(w, t, city) && Inside(w, t', city)
    ensures t == t'
  {
  }

  /** What a check inside knows. */
  ghost predicate Sound(w: World, t: nat) {
    match PhaseOf(w, t)
    case Sick(_, text) => !BreakerOpen(text)
    case Timed(_, text, now) => !BreakerOpen(text) && now <= w.clock
    case Ready(city, text, now) => !BreakerOpen(text) && city in w.last && w.last[city] == now
    case _ => true
  }

  /** An attempt of our own: not on an open breaker, no later than the recorded
      time, and a full cooldown before a check that is about to start one. */
  ghost predicate Recorded(w: World, i: nat, cooldown: nat)
    requires i < |w.log|
  {
    var a := w.log[i];
    a.kind.Owned? ==>
      && !BreakerOpen(a.text)
      && a.city in w.last && a.at <= w.last[a.city]
      && forall t | PhaseOf(w, t).Ready? && PhaseOf(w, t).city == a.city :: a.at + cooldown <= PhaseOf(w, t).now
  }

  ghost predicate Inv(w: World, cooldown: nat) {
    && Mutex(w)
    && (forall t :: Sound(w, t))
    && (forall city | city in w.last :: w.last[city] <= w.clock)
    && (forall i | 0 <= i < |w.log| :: Recorded(w, i, cooldown))
    && (forall i, j | 0 <= i < j < |w.log| :: Apart(w.log[i], w.log[j], cooldown))
  }

  /** Two attempts of our own on one city are a cooldown apart. */
  predicate Apart(a: Attempt, b: Attempt, cooldown: nat) {
    a.kind.Owned? && b.kind.Owned? && a.city == b.city ==> a.at + cooldown <= b.at
  }

  lemma StepKeepsMutex(w: World, s: Step, cooldown: nat)
    requires Mutex(w) && Enabled(w, s)
    ensures Mutex(Next(w, s, cooldown))
  {
    var n := Next(w, s, cooldown);
    forall t, city ensures Inside(n, t, city) <==> HasSlot(n, t, city) {
      assert Inside(w, t, city) <==> HasSlot(w, t, city);
      if s.Acquire? || s.Release? {
        SlotMoves(w, s, cooldown, t, city);
      }
    }
  }

  lemma SlotMoves(w: World, s: Step, cooldown: nat, t: nat, city: City)
    requires Mutex(w) && Enabled(w, s) && (s.Acquire? || s.Release?)
    ensures var n := Next(w, s, cooldown); Inside(n, t, city) <==> HasSlot(n, t, city)
  {
    assert Inside(w, t, city) <==> HasSlot(w, t, city);
    assert Inside(w, s.t, city) <==> HasSlot(w, s.t, city);
  }

  lemma StepKeepsSound(w: World, s: Step, cooldown: nat, t: nat)
    requires Mutex(w) && Enabled(w, s) && Sound(w, t)
    ensures Sound(Next(w, s, cooldown), t)
  {
    if s.Advance? || s.t != t {
      OthersStaySound(w, s, cooldown, t);
    } else {
      MoverIsSound(w, s, cooldown);
    }
  }

  lemma OthersStaySound(w: World, s: Step, cooldown: nat, t: nat)
    requires Mutex(w) && Enabled(w, s) && Sound(w, t) && (s.Advance? || s.t != t)
    ensures Sound(Next(w, s, cooldown), t)
  {
    var n, p := Next(w, s, cooldown), PhaseOf(w, t);
    assert PhaseOf(n, t) == p && w.clock <= n.clock;
    if s.Decide? && p.Ready? && PhaseOf(w, s.t).city == p.city {
      OneInside(w, t, s.t, p.city);
    }
  }

  lemma MoverIsSound(w: World, s: Step, cooldown: nat)
    requires Enabled(w, s) && !s.Advance? && Sound(w, s.t)
    ensures Sound(Next(w, s, cooldown), s.t)
  {
  }

  lemma StepKeepsRecorded(w: World, s: Step, cooldown: nat, i: nat)
    requires Mutex(w) && Enabled(w, s) && i < |w.log| && Recorded(w, i, cooldown)
    ensures i < |Next(w, s, cooldown).log| && Next(w, s, cooldown).log[i] == w.log[i]
    ensures Recorded(Next(w, s, cooldown), i, cooldown)
  {
    var n, a := Next(w, s, cooldown), w.log[i];
    if a.kind.Owned? {
      forall t | PhaseOf(n, t).Ready? && PhaseOf(n, t).city == a.city
        ensures a.at + cooldown <= PhaseOf(n, t).now
      {
        assert PhaseOf(n, t) == PhaseOf(w, t) || (s.Decide? && s.t == t);
      }
    }
  }

  /** The attempt a step starts, if any, keeps its distance to every earlier one. */
  lemma NewAttempt(w: World, s: Step, cooldown: nat)
    requires Inv(w, cooldown) && Enabled(w, s)
    ensures var n := Next(w, s, cooldown);
            n.log == w.log || (|n.log| == |w.log| + 1 && n.log[..|w.log|] == w.log
                               && Recorded(n, |w.log|, cooldown)
                               && forall i | 0 <= i < |w.log| :: Apart(n.log[i], n.log[|w.log|], cooldown))
  {
    var n := Next(w, s, cooldown);
    if s.Start? {
      var p := PhaseOf(w, s.t);
      assert Sound(w, s.t);
      forall i | 0 <= i < |w.log|
        ensures Apart(n.log[i], n.log[|w.log|], cooldown)
      {
        assert Recorded(w, i, cooldown);
      }
      forall t | PhaseOf(n, t).Ready?
        ensures PhaseOf(n, t).city != p.city
      {
        assert PhaseOf(n, t) == PhaseOf(w, t);
        if PhaseOf(w, t).city == p.city {
          OneInside(w, t, s.t, p.city);
        }
      }
    }
  }

  lemma StepKeepsInv(w: World, s: Step, cooldown: nat)
    requires Inv(w, cooldown) && Enabled(w, s)
    ensures Inv(Next(w, s, cooldown), cooldown)
  {
    var n := Next(w, s, cooldown);
    StepKeepsMutex(w, s, cooldown);
    forall t ensures Sound(n, t) {
      StepKeepsSound(w, s, cooldown, t);
    }
    NewAttempt(w, s, cooldown);
    forall i | 0 <= i < |n.log| ensures Recorded(n, i, cooldown) {
      if i < |w.log| {
        StepKeepsRecorded(w, s, cooldown, i);
      }
    }
    if s.Decide? {
      assert Sound(w, s.t);
    }
    forall i, j | 0 <= i < j < |n.log| ensures Apart(n.log[i], n.log[j], cooldown) {
      if j < |w.log| {
        assert Apart(w.log[i], w.log[j], cooldown);
        assert n.log[..|w.log|] == w.log;
      }
    }
  }

  lemma {:induction false} RunKeepsInv(w: World, run: seq<Step>, cooldown: nat)
    requires Inv(w, cooldown) && ValidRun(w, run, cooldown)
    ensures Inv(Run(w, run, cooldown), cooldown)
    decreases |run|
  {
    if run != [] {
      StepKeepsInv(w, run[0], cooldown);
      RunKeepsInv(Next(w, run[0], cooldown), run[1..], cooldown);
    }
  }

  // ---- main results --------------------------------------------------------------------------

  /** The decision times of our own attempts on one city. */
  function Times(log: seq<Attempt>, city: City): seq<int> {
    if log == [] then []
    else
      var a := log[|log| - 1];
      Times(log[..|log| - 1], city) + if a.kind.Owned? && a.city == city then [a.at] else []
  }

  lemma {:induction false} TimesAreSpaced(log: seq<Attempt>, city: City, cooldown: nat)
    requires forall i, j | 0 <= i < j < |log| :: Apart(log[i], log[j], cooldown)
    ensures forall at | at in Times(log, city) :: exists i | 0 <= i < |log| :: Is(log[i], city, at)
    ensures forall k, l | 0 <= k < l < |Times(log, city)| :: Times(log, city)[k] + cooldown <= Times(log, city)[l]
  {
    if log != [] {
      var init, a := log[..|log| - 1], log[|log| - 1];
      TimesAreSpaced(init, city, cooldown);
      var early := Times(init, city);
      forall at | at in early
        ensures exists i | 0 <= i < |log| - 1 :: Is(log[i], city, at)
      {
        var i :| 0 <= i < |init| && Is(init[i], city, at);
        assert Is(log[i], city, at);
      }
      if a.kind.Owned? && a.city == city {
        assert Is(log[|log| - 1], city, a.at);
        forall k | 0 <= k < |early|
          ensures early[k] + cooldown <= a.at
        {
          assert early[k] in early;
          var i :| 0 <= i < |log| - 1 && Is(log[i], city, early[k]);
          assert Apart(log[i], log[|log| - 1], cooldown);
        }
      }
    }
  }

  predicate Is(a: Attempt, city: City, at: int) {
    a.kind.Owned? && a.city == city && a.at == at
  }

  lemma {:induction false} Span(times: seq<int>, cooldown: nat, k: nat)
    requires forall i, j | 0 <= i < j < |times| :: times[i] + cooldown <= times[j]
    requires k < |times|
    ensures times[k] - times[0] >= k * cooldown
  {
    if k > 0 {
      Span(times, cooldown, k - 1);
      assert times[k - 1] + cooldown <= times[k];
    }
  }

  /** Over every interleaving of health checks: on each city, k + 1 attempts of
      our own span at least k cooldowns, and none follows an open breaker. */
  lemma RecoversAreSpaced(clock: int, run: seq<Step>, cooldown: nat, city: City)
    requires ValidRun(Boot(clock), run, cooldown)
    ensures var log := Run(Boot(clock), run, cooldown).log;
            && (forall k | 0 <= k < |Times(log, city)| :: Times(log, city)[k] - Times(log, city)[0] >= k * cooldown)
            && (forall k | 0 < k < |Times(log, city)| :: Times(log, city)[k] - Times(log, city)[k - 1] >= cooldown)
            && (forall a | a in log && a.kind.Owned? :: !BreakerOpen(a.text))
  {
    RunKeepsInv(Boot(clock), run, cooldown);
    var w := Run(Boot(clock), run, cooldown);
    TimesAreSpaced(w.log, city, cooldown);
    forall k | 0 <= k < |Times(w.log, city)|
      ensures Times(w.log, city)[k] - Times(w.log, city)[0] >= k * cooldown
    {
      Span(Times(w.log, city), cooldown, k);
    }
    forall a | a in w.log && a.kind.Owned?
      ensures !BreakerOpen(a.text)
    {
      var i :| 0 <= i < |w.log| && w.log[i] == a;
      assert Recorded(w, i, cooldown);
    }
  }

  /** Two checks are never inside one city together, so recovers never overlap. */
  lemma RecoversNeverOverlap(clock: int, run: seq<Step>, cooldown: nat, t: nat, t': nat, city: City)
    requires ValidRun(Boot(clock), run, cooldown)
    requires var w := Run(Boot(clock), run, cooldown); Inside(w, t, city) && Inside(w, t', city)
    ensures t == t'
  {
    RunKeepsInv(Boot(clock), run, cooldown);
    OneInside(Run(Boot(clock), run, cooldown), t, t', city);
  }

  /** A check that runs its decision undisturbed starts a recover exactly as
      Provider.DecideRecover says; outside the bd contract nothing holds it back. */
  lemma DecisionOfOneCheck(w: World, t: nat, kind: Kind, cooldown: nat)
    requires PhaseOf(w, t).Failed?
    ensures var p := PhaseOf(w, t);
            var decision := if kind.Owned? && !BreakerOpen(p.text) then [Classify(t, kind), ReadClock(t), Decide(t)] else [Classify(t, kind)];
            && ValidRun(w, decision, cooldown)
            && var n := Run(w, decision, cooldown);
               var start := kind.Plain? || (kind.Owned? && !BreakerOpen(p.text) && !Cooling(w.last, p.city, w.clock, cooldown));
               && (start <==> PhaseOf(n, t).Ready? || PhaseOf(n, t).Recovering?)
               && (!start <==> PhaseOf(n, t).Leaving?)
               && n.last == (if start && kind.Owned? then w.last[p.city := w.clock] else w.last)
  {
    var p := PhaseOf(w, t);
    if kind.Owned? && !BreakerOpen(p.text) {
      var decision := [Classify(t, kind), ReadClock(t), Decide(t)];
      var w1 := Next(w, decision[0], cooldown);
      var w2 := Next(w1, decision[1], cooldown);
      var w3 := Next(w2, decision[2], cooldown);
      assert decision[1..] == [ReadClock(t), Decide(t)] && decision[1..][1..] == [Decide(t)] && [Decide(t)][1..] == [];
      assert ValidRun(w3, [], cooldown);
      assert ValidRun(w2, [Decide(t)], cooldown) && Run(w2, [Decide(t)], cooldown) == w3;
      assert ValidRun(w1, decision[1..], cooldown) && Run(w1, decision[1..], cooldown) == w3;
    } else {
      assert [Classify(t, kind)][1..] == [];
    }
  }
}
