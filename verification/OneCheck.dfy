/** One health check from start to release, undisturbed, and the texts it reads
    (cmd/gc/beads_provider_lifecycle.go). */
module OneCheck {
  import opened Prelude
  import opened RecoverCooldown

  lemma ContainsExactlyWhen(s: string, sub: string)
    ensures Contains(s, sub) <==> exists a, b :: s == a + sub + b
  {
    if i :| 0 <= i <= |s| && HasPrefix(s[i..], sub) {
      var a, b := s[..i], s[i..][|sub|..];
      assert s[i..] == sub + b;
      assert s == a + sub + b;
    }
    if a, b :| s == a + sub + b {
      assert s[|a|..] == sub + b;
      assert s[|a|..][..|sub|] == sub;
    }
  }

  /** The breaker counts as open exactly when the text contains one of the two
      messages, wherever they stand. */
  lemma OpenExactlyWhen(text: string)
    ensures BreakerOpen(text) <==>
            || (exists a, b :: text == a + "dolt circuit breaker is open" + b)
            || (exists a, b :: text == a + "server appears down, failing fast" + b)
  {
    ContainsExactlyWhen(text, "dolt circuit breaker is open");
    ContainsExactlyWhen(text, "server appears down, failing fast");
  }

  ghost function Ours(log: seq<Attempt>, city: City): seq<bool> {
    seq(|log|, i requires 0 <= i < |log| => log[i].kind == Owned && log[i].city == city)
  }

  ghost predicate TimesOf(times: seq<int>, attempts: seq<Attempt>) {
    |times| == |attempts| && forall k | 0 <= k < |times| :: times[k] == attempts[k].at
  }

  lemma OursSnoc(log: seq<Attempt>, city: City)
    requires log != []
    ensures var n := |log| - 1;
            && Ours(log, city)[..n] == Ours(log[..n], city)
            && Times(log, city) == Times(log[..n], city) + if Ours(log, city)[n] then [log[n].at] else []
  {
  }

  /** The times on a city are those of all our attempts on it, in their order. */
  lemma {:induction false} TimesAre(log: seq<Attempt>, city: City) returns (attempts: seq<Attempt>, at: seq<nat>)
    ensures PicksExactly(log, Ours(log, city), attempts, at) && TimesOf(Times(log, city), attempts)
  {
    attempts, at := [], [];
    if log != [] {
      var n, oks := |log| - 1, Ours(log, city);
      attempts, at := TimesAre(log[..n], city);
      OursSnoc(log, city);
      PicksExactlySnoc(log, oks, attempts, at);
      if oks[n] {
        attempts, at := attempts + [log[n]], at + [n];
      }
    }
  }

  // ---- the whole check ---------------------------------------------------------------

  /** A failed check starts a recover outside the bd contract; within it only on
      our own provider, with the breaker closed and the cooldown over. */
  predicate Starts(w: World, city: City, kind: Kind, text: string, cooldown: nat) {
    kind == Plain || (kind == Owned && !BreakerOpen(text) && (city in w.last ==> w.clock - w.last[city] >= cooldown))
  }

  /** The steps of a check after its probe. */
  function StepsAfter(w: World, t: nat, city: City, error: Option<string>, kind: Kind, cooldown: nat): seq<Step> {
    if error.None? then [Release(t)]
    else if kind == Plain then [Classify(t, kind), Finish(t), Release(t)]
    else if kind != Owned || BreakerOpen(error.value) then [Classify(t, kind), Release(t)]
    else if Starts(w, city, kind, error.value, cooldown) then [Classify(t, kind), ReadClock(t), Decide(t), Start(t), Finish(t), Release(t)]
    else [Classify(t, kind), ReadClock(t), Decide(t), Release(t)]
  }

  lemma FirstStep(w: World, s: Step, rest: seq<Step>, cooldown: nat)
    requires Enabled(w, s) && ValidRun(Next(w, s, cooldown), rest, cooldown)
    ensures ValidRun(w, [s] + rest, cooldown) && Run(w, [s] + rest, cooldown) == Run(Next(w, s, cooldown), rest, cooldown)
  {
    assert ([s] + rest)[1..] == rest;
  }

  /** The world after a check: it is idle again, holds nothing, and has left an
      attempt and its time exactly when it started a recover. */
  ghost predicate Checked(w: World, w': World, t: nat, city: City, error: Option<string>, kind: Kind, cooldown: nat) {
    var start := error.Some? && Starts(w, city, kind, error.value, cooldown);
    && w'.clock == w.clock && w'.sem == w.sem && w'.checks == w.checks[t := Idle]
    && w'.last == (if start && kind == Owned then w.last[city := w.clock] else w.last)
    && w'.log == (if start then w.log + [Attempt(city, kind, error.value, w.clock)] else w.log)
  }

  lemma Leave(w: World, t: nat, city: City, sem: map<City, nat>, cooldown: nat)
    requires t in w.checks && w.checks[t] == Leaving(city) && city !in sem && w.sem == sem[city := t]
    ensures ValidRun(w, [Release(t)], cooldown) && Run(w, [Release(t)], cooldown) == w.(checks := w.checks[t := Idle], sem := sem)
  {
    FirstStep(w, Release(t), [], cooldown);
    assert [Release(t)] + [] == [Release(t)];
    assert sem[city := t] - {city} == sem;
  }

  lemma Recover(w: World, t: nat, city: City, sem: map<City, nat>, cooldown: nat)
    requires t in w.checks && w.checks[t] == Recovering(city) && city !in sem && w.sem == sem[city := t]
    ensures ValidRun(w, [Finish(t), Release(t)], cooldown)
    ensures Run(w, [Finish(t), Release(t)], cooldown) == w.(checks := w.checks[t := Idle], sem := sem)
  {
    var w1 := Next(w, Finish(t), cooldown);
    Leave(w1, t, city, sem, cooldown);
    FirstStep(w, Finish(t), [Release(t)], cooldown);
    assert [Finish(t)] + [Release(t)] == [Finish(t), Release(t)];
    assert w.checks[t := Leaving(city)][t := Idle] == w.checks[t := Idle];
  }

  lemma Timely(w: World, t: nat, city: City, text: string, sem: map<City, nat>, cooldown: nat)
    requires t in w.checks && w.checks[t] == Sick(city, text) && city !in sem && w.sem == sem[city := t]
    ensures var start := city in w.last ==> w.clock - w.last[city] >= cooldown;
            var steps := if start then [ReadClock(t), Decide(t), Start(t), Finish(t), Release(t)] else [ReadClock(t), Decide(t), Release(t)];
            && ValidRun(w, steps, cooldown)
            && Run(w, steps, cooldown) == w.(
                 checks := w.checks[t := Idle], sem := sem,
                 last := if start then w.last[city := w.clock] else w.last,
                 log := if start then w.log + [Attempt(city, Owned, text, w.clock)] else w.log)
  {
    var w1 := Next(w, ReadClock(t), cooldown);
    var w2 := Next(w1, Decide(t), cooldown);
    if city in w.last ==> w.clock - w.last[city] >= cooldown {
      var w3 := Next(w2, Start(t), cooldown);
      Recover(w3, t, city, sem, cooldown);
      FirstStep(w2, Start(t), [Finish(t), Release(t)], cooldown);
      FirstStep(w1, Decide(t), [Start(t), Finish(t), Release(t)], cooldown);
      FirstStep(w, ReadClock(t), [Decide(t), Start(t), Finish(t), Release(t)], cooldown);
      assert w3.checks[t := Idle] == w.checks[t := Idle];
    } else {
      Leave(w2, t, city, sem, cooldown);
      FirstStep(w1, Decide(t), [Release(t)], cooldown);
      FirstStep(w, ReadClock(t), [Decide(t), Release(t)], cooldown);
      assert w2.checks[t := Idle] == w.checks[t := Idle];
    }
  }

  lemma Judged(w: World, t: nat, city: City, text: string, kind: Kind, sem: map<City, nat>, cooldown: nat)
    requires t in w.checks && city !in sem && w.sem == sem[city := t] && w.checks[t] == Failed(city, text) && kind == Owned && !BreakerOpen(text)
    ensures var steps := StepsAfter(w, t, city, Some(text), kind, cooldown);
            ValidRun(w, steps, cooldown) && Checked(w.(sem := sem), Run(w, steps, cooldown), t, city, Some(text), kind, cooldown)
  {
    var w1 := Next(w, Classify(t, kind), cooldown);
    Timely(w1, t, city, text, sem, cooldown);
    var rest := if Starts(w, city, kind, text, cooldown) then [ReadClock(t), Decide(t), Start(t), Finish(t), Release(t)] else [ReadClock(t), Decide(t), Release(t)];
    FirstStep(w, Classify(t, kind), rest, cooldown);
    assert StepsAfter(w, t, city, Some(text), kind, cooldown) == [Classify(t, kind)] + rest;
    assert w1.checks[t := Idle] == w.checks[t := Idle];
  }

  lemma Probed(w: World, t: nat, city: City, error: Option<string>, kind: Kind, sem: map<City, nat>, cooldown: nat)
    requires t in w.checks && city !in sem && w.sem == sem[city := t]
    requires w.checks[t] == if error.None? then Leaving(city) else Failed(city, error.value)
    ensures ValidRun(w, StepsAfter(w, t, city, error, kind, cooldown), cooldown)
    ensures Checked(w.(sem := sem), Run(w, StepsAfter(w, t, city, error, kind, cooldown), cooldown), t, city, error, kind, cooldown)
  {
    if error.None? {
      Leave(w, t, city, sem, cooldown);
    } else if kind == Owned && !BreakerOpen(error.value) {
      Judged(w, t, city, error.value, kind, sem, cooldown);
    } else {
      var w1 := Next(w, Classify(t, kind), cooldown);
      assert w1.checks[t := Idle] == w.checks[t := Idle];
      if kind == Plain {
        Recover(w1, t, city, sem, cooldown);
        FirstStep(w, Classify(t, kind), [Finish(t), Release(t)], cooldown);
      } else {
        Leave(w1, t, city, sem, cooldown);
        FirstStep(w, Classify(t, kind), [Release(t)], cooldown);
      }
    }
  }

  lemma {:induction false} RunAppend(w: World, a: seq<Step>, b: seq<Step>, cooldown: nat)
    requires ValidRun(w, a, cooldown) && ValidRun(Run(w, a, cooldown), b, cooldown)
    ensures ValidRun(w, a + b, cooldown) && Run(w, a + b, cooldown) == Run(Run(w, a, cooldown), b, cooldown)
    decreases |a|
  {
    if a == [] {
      assert a + b == b;
    } else {
      RunAppend(Next(w, a[0], cooldown), a[1..], b, cooldown);
      assert (a + b)[1..] == a[1..] + b;
    }
  }

  lemma Entered(w: World, t: nat, city: City, error: Option<string>, cooldown: nat)
    requires PhaseOf(w, t) == Idle && city !in w.sem
    ensures var steps := [Begin(t, city), Acquire(t), Probe(t, error)];
            && ValidRun(w, steps, cooldown)
            && Run(w, steps, cooldown) == w.(sem := w.sem[city := t], checks := w.checks[t := if error.None? then Leaving(city) else Failed(city, error.value)])
  {
    var w1 := Next(w, Begin(t, city), cooldown);
    var w2 := Next(w1, Acquire(t), cooldown);
    FirstStep(w2, Probe(t, error), [], cooldown);
    assert [Probe(t, error)] + [] == [Probe(t, error)];
    FirstStep(w1, Acquire(t), [Probe(t, error)], cooldown);
    FirstStep(w, Begin(t, city), [Acquire(t), Probe(t, error)], cooldown);
  }

  /** A check that nobody disturbs: a healthy probe and a held back recover
      leave no trace, a started one its attempt and, if it is ours, its time. */
  lemma WholeCheck(w: World, t: nat, city: City, error: Option<string>, kind: Kind, cooldown: nat)
    requires PhaseOf(w, t) == Idle && city !in w.sem
    ensures var steps := [Begin(t, city), Acquire(t), Probe(t, error)] + StepsAfter(w, t, city, error, kind, cooldown);
            ValidRun(w, steps, cooldown) && Checked(w, Run(w, steps, cooldown), t, city, error, kind, cooldown)
  {
    Entered(w, t, city, error, cooldown);
    var enter := [Begin(t, city), Acquire(t), Probe(t, error)];
    var w3 := Run(w, enter, cooldown);
    Probed(w3, t, city, error, kind, w.sem, cooldown);
    RunAppend(w, enter, StepsAfter(w, t, city, error, kind, cooldown), cooldown);
    assert w3.checks[t := Idle] == w.checks[t := Idle];
  }
}
