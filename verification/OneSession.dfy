/** One listed session of one barrier, from observation to release
    (runAdoptionBarrier in cmd/gc/adoption_barrier.go). */
module OneSession {
  import opened Prelude
  import opened AdoptionBarrier

  lemma FirstStep(y: System, t: Step, rest: seq<Step>)
    requires Enabled(y, t) && ValidRun(Next(y, t), rest)
    ensures ValidRun(y, [t] + rest) && Run(y, [t] + rest) == Run(Next(y, t), rest)
  {
    assert ([t] + rest)[1..] == rest;
  }

  /** Barrier p alone moves: these steps are its observation, its locks, its
      check, its create and its release. */
  ghost predicate OnlyBy(steps: seq<Step>, p: nat) {
    forall i | 0 <= i < |steps| :: !steps[i].Close? && !steps[i].Start? && steps[i].p == p
  }

  /** `z` is `y` with other open beads and another barrier p. */
  ghost predicate Became(y: System, z: System, held: map<string, nat>, open: multiset<string>, p: nat, b: Barrier)
    requires p < |y.barriers|
  {
    z.held == held && z.open == open && z.barriers == y.barriers[p := b]
  }

  lemma BecameTwice(y: System, y1: System, z: System, held: map<string, nat>, open: multiset<string>, p: nat, b: Barrier)
    requires p < |y.barriers| == |y1.barriers| && y1.barriers == y.barriers[p := y1.barriers[p]]
    requires Became(y1, z, held, open, p, b)
    ensures Became(y, z, held, open, p, b)
  {
  }

  /** The barrier and what its locked part leaves: with a bead, seen or created,
      the session is served; otherwise it is skipped. */
  function After(b: Barrier, n: string, readable: bool, present: bool, ok: bool): Barrier {
    b.(pc := Scanning,
       served := if readable && (present || ok) then b.served + {n} else b.served,
       count := if !readable then b.count.(skipped := b.count.skipped + 1)
                else if present then b.count.(alreadyHad := b.count.alreadyHad + 1)
                else if ok then b.count.(adopted := b.count.adopted + 1)
                else b.count.(skipped := b.count.skipped + 1))
  }

  lemma ReleasePart(y: System, p: nat, s: Session, held: map<string, nat>) returns (steps: seq<Step>)
    requires p < |y.barriers| && s.name !in held && s.agentName !in held && y.held == held[s.name := p][s.agentName := p]
    requires y.barriers[p].pc == Checked(s, true) || (y.barriers[p].pc.Finished? && y.barriers[p].pc.s == s)
    ensures ValidRun(y, steps) && OnlyBy(steps, p) && Became(y, Run(y, steps), held, y.open, p, Settled(y.barriers[p]))
  {
    FirstStep(y, Release(p), []);
    steps := [Release(p)] + [];
    assert y.held - Ids(s) == held;
  }

  lemma CreatePart(y: System, p: nat, s: Session, ok: bool, held: map<string, nat>) returns (steps: seq<Step>)
    requires p < |y.barriers| && s.name !in held && s.agentName !in held && y.held == held[s.name := p][s.agentName := p]
    requires y.barriers[p].pc == Checked(s, false)
    ensures ValidRun(y, steps) && OnlyBy(steps, p)
    ensures Became(y, Run(y, steps), held, if ok then y.open + multiset{s.name} else y.open, p, After(y.barriers[p], s.name, true, false, ok))
  {
    var y1 := Next(y, Create(p, ok));
    var rest := ReleasePart(y1, p, s, held);
    FirstStep(y, Create(p, ok), rest);
    steps := [Create(p, ok)] + rest;
    BecameTwice(y, y1, Run(y1, rest), held, y1.open, p, Settled(y1.barriers[p]));
  }

  lemma CheckPart(y: System, p: nat, s: Session, readable: bool, ok: bool, held: map<string, nat>) returns (steps: seq<Step>)
    requires p < |y.barriers| && s.name !in held && s.agentName !in held && y.held == held[s.name := p][s.agentName := p]
    requires y.barriers[p].pc == Holding(s)
    ensures ValidRun(y, steps) && OnlyBy(steps, p)
    ensures Became(y, Run(y, steps), held, if readable && s.name !in y.open && ok then y.open + multiset{s.name} else y.open, p,
                   After(y.barriers[p], s.name, readable, s.name in y.open, ok))
  {
    var y1 := Next(y, Check(p, readable));
    var rest;
    if readable && s.name !in y.open {
      rest := CreatePart(y1, p, s, ok, held);
    } else {
      rest := ReleasePart(y1, p, s, held);
      assert Settled(y1.barriers[p]) == After(y.barriers[p], s.name, readable, s.name in y.open, ok);
    }
    FirstStep(y, Check(p, readable), rest);
    steps := [Check(p, readable)] + rest;
    BecameTwice(y, y1, Run(y1, rest), held, Run(y1, rest).open, p, After(y.barriers[p], s.name, readable, s.name in y.open, ok));
  }

  lemma LockedPart(y: System, p: nat, s: Session, readable: bool, ok: bool) returns (steps: seq<Step>)
    requires p < |y.barriers| && y.barriers[p].pc == Adopting(s) && s.name !in y.held && s.agentName !in y.held
    ensures ValidRun(y, steps) && OnlyBy(steps, p)
    ensures Became(y, Run(y, steps), y.held, if readable && s.name !in y.open && ok then y.open + multiset{s.name} else y.open, p,
                   After(y.barriers[p], s.name, readable, s.name in y.open, ok))
  {
    var y1 := Next(y, Acquire(p));
    var rest := CheckPart(y1, p, s, readable, ok, y.held);
    FirstStep(y, Acquire(p), rest);
    steps := [Acquire(p)] + rest;
    BecameTwice(y, y1, Run(y1, rest), y.held, Run(y1, rest).open, p, After(y.barriers[p], s.name, readable, s.name in y.open, ok));
  }

  /** The barrier can take the locks of the head of its list. */
  ghost predicate CanServe(y: System, p: nat) {
    && p < |y.barriers| && y.barriers[p].pc.Scanning? && y.barriers[p].todo != []
    && y.barriers[p].todo[0].name !in y.held && y.barriers[p].todo[0].agentName !in y.held
  }

  /** A dead session leaves the total; one with a bead, seen at the listing or
      under the locks, counts as such; one without gets a bead if lookup and
      create work, and is skipped otherwise. */
  function Head(y: System, p: nat, alive: bool, readable: bool, ok: bool): Barrier
    requires p < |y.barriers| && y.barriers[p].todo != []
  {
    var b, n := y.barriers[p], y.barriers[p].todo[0].name;
    var had := n in b.known || (readable && n in y.open);
    var created := !had && readable && ok;
    Barrier(b.pc, b.todo[1..], b.known,
            if alive then b.alive + {n} else b.alive,
            if alive && (had || created) then b.served + {n} else b.served,
            if !alive then b.count.(total := b.count.total - 1)
            else if had then b.count.(alreadyHad := b.count.alreadyHad + 1)
            else if created then b.count.(adopted := b.count.adopted + 1)
            else b.count.(skipped := b.count.skipped + 1))
  }

  /** Undisturbed, a barrier takes the head off its list so, creates a bead
      exactly for a live session without one, and leaves no lock. */
  lemma SessionIsServed(y: System, p: nat, alive: bool, readable: bool, ok: bool) returns (steps: seq<Step>)
    requires CanServe(y, p)
    ensures ValidRun(y, steps) && OnlyBy(steps, p)
    ensures var n := y.barriers[p].todo[0].name;
            var creates := alive && n !in y.barriers[p].known && readable && n !in y.open && ok;
            Became(y, Run(y, steps), y.held, if creates then y.open + multiset{n} else y.open, p, Head(y, p, alive, readable, ok))
  {
    var s := y.barriers[p].todo[0];
    var y1 := Next(y, Observe(p, alive));
    var rest := [];
    if alive && s.name !in y.barriers[p].known {
      rest := LockedPart(y1, p, s, readable, ok);
      BecameTwice(y, y1, Run(y1, rest), y.held, Run(y1, rest).open, p, After(y1.barriers[p], s.name, readable, s.name in y.open, ok));
    }
    FirstStep(y, Observe(p, alive), rest);
    steps := [Observe(p, alive)] + rest;
  }

  /** A barrier starts with the listed sessions, the names that have an open
      bead, and counters that expect all of them. */
  lemma BarrierStarts(y: System, p: nat, running: seq<Session>)
    requires p < |y.barriers| && y.barriers[p].pc.Idle?
    ensures ValidRun(y, [Start(p, running)])
    ensures Became(y, Run(y, [Start(p, running)]), y.held, y.open, p,
                   Barrier(Scanning, running, set n | n in y.open, {}, {}, Counters(|running|, 0, 0, 0)))
  {
    FirstStep(y, Start(p, running), []);
    assert [Start(p, running)] + [] == [Start(p, running)];
  }
}
