/** The dependency-floor traversal of the desired-state build
    (realizeDependencyFloors in cmd/gc/build_desired_state.go): a depth-first
    walk over depends_on, which may be cyclic. */
module DependencyFloors {
  import opened Prelude

  /** `identities` are the templates AgentMatchesIdentity accepts, `legacy` the
      bound templates an unbound agent still answers to. `ready` is whether a
      dependency-only session of the agent validates and resolves. */
  datatype Agent = Agent(
    qualifiedName: string,
    identities: set<string>,
    legacy: set<string>,
    dependsOn: seq<string>,
    suspended: bool,
    rigSuspended: bool,
    ephemeral: bool,
    ready: bool)

  function FirstMatch(agents: seq<Agent>, template: string, legacy: bool): Option<Agent> {
    if agents == [] then None
    else if template in (if legacy then agents[0].legacy else agents[0].identities) then Some(agents[0])
    else FirstMatch(agents[1..], template, legacy)
  }

  /** An exact identity match anywhere wins over a legacy match. */
  function FindAgent(agents: seq<Agent>, template: string): Option<Agent> {
    var t := Trim(template);
    if t == "" then None
    else
      var exact := FirstMatch(agents, t, false);
      if exact.Some? then exact else FirstMatch(agents, t, true)
  }

  predicate Live(a: Agent) {
    !a.suspended && !a.rigSuspended
  }

  /** `v` is a configured, unsuspended dependency of the agent behind `u`. */
  predicate Edge(agents: seq<Agent>, u: string, v: string) {
    && FindAgent(agents, u).Some?
    && v in FindAgent(agents, u).value.dependsOn
    && FindAgent(agents, v).Some?
    && Live(FindAgent(agents, v).value)
  }

  /** A chain of dependencies that starts at a root; its length is |p| - 1. */
  ghost predicate Chain(agents: seq<Agent>, roots: set<string>, p: seq<string>) {
    && p != [] && p[0] in roots
    && forall i | 0 <= i < |p| - 1 :: Edge(agents, p[i], p[i + 1])
  }

  ghost predicate Reaches(agents: seq<Agent>, roots: set<string>, v: string) {
    exists p :: Chain(agents, roots, p) && p[|p| - 1] == v
  }

  /** Reached from a root through at least one dependency. */
  ghost predicate IsFloor(agents: seq<Agent>, roots: set<string>, v: string) {
    exists u :: Reaches(agents, roots, u) && Edge(agents, u, v)
  }

  /** The template a dependency contributes to the desired state, if any. */
  predicate Contributes(agents: seq<Agent>, v: string, name: string) {
    var a := FindAgent(agents, v);
    a.Some? && a.value.ephemeral && a.value.ready && a.value.qualifiedName == name
  }

  lemma ReachStep(agents: seq<Agent>, roots: set<string>, u: string, v: string)
    requires Reaches(agents, roots, u) && Edge(agents, u, v)
    ensures Reaches(agents, roots, v)
  {
    var p :| Chain(agents, roots, p) && p[|p| - 1] == u;
    assert Chain(agents, roots, p + [v]);
  }

  /** A set that holds the roots and every dependency of its members holds
      everything reachable. */
  lemma {:induction false} ClosedHoldsChain(agents: seq<Agent>, roots: set<string>, closed: set<string>, p: seq<string>)
    requires Chain(agents, roots, p) && roots <= closed
    requires forall u, v | u in closed && Edge(agents, u, v) :: v in closed
    ensures p[|p| - 1] in closed
    decreases |p|
  {
    if |p| > 1 {
      var q := p[..|p| - 1];
      ClosedHoldsChain(agents, roots, closed, q);
      assert Edge(agents, p[|p| - 2], p[|p| - 1]);
    }
  }

  /** The walk's invariant. `open` are the templates whose visit has not
      returned yet; every other visited one has all its dependencies done. */
  ghost predicate Inv(agents: seq<Agent>, roots: set<string>, visited: set<string>, ensured: set<string>, open: set<string>) {
    && open <= visited
    && visited <= roots + Mentioned(agents)
    && (forall u | u in visited :: Reaches(agents, roots, u))
    && (forall v | v in ensured :: IsFloor(agents, roots, v))
    && (forall u | u in visited - open :: Done(agents, visited, ensured, u))
  }

  ghost predicate Done(agents: seq<Agent>, visited: set<string>, ensured: set<string>, u: string) {
    forall v | Edge(agents, u, v) :: v in visited && v in ensured
  }

  lemma Enter(agents: seq<Agent>, roots: set<string>, visited: set<string>, ensured: set<string>, open: set<string>, t: string)
    requires Inv(agents, roots, visited, ensured, open) && t !in visited
    requires Reaches(agents, roots, t) && t in roots + Mentioned(agents)
    ensures Inv(agents, roots, visited + {t}, ensured, open + {t})
  {
    forall u | u in (visited + {t}) - (open + {t}) ensures Done(agents, visited + {t}, ensured, u) {
      assert Done(agents, visited, ensured, u);
    }
  }

  lemma EnsureDep(agents: seq<Agent>, roots: set<string>, visited: set<string>, ensured: set<string>, open: set<string>, t: string, v: string)
    requires Inv(agents, roots, visited, ensured, open) && t in visited && Edge(agents, t, v)
    ensures Inv(agents, roots, visited, ensured + {v}, open)
    ensures Reaches(agents, roots, v) && v in roots + Mentioned(agents)
  {
    ReachStep(agents, roots, t, v);
    MentionedDep(agents, t, v);
    forall u | u in visited - open ensures Done(agents, visited, ensured + {v}, u) {
      assert Done(agents, visited, ensured, u);
    }
  }

  lemma Leave(agents: seq<Agent>, roots: set<string>, visited: set<string>, ensured: set<string>, open: set<string>, t: string)
    requires Inv(agents, roots, visited, ensured, open + {t}) && Done(agents, visited, ensured, t)
    ensures Inv(agents, roots, visited, ensured, open)
  {
  }

  class Traversal {
    const agents: seq<Agent>
    var visited: set<string>
    /** The dependencies ensureDependencyOnlyTemplate was called for. */
    var ensured: set<string>
    /** The template names with a desired session. */
    var desired: set<string>

    constructor (agents: seq<Agent>, desired: set<string>)
      ensures this.agents == agents && this.desired == desired && visited == {} && ensured == {}
    {
      this.agents, this.desired := agents, desired;
      visited, ensured := {}, {};
    }

    /** The desired templates are the initial ones and what was ensured. */
    ghost predicate Explained(initial: set<string>)
      reads this
    {
      forall n :: n in desired <==> n in initial || ContributedBy(agents, ensured, n)
    }

    method EnsureDependencyOnlyTemplate(v: string, ghost initial: set<string>)
      requires FindAgent(agents, v).Some? && Explained(initial)
      modifies this`ensured, this`desired
      ensures ensured == old(ensured) + {v} && Explained(initial)
    {
      var a := FindAgent(agents, v).value;
      ensured := ensured + {v};
      forall n ensures ContributedBy(agents, ensured, n) <==> ContributedBy(agents, old(ensured), n) || Contributes(agents, v, n) {
      }
      if !a.ephemeral || a.qualifiedName in desired || !a.ready {
        return;
      }
      desired := desired + {a.qualifiedName};
    }

    method Visit(template: string, ghost roots: set<string>, ghost initial: set<string>, ghost open: set<string>)
      requires Inv(agents, roots, visited, ensured, open) && Explained(initial)
      requires Reaches(agents, roots, template) && template in roots + Mentioned(agents)
      modifies this`visited, this`ensured, this`desired
      ensures Inv(agents, roots, visited, ensured, open) && Explained(initial)
      ensures old(visited) <= visited && old(ensured) <= ensured
      ensures template != "" ==> template in visited
      decreases roots + Mentioned(agents) - visited
    {
      if template == "" || template in visited {
        return;
      }
      Enter(agents, roots, visited, ensured, open, template);
      visited := visited + {template};
      var agent := FindAgent(agents, template);
      if agent.None? {
        Leave(agents, roots, visited, ensured, open, template);
        return;
      }
      var deps := agent.value.dependsOn;
      for i := 0 to |deps|
        invariant Inv(agents, roots, visited, ensured, open + {template}) && Explained(initial)
        invariant old(visited) + {template} <= visited && old(ensured) <= ensured
        invariant forall k | 0 <= k < i && Edge(agents, template, deps[k]) ::
                    deps[k] in visited && deps[k] in ensured
      {
        var dep := deps[i];
        var depAgent := FindAgent(agents, dep);
        if depAgent.None? || !Live(depAgent.value) {
          continue;
        }
        EnsureDep(agents, roots, visited, ensured, open + {template}, template, dep);
        EnsureDependencyOnlyTemplate(dep, initial);
        Visit(dep, roots, initial, open + {template});
      }
      Leave(agents, roots, visited, ensured, open, template);
    }

    /** From every root, in any order: a dependency is ensured exactly when a
        non-empty chain of live dependencies leads to it, and the desired state
        grows by exactly the templates those dependencies contribute. */
    method RealizeDependencyFloors(roots: set<string>)
      requires visited == {} && ensured == {}
      modifies this`visited, this`ensured, this`desired
      ensures forall v :: v in ensured <==> IsFloor(agents, roots, v)
      ensures forall n :: n in desired <==> n in old(desired) || exists v :: IsFloor(agents, roots, v) && Contributes(agents, v, n)
    {
      var todo := roots;
      while todo != {}
        invariant todo <= roots
        invariant Inv(agents, roots, visited, ensured, {}) && Explained(old(desired))
        invariant forall t | t in roots && t !in todo :: t == "" || t in visited
        decreases todo
      {
        var template :| template in todo;
        todo := todo - {template};
        assert Chain(agents, roots, [template]);
        Visit(template, roots, old(desired), {});
      }
      FloorsComplete(agents, roots, visited, ensured);
      forall n ensures ContributedBy(agents, ensured, n) <==> exists v :: IsFloor(agents, roots, v) && Contributes(agents, v, n) {
      }
    }
  }

  ghost predicate ContributedBy(agents: seq<Agent>, ensured: set<string>, n: string) {
    exists v | v in ensured :: Contributes(agents, v, n)
  }

  /** When no visit is open, the ensured dependencies are all the floors. */
  lemma FloorsComplete(agents: seq<Agent>, roots: set<string>, visited: set<string>, ensured: set<string>)
    requires Inv(agents, roots, visited, ensured, {}) && roots <= visited + {""}
    ensures forall v :: v in ensured <==> IsFloor(agents, roots, v)
  {
    forall v | IsFloor(agents, roots, v) ensures v in ensured {
      var u :| Reaches(agents, roots, u) && Edge(agents, u, v);
      var p :| Chain(agents, roots, p) && p[|p| - 1] == u;
      forall x, y | x in visited + {""} && Edge(agents, x, y) ensures y in visited + {""} {
        assert Done(agents, visited, ensured, x);
      }
      ClosedHoldsChain(agents, roots, visited + {""}, p);
      assert Done(agents, visited, ensured, u);
    }
  }

  ghost function Mentioned(agents: seq<Agent>): set<string> {
    set a, d | a in agents && d in a.dependsOn :: d
  }

  lemma {:induction false} FirstMatchIsAgent(agents: seq<Agent>, t: string, legacy: bool)
    ensures FirstMatch(agents, t, legacy).Some? ==> FirstMatch(agents, t, legacy).value in agents
  {
    if agents != [] {
      FirstMatchIsAgent(agents[1..], t, legacy);
    }
  }

  lemma MentionedDep(agents: seq<Agent>, u: string, v: string)
    requires Edge(agents, u, v)
    ensures v in Mentioned(agents)
  {
    FirstMatchIsAgent(agents, Trim(u), false);
    FirstMatchIsAgent(agents, Trim(u), true);
  }
}
