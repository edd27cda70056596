/** The edges of the depends_on graph in the fields of the configured agents
    (findAgentByTemplate in cmd/gc/session_reconcile.go, realizeDependencyFloors
    in cmd/gc/build_desired_state.go). */
module DependencyEdges {
  import opened Prelude
  import opened DependencyFloors

  /** Agent i is the first with the template among its identities; or no agent
      has it there, and i is the first that still answers to it as a bound
      name. Blank templates name nobody. */
  ghost predicate Answers(agents: seq<Agent>, template: string, i: int) {
    var t := Trim(template);
    && t != "" && 0 <= i < |agents|
    && (|| (t in agents[i].identities && forall k | 0 <= k < i :: t !in agents[k].identities)
        || (t in agents[i].legacy && (forall k | 0 <= k < i :: t !in agents[k].legacy) && forall k | 0 <= k < |agents| :: t !in agents[k].identities))
  }

  lemma {:induction false} FirstMatchIs(agents: seq<Agent>, t: string, legacy: bool) returns (i: int)
    ensures if FirstMatch(agents, t, legacy).Some?
            then
              && 0 <= i < |agents| && agents[i] == FirstMatch(agents, t, legacy).value
              && t in (if legacy then agents[i].legacy else agents[i].identities)
              && forall k | 0 <= k < i :: t !in (if legacy then agents[k].legacy else agents[k].identities)
            else forall k | 0 <= k < |agents| :: t !in (if legacy then agents[k].legacy else agents[k].identities)
  {
    i := 0;
    if agents != [] && t !in (if legacy then agents[0].legacy else agents[0].identities) {
      var rest := agents[1..];
      var j := FirstMatchIs(rest, t, legacy);
      i := j + 1;
      forall k | 0 < k < |agents| ensures agents[k] == rest[k - 1] {
      }
    }
  }

  lemma FoundExactlyWhen(agents: seq<Agent>, template: string) returns (i: int)
    ensures FindAgent(agents, template).Some? ==> Answers(agents, template, i) && agents[i] == FindAgent(agents, template).value
    ensures FindAgent(agents, template).None? ==> forall k :: !Answers(agents, template, k)
  {
    i := FirstMatchIs(agents, Trim(template), false);
    if FirstMatch(agents, Trim(template), false).None? {
      i := FirstMatchIs(agents, Trim(template), true);
    }
  }

  lemma OneAnswers(agents: seq<Agent>, template: string, i: int, j: int)
    requires Answers(agents, template, i) && Answers(agents, template, j)
    ensures i == j
  {
  }

  /** An edge: the agent that answers to u depends on v, and the one that
      answers to v is suspended neither itself nor with its rig. */
  lemma EdgeExactlyWhen(agents: seq<Agent>, u: string, v: string)
    ensures Edge(agents, u, v) <==>
            exists i, j :: Answers(agents, u, i) && Answers(agents, v, j)
                           && v in agents[i].dependsOn && !agents[j].suspended && !agents[j].rigSuspended
  {
    var i := FoundExactlyWhen(agents, u);
    var j := FoundExactlyWhen(agents, v);
    if x, y :| Answers(agents, u, x) && Answers(agents, v, y)
               && v in agents[x].dependsOn && !agents[y].suspended && !agents[y].rigSuspended {
      OneAnswers(agents, u, x, i);
      OneAnswers(agents, v, y, j);
    }
  }

  /** A dependency adds the qualified name of the agent that answers to it,
      if that is an ephemeral pool and its session can be had. */
  lemma ContributesExactlyWhen(agents: seq<Agent>, v: string, name: string)
    ensures Contributes(agents, v, name) <==>
            exists j :: Answers(agents, v, j) && agents[j].ephemeral && agents[j].ready && agents[j].qualifiedName == name
  {
    var j := FoundExactlyWhen(agents, v);
    if y :| Answers(agents, v, y) && agents[y].ephemeral && agents[y].ready && agents[y].qualifiedName == name {
      OneAnswers(agents, v, y, j);
    }
  }
}
