/** The three-phase pool allocator of the desired-state build
    (realizePoolDesiredSessions in cmd/gc/build_desired_state.go and
    claimPoolSlotWithConfigInfo in cmd/gc/build_desired_state_pool_info.go),
    for pools without the canonical singleton identity. */
module PoolSlots {
  import opened Prelude

  /** `maxSessions` is the effective max_active_sessions, `names` the name pool
      and `namepool` the name pool's own name. */
  datatype Agent = Agent(maxSessions: Option<int>, namepool: string, names: seq<string>)

  predicate Singleton(a: Agent) {
    Blank(a.namepool) && a.names == [] && a.maxSessions == Some(1)
  }

  /** A session bead as the allocator sees it. `poolSlot` is the stamped slot
      when it parses to a positive number; the other slots are what the agent
      name, alias and session name resolve to, 0 for none. `reusable` gathers
      the state checks of reusablePoolSessionInfo apart from the used set. */
  datatype Info = Info(
    id: string,
    poolSlot: Option<nat>,
    agentSlot: nat,
    aliasSlot: nat,
    sessionNameSlot: nat,
    templateMatches: bool,
    failedCreate: bool,
    named: bool,
    reusable: bool,
    hasSessionName: bool)

  predicate HasBound(a: Agent) {
    a.names != [] || a.maxSessions.Some?
  }

  predicate InBounds(a: Agent, slot: nat) {
    && slot > 0 && HasBound(a)
    && (a.names != [] ==> slot <= |a.names|)
    && (a.maxSessions.Some? && a.maxSessions.value > 0 ==> slot <= a.maxSessions.value)
  }

  predicate Usable(a: Agent, slot: nat) {
    slot > 0 && (HasBound(a) ==> InBounds(a, slot))
  }

  function Keep(a: Agent, slot: nat): nat {
    if HasBound(a) && !Usable(a, slot) then 0 else slot
  }

  /** existingPoolSlotWithConfigInfo. */
  function ExistingSlot(a: Agent, i: Info): nat {
    if Singleton(a) then 0
    else if i.poolSlot.Some? && i.poolSlot.value > 0 then
      var slot := i.poolSlot.value;
      if i.agentSlot > 0 && i.agentSlot != slot && Usable(a, i.agentSlot) then i.agentSlot
      else if !i.templateMatches && i.agentSlot == 0 && i.aliasSlot == 0 then 0
      else if InBounds(a, slot) then slot
      else if Usable(a, i.agentSlot) then i.agentSlot
      else if Usable(a, i.aliasSlot) then i.aliasSlot
      else if Usable(a, i.sessionNameSlot) then i.sessionNameSlot
      else if HasBound(a) then 0
      else slot
    else
      var agentSlot, aliasSlot := Keep(a, i.agentSlot), Keep(a, i.aliasSlot);
      if agentSlot > 0 then agentSlot
      else if aliasSlot > 0 then aliasSlot
      else Keep(a, i.sessionNameSlot)
  }

  /** A persisted slot is never one the configuration rules out. */
  lemma ExistingSlotIsUsable(a: Agent, i: Info)
    ensures ExistingSlot(a, i) == 0 || Usable(a, ExistingSlot(a, i))
  {
  }

  // ---- the persisted slot in the fields of a session ----------------------------------

  /** The pool's limits leave room for slot n. */
  predicate Allowed(a: Agent, n: nat) {
    n > 0 && (a.names == [] || n <= |a.names|) && (a.maxSessions.None? || a.maxSessions.value <= 0 || n <= a.maxSessions.value)
  }

  predicate Limited(a: Agent) {
    a.names != [] || a.maxSessions.Some?
  }

  /** Everything but the pool of one session without names. */
  predicate Numbered(a: Agent) {
    Trim(a.namepool) != "" || a.names != [] || a.maxSessions != Some(1)
  }

  /** The agent name, the alias or the template ties the session to the pool. */
  predicate Owned(i: Info) {
    i.templateMatches || i.agentSlot > 0 || i.aliasSlot > 0
  }

  /** The agent name resolves to another slot the pool allows. */
  predicate Renamed(a: Agent, i: Info, stamp: nat) {
    i.agentSlot != stamp && Allowed(a, i.agentSlot)
  }

  /** The first allowed slot among agent name, alias and session name. */
  predicate FirstNamed(a: Agent, i: Info, n: nat) {
    || (Allowed(a, i.agentSlot) && n == i.agentSlot)
    || (!Allowed(a, i.agentSlot) && Allowed(a, i.aliasSlot) && n == i.aliasSlot)
    || (!Allowed(a, i.agentSlot) && !Allowed(a, i.aliasSlot) && Allowed(a, i.sessionNameSlot) && n == i.sessionNameSlot)
  }

  predicate Nameless(a: Agent, i: Info) {
    !Allowed(a, i.agentSlot) && !Allowed(a, i.aliasSlot) && !Allowed(a, i.sessionNameSlot)
  }

  /** The session's stamped slot is the one it persists. */
  predicate StampHolds(a: Agent, i: Info, n: nat) {
    && Numbered(a) && i.poolSlot == Some(n) && n > 0 && !Renamed(a, i, n) && Owned(i)
    && if Limited(a) then Allowed(a, n) else FirstNamed(a, i, n) || Nameless(a, i)
  }

  /** A stamp the limits allow is kept, unless the agent name resolves to
      another allowed slot. */
  lemma StampIsKept(a: Agent, i: Info, n: nat)
    requires StampHolds(a, i, n)
    ensures ExistingSlot(a, i) == n
  {
  }

  /** Every other case: a stamp gives way to the agent name, is void for a
      foreign session, and outside the limits falls to the first allowed name;
      without a stamp the first allowed name counts. */
  lemma SlotWithoutStamp(a: Agent, i: Info, stamp: nat, n: nat)
    ensures !Numbered(a) ==> ExistingSlot(a, i) == 0
    ensures Numbered(a) && i.poolSlot == Some(stamp) && stamp > 0 && Renamed(a, i, stamp) ==> ExistingSlot(a, i) == i.agentSlot
    ensures Numbered(a) && i.poolSlot == Some(stamp) && stamp > 0 && !Owned(i) ==> ExistingSlot(a, i) == 0
    ensures Numbered(a) && i.poolSlot == Some(stamp) && stamp > 0 && !Renamed(a, i, stamp) && Owned(i) && Limited(a) && !Allowed(a, stamp) ==>
              (FirstNamed(a, i, n) ==> ExistingSlot(a, i) == n) && (Nameless(a, i) ==> ExistingSlot(a, i) == 0)
    ensures Numbered(a) && i.poolSlot == Some(stamp) && stamp > 0 && !Renamed(a, i, stamp) && Owned(i) && !Limited(a) && FirstNamed(a, i, n) ==>
              ExistingSlot(a, i) == n
    ensures Numbered(a) && (i.poolSlot == None || i.poolSlot == Some(0)) ==>
              (FirstNamed(a, i, n) ==> ExistingSlot(a, i) == n) && (Nameless(a, i) ==> ExistingSlot(a, i) == 0)
  {
  }

  /** The least slot from 1 that is not used. */
  predicate LeastFree(used: set<nat>, slot: nat) {
    slot >= 1 && slot !in used && forall k | 1 <= k < slot :: k in used
  }

  lemma {:induction false} UsedPrefix(used: set<nat>, n: nat)
    requires forall k | 1 <= k <= n :: k in used
    ensures n <= |used|
    decreases n
  {
    if n > 0 {
      var rest := used - {n};
      forall k | 1 <= k <= n - 1 ensures k in rest {
      }
      UsedPrefix(rest, n - 1);
    }
  }

  /** The least free slot is at most one past the number of used slots. */
  lemma LeastFreeIsSmall(used: set<nat>, slot: nat)
    requires LeastFree(used, slot)
    ensures slot <= |used| + 1
  {
    UsedPrefix(used, slot - 1);
  }

  // ---- requests, work items and results -------------------------------------------

  /** A request, with the open session its SessionBeadID names, if any. */
  datatype Request = Request(preferred: Option<Info>)

  datatype Item = Skip | Reuse(info: Info, slot: nat) | Plan(slot: nat)

  /** What creating a planned session yields. */
  datatype Create = Created(id: string) | CreateFails

  datatype Realized = Realized(id: string, slot: nat)

  function Plans(items: seq<Item>): nat {
    if items == [] then 0
    else Plans(items[..|items| - 1]) + if items[|items| - 1].Plan? then 1 else 0
  }

  /** Within the limits the configuration sets, 0 or less meaning none. */
  predicate Fits(a: Agent, n: nat) {
    && (a.names != [] ==> n <= |a.names|)
    && (a.maxSessions.Some? && a.maxSessions.value > 0 ==> n <= a.maxSessions.value)
  }

  /** Non-skipped items hold distinct slots, and reused sessions are distinct
      and keep the slot they persisted. */
  ghost predicate Planned(a: Agent, items: seq<Item>, used: set<string>, usedSlots: set<nat>) {
    && (forall k | 0 <= k < |items| && !items[k].Skip? ::
          items[k].slot in usedSlots && items[k].slot >= 1 && (Usable(a, items[k].slot) || items[k].slot <= k + 1))
    && (forall k, m | 0 <= k < m < |items| && !items[k].Skip? && !items[m].Skip? :: items[k].slot != items[m].slot)
    && (forall k | 0 <= k < |items| && items[k].Reuse? ::
          items[k].info.id in used && (ExistingSlot(a, items[k].info) > 0 ==> items[k].slot == ExistingSlot(a, items[k].info)))
    && (forall k, m | 0 <= k < m < |items| && items[k].Reuse? && items[m].Reuse? :: items[k].info.id != items[m].info.id)
    && |usedSlots| <= |items|
  }

  ghost function SlotsOf(items: seq<Item>): set<nat> {
    set k | 0 <= k < |items| && !items[k].Skip? :: items[k].slot
  }

  ghost function IdsOf(items: seq<Item>): set<string> {
    set k | 0 <= k < |items| && items[k].Reuse? :: items[k].info.id
  }

  lemma TakenSnoc(items: seq<Item>, item: Item)
    ensures SlotsOf(items + [item]) == SlotsOf(items) + if item.Skip? then {} else {item.slot}
    ensures IdsOf(items + [item]) == IdsOf(items) + if item.Reuse? then {item.info.id} else {}
  {
    var all := items + [item];
    assert all[|items|] == item && forall k | 0 <= k < |items| :: all[k] == items[k];
    forall x | x in SlotsOf(items) ensures x in SlotsOf(all) {
      var k :| 0 <= k < |items| && !items[k].Skip? && items[k].slot == x;
      assert all[k].slot == x;
    }
    forall x | x in IdsOf(items) ensures x in IdsOf(all) {
      var k :| 0 <= k < |items| && items[k].Reuse? && items[k].info.id == x;
      assert all[k].info.id == x;
    }
  }

  class PoolPass {
    const agent: Agent
    /** The open sessions in reuse order: creation time, then id. */
    const pool: seq<Info>
    /** Fresh creates are blocked: a partial demand read or a red provider. */
    const blocked: bool
    var used: set<string>
    var usedSlots: set<nat>
    var budget: nat

    constructor (agent: Agent, pool: seq<Info>, blocked: bool, budget: nat)
      ensures this.agent == agent && this.pool == pool && this.blocked == blocked && this.budget == budget
      ensures used == {} && usedSlots == {}
    {
      this.agent, this.pool, this.blocked, this.budget := agent, pool, blocked, budget;
      used, usedSlots := {}, {};
    }

    /** Claims the session's persisted slot, or 0 when another item holds it;
        a session without one gets the least free slot. */
    method ClaimSlot(existing: nat) returns (slot: nat)
      modifies this`usedSlots
      ensures existing > 0 && existing in old(usedSlots) ==> slot == 0 && usedSlots == old(usedSlots)
      ensures existing > 0 && existing !in old(usedSlots) ==> slot == existing && usedSlots == old(usedSlots) + {slot}
      ensures existing == 0 ==> LeastFree(old(usedSlots), slot) && usedSlots == old(usedSlots) + {slot}
    {
      if existing > 0 {
        if existing in usedSlots {
          return 0;
        }
        usedSlots := usedSlots + {existing};
        return existing;
      }
      slot := 1;
      while slot in usedSlots
        invariant usedSlots == old(usedSlots)
        invariant slot >= 1 && forall k | 1 <= k < slot :: k in usedSlots
        decreases |usedSlots| + 1 - slot
      {
        UsedPrefix(usedSlots, slot);
        slot := slot + 1;
      }
      usedSlots := usedSlots + {slot};
    }

    /** selectOrPlanPoolSessionBead: the preferred session, else the first
        reusable one whose slot is free, else a planned create. */
    method Select(preferred: Option<Info>) returns (item: Item)
      requires !Singleton(agent)
      modifies this`usedSlots, this`budget
      ensures Selected(old(usedSlots), usedSlots, item)
      ensures item.Reuse? ==> item.info.id !in used
      ensures budget == old(budget) - (if item.Plan? then 1 else 0)
      ensures Resumes(preferred, used) ==>
                item.Skip? || item == Reuse(preferred.value, item.slot)
      ensures Resumes(preferred, used) && item.Skip? ==> Conflicts(preferred.value, old(usedSlots))
      ensures !Resumes(preferred, used) ==>
                && (item.Reuse? ==> FirstAvailable(used, old(usedSlots), item.info))
                && (!item.Reuse? ==> forall k | 0 <= k < |pool| :: !Available(pool[k], used, old(usedSlots)))
                && (item.Skip? ==> blocked || old(budget) == 0)
    {
      if preferred.Some? && preferred.value.id != "" && preferred.value.id !in used && !preferred.value.failedCreate {
        var slot := ClaimSlot(ExistingSlot(agent, preferred.value));
        return if slot == 0 then Skip else Reuse(preferred.value, slot);
      }
      for k := 0 to |pool|
        invariant usedSlots == old(usedSlots) && budget == old(budget)
        invariant forall m | 0 <= m < k :: !Available(pool[m], used, usedSlots)
      {
        var candidate := pool[k];
        if !candidate.reusable || candidate.failedCreate || candidate.named || candidate.id in used || !candidate.hasSessionName {
          continue;
        }
        var slot := ClaimSlot(ExistingSlot(agent, candidate));
        if slot == 0 {
          continue;
        }
        return Reuse(candidate, slot);
      }
      var slot := ClaimSlot(0);
      if blocked || budget == 0 {
        usedSlots := usedSlots - {slot};
        return Skip;
      }
      budget := budget - 1;
      return Plan(slot);
    }

    /** The request resumes the session its work is assigned to. */
    predicate Resumes(preferred: Option<Info>, ids: set<string>) {
      preferred.Some? && preferred.value.id != "" && preferred.value.id !in ids && !preferred.value.failedCreate
    }

    /** Another item holds the slot the session persisted. */
    predicate Conflicts(i: Info, slots: set<nat>) {
      ExistingSlot(agent, i) > 0 && ExistingSlot(agent, i) in slots
    }

    predicate Available(i: Info, ids: set<string>, slots: set<nat>) {
      i.reusable && !i.failedCreate && !i.named && i.id !in ids && i.hasSessionName && !Conflicts(i, slots)
    }

    ghost predicate FirstAvailable(ids: set<string>, slots: set<nat>, i: Info) {
      exists k | 0 <= k < |pool| ::
        pool[k] == i && Available(i, ids, slots) && forall m | 0 <= m < k :: !Available(pool[m], ids, slots)
    }

    /** A selection claims at most its own slot: the persisted one of the
        session it reuses, or the least free one. */
    ghost predicate Selected(before: set<nat>, after: set<nat>, item: Item) {
      if item.Skip? then after == before
      else
        && item.slot !in before && after == before + {item.slot}
        && if item.Reuse? && ExistingSlot(agent, item.info) > 0
           then item.slot == ExistingSlot(agent, item.info)
           else LeastFree(before, item.slot)
    }

    /** What a request gets when sessions `ids` and slots `slots` are taken:
        its own session, else the first available one, each on its persisted
        slot or the least free one; else a create on the least free slot. */
    ghost predicate Picked(preferred: Option<Info>, ids: set<string>, slots: set<nat>, item: Item) {
      if preferred.Some? && preferred.value.named then item.Skip?
      else if Resumes(preferred, ids) then
        if Conflicts(preferred.value, slots) then item.Skip? else item.Reuse? && item.info == preferred.value && OnSlot(slots, item)
      else if exists k | 0 <= k < |pool| :: Available(pool[k], ids, slots) then
        item.Reuse? && FirstAvailable(ids, slots, item.info) && OnSlot(slots, item)
      else item.Skip? || (item.Plan? && LeastFree(slots, item.slot))
    }

    ghost predicate OnSlot(slots: set<nat>, item: Item)
      requires item.Reuse?
    {
      if ExistingSlot(agent, item.info) > 0 then item.slot == ExistingSlot(agent, item.info) else LeastFree(slots, item.slot)
    }

    /** Every item answers its request, given what the earlier items took. */
    ghost predicate AllPicked(requests: seq<Request>, items: seq<Item>) {
      |items| <= |requests| && forall k | 0 <= k < |items| :: Picked(requests[k].preferred, IdsOf(items[..k]), SlotsOf(items[..k]), items[k])
    }

    lemma AllPickedSnoc(requests: seq<Request>, items: seq<Item>, item: Item)
      requires AllPicked(requests, items) && |items| < |requests|
      requires Picked(requests[|items|].preferred, IdsOf(items), SlotsOf(items), item)
      ensures AllPicked(requests, items + [item])
    {
      var all := items + [item];
      forall k | 0 <= k < |all| ensures Picked(requests[k].preferred, IdsOf(all[..k]), SlotsOf(all[..k]), all[k]) {
        assert all[..k] == items[..k];
        assert k == |items| ==> items[..k] == items;
      }
    }

    /** Phase A: one work item per request. */
    method PlanAll(requests: seq<Request>) returns (items: seq<Item>)
      requires !Singleton(agent) && used == {} && usedSlots == {}
      modifies this
      ensures |items| == |requests| && Planned(agent, items, used, usedSlots) && AllPicked(requests, items)
      ensures budget + Plans(items) == old(budget)
      ensures forall k | 0 <= k < |items| && items[k].Reuse? && requests[k].preferred.None? :: items[k].info in pool
      ensures forall id | id in used :: exists m | 0 <= m < |items| && items[m].Reuse? :: items[m].info.id == id
      ensures !blocked && |requests| <= old(budget) ==>
                forall k | 0 <= k < |items| && requests[k].preferred.None? :: !items[k].Skip?
    {
      items := [];
      for k := 0 to |requests|
        invariant |items| == k && Progress(items, requests, used, usedSlots, old(budget), budget)
      {
        ghost var ids, slots, left := used, usedSlots, budget;
        var item := PlanOne(requests[k]);
        ProgressStep(items, item, requests, ids, slots, usedSlots, old(budget), left);
        items := items + [item];
      }
    }

    /** One request: a configured named session is left alone. */
    method PlanOne(request: Request) returns (item: Item)
      requires !Singleton(agent)
      modifies this
      ensures Answered(request, old(used), old(usedSlots), usedSlots, old(budget), item)
      ensures used == (if item.Reuse? then old(used) + {item.info.id} else old(used))
      ensures budget == old(budget) - (if item.Plan? then 1 else 0)
    {
      item := Skip;
      if request.preferred.None? || !request.preferred.value.named {
        item := Select(request.preferred);
      }
      if item.Reuse? {
        used := used + {item.info.id};
      }
    }

    ghost predicate Answered(request: Request, ids: set<string>, before: set<nat>, after: set<nat>, left: nat, item: Item) {
      && Selected(before, after, item) && (item.Reuse? ==> item.info.id !in ids) && (item.Plan? ==> left > 0)
      && Picked(request.preferred, ids, before, item)
      && (request.preferred.None? && item.Skip? ==> blocked || left == 0)
    }

    /** What the items took is what is taken, and each answers its request. */
    ghost predicate Tracked(items: seq<Item>, requests: seq<Request>, ids: set<string>, slots: set<nat>) {
      ids == IdsOf(items) && slots == SlotsOf(items) && AllPicked(requests, items)
    }

    lemma TrackedStep(items: seq<Item>, item: Item, requests: seq<Request>, ids: set<string>, before: set<nat>, after: set<nat>)
      requires Tracked(items, requests, ids, before) && |items| < |requests|
      requires Picked(requests[|items|].preferred, ids, before, item) && Selected(before, after, item)
      ensures Tracked(items + [item], requests, if item.Reuse? then ids + {item.info.id} else ids, after)
    {
      TakenSnoc(items, item);
      AllPickedSnoc(requests, items, item);
    }

    lemma FreshReuseIsPooled(request: Request, ids: set<string>, before: set<nat>, item: Item)
      requires Picked(request.preferred, ids, before, item) && request.preferred.None? && item.Reuse?
      ensures item.info in pool
    {
    }

    lemma AnsweredServes(items: seq<Item>, item: Item, requests: seq<Request>, ids: set<string>, before: set<nat>, after: set<nat>, budget0: nat, left: nat)
      requires Served(items, requests, ids, budget0, left) && |items| < |requests|
      requires Answered(requests[|items|], ids, before, after, left, item)
      ensures Served(items + [item], requests, if item.Reuse? then ids + {item.info.id} else ids, budget0, left - if item.Plan? then 1 else 0)
    {
      if requests[|items|].preferred.None? && item.Reuse? {
        FreshReuseIsPooled(requests[|items|], ids, before, item);
      }
      ServedStep(items, item, requests, ids, budget0, left);
    }

    ghost predicate Progress(items: seq<Item>, requests: seq<Request>, ids: set<string>, slots: set<nat>, budget0: nat, left: nat) {
      Planned(agent, items, ids, slots) && Served(items, requests, ids, budget0, left) && Tracked(items, requests, ids, slots)
    }

    lemma ProgressStep(items: seq<Item>, item: Item, requests: seq<Request>, ids: set<string>, before: set<nat>, after: set<nat>, budget0: nat, left: nat)
      requires Progress(items, requests, ids, before, budget0, left) && |items| < |requests|
      requires Answered(requests[|items|], ids, before, after, left, item)
      ensures Progress(items + [item], requests, if item.Reuse? then ids + {item.info.id} else ids, after, budget0, left - if item.Plan? then 1 else 0)
    {
      PlannedStep(items, item, ids, before, after);
      AnsweredServes(items, item, requests, ids, before, after, budget0, left);
      TrackedStep(items, item, requests, ids, before, after);
    }

    /** The items planned so far, as the requests see them. */
    ghost predicate Served(items: seq<Item>, requests: seq<Request>, ids: set<string>, budget0: nat, left: nat) {
      && |items| <= |requests| && left + Plans(items) == budget0 && Plans(items) <= |items|
      && (forall k | 0 <= k < |items| && items[k].Reuse? && requests[k].preferred.None? :: items[k].info in pool)
      && (forall id | id in ids :: exists m | 0 <= m < |items| && items[m].Reuse? :: items[m].info.id == id)
      && (!blocked && |requests| <= budget0 ==>
            forall k | 0 <= k < |items| && requests[k].preferred.None? :: !items[k].Skip?)
    }

    lemma ServedStep(items: seq<Item>, item: Item, requests: seq<Request>, ids: set<string>, budget0: nat, left: nat)
      requires Served(items, requests, ids, budget0, left) && |items| < |requests|
      requires item.Plan? ==> left > 0
      requires requests[|items|].preferred.None? ==>
                 && (item.Reuse? ==> item.info in pool)
                 && (item.Skip? ==> blocked || left == 0)
      ensures Served(items + [item], requests, if item.Reuse? then ids + {item.info.id} else ids, budget0, left - if item.Plan? then 1 else 0)
    {
    }

    lemma PlannedStep(items: seq<Item>, item: Item, ids: set<string>, before: set<nat>, after: set<nat>)
      requires Planned(agent, items, ids, before) && Selected(before, after, item)
      requires item.Reuse? ==> item.info.id !in ids
      ensures Planned(agent, items + [item], if item.Reuse? then ids + {item.info.id} else ids, after)
    {
      if !item.Skip? {
        if item.Reuse? && ExistingSlot(agent, item.info) > 0 {
          ExistingSlotIsUsable(agent, item.info);
        } else {
          LeastFreeIsSmall(before, item.slot);
        }
      }
    }

    lemma ReusedFrom(requests: seq<Request>, items: seq<Item>, k: nat)
      requires AllPicked(requests, items) && k < |items| && items[k].Reuse?
      ensures items[k].info in pool || requests[k] == Request(Some(items[k].info))
    {
    }

    lemma EverySource(requests: seq<Request>, items: seq<Item>, creates: seq<Create>, realized: seq<Realized>, from: seq<nat>)
      requires AllPicked(requests, items) && RealizedFrom(items, creates, realized, from)
      requires forall k | 0 <= k < |items| && items[k].Reuse? && ExistingSlot(agent, items[k].info) > 0 :: items[k].slot == ExistingSlot(agent, items[k].info)
      ensures forall r | 0 <= r < |realized| :: FromSession(agent, pool, requests, realized[r]) || FromCreate(creates, realized[r])
    {
      forall r | 0 <= r < |realized| ensures FromSession(agent, pool, requests, realized[r]) || FromCreate(creates, realized[r]) {
        var k := from[r];
        assert Realizes(items[k], creates[k], realized[r]);
        if items[k].Reuse? {
          ReusedFrom(requests, items, k);
          forall n | StampHolds(agent, items[k].info, n) ensures realized[r].slot == n {
            StampIsKept(agent, items[k].info, n);
          }
        }
      }
    }

    /** When every request resumes, item k is its session on its stamp. */
    lemma {:induction false} ResumesInTurn(requests: seq<Request>, items: seq<Item>, resolves: seq<bool>, stamps: seq<nat>, k: nat)
      requires AllPicked(requests, items) && AllResume(agent, requests, resolves, stamps) && k <= |items|
      ensures forall m | 0 <= m < k :: items[m] == Reuse(requests[m].preferred.value, stamps[m])
    {
      if k > 0 {
        ResumesInTurn(requests, items, resolves, stamps, k - 1);
        var x, n := requests[k - 1].preferred.value, stamps[k - 1];
        var before := items[..k - 1];
        assert forall m | 0 <= m < k - 1 :: before[m] == Reuse(requests[m].preferred.value, stamps[m]);
        assert Resumable(agent, x, n);
        StampIsKept(agent, x, n);
        assert n !in SlotsOf(before) && x.id !in IdsOf(before);
        assert Picked(requests[k - 1].preferred, IdsOf(before), SlotsOf(before), items[k - 1]);
      }
    }

    lemma EveryResume(requests: seq<Request>, items: seq<Item>, creates: seq<Create>, resolves: seq<bool>, realized: seq<Realized>, from: seq<nat>)
      requires AllPicked(requests, items) && |items| == |requests| == |resolves| && RealizedFrom(items, creates, realized, from)
      requires forall k | 0 <= k < |items| && items[k].Reuse? && resolves[k] :: k in from
      ensures forall stamps | AllResume(agent, requests, resolves, stamps) :: ResumedOn(requests, stamps, realized)
    {
      forall stamps | AllResume(agent, requests, resolves, stamps) ensures ResumedOn(requests, stamps, realized) {
        ResumesInTurn(requests, items, resolves, stamps, |items|);
        AllInOrder(from, |items|);
        forall k | 0 <= k < |requests| ensures realized[k] == Realized(requests[k].preferred.value.id, stamps[k]) {
          assert Realizes(items[from[k]], creates[from[k]], realized[k]);
        }
      }
    }

    lemma EveryFirstFresh(requests: seq<Request>, items: seq<Item>, creates: seq<Create>, resolves: seq<bool>, realized: seq<Realized>, from: seq<nat>)
      requires AllPicked(requests, items) && |items| == |requests| == |resolves| && RealizedFrom(items, creates, realized, from)
      requires forall k | 0 <= k < |items| && items[k].Reuse? && resolves[k] :: k in from
      ensures forall j, n | FirstFresh(pool, requests, resolves, j) && StampHolds(agent, pool[j], n) :: Realized(pool[j].id, n) in realized
    {
      forall j, n | FirstFresh(pool, requests, resolves, j) && StampHolds(agent, pool[j], n) ensures Realized(pool[j].id, n) in realized {
        FirstIsReused(requests, items, resolves, j, n);
        var r :| 0 <= r < |from| && from[r] == 0;
        assert Realizes(items[0], creates[0], realized[r]);
      }
    }

    lemma FirstIsReused(requests: seq<Request>, items: seq<Item>, resolves: seq<bool>, j: int, n: nat)
      requires AllPicked(requests, items) && |items| == |requests| && FirstFresh(pool, requests, resolves, j) && StampHolds(agent, pool[j], n)
      ensures items[0] == Reuse(pool[j], n)
    {
      StampIsKept(agent, pool[j], n);
      assert items[..0] == [] && IdsOf([]) == {} && SlotsOf([]) == {};
      assert Picked(requests[0].preferred, {}, {}, items[0]);
      assert Available(pool[j], {}, {});
      assert forall m | 0 <= m < j :: !Available(pool[m], {}, {});
    }

    /** Phases B and C: creates run independently, one result per planned item,
        then results are taken in request order; a failed create gives its slot
        back and a session already taken is dropped. `resolves` is whether the
        item's template resolves. */
    method Finish(items: seq<Item>, creates: seq<Create>, resolves: seq<bool>) returns (realized: seq<Realized>, from: seq<nat>)
      requires Planned(agent, items, used, usedSlots) && |items| == |creates| == |resolves|
      modifies this`used, this`usedSlots
      ensures RealizedFrom(items, creates, realized, from)
      ensures forall r, q | 0 <= r < q < |realized| :: realized[r].id != realized[q].id
      ensures NothingFails(items, creates, resolves, old(used)) ==> |realized| == |items|
      ensures forall k | 0 <= k < |items| && items[k].Reuse? && resolves[k] :: k in from
    {
      realized, from := [], [];
      for k := 0 to |items|
        invariant Taken(items, creates, k, used, realized, from)
        invariant forall m | 0 <= m < k && items[m].Reuse? && resolves[m] :: m in from
        invariant NothingFails(items, creates, resolves, old(used)) ==> |realized| == k && OnlyNew(items, creates, k, old(used), used)
      {
        var item := items[k];
        if item.Skip? {
          continue;
        }
        var id := "";
        ghost var ids := used;
        if item.Plan? {
          if creates[k].CreateFails? {
            usedSlots := usedSlots - {item.slot};
            continue;
          }
          id := creates[k].id;
          if id in used {
            assert !NothingFails(items, creates, resolves, old(used)) by {
              if NothingFails(items, creates, resolves, old(used)) {
                NewId(items, creates, resolves, k, old(used), used);
              }
            }
            continue;
          }
          used := used + {id};
        } else {
          id := item.info.id;
        }
        OnlyNewStep(items, creates, k, old(used), ids, used);
        if !resolves[k] {
          continue;
        }
        TakenStep(items, creates, k, ids, used, realized, from, id);
        realized := realized + [Realized(id, item.slot)];
        from := from + [k];
      }
    }
  }

  /** The sessions taken from the first k items: all in use, pairwise distinct
      and distinct from every session a later item reuses. */
  ghost predicate Taken(items: seq<Item>, creates: seq<Create>, k: nat, ids: set<string>, realized: seq<Realized>, from: seq<nat>) {
    && RealizedFrom(items, creates, realized, from)
    && (forall r | 0 <= r < |from| :: from[r] < k)
    && (forall r | 0 <= r < |realized| :: realized[r].id in ids)
    && (forall m | 0 <= m < |items| && items[m].Reuse? :: items[m].info.id in ids)
    && (forall r, q | 0 <= r < q < |realized| :: realized[r].id != realized[q].id)
    && (forall r, m | 0 <= r < |realized| && k <= m < |items| && items[m].Reuse? :: realized[r].id != items[m].info.id)
  }

  lemma TakenStep(items: seq<Item>, creates: seq<Create>, k: nat, before: set<string>, after: set<string>, realized: seq<Realized>, from: seq<nat>, id: string)
    requires Taken(items, creates, k, before, realized, from) && k < |items| <= |creates| && before <= after && id in after
    requires !items[k].Skip? && Realizes(items[k], creates[k], Realized(id, items[k].slot)) && (items[k].Plan? ==> id !in before)
    requires forall m | k < m < |items| && items[k].Reuse? && items[m].Reuse? :: items[k].info.id != items[m].info.id
    ensures Taken(items, creates, k + 1, after, realized + [Realized(id, items[k].slot)], from + [k])
  {
  }

  /** Every session in use was in use before, or is one of the first k creates. */
  ghost predicate OnlyNew(items: seq<Item>, creates: seq<Create>, k: nat, old_: set<string>, ids: set<string>)
    requires k <= |items| <= |creates|
  {
    forall id | id in ids && id !in old_ :: CreatedBefore(items, creates, k, id)
  }

  ghost predicate CreatedBefore(items: seq<Item>, creates: seq<Create>, k: nat, id: string)
    requires k <= |items| <= |creates|
  {
    exists m | 0 <= m < k && items[m].Plan? :: creates[m] == Created(id)
  }

  lemma OnlyNewStep(items: seq<Item>, creates: seq<Create>, k: nat, old_: set<string>, before: set<string>, after: set<string>)
    requires k < |items| <= |creates|
    requires after == before || (items[k].Plan? && creates[k].Created? && after == before + {creates[k].id})
    ensures OnlyNew(items, creates, k, old_, before) ==> OnlyNew(items, creates, k + 1, old_, after)
  {
  }

  lemma NewId(items: seq<Item>, creates: seq<Create>, resolves: seq<bool>, k: nat, old_: set<string>, ids: set<string>)
    requires |items| == |creates| == |resolves| && k < |items| && items[k].Plan?
    requires NothingFails(items, creates, resolves, old_) && OnlyNew(items, creates, k, old_, ids)
    ensures creates[k].id !in ids
  {
  }

  /** No item was skipped, every create yields a new session, and every
      template resolves. */
  ghost predicate NothingFails(items: seq<Item>, creates: seq<Create>, resolves: seq<bool>, ids: set<string>)
    requires |items| == |creates| == |resolves|
  {
    && (forall k | 0 <= k < |items| :: !items[k].Skip? && resolves[k])
    && (forall k | 0 <= k < |items| && items[k].Plan? :: creates[k].Created? && creates[k].id !in ids)
    && (forall k, m | 0 <= k < m < |items| && items[k].Plan? && items[m].Plan? :: creates[k] != creates[m])
  }

  /** Each realised session comes from its own item, in request order. */
  ghost predicate RealizedFrom(items: seq<Item>, creates: seq<Create>, realized: seq<Realized>, from: seq<nat>) {
    && |realized| == |from|
    && (forall r, q | 0 <= r < q < |from| :: from[r] < from[q])
    && (forall r | 0 <= r < |from| :: from[r] < |items| && from[r] < |creates| && Realizes(items[from[r]], creates[from[r]], realized[r]))
  }

  /** The session is the reused or the created one, on the item's slot. */
  predicate Realizes(i: Item, c: Create, r: Realized) {
    && !i.Skip? && r.slot == i.slot
    && if i.Reuse? then r.id == i.info.id else c == Created(r.id)
  }

  /** One pass over a pool: the realised sessions have distinct ids and distinct
      positive slots, at most one per request; at most `budget` creates were
      planned; and when the requests fit the configured limits every slot is
      within them. */
  method RealizePool(agent: Agent, pool: seq<Info>, blocked: bool, budget: nat, requests: seq<Request>, creates: seq<Create>, resolves: seq<bool>)
    returns (realized: seq<Realized>, planned: nat)
    requires !Singleton(agent) && |requests| == |creates| == |resolves|
    ensures |realized| <= |requests|
    ensures forall r, q | 0 <= r < q < |realized| :: realized[r].id != realized[q].id && realized[r].slot != realized[q].slot
    ensures forall r | 0 <= r < |realized| :: realized[r].slot >= 1
    ensures Fits(agent, |requests|) ==> forall r | 0 <= r < |realized| :: Usable(agent, realized[r].slot)
    ensures planned <= budget
    ensures !blocked && |requests| <= budget && Unhindered(pool, requests, creates, resolves) ==> |realized| == |requests|
    ensures forall r | 0 <= r < |realized| :: FromSession(agent, pool, requests, realized[r]) || FromCreate(creates, realized[r])
    ensures forall stamps | AllResume(agent, requests, resolves, stamps) :: ResumedOn(requests, stamps, realized)
    ensures forall j, n | FirstFresh(pool, requests, resolves, j) && StampHolds(agent, pool[j], n) :: Realized(pool[j].id, n) in realized
  {
    var pass := new PoolPass(agent, pool, blocked, budget);
    var items := pass.PlanAll(requests);
    planned := Plans(items);
    var from;
    realized, from := pass.Finish(items, creates, resolves);
    DistinctFrom(items, creates, realized, from);
    pass.EverySource(requests, items, creates, realized, from);
    pass.EveryResume(requests, items, creates, resolves, realized, from);
    pass.EveryFirstFresh(requests, items, creates, resolves, realized, from);
  }

  /** A session of the pool or of a request, on its stamped slot if that holds. */
  ghost predicate FromSession(a: Agent, pool: seq<Info>, requests: seq<Request>, r: Realized) {
    exists x: Info :: (x in pool || Request(Some(x)) in requests) && x.id == r.id && forall n | StampHolds(a, x, n) :: r.slot == n
  }

  ghost predicate FromCreate(creates: seq<Create>, r: Realized) {
    exists k | 0 <= k < |creates| :: creates[k] == Created(r.id)
  }

  /** Every request resumes its own session, and the stamps are distinct. */
  ghost predicate AllResume(a: Agent, requests: seq<Request>, resolves: seq<bool>, stamps: seq<nat>) {
    && |stamps| == |requests| == |resolves|
    && (forall k | 0 <= k < |requests| :: resolves[k] && requests[k].preferred.Some? && Resumable(a, requests[k].preferred.value, stamps[k]))
    && (forall k, m | 0 <= k < m < |requests| ::
          stamps[k] != stamps[m] && requests[k].preferred.value.id != requests[m].preferred.value.id)
  }

  ghost predicate Resumable(a: Agent, x: Info, n: nat) {
    x.id != "" && !x.failedCreate && !x.named && StampHolds(a, x, n)
  }

  ghost predicate ResumedOn(requests: seq<Request>, stamps: seq<nat>, realized: seq<Realized>)
    requires |stamps| == |requests| && forall k | 0 <= k < |requests| :: requests[k].preferred.Some?
  {
    |realized| == |requests| && forall k | 0 <= k < |requests| :: realized[k] == Realized(requests[k].preferred.value.id, stamps[k])
  }

  /** Session j is the first of the pool that a fresh first request can take. */
  ghost predicate FirstFresh(pool: seq<Info>, requests: seq<Request>, resolves: seq<bool>, j: int) {
    && 0 < |requests| == |resolves| && requests[0].preferred.None? && resolves[0]
    && 0 <= j < |pool| && Takes(pool[j]) && forall m | 0 <= m < j :: !Takes(pool[m])
  }

  ghost predicate Takes(x: Info) {
    x.reusable && !x.failedCreate && !x.named && x.hasSessionName
  }

  /** Fresh demand only, and every create yields a session that is new. */
  ghost predicate Unhindered(pool: seq<Info>, requests: seq<Request>, creates: seq<Create>, resolves: seq<bool>)
    requires |requests| == |creates| == |resolves|
  {
    && (forall k | 0 <= k < |requests| :: requests[k].preferred.None? && resolves[k] && creates[k].Created?)
    && (forall k, i | 0 <= k < |creates| && i in pool && creates[k].Created? :: creates[k].id != i.id)
    && (forall k, m | 0 <= k < m < |creates| :: creates[k] != creates[m])
  }

  lemma {:induction false} Increasing(from: seq<nat>, n: nat)
    requires forall r, q | 0 <= r < q < |from| :: from[r] < from[q]
    requires forall r | 0 <= r < |from| :: from[r] < n
    ensures |from| <= n
  {
    if from != [] {
      Increasing(from[..|from| - 1], from[|from| - 1]);
    }
  }

  /** Increasing positions that miss none are all positions in order. */
  lemma {:induction false} AllInOrder(from: seq<nat>, n: nat)
    requires forall r, q | 0 <= r < q < |from| :: from[r] < from[q]
    requires forall r | 0 <= r < |from| :: from[r] < n
    requires forall k: nat | k < n :: k in from
    ensures |from| == n && forall r | 0 <= r < n :: from[r] == r
  {
    if n == 0 {
      assert from == [];
    } else {
      var last: nat := n - 1;
      assert last in from;
      var r :| 0 <= r < |from| && from[r] == last;
      assert r == |from| - 1;
      var rest := from[..r];
      forall k: nat | k < last ensures k in rest {
        assert k in from;
        var q :| 0 <= q < |from| && from[q] == k;
        assert rest[q] == k;
      }
      AllInOrder(rest, last);
    }
  }

  lemma DistinctFrom(items: seq<Item>, creates: seq<Create>, realized: seq<Realized>, from: seq<nat>)
    requires RealizedFrom(items, creates, realized, from)
    requires forall k, m | 0 <= k < m < |items| && !items[k].Skip? && !items[m].Skip? :: items[k].slot != items[m].slot
    ensures |realized| <= |items|
    ensures forall r, q | 0 <= r < q < |realized| :: realized[r].slot != realized[q].slot
  {
    Increasing(from, |items|);
  }
}
