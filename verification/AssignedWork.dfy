/** Collecting assigned work across stores and its store-scoped readiness
    (collectAssignedWorkBeadsWithStores and the append helpers in
    cmd/gc/build_desired_state.go, the filters in
    cmd/gc/assigned_work_scope.go). */
module AssignedWork {
  import opened Prelude

  /** `recoverable`: unassigned in-progress pool work that can be reopened;
      `turn`: an assigned molecule root that is itself the work; `route`: the
      pool the bead is routed to, "" for none. */
  datatype Bead = Bead(
    id: string, status: string, assignee: string, session: bool, recoverable: bool, turn: bool, route: string)

  datatype ListError = NoError | PartialError | HardError

  datatype Listing = Listing(rows: seq<Bead>, err: ListError)

  /** A store with its ref and what its reads return: in-progress and open
      lists, the limited ready read, and the ready reads per assignee. */
  datatype Source = Source(
    ref: string, store: nat, inProgress: Listing, open: Listing,
    ready: seq<Bead>, readyFor: map<string, seq<Bead>>)

  /** A failed read is used only when it is partial and has rows. */
  function Used(l: Listing): seq<Bead> {
    if l.err == HardError then [] else l.rows
  }

  datatype Pass = InProgress | MoleculeTurn | OpenRouted | ReadyPass

  predicate Admits(p: Pass, b: Bead) {
    && !b.session
    && match p
       case InProgress => !Blank(b.assignee) || b.recoverable
       case MoleculeTurn => b.status == "open" && !Blank(b.assignee) && b.turn
       case OpenRouted => !Blank(b.assignee) && !Blank(b.route)
       case ReadyPass => !Blank(b.assignee)
  }

  /** Every pass but the open-routed one establishes readiness. */
  predicate Marks(p: Pass) {
    !p.OpenRouted?
  }

  ghost function Admitted(p: Pass, rows: seq<Bead>): set<string> {
    set b | b in rows && Admits(p, b) :: b.id
  }

  // ---- one store ---------------------------------------------------------------------

  class Scan {
    const store: nat
    const ref: string
    var beads: seq<Bead>
    var stores: seq<nat>
    var refs: seq<string>
    var readyIds: set<string>
    var seen: set<string>

    constructor (store: nat, ref: string)
      ensures this.store == store && this.ref == ref
      ensures beads == [] && stores == [] && refs == [] && readyIds == {} && seen == {}
    {
      this.store, this.ref := store, ref;
      beads, stores, refs, readyIds, seen := [], [], [], {}, {};
    }

    /** The three slices stay aligned and name this store; every bead is seen
        and only seen beads are ready. */
    ghost predicate Valid()
      reads this
    {
      && |beads| == |stores| == |refs|
      && (forall i | 0 <= i < |beads| :: stores[i] == store && refs[i] == ref)
      && seen == IdsOf(beads) && readyIds <= seen
    }

    method AppendWorkUnique(b: Bead) returns (added: bool)
      requires Valid()
      modifies this`beads, this`stores, this`refs, this`seen
      ensures Valid()
      ensures added <==> !b.session && b.id !in old(seen)
      ensures beads == if added then old(beads) + [b] else old(beads)
      ensures seen == if added then old(seen) + {b.id} else old(seen)
    {
      if b.session || b.id in seen {
        return false;
      }
      seen := seen + {b.id};
      beads, stores, refs := beads + [b], stores + [store], refs + [ref];
      return true;
    }

    method AppendOne(p: Pass, b: Bead)
      requires Valid()
      modifies this`beads, this`stores, this`refs, this`seen, this`readyIds
      ensures Valid()
      ensures var fresh_ := Admits(p, b) && b.id !in old(seen);
              && beads == old(beads) + (if fresh_ then [b] else [])
              && seen == old(seen) + (if fresh_ then {b.id} else {})
              && readyIds == old(readyIds) + (if fresh_ && Marks(p) then {b.id} else {})
    {
      if !Admits(p, b) {
        return;
      }
      var added := AppendWorkUnique(b);
      if added && Marks(p) {
        readyIds := readyIds + {b.id};
      }
    }

    /** One pass over a list of rows. */
    method Append(p: Pass, rows: seq<Bead>)
      requires Valid()
      modifies this`beads, this`stores, this`refs, this`seen, this`readyIds
      ensures Valid() && old(beads) <= beads
      ensures seen == old(seen) + Admitted(p, rows)
      ensures readyIds == old(readyIds) + if Marks(p) then Admitted(p, rows) - old(seen) else {}
      ensures forall i | |old(beads)| <= i < |beads| :: beads[i] in rows && Admits(p, beads[i])
    {
      ghost var done: set<string> := {};
      for i := 0 to |rows|
        invariant Valid() && old(beads) <= beads && done == Admitted(p, rows[..i])
        invariant seen == old(seen) + done
        invariant readyIds == old(readyIds) + if Marks(p) then done - old(seen) else {}
        invariant forall k | |old(beads)| <= k < |beads| :: beads[k] in rows && Admits(p, beads[k])
      {
        var b := rows[i];
        assert rows[..i + 1] == rows[..i] + [b];
        AdmittedSnoc(p, rows[..i], b);
        AppendOne(p, b);
        done := done + if Admits(p, b) then {b.id} else {};
      }
      assert rows[..|rows|] == rows;
    }
  }

  ghost function IdsOf(beads: seq<Bead>): set<string> {
    set b | b in beads :: b.id
  }

  lemma AdmittedSnoc(p: Pass, rows: seq<Bead>, b: Bead)
    ensures Admitted(p, rows + [b]) == Admitted(p, rows) + if Admits(p, b) then {b.id} else {}
  {
  }

  /** The ids a store's first round marks ready. */
  ghost function ReadyFirst(s: Source): set<string> {
    Admitted(InProgress, Used(s.inProgress)) + Admitted(MoleculeTurn, Used(s.open))
  }

  /** Every id of the first round, ready or not. */
  ghost function SeenFirst(s: Source): set<string> {
    ReadyFirst(s) + Admitted(OpenRouted, Used(s.open))
  }

  /** A row some pass admits from what the store's reads return. */
  predicate Origin(s: Source, b: Bead) {
    || (b in Used(s.inProgress) && Admits(InProgress, b))
    || (b in Used(s.open) && (Admits(MoleculeTurn, b) || Admits(OpenRouted, b)))
    || (Admits(ReadyPass, b) && (b in s.ready || exists a | a in s.readyFor :: b in s.readyFor[a]))
  }

  /** The result of a scan of one store. */
  datatype Scanned = Scanned(beads: seq<Bead>, stores: seq<nat>, refs: seq<string>, ready: set<string>)

  /** Aligned rows of this store, each from one of its reads. */
  ghost predicate ScanOf(x: Scanned, s: Source) {
    && |x.beads| == |x.stores| == |x.refs|
    && forall i | 0 <= i < |x.beads| :: x.stores[i] == s.store && x.refs[i] == s.ref && Origin(s, x.beads[i])
  }

  /** In-progress work, molecule turns, then orphaned routed work. */
  method ScanAssigned(s: Source) returns (x: Scanned)
    ensures ScanOf(x, s) && x.ready == ReadyFirst(s) && IdsOf(x.beads) == SeenFirst(s)
  {
    var scan := new Scan(s.store, s.ref);
    scan.Append(InProgress, Used(s.inProgress));
    scan.Append(MoleculeTurn, Used(s.open));
    scan.Append(OpenRouted, Used(s.open));
    x := Scanned(scan.beads, scan.stores, scan.refs, scan.readyIds);
  }

  /** The rows of the second round: the limited ready read, or one read per
      assignee. */
  function ReadyRows(s: Source, assignees: seq<string>): seq<Bead> {
    if assignees == [] then s.ready else ForEach(s, assignees)
  }

  function ForEach(s: Source, assignees: seq<string>): seq<Bead> {
    if assignees == [] then []
    else
      var a := assignees[|assignees| - 1];
      ForEach(s, assignees[..|assignees| - 1]) + if a in s.readyFor then s.readyFor[a] else []
  }

  lemma {:induction false} ForEachOrigin(s: Source, assignees: seq<string>, b: Bead)
    requires b in ForEach(s, assignees)
    ensures exists a | a in s.readyFor :: b in s.readyFor[a]
  {
    var a := assignees[|assignees| - 1];
    if !(a in s.readyFor && b in s.readyFor[a]) {
      ForEachOrigin(s, assignees[..|assignees| - 1], b);
    }
  }

  method ScanReady(s: Source, assignees: seq<string>) returns (x: Scanned)
    ensures ScanOf(x, s) && x.ready == IdsOf(x.beads) == Admitted(ReadyPass, ReadyRows(s, assignees))
  {
    var rows := s.ready;
    if assignees != [] {
      rows := [];
      for i := 0 to |assignees|
        invariant rows == ForEach(s, assignees[..i])
      {
        assert assignees[..i + 1][..i] == assignees[..i];
        rows := rows + if assignees[i] in s.readyFor then s.readyFor[assignees[i]] else [];
      }
      assert assignees[..|assignees|] == assignees;
    }
    var scan := new Scan(s.store, s.ref);
    scan.Append(ReadyPass, rows);
    x := Scanned(scan.beads, scan.stores, scan.refs, scan.readyIds);
    forall i | 0 <= i < |scan.beads| ensures Origin(s, scan.beads[i]) {
      if assignees != [] {
        ForEachOrigin(s, assignees, scan.beads[i]);
      }
    }
  }

  // ---- all stores -----------------------------------------------------------------------

  /** The collected work: aligned beads, stores and refs, and the readiness
      verdicts keyed by store ref and bead id. */
  datatype Collected = Collected(beads: seq<Bead>, stores: seq<nat>, refs: seq<string>, ready: set<(string, string)>)

  /** Aligned: every row carries the store and ref of the source it came from. */
  ghost predicate Aligned(c: Collected, sources: seq<Source>) {
    && |c.beads| == |c.stores| == |c.refs|
    && forall i | 0 <= i < |c.beads| :: CameFrom(sources, c.beads[i], c.stores[i], c.refs[i])
  }

  ghost predicate CameFrom(sources: seq<Source>, b: Bead, store: nat, ref: string) {
    exists s | s in sources :: s.store == store && s.ref == ref && Origin(s, b)
  }

  /** What adding one scan does: the rows grow, its ids are ready, all it saw is held. */
  ghost predicate Added(c: Collected, c': Collected, ref: string, ready: set<string>, seen: set<string>) {
    && (forall r, id :: (r, id) in c'.ready <==> (r, id) in c.ready || (r == ref && id in ready))
    && HoldsAll(c', ref, seen)
    && (forall r, id | Holds(c, r, id) :: Holds(c', r, id))
  }

  method AddScan(c: Collected, x: Scanned, sources: seq<Source>, s: Source) returns (c': Collected)
    requires Aligned(c, sources) && s in sources && ScanOf(x, s)
    ensures Aligned(c', sources) && Added(c, c', s.ref, x.ready, IdsOf(x.beads))
  {
    c' := Collected(c.beads + x.beads, c.stores + x.stores, c.refs + x.refs, c.ready + set id | id in x.ready :: (s.ref, id));
    AddedRows(c, x, sources, s, c');
    AddedIds(c, x, s, c');
  }

  lemma AddedRows(c: Collected, x: Scanned, sources: seq<Source>, s: Source, c': Collected)
    requires Aligned(c, sources) && s in sources && ScanOf(x, s)
    requires c'.beads == c.beads + x.beads && c'.stores == c.stores + x.stores && c'.refs == c.refs + x.refs
    ensures Aligned(c', sources)
  {
  }

  lemma AddedIds(c: Collected, x: Scanned, s: Source, c': Collected)
    requires |c.beads| == |c.refs| && ScanOf(x, s)
    requires c'.beads == c.beads + x.beads && c'.refs == c.refs + x.refs
    ensures HoldsAll(c', s.ref, IdsOf(x.beads)) && forall r, id | Holds(c, r, id) :: Holds(c', r, id)
  {
    forall id | id in IdsOf(x.beads) ensures Holds(c', s.ref, id) {
      var i :| 0 <= i < |x.beads| && x.beads[i].id == id;
      assert c'.beads[|c.beads| + i].id == id && c'.refs[|c.beads| + i] == s.ref;
    }
    forall r, id | Holds(c, r, id) ensures Holds(c', r, id) {
      var i :| 0 <= i < |c.beads| && i < |c.refs| && c.refs[i] == r && c.beads[i].id == id;
      assert c'.beads[i].id == id && c'.refs[i] == r;
    }
  }

  /** The bead was collected from that store. */
  ghost predicate Holds(c: Collected, ref: string, id: string) {
    exists i | 0 <= i < |c.beads| && i < |c.refs| :: c.refs[i] == ref && c.beads[i].id == id
  }

  ghost predicate HoldsAll(c: Collected, ref: string, ids: set<string>) {
    forall id | id in ids :: Holds(c, ref, id)
  }

  ghost predicate ReadyIn(sources: seq<Source>, ref: string, id: string) {
    exists s | s in sources :: s.ref == ref && id in ReadyFirst(s)
  }

  ghost predicate SeenIn(sources: seq<Source>, ref: string, id: string) {
    exists s | s in sources :: s.ref == ref && id in SeenFirst(s)
  }

  ghost predicate ProbedReady(sources: seq<Source>, assignees: seq<string>, ref: string, id: string) {
    exists s | s in sources :: s.ref == ref && id in Admitted(ReadyPass, ReadyRows(s, assignees))
  }

  /** What the first round over these sources collects. */
  ghost predicate FirstRound(c: Collected, sources: seq<Source>) {
    && (forall r, id :: (r, id) in c.ready <==> ReadyIn(sources, r, id))
    && (forall r, id | SeenIn(sources, r, id) :: Holds(c, r, id))
  }

  lemma FirstStep(c: Collected, x: Scanned, c': Collected, sources: seq<Source>, i: nat)
    requires i < |sources| && FirstRound(c, sources[..i]) && Added(c, c', sources[i].ref, x.ready, IdsOf(x.beads))
    requires x.ready == ReadyFirst(sources[i]) && IdsOf(x.beads) == SeenFirst(sources[i])
    ensures FirstRound(c', sources[..i + 1])
  {
    forall r, id
      ensures (r, id) in c'.ready <==> ReadyIn(sources[..i + 1], r, id)
      ensures SeenIn(sources[..i + 1], r, id) ==> Holds(c', r, id)
    {
      ReadyInSnoc(sources, i, r, id);
      SeenInSnoc(sources, i, r, id);
    }
  }

  lemma ReadyInSnoc(sources: seq<Source>, i: nat, r: string, id: string)
    requires i < |sources|
    ensures ReadyIn(sources[..i + 1], r, id) <==> ReadyIn(sources[..i], r, id) || (sources[i].ref == r && id in ReadyFirst(sources[i]))
  {
    var before, after := sources[..i], sources[..i + 1];
    assert after[i] == sources[i] && after[..i] == before;
    if ReadyIn(before, r, id) {
      var s :| s in before && s.ref == r && id in ReadyFirst(s);
      assert s in after;
    }
  }

  lemma SeenInSnoc(sources: seq<Source>, i: nat, r: string, id: string)
    requires i < |sources|
    ensures SeenIn(sources[..i + 1], r, id) <==> SeenIn(sources[..i], r, id) || (sources[i].ref == r && id in SeenFirst(sources[i]))
  {
    var before, after := sources[..i], sources[..i + 1];
    assert after[i] == sources[i] && after[..i] == before;
    if SeenIn(before, r, id) {
      var s :| s in before && s.ref == r && id in SeenFirst(s);
      assert s in after;
    }
  }

  /** First round: a key is ready exactly when the in-progress or the molecule
      pass admitted it from that store, and every admitted row is collected. */
  method CollectFirst(sources: seq<Source>) returns (c: Collected)
    ensures Aligned(c, sources) && FirstRound(c, sources)
  {
    c := Collected([], [], [], {});
    for i := 0 to |sources|
      invariant Aligned(c, sources) && FirstRound(c, sources[..i])
    {
      c := CollectOne(c, sources, i);
    }
    assert sources[..|sources|] == sources;
  }

  method CollectOne(before: Collected, sources: seq<Source>, i: nat) returns (c: Collected)
    requires i < |sources| && Aligned(before, sources) && FirstRound(before, sources[..i])
    ensures Aligned(c, sources) && FirstRound(c, sources[..i + 1])
  {
    var x := ScanAssigned(sources[i]);
    c := AddScan(before, x, sources, sources[i]);
    FirstStep(before, x, c, sources, i);
  }

  /** What the second round adds to the first. */
  ghost predicate SecondRound(first: Collected, c: Collected, sources: seq<Source>, assignees: seq<string>) {
    && (forall r, id :: (r, id) in c.ready <==> (r, id) in first.ready || ProbedReady(sources, assignees, r, id))
    && (forall r, id | Holds(first, r, id) || ProbedReady(sources, assignees, r, id) :: Holds(c, r, id))
  }

  lemma SecondStep(first: Collected, c: Collected, x: Scanned, c': Collected, sources: seq<Source>, s: Source, all: seq<Source>, assignees: seq<string>)
    requires SecondRound(first, c, sources, assignees) && all == sources + [s]
    requires Added(c, c', s.ref, x.ready, IdsOf(x.beads))
    requires x.ready == IdsOf(x.beads) == Admitted(ReadyPass, ReadyRows(s, assignees))
    ensures SecondRound(first, c', all, assignees)
  {
  }

  /** Second round: adds exactly the keys the ready probe admits. */
  method CollectReady(first: Collected, sources: seq<Source>, assignees: seq<string>) returns (c: Collected)
    requires Aligned(first, sources)
    ensures Aligned(c, sources) && SecondRound(first, c, sources, assignees)
  {
    c := first;
    for i := 0 to |sources|
      invariant Aligned(c, sources) && SecondRound(first, c, sources[..i], assignees)
    {
      var x := ScanReady(sources[i], assignees);
      ghost var before := c;
      c := AddScan(c, x, sources, sources[i]);
      SecondStep(first, before, x, c, sources[..i], sources[i], sources[..i + 1], assignees);
    }
    assert sources[..|sources|] == sources;
  }

  // ---- which assignees the ready probe skips ---------------------------------------------

  predicate Captured(c: Collected, i: nat)
    requires i < |c.beads| == |c.refs|
  {
    var b := c.beads[i];
    !Blank(b.assignee) && (b.status == "open" || b.status == "in_progress") && (c.refs[i], b.id) in c.ready
  }

  /** The assignees that already have a ready bead in its own store. */
  ghost function CapturedAssignees(c: Collected): set<string>
    requires |c.beads| == |c.refs|
  {
    set i | 0 <= i < |c.beads| && Captured(c, i) :: Trim(c.beads[i].assignee)
  }

  method ReadyCapturedAssignees(c: Collected) returns (skip: set<string>)
    requires |c.beads| == |c.refs|
    ensures skip == CapturedAssignees(c)
  {
    skip := {};
    for i := 0 to |c.beads|
      invariant skip == set k | 0 <= k < i && Captured(c, k) :: Trim(c.beads[k].assignee)
    {
      if Captured(c, i) {
        skip := skip + {Trim(c.beads[i].assignee)};
      }
    }
  }

  predicate Touches(ids: seq<string>, skip: set<string>) {
    exists i | 0 <= i < |ids| :: ids[i] in skip
  }

  function SetOf(ids: seq<string>): set<string> {
    set id | id in ids
  }

  /** One pass over the sessions' identity lists, in order. */
  function Expand(skip: set<string>, sessions: seq<seq<string>>): set<string> {
    if sessions == [] then skip
    else
      var before, ids := Expand(skip, sessions[..|sessions| - 1]), sessions[|sessions| - 1];
      if Touches(ids, before) then before + SetOf(ids) else before
  }

  method ExpandSkipAssignees(skip: set<string>, sessions: seq<seq<string>>) returns (out: set<string>)
    ensures out == Expand(skip, sessions)
  {
    out := skip;
    for i := 0 to |sessions|
      invariant out == Expand(skip, sessions[..i])
    {
      assert sessions[..i + 1][..i] == sessions[..i];
      if Touches(sessions[i], out) {
        out := out + SetOf(sessions[i]);
      }
    }
    assert sessions[..|sessions|] == sessions;
  }

  /** Ready work for the assignee itself, or for an identity that one session
      shares with it. */
  ghost predicate SharesWithReady(captured: set<string>, sessions: seq<seq<string>>, a: string) {
    a in captured || exists ids | ids in sessions :: a in ids && Touches(ids, captured)
  }

  /** No session without ready work overlaps one that has it, unless all its
      identities are shared with sessions that have it. */
  ghost predicate NoIndirectOverlap(captured: set<string>, sessions: seq<seq<string>>) {
    forall s, t | s in sessions && t in sessions && !Touches(s, captured) && Touches(t, captured) && Touches(s, SetOf(t)) ::
      forall a | a in s :: SharesWithReady(captured, sessions, a)
  }

  lemma {:induction false} ExpandIsDirect(captured: set<string>, sessions: seq<seq<string>>, order: seq<seq<string>>, a: string)
    requires NoIndirectOverlap(captured, sessions) && (forall s | s in order :: s in sessions) && a in Expand(captured, order)
    ensures SharesWithReady(captured, sessions, a)
  {
    if order != [] {
      var rest, ids := order[..|order| - 1], order[|order| - 1];
      assert order == rest + [ids];
      if a in Expand(captured, rest) {
        ExpandIsDirect(captured, sessions, rest, a);
      } else if !Touches(ids, captured) {
        var i :| 0 <= i < |ids| && ids[i] in Expand(captured, rest);
        ExpandIsDirect(captured, sessions, rest, ids[i]);
        assert ids[i] !in captured;
        var t :| t in sessions && ids[i] in t && Touches(t, captured);
        assert Touches(ids, SetOf(t));
      }
    }
  }

  lemma {:induction false} ExpandGrows(captured: set<string>, a: seq<seq<string>>, b: seq<seq<string>>)
    ensures Expand(captured, a) <= Expand(captured, a + b)
  {
    if b == [] {
      assert a + b == a;
    } else {
      var all := a + b;
      assert all[..|all| - 1] == a + b[..|b| - 1];
      ExpandGrows(captured, a, b[..|b| - 1]);
    }
  }

  /** Two sessions can be brought to the front of the order. */
  lemma FrontOrder(sessions: seq<seq<string>>, s: seq<string>, t: seq<string>) returns (rest: seq<seq<string>>)
    requires s in sessions && t in sessions && s != t
    ensures multiset([t, s] + rest) == multiset(sessions)
  {
    var without := TakeOut(sessions, t);
    assert s in multiset(sessions);
    assert s in multiset(without);
    rest := TakeOut(without, s);
    assert multiset([t, s] + rest) == multiset{t} + (multiset{s} + multiset(rest));
  }

  lemma TakeOut(sessions: seq<seq<string>>, s: seq<string>) returns (rest: seq<seq<string>>)
    requires s in sessions
    ensures multiset(sessions) == multiset{s} + multiset(rest)
  {
    var j :| 0 <= j < |sessions| && sessions[j] == s;
    rest := sessions[..j] + sessions[j + 1..];
    assert sessions == sessions[..j] + [s] + sessions[j + 1..];
  }

  /** A skipped assignee shares an identity list with ready work, whatever the
      order of the sessions, exactly when no session overlaps such a list
      without having ready work itself. */
  lemma SkipIsDirectExactlyWhen(captured: set<string>, sessions: seq<seq<string>>)
    ensures (forall order, a | multiset(order) == multiset(sessions) && a in Expand(captured, order) ::
               SharesWithReady(captured, sessions, a)) <==> NoIndirectOverlap(captured, sessions)
  {
    if NoIndirectOverlap(captured, sessions) {
      forall order, a | multiset(order) == multiset(sessions) && a in Expand(captured, order)
        ensures SharesWithReady(captured, sessions, a)
      {
        forall s | s in order ensures s in sessions {
          assert s in multiset(order);
        }
        ExpandIsDirect(captured, sessions, order, a);
      }
    } else {
      var s, t :| s in sessions && t in sessions && !Touches(s, captured) && Touches(t, captured) && Touches(s, SetOf(t))
                  && !(forall a | a in s :: SharesWithReady(captured, sessions, a));
      var a :| a in s && !SharesWithReady(captured, sessions, a);
      var rest := FrontOrder(sessions, s, t);
      var order := [t, s] + rest;
      ExpandPair(captured, t, s);
      ExpandGrows(captured, [t, s], rest);
      assert a in Expand(captured, order);
    }
  }

  /** With ready work for "a", a session known as a and b, and one known as b and
      c: in this order "c" is skipped although no session of it has ready work. */
  lemma IndirectSkip()
    ensures var sessions := [["a", "b"], ["b", "c"]];
            "c" in Expand({"a"}, sessions) && !SharesWithReady({"a"}, sessions, "c") && !NoIndirectOverlap({"a"}, sessions)
  {
    var s, t := ["b", "c"], ["a", "b"];
    var sessions := [t, s];
    assert t[0] == "a" && s[0] == "b" && s[1] == "c" && t[1] == "b";
    assert "a" != "b" && "b" != "c" && "a" != "c";
    assert Touches(t, {"a"}) && !Touches(s, {"a"});
    assert s[0] in SetOf(t) && "c" in SetOf(s);
    ExpandPair({"a"}, t, s);
    assert s in sessions && t in sessions && "c" in s && "c" !in t;
    assert !SharesWithReady({"a"}, sessions, "c");
  }

  lemma ExpandPair(captured: set<string>, t: seq<string>, s: seq<string>)
    requires Touches(t, captured) && Touches(s, SetOf(t))
    ensures SetOf(s) <= Expand(captured, [t, s])
  {
    assert [t, s][..1] == [t] && [t][..0] == [];
    assert Expand(captured, [t]) == captured + SetOf(t);
    var i :| 0 <= i < |s| && s[i] in SetOf(t);
    assert Touches(s, Expand(captured, [t]));
  }

  ghost function Trimmed(ids: seq<string>): set<string> {
    set id | id in ids :: Trim(id)
  }

  ghost function Identities(sessions: seq<seq<string>>, named: seq<string>): set<string> {
    AllTrimmed(sessions) + Trimmed(named)
  }

  ghost function AllTrimmed(sessions: seq<seq<string>>): set<string> {
    if sessions == [] then {} else AllTrimmed(sessions[..|sessions| - 1]) + Trimmed(sessions[|sessions| - 1])
  }

  /** The identities left to probe: all but the blank and the skipped, trimmed
      and without repeats. */
  method AssigneesToProbe(sessions: seq<seq<string>>, named: seq<string>, skip: set<string>) returns (out: seq<string>)
    ensures Distinct(out) && SetOf(out) == Identities(sessions, named) - skip - {""}
  {
    out := [];
    for i := 0 to |sessions|
      invariant Distinct(out) && SetOf(out) == AllTrimmed(sessions[..i]) - skip - {""}
    {
      assert sessions[..i + 1][..i] == sessions[..i];
      out := AddAll(sessions[i], skip, out);
    }
    assert sessions[..|sessions|] == sessions;
    out := AddAll(named, skip, out);
  }

  method AddAll(ids: seq<string>, skip: set<string>, before: seq<string>) returns (out: seq<string>)
    requires Distinct(before)
    ensures Distinct(out) && SetOf(out) == SetOf(before) + (Trimmed(ids) - skip - {""})
  {
    out := before;
    for i := 0 to |ids|
      invariant Distinct(out) && SetOf(out) == SetOf(before) + (Trimmed(ids[..i]) - skip - {""})
    {
      assert ids[..i + 1] == ids[..i] + [ids[i]];
      TrimmedSnoc(ids[..i], ids[i]);
      var v := Trim(ids[i]);
      if v == "" || v in skip || v in out {
        assert v in out ==> v in SetOf(out);
        continue;
      }
      SetOfSnoc(out, v);
      out := out + [v];
    }
    assert ids[..|ids|] == ids;
  }

  lemma TrimmedSnoc(ids: seq<string>, id: string)
    ensures Trimmed(ids + [id]) == Trimmed(ids) + {Trim(id)}
  {
  }

  lemma SetOfSnoc(ids: seq<string>, id: string)
    ensures SetOf(ids + [id]) == SetOf(ids) + {id}
  {
  }

  /** The whole collection. `probed` is whether the ready probe ran: it does not
      when every assignee is known to have ready work. A key is ready exactly
      when a readiness pass admitted it from that very store. */
  method CollectAssignedWork(sources: seq<Source>, sessions: seq<seq<string>>, named: seq<string>)
    returns (c: Collected, assignees: seq<string>, probed: bool, ghost first: Collected)
    ensures Aligned(c, sources) && Aligned(first, sources) && FirstRound(first, sources)
    ensures forall r, id :: (r, id) in c.ready <==>
              ReadyIn(sources, r, id) || (probed && ProbedReady(sources, assignees, r, id))
    ensures forall r, id | SeenIn(sources, r, id) :: Holds(c, r, id)
    ensures probed ==> forall r, id | ProbedReady(sources, assignees, r, id) :: Holds(c, r, id)
    ensures var skip := Expand(CapturedAssignees(first), sessions);
            && SetOf(assignees) == Identities(sessions, named) - skip - {""}
            && (probed <==> skip == {} || assignees != [])
  {
    c := CollectFirst(sources);
    first := c;
    var skip := ReadyCapturedAssignees(c);
    skip := ExpandSkipAssignees(skip, sessions);
    assignees := AssigneesToProbe(sessions, named, skip);
    probed := !(skip != {} && assignees == []);
    if probed {
      c := CollectReady(c, sources, assignees);
    }
  }
}
