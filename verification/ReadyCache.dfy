/** The per-pass cache of ready reads (readyDemandCache in
    cmd/gc/build_desired_state.go), proved to answer every read as the
    uncached functions do while reading each store at most once per tier. */
module ReadyCache {
  import opened Prelude

  datatype Bead = Bead(id: string, assignee: string, route: string)

  datatype Error =
    | CacheUnavailable
    | PartialResult(op: string)
    | Failure(message: string)
    | Joined(first: Error, second: Error)
    | PartialOf(op: string, cause: Error)

  /** beads.IsPartialResult: a partial result anywhere in the chain. */
  predicate IsPartial(e: Error) {
    match e
    case PartialResult(_) => true
    case PartialOf(_, _) => true
    case Joined(a, b) => IsPartial(a) || IsPartial(b)
    case _ => false
  }

  predicate IsUnavailable(e: Error) {
    match e
    case CacheUnavailable => true
    case Joined(a, b) => IsUnavailable(a) || IsUnavailable(b)
    case PartialOf(_, cause) => IsUnavailable(cause)
    case _ => false
  }

  datatype Reply = Reply(rows: seq<Bead>, err: Option<Error>)

  /** The answer a tier gives to the unfiltered ready query, in its order. */
  datatype Store = Store(live: Reply, cached: Reply, explicitHandles: bool)

  /** An empty assignee and a limit of zero or less select everything. */
  datatype Query = Query(assignee: string, limit: int)

  // ---- the selection a store applies --------------------------------------------

  function ByAssignee(rows: seq<Bead>, assignee: string): seq<Bead> {
    if rows == [] then []
    else
      var last := rows[|rows| - 1];
      ByAssignee(rows[..|rows| - 1], assignee) + if assignee == "" || last.assignee == assignee then [last] else []
  }

  /** Filter by assignee, then keep the first `limit`. */
  function Select(rows: seq<Bead>, q: Query): seq<Bead> {
    var matching := ByAssignee(rows, q.assignee);
    if q.limit > 0 && q.limit < |matching| then matching[..q.limit] else matching
  }

  lemma {:induction false} ByAssigneeAll(rows: seq<Bead>)
    ensures ByAssignee(rows, "") == rows
  {
    if rows != [] {
      ByAssigneeAll(rows[..|rows| - 1]);
      assert rows == rows[..|rows| - 1] + [rows[|rows| - 1]];
    }
  }

  lemma {:induction false} ByAssigneePrefix(rows: seq<Bead>, assignee: string, k: nat)
    requires k <= |rows|
    ensures ByAssignee(rows[..k], assignee) <= ByAssignee(rows, assignee)
    decreases |rows| - k
  {
    if k < |rows| {
      var next := rows[..k + 1];
      assert next[..k] == rows[..k];
      ByAssigneePrefix(rows, assignee, k + 1);
    } else {
      assert rows[..k] == rows;
    }
  }

  // What a selection is, row by row.

  predicate Wanted(b: Bead, assignee: string) {
    assignee == "" || b.assignee == assignee
  }

  ghost function Matches(rows: seq<Bead>, assignee: string): set<nat> {
    set i: nat | i < |rows| && Wanted(rows[i], assignee)
  }

  predicate Increasing(at: seq<nat>) {
    forall k, m | 0 <= k < m < |at| :: at[k] < at[m]
  }

  /** `out` is the rows at the positions `at`, which match and increase. */
  ghost predicate RowsAt(rows: seq<Bead>, assignee: string, out: seq<Bead>, at: seq<nat>) {
    && |at| == |out| && Increasing(at)
    && forall k | 0 <= k < |at| :: at[k] < |rows| && out[k] == rows[at[k]] && Wanted(rows[at[k]], assignee)
  }

  /** The first `limit` matching rows in their order, all of them without a
      positive limit. */
  ghost predicate Selects(rows: seq<Bead>, q: Query, out: seq<Bead>) {
    var all := Matches(rows, q.assignee);
    && |out| == (if 0 < q.limit < |all| then q.limit else |all|)
    && exists at :: RowsAt(rows, q.assignee, out, at) && NoneSkipped(rows, q.assignee, at)
  }

  /** Every matching row up to the last position is among the positions. */
  ghost predicate NoneSkipped(rows: seq<Bead>, assignee: string, at: seq<nat>) {
    forall i, k | 0 <= k < |at| && 0 <= i <= at[k] && i < |rows| && Wanted(rows[i], assignee) :: i in at
  }

  /** `at` lists the positions of a set, each once. */
  ghost predicate Lists(at: seq<nat>, positions: set<nat>) {
    |at| == |positions| && forall i :: i in at <==> i in positions
  }

  lemma MatchSnoc(rows: seq<Bead>, assignee: string)
    requires rows != []
    ensures var n := |rows| - 1;
            Matches(rows, assignee) == Matches(rows[..n], assignee) + if Wanted(rows[n], assignee) then {n} else {}
  {
  }

  lemma ListsSnoc(at: seq<nat>, positions: set<nat>, n: nat)
    requires Lists(at, positions) && n !in positions
    ensures Lists(at + [n], positions + {n})
  {
  }

  lemma RowsAtSnoc(rows: seq<Bead>, assignee: string, out: seq<Bead>, at: seq<nat>)
    requires rows != [] && RowsAt(rows[..|rows| - 1], assignee, out, at)
    ensures RowsAt(rows, assignee, out, at)
    ensures Wanted(rows[|rows| - 1], assignee) ==> RowsAt(rows, assignee, out + [rows[|rows| - 1]], at + [|rows| - 1])
  {
  }

  /** `out` is all matching rows, at the positions `at`. */
  ghost predicate Enumerates(rows: seq<Bead>, assignee: string, out: seq<Bead>, at: seq<nat>) {
    RowsAt(rows, assignee, out, at) && Lists(at, Matches(rows, assignee))
  }

  lemma EnumeratesSnoc(rows: seq<Bead>, assignee: string, out: seq<Bead>, at: seq<nat>)
    requires rows != [] && Enumerates(rows[..|rows| - 1], assignee, out, at)
    ensures var last := rows[|rows| - 1];
            if Wanted(last, assignee) then Enumerates(rows, assignee, out + [last], at + [|rows| - 1]) else Enumerates(rows, assignee, out, at)
  {
    MatchSnoc(rows, assignee);
    RowsAtSnoc(rows, assignee, out, at);
    if Wanted(rows[|rows| - 1], assignee) {
      ListsSnoc(at, Matches(rows[..|rows| - 1], assignee), |rows| - 1);
    }
  }

  lemma {:induction false} MatchingRows(rows: seq<Bead>, assignee: string) returns (at: seq<nat>)
    ensures Enumerates(rows, assignee, ByAssignee(rows, assignee), at)
  {
    if rows == [] {
      at := [];
      assert Matches(rows, assignee) == {};
    } else {
      var rest, last := rows[..|rows| - 1], rows[|rows| - 1];
      var before := MatchingRows(rest, assignee);
      var out := ByAssignee(rest, assignee);
      EnumeratesSnoc(rows, assignee, out, before);
      at := if Wanted(last, assignee) then before + [|rows| - 1] else before;
      assert ByAssignee(rows, assignee) == if Wanted(last, assignee) then out + [last] else out;
    }
  }

  lemma FirstRows(rows: seq<Bead>, assignee: string, out: seq<Bead>, at: seq<nat>, m: nat)
    requires Enumerates(rows, assignee, out, at) && m <= |at|
    ensures RowsAt(rows, assignee, out[..m], at[..m]) && NoneSkipped(rows, assignee, at[..m])
  {
    forall i, k | 0 <= k < m && 0 <= i <= at[k] && i < |rows| && Wanted(rows[i], assignee) ensures i in at[..m] {
      assert i in Matches(rows, assignee);
      var j :| 0 <= j < |at| && at[j] == i;
      assert j <= k;
      assert at[..m][j] == i;
    }
  }

  lemma SelectSelects(rows: seq<Bead>, q: Query)
    ensures Selects(rows, q, Select(rows, q))
  {
    var all := ByAssignee(rows, q.assignee);
    var at := MatchingRows(rows, q.assignee);
    var m := if 0 < q.limit < |all| then q.limit else |all|;
    FirstRows(rows, q.assignee, all, at, m);
    assert all[..m] == Select(rows, q);
  }

  /** filterReadySnapshot: one scan that stops at the limit. */
  method FilterReadySnapshot(rows: seq<Bead>, q: Query) returns (out: seq<Bead>)
    ensures out == Select(rows, q) && Selects(rows, q, out)
  {
    SelectSelects(rows, q);
    if q.assignee == "" && q.limit <= 0 {
      ByAssigneeAll(rows);
      return rows;
    }
    out := [];
    for i := 0 to |rows|
      invariant out == ByAssignee(rows[..i], q.assignee)
      invariant q.limit > 0 ==> |out| < q.limit
    {
      assert rows[..i + 1][..i] == rows[..i];
      if q.assignee != "" && rows[i].assignee != q.assignee {
        continue;
      }
      out := out + [rows[i]];
      if q.limit > 0 && |out| >= q.limit {
        ByAssigneePrefix(rows, q.assignee, i + 1);
        return out;
      }
    }
    assert rows[..|rows|] == rows;
  }

  // ---- merging the tiers ----------------------------------------------------------

  function Named(rows: seq<Bead>): seq<Bead> {
    if rows == [] then []
    else Named(rows[..|rows| - 1]) + if rows[|rows| - 1].id != "" then [rows[|rows| - 1]] else []
  }

  function Ids(rows: seq<Bead>): set<string> {
    set b | b in rows :: b.id
  }

  /** The named rows whose id is neither seen nor earlier in the list. */
  function NewRows(rows: seq<Bead>, seen: set<string>): seq<Bead> {
    if rows == [] then []
    else
      var rest, last := rows[..|rows| - 1], rows[|rows| - 1];
      NewRows(rest, seen) + if last.id == "" || last.id in seen || last.id in Ids(NewRows(rest, seen)) then [] else [last]
  }

  /** Live rows first, then the cached rows they do not cover. */
  function Merge(primary: seq<Bead>, secondary: seq<Bead>): seq<Bead> {
    if primary == [] then secondary
    else if secondary == [] then primary
    else Named(secondary) + NewRows(primary, Ids(Named(secondary)))
  }

  method MergeReadyRowsById(primary: seq<Bead>, secondary: seq<Bead>) returns (out: seq<Bead>)
    ensures out == Merge(primary, secondary)
  {
    if primary == [] {
      return secondary;
    }
    if secondary == [] {
      return primary;
    }
    var head, seen := NamedRows(secondary);
    out := AppendNew(head, primary, seen);
  }

  lemma IdsSnoc(rows: seq<Bead>, b: Bead)
    ensures Ids(rows + [b]) == Ids(rows) + {b.id}
  {
  }

  method NamedRows(rows: seq<Bead>) returns (out: seq<Bead>, seen: set<string>)
    ensures out == Named(rows) && seen == Ids(out)
  {
    out, seen := [], {};
    for i := 0 to |rows|
      invariant out == Named(rows[..i]) && seen == Ids(out)
    {
      assert rows[..i + 1][..i] == rows[..i];
      if rows[i].id == "" {
        continue;
      }
      IdsSnoc(out, rows[i]);
      seen := seen + {rows[i].id};
      out := out + [rows[i]];
    }
    assert rows[..|rows|] == rows;
  }

  method AppendNew(head: seq<Bead>, rows: seq<Bead>, known: set<string>) returns (out: seq<Bead>)
    requires known == Ids(head)
    ensures out == head + NewRows(rows, Ids(head))
  {
    out := head;
    var seen := known;
    ghost var new_: seq<Bead> := [];
    for i := 0 to |rows|
      invariant new_ == NewRows(rows[..i], known) && out == head + new_
      invariant seen == known + Ids(new_)
    {
      assert rows[..i + 1][..i] == rows[..i];
      if rows[i].id == "" || rows[i].id in seen {
        continue;
      }
      IdsSnoc(new_, rows[i]);
      seen := seen + {rows[i].id};
      out := out + [rows[i]];
      new_ := new_ + [rows[i]];
    }
    assert rows[..|rows|] == rows;
  }

  lemma {:induction false} NamedIds(rows: seq<Bead>)
    ensures forall b :: b in Named(rows) <==> b in rows && b.id != ""
  {
    if rows != [] {
      NamedIds(rows[..|rows| - 1]);
      assert rows == rows[..|rows| - 1] + [rows[|rows| - 1]];
    }
  }

  lemma {:induction false} NewRowsIds(rows: seq<Bead>, seen: set<string>)
    ensures forall b | b in NewRows(rows, seen) :: b in rows && b.id != "" && b.id !in seen
    ensures forall b | b in rows && b.id != "" && b.id !in seen :: b.id in Ids(NewRows(rows, seen))
    ensures forall i, j | 0 <= i < j < |NewRows(rows, seen)| :: NewRows(rows, seen)[i].id != NewRows(rows, seen)[j].id
  {
    if rows != [] {
      NewRowsIds(rows[..|rows| - 1], seen);
      assert rows == rows[..|rows| - 1] + [rows[|rows| - 1]];
      assert Ids(NewRows(rows[..|rows| - 1], seen)) <= Ids(NewRows(rows, seen));
    }
  }

  /** Merging two non-empty reads loses no named bead, and a bead the live read
      lists appears only as the live read has it. */
  lemma MergePrefersLive(cached: seq<Bead>, live: seq<Bead>)
    requires cached != [] && live != []
    ensures forall id :: id in Ids(Merge(cached, live)) <==> id != "" && (id in Ids(cached) || id in Ids(live))
    ensures forall b | b in Merge(cached, live) :: if b.id in Ids(live) then b in live else b in cached
  {
    NamedIds(live);
    NewRowsIds(cached, Ids(Named(live)));
    var merged := Merge(cached, live);
    forall id ensures id in Ids(merged) <==> id != "" && (id in Ids(cached) || id in Ids(live)) {
      if id in Ids(live) && id != "" {
        var b :| b in live && b.id == id;
        assert b in Named(live) && b in merged;
      } else if id in Ids(cached) && id != "" {
        var b :| b in cached && b.id == id;
        assert b.id in Ids(NewRows(cached, Ids(Named(live))));
        var c :| c in NewRows(cached, Ids(Named(live))) && c.id == id;
        assert c in merged;
      }
    }
  }

  // ---- the uncached reads -----------------------------------------------------------

  function LiveReady(s: Store, q: Query): Reply {
    Reply(Select(s.live.rows, q), s.live.err)
  }

  /** The store's own answer: its first matching rows, with its error. */
  lemma LiveSelects(s: Store, q: Query)
    ensures Selects(s.live.rows, q, LiveReady(s, q).rows) && LiveReady(s, q).err == s.live.err
  {
    SelectSelects(s.live.rows, q);
  }

  function Rows(r: Reply): seq<Bead> {
    if r.err.Some? && !IsPartial(r.err.value) then [] else r.rows
  }

  function JoinErr(a: Option<Error>, b: Error): Error {
    if a.None? then b else Joined(a.value, b)
  }

  /** The answer of a store with explicit handles whose live read failed: the
      rows of both tiers, with the errors joined. */
  function Backfilled(cached: Reply, live: Reply): Reply
    requires live.err.Some?
  {
    var rows := Merge(Rows(cached), Rows(live));
    var joined := JoinErr(cached.err, live.err.value);
    Reply(rows, Some(if rows != [] && !IsPartial(joined) then PartialOf("controller ready demand", joined) else joined))
  }

  /** readyForControllerDemand. */
  function DemandReady(s: Store): Reply {
    if s.cached.err.Some? && IsUnavailable(s.cached.err.value) then s.live
    else if !s.explicitHandles then s.cached
    else if s.live.err.None? then s.live
    else Backfilled(s.cached, s.live)
  }

  datatype Call = LiveCall(store: string, q: Query) | DemandCall(store: string)

  function Direct(stores: map<string, Store>, c: Call): Reply
    requires c.store in stores
  {
    match c
    case LiveCall(s, q) => LiveReady(stores[s], q)
    case DemandCall(s) => DemandReady(stores[s])
  }

  /** The reply is the one of the uncached read. */
  predicate Answers(stores: map<string, Store>, c: Call, r: Reply) {
    c.store in stores && r == Direct(stores, c)
  }

  predicate AllAnswered(stores: map<string, Store>, calls: seq<Call>, replies: seq<Reply>) {
    |replies| <= |calls| && forall i | 0 <= i < |replies| :: Answers(stores, calls[i], replies[i])
  }

  lemma AnsweredSnoc(stores: map<string, Store>, calls: seq<Call>, replies: seq<Reply>, r: Reply)
    requires AllAnswered(stores, calls, replies) && |replies| < |calls| && Answers(stores, calls[|replies|], r)
    ensures AllAnswered(stores, calls, replies + [r])
  {
  }

  // ---- the cache ---------------------------------------------------------------------

  class ReadyDemandCache {
    var live: map<string, Reply>
    var cached: map<string, Reply>
    /** How often each store's tier was read. */
    var liveReads: multiset<string>
    var cachedReads: multiset<string>

    ghost predicate Valid(stores: map<string, Store>)
      reads this
    {
      && (forall s | s in live :: s in stores && live[s] == stores[s].live)
      && (forall s | s in cached :: s in stores && cached[s] == stores[s].cached)
      && liveReads == multiset(live.Keys) && cachedReads == multiset(cached.Keys)
    }

    constructor ()
      ensures live == map[] && cached == map[] && liveReads == cachedReads == multiset{}
    {
      live, cached, liveReads, cachedReads := map[], map[], multiset{}, multiset{};
    }

    method LiveSnapshot(stores: map<string, Store>, s: string) returns (r: Reply)
      requires Valid(stores) && s in stores
      modifies this`live, this`liveReads
      ensures Valid(stores) && r == stores[s].live
      ensures live.Keys == old(live.Keys) + {s}
    {
      if s !in live {
        ReadsGrow(live.Keys, s);
        assert live[s := stores[s].live].Keys == live.Keys + {s};
        live := live[s := stores[s].live];
        liveReads := liveReads + multiset{s};
      }
      return live[s];
    }

    method CachedSnapshot(stores: map<string, Store>, s: string) returns (r: Reply)
      requires Valid(stores) && s in stores
      modifies this`cached, this`cachedReads
      ensures Valid(stores) && r == stores[s].cached
      ensures cached.Keys == old(cached.Keys) + {s}
    {
      if s !in cached {
        ReadsGrow(cached.Keys, s);
        assert cached[s := stores[s].cached].Keys == cached.Keys + {s};
        cached := cached[s := stores[s].cached];
        cachedReads := cachedReads + multiset{s};
      }
      return cached[s];
    }

    method ReadLive(stores: map<string, Store>, s: string, q: Query) returns (r: Reply)
      requires Valid(stores) && s in stores
      modifies this
      ensures Valid(stores) && r == LiveReady(stores[s], q)
    {
      var snapshot := LiveSnapshot(stores, s);
      var rows := FilterReadySnapshot(snapshot.rows, q);
      return Reply(rows, snapshot.err);
    }

    method ReadDemand(stores: map<string, Store>, s: string) returns (r: Reply)
      requires Valid(stores) && s in stores
      modifies this
      ensures Valid(stores) && r == DemandReady(stores[s])
    {
      var c := CachedSnapshot(stores, s);
      if c.err.Some? && IsUnavailable(c.err.value) {
        r := LiveSnapshot(stores, s);
        return;
      }
      if !stores[s].explicitHandles {
        return c;
      }
      var rows := Rows(c);
      var l := LiveSnapshot(stores, s);
      if l.err.None? {
        return l;
      }
      rows := MergeReadyRowsById(rows, Rows(l));
      var joined := JoinErr(c.err, l.err.value);
      if rows != [] && !IsPartial(joined) {
        return Reply(rows, Some(PartialOf("controller ready demand", joined)));
      }
      return Reply(rows, Some(joined));
    }

    method Read(stores: map<string, Store>, call: Call) returns (r: Reply)
      requires Valid(stores) && call.store in stores
      modifies this
      ensures Valid(stores) && Answers(stores, call, r)
    {
      match call {
        case LiveCall(s, q) => r := ReadLive(stores, s, q);
        case DemandCall(s) => r := ReadDemand(stores, s);
      }
    }

    /** Any sequence of reads in a pass whose stores do not change: every reply
        is the uncached one, and no store is read twice on a tier. */
    method ReadAll(stores: map<string, Store>, calls: seq<Call>) returns (replies: seq<Reply>)
      requires Valid(stores) && forall i | 0 <= i < |calls| :: calls[i].store in stores
      modifies this
      ensures Valid(stores) && |replies| == |calls| && AllAnswered(stores, calls, replies)
      ensures forall s :: liveReads[s] <= 1 && cachedReads[s] <= 1
    {
      replies := [];
      for i := 0 to |calls|
        invariant Valid(stores) && |replies| == i && AllAnswered(stores, calls, replies)
      {
        var r := Read(stores, calls[i]);
        AnsweredSnoc(stores, calls, replies, r);
        replies := replies + [r];
      }
      ReadOnce();
    }

    lemma ReadOnce()
      requires liveReads == multiset(live.Keys) && cachedReads == multiset(cached.Keys)
      ensures forall s :: liveReads[s] <= 1 && cachedReads[s] <= 1
    {
    }
  }

  lemma ReadsGrow(keys: set<string>, s: string)
    requires s !in keys
    ensures multiset(keys + {s}) == multiset(keys) + multiset{s}
  {
  }

  // ---- two caches around the route rewrites -------------------------------------------

  function Reroute(rows: seq<Bead>, rewrites: map<string, string>): seq<Bead> {
    seq(|rows|, i requires 0 <= i < |rows| =>
      if rows[i].id in rewrites then rows[i].(route := rewrites[rows[i].id]) else rows[i])
  }

  function Rewritten(s: Store, rewrites: map<string, string>): Store {
    s.(live := s.live.(rows := Reroute(s.live.rows, rewrites)), cached := s.cached.(rows := Reroute(s.cached.rows, rewrites)))
  }

  /** The demand phase: assigned work is read through one cache, routes are
      rewritten, and demand is read through a second cache. The demand replies
      are those of the rewritten stores. */
  method DemandPhase(stores: map<string, Store>, rewrites: map<string, string>, claimed: seq<Call>, demand: seq<Call>)
    returns (before: seq<Reply>, after: seq<Reply>)
    requires forall i | 0 <= i < |claimed| :: claimed[i].store in stores
    requires forall i | 0 <= i < |demand| :: demand[i].store in stores
    ensures |before| == |claimed| && |after| == |demand|
    ensures AllAnswered(stores, claimed, before)
    ensures AllAnswered(map s | s in stores :: Rewritten(stores[s], rewrites), demand, after)
  {
    var assignedCache := new ReadyDemandCache();
    before := assignedCache.ReadAll(stores, claimed);
    var written := map s | s in stores :: Rewritten(stores[s], rewrites);
    var demandCache := new ReadyDemandCache();
    after := demandCache.ReadAll(written, demand);
  }

  // Rewriting routes and reading demand commute, tier merge included.

  lemma RerouteSnoc(rows: seq<Bead>, b: Bead, rewrites: map<string, string>)
    ensures Reroute(rows + [b], rewrites) == Reroute(rows, rewrites) + Reroute([b], rewrites)
    ensures |Reroute([b], rewrites)| == 1 && Reroute([b], rewrites)[0].id == b.id
  {
  }

  lemma {:induction false} RerouteIds(rows: seq<Bead>, rewrites: map<string, string>)
    ensures Ids(Reroute(rows, rewrites)) == Ids(rows)
  {
    var rows' := Reroute(rows, rewrites);
    forall id ensures id in Ids(rows') <==> id in Ids(rows) {
      if id in Ids(rows) {
        var i :| 0 <= i < |rows| && rows[i].id == id;
        assert rows'[i].id == id && rows'[i] in rows';
      }
      if id in Ids(rows') {
        var i :| 0 <= i < |rows'| && rows'[i].id == id;
        assert rows[i].id == id && rows[i] in rows;
      }
    }
  }

  lemma {:induction false} NamedReroute(rows: seq<Bead>, rewrites: map<string, string>)
    ensures Named(Reroute(rows, rewrites)) == Reroute(Named(rows), rewrites)
  {
    if rows != [] {
      var rest, b := rows[..|rows| - 1], rows[|rows| - 1];
      assert rows == rest + [b];
      NamedReroute(rest, rewrites);
      var rows' := Reroute(rows, rewrites);
      RerouteSnoc(rest, b, rewrites);
      assert rows'[..|rows'| - 1] == Reroute(rest, rewrites);
      RerouteSnoc(Named(rest), b, rewrites);
    }
  }

  lemma {:induction false} NewRowsReroute(rows: seq<Bead>, seen: set<string>, rewrites: map<string, string>)
    ensures NewRows(Reroute(rows, rewrites), seen) == Reroute(NewRows(rows, seen), rewrites)
  {
    if rows != [] {
      var rest, b := rows[..|rows| - 1], rows[|rows| - 1];
      assert rows == rest + [b];
      NewRowsReroute(rest, seen, rewrites);
      var rows' := Reroute(rows, rewrites);
      RerouteSnoc(rest, b, rewrites);
      assert rows'[..|rows'| - 1] == Reroute(rest, rewrites);
      RerouteIds(NewRows(rest, seen), rewrites);
      RerouteSnoc(NewRows(rest, seen), b, rewrites);
    }
  }

  lemma {:induction false} MergeReroute(primary: seq<Bead>, secondary: seq<Bead>, rewrites: map<string, string>)
    ensures Merge(Reroute(primary, rewrites), Reroute(secondary, rewrites)) == Reroute(Merge(primary, secondary), rewrites)
  {
    NamedReroute(secondary, rewrites);
    RerouteIds(Named(secondary), rewrites);
    NewRowsReroute(primary, Ids(Named(secondary)), rewrites);
    RerouteAppend(Named(secondary), NewRows(primary, Ids(Named(secondary))), rewrites);
  }

  lemma RerouteAppend(a: seq<Bead>, b: seq<Bead>, rewrites: map<string, string>)
    ensures Reroute(a + b, rewrites) == Reroute(a, rewrites) + Reroute(b, rewrites)
  {
  }

  /** Demand read from the rewritten store is the demand of the old store with
      its rows rerouted, the errors being the same. */
  lemma DemandReroutes(s: Store, rewrites: map<string, string>)
    ensures DemandReady(Rewritten(s, rewrites)) == DemandReady(s).(rows := Reroute(DemandReady(s).rows, rewrites))
  {
    MergeReroute(Rows(s.cached), Rows(s.live), rewrites);
    assert Reroute([], rewrites) == [];
  }

  /** So reusing the first cache after the rewrites would answer demand from the
      old routes: its memoised answer is stale exactly when a row of it was
      rewritten to another route. */
  lemma StaleDemandExactlyWhen(s: Store, rewrites: map<string, string>)
    ensures DemandReady(s) != DemandReady(Rewritten(s, rewrites)) <==>
            exists i | 0 <= i < |DemandReady(s).rows| ::
              DemandReady(s).rows[i].id in rewrites && rewrites[DemandReady(s).rows[i].id] != DemandReady(s).rows[i].route
  {
    DemandReroutes(s, rewrites);
    RerouteDiffers(DemandReady(s).rows, rewrites);
  }

  /** And so is a live read, unfiltered. */
  lemma StaleLiveExactlyWhen(s: Store, rewrites: map<string, string>)
    ensures LiveReady(s, Query("", 0)) != LiveReady(Rewritten(s, rewrites), Query("", 0)) <==>
            exists i | 0 <= i < |s.live.rows| ::
              s.live.rows[i].id in rewrites && rewrites[s.live.rows[i].id] != s.live.rows[i].route
  {
    ByAssigneeAll(s.live.rows);
    ByAssigneeAll(Reroute(s.live.rows, rewrites));
    RerouteDiffers(s.live.rows, rewrites);
  }

  lemma RerouteDiffers(rows: seq<Bead>, rewrites: map<string, string>)
    ensures rows != Reroute(rows, rewrites) <==> exists i | 0 <= i < |rows| :: rows[i].id in rewrites && rewrites[rows[i].id] != rows[i].route
  {
  }
}
