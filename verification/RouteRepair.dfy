/** The bounded repair of control-dispatcher routes
    (repairControlDispatcherRoutesForStoreScope in
    cmd/gc/build_desired_state.go): at most five writes a pass, from a start
    that rotates with a per-city cursor. */
module RouteRepair {
  import opened Prelude
  import opened Rotation

  /** The metadata of a work bead the repair reads and writes. */
  datatype Bead = Bead(kind: string, rootStoreRef: string, routedTo: Option<string>, fallback: Option<string>)

  /** A missing store, or one whose update of this row succeeds or fails. */
  datatype Store = NoStore | Updates(ok: bool)

  /** One row of the aligned beads, stores and store refs. */
  datatype Row = Row(bead: Bead, store: Store, storeRef: string)

  const CONTROL_KINDS: set<string> :=
    {"retry", "ralph", "check", "retry-eval", "fanout", "drain", "scope-check", "workflow-finalize"}

  function Meta(v: Option<string>): string {
    if v.Some? then Trim(v.value) else ""
  }

  predicate IsControl(b: Bead) {
    Trim(b.kind) in CONTROL_KINDS
  }

  /** Whether a canonical store reference names a scope. */
  predicate Scoped(ref: string) {
    var r := Trim(ref);
    if HasPrefix(r, "city:") then !Blank(r[5..])
    else HasPrefix(r, "rig:") && !Blank(r[4..])
  }

  /** The rig a row's store belongs to, "" for the city store. */
  function RigContext(storeRef: string): string {
    var r := Trim(storeRef);
    if r == "" || r == "city" || HasPrefix(r, "city:") then ""
    else if HasPrefix(r, "rig:") then r[4..]
    else r
  }

  /** `dispatchers` maps a rig context to its dispatcher's qualified name. */
  function Dispatcher(dispatchers: map<string, string>, storeRef: string): Option<string> {
    var ctx := RigContext(storeRef);
    if ctx in dispatchers then Some(dispatchers[ctx]) else None
  }

  predicate InScope(b: Bead) {
    IsControl(b) && Scoped(b.rootStoreRef)
  }

  predicate NeedsRoute(b: Bead, route: string) {
    Meta(b.routedTo) != route
  }

  /** The row's durable metadata has to be rewritten. */
  predicate Needs(dispatchers: map<string, string>, r: Row) {
    && InScope(r.bead)
    && Dispatcher(dispatchers, r.storeRef).Some?
    && (NeedsRoute(r.bead, Dispatcher(dispatchers, r.storeRef).value) || Meta(r.bead.fallback) != "")
  }

  /** The marked rows among the first k of the rotation. */
  function Needing(needs: seq<bool>, start: nat, k: nat): seq<nat>
    requires start < |needs| && k <= |needs|
  {
    if k == 0 then []
    else
      var i := Ring(start, k - 1, |needs|);
      Needing(needs, start, k - 1) + if needs[i] then [i] else []
  }

  function Take<T>(s: seq<T>, n: nat): seq<T> {
    if |s| <= n then s else s[..n]
  }

  function NeedsOf(dispatchers: map<string, string>, rows: seq<Row>): (needs: seq<bool>)
    ensures |needs| == |rows| && forall i | 0 <= i < |rows| :: needs[i] == Needs(dispatchers, rows[i])
  {
    seq(|rows|, i requires 0 <= i < |rows| => Needs(dispatchers, rows[i]))
  }

  /** The rows a pass attempts to write: the first five of the rotation that
      need it. */
  function Attempts(dispatchers: map<string, string>, rows: seq<Row>, start: nat): seq<nat>
    requires start < |rows|
  {
    Take(Needing(NeedsOf(dispatchers, rows), start, |rows|), LIMIT)
  }

  function Written(b: Bead, route: string, cleared: Option<string>): Bead {
    b.(routedTo := if NeedsRoute(b, route) then Some(route) else b.routedTo,
       fallback := if Meta(b.fallback) != "" then cleared else b.fallback)
  }

  predicate Persists(r: Row, attempted: bool) {
    attempted && r.store == Updates(true)
  }

  /** The row in this tick's demand snapshot after the pass. */
  function Snapshot(dispatchers: map<string, string>, r: Row, attempted: bool): Bead {
    if !InScope(r.bead) then r.bead
    else if Dispatcher(dispatchers, r.storeRef).None? then r.bead.(routedTo := None)
    else if !Needs(dispatchers, r) then r.bead
    else if Persists(r, attempted) then Written(r.bead, Dispatcher(dispatchers, r.storeRef).value, None)
    else if NeedsRoute(r.bead, Dispatcher(dispatchers, r.storeRef).value) then r.bead.(routedTo := None)
    else r.bead
  }

  /** The row in its store after the pass. */
  function Durable(dispatchers: map<string, string>, r: Row, attempted: bool): Bead {
    if Needs(dispatchers, r) && Persists(r, attempted)
    then Written(r.bead, Dispatcher(dispatchers, r.storeRef).value, Some(""))
    else r.bead
  }

  // ---- the pass ---------------------------------------------------------------

  /** The state one pass carries from row to row. */
  class Repair {
    const dispatchers: map<string, string>
    var routeByScope: map<string, Option<string>>
    var writesRemaining: nat
    var attempted: seq<nat>

    ghost predicate Valid()
      reads this
    {
      && writesRemaining + |attempted| == LIMIT
      && forall ctx | ctx in routeByScope ::
           routeByScope[ctx] == if ctx in dispatchers then Some(dispatchers[ctx]) else None
    }

    constructor (dispatchers: map<string, string>)
      ensures this.dispatchers == dispatchers && Valid() && attempted == []
    {
      this.dispatchers := dispatchers;
      routeByScope, writesRemaining, attempted := map[], LIMIT, [];
    }

    method DesiredRoute(storeRef: string) returns (route: Option<string>)
      requires Valid()
      modifies this`routeByScope
      ensures Valid() && route == Dispatcher(dispatchers, storeRef)
    {
      var ctx := RigContext(storeRef);
      if ctx !in routeByScope {
        routeByScope := routeByScope[ctx := if ctx in dispatchers then Some(dispatchers[ctx]) else None];
      }
      return routeByScope[ctx];
    }

    /** Repairs the i-th row; a needed write is attempted while the budget
        lasts, and a row that cannot be persisted loses its route from the
        snapshot only. */
    method RepairBead(i: nat, r: Row) returns (snapshot: Bead, durable: Bead)
      requires Valid()
      modifies this
      ensures Valid()
      ensures var tried := Needs(dispatchers, r) && old(|attempted|) < LIMIT;
              && attempted == old(attempted) + (if tried then [i] else [])
              && snapshot == Snapshot(dispatchers, r, tried)
              && durable == Durable(dispatchers, r, tried)
    {
      snapshot, durable := r.bead, r.bead;
      if !IsControl(r.bead) || !Scoped(r.bead.rootStoreRef) {
        return;
      }
      var lookup := DesiredRoute(r.storeRef);
      if lookup.None? {
        snapshot := r.bead.(routedTo := None);
        return;
      }
      var route := lookup.value;
      var needsRoute := NeedsRoute(r.bead, route);
      var clearFallback := Meta(r.bead.fallback) != "";
      if !needsRoute && !clearFallback {
        return;
      }
      if writesRemaining == 0 {
        if needsRoute {
          snapshot := r.bead.(routedTo := None);
        }
        return;
      }
      writesRemaining := writesRemaining - 1;
      attempted := attempted + [i];
      if r.store != Updates(true) {
        if needsRoute {
          snapshot := r.bead.(routedTo := None);
        }
        return;
      }
      durable := Written(r.bead, route, Some(""));
      snapshot := Written(r.bead, route, None);
    }
  }

  /** The rotating start offsets, one cursor per repair domain. */
  class Cursors {
    var cursors: map<string, nat>

    ghost predicate Valid()
      reads this
    {
      forall d | d in cursors :: cursors[d] < WORD
    }

    function At(domain: string): nat
      reads this
    {
      if domain in cursors then cursors[domain] else 0
    }

    constructor ()
      ensures Valid() && cursors == map[]
    {
      cursors := map[];
    }

    /** Reads a start and advances only this domain's cursor, modulo 2^64. */
    method Advance(domain: string, n: nat) returns (start: nat)
      requires Valid() && n > 0
      modifies this
      ensures Valid() && start == old(At(domain)) % n < n
      ensures cursors == old(cursors)[domain := (old(At(domain)) + LIMIT) % WORD]
    {
      var c := At(domain);
      cursors := cursors[domain := (c + LIMIT) % WORD];
      return c % n;
    }
  }

  function Rows(beads: seq<Bead>, stores: seq<Store>, storeRefs: seq<string>): (rows: seq<Row>)
    requires |beads| == |stores| == |storeRefs|
    ensures |rows| == |beads|
    ensures forall i | 0 <= i < |rows| :: rows[i] == Row(beads[i], stores[i], storeRefs[i])
  {
    seq(|beads|, i requires 0 <= i < |beads| => Row(beads[i], stores[i], storeRefs[i]))
  }

  /** One pass over the rows, in rotation order from `start`: it rewrites the
      snapshot in place and returns the rows as their stores now hold them. */
  method RepairPass(dispatchers: map<string, string>, beads: array<Bead>, rows: seq<Row>, start: nat)
    returns (durable: seq<Bead>, attempts: seq<nat>)
    requires start < |rows| == beads.Length
    requires forall i | 0 <= i < |rows| :: rows[i].bead == beads[i]
    modifies beads
    ensures attempts == Attempts(dispatchers, rows, start)
    ensures |durable| == |rows|
    ensures forall i | 0 <= i < |rows| :: RowDone(dispatchers, rows[i], beads[i], durable[i], i in attempts)
  {
    var n := |rows|;
    var repair := new Repair(dispatchers);
    durable := beads[..];
    ghost var needs := NeedsOf(dispatchers, rows);
    for offset := 0 to n
      invariant repair.Valid() && repair.dispatchers == dispatchers && fresh(repair)
      invariant repair.attempted == Take(Needing(needs, start, offset), LIMIT)
      invariant DoneBefore(dispatchers, rows, start, offset, beads[..], durable, repair.attempted)
    {
      durable := RepairAt(repair, beads, rows, start, offset, durable, needs);
    }
    attempts := repair.attempted;
    ghost var last := beads[..];
    AllDone(dispatchers, rows, start, last, durable, attempts);
    assert forall i | 0 <= i < |rows| :: last[i] == beads[i];
  }

  /** The row whose turn is at `offset`. */
  method RepairAt(repair: Repair, beads: array<Bead>, rows: seq<Row>, start: nat, offset: nat, before: seq<Bead>, ghost needs: seq<bool>)
    returns (durable: seq<Bead>)
    requires repair.Valid() && start < |rows| == beads.Length && offset < |rows| && needs == NeedsOf(repair.dispatchers, rows)
    requires repair.attempted == Take(Needing(needs, start, offset), LIMIT)
    requires DoneBefore(repair.dispatchers, rows, start, offset, beads[..], before, repair.attempted)
    modifies repair, beads
    ensures repair.Valid()
    ensures repair.attempted == Take(Needing(needs, start, offset + 1), LIMIT)
    ensures DoneBefore(repair.dispatchers, rows, start, offset + 1, beads[..], durable, repair.attempted)
  {
    var i := Ring(start, offset, |rows|);
    NeedingSound(needs, start, offset, i);
    ghost var snapshot, attempted := beads[..], repair.attempted;
    var s, d := repair.RepairBead(i, rows[i]);
    beads[i] := s;
    durable := before[i := d];
    assert beads[..] == snapshot[i := s];
    DoneStep(repair.dispatchers, rows, start, offset, snapshot, before, attempted, s, d);
    TakeStep(needs, start, offset);
  }

  lemma TakeStep(needs: seq<bool>, start: nat, k: nat)
    requires start < |needs| && k < |needs|
    ensures var i, taken := Ring(start, k, |needs|), Take(Needing(needs, start, k), LIMIT);
            Take(Needing(needs, start, k + 1), LIMIT) == taken + if needs[i] && |taken| < LIMIT then [i] else []
  {
  }

  lemma AllDone(dispatchers: map<string, string>, rows: seq<Row>, start: nat, snapshot: seq<Bead>, durable: seq<Bead>, attempted: seq<nat>)
    requires start < |rows| && DoneBefore(dispatchers, rows, start, |rows|, snapshot, durable, attempted)
    ensures forall i | 0 <= i < |rows| :: RowDone(dispatchers, rows[i], snapshot[i], durable[i], i in attempted)
  {
  }

  /** The rows whose turn came before offset k have their final values. */
  ghost predicate DoneBefore(dispatchers: map<string, string>, rows: seq<Row>, start: nat, k: nat, snapshot: seq<Bead>, durable: seq<Bead>, attempted: seq<nat>)
    requires start < |rows|
  {
    && |snapshot| == |durable| == |rows|
    && forall i | 0 <= i < |rows| && Turn(start, i, |rows|) < k ::
         RowDone(dispatchers, rows[i], snapshot[i], durable[i], i in attempted)
  }

  ghost predicate RowDone(dispatchers: map<string, string>, r: Row, s: Bead, d: Bead, attempted: bool) {
    s == Snapshot(dispatchers, r, attempted) && d == Durable(dispatchers, r, attempted)
  }

  lemma DoneStep(dispatchers: map<string, string>, rows: seq<Row>, start: nat, k: nat, snapshot: seq<Bead>, durable: seq<Bead>, attempted: seq<nat>, s: Bead, d: Bead)
    requires start < |rows| && k < |rows|
    requires DoneBefore(dispatchers, rows, start, k, snapshot, durable, attempted)
    requires var i := Ring(start, k, |rows|);
             i !in attempted && RowDone(dispatchers, rows[i], s, d, Needs(dispatchers, rows[i]) && |attempted| < LIMIT)
    ensures var i := Ring(start, k, |rows|);
            DoneBefore(dispatchers, rows, start, k + 1, snapshot[i := s], durable[i := d],
                       attempted + if Needs(dispatchers, rows[i]) && |attempted| < LIMIT then [i] else [])
  {
  }

  /** The whole operation: no config or no rows changes nothing, misaligned
      inputs take every control bead's route out of the snapshot. `cfg` is None
      for a missing config; the durable rows are returned. */
  method RepairRoutes(cursors: Cursors, domain: string, cfg: Option<map<string, string>>,
                      beads: array<Bead>, stores: seq<Store>, storeRefs: seq<string>)
    returns (durable: seq<Bead>)
    requires cursors.Valid()
    modifies beads, cursors
    ensures cursors.Valid()
    ensures forall d | d != domain :: cursors.At(d) == old(cursors.At(d))
    ensures cfg.None? || beads.Length == 0 ==> beads[..] == durable == old(beads[..]) && cursors.At(domain) == old(cursors.At(domain))
    ensures cfg.Some? && beads.Length > 0 && !(beads.Length == |stores| == |storeRefs|) ==>
              && durable == old(beads[..])
              && forall i | 0 <= i < beads.Length ::
                   beads[i] == if IsControl(durable[i]) then durable[i].(routedTo := None) else durable[i]
    ensures cfg.Some? && 0 < beads.Length == |stores| == |storeRefs| ==>
              var rows := Rows(old(beads[..]), stores, storeRefs);
              var attempts := Attempts(cfg.value, rows, old(cursors.At(domain)) % |rows|);
              && cursors.At(domain) == (old(cursors.At(domain)) + LIMIT) % WORD
              && |durable| == |rows|
              && forall i | 0 <= i < |rows| :: RowDone(cfg.value, rows[i], beads[i], durable[i], i in attempts)
  {
    durable := beads[..];
    if cfg.None? || beads.Length == 0 {
      return;
    }
    if beads.Length != |stores| || beads.Length != |storeRefs| {
      for i := 0 to beads.Length
        modifies beads
        invariant forall k | 0 <= k < i ::
                    beads[k] == if IsControl(durable[k]) then durable[k].(routedTo := None) else durable[k]
        invariant forall k | i <= k < beads.Length :: beads[k] == durable[k]
      {
        if IsControl(beads[i]) {
          beads[i] := beads[i].(routedTo := None);
        }
      }
      return;
    }
    var start := cursors.Advance(domain, beads.Length);
    var attempts;
    durable, attempts := RepairPass(cfg.value, beads, Rows(beads[..], stores, storeRefs), start);
  }

  /** A row appears among the needing ones exactly when it needs a write and
      its turn came before offset k. */
  lemma {:induction false} NeedingSound(needs: seq<bool>, start: nat, k: nat, i: nat)
    requires start < |needs| && k <= |needs| && i < |needs|
    ensures i in Needing(needs, start, k) <==> needs[i] && Turn(start, i, |needs|) < k
    ensures |Needing(needs, start, k)| <= k
  {
    if k > 0 {
      NeedingSound(needs, start, k - 1, i);
    }
  }

  // ---- what a pass guarantees ---------------------------------------------------

  lemma {:induction false} NeedingDistinct(needs: seq<bool>, start: nat, k: nat)
    requires start < |needs| && k <= |needs|
    ensures Distinct(Needing(needs, start, k))
    ensures forall i | i in Needing(needs, start, k) :: i < |needs| && needs[i]
  {
    if k > 0 {
      NeedingDistinct(needs, start, k - 1);
      NeedingSound(needs, start, k - 1, Ring(start, k - 1, |needs|));
    }
  }

  /** At most five rows are written to in a pass, each at most once, and only
      rows that need it. */
  lemma BudgetRespected(dispatchers: map<string, string>, rows: seq<Row>, start: nat)
    requires start < |rows|
    ensures |Attempts(dispatchers, rows, start)| <= LIMIT && Distinct(Attempts(dispatchers, rows, start))
    ensures forall i | i in Attempts(dispatchers, rows, start) :: i < |rows| && Needs(dispatchers, rows[i])
  {
    var needs := NeedsOf(dispatchers, rows);
    NeedingDistinct(needs, start, |rows|);
    forall i | i in Attempts(dispatchers, rows, start) ensures i < |rows| && Needs(dispatchers, rows[i]) {
      assert i in Needing(needs, start, |rows|);
    }
  }

  /** After a pass a scoped control row is routed to its own scope's dispatcher
      or to nobody, whatever the budget and the stores did; its durable route
      changes only towards that dispatcher. */
  lemma RoutesAreHonest(dispatchers: map<string, string>, r: Row, attempted: bool)
    requires InScope(r.bead)
    ensures var s := Snapshot(dispatchers, r, attempted);
            s.routedTo.None? || Some(Meta(s.routedTo)) == Dispatcher(dispatchers, r.storeRef)
                             || s.routedTo == Dispatcher(dispatchers, r.storeRef)
    ensures var d := Durable(dispatchers, r, attempted);
            d.routedTo == r.bead.routedTo || d.routedTo == Dispatcher(dispatchers, r.storeRef)
  {
  }

  lemma {:induction false} NeedingPrefix(needs: seq<bool>, start: nat, k: nat, m: nat)
    requires start < |needs| && k <= m <= |needs|
    ensures Needing(needs, start, k) <= Needing(needs, start, m)
    decreases m - k
  {
    if k < m {
      NeedingPrefix(needs, start, k + 1, m);
    }
  }

  /** A row among the first five of the rotation is attempted if it needs it. */
  lemma FrontIsAttempted(dispatchers: map<string, string>, rows: seq<Row>, start: nat, i: nat)
    requires start < |rows| && i < |rows| && Turn(start, i, |rows|) < LIMIT
    requires Needs(dispatchers, rows[i])
    ensures i in Attempts(dispatchers, rows, start)
  {
    FrontIsTaken(NeedsOf(dispatchers, rows), start, i);
  }

  lemma FrontIsTaken(needs: seq<bool>, start: nat, i: nat)
    requires start < |needs| && i < |needs| && Turn(start, i, |needs|) < LIMIT && needs[i]
    ensures i in Take(Needing(needs, start, |needs|), LIMIT)
  {
    var o := Turn(start, i, |needs|);
    var all, before := Needing(needs, start, |needs|), Needing(needs, start, o);
    NeedingPrefix(needs, start, o + 1, |needs|);
    NeedingSound(needs, start, o, i);
    assert before + [i] <= all;
    assert all[|before|] == i;
    assert Take(all, LIMIT)[|before|] == i;
  }

  // ---- fairness over passes ------------------------------------------------------

  /** `passes[p]` are the rows of the p-th pass: n of them, row j always at
      index j, everything else free to change or to fail. */
  predicate Aligned(passes: seq<seq<Row>>, n: nat) {
    forall p | 0 <= p < |passes| :: |passes[p]| == n
  }

  predicate AttemptedIn(dispatchers: map<string, string>, passes: seq<seq<Row>>, c: nat, n: nat, p: nat, j: nat)
    requires Aligned(passes, n) && n > 0 && p < |passes|
  {
    j in Attempts(dispatchers, passes[p], CursorAt(c, p) % n)
  }

  ghost predicate AttemptedWithin(dispatchers: map<string, string>, passes: seq<seq<Row>>, c: nat, n: nat, k: nat, j: nat)
    requires Aligned(passes, n) && n > 0 && k <= |passes|
  {
    exists p | 0 <= p < k :: AttemptedIn(dispatchers, passes, c, n, p, j)
  }

  lemma FrontWithinIsAttempted(dispatchers: map<string, string>, passes: seq<seq<Row>>, c: nat, n: nat, k: nat, j: nat)
    requires j < n && Aligned(passes, n) && k <= |passes| && InFrontWithin(c, k, n, j)
    requires forall p | 0 <= p < |passes| :: Needs(dispatchers, passes[p][j])
    ensures AttemptedWithin(dispatchers, passes, c, n, k, j)
  {
    var p :| 0 <= p < k && InFront(c, p, n, j);
    FrontIsAttempted(dispatchers, passes[p], CursorAt(c, p) % n, j);
    assert AttemptedIn(dispatchers, passes, c, n, p, j);
  }

  /** A row that keeps needing a write gets an attempt within ceil(n/5) passes,
      however the other rows behave, from every cursor OneRound admits. */
  lemma EveryRowGetsItsTurn(dispatchers: map<string, string>, passes: seq<seq<Row>>, c: nat, n: nat, j: nat)
    requires j < n <= WORD && c < WORD && OneRound(c, n) && Aligned(passes, n) && |passes| >= CeilDiv(n)
    requires forall p | 0 <= p < |passes| :: Needs(dispatchers, passes[p][j])
    ensures AttemptedWithin(dispatchers, passes, c, n, CeilDiv(n), j)
  {
    ServedWithin(c, n, j);
    FrontWithinIsAttempted(dispatchers, passes, c, n, CeilDiv(n), j);
  }

  /** From every cursor at all, twice as many passes do. */
  lemma EveryRowGetsItsTurnAcrossWrap(dispatchers: map<string, string>, passes: seq<seq<Row>>, c: nat, n: nat, j: nat)
    requires j < n < 0x8000_0000_0000_0000 && c < WORD && Aligned(passes, n) && |passes| >= 2 * CeilDiv(n)
    requires forall p | 0 <= p < |passes| :: Needs(dispatchers, passes[p][j])
    ensures AttemptedWithin(dispatchers, passes, c, n, 2 * CeilDiv(n), j)
  {
    TwoRounds(c, n, j);
    FrontWithinIsAttempted(dispatchers, passes, c, n, 2 * CeilDiv(n), j);
  }

  // Where every row needs a write for ever, only the front is attempted.

  lemma {:induction false} AllNeeding(needs: seq<bool>, start: nat, k: nat)
    requires start < |needs| && k <= |needs| && forall i | 0 <= i < |needs| :: needs[i]
    ensures |Needing(needs, start, k)| == k && forall o | 0 <= o < k :: Needing(needs, start, k)[o] == Ring(start, o, |needs|)
  {
    if k > 0 {
      AllNeeding(needs, start, k - 1);
    }
  }

  lemma OnlyFrontIsAttempted(dispatchers: map<string, string>, rows: seq<Row>, start: nat, j: nat)
    requires start < |rows| && j < |rows| && forall i | 0 <= i < |rows| :: Needs(dispatchers, rows[i])
    ensures j in Attempts(dispatchers, rows, start) <==> Turn(start, j, |rows|) < LIMIT
  {
    var n := |rows|;
    var all := Needing(NeedsOf(dispatchers, rows), start, n);
    AllNeeding(NeedsOf(dispatchers, rows), start, n);
    if Turn(start, j, n) < LIMIT {
      FrontIsAttempted(dispatchers, rows, start, j);
    }
    forall o | 0 <= o < |Take(all, LIMIT)| ensures Turn(start, Take(all, LIMIT)[o], n) < LIMIT {
      assert Take(all, LIMIT)[o] == Ring(start, o, n);
    }
  }

  /** n rows that all need a write their stores refuse: pass after pass finds
      them as they are. */
  ghost predicate Refused(dispatchers: map<string, string>, rows: seq<Row>) {
    forall i | 0 <= i < |rows| :: Needs(dispatchers, rows[i]) && rows[i].store != Updates(true)
  }

  /** Such rows exist: a control bead without a route in a read-only city store. */
  lemma RefusedRow(n: nat)
    ensures Refused(map["" := "d"], seq(n, _ => Row(Bead("check", "city:x", None, None), Updates(false), "city")))
  {
    var r := Row(Bead("check", "city:x", None, None), Updates(false), "city");
    assert Trim("check") == "check" && Trim("city:x") == "city:x" && Trim("city") == "city";
    assert "city:x"[..5] == "city:" && "city:x"[5..] == "x" && Trim("x") == "x";
    assert Needs(map["" := "d"], r);
  }

  lemma RefusedStays(dispatchers: map<string, string>, rows: seq<Row>, i: nat, attempted: bool)
    requires i < |rows| && Refused(dispatchers, rows)
    ensures Durable(dispatchers, rows[i], attempted) == rows[i].bead
  {
  }

  function Repeated(rows: seq<Row>, k: nat): (passes: seq<seq<Row>>)
    ensures |passes| == k && forall p | 0 <= p < k :: passes[p] == rows
  {
    seq(k, _ => rows)
  }

  lemma BacklogAttempts(dispatchers: map<string, string>, rows: seq<Row>, c: nat, k: nat, j: nat)
    requires j < |rows| && Refused(dispatchers, rows)
    ensures AttemptedWithin(dispatchers, Repeated(rows, k), c, |rows|, k, j) <==> InFrontWithin(c, k, |rows|, j)
  {
    var passes := Repeated(rows, k);
    forall p | 0 <= p < k ensures AttemptedIn(dispatchers, passes, c, |rows|, p, j) <==> InFront(c, p, |rows|, j) {
      OnlyFrontIsAttempted(dispatchers, passes[p], CursorAt(c, p) % |rows|, j);
    }
  }

  /** On such a backlog every row is attempted within ceil(n/5) passes exactly
      when OneRound holds, so no weaker condition would do. */
  lemma BacklogServedExactlyWhen(dispatchers: map<string, string>, rows: seq<Row>, c: nat)
    requires 0 < |rows| <= WORD && c < WORD && Refused(dispatchers, rows)
    ensures var n, k := |rows|, CeilDiv(|rows|);
            (forall j: nat | j < n :: AttemptedWithin(dispatchers, Repeated(rows, k), c, n, k, j)) <==> OneRound(c, n)
  {
    var n, k := |rows|, CeilDiv(|rows|);
    forall j: nat | j < n ensures AttemptedWithin(dispatchers, Repeated(rows, k), c, n, k, j) <==> InFrontWithin(c, k, n, j) {
      BacklogAttempts(dispatchers, rows, c, k, j);
    }
    OneRoundExactlyWhen(c, n);
  }

  /** Eleven such rows and a cursor five short of 2^64: row ten is attempted in
      none of the three passes of one round. */
  lemma WrapBreaksSingleBound(dispatchers: map<string, string>, rows: seq<Row>)
    requires |rows| == 11 && Refused(dispatchers, rows)
    ensures CeilDiv(11) == 3 && !AttemptedWithin(dispatchers, Repeated(rows, 3), WORD - 5, 11, 3, 10)
  {
    ElevenRows();
    BacklogAttempts(dispatchers, rows, WORD - 5, 3, 10);
  }

  /** The rows the next passes read: each is what the stores hold after the
      previous pass. */
  ghost predicate Follows(dispatchers: map<string, string>, passes: seq<seq<Row>>, c: nat, n: nat, j: nat)
    requires j < n && Aligned(passes, n)
  {
    forall p | 0 <= p < |passes| - 1 ::
      passes[p + 1][j] == passes[p][j].(bead := Durable(dispatchers, passes[p][j], AttemptedIn(dispatchers, passes, c, n, p, j)))
  }

  lemma {:induction false} RepairedStays(dispatchers: map<string, string>, passes: seq<seq<Row>>, c: nat, n: nat, j: nat, p: nat, q: nat)
    requires j < n && Aligned(passes, n) && Follows(dispatchers, passes, c, n, j)
    requires p <= q < |passes| && !Needs(dispatchers, passes[p][j])
    ensures !Needs(dispatchers, passes[q][j])
    decreases q - p
  {
    if p < q {
      assert passes[p + 1][j] == passes[p][j];
      RepairedStays(dispatchers, passes, c, n, j, p + 1, q);
    }
  }

  /** Convergence: a row whose store takes writes and whose dispatcher has a
      trimmed name is repaired after ceil(n/5) passes, even if every other row
      always fails, from every cursor OneRound admits. */
  lemma RowConverges(dispatchers: map<string, string>, passes: seq<seq<Row>>, c: nat, n: nat, j: nat)
    requires j < n && Aligned(passes, n) && |passes| > CeilDiv(n)
    requires n <= WORD && c < WORD && OneRound(c, n) && Follows(dispatchers, passes, c, n, j)
    requires forall p | 0 <= p < |passes| :: passes[p][j].store == Updates(true)
    requires forall ctx | ctx in dispatchers :: Trim(dispatchers[ctx]) == dispatchers[ctx]
    ensures !Needs(dispatchers, passes[CeilDiv(n)][j])
  {
    var k := CeilDiv(n);
    if p :| 0 <= p < k && !Needs(dispatchers, passes[p][j]) {
      RepairedStays(dispatchers, passes, c, n, j, p, k);
    } else {
      ServedWithin(c, n, j);
      var p :| 0 <= p < k && InFront(c, p, n, j);
      FrontIsAttempted(dispatchers, passes[p], CursorAt(c, p) % n, j);
      AttemptRepairs(dispatchers, passes[p][j]);
      assert AttemptedIn(dispatchers, passes, c, n, p, j);
      RepairedStays(dispatchers, passes, c, n, j, p + 1, k);
    }
  }

  /** A write that goes through leaves nothing to repair. */
  lemma AttemptRepairs(dispatchers: map<string, string>, r: Row)
    requires r.store == Updates(true) && Needs(dispatchers, r)
    requires forall ctx | ctx in dispatchers :: Trim(dispatchers[ctx]) == dispatchers[ctx]
    ensures !Needs(dispatchers, r.(bead := Durable(dispatchers, r, true)))
  {
  }

  // ---- the pass in the fields of its rows -------------------------------------------

  /** The scope a store reference names: a rig by its name, the city, or a bare
      reference itself. */
  lemma ContextOfReference(ref: string, n: string)
    ensures Trim(ref) == "rig:" + n ==> RigContext(ref) == n
    ensures Trim(ref) == "city:" + n || Trim(ref) == "city" || Trim(ref) == "" ==> RigContext(ref) == ""
    ensures Trim(ref) == n && n != "city" && !HasPrefix(n, "city:") && !HasPrefix(n, "rig:") ==> RigContext(ref) == n
  {
    var r := Trim(ref);
    if r == "rig:" + n {
      assert r[..4] == "rig:" && r[4..] == n;
      assert r[0] == 'r' && "city:"[0] == 'c';
    }
    if r == "city:" + n {
      assert r[..5] == "city:";
    }
  }

  /** References as the collection writes them: every rig has its own context
      and none shares the city's. */
  lemma RigsNeverShareAContext(m: string, n: string, city: string)
    requires Trim(m) == m != "" && Trim(n) == n != "" && Trim(city) == city != ""
    ensures RigContext("rig:" + m) == m && RigContext("city:" + city) == ""
    ensures RigContext("rig:" + m) == RigContext("rig:" + n) <==> m == n
  {
    TrimLabelled("rig:", m);
    TrimLabelled("rig:", n);
    TrimLabelled("city:", city);
    ContextOfReference("rig:" + m, m);
    ContextOfReference("rig:" + n, n);
    ContextOfReference("city:" + city, city);
  }

  /** The row belongs to rig n, or to the city when n is empty. */
  ghost predicate StoredIn(r: Row, n: string) {
    var ref := Trim(r.storeRef);
    ref == "rig:" + n || (n == "" && (ref == "" || ref == "city" || HasPrefix(ref, "city:")))
  }

  lemma StoredInContext(r: Row, n: string)
    requires StoredIn(r, n)
    ensures RigContext(r.storeRef) == n
  {
    var ref := Trim(r.storeRef);
    ContextOfReference(r.storeRef, n);
    if n == "" && HasPrefix(ref, "city:") {
      assert ref == "city:" + ref[5..];
      ContextOfReference(r.storeRef, ref[5..]);
    }
  }

  /** A control bead of a graph whose root names its store. */
  ghost predicate Repairable(b: Bead) {
    var root := Trim(b.rootStoreRef);
    && Trim(b.kind) in {"retry", "ralph", "check", "retry-eval", "fanout", "drain", "scope-check", "workflow-finalize"}
    && ((HasPrefix(root, "city:") && Trim(root[5..]) != "") || (HasPrefix(root, "rig:") && Trim(root[4..]) != ""))
  }

  ghost predicate RoutedTo(b: Bead, route: string) {
    (b.routedTo.None? && route == "") || (b.routedTo.Some? && Trim(b.routedTo.value) == route)
  }

  ghost predicate Marked(b: Bead) {
    b.fallback.Some? && Trim(b.fallback.value) != ""
  }

  lemma RepairableIsInScope(b: Bead)
    ensures Repairable(b) <==> InScope(b)
  {
    var root := Trim(b.rootStoreRef);
    if HasPrefix(root, "city:") {
      assert root[0] == "city:"[0] == 'c';
      assert !HasPrefix(root, "rig:") by {
        assert "rig:"[0] == 'r';
      }
    }
  }

  /** A row of rig n needs a write exactly when n has a dispatcher and the row
      is routed elsewhere or still carries the fallback mark. */
  lemma NeedsExactlyWhen(dispatchers: map<string, string>, r: Row, n: string)
    requires StoredIn(r, n)
    ensures Needs(dispatchers, r) <==>
            Repairable(r.bead) && n in dispatchers && (!RoutedTo(r.bead, dispatchers[n]) || Marked(r.bead))
  {
    StoredInContext(r, n);
    RepairableIsInScope(r.bead);
  }

  /** An attempted row of rig n whose write works ends routed to n's dispatcher,
      unmarked, in the snapshot and in the store. */
  lemma RepairedRow(dispatchers: map<string, string>, r: Row, n: string, s: Bead, d: Bead)
    requires StoredIn(r, n) && Repairable(r.bead) && n in dispatchers && r.store == Updates(true)
    requires !RoutedTo(r.bead, dispatchers[n]) || Marked(r.bead)
    requires RowDone(dispatchers, r, s, d, true)
    ensures !RoutedTo(r.bead, dispatchers[n]) ==> s.routedTo == d.routedTo == Some(dispatchers[n])
    ensures RoutedTo(r.bead, dispatchers[n]) ==> s.routedTo == d.routedTo == r.bead.routedTo
    ensures s.fallback == (if Marked(r.bead) then None else r.bead.fallback)
    ensures d.fallback == (if Marked(r.bead) then Some("") else r.bead.fallback)
    ensures s.kind == d.kind == r.bead.kind && s.rootStoreRef == d.rootStoreRef == r.bead.rootStoreRef
  {
    NeedsExactlyWhen(dispatchers, r, n);
    StoredInContext(r, n);
    RepairableIsInScope(r.bead);
  }

  /** Every other row keeps its store content. A repairable row that is routed
      elsewhere, or whose rig has no dispatcher, loses its route from the
      snapshot; any other row keeps it. */
  lemma UnrepairedRow(dispatchers: map<string, string>, r: Row, n: string, attempted: bool, s: Bead, d: Bead)
    requires StoredIn(r, n) && RowDone(dispatchers, r, s, d, attempted)
    requires !(Repairable(r.bead) && n in dispatchers && attempted && r.store == Updates(true))
    ensures d == r.bead
    ensures s == if Repairable(r.bead) && (n in dispatchers ==> !RoutedTo(r.bead, dispatchers[n])) then r.bead.(routedTo := None) else r.bead
  {
    NeedsExactlyWhen(dispatchers, r, n);
    StoredInContext(r, n);
    RepairableIsInScope(r.bead);
  }

  lemma ControlBeads(b: Bead)
    ensures IsControl(b) <==>
            Trim(b.kind) in {"retry", "ralph", "check", "retry-eval", "fanout", "drain", "scope-check", "workflow-finalize"}
  {
  }

  /** The turns before k that go to a marked row. */
  ghost function Earlier(needs: seq<bool>, start: nat, k: nat): set<nat>
    requires start <= |needs| && k <= |needs|
  {
    var turns := needs[start..] + needs[..start];
    set o: nat | o < k && turns[o]
  }

  lemma {:induction false} NeedingCounts(needs: seq<bool>, start: nat, k: nat)
    requires start < |needs| && k <= |needs|
    ensures |Needing(needs, start, k)| == |Earlier(needs, start, k)|
  {
    if k == 0 {
      assert Earlier(needs, start, 0) == {};
    } else {
      NeedingCounts(needs, start, k - 1);
      var turns := needs[start..] + needs[..start];
      assert turns[k - 1] == needs[Ring(start, k - 1, |needs|)];
      var less := Earlier(needs, start, k - 1);
      assert Earlier(needs, start, k) == if turns[k - 1] then less + {k - 1} else less;
    }
  }

  /** A pass attempts a row exactly when it needs a write and fewer than five
      rows in need come before it in the rotation. */
  lemma AttemptedExactlyWhen(dispatchers: map<string, string>, rows: seq<Row>, start: nat, o: nat)
    requires start < |rows| && o < |rows|
    ensures var needs := NeedsOf(dispatchers, rows);
            var i := (start + o) % |rows|;
            i in Attempts(dispatchers, rows, start) <==> Needs(dispatchers, rows[i]) && |Earlier(needs, start, o)| < 5
  {
    var needs := NeedsOf(dispatchers, rows);
    NeedingCounts(needs, start, o);
    TakenExactlyWhen(needs, start, o);
  }

  lemma TakenExactlyWhen(needs: seq<bool>, start: nat, o: nat)
    requires start < |needs| && o < |needs|
    ensures var i := (start + o) % |needs|;
            i in Take(Needing(needs, start, |needs|), LIMIT) <==> needs[i] && |Needing(needs, start, o)| < 5
  {
    var n, i := |needs|, Ring(start, o, |needs|);
    var all, before, upto := Needing(needs, start, n), Needing(needs, start, o), Needing(needs, start, o + 1);
    RingIsModulo(start, o, n);
    NeedingPrefix(needs, start, o + 1, n);
    NeedingDistinct(needs, start, n);
    NeedingSound(needs, start, n, i);
    if needs[i] {
      assert upto == before + [i] && all[|before|] == i;
      AtOnly(all, i, |before|);
    }
  }

  lemma AtOnly(s: seq<nat>, x: nat, k: nat)
    requires Distinct(s) && k < |s| && s[k] == x
    ensures x in Take(s, LIMIT) <==> k < 5
  {
    if x in Take(s, LIMIT) {
      var j :| 0 <= j < |Take(s, LIMIT)| && Take(s, LIMIT)[j] == x;
      assert s[j] == x;
    }
    if k < 5 {
      assert Take(s, LIMIT)[k] == x;
    }
  }
}
