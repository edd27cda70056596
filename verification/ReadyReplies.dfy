/** The replies of a demand read, row by row and error by error
    (controllerDemandReady and mergeReadyRowsByID in
    cmd/gc/build_desired_state.go). */
module ReadyReplies {
  import opened Prelude
  import opened ReadyCache

  // ---- error chains --------------------------------------------------------------

  /** `x` is the error or one it wraps or joins. */
  ghost predicate Within(x: Error, e: Error) {
    x == e || match e
              case Joined(a, b) => Within(x, a) || Within(x, b)
              case PartialOf(_, cause) => Within(x, cause)
              case _ => false
  }

  ghost predicate HasPartial(e: Error) {
    exists x :: Within(x, e) && (x.PartialResult? || x.PartialOf?)
  }

  lemma {:induction false} PartialIs(e: Error)
    ensures IsPartial(e) <==> HasPartial(e)
  {
    match e
    case Joined(a, b) =>
      PartialIs(a);
      PartialIs(b);
      if x :| Within(x, a) && (x.PartialResult? || x.PartialOf?) {
        assert Within(x, e);
      }
      if x :| Within(x, b) && (x.PartialResult? || x.PartialOf?) {
        assert Within(x, e);
      }
    case _ =>
      assert Within(e, e);
  }

  lemma {:induction false} UnavailableIs(e: Error)
    ensures IsUnavailable(e) <==> Within(CacheUnavailable, e)
  {
    match e
    case Joined(a, b) =>
      UnavailableIs(a);
      UnavailableIs(b);
    case PartialOf(_, cause) =>
      UnavailableIs(cause);
    case _ =>
  }

  // ---- the rows of two tiers -------------------------------------------------------

  /** The rows of `rows` that have an id, in their order. */
  ghost predicate KeepsNamed(rows: seq<Bead>, out: seq<Bead>) {
    exists at :: Picks(rows, out, at) && forall i: nat | i < |rows| :: i in at <==> rows[i].id != ""
  }

  /** A named row that the other tier does not list, for the first time. */
  ghost predicate IsNew(rows: seq<Bead>, other: seq<Bead>, i: nat)
    requires i < |rows|
  {
    && rows[i].id != "" && (forall b | b in other :: b.id != rows[i].id)
    && forall k | 0 <= k < i :: rows[k].id != rows[i].id
  }

  ghost predicate KeepsNew(rows: seq<Bead>, other: seq<Bead>, out: seq<Bead>) {
    exists at :: Picks(rows, out, at) && forall i: nat | i < |rows| :: i in at <==> IsNew(rows, other, i)
  }

  ghost function HaveIds(rows: seq<Bead>): seq<bool> {
    seq(|rows|, i requires 0 <= i < |rows| => rows[i].id != "")
  }

  lemma {:induction false} NamedPicks(rows: seq<Bead>) returns (at: seq<nat>)
    ensures PicksExactly(rows, HaveIds(rows), Named(rows), at)
  {
    at := [];
    if rows != [] {
      var n := |rows| - 1;
      var before := NamedPicks(rows[..n]);
      assert HaveIds(rows)[..n] == HaveIds(rows[..n]);
      PicksExactlySnoc(rows, HaveIds(rows), Named(rows[..n]), before);
      at := if rows[n].id != "" then before + [n] else before;
      assert HaveIds(rows)[n] == (rows[n].id != "");
    }
  }

  lemma NewIsUnseen(rest: seq<Bead>, live: seq<Bead>, last: Bead)
    requires last.id != "" && last.id !in Ids(live)
    ensures last.id in Ids(NewRows(rest, Ids(live))) <==> exists k | 0 <= k < |rest| :: rest[k].id == last.id
  {
    NewRowsIds(rest, Ids(live));
    if k :| 0 <= k < |rest| && rest[k].id == last.id {
      assert rest[k] in rest;
    }
    if last.id in Ids(NewRows(rest, Ids(live))) {
      var b :| b in NewRows(rest, Ids(live)) && b.id == last.id;
      assert b in rest;
    }
  }

  ghost function News(rows: seq<Bead>, live: seq<Bead>): seq<bool> {
    seq(|rows|, i requires 0 <= i < |rows| => IsNew(rows, live, i))
  }

  lemma NewsSnoc(rows: seq<Bead>, live: seq<Bead>)
    requires rows != []
    ensures News(rows, live)[..|rows| - 1] == News(rows[..|rows| - 1], live)
  {
    var rest := rows[..|rows| - 1];
    forall i: nat | i < |rest| ensures IsNew(rest, live, i) <==> IsNew(rows, live, i) {
      assert rest[i] == rows[i] && forall k | 0 <= k < i :: rest[k] == rows[k];
    }
  }

  lemma {:induction false} NewPicks(rows: seq<Bead>, live: seq<Bead>) returns (at: seq<nat>)
    ensures PicksExactly(rows, News(rows, live), NewRows(rows, Ids(live)), at)
  {
    at := [];
    if rows != [] {
      var n := |rows| - 1;
      var before := NewPicks(rows[..n], live);
      NewsSnoc(rows, live);
      LastIsNew(rows, live);
      PicksExactlySnoc(rows, News(rows, live), NewRows(rows[..n], Ids(live)), before);
      at := if IsNew(rows, live, n) then before + [n] else before;
      assert News(rows, live)[n] == IsNew(rows, live, n);
    }
  }

  lemma LastIsNew(rows: seq<Bead>, live: seq<Bead>)
    requires rows != []
    ensures var rest, last := rows[..|rows| - 1], rows[|rows| - 1];
            NewRows(rows, Ids(live)) == NewRows(rest, Ids(live)) + if IsNew(rows, live, |rows| - 1) then [last] else []
  {
    var rest, last := rows[..|rows| - 1], rows[|rows| - 1];
    assert last.id in Ids(live) <==> exists b | b in live :: b.id == last.id;
    if last.id != "" && last.id !in Ids(live) {
      NewIsUnseen(rest, live, last);
      assert forall k | 0 <= k < |rest| :: rest[k] == rows[k];
    }
  }

  /** The merge of an older and a newer read. With one of them empty it is the
      other; else the named newer rows, followed by the named older rows the
      newer ones do not list, each id once. */
  ghost predicate Merges(older: seq<Bead>, newer: seq<Bead>, out: seq<Bead>) {
    && (older == [] ==> out == newer) && (newer == [] ==> out == older)
    && (older != [] && newer != [] ==> exists head, tail :: out == head + tail && KeepsNamed(newer, head) && KeepsNew(older, newer, tail))
  }

  lemma MergeMerges(older: seq<Bead>, newer: seq<Bead>)
    ensures Merges(older, newer, Merge(older, newer))
  {
    if older != [] && newer != [] {
      var head, tail := Named(newer), NewRows(older, Ids(Named(newer)));
      var at := NamedPicks(newer);
      assert forall i: nat | i < |newer| :: i in at <==> HaveIds(newer)[i];
      assert KeepsNamed(newer, head);
      var bt := NewPicks(older, Named(newer));
      forall i: nat | i < |older| ensures IsNew(older, Named(newer), i) <==> IsNew(older, newer, i) {
        NamedIds(newer);
      }
      assert forall i: nat | i < |older| :: i in bt <==> News(older, Named(newer))[i];
      assert KeepsNew(older, newer, tail);
    }
  }

  // ---- the reply ---------------------------------------------------------------------

  ghost predicate Usable(r: Reply) {
    r.err.None? || HasPartial(r.err.value)
  }

  /** The reply when the authoritative read failed: what is usable of both
      tiers, and both errors; a reply with rows counts as partial. */
  ghost predicate Backfills(cached: Reply, live: Reply, out: Reply)
    requires live.err.Some?
  {
    var joined := if cached.err.None? then live.err.value else Joined(cached.err.value, live.err.value);
    && Merges(if Usable(cached) then cached.rows else [], if Usable(live) then live.rows else [], out.rows)
    && out.err == Some(if out.rows != [] && !HasPartial(joined) then PartialOf("controller ready demand", joined) else joined)
  }

  lemma BackfilledBackfills(cached: Reply, live: Reply)
    requires live.err.Some?
    ensures Backfills(cached, live, Backfilled(cached, live))
  {
    if cached.err.Some? {
      PartialIs(cached.err.value);
    }
    PartialIs(live.err.value);
    PartialIs(if cached.err.None? then live.err.value else Joined(cached.err.value, live.err.value));
    MergeMerges(Rows(cached), Rows(live));
  }

  /** A demand read: the live tier where the cache is unavailable or the live
      read is complete; the cached tier of a store without handles; else what
      both tiers give together. */
  lemma DemandReply(s: Store)
    ensures var unavailable := s.cached.err.Some? && Within(CacheUnavailable, s.cached.err.value);
            if unavailable then DemandReady(s) == s.live
            else if !s.explicitHandles then DemandReady(s) == s.cached
            else if s.live.err.None? then DemandReady(s) == s.live
            else Backfills(s.cached, s.live, DemandReady(s))
  {
    if s.cached.err.Some? {
      UnavailableIs(s.cached.err.value);
    }
    if s.live.err.Some? {
      BackfilledBackfills(s.cached, s.live);
    }
  }

  /** Every reply of a pass, whatever was memoised before it: a live read is the
      store's own selection, a demand read the reply above. */
  lemma RepliesAre(stores: map<string, Store>, calls: seq<Call>, replies: seq<Reply>, i: nat)
    requires AllAnswered(stores, calls, replies) && i < |replies|
    ensures |replies| <= |calls| && calls[i].store in stores
    ensures calls[i].LiveCall? ==> var s := stores[calls[i].store]; Selects(s.live.rows, calls[i].q, replies[i].rows) && replies[i].err == s.live.err
    ensures calls[i].DemandCall? ==> replies[i] == DemandReady(stores[calls[i].store])
  {
    assert Answers(stores, calls[i], replies[i]);
    if calls[i].LiveCall? {
      LiveSelects(stores[calls[i].store], calls[i].q);
    }
  }
}
