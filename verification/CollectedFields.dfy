/** The collection of assigned work in the fields of stores and beads
    (collectAssignedWorkBeadsWithStores in cmd/gc/build_desired_state.go). */
module CollectedFields {
  import opened Prelude
  import opened AssignedWork

  /** Rows of a list read that worked, or that failed in part. */
  ghost predicate Lists(l: Listing, b: Bead) {
    l.err != HardError && b in l.rows
  }

  /** Work already in progress, or an open molecule root that is itself the
      assigned turn: the first round's readiness. */
  ghost predicate ReadyWork(s: Source, b: Bead) {
    && !b.session
    && ((Lists(s.inProgress, b) && (Trim(b.assignee) != "" || b.recoverable))
        || (Lists(s.open, b) && b.status == "open" && Trim(b.assignee) != "" && b.turn))
  }

  /** Open routed work that still has an assignee: collected, never ready. */
  ghost predicate OrphanWork(s: Source, b: Bead) {
    !b.session && Lists(s.open, b) && Trim(b.assignee) != "" && Trim(b.route) != ""
  }

  /** Assigned work in the reads of the probe. */
  ghost predicate ProbedWork(s: Source, assignees: seq<string>, b: Bead) {
    && !b.session && Trim(b.assignee) != ""
    && if assignees == [] then b in s.ready else exists a | a in assignees && a in s.readyFor :: b in s.readyFor[a]
  }

  lemma ReadyFirstIs(s: Source, id: string)
    ensures id in ReadyFirst(s) <==> exists b: Bead :: b.id == id && ReadyWork(s, b)
  {
    if id in ReadyFirst(s) {
      if id in Admitted(InProgress, Used(s.inProgress)) {
        var b :| b in Used(s.inProgress) && Admits(InProgress, b) && b.id == id;
        assert ReadyWork(s, b);
      } else {
        var b :| b in Used(s.open) && Admits(MoleculeTurn, b) && b.id == id;
        assert ReadyWork(s, b);
      }
    }
    if b: Bead :| b.id == id && ReadyWork(s, b) {
      assert (b in Used(s.inProgress) && Admits(InProgress, b)) || (b in Used(s.open) && Admits(MoleculeTurn, b));
    }
  }

  lemma SeenFirstIs(s: Source, id: string)
    ensures id in SeenFirst(s) <==> exists b: Bead :: b.id == id && (ReadyWork(s, b) || OrphanWork(s, b))
  {
    ReadyFirstIs(s, id);
    if id in Admitted(OpenRouted, Used(s.open)) {
      var b :| b in Used(s.open) && Admits(OpenRouted, b) && b.id == id;
      assert OrphanWork(s, b);
    }
    if b: Bead :| b.id == id && OrphanWork(s, b) {
      assert b in Used(s.open) && Admits(OpenRouted, b);
    }
  }

  lemma {:induction false} ForEachIs(s: Source, assignees: seq<string>, b: Bead)
    ensures b in ForEach(s, assignees) <==> exists a | a in assignees && a in s.readyFor :: b in s.readyFor[a]
  {
    if assignees != [] {
      var rest, last := assignees[..|assignees| - 1], assignees[|assignees| - 1];
      assert assignees == rest + [last];
      ForEachIs(s, rest, b);
    }
  }

  lemma ProbeIs(s: Source, assignees: seq<string>, id: string)
    ensures id in Admitted(ReadyPass, ReadyRows(s, assignees)) <==> exists b: Bead :: b.id == id && ProbedWork(s, assignees, b)
  {
    forall b ensures b in ReadyRows(s, assignees) && Admits(ReadyPass, b) <==> ProbedWork(s, assignees, b) {
      ForEachIs(s, assignees, b);
    }
    if id in Admitted(ReadyPass, ReadyRows(s, assignees)) {
      var b :| b in ReadyRows(s, assignees) && Admits(ReadyPass, b) && b.id == id;
      assert ProbedWork(s, assignees, b);
    }
    if b: Bead :| b.id == id && ProbedWork(s, assignees, b) {
      assert b in ReadyRows(s, assignees);
    }
  }

  /** A key is ready after the first round exactly when its own store lists it
      as work in progress or as an assigned turn. */
  lemma ReadyExactlyWhen(sources: seq<Source>, ref: string, id: string)
    ensures ReadyIn(sources, ref, id) <==> exists s: Source, b: Bead :: s in sources && s.ref == ref && b.id == id && ReadyWork(s, b)
  {
    if s :| s in sources && s.ref == ref && id in ReadyFirst(s) {
      ReadyFirstIs(s, id);
    }
    if s: Source, b: Bead :| s in sources && s.ref == ref && b.id == id && ReadyWork(s, b) {
      ReadyFirstIs(s, id);
    }
  }

  lemma SeenExactlyWhen(sources: seq<Source>, ref: string, id: string)
    ensures SeenIn(sources, ref, id) <==>
            exists s: Source, b: Bead :: s in sources && s.ref == ref && b.id == id && (ReadyWork(s, b) || OrphanWork(s, b))
  {
    if s :| s in sources && s.ref == ref && id in SeenFirst(s) {
      SeenFirstIs(s, id);
    }
    if s: Source, b: Bead :| s in sources && s.ref == ref && b.id == id && (ReadyWork(s, b) || OrphanWork(s, b)) {
      SeenFirstIs(s, id);
    }
  }

  lemma ProbedExactlyWhen(sources: seq<Source>, assignees: seq<string>, ref: string, id: string)
    ensures ProbedReady(sources, assignees, ref, id) <==>
            exists s: Source, b: Bead :: s in sources && s.ref == ref && b.id == id && ProbedWork(s, assignees, b)
  {
    if s :| s in sources && s.ref == ref && id in Admitted(ReadyPass, ReadyRows(s, assignees)) {
      ProbeIs(s, assignees, id);
    }
    if s: Source, b: Bead :| s in sources && s.ref == ref && b.id == id && ProbedWork(s, assignees, b) {
      ProbeIs(s, assignees, id);
    }
  }

  /** Every collected row is work of the store and ref beside it. */
  lemma RowsAreWork(c: Collected, sources: seq<Source>, i: nat)
    requires Aligned(c, sources) && i < |c.beads|
    ensures |c.beads| == |c.stores| == |c.refs|
    ensures exists s: Source :: s in sources && s.ref == c.refs[i] && s.store == c.stores[i] &&
              (ReadyWork(s, c.beads[i]) || OrphanWork(s, c.beads[i])
               || (!c.beads[i].session && Trim(c.beads[i].assignee) != "" && (c.beads[i] in s.ready || exists a | a in s.readyFor :: c.beads[i] in s.readyFor[a])))
  {
    assert CameFrom(sources, c.beads[i], c.stores[i], c.refs[i]);
    var s :| s in sources && s.store == c.stores[i] && s.ref == c.refs[i] && Origin(s, c.beads[i]);
  }

  /** The probe is spared exactly the assignees of open or in-progress work
      that is ready in its own store. */
  lemma CapturedExactlyWhen(c: Collected, a: string)
    requires |c.beads| == |c.refs|
    ensures a in CapturedAssignees(c) <==>
            exists i | 0 <= i < |c.beads| ::
              && Trim(c.beads[i].assignee) == a != "" && (c.beads[i].status == "open" || c.beads[i].status == "in_progress")
              && (c.refs[i], c.beads[i].id) in c.ready
  {
  }

  /** and of every session that is known by one of them. */
  lemma {:induction false} SharersAreSkipped(captured: set<string>, sessions: seq<seq<string>>, a: string)
    requires SharesWithReady(captured, sessions, a)
    ensures a in Expand(captured, sessions)
  {
    if sessions == [] {
      assert a in captured;
    } else {
      var rest, ids := sessions[..|sessions| - 1], sessions[|sessions| - 1];
      assert sessions == rest + [ids];
      CapturedStay(captured, rest);
      if SharesWithReady(captured, rest, a) {
        SharersAreSkipped(captured, rest, a);
      } else {
        var t :| t in sessions && a in t && Touches(t, captured);
        assert t == ids;
        var k :| 0 <= k < |ids| && ids[k] in captured;
        assert Touches(ids, Expand(captured, rest));
      }
    }
  }

  lemma {:induction false} CapturedStay(captured: set<string>, sessions: seq<seq<string>>)
    ensures captured <= Expand(captured, sessions)
  {
    if sessions != [] {
      CapturedStay(captured, sessions[..|sessions| - 1]);
    }
  }

  lemma {:induction false} AllTrimmedIs(sessions: seq<seq<string>>, a: string)
    ensures a in AllTrimmed(sessions) <==> exists ids, id :: ids in sessions && id in ids && Trim(id) == a
  {
    if sessions != [] {
      var rest, last := sessions[..|sessions| - 1], sessions[|sessions| - 1];
      assert sessions == rest + [last];
      AllTrimmedIs(rest, a);
      if ids, id :| ids in sessions && id in ids && Trim(id) == a {
        assert ids in rest || ids == last;
      }
    }
  }

  /** The identities the probe chooses from: those of the sessions and the
      configured on-demand names, trimmed. */
  lemma IdentitiesAre(sessions: seq<seq<string>>, named: seq<string>, a: string)
    ensures a in Identities(sessions, named) <==>
            (exists ids, id :: ids in sessions && id in ids && Trim(id) == a) || exists id | id in named :: Trim(id) == a
  {
    AllTrimmedIs(sessions, a);
  }
}
