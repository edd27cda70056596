/** What a stamping pass writes, in the fields of sessions and rows
    (stampRunSessionIdentity in cmd/gc/build_desired_state.go). */
module StampResults {
  import opened Prelude
  import opened RunStamping

  /** The row is in progress in a known store, and `s` is the only session its
      assignee names. */
  ghost predicate ExecutedBy(sessions: seq<Info>, r: Row, s: Info) {
    && r.status == "in_progress" && r.store.Some? && Trim(r.assignee) != ""
    && s in sessions && Trim(r.assignee) in s.identities
    && forall x | x in sessions && Trim(r.assignee) in x.identities :: x == s
  }

  /** The name to stamp: the session name, else the alias, else the configured
      identity, whichever is the first with text. */
  ghost predicate IsName(s: Info, name: string) {
    if Trim(s.sessionName) != "" then name == Trim(s.sessionName)
    else if Trim(s.alias) != "" then name == Trim(s.alias)
    else name == Trim(s.namedIdentity)
  }

  lemma ResolvedIs(sessions: seq<Info>, r: Row, s: Info)
    requires ExecutedBy(sessions, r, s)
    ensures Resolved(sessions, Trim(r.assignee)) == Some(Match(s))
  {
    var a := Trim(r.assignee);
    FirstClaimantMeaning(sessions, a);
    var i :| 0 <= i < |sessions| && sessions[i] == s;
    assert sessions[i].id in Claimants(sessions, a);
    forall id | id in Claimants(sessions, a) ensures id == s.id {
      var k :| 0 <= k < |sessions| && a in sessions[k].identities && sessions[k].id == id;
      assert sessions[k] in sessions;
    }
    assert Claimants(sessions, a) == {s.id};
  }

  /** An executed row stamps its bead and, unless it is its own root, its run
      root with the session's name and work dir, if there is any. */
  lemma ExecutedRowStamps(sessions: seq<Info>, r: Row, s: Info, name: string)
    requires ExecutedBy(sessions, r, s) && IsName(s, name)
    ensures name == "" && Trim(s.workDir) == "" ==> JobOf(sessions, r) == None
    ensures name != "" || Trim(s.workDir) != "" ==>
              && JobOf(sessions, r).Some?
              && var j := JobOf(sessions, r).value;
                 && r.store == Some(j.store) && j.id == r.id && j.stamp == Stamp(name, Trim(s.workDir))
                 && j.root == (if Trim(r.rootId) == r.id then "" else Trim(r.rootId))
  {
    ResolvedIs(sessions, r, s);
  }

  /** Rows in any other state, without an assignee, or whose assignee names no
      session or sessions of two ids, stamp nothing. */
  lemma OtherRowsStampNothing(sessions: seq<Info>, r: Row)
    requires || r.status != "in_progress" || r.store.None? || Trim(r.assignee) == ""
             || (forall x | x in sessions :: Trim(r.assignee) !in x.identities)
             || (exists x, y :: x in sessions && y in sessions && Trim(r.assignee) in x.identities && Trim(r.assignee) in y.identities && x.id != y.id)
    ensures JobOf(sessions, r) == None
  {
    var a := Trim(r.assignee);
    FirstClaimantMeaning(sessions, a);
    if x, y :| x in sessions && y in sessions && a in x.identities && a in y.identities && x.id != y.id {
      var i :| 0 <= i < |sessions| && sessions[i] == x;
      var k :| 0 <= k < |sessions| && sessions[k] == y;
      assert {sessions[i].id, sessions[k].id} <= Claimants(sessions, a);
    }
  }

  /** What a write leaves: fields that differ from the stamp after trimming are
      replaced, fields the stamp does not have or that agree stay. */
  ghost predicate Overwritten(was: Meta, now: Meta, s: Stamp) {
    && now.sessionName == (if s.name == "" || Trim(was.sessionName) == s.name then was.sessionName else s.name)
    && now.workDir == (if s.dir == "" || Trim(was.workDir) == s.dir then was.workDir else s.dir)
  }

  lemma {:induction false} UntouchedKey(jobs: seq<Option<Job>>, meta: map<Key, Meta>, k: nat, key: Key)
    requires k <= |jobs| && key in meta && forall i | 0 <= i < k :: !Writes(jobs[i], key)
    ensures key in After(jobs, meta, k).meta && After(jobs, meta, k).meta[key] == meta[key]
  {
    ChangesComeFromJobs(jobs, meta, k, key);
  }

  /** After the row that alone writes a bead, the bead carries the stamp; no
      later row changes it. */
  lemma {:induction false} BeadAfter(jobs: seq<Option<Job>>, meta: map<Key, Meta>, i: nat, k: nat)
    requires i < k <= |jobs| && jobs[i].Some? && BeadKey(jobs[i].value) in meta && jobs[i].value.root != jobs[i].value.id
    requires forall m | 0 <= m < |jobs| && m != i :: !Writes(jobs[m], BeadKey(jobs[i].value))
    ensures var key := BeadKey(jobs[i].value);
            key in After(jobs, meta, k).meta && Overwritten(meta[key], After(jobs, meta, k).meta[key], jobs[i].value.stamp)
  {
    var key := BeadKey(jobs[i].value);
    if k == i + 1 {
      UntouchedKey(jobs, meta, i, key);
      ChangesComeFromJobs(jobs, meta, k, key);
    } else {
      BeadAfter(jobs, meta, i, k - 1);
      assert !Writes(jobs[k - 1], key);
      ChangesComeFromJobs(jobs, meta, k, key);
    }
  }

  lemma RootAtItsRow(jobs: seq<Option<Job>>, meta: map<Key, Meta>, i: nat)
    requires i < |jobs| && FirstForRoot(jobs, meta.Keys, i)
    requires forall m | 0 <= m < |jobs| && jobs[m].Some? :: BeadKey(jobs[m].value) != RootKey(jobs[i].value)
    ensures var key := RootKey(jobs[i].value);
            key in After(jobs, meta, i + 1).meta && Overwritten(meta[key], After(jobs, meta, i + 1).meta[key], jobs[i].value.stamp)
  {
    var key, root := RootKey(jobs[i].value), jobs[i].value.root;
    RootsDone(jobs, meta, i, root);
    ChangesComeFromJobs(jobs, meta, i, key);
    forall m | 0 <= m < i ensures !Writes(jobs[m], key) {
      assert HasRoot(jobs[m], meta.Keys) ==> jobs[m].value.root != root;
    }
    UntouchedKey(jobs, meta, i, key);
  }

  lemma RootStays(jobs: seq<Option<Job>>, meta: map<Key, Meta>, i: nat, k: nat)
    requires i < k < |jobs| && FirstForRoot(jobs, meta.Keys, i)
    requires forall m | 0 <= m < |jobs| && jobs[m].Some? :: BeadKey(jobs[m].value) != RootKey(jobs[i].value)
    ensures var key := RootKey(jobs[i].value);
            key in After(jobs, meta, k).meta && key in After(jobs, meta, k + 1).meta && After(jobs, meta, k + 1).meta[key] == After(jobs, meta, k).meta[key]
  {
    var key, root := RootKey(jobs[i].value), jobs[i].value.root;
    RootsDone(jobs, meta, k, root);
    assert HasRoot(jobs[i], meta.Keys);
    ChangesComeFromJobs(jobs, meta, k, key);
    ChangesComeFromJobs(jobs, meta, k + 1, key);
  }

  /** A run root that no row executes gets the stamp of the first row, in its
      store, that has it as root. */
  lemma {:induction false} RootAfter(jobs: seq<Option<Job>>, meta: map<Key, Meta>, i: nat, k: nat)
    requires i < k <= |jobs| && FirstForRoot(jobs, meta.Keys, i)
    requires forall m | 0 <= m < |jobs| && jobs[m].Some? :: BeadKey(jobs[m].value) != RootKey(jobs[i].value)
    ensures var key := RootKey(jobs[i].value);
            key in After(jobs, meta, k).meta && Overwritten(meta[key], After(jobs, meta, k).meta[key], jobs[i].value.stamp)
    decreases k
  {
    if k == i + 1 {
      RootAtItsRow(jobs, meta, i);
    } else {
      RootAfter(jobs, meta, i, k - 1);
      RootStays(jobs, meta, i, k - 1);
    }
  }

  /** The whole pass, for a row executed by one session: its bead ends with the
      session's name and work dir. */
  lemma ExecutedBeadCarriesItsSession(sessions: seq<Info>, rows: seq<Row>, meta: map<Key, Meta>, i: nat, s: Info, name: string)
    requires i < |rows| && ExecutedBy(sessions, rows[i], s) && IsName(s, name) && (name != "" || Trim(s.workDir) != "")
    requires (rows[i].store.value, rows[i].id) in meta && rows[i].id != ""
    requires forall m | 0 <= m < |rows| && m != i && rows[m].store == rows[i].store :: rows[m].id != rows[i].id && Trim(rows[m].rootId) != rows[i].id
    ensures var last := After(Jobs(sessions, rows), meta, |rows|).meta;
            var key := (rows[i].store.value, rows[i].id);
            key in last && Overwritten(meta[key], last[key], Stamp(name, Trim(s.workDir)))
  {
    var jobs := Jobs(sessions, rows);
    ExecutedRowStamps(sessions, rows[i], s, name);
    var key := BeadKey(jobs[i].value);
    forall m | 0 <= m < |jobs| && m != i ensures !Writes(jobs[m], key) {
      assert jobs[m] == JobOf(sessions, rows[m]);
    }
    BeadAfter(jobs, meta, i, |jobs|);
  }
}
