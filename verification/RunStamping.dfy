/** Stamping in-progress work with the session that runs it
    (buildSessionAssigneeIndex and stampRunSessionIdentity in
    cmd/gc/build_desired_state.go). */
module RunStamping {
  import opened Prelude

  /** An open session: every identity work can be assigned to it under, the
      names it may carry and its work dir. */
  datatype Info = Info(id: string, identities: seq<string>, sessionName: string, alias: string, namedIdentity: string, workDir: string)

  /** sessionBeadIdentifierInfo: the first name that is not blank. */
  function NameOf(i: Info): string {
    if !Blank(i.sessionName) then Trim(i.sessionName)
    else if !Blank(i.alias) then Trim(i.alias)
    else Trim(i.namedIdentity)
  }

  function StampOf(i: Info): Stamp {
    Stamp(NameOf(i), Trim(i.workDir))
  }

  datatype Match = Match(info: Info) | Ambiguous

  // ---- the assignee index ---------------------------------------------------------

  /** The distinct session ids that claim an identity. */
  function Claimants(sessions: seq<Info>, identity: string): set<string> {
    set i | 0 <= i < |sessions| && identity in sessions[i].identities :: sessions[i].id
  }

  function FirstClaimant(sessions: seq<Info>, identity: string): Option<Info> {
    if sessions == [] then None
    else if identity in sessions[0].identities then Some(sessions[0])
    else FirstClaimant(sessions[1..], identity)
  }

  /** What the index holds for an identity after some sessions. */
  function Resolved(sessions: seq<Info>, identity: string): Option<Match> {
    var first := FirstClaimant(sessions, identity);
    if first.None? then None
    else if Claimants(sessions, identity) == {first.value.id} then Some(Match(first.value))
    else Some(Ambiguous)
  }

  function Lookup(index: map<string, Match>, identity: string): Option<Match> {
    if identity in index then Some(index[identity]) else None
  }

  lemma {:induction false} FirstClaimantMeaning(sessions: seq<Info>, identity: string)
    ensures FirstClaimant(sessions, identity).Some? <==> Claimants(sessions, identity) != {}
    ensures FirstClaimant(sessions, identity).Some? ==>
              && FirstClaimant(sessions, identity).value in sessions
              && identity in FirstClaimant(sessions, identity).value.identities
              && FirstClaimant(sessions, identity).value.id in Claimants(sessions, identity)
  {
    if sessions != [] {
      FirstClaimantMeaning(sessions[1..], identity);
      if identity in sessions[0].identities {
        assert sessions[0].id in Claimants(sessions, identity);
      } else {
        ClaimantsTail(sessions, identity);
      }
    }
  }

  lemma ClaimantsTail(sessions: seq<Info>, identity: string)
    requires sessions != [] && identity !in sessions[0].identities
    ensures Claimants(sessions, identity) == Claimants(sessions[1..], identity)
  {
  }

  lemma ClaimantsSnoc(sessions: seq<Info>, s: Info, identity: string)
    ensures Claimants(sessions + [s], identity) == Claimants(sessions, identity) + if identity in s.identities then {s.id} else {}
  {
    var all := sessions + [s];
    forall id | id in Claimants(sessions, identity) ensures id in Claimants(all, identity) {
      var i :| 0 <= i < |sessions| && identity in sessions[i].identities && sessions[i].id == id;
      assert all[i] == sessions[i];
    }
    assert all[|sessions|] == s;
  }

  lemma {:induction false} FirstClaimantSnoc(sessions: seq<Info>, s: Info, identity: string)
    ensures FirstClaimant(sessions + [s], identity) ==
              if FirstClaimant(sessions, identity).Some? then FirstClaimant(sessions, identity)
              else if identity in s.identities then Some(s) else None
  {
    if sessions == [] {
      assert sessions + [s] == [s];
    } else {
      assert (sessions + [s])[1..] == sessions[1..] + [s];
      FirstClaimantSnoc(sessions[1..], s, identity);
    }
  }

  /** How one more claimant changes an entry. */
  function Claim(m: Option<Match>, s: Info): Match {
    if m.None? then Match(s)
    else if m.value.Match? && m.value.info.id != s.id then Ambiguous
    else m.value
  }

  lemma ResolvedSnoc(sessions: seq<Info>, s: Info, identity: string)
    ensures Resolved(sessions + [s], identity) ==
              if identity in s.identities then Some(Claim(Resolved(sessions, identity), s)) else Resolved(sessions, identity)
  {
    ClaimantsSnoc(sessions, s, identity);
    FirstClaimantSnoc(sessions, s, identity);
    FirstClaimantMeaning(sessions, identity);
  }

  /** Adding the identities of one session, repeats included. */
  method AddSession(index: map<string, Match>, s: Info) returns (out: map<string, Match>)
    ensures forall x :: Lookup(out, x) == if x in s.identities then Some(Claim(Lookup(index, x), s)) else Lookup(index, x)
  {
    out := index;
    for i := 0 to |s.identities|
      invariant forall x :: Lookup(out, x) == if x in s.identities[..i] then Some(Claim(Lookup(index, x), s)) else Lookup(index, x)
    {
      var identity := s.identities[i];
      if identity in out {
        if out[identity].Match? && out[identity].info.id != s.id {
          out := out[identity := Ambiguous];
        }
        continue;
      }
      out := out[identity := Match(s)];
    }
    assert s.identities[..|s.identities|] == s.identities;
  }

  method BuildSessionAssigneeIndex(sessions: seq<Info>) returns (index: map<string, Match>)
    ensures forall x :: Lookup(index, x) == Resolved(sessions, x)
  {
    index := map[];
    for i := 0 to |sessions|
      invariant forall x :: Lookup(index, x) == Resolved(sessions[..i], x)
    {
      var s := sessions[i];
      index := AddSession(index, s);
      assert sessions[..i + 1] == sessions[..i] + [s];
      forall x ensures Lookup(index, x) == Resolved(sessions[..i + 1], x) {
        ResolvedSnoc(sessions[..i], s, x);
      }
    }
    assert sessions[..|sessions|] == sessions;
  }

  lemma SameClaimants(a: seq<Info>, b: seq<Info>, identity: string)
    requires multiset(a) == multiset(b)
    ensures Claimants(a, identity) <= Claimants(b, identity)
  {
    forall id | id in Claimants(a, identity) ensures id in Claimants(b, identity) {
      var i :| 0 <= i < |a| && identity in a[i].identities && a[i].id == id;
      assert a[i] in multiset(a);
      var j :| 0 <= j < |b| && b[j] == a[i];
    }
  }

  /** An identity is usable exactly when one distinct session id claims it, and
      for every order of the sessions it then names that session. */
  lemma UsableExactlyWhenOneClaims(sessions: seq<Info>, order: seq<Info>, identity: string)
    requires multiset(order) == multiset(sessions)
    ensures var m := Resolved(order, identity);
            (m.Some? && m.value.Match?) <==> exists id :: Claimants(sessions, identity) == {id}
    ensures var m := Resolved(order, identity);
            m.Some? && m.value.Match? ==> m.value.info in sessions && Claimants(sessions, identity) == {m.value.info.id}
  {
    SameClaimants(order, sessions, identity);
    SameClaimants(sessions, order, identity);
    FirstClaimantMeaning(order, identity);
    var m := Resolved(order, identity);
    if m.Some? && m.value.Match? {
      assert m.value.info in multiset(order);
    }
    if id :| Claimants(sessions, identity) == {id} {
      assert FirstClaimant(order, identity).value.id in {id};
    }
  }

  // ---- stamping --------------------------------------------------------------------------

  datatype Meta = Meta(sessionName: string, workDir: string)

  type Key = (nat, string)  // a store and a bead id

  /** An assigned work bead of the pass. */
  datatype Row = Row(store: Option<nat>, id: string, status: string, assignee: string, rootId: string)

  datatype Stamp = Stamp(name: string, dir: string)

  /** What a row has to write: a stamp on its bead and, unless `root` is empty,
      on its run root. */
  datatype Job = Job(store: nat, id: string, root: string, stamp: Stamp)

  /** The job of a row, None when it is not executed by one known session. */
  function JobOf(sessions: seq<Info>, r: Row): Option<Job> {
    var m := Resolved(sessions, Trim(r.assignee));
    if r.status != "in_progress" || r.store.None? || Blank(r.assignee) || m.None? || m.value.Ambiguous? then None
    else if StampOf(m.value.info) == Stamp("", "") then None
    else Some(Job(r.store.value, r.id, if Trim(r.rootId) == r.id then "" else Trim(r.rootId), StampOf(m.value.info)))
  }

  function Jobs(sessions: seq<Info>, rows: seq<Row>): (jobs: seq<Option<Job>>)
    ensures |jobs| == |rows| && forall i | 0 <= i < |rows| :: jobs[i] == JobOf(sessions, rows[i])
  {
    seq(|rows|, i requires 0 <= i < |rows| => JobOf(sessions, rows[i]))
  }

  predicate Carries(m: Meta, s: Stamp) {
    (s.name != "" ==> Trim(m.sessionName) == s.name) && (s.dir != "" ==> Trim(m.workDir) == s.dir)
  }

  /** Writes the keys that differ in what was read. */
  function Patched(cur: Meta, read: Meta, s: Stamp): Meta {
    Meta(if s.name != "" && Trim(read.sessionName) != s.name then s.name else cur.sessionName,
         if s.dir != "" && Trim(read.workDir) != s.dir then s.dir else cur.workDir)
  }

  /** The pass in progress: metadata, roots done, number of writes. */
  datatype State = State(meta: map<Key, Meta>, roots: set<string>, writes: nat)

  function Write(st: State, key: Key, read: Meta, s: Stamp): State
    requires key in st.meta
  {
    if Carries(read, s) then st
    else st.(meta := st.meta[key := Patched(st.meta[key], read, s)], writes := st.writes + 1)
  }

  function BeadKey(j: Job): Key {
    (j.store, j.id)
  }

  function RootKey(j: Job): Key {
    (j.store, j.root)
  }

  /** The run root is back-filled once per root per pass, if its store has it. */
  predicate StampsRoot(st: State, j: Job) {
    j.root != "" && j.root !in st.roots && RootKey(j) in st.meta
  }

  function StampRoot(st: State, j: Job): State {
    if StampsRoot(st, j)
    then Write(st.(roots := st.roots + {j.root}), RootKey(j), st.meta[RootKey(j)], j.stamp)
    else st
  }

  /** A bead gone from its store is a failed write, which is skipped. */
  function StampBead(st: State, read: map<Key, Meta>, j: Job): State {
    if BeadKey(j) in read && BeadKey(j) in st.meta then Write(st, BeadKey(j), read[BeadKey(j)], j.stamp) else st
  }

  /** One row; `read` is the metadata its bead carried when it was collected. */
  function StampRow(st: State, read: map<Key, Meta>, j: Option<Job>): State {
    if j.None? then st
    else StampRoot(StampBead(st, read, j.value), j.value)
  }

  /** The pass over the first k rows. */
  function After(jobs: seq<Option<Job>>, meta: map<Key, Meta>, k: nat): State
    requires k <= |jobs|
  {
    if k == 0 then State(meta, {}, 0) else StampRow(After(jobs, meta, k - 1), meta, jobs[k - 1])
  }

  class Stores {
    var meta: map<Key, Meta>
    var writes: nat

    method SetMetadata(key: Key, read: Meta, s: Stamp, ghost roots: set<string>)
      requires key in meta
      modifies this
      ensures State(meta, roots, writes) == Write(State(old(meta), roots, old(writes)), key, read, s)
    {
      if Carries(read, s) {
        return;
      }
      meta := meta[key := Patched(meta[key], read, s)];
      writes := writes + 1;
    }

    /** One job: its bead, then its run root. */
    method StampOne(read: map<Key, Meta>, j: Job, stampedRoots: set<string>) returns (roots: set<string>)
      modifies this
      ensures State(meta, roots, writes) == StampRow(State(old(meta), stampedRoots, old(writes)), read, Some(j))
    {
      roots := stampedRoots;
      if BeadKey(j) in read && BeadKey(j) in meta {
        SetMetadata(BeadKey(j), read[BeadKey(j)], j.stamp, roots);
      }
      if j.root == "" || j.root in roots || RootKey(j) !in meta {
        return;
      }
      roots := roots + {j.root};
      SetMetadata(RootKey(j), meta[RootKey(j)], j.stamp, roots);
    }

    /** stampRunSessionIdentity over the collected rows. */
    method StampRunSessionIdentity(sessions: seq<Info>, rows: seq<Row>)
      requires writes == 0
      modifies this
      ensures var last := After(Jobs(sessions, rows), old(meta), |rows|); meta == last.meta && writes == last.writes
    {
      var read := meta;
      var index := BuildSessionAssigneeIndex(sessions);
      var stampedRoots: set<string> := {};
      ghost var jobs := Jobs(sessions, rows);
      for k := 0 to |rows|
        invariant After(jobs, old(meta), k) == State(meta, stampedRoots, writes)
        invariant read == old(meta)
      {
        var r := rows[k];
        var assignee := Trim(r.assignee);
        assert Lookup(index, assignee) == Resolved(sessions, assignee);
        if r.status != "in_progress" || r.store.None? || assignee == "" || assignee !in index || index[assignee].Ambiguous? {
          continue;
        }
        var info := index[assignee].info;
        var stamp := StampOf(info);
        if stamp.name == "" && stamp.dir == "" {
          continue;
        }
        var root := Trim(r.rootId);
        stampedRoots := StampOne(read, Job(r.store.value, r.id, if root == r.id then "" else root, stamp), stampedRoots);
      }
    }
  }

  // ---- only unambiguous sessions ---------------------------------------------------------

  predicate Writes(j: Option<Job>, key: Key) {
    j.Some? && (key == BeadKey(j.value) || key == RootKey(j.value))
  }

  lemma {:induction false} ChangesComeFromJobs(jobs: seq<Option<Job>>, meta: map<Key, Meta>, k: nat, key: Key)
    requires k <= |jobs|
    ensures After(jobs, meta, k).meta.Keys == meta.Keys
    ensures key in meta && After(jobs, meta, k).meta[key] != meta[key] ==> exists i | 0 <= i < k :: Writes(jobs[i], key)
  {
    if k > 0 {
      ChangesComeFromJobs(jobs, meta, k - 1, key);
      assert Writes(jobs[k - 1], key) || !Writes(jobs[k - 1], key);
    }
  }

  /** Metadata changes only through a row whose assignee exactly one session
      id claims, and the job carries that session's name and dir. */
  lemma ChangesComeFromOneClaimant(sessions: seq<Info>, rows: seq<Row>, meta: map<Key, Meta>, key: Key)
    requires key in meta && key in After(Jobs(sessions, rows), meta, |rows|).meta
    requires After(Jobs(sessions, rows), meta, |rows|).meta[key] != meta[key]
    ensures exists i, s | 0 <= i < |rows| && s in sessions ::
              && Writes(JobOf(sessions, rows[i]), key)
              && JobOf(sessions, rows[i]).value.stamp == StampOf(s)
              && Claimants(sessions, Trim(rows[i].assignee)) == {s.id}
  {
    ChangesComeFromJobs(Jobs(sessions, rows), meta, |rows|, key);
    var i :| 0 <= i < |rows| && Writes(Jobs(sessions, rows)[i], key);
    UsableExactlyWhenOneClaims(sessions, sessions, Trim(rows[i].assignee));
    var s := Resolved(sessions, Trim(rows[i].assignee)).value.info;
    assert s in sessions && Writes(JobOf(sessions, rows[i]), key);
  }

  // ---- a second pass writes nothing -------------------------------------------------------

  /** The two stamped fields, taken one at a time. */
  datatype Field = Name | Dir

  function At(m: Meta, c: Field): string {
    if c.Name? then m.sessionName else m.workDir
  }

  function Want(s: Stamp, c: Field): string {
    if c.Name? then s.name else s.dir
  }

  /** Two stamps that never ask for different values of one field. */
  predicate Agree(s: Stamp, t: Stamp) {
    && (s.name == "" || t.name == "" || s.name == t.name)
    && (s.dir == "" || t.dir == "" || s.dir == t.dir)
  }

  /** Row i is the first whose run root has that id and is in its own store. */
  predicate FirstForRoot(jobs: seq<Option<Job>>, keys: set<Key>, i: nat)
    requires i < |jobs|
  {
    && HasRoot(jobs[i], keys)
    && forall k | 0 <= k < i && HasRoot(jobs[k], keys) :: jobs[k].value.root != jobs[i].value.root
  }

  predicate HasRoot(j: Option<Job>, keys: set<Key>) {
    j.Some? && j.value.root != "" && RootKey(j.value) in keys
  }

  /** Stamps come trimmed, and a bead collected twice has one job. */
  ghost predicate Orderly(jobs: seq<Option<Job>>) {
    && (forall i | 0 <= i < |jobs| && jobs[i].Some? :: Trimmed(jobs[i].value.stamp))
    && (forall i, k | 0 <= i < |jobs| && 0 <= k < |jobs| && jobs[i].Some? && jobs[k].Some? ::
          BeadKey(jobs[i].value) == BeadKey(jobs[k].value) ==> jobs[i] == jobs[k])
  }

  predicate Trimmed(s: Stamp) {
    Trim(s.name) == s.name && Trim(s.dir) == s.dir
  }

  /** A run root that is itself executed work gets no contradicting stamp from
      the step that back-fills it. */
  ghost predicate Settles(jobs: seq<Option<Job>>, keys: set<Key>) {
    forall i, k | 0 <= i < |jobs| && 0 <= k < |jobs| && FirstForRoot(jobs, keys, i) && jobs[k].Some? ::
      BeadKey(jobs[k].value) == RootKey(jobs[i].value) ==> Agree(jobs[i].value.stamp, jobs[k].value.stamp)
  }

  // The roots done and the rows that stamp one depend on the keys alone.

  lemma {:induction false} RootsDone(jobs: seq<Option<Job>>, meta: map<Key, Meta>, k: nat, root: string)
    requires k <= |jobs|
    ensures After(jobs, meta, k).meta.Keys == meta.Keys
    ensures root in After(jobs, meta, k).roots <==> exists i | 0 <= i < k :: HasRoot(jobs[i], meta.Keys) && jobs[i].value.root == root
  {
    if k > 0 {
      RootsDone(jobs, meta, k - 1, root);
      if jobs[k - 1].Some? {
        RootsDone(jobs, meta, k - 1, jobs[k - 1].value.root);
      }
    }
  }

  lemma StampsRootIsFirst(jobs: seq<Option<Job>>, meta: map<Key, Meta>, i: nat)
    requires i < |jobs| && jobs[i].Some?
    ensures StampsRoot(After(jobs, meta, i), jobs[i].value) <==> FirstForRoot(jobs, meta.Keys, i)
    ensures StampsRoot(StampBead(After(jobs, meta, i), meta, jobs[i].value), jobs[i].value) <==> FirstForRoot(jobs, meta.Keys, i)
  {
    RootsDone(jobs, meta, i, jobs[i].value.root);
  }

  // One field of one key through a pass.

  /** The field holds `want`, or still what it held before. */
  ghost predicate FieldIs(st: State, meta: map<Key, Meta>, key: Key, c: Field, want: string, done: bool)
    requires key in meta && key in st.meta
  {
    Trim(At(st.meta[key], c)) == want || (!done && At(st.meta[key], c) == At(meta[key], c))
  }

  /** A write that asks for the same or for nothing keeps it, and one that asks
      for it settles it, on the stale read of a bead and on the fresh one of a
      root alike. */
  lemma FieldWrite(st: State, meta: map<Key, Meta>, at: Key, read: Meta, s: Stamp, key: Key, c: Field, want: string, done: bool)
    requires key in meta && key in st.meta && at in st.meta && FieldIs(st, meta, key, c, want, done)
    requires want != "" && Trim(want) == want
    requires at == key ==> Want(s, c) in {"", want} && (read == meta[key] || read == st.meta[key])
    ensures FieldIs(Write(st, at, read, s), meta, key, c, want, done || (at == key && Want(s, c) == want))
  {
  }

  /** Every write of the pass to the key asks for `want` or for nothing. */
  ghost predicate OnlyWants(jobs: seq<Option<Job>>, meta: map<Key, Meta>, key: Key, c: Field, want: string) {
    forall i | 0 <= i < |jobs| && jobs[i].Some? ::
      && (BeadKey(jobs[i].value) == key ==> Want(jobs[i].value.stamp, c) in {"", want})
      && (FirstForRoot(jobs, meta.Keys, i) && RootKey(jobs[i].value) == key ==> Want(jobs[i].value.stamp, c) in {"", want})
  }

  /** Row i asks for `want` at the key. */
  predicate Asks(jobs: seq<Option<Job>>, meta: map<Key, Meta>, i: nat, key: Key, c: Field, want: string)
    requires i < |jobs|
  {
    && jobs[i].Some? && Want(jobs[i].value.stamp, c) == want
    && (BeadKey(jobs[i].value) == key || (FirstForRoot(jobs, meta.Keys, i) && RootKey(jobs[i].value) == key))
  }

  lemma FieldRow(jobs: seq<Option<Job>>, meta: map<Key, Meta>, i: nat, key: Key, c: Field, want: string, done: bool)
    requires i < |jobs| && key in meta && want != "" && Trim(want) == want && OnlyWants(jobs, meta, key, c, want)
    requires After(jobs, meta, i).meta.Keys == meta.Keys && FieldIs(After(jobs, meta, i), meta, key, c, want, done)
    ensures After(jobs, meta, i + 1).meta.Keys == meta.Keys
    ensures FieldIs(After(jobs, meta, i + 1), meta, key, c, want, done || Asks(jobs, meta, i, key, c, want))
  {
    if jobs[i].Some? {
      var st, j := After(jobs, meta, i), jobs[i].value;
      StampsRootIsFirst(jobs, meta, i);
      if BeadKey(j) in meta {
        FieldWrite(st, meta, BeadKey(j), meta[BeadKey(j)], j.stamp, key, c, want, done);
      }
      var mid := StampBead(st, meta, j);
      var bead := done || (BeadKey(j) == key && Want(j.stamp, c) == want);
      if StampsRoot(mid, j) {
        FieldWrite(mid.(roots := mid.roots + {j.root}), meta, RootKey(j), mid.meta[RootKey(j)], j.stamp, key, c, want, bead);
      }
    }
  }

  /** Once some row asked for it, the key carries the value to the end. */
  lemma {:induction false} FieldStays(jobs: seq<Option<Job>>, meta: map<Key, Meta>, k: nat, i: nat, key: Key, c: Field, want: string)
    requires i < |jobs| && k <= |jobs| && key in meta && want != "" && Trim(want) == want
    requires OnlyWants(jobs, meta, key, c, want) && Asks(jobs, meta, i, key, c, want)
    ensures After(jobs, meta, k).meta.Keys == meta.Keys
    ensures FieldIs(After(jobs, meta, k), meta, key, c, want, i < k)
  {
    if k == 0 {
      assert After(jobs, meta, 0).meta == meta;
    } else {
      FieldStays(jobs, meta, k - 1, i, key, c, want);
      FieldRow(jobs, meta, k - 1, key, c, want, i < k - 1);
      assert i < k ==> i < k - 1 || Asks(jobs, meta, k - 1, key, c, want);
    }
  }

  // A settled list.

  /** Where stamps agree, all writes to a key ask for what one of them asks. */
  lemma AgreeingWants(jobs: seq<Option<Job>>, meta: map<Key, Meta>, i: nat, key: Key, c: Field)
    requires i < |jobs| && Orderly(jobs) && Settles(jobs, meta.Keys) && jobs[i].Some? && Want(jobs[i].value.stamp, c) != ""
    requires Asks(jobs, meta, i, key, c, Want(jobs[i].value.stamp, c))
    ensures OnlyWants(jobs, meta, key, c, Want(jobs[i].value.stamp, c))
  {
    var want := Want(jobs[i].value.stamp, c);
    forall k | 0 <= k < |jobs| && jobs[k].Some?
      ensures BeadKey(jobs[k].value) == key ==> Want(jobs[k].value.stamp, c) in {"", want}
      ensures FirstForRoot(jobs, meta.Keys, k) && RootKey(jobs[k].value) == key ==> Want(jobs[k].value.stamp, c) in {"", want}
    {
      if BeadKey(jobs[i].value) != key && FirstForRoot(jobs, meta.Keys, k) && RootKey(jobs[k].value) == key {
        assert i == k;
      }
    }
  }

  lemma CarriesAfter(jobs: seq<Option<Job>>, meta: map<Key, Meta>, i: nat, key: Key)
    requires i < |jobs| && Orderly(jobs) && Settles(jobs, meta.Keys) && jobs[i].Some? && key in meta
    requires BeadKey(jobs[i].value) == key || (FirstForRoot(jobs, meta.Keys, i) && RootKey(jobs[i].value) == key)
    ensures After(jobs, meta, |jobs|).meta.Keys == meta.Keys
    ensures Carries(After(jobs, meta, |jobs|).meta[key], jobs[i].value.stamp)
  {
    RootsDone(jobs, meta, |jobs|, "");
    forall c: Field | Want(jobs[i].value.stamp, c) != ""
      ensures Trim(At(After(jobs, meta, |jobs|).meta[key], c)) == Want(jobs[i].value.stamp, c)
    {
      AgreeingWants(jobs, meta, i, key, c);
      FieldStays(jobs, meta, |jobs|, i, key, c, Want(jobs[i].value.stamp, c));
    }
    assert Want(jobs[i].value.stamp, Name) == jobs[i].value.stamp.name && Want(jobs[i].value.stamp, Dir) == jobs[i].value.stamp.dir;
  }

  lemma {:induction false} SettledPass(jobs: seq<Option<Job>>, meta: map<Key, Meta>, k: nat)
    requires k <= |jobs| && Orderly(jobs) && Settles(jobs, meta.Keys)
    ensures var done := After(jobs, meta, |jobs|).meta; After(jobs, done, k).meta == done && After(jobs, done, k).writes == 0
  {
    var done := After(jobs, meta, |jobs|).meta;
    RootsDone(jobs, meta, |jobs|, "");
    if k > 0 {
      SettledPass(jobs, meta, k - 1);
      if jobs[k - 1].Some? {
        var j := jobs[k - 1].value;
        StampsRootIsFirst(jobs, done, k - 1);
        if BeadKey(j) in meta {
          CarriesAfter(jobs, meta, k - 1, BeadKey(j));
        }
        if FirstForRoot(jobs, meta.Keys, k - 1) {
          CarriesAfter(jobs, meta, k - 1, RootKey(j));
        }
      }
    }
  }

  // A list that settles nowhere else.

  /** A pass without writes found every stamp in place. */
  lemma {:induction false} QuietRow(jobs: seq<Option<Job>>, meta: map<Key, Meta>, i: nat, k: nat)
    requires i < k <= |jobs| && After(jobs, meta, k).writes == 0
    ensures After(jobs, meta, i) == After(jobs, meta, i).(meta := meta, writes := 0)
    ensures jobs[i].Some? && BeadKey(jobs[i].value) in meta ==> Carries(meta[BeadKey(jobs[i].value)], jobs[i].value.stamp)
    ensures FirstForRoot(jobs, meta.Keys, i) ==> Carries(meta[RootKey(jobs[i].value)], jobs[i].value.stamp)
    decreases k
  {
    var before := After(jobs, meta, k - 1);
    RootsDone(jobs, meta, k - 1, "");
    assert before.writes == 0;
    if i < k - 1 {
      QuietRow(jobs, meta, i, k - 1);
    } else {
      QuietPrefix(jobs, meta, i);
      if jobs[i].Some? {
        StampsRootIsFirst(jobs, meta, i);
      }
    }
  }

  lemma {:induction false} QuietPrefix(jobs: seq<Option<Job>>, meta: map<Key, Meta>, k: nat)
    requires k <= |jobs| && After(jobs, meta, k).writes == 0
    ensures After(jobs, meta, k).meta == meta
  {
    if k > 0 {
      RootsDone(jobs, meta, k - 1, "");
      QuietPrefix(jobs, meta, k - 1);
    }
  }

  /** With successful writes, a second pass over the same rows in the same order
      writes nothing exactly when no step back-fills a run root, itself executed
      work, with a contradicting stamp. */
  lemma QuietExactlyWhen(jobs: seq<Option<Job>>, meta: map<Key, Meta>)
    requires Orderly(jobs)
    ensures var done := After(jobs, meta, |jobs|).meta;
            After(jobs, done, |jobs|).writes == 0 <==> Settles(jobs, meta.Keys)
  {
    var done := After(jobs, meta, |jobs|).meta;
    RootsDone(jobs, meta, |jobs|, "");
    if Settles(jobs, meta.Keys) {
      SettledPass(jobs, meta, |jobs|);
    }
    if After(jobs, done, |jobs|).writes == 0 {
      forall i, k | 0 <= i < |jobs| && 0 <= k < |jobs| && FirstForRoot(jobs, meta.Keys, i) && jobs[k].Some?
                    && BeadKey(jobs[k].value) == RootKey(jobs[i].value)
        ensures Agree(jobs[i].value.stamp, jobs[k].value.stamp)
      {
        QuietRow(jobs, done, i, |jobs|);
        QuietRow(jobs, done, k, |jobs|);
      }
    }
  }

  /** The same for the rows of a pass: rows of one bead are one row. */
  lemma SecondPassWritesNothingExactlyWhen(sessions: seq<Info>, rows: seq<Row>, meta: map<Key, Meta>)
    requires forall i, k | 0 <= i < |rows| && 0 <= k < |rows| :: rows[i].store == rows[k].store && rows[i].id == rows[k].id ==> rows[i] == rows[k]
    ensures var jobs := Jobs(sessions, rows);
            var done := After(jobs, meta, |rows|).meta;
            After(jobs, done, |rows|).writes == 0 <==> Settles(jobs, meta.Keys)
  {
    var jobs := Jobs(sessions, rows);
    forall i | 0 <= i < |jobs| && jobs[i].Some? ensures Trimmed(jobs[i].value.stamp) {
      StampIsTrimmed(Resolved(sessions, Trim(rows[i].assignee)).value.info);
    }
    QuietExactlyWhen(jobs, meta);
  }

  lemma StampIsTrimmed(i: Info)
    ensures Trimmed(StampOf(i))
  {
    TrimIdempotent(i.sessionName);
    TrimIdempotent(i.alias);
    TrimIdempotent(i.namedIdentity);
    TrimIdempotent(i.workDir);
  }

  /** A step and its run root executed by two named sessions: whatever the
      metadata was, the second pass writes again. */
  lemma SharedRootNeverSettles(step: Job, root: Job, meta: map<Key, Meta>)
    requires RootKey(step) == BeadKey(root) && step.root != "" && step.id != root.id && BeadKey(root) in meta
    requires Trimmed(step.stamp) && Trimmed(root.stamp)
    requires step.stamp.name != "" && root.stamp.name != "" && step.stamp.name != root.stamp.name
    ensures var jobs := [Some(step), Some(root)];
            After(jobs, After(jobs, meta, 2).meta, 2).writes > 0
  {
    var jobs := [Some(step), Some(root)];
    assert FirstForRoot(jobs, meta.Keys, 0) && !Agree(jobs[0].value.stamp, jobs[1].value.stamp);
    QuietExactlyWhen(jobs, meta);
  }
}
