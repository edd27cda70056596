/** Default pool demand (defaultScaleCheckCountsAndDemand in
    cmd/gc/build_desired_state.go): ready, unassigned, routed work counted once
    per template across every probed store. */
module ScaleDemand {
  import opened Prelude

  /** `route` is gc.routed_to or the legacy workflow target, untrimmed;
      `workflowRoot` marks a graph.v2 workflow root. */
  datatype Bead = Bead(id: string, assignee: string, route: string, workflowRoot: bool)

  datatype ReadError = NoError | Partial | Hard

  datatype Ready = Ready(rows: seq<Bead>, err: ReadError)

  /** A template's probe of one store; `err` is a resolution error it carries. */
  datatype Target = Target(template: string, storeKey: string, store: Option<string>, err: bool)

  /** A store key, or the store's own pointer when a target names none. */
  datatype Key = Named(name: string) | Pointer(store: string)

  datatype Group = Group(store: string, templates: set<string>)

  predicate Probes(t: Target) {
    !Blank(t.template) && t.store.Some?
  }

  function KeyOf(t: Target): Key
    requires t.store.Some?
  {
    if Blank(t.storeKey) then Pointer(t.store.value) else Named(Trim(t.storeKey))
  }

  /** Routes that name a pool instance count for the instance's base template. */
  function Normalize(bases: map<string, string>, route: string): string {
    var r := Trim(route);
    if r in bases then bases[r] else r
  }

  /** The bead is demand for the template. */
  predicate Counts(bases: map<string, string>, b: Bead, template: string) {
    Blank(b.assignee) && !b.workflowRoot && !Blank(b.route) && Normalize(bases, b.route) == template
  }

  /** The rows a probe counts: a hard read error counts none. */
  function Effective(r: Ready): seq<Bead> {
    if r.err == Hard then [] else r.rows
  }

  // ---- the specification ----------------------------------------------------------

  /** The store a key probes: that of the first target with the key. */
  function FirstStore(targets: seq<Target>, key: Key): Option<string> {
    if targets == [] then None
    else if Probes(targets[0]) && KeyOf(targets[0]) == key then targets[0].store
    else FirstStore(targets[1..], key)
  }

  ghost predicate ProbesFor(targets: seq<Target>, key: Key, template: string) {
    exists i | 0 <= i < |targets| ::
      Probes(targets[i]) && KeyOf(targets[i]) == key && Trim(targets[i].template) == template
  }

  ghost predicate FoundIn(bases: map<string, string>, r: Ready, template: string, id: string) {
    exists b | b in Effective(r) :: b.id == id && Counts(bases, b, template)
  }

  /** The bead id is demand for the template through some store key. */
  ghost predicate Demanded(bases: map<string, string>, targets: seq<Target>, stores: map<string, Ready>, template: string, id: string) {
    exists key, s :: ProbesFor(targets, key, template) && FirstStore(targets, key) == Some(s) && s in stores &&
                     FoundIn(bases, stores[s], template, id)
  }

  ghost predicate Mentions(targets: seq<Target>, n: string) {
    n != "" && exists i | 0 <= i < |targets| :: Trim(targets[i].template) == n
  }

  /** A target of the template carries an error or has no store. */
  ghost predicate Lacks(targets: seq<Target>, n: string) {
    n != "" && exists i | 0 <= i < |targets| :: Trim(targets[i].template) == n && (targets[i].err || targets[i].store.None?)
  }

  lemma NamesSnoc(targets: seq<Target>, t: Target, n: string)
    ensures Mentions(targets + [t], n) <==> Mentions(targets, n) || Trim(t.template) == n != ""
    ensures Lacks(targets + [t], n) <==> Lacks(targets, n) || (Trim(t.template) == n != "" && (t.err || t.store.None?))
  {
    var all := targets + [t];
    assert all[|targets|] == t;
    assert forall i | 0 <= i < |targets| :: all[i] == targets[i];
  }

  /** A probe of the template lacked a store, carried an error, or failed. */
  ghost predicate IsPartial(targets: seq<Target>, stores: map<string, Ready>, template: string) {
    || Lacks(targets, template)
    || (exists key, s :: ProbesFor(targets, key, template) && FirstStore(targets, key) == Some(s) && s in stores && stores[s].err != NoError)
  }

  predicate StoresKnown(targets: seq<Target>, stores: map<string, Ready>) {
    forall i | 0 <= i < |targets| && targets[i].store.Some? :: targets[i].store.value in stores
  }

  // ---- grouping --------------------------------------------------------------------

  ghost predicate GroupsOf(targets: seq<Target>, groups: map<Key, Group>) {
    && (forall key :: key in groups <==> FirstStore(targets, key).Some?)
    && (forall key | key in groups ::
          && FirstStore(targets, key) == Some(groups[key].store)
          && (forall t :: t in groups[key].templates <==> ProbesFor(targets, key, t)))
  }

  lemma {:induction false} FirstStoreSnoc(targets: seq<Target>, t: Target, key: Key)
    ensures FirstStore(targets + [t], key) ==
              if FirstStore(targets, key).Some? then FirstStore(targets, key)
              else if Probes(t) && KeyOf(t) == key then t.store else None
  {
    if targets == [] {
      assert targets + [t] == [t];
    } else {
      assert (targets + [t])[1..] == targets[1..] + [t];
      FirstStoreSnoc(targets[1..], t, key);
    }
  }

  lemma ProbesForSnoc(targets: seq<Target>, t: Target, key: Key, template: string)
    ensures ProbesFor(targets + [t], key, template) <==>
              ProbesFor(targets, key, template) || (Probes(t) && KeyOf(t) == key && Trim(t.template) == template)
  {
    var all := targets + [t];
    if i :| 0 <= i < |targets| && Probes(targets[i]) && KeyOf(targets[i]) == key && Trim(targets[i].template) == template {
      assert all[i] == targets[i];
    }
    assert all[|targets|] == t;
  }

  lemma {:induction false} ProbeHasFirstStore(targets: seq<Target>, key: Key, template: string)
    requires ProbesFor(targets, key, template)
    ensures FirstStore(targets, key).Some?
  {
    var i :| 0 <= i < |targets| && Probes(targets[i]) && KeyOf(targets[i]) == key && Trim(targets[i].template) == template;
    if !(Probes(targets[0]) && KeyOf(targets[0]) == key) {
      assert targets[1..][i - 1] == targets[i];
      ProbeHasFirstStore(targets[1..], key, template);
    }
  }

  lemma GroupsSnoc(targets: seq<Target>, t: Target, groups: map<Key, Group>, groups': map<Key, Group>)
    requires GroupsOf(targets, groups)
    requires !Probes(t) ==> groups' == groups
    requires Probes(t) ==>
               var g := if KeyOf(t) in groups then groups[KeyOf(t)] else Group(t.store.value, {});
               groups' == groups[KeyOf(t) := g.(templates := g.templates + {Trim(t.template)})]
    ensures GroupsOf(targets + [t], groups')
  {
    forall key ensures key in groups' <==> FirstStore(targets + [t], key).Some? {
      FirstStoreSnoc(targets, t, key);
    }
    forall key | key in groups'
      ensures FirstStore(targets + [t], key) == Some(groups'[key].store)
      ensures forall n :: n in groups'[key].templates <==> ProbesFor(targets + [t], key, n)
    {
      FirstStoreSnoc(targets, t, key);
      forall n ensures n in groups'[key].templates <==> ProbesFor(targets + [t], key, n) {
        ProbesForSnoc(targets, t, key, n);
        if key !in groups && ProbesFor(targets, key, n) {
          ProbeHasFirstStore(targets, key, n);
        }
      }
    }
  }

  /** The first loop: one group per store key; a target with an error or
      without a store marks its template partial. */
  method GroupTargets(targets: seq<Target>) returns (groups: map<Key, Group>, names: set<string>, partials: set<string>)
    ensures GroupsOf(targets, groups)
    ensures forall n :: n in names <==> Mentions(targets, n)
    ensures forall n :: n in partials <==> Lacks(targets, n)
  {
    groups, names, partials := map[], {}, {};
    for i := 0 to |targets|
      invariant GroupsOf(targets[..i], groups)
      invariant forall n :: n in names <==> Mentions(targets[..i], n)
      invariant forall n :: n in partials <==> Lacks(targets[..i], n)
    {
      var t := targets[i];
      var template := Trim(t.template);
      ghost var before := groups;
      if template != "" {
        names := names + {template};
        if t.err || t.store.None? {
          partials := partials + {template};
        }
        if t.store.Some? {
          var key := KeyOf(t);
          var g := if key in groups then groups[key] else Group(t.store.value, {});
          groups := groups[key := g.(templates := g.templates + {template})];
        }
      }
      assert targets[..i + 1] == targets[..i] + [t];
      GroupsSnoc(targets[..i], t, before, groups);
      forall n ensures n in names <==> Mentions(targets[..i + 1], n) {
        NamesSnoc(targets[..i], t, n);
      }
      forall n ensures n in partials <==> Lacks(targets[..i + 1], n) {
        NamesSnoc(targets[..i], t, n);
      }
    }
    assert targets[..|targets|] == targets;
  }

  // ---- counting ----------------------------------------------------------------------

  /** Counts and work-bead ids per template, and the store key each counted
      bead was found under. */
  datatype Tally = Tally(counts: map<string, nat>, ids: map<string, seq<string>>, refs: map<(string, string), Key>)

  predicate Has(t: Tally, template: string, id: string) {
    template in t.ids && id in t.ids[template]
  }

  ghost predicate Consistent(t: Tally) {
    && (forall n | n in t.ids :: n in t.counts && Distinct(t.ids[n]) && t.counts[n] == |t.ids[n]|)
    && (forall n | n in t.counts && n !in t.ids :: t.counts[n] == 0)
    && (forall n, id :: Has(t, n, id) ==> (n, id) in t.refs)
  }

  function Add(t: Tally, template: string, id: string, key: Key): Tally
    requires template in t.counts
  {
    var ids := if template in t.ids then t.ids[template] else [];
    Tally(t.counts[template := t.counts[template] + 1], t.ids[template := ids + [id]], t.refs[(template, id) := key])
  }

  lemma AddKeeps(t: Tally, template: string, id: string, key: Key)
    requires Consistent(t) && template in t.counts && !Has(t, template, id)
    ensures var t' := Add(t, template, id, key);
            Consistent(t') && forall n, i :: Has(t', n, i) <==> Has(t, n, i) || (n == template && i == id)
  {
  }

  /** The refs of newly counted beads point at this key and row set. */
  ghost predicate RefsGrow(t: Tally, t': Tally, key: Key) {
    forall n, id | Has(t', n, id) && (n, id) in t'.refs ::
      if Has(t, n, id) then (n, id) in t.refs && t'.refs[(n, id)] == t.refs[(n, id)] else t'.refs[(n, id)] == key
  }

  /** The tally grew by exactly the beads of these rows. */
  ghost predicate Counted(bases: map<string, string>, rows: seq<Bead>, key: Key, templates: set<string>, t0: Tally, t: Tally) {
    && Consistent(t) && t.counts.Keys == t0.counts.Keys && RefsGrow(t0, t, key)
    && forall n, id :: Has(t, n, id) <==> Has(t0, n, id) || CountedIn(bases, rows, templates, n, id)
  }

  ghost predicate CountedIn(bases: map<string, string>, rows: seq<Bead>, templates: set<string>, n: string, id: string) {
    n in templates && exists b | b in rows :: b.id == id && Counts(bases, b, n)
  }

  lemma CountedSnoc(bases: map<string, string>, rows: seq<Bead>, b: Bead, templates: set<string>, n: string, id: string)
    ensures CountedIn(bases, rows + [b], templates, n, id) <==>
              CountedIn(bases, rows, templates, n, id) || (n in templates && b.id == id && Counts(bases, b, n))
  {
  }

  /** A row that counts for no template of the group, or is counted already. */
  lemma CountSkip(bases: map<string, string>, rows: seq<Bead>, b: Bead, key: Key, templates: set<string>, t0: Tally, t: Tally)
    requires Counted(bases, rows, key, templates, t0, t)
    requires forall n | n in templates && Counts(bases, b, n) :: Has(t, n, b.id)
    ensures Counted(bases, rows + [b], key, templates, t0, t)
  {
  }

  lemma CountAdd(bases: map<string, string>, rows: seq<Bead>, b: Bead, key: Key, templates: set<string>, t0: Tally, t: Tally, template: string)
    requires Counted(bases, rows, key, templates, t0, t)
    requires template in templates && template in t.counts && Counts(bases, b, template) && !Has(t, template, b.id)
    ensures Counted(bases, rows + [b], key, templates, t0, Add(t, template, b.id, key))
  {
    var t' := Add(t, template, b.id, key);
    AddKeeps(t, template, b.id, key);
    forall n, id ensures Has(t', n, id) <==> Has(t0, n, id) || CountedIn(bases, rows + [b], templates, n, id) {
      CountedSnoc(bases, rows, b, templates, n, id);
    }
    AddRefs(t, template, b.id, key);
    forall n, id | Has(t', n, id) && (n, id) in t'.refs
      ensures if Has(t0, n, id) then (n, id) in t0.refs && t'.refs[(n, id)] == t0.refs[(n, id)] else t'.refs[(n, id)] == key
    {
      if Has(t, n, id) {
        assert (n, id) in t.refs;
      }
    }
  }

  lemma AddRefs(t: Tally, template: string, id: string, key: Key)
    requires Consistent(t) && template in t.counts && !Has(t, template, id)
    ensures var t' := Add(t, template, id, key);
            t'.refs[(template, id)] == key && forall n, i | Has(t, n, i) && (n, i) in t.refs :: t'.refs[(n, i)] == t.refs[(n, i)]
  {
  }

  method CountRows(bases: map<string, string>, rows: seq<Bead>, key: Key, templates: set<string>, t0: Tally) returns (t: Tally)
    requires Consistent(t0) && templates <= t0.counts.Keys && "" !in templates
    ensures Counted(bases, rows, key, templates, t0, t)
  {
    t := t0;
    for i := 0 to |rows|
      invariant Counted(bases, rows[..i], key, templates, t0, t)
    {
      var b := rows[i];
      assert rows[..i + 1] == rows[..i] + [b];
      if !Blank(b.assignee) || b.workflowRoot || Blank(b.route) {
        CountSkip(bases, rows[..i], b, key, templates, t0, t);
        continue;
      }
      var template := Normalize(bases, b.route);
      if template !in templates || Has(t, template, b.id) {
        CountSkip(bases, rows[..i], b, key, templates, t0, t);
        continue;
      }
      CountAdd(bases, rows[..i], b, key, templates, t0, t, template);
      t := Add(t, template, b.id, key);
    }
    assert rows[..|rows|] == rows;
  }

  /** Default demand. For every order of the groups: the ids of a template are
      exactly the distinct demanded ones, its count is their number, each has a
      store ref through which it is demanded, and the partial marks are exact. */
  method DefaultScaleCheck(bases: map<string, string>, targets: seq<Target>, stores: map<string, Ready>)
    returns (t: Tally, partials: set<string>)
    requires StoresKnown(targets, stores)
    ensures Consistent(t)
    ensures forall n :: n in t.counts <==> Mentions(targets, n)
    ensures forall n, id :: Has(t, n, id) <==> Demanded(bases, targets, stores, n, id)
    ensures forall n, id | Has(t, n, id) && (n, id) in t.refs :: RefIsRight(bases, targets, stores, n, id, t.refs[(n, id)])
    ensures forall n :: n in partials <==> IsPartial(targets, stores, n)
  {
    var groups, names, marked := GroupTargets(targets);
    forall key | key in groups ensures groups[key].store in stores && groups[key].templates <= names && "" !in groups[key].templates {
      GroupStoreKnown(targets, stores, groups, key);
      GroupTemplates(targets, groups, key, names);
    }
    t, partials := TallyGroups(bases, groups, names, marked, stores);
    GroupsDemand(bases, targets, stores, groups, t);
    GroupsPartial(targets, stores, groups, marked, partials);
  }

  ghost predicate Probed(groups: map<Key, Group>, names: set<string>, stores: map<string, Ready>) {
    forall key | key in groups :: groups[key].store in stores && groups[key].templates <= names && "" !in groups[key].templates
  }

  /** The second loop, in any order of the groups. */
  method TallyGroups(bases: map<string, string>, groups: map<Key, Group>, names: set<string>, marked: set<string>, stores: map<string, Ready>)
    returns (t: Tally, partials: set<string>)
    requires Probed(groups, names, stores)
    ensures t.counts.Keys == names && Tallied(bases, groups, stores, groups.Keys, t)
    ensures Marked(groups, stores, groups.Keys, marked, partials)
  {
    partials := marked;
    t := Tally(map n | n in names :: 0, map[], map[]);
    ghost var done: set<Key> := {};
    var todo := groups.Keys;
    while todo != {}
      invariant todo <= groups.Keys && done == groups.Keys - todo && t.counts.Keys == names
      invariant Tallied(bases, groups, stores, done, t)
      invariant Marked(groups, stores, done, marked, partials)
      decreases todo
    {
      var key :| key in todo;
      t, partials := TallyGroup(bases, groups, names, marked, stores, done, key, t, partials);
      todo := todo - {key};
      done := done + {key};
    }
    assert done == groups.Keys;
  }

  method TallyGroup(bases: map<string, string>, groups: map<Key, Group>, names: set<string>, ghost marked: set<string>, stores: map<string, Ready>,
                    ghost done: set<Key>, key: Key, before: Tally, marks: set<string>) returns (t: Tally, partials: set<string>)
    requires Probed(groups, names, stores) && key in groups && before.counts.Keys == names
    requires Tallied(bases, groups, stores, done, before) && Marked(groups, stores, done, marked, marks)
    ensures t.counts.Keys == names && Tallied(bases, groups, stores, done + {key}, t)
    ensures Marked(groups, stores, done + {key}, marked, partials)
  {
    var group := groups[key];
    var ready := stores[group.store];
    partials := if ready.err != NoError then marks + group.templates else marks;
    t := CountRows(bases, Effective(ready), key, group.templates, before);
    TalliedStep(bases, groups, stores, done, key, before, t);
    MarkedStep(groups, stores, done, key, marked, marks, partials);
  }

  /** What the groups done so far add to the tally. */
  ghost predicate Tallied(bases: map<string, string>, groups: map<Key, Group>, stores: map<string, Ready>, done: set<Key>, t: Tally) {
    && Consistent(t)
    && (forall n, id :: Has(t, n, id) <==> Through(bases, groups, stores, done, n, id))
    && (forall n, id | Has(t, n, id) && (n, id) in t.refs :: ThroughKey(bases, groups, stores, t.refs[(n, id)], n, id))
  }

  ghost predicate Through(bases: map<string, string>, groups: map<Key, Group>, stores: map<string, Ready>, done: set<Key>, n: string, id: string) {
    exists key | key in done :: ThroughKey(bases, groups, stores, key, n, id)
  }

  lemma TalliedStep(bases: map<string, string>, groups: map<Key, Group>, stores: map<string, Ready>, done: set<Key>, key: Key, t0: Tally, t: Tally)
    requires Tallied(bases, groups, stores, done, t0) && key in groups && groups[key].store in stores
    requires Counted(bases, Effective(stores[groups[key].store]), key, groups[key].templates, t0, t)
    ensures Tallied(bases, groups, stores, done + {key}, t)
  {
  }

  ghost predicate Marked(groups: map<Key, Group>, stores: map<string, Ready>, done: set<Key>, marked: set<string>, partials: set<string>) {
    forall n :: n in partials <==> n in marked || FailsIn(groups, stores, done, n)
  }

  ghost predicate FailsIn(groups: map<Key, Group>, stores: map<string, Ready>, done: set<Key>, n: string) {
    exists key | key in done :: Fails(groups, stores, key, n)
  }

  lemma MarkedStep(groups: map<Key, Group>, stores: map<string, Ready>, done: set<Key>, key: Key, marked: set<string>, before: set<string>, after: set<string>)
    requires Marked(groups, stores, done, marked, before) && key in groups && groups[key].store in stores
    requires after == before + if stores[groups[key].store].err != NoError then groups[key].templates else {}
    ensures Marked(groups, stores, done + {key}, marked, after)
  {
  }

  ghost predicate ThroughKey(bases: map<string, string>, groups: map<Key, Group>, stores: map<string, Ready>, key: Key, n: string, id: string) {
    key in groups && n in groups[key].templates && groups[key].store in stores && FoundIn(bases, stores[groups[key].store], n, id)
  }

  ghost predicate Fails(groups: map<Key, Group>, stores: map<string, Ready>, key: Key, n: string) {
    key in groups && n in groups[key].templates && groups[key].store in stores && stores[groups[key].store].err != NoError
  }

  ghost predicate RefIsRight(bases: map<string, string>, targets: seq<Target>, stores: map<string, Ready>, n: string, id: string, key: Key) {
    && ProbesFor(targets, key, n) && FirstStore(targets, key).Some? && FirstStore(targets, key).value in stores
    && FoundIn(bases, stores[FirstStore(targets, key).value], n, id)
  }

  lemma {:induction false} FirstStoreIsTarget(targets: seq<Target>, key: Key)
    requires FirstStore(targets, key).Some?
    ensures exists i | 0 <= i < |targets| :: Probes(targets[i]) && KeyOf(targets[i]) == key && targets[i].store == FirstStore(targets, key)
  {
    if Probes(targets[0]) && KeyOf(targets[0]) == key {
    } else {
      FirstStoreIsTarget(targets[1..], key);
      var i :| 0 <= i < |targets[1..]| && Probes(targets[1..][i]) && KeyOf(targets[1..][i]) == key && targets[1..][i].store == FirstStore(targets[1..], key);
      assert targets[i + 1] == targets[1..][i];
    }
  }

  lemma GroupStoreKnown(targets: seq<Target>, stores: map<string, Ready>, groups: map<Key, Group>, key: Key)
    requires GroupsOf(targets, groups) && StoresKnown(targets, stores) && key in groups
    ensures groups[key].store in stores
  {
    FirstStoreIsTarget(targets, key);
  }

  lemma GroupTemplates(targets: seq<Target>, groups: map<Key, Group>, key: Key, names: set<string>)
    requires GroupsOf(targets, groups) && key in groups
    requires forall n :: n in names <==> Mentions(targets, n)
    ensures groups[key].templates <= names && "" !in groups[key].templates
  {
  }

  /** What the groups count is what the targets demand. */
  lemma GroupsDemand(bases: map<string, string>, targets: seq<Target>, stores: map<string, Ready>, groups: map<Key, Group>, t: Tally)
    requires GroupsOf(targets, groups) && Tallied(bases, groups, stores, groups.Keys, t)
    ensures forall n, id :: Has(t, n, id) <==> Demanded(bases, targets, stores, n, id)
    ensures forall n, id | Has(t, n, id) && (n, id) in t.refs :: RefIsRight(bases, targets, stores, n, id, t.refs[(n, id)])
  {
  }

  lemma GroupsPartial(targets: seq<Target>, stores: map<string, Ready>, groups: map<Key, Group>, marked: set<string>, partials: set<string>)
    requires GroupsOf(targets, groups) && Marked(groups, stores, groups.Keys, marked, partials)
    requires forall n :: n in marked <==> Lacks(targets, n)
    ensures forall n :: n in partials <==> IsPartial(targets, stores, n)
  {
  }

  // ---- what demand means ---------------------------------------------------------------

  /** No store key is used for two stores. */
  predicate OneStorePerKey(targets: seq<Target>) {
    forall i, j | 0 <= i < |targets| && 0 <= j < |targets| && Probes(targets[i]) && Probes(targets[j]) ::
      KeyOf(targets[i]) == KeyOf(targets[j]) ==> targets[i].store == targets[j].store
  }

  ghost predicate FoundByProbe(bases: map<string, string>, targets: seq<Target>, stores: map<string, Ready>, n: string, id: string) {
    exists i | 0 <= i < |targets| ::
      Probes(targets[i]) && Trim(targets[i].template) == n && targets[i].store.value in stores
      && FoundIn(bases, stores[targets[i].store.value], n, id)
  }

  /** With one store per key, demand is what any probe of the template finds. */
  lemma DemandIsFoundByProbe(bases: map<string, string>, targets: seq<Target>, stores: map<string, Ready>, n: string, id: string)
    requires OneStorePerKey(targets)
    ensures Demanded(bases, targets, stores, n, id) <==> FoundByProbe(bases, targets, stores, n, id)
  {
    if Demanded(bases, targets, stores, n, id) {
      var key, s :| ProbesFor(targets, key, n) && FirstStore(targets, key) == Some(s) && s in stores && FoundIn(bases, stores[s], n, id);
      var i :| 0 <= i < |targets| && Probes(targets[i]) && KeyOf(targets[i]) == key && Trim(targets[i].template) == n;
      FirstStoreIsTarget(targets, key);
    }
    if FoundByProbe(bases, targets, stores, n, id) {
      var i :| 0 <= i < |targets| && Probes(targets[i]) && Trim(targets[i].template) == n && targets[i].store.value in stores
               && FoundIn(bases, stores[targets[i].store.value], n, id);
      var key := KeyOf(targets[i]);
      assert ProbesFor(targets, key, n);
      ProbeHasFirstStore(targets, key, n);
      FirstStoreIsTarget(targets, key);
    }
  }

  /** Probing a store a second time under another key adds no demand. */
  lemma AliasedStoreCountsOnce(bases: map<string, string>, targets: seq<Target>, stores: map<string, Ready>, alias: Target, n: string, id: string)
    requires OneStorePerKey(targets + [alias]) && Probes(alias)
    requires exists i | 0 <= i < |targets| ::
               Probes(targets[i]) && targets[i].store == alias.store && Trim(targets[i].template) == Trim(alias.template)
    ensures Demanded(bases, targets + [alias], stores, n, id) <==> Demanded(bases, targets, stores, n, id)
  {
    var all := targets + [alias];
    assert forall i | 0 <= i < |targets| :: all[i] == targets[i];
    assert OneStorePerKey(targets);
    DemandIsFoundByProbe(bases, targets, stores, n, id);
    DemandIsFoundByProbe(bases, all, stores, n, id);
    if i :| 0 <= i < |targets| && Probes(targets[i]) && Trim(targets[i].template) == n && targets[i].store.value in stores
            && FoundIn(bases, stores[targets[i].store.value], n, id) {
      assert all[i] == targets[i];
    }
  }

  lemma {:induction false} DistinctCardinality(s: seq<string>)
    requires Distinct(s)
    ensures |set x | x in s| == |s|
  {
    if s != [] {
      var rest, last := s[..|s| - 1], s[|s| - 1];
      DistinctCardinality(rest);
      assert (set x | x in s) == (set x | x in rest) + {last};
    }
  }

  /** A consistent tally counts a template's distinct work beads. */
  lemma CountIsDistinctBeads(t: Tally, n: string)
    requires Consistent(t) && n in t.counts
    ensures t.counts[n] == if n in t.ids then |set id | id in t.ids[n]| else 0
  {
    if n in t.ids {
      DistinctCardinality(t.ids[n]);
    }
  }
}
