/** The config mutation and reload protocol of the controller state
    (cmd/gc/api_state.go): the decision which config is installed, the pending
    revision of an API mutation, and the swap and delayed close of store
    handles. The functions are the specification; ControllerReload holds the
    class whose methods update the state in place. */
module ConfigReload {
  import opened Prelude

  /** `root` is the resolved, normalised scope root of `path`. */
  datatype Rig = Rig(name: string, path: string, root: string, prefix: string)

  datatype City = City(beadsProvider: string, mailProvider: string, hqPrefix: string, rigs: seq<Rig>)

  /** The identity of an open store: two equal handles are one pointer. */
  type Handle = nat

  /** The fields of controllerState the protocol swaps. `closing` counts how
      often a close was scheduled for each handle. */
  datatype Ctl = Ctl(
    cityPath: string,
    cfg: Option<City>,
    rigStores: map<string, Option<Handle>>,
    cityStore: Option<Handle>,
    signature: string,
    pendingRev: string,
    pending: bool,
    closing: multiset<Handle>)

  /** The stores one rebuild opens: rigs may share a handle, a rig store may
      fail to open, and so may the city store. */
  datatype Opened = Opened(rigs: map<string, Option<Handle>>, city: Option<Handle>, signature: string)

  predicate Bound(r: Rig) {
    !Blank(r.path)
  }

  ghost function BoundNames(rigs: seq<Rig>): set<string> {
    set r | r in rigs && Bound(r) :: r.name
  }

  ghost function Handles(stores: map<string, Option<Handle>>): set<Handle> {
    set v | v in stores.Values && v.Some? :: v.value
  }

  ghost function OneHandle(h: Option<Handle>): set<Handle> {
    if h.Some? then {h.value} else {}
  }

  /** Every handle the controller currently serves reads from. */
  ghost function Installed(c: Ctl): set<Handle> {
    Handles(c.rigStores) + OneHandle(c.cityStore)
  }

  // ---- store topology and reuse -------------------------------------------

  function TopologyOf(r: Rig): (string, string) {
    (if Bound(r) then r.root else "", r.prefix)
  }

  function TopologyRigs(rigs: seq<Rig>): map<string, (string, string)> {
    if rigs == [] then map[]
    else
      var last := rigs[|rigs| - 1];
      TopologyRigs(rigs[..|rigs| - 1])[last.name := TopologyOf(last)]
  }

  predicate SameTopology(current: Option<City>, next: City) {
    && current.Some?
    && Trim(current.value.beadsProvider) == Trim(next.beadsProvider)
    && Trim(current.value.mailProvider) == Trim(next.mailProvider)
    && current.value.hqPrefix == next.hqPrefix
    && TopologyRigs(current.value.rigs) == TopologyRigs(next.rigs)
  }

  predicate StoreOpen(stores: map<string, Option<Handle>>, name: string) {
    name in stores && stores[name].Some?
  }

  predicate CanReuse(c: Ctl, next: City, nextSignature: string) {
    && c.cityStore.Some?
    && SameTopology(c.cfg, next)
    && (c.signature == "" || c.signature == nextSignature)
    && forall i | 0 <= i < |next.rigs| && Bound(next.rigs[i]) :: StoreOpen(c.rigStores, next.rigs[i].name)
  }

  /** The trimmed path of the last rig with that name, "" when there is none. */
  function PathOf(rigs: seq<Rig>, name: string): string {
    if rigs == [] then ""
    else if rigs[|rigs| - 1].name == name then Trim(rigs[|rigs| - 1].path)
    else PathOf(rigs[..|rigs| - 1], name)
  }

  predicate DropsBoundRigs(current: Option<City>, next: City) {
    && current.Some?
    && exists i | 0 <= i < |current.value.rigs| ::
         Bound(current.value.rigs[i]) && PathOf(next.rigs, current.value.rigs[i].name) == ""
  }

  // ---- the swaps ------------------------------------------------------------

  ghost function Replaced(old_: map<string, Option<Handle>>, new_: map<string, Option<Handle>>): multiset<Handle> {
    multiset(Handles(old_) - Handles(new_))
  }

  function CityReplaced(old_: Option<Handle>, new_: Option<Handle>): multiset<Handle> {
    if new_.Some? && old_.Some? && old_ != new_ then multiset{old_.value} else multiset{}
  }

  ghost function Update(c: Ctl, cfg: City, o: Opened): Ctl {
    c.(cfg := Some(cfg),
       rigStores := o.rigs,
       cityStore := if o.city.Some? then o.city else c.cityStore,
       signature := if o.city.Some? then o.signature else c.signature,
       closing := c.closing + CityReplaced(c.cityStore, o.city) + Replaced(c.rigStores, o.rigs))
  }

  function ConfigOnly(c: Ctl, cfg: City): Ctl {
    c.(cfg := Some(cfg))
  }

  function MarkPending(c: Ctl, rev: string): Ctl {
    c.(pendingRev := rev, pending := true)
  }

  function ClearPending(c: Ctl): Ctl {
    c.(pendingRev := "", pending := false)
  }

  ghost function Install(c: Ctl, cfg: City, nextSignature: string, o: Opened): Ctl {
    ClearPending(if CanReuse(c, cfg, nextSignature) then ConfigOnly(c, cfg) else Update(c, cfg, o))
  }

  /** Whether updateFromRuntime installs a delivery. `current` is the revision
      on disk, None when the current config does not load. */
  predicate Accepts(c: Ctl, cfg: City, rev: string, current: Option<string>) {
    if c.pending then
      && c.pendingRev != "" && rev != ""
      && if rev == c.pendingRev then !DropsBoundRigs(c.cfg, cfg) else current == Some(rev)
    else
      rev == "" || current == Some(rev)
  }

  ghost function Deliver(c: Ctl, cfg: City, rev: string, current: Option<string>, nextSignature: string, o: Opened): Ctl {
    if Accepts(c, cfg, rev, current) then Install(c, cfg, nextSignature, o) else c
  }

  // ---- the disk and the API mutation ---------------------------------------

  /** One content of the config files: it loads to a config with a revision,
      or it does not load. An empty revision counts as a failed refresh. */
  datatype Entry = Loads(rev: string, cfg: City) | Broken

  predicate Good(e: Entry) {
    e.Loads? && e.rev != ""
  }

  datatype Mutation =
    | SnapshotFails
    | EditFails(left: seq<Entry>)  // the editor failed, possibly after writing
    | Edits(entry: Entry, restored: bool, o: Opened)

  predicate Refreshes(c: Ctl) {
    c.cityPath != "" && c.cfg.Some?
  }

  ghost function Mutate(c: Ctl, m: Mutation): Ctl {
    if !m.Edits? then c
    else if !Refreshes(c) then MarkPending(c, "")
    else if Good(m.entry) then MarkPending(Update(c, m.entry.cfg, m.o), m.entry.rev)
    else c
  }

  /** The contents a mutation leaves behind: none when it never wrote, or when
      the failed refresh was rolled back. */
  function Written(c: Ctl, m: Mutation): seq<Entry> {
    match m
    case SnapshotFails => []
    case EditFails(left) => left
    case Edits(entry, restored, _) =>
      if Refreshes(c) && !Good(entry) && restored then [] else [entry]
  }

  // ---- runs -----------------------------------------------------------------

  /** `disk` is the history of config contents, its last entry the current one;
      `gen` the index the installed config was read from; `runtimeRev` the
      revision the runtime reloaded last; `known` every handle ever opened and
      `ever` every handle ever installed. */
  datatype World = World(disk: seq<Entry>, ctl: Ctl, gen: nat, runtimeRev: string, known: set<Handle>, ever: set<Handle>)

  /** A runtime reload hands over a config it read from content `gen`. The
      config may differ from what a later reader composes from that content. */
  datatype Delivery = Delivery(cfg: City, rev: string, gen: nat)

  datatype Step =
    | ExternalEdit(entry: Entry)
    | ApiMutation(m: Mutation)
    | RuntimeDelivery(d: Delivery, readable: bool, signature: string, o: Opened)
    | MetadataReload(d: Delivery, signature: string, o: Opened)  // same revision, other store metadata

  predicate FreshRevisions(disk: seq<Entry>) {
    forall i, j | 0 <= i < j < |disk| && Good(disk[i]) && Good(disk[j]) :: disk[i].rev != disk[j].rev
  }

  ghost predicate FreshHandles(w: World, cfg: City, o: Opened) {
    && o.rigs.Keys == BoundNames(cfg.rigs)
    && Handles(o.rigs) !! w.known
    && OneHandle(o.city) !! (w.known + Handles(o.rigs))
  }

  function Current(w: World, readable: bool): Option<string> {
    if w.ctl.cityPath == "" then Some("")
    else if readable && w.disk != [] && w.disk[|w.disk| - 1].Loads? then Some(w.disk[|w.disk| - 1].rev)
    else None
  }

  /** storeMetadataChanged. */
  predicate MetadataChanged(c: Ctl, signature: string) {
    c.signature != "" && c.signature != signature
  }

  predicate Honest(w: World, d: Delivery) {
    && d.gen < |w.disk|
    && (d.rev == "" || (Good(w.disk[d.gen]) && w.disk[d.gen].rev == d.rev))
  }

  ghost predicate Enabled(w: World, s: Step) {
    match s
    case ExternalEdit(e) => FreshRevisions(w.disk + [e])
    case ApiMutation(m) =>
      && FreshRevisions(w.disk + Written(w.ctl, m))
      && (m.SnapshotFails? ==> w.ctl.cityPath != "")
      && (m.Edits? && Good(m.entry) ==> FreshHandles(w, m.entry.cfg, m.o))
    case RuntimeDelivery(d, _, _, o) => Honest(w, d) && FreshHandles(w, d.cfg, o)
    case MetadataReload(d, signature, o) =>
      && Honest(w, d) && d.rev != "" && d.rev == w.runtimeRev && FreshHandles(w, d.cfg, o)
      && MetadataChanged(w.ctl, signature)
  }

  ghost function Apply(w: World, s: Step): World
    requires Enabled(w, s)
  {
    match s
    case ExternalEdit(e) => w.(disk := w.disk + [e])
    case ApiMutation(m) =>
      var disk := w.disk + Written(w.ctl, m);
      var installs := m.Edits? && Refreshes(w.ctl) && Good(m.entry);
      Settle(w.(disk := disk, gen := if installs then |disk| - 1 else w.gen), Mutate(w.ctl, m))
    case RuntimeDelivery(d, readable, signature, o) =>
      var current := Current(w, readable);
      Settle(w.(gen := if Accepts(w.ctl, d.cfg, d.rev, current) then d.gen else w.gen, runtimeRev := d.rev),
             Deliver(w.ctl, d.cfg, d.rev, current, signature, o))
    case MetadataReload(d, _, o) => Settle(w.(gen := d.gen), Update(w.ctl, d.cfg, o))
  }

  ghost function Settle(w: World, c: Ctl): World {
    w.(ctl := c, known := w.known + Installed(c), ever := w.ever + Installed(c))
  }

  ghost predicate ValidRun(w: World, steps: seq<Step>)
    decreases |steps|
  {
    steps == [] || (Enabled(w, steps[0]) && ValidRun(Apply(w, steps[0]), steps[1..]))
  }

  ghost function Run(w: World, steps: seq<Step>): World
    requires ValidRun(w, steps)
    decreases |steps|
  {
    if steps == [] then w else Run(Apply(w, steps[0]), steps[1..])
  }

  /** The guard a metadata reload lacks: a pending revision is its own. */
  predicate KeepsPending(w: World, s: Step) {
    s.MetadataReload? && w.ctl.pending && w.ctl.pendingRev != "" ==> s.d.rev == w.ctl.pendingRev
  }

  /** Deliveries carry a revision; a metadata reload carries the pending
      revision or, without one, the revision on disk. */
  predicate UpToDate(w: World, s: Step) {
    && KeepsPending(w, s)
    && (s.RuntimeDelivery? ==> s.d.rev != "")
    && (s.MetadataReload? && !(w.ctl.pending && w.ctl.pendingRev != "") ==> OnDisk(w, s.d.rev))
  }

  ghost predicate AllKeepPending(w: World, steps: seq<Step>)
    requires ValidRun(w, steps)
    decreases |steps|
  {
    steps == [] || (KeepsPending(w, steps[0]) && AllKeepPending(Apply(w, steps[0]), steps[1..]))
  }

  ghost predicate AllUpToDate(w: World, steps: seq<Step>)
    requires ValidRun(w, steps)
    decreases |steps|
  {
    steps == [] || (UpToDate(w, steps[0]) && AllUpToDate(Apply(w, steps[0]), steps[1..]))
  }

  // ---- invariants -----------------------------------------------------------

  /** While a mutation is pending the installed config is the one it wrote. */
  ghost predicate RevisionInv(w: World) {
    && FreshRevisions(w.disk)
    && w.gen < |w.disk|
    && (w.ctl.pending && w.ctl.pendingRev != "" ==>
          Good(w.disk[w.gen]) && w.disk[w.gen].rev == w.ctl.pendingRev)
  }

  /** Every handle ever installed is either installed now or scheduled for
      close exactly once, and never both. */
  ghost predicate HandleInv(w: World) {
    && w.ever <= w.known
    && Installed(w.ctl) <= w.ever
    && Handles(w.ctl.rigStores) !! OneHandle(w.ctl.cityStore)
    && ClosedOnce(w.ever - Installed(w.ctl), w.ctl.closing)
  }

  /** Exactly the retired handles are scheduled, each of them once. */
  ghost predicate ClosedOnce(retired: set<Handle>, closing: multiset<Handle>) {
    closing == multiset(retired)
  }

  /** Every rig the installed config binds has a store entry. */
  ghost predicate CoverageInv(c: Ctl) {
    c.cfg.Some? ==> BoundNames(c.cfg.value.rigs) <= c.rigStores.Keys
  }

  ghost predicate Inv(w: World) {
    RevisionInv(w) && HandleInv(w) && CoverageInv(w.ctl)
  }

  /** A controller that has just started. */
  ghost predicate Boot(w: World) {
    && w.gen < |w.disk| && FreshRevisions(w.disk) && !w.ctl.pending && w.ctl.closing == multiset{}
    && w.ever == w.known == Installed(w.ctl) && Handles(w.ctl.rigStores) !! OneHandle(w.ctl.cityStore)
    && CoverageInv(w.ctl)
  }

  lemma BootHasInv(w: World)
    requires Boot(w)
    ensures Inv(w)
  {
    assert w.ever - Installed(w.ctl) == {};
  }

  lemma MultisetOfUnion(a: set<Handle>, b: set<Handle>)
    requires a !! b
    ensures multiset(a + b) == multiset(a) + multiset(b)
  {
  }

  /** The retired handles grow by exactly the replaced ones. */
  lemma RetiredGrowth(ever: set<Handle>, rigs: set<Handle>, city: set<Handle>, rigs': set<Handle>, city': set<Handle>, gone: set<Handle>)
    requires rigs + city <= ever && rigs !! city
    requires rigs' !! ever && ((city' !! (ever + rigs') && gone == city) || (city' == city && gone == {}))
    ensures (ever + (rigs' + city')) - (rigs' + city') == (ever - (rigs + city)) + gone + rigs
    ensures rigs - rigs' == rigs && rigs' !! city'
    ensures multiset((ever - (rigs + city)) + gone + rigs) == multiset(ever - (rigs + city)) + multiset(gone) + multiset(rigs)
  {
  }

  /** The multiset a rebuild adds to the scheduled closes. */
  lemma UpdateSchedules(c: Ctl, cfg: City, o: Opened, gone: set<Handle>)
    requires Handles(c.rigStores) - Handles(o.rigs) == Handles(c.rigStores)
    requires o.city.Some? ==> o.city != c.cityStore
    requires gone == if o.city.Some? then OneHandle(c.cityStore) else {}
    ensures Update(c, cfg, o).closing == c.closing + multiset(gone) + multiset(Handles(c.rigStores))
  {
  }

  /** Replacing the rig handles and, when the reopen worked, the city handle
      retires exactly the handles it schedules. */
  lemma UpdateKeepsHandles(w: World, cfg: City, o: Opened)
    requires HandleInv(w) && FreshHandles(w, cfg, o)
    ensures HandleInv(Settle(w, Update(w.ctl, cfg, o)))
  {
    var c, c' := w.ctl, Update(w.ctl, cfg, o);
    var rigs, city, city' := Handles(c.rigStores), OneHandle(c.cityStore), OneHandle(c'.cityStore);
    var gone := if o.city.Some? then city else {};
    RetiredGrowth(w.ever, rigs, city, Handles(o.rigs), city', gone);
    UpdateSchedules(c, cfg, o, gone);
  }

  /** A delivery installs an older content exactly when it carries no revision
      while no mutation is pending. */
  lemma DeliveryMovesBackExactlyWhen(w: World, s: Step)
    requires RevisionInv(w) && s.RuntimeDelivery? && Enabled(w, s)
    ensures Apply(w, s).gen < w.gen <==> !w.ctl.pending && s.d.rev == "" && s.d.gen < w.gen
  {
  }

  lemma StepKeepsRevision(w: World, s: Step)
    requires RevisionInv(w) && Enabled(w, s)
    ensures KeepsPending(w, s) ==> RevisionInv(Apply(w, s))
    ensures UpToDate(w, s) ==> w.gen <= Apply(w, s).gen
  {
    match s
    case ExternalEdit(_) =>
    case ApiMutation(_) => MutationKeepsRevision(w, s);
    case RuntimeDelivery(_, _, _, _) =>
      DeliveryKeepsRevision(w, s);
      DeliveryMovesBackExactlyWhen(w, s);
    case MetadataReload(_, _, _) =>
      MetadataReloadKeepsPendingExactlyWhen(w, s);
      if UpToDate(w, s) {
        CurrentReloadMovesForward(w, s);
      }
  }

  /** A metadata reload goes through without the pending check. It keeps the
      pending revision installed exactly when it carries that revision or none
      is pending. */
  lemma MetadataReloadKeepsPendingExactlyWhen(w: World, s: Step)
    requires RevisionInv(w) && Enabled(w, s) && s.MetadataReload?
    ensures RevisionInv(Apply(w, s)) <==> KeepsPending(w, s)
  {
  }

  predicate OnDisk(w: World, rev: string) {
    w.disk != [] && Good(w.disk[|w.disk| - 1]) && rev == w.disk[|w.disk| - 1].rev
  }

  /** One that carries the pending revision, or the revision on disk, never
      moves back. */
  lemma CurrentReloadMovesForward(w: World, s: Step)
    requires RevisionInv(w) && Enabled(w, s) && s.MetadataReload?
    requires OnDisk(w, s.d.rev) || (w.ctl.pending && w.ctl.pendingRev != "" && s.d.rev == w.ctl.pendingRev)
    ensures w.gen <= Apply(w, s).gen
  {
    if OnDisk(w, s.d.rev) {
      assert s.d.gen == |w.disk| - 1;
    } else {
      assert s.d.gen == w.gen;
    }
  }

  lemma MutationKeepsRevision(w: World, s: Step)
    requires RevisionInv(w) && Enabled(w, s) && s.ApiMutation?
    ensures RevisionInv(Apply(w, s)) && w.gen <= Apply(w, s).gen
  {
  }

  lemma DeliveryKeepsRevision(w: World, s: Step)
    requires RevisionInv(w) && Enabled(w, s) && s.RuntimeDelivery?
    ensures RevisionInv(Apply(w, s))
  {
  }

  /** Installing a config into the stores at hand changes no handle. */
  lemma SameHandlesSettle(w: World, c: Ctl)
    requires HandleInv(w)
    requires c.rigStores == w.ctl.rigStores && c.cityStore == w.ctl.cityStore && c.closing == w.ctl.closing
    ensures HandleInv(Settle(w, c))
  {
  }

  lemma StepKeepsHandles(w: World, s: Step)
    requires HandleInv(w) && Enabled(w, s)
    ensures HandleInv(Apply(w, s))
  {
    match s
    case ExternalEdit(_) =>
    case ApiMutation(m) =>
      if m.Edits? && Refreshes(w.ctl) && Good(m.entry) {
        UpdateKeepsHandles(w, m.entry.cfg, m.o);
      } else {
        SameHandlesSettle(w, Mutate(w.ctl, m));
      }
    case RuntimeDelivery(d, readable, signature, o) =>
      if Accepts(w.ctl, d.cfg, d.rev, Current(w, readable)) && !CanReuse(w.ctl, d.cfg, signature) {
        UpdateKeepsHandles(w, d.cfg, o);
      } else {
        SameHandlesSettle(w, Deliver(w.ctl, d.cfg, d.rev, Current(w, readable), signature, o));
      }
    case MetadataReload(d, _, o) => UpdateKeepsHandles(w, d.cfg, o);
  }

  lemma StepKeepsCoverage(w: World, s: Step)
    requires CoverageInv(w.ctl) && Enabled(w, s)
    ensures CoverageInv(Apply(w, s).ctl)
  {
  }

  /** Over every run at all, handles are conserved and no bound rig is without
      its store entry. */
  lemma {:induction false} RunKeepsHandles(w: World, steps: seq<Step>)
    requires HandleInv(w) && CoverageInv(w.ctl) && ValidRun(w, steps)
    ensures HandleInv(Run(w, steps)) && CoverageInv(Run(w, steps).ctl)
    ensures w.ever <= Run(w, steps).ever
    decreases |steps|
  {
    if steps != [] {
      StepKeepsHandles(w, steps[0]);
      StepKeepsCoverage(w, steps[0]);
      RunKeepsHandles(Apply(w, steps[0]), steps[1..]);
    }
  }

  /** If metadata reloads keep the pending revision, it is the installed one
      throughout; if every step is up to date, the installed config never goes
      back to an earlier content of the disk. */
  lemma {:induction false} RunKeepsRevision(w: World, steps: seq<Step>)
    requires RevisionInv(w) && ValidRun(w, steps) && AllKeepPending(w, steps)
    ensures RevisionInv(Run(w, steps))
    ensures AllUpToDate(w, steps) ==> w.gen <= Run(w, steps).gen
    decreases |steps|
  {
    if steps != [] {
      StepKeepsRevision(w, steps[0]);
      RunKeepsRevision(Apply(w, steps[0]), steps[1..]);
    }
  }

  lemma {:induction false} UpToDateKeepsPending(w: World, steps: seq<Step>)
    requires ValidRun(w, steps) && AllUpToDate(w, steps)
    ensures AllKeepPending(w, steps)
    decreases |steps|
  {
    if steps != [] {
      UpToDateKeepsPending(Apply(w, steps[0]), steps[1..]);
    }
  }

  // ---- what the run theorem gives between any two points ---------------------

  lemma {:induction false} RunSplit(w: World, a: seq<Step>, b: seq<Step>)
    requires ValidRun(w, a + b)
    ensures ValidRun(w, a) && ValidRun(Run(w, a), b) && Run(w, a + b) == Run(Run(w, a), b)
    decreases |a|
  {
    if a == [] {
      assert a + b == b;
    } else {
      assert (a + b)[1..] == a[1..] + b;
      RunSplit(Apply(w, a[0]), a[1..], b);
    }
  }

  lemma {:induction false} UpToDateSplit(w: World, a: seq<Step>, b: seq<Step>)
    requires ValidRun(w, a + b) && AllUpToDate(w, a + b)
    ensures ValidRun(w, a) && AllUpToDate(w, a) && ValidRun(Run(w, a), b) && AllUpToDate(Run(w, a), b)
    decreases |a|
  {
    if a == [] {
      assert a + b == b;
    } else {
      assert (a + b)[1..] == a[1..] + b;
      UpToDateSplit(Apply(w, a[0]), a[1..], b);
    }
  }

  /** For any two points of an up-to-date run, the later installed content is at
      least as new; a pending revision is the installed one at every point. */
  lemma InstalledNeverMovesBack(w: World, steps: seq<Step>, i: nat, j: nat)
    requires Inv(w) && ValidRun(w, steps) && AllUpToDate(w, steps) && i <= j <= |steps|
    ensures ValidRun(w, steps[..i]) && ValidRun(w, steps[..j])
    ensures Run(w, steps[..i]).gen <= Run(w, steps[..j]).gen
    ensures Inv(Run(w, steps[..j]))
  {
    assert steps[..j] + steps[j..] == steps;
    UpToDateSplit(w, steps[..j], steps[j..]);
    assert steps[..i] + steps[i..j] == steps[..j];
    UpToDateSplit(w, steps[..i], steps[i..j]);
    RunSplit(w, steps[..i], steps[i..j]);
    UpToDateKeepsPending(w, steps[..i]);
    RunKeepsRevision(w, steps[..i]);
    UpToDateKeepsPending(Run(w, steps[..i]), steps[i..j]);
    RunKeepsRevision(Run(w, steps[..i]), steps[i..j]);
    RunKeepsHandles(w, steps[..j]);
  }

  // ---- deliveries and mutations ----------------------------------------------

  lemma {:induction false} PathOfMeaning(rigs: seq<Rig>, name: string)
    ensures PathOf(rigs, name) != "" ==> name in BoundNames(rigs)
    ensures (forall i, j | 0 <= i < j < |rigs| :: rigs[i].name != rigs[j].name) && name in BoundNames(rigs)
            ==> PathOf(rigs, name) != ""
  {
    if rigs != [] {
      var last := rigs[|rigs| - 1];
      var rest := rigs[..|rigs| - 1];
      PathOfMeaning(rest, name);
      assert rigs == rest + [last];
      assert BoundNames(rest) <= BoundNames(rigs);
      assert Bound(last) ==> last.name in BoundNames(rigs);
      if name in BoundNames(rigs) && last.name != name {
        assert name in BoundNames(rest);
      }
    }
  }

  /** The refusal test is the loss of a binding: exact when the next config
      names each rig once, and never missed otherwise. */
  lemma DropsExactlyLostBindings(current: City, next: City)
    ensures !DropsBoundRigs(Some(current), next) ==> BoundNames(current.rigs) <= BoundNames(next.rigs)
    ensures (forall i, j | 0 <= i < j < |next.rigs| :: next.rigs[i].name != next.rigs[j].name) ==>
              (DropsBoundRigs(Some(current), next) <==> !(BoundNames(current.rigs) <= BoundNames(next.rigs)))
  {
    forall name ensures PathOf(next.rigs, name) != "" ==> name in BoundNames(next.rigs) {
      PathOfMeaning(next.rigs, name);
    }
    if forall i, j | 0 <= i < j < |next.rigs| :: next.rigs[i].name != next.rigs[j].name {
      forall name | name in BoundNames(next.rigs) ensures PathOf(next.rigs, name) != "" {
        PathOfMeaning(next.rigs, name);
      }
      if DropsBoundRigs(Some(current), next) {
        var i :| 0 <= i < |current.rigs| && Bound(current.rigs[i]) && PathOf(next.rigs, current.rigs[i].name) == "";
        assert current.rigs[i].name in BoundNames(current.rigs);
      }
    }
  }

  /** A delivery of the pending revision never unbinds a rig: it is refused
      outright or keeps every binding. */
  lemma PendingDeliveryKeepsBindings(c: Ctl, cfg: City, current: Option<string>, signature: string, o: Opened)
    requires c.pending && c.cfg.Some?
    ensures var c' := Deliver(c, cfg, c.pendingRev, current, signature, o);
            c' == c || (c'.cfg == Some(cfg) && BoundNames(c.cfg.value.rigs) <= BoundNames(cfg.rigs))
  {
    DropsExactlyLostBindings(c.cfg.value, cfg);
  }

  /** Progress: a delivery of the content on disk is installed and ends the
      pending phase, unless it is the pending content and loses a binding. */
  lemma CurrentDeliverySettles(w: World, s: Step)
    requires RevisionInv(w) && Enabled(w, s) && s.RuntimeDelivery?
    requires w.ctl.cityPath != "" && s.readable && s.d.gen == |w.disk| - 1 && s.d.rev != ""
    requires w.ctl.pending ==> w.ctl.pendingRev != ""
    requires !(w.ctl.pending && s.d.rev == w.ctl.pendingRev && DropsBoundRigs(w.ctl.cfg, s.d.cfg))
    ensures var w' := Apply(w, s);
            !w'.ctl.pending && w'.gen == |w'.disk| - 1 && w'.ctl.cfg == Some(s.d.cfg)
  {
  }

  /** A mutation whose refresh fails and whose restore succeeds changes
      nothing: not the disk, the installed config, the stores or the pending
      revision. */
  lemma RolledBackMutationIsInvisible(w: World, s: Step)
    requires Inv(w) && Enabled(w, s) && s.ApiMutation? && s.m.Edits?
    requires Refreshes(w.ctl) && !Good(s.m.entry) && s.m.restored
    ensures Apply(w, s) == w
  {
  }

  /** A mutation without a city path marks an empty revision pending, and from
      then on no sequence of deliveries installs anything. */
  lemma {:induction false} EmptyPendingRefusesDeliveries(w: World, steps: seq<Step>)
    requires ValidRun(w, steps) && w.ctl.pending && w.ctl.pendingRev == ""
    requires forall i | 0 <= i < |steps| :: steps[i].RuntimeDelivery?
    ensures Run(w, steps).ctl == w.ctl && Run(w, steps).gen == w.gen
    decreases |steps|
  {
    if steps != [] {
      EmptyPendingRefusesDeliveries(Apply(w, steps[0]), steps[1..]);
    }
  }

  // ---- runs that go wrong ----------------------------------------------------------

  function EmptyCity(prefix: string): City {
    City("bd", "", prefix, [])
  }

  const NOTHING := Opened(map[], None, "")

  /** A started controller over one content with revision "a". */
  function Started(): World {
    World([Loads("a", EmptyCity("one"))], Ctl("/city", Some(EmptyCity("one")), map[], None, "s", "", false, multiset{}), 0, "a", {}, {})
  }

  lemma StartedIsBoot()
    ensures Boot(Started())
  {
  }

  /** An edit, its delivery, and then a delivery without a revision that read the
      first content: the installed config is back at it. */
  lemma UnrevisionedDeliveryMovesBack()
    ensures Boot(Started())
    ensures var steps := [ExternalEdit(Loads("b", EmptyCity("two"))),
                          RuntimeDelivery(Delivery(EmptyCity("two"), "b", 1), true, "s", NOTHING),
                          RuntimeDelivery(Delivery(EmptyCity("one"), "", 0), true, "s", NOTHING)];
            && ValidRun(Started(), steps) && ValidRun(Started(), steps[..2])
            && Run(Started(), steps).gen < Run(Started(), steps[..2]).gen
  {
    StartedIsBoot();
    var w := Started();
    var s1 := ExternalEdit(Loads("b", EmptyCity("two")));
    var s2 := RuntimeDelivery(Delivery(EmptyCity("two"), "b", 1), true, "s", NOTHING);
    var s3 := RuntimeDelivery(Delivery(EmptyCity("one"), "", 0), true, "s", NOTHING);
    var w1 := Apply(w, s1);
    assert Enabled(w1, s2);
    var w2 := Apply(w1, s2);
    assert w2.gen == 1 && !w2.ctl.pending && Enabled(w2, s3);
    ThreeSteps(w, s1, s2, s3);
  }

  lemma ThreeSteps(w: World, s1: Step, s2: Step, s3: Step)
    requires Enabled(w, s1) && Enabled(Apply(w, s1), s2) && Enabled(Apply(Apply(w, s1), s2), s3)
    ensures var steps := [s1, s2, s3];
            && ValidRun(w, steps) && Run(w, steps) == Apply(Apply(Apply(w, s1), s2), s3)
            && ValidRun(w, steps[..2]) && Run(w, steps[..2]) == Apply(Apply(w, s1), s2)
  {
    var steps := [s1, s2, s3];
    var w1 := Apply(w, s1);
    var w2 := Apply(w1, s2);
    assert steps[1..] == [s2, s3] && steps[1..][1..] == [s3] && [s3][1..] == [] && steps[..2] == [s1, s2];
    assert [s1, s2][1..] == [s2] && [s2][1..] == [];
    assert ValidRun(Apply(w2, s3), []) && ValidRun(w2, [s3]) && ValidRun(w1, [s2, s3]);
    assert Run(w2, [s3]) == Apply(w2, s3) && Run(w1, [s2, s3]) == Apply(w2, s3);
    assert ValidRun(w2, []) && ValidRun(w1, [s2]) && Run(w1, [s2]) == w2;
  }

  /** An API mutation installs "b"; a metadata reload of the runtime, which still
      holds "a", puts the first content back under the pending mutation. */
  lemma MetadataReloadUndoesMutation()
    ensures Boot(Started())
    ensures var steps := [ApiMutation(Edits(Loads("b", EmptyCity("two")), true, NOTHING)),
                          MetadataReload(Delivery(EmptyCity("one"), "a", 0), "t", NOTHING)];
            && ValidRun(Started(), steps)
            && var w := Run(Started(), steps);
               w.gen == 0 && w.ctl.cfg == Some(EmptyCity("one")) && w.ctl.pending && w.ctl.pendingRev == "b" && !RevisionInv(w)
  {
    StartedIsBoot();
    var w := Started();
    var s1 := ApiMutation(Edits(Loads("b", EmptyCity("two")), true, NOTHING));
    var s2 := MetadataReload(Delivery(EmptyCity("one"), "a", 0), "t", NOTHING);
    var w1 := Apply(w, s1);
    assert w1.disk[0] == Loads("a", EmptyCity("one")) && Enabled(w1, s2);
    var steps := [s1, s2];
    assert steps[1..] == [s2] && [s2][1..] == [];
    assert ValidRun(Apply(w1, s2), []) && ValidRun(w1, [s2]) && Run(w1, [s2]) == Apply(w1, s2);
  }
}
