/** controllerState as a class: its methods update the fields in place and are
    proved against the functions of ConfigReload. */
module ControllerReload {
  import opened Prelude
  import opened ConfigReload

  class ControllerState {
    const cityPath: string
    var cfg: Option<City>
    var beadStores: map<string, Option<Handle>>
    var cityBeadStore: Option<Handle>
    var storeMetadataSignature: string
    var pendingConfigRev: string
    var configMutationPending: bool
    var scheduledCloses: multiset<Handle>

    ghost function State(): Ctl
      reads this
    {
      Ctl(cityPath, cfg, beadStores, cityBeadStore, storeMetadataSignature,
          pendingConfigRev, configMutationPending, scheduledCloses)
    }

    constructor (cityPath: string, cfg: City, o: Opened)
      ensures State() == Ctl(cityPath, Some(cfg), o.rigs, o.city, o.signature, "", false, multiset{})
    {
      this.cityPath := cityPath;
      this.cfg := Some(cfg);
      beadStores, cityBeadStore, storeMetadataSignature := o.rigs, o.city, o.signature;
      pendingConfigRev, configMutationPending, scheduledCloses := "", false, multiset{};
    }

    method ScheduleClose(store: Option<Handle>)
      modifies this`scheduledCloses
      ensures scheduledCloses == old(scheduledCloses) + if store.Some? then multiset{store.value} else multiset{}
    {
      if store.Some? {
        scheduledCloses := scheduledCloses + multiset{store.value};
      }
    }

    /** Closes every old handle that no new entry reuses, once per handle even
        when several rigs share it, whatever the order of the map. */
    method ScheduleCloseReplaced(oldStores: map<string, Option<Handle>>, newStores: map<string, Option<Handle>>)
      modifies this`scheduledCloses
      ensures scheduledCloses == old(scheduledCloses) + Replaced(oldStores, newStores)
    {
      var newKeys := PointerKeys(newStores);
      var closed: set<Handle> := {};
      var todo := oldStores.Keys;
      while todo != {}
        invariant todo <= oldStores.Keys
        invariant closed !! newKeys && closed <= Handles(oldStores)
        invariant forall n | n in oldStores && n !in todo && oldStores[n].Some? ::
                    oldStores[n].value in closed || oldStores[n].value in newKeys
        invariant scheduledCloses == old(scheduledCloses) + multiset(closed)
        decreases todo
      {
        var name :| name in todo;
        todo := todo - {name};
        closed := CloseUnlessKept(oldStores[name], newKeys, closed, old(scheduledCloses));
      }
      assert closed == Handles(oldStores) - Handles(newStores);
    }

    /** Closes one old handle unless it is reused or closed already. */
    method CloseUnlessKept(store: Option<Handle>, newKeys: set<Handle>, closed: set<Handle>, ghost base: multiset<Handle>)
      returns (closed': set<Handle>)
      requires scheduledCloses == base + multiset(closed)
      modifies this`scheduledCloses
      ensures closed' == if store.Some? && store.value !in newKeys then closed + {store.value} else closed
      ensures scheduledCloses == base + multiset(closed')
    {
      closed' := closed;
      if store.Some? {
        if store.value in newKeys || store.value in closed {
          return;
        }
        MultisetOfUnion(closed, {store.value});
        closed' := closed + {store.value};
      }
      ScheduleClose(store);
    }

    static method PointerKeys(stores: map<string, Option<Handle>>) returns (keys: set<Handle>)
      ensures keys == Handles(stores)
    {
      keys := {};
      var todo := stores.Keys;
      while todo != {}
        invariant todo <= stores.Keys
        invariant keys <= Handles(stores)
        invariant forall n | n in stores && n !in todo && stores[n].Some? :: stores[n].value in keys
        decreases todo
      {
        var name :| name in todo;
        todo := todo - {name};
        if stores[name].Some? {
          keys := keys + {stores[name].value};
        }
      }
    }

    /** Swaps config and stores, keeping the prior city store when its reopen
        failed, and returns what was replaced. */
    method SwapStores(next: City, o: Opened) returns (oldRigStores: map<string, Option<Handle>>, oldCityStore: Option<Handle>)
      modifies this`cfg, this`beadStores, this`cityBeadStore, this`storeMetadataSignature
      ensures oldRigStores == old(beadStores)
      ensures oldCityStore == if o.city.Some? then old(cityBeadStore) else None
      ensures cfg == Some(next) && beadStores == o.rigs
      ensures cityBeadStore == if o.city.Some? then o.city else old(cityBeadStore)
      ensures storeMetadataSignature == if o.city.Some? then o.signature else old(storeMetadataSignature)
    {
      oldCityStore := None;
      cfg := Some(next);
      oldRigStores := beadStores;
      beadStores := o.rigs;
      if o.city.Some? {
        oldCityStore := cityBeadStore;
        cityBeadStore := o.city;
        storeMetadataSignature := o.signature;
      }
    }

    /** Schedules the replaced city handle, then the replaced rig handles. */
    method CloseReplaced(oldRigs: map<string, Option<Handle>>, oldCity: Option<Handle>, o: Opened)
      modifies this`scheduledCloses
      ensures scheduledCloses == old(scheduledCloses) + CityReplaced(oldCity, o.city) + Replaced(oldRigs, o.rigs)
    {
      if o.city.Some? && oldCity.Some? && oldCity != o.city {
        ScheduleClose(oldCity);
      }
      ScheduleCloseReplaced(oldRigs, o.rigs);
    }

    method ReplaceStores(next: City, o: Opened)
      modifies this`cfg, this`beadStores, this`cityBeadStore, this`storeMetadataSignature, this`scheduledCloses
      ensures State() == Update(old(State()), next, o)
    {
      var oldRigStores, oldCityStore := SwapStores(next, o);
      CloseReplaced(oldRigStores, oldCityStore, o);
    }

    method UpdateConfigAndProviderOnly(next: City)
      modifies this`cfg
      ensures State() == ConfigOnly(old(State()), next)
    {
      cfg := Some(next);
    }

    method MarkConfigMutationPending(revision: string)
      modifies this`pendingConfigRev, this`configMutationPending
      ensures State() == MarkPending(old(State()), revision)
    {
      pendingConfigRev := revision;
      configMutationPending := true;
    }

    method ClearConfigMutationPending()
      modifies this`pendingConfigRev, this`configMutationPending
      ensures State() == ClearPending(old(State()))
    {
      pendingConfigRev := "";
      configMutationPending := false;
    }

    static method StoreTopologyRigs(rigs: seq<Rig>) returns (result: map<string, (string, string)>)
      ensures result == TopologyRigs(rigs)
    {
      result := map[];
      for i := 0 to |rigs|
        invariant result == TopologyRigs(rigs[..i])
      {
        assert rigs[..i + 1][..i] == rigs[..i];
        result := result[rigs[i].name := TopologyOf(rigs[i])];
      }
      assert rigs[..|rigs|] == rigs;
    }

    static method SameStoreTopology(current: City, next: City) returns (same: bool)
      ensures same == SameTopology(Some(current), next)
    {
      var currentRigs := StoreTopologyRigs(current.rigs);
      var nextRigs := StoreTopologyRigs(next.rigs);
      same := Trim(current.beadsProvider) == Trim(next.beadsProvider) && Trim(current.mailProvider) == Trim(next.mailProvider)
              && current.hqPrefix == next.hqPrefix && currentRigs == nextRigs;
    }

    method AllStoresOpen(rigs: seq<Rig>) returns (all: bool)
      ensures all <==> forall i | 0 <= i < |rigs| && Bound(rigs[i]) :: StoreOpen(beadStores, rigs[i].name)
    {
      for i := 0 to |rigs|
        invariant forall k | 0 <= k < i && Bound(rigs[k]) :: StoreOpen(beadStores, rigs[k].name)
      {
        if Bound(rigs[i]) && !StoreOpen(beadStores, rigs[i].name) {
          return false;
        }
      }
      return true;
    }

    method RuntimeUpdateCanReuseCurrentStores(next: City, nextSignature: string) returns (reuse: bool)
      ensures reuse == CanReuse(State(), next, nextSignature)
    {
      if cityBeadStore.None? || cfg.None? {
        return false;
      }
      var same := SameStoreTopology(cfg.value, next);
      if !same || (storeMetadataSignature != "" && storeMetadataSignature != nextSignature) {
        return false;
      }
      reuse := AllStoresOpen(next.rigs);
    }

    method RuntimeUpdateDropsPendingRigs(next: City) returns (drops: bool)
      ensures drops == DropsBoundRigs(cfg, next)
    {
      if cfg.None? {
        return false;
      }
      var nextRigPaths: map<string, string> := map[];
      for i := 0 to |next.rigs|
        invariant forall n ::
          PathOf(next.rigs[..i], n) == if n in nextRigPaths then nextRigPaths[n] else ""
      {
        assert next.rigs[..i + 1][..i] == next.rigs[..i];
        nextRigPaths := nextRigPaths[next.rigs[i].name := Trim(next.rigs[i].path)];
      }
      assert next.rigs[..|next.rigs|] == next.rigs;
      var current := cfg.value;
      for i := 0 to |current.rigs|
        invariant forall k | 0 <= k < i ::
          !(Bound(current.rigs[k]) && PathOf(next.rigs, current.rigs[k].name) == "")
      {
        var rig := current.rigs[i];
        if Blank(rig.path) {
          continue;
        }
        if rig.name !in nextRigPaths || nextRigPaths[rig.name] == "" {
          return true;
        }
      }
      return false;
    }

    /** One runtime delivery. `current` is the revision read from disk, None
        when that read fails; `o` are the stores a rebuild would open. */
    method UpdateFromRuntime(next: City, revision: string, current: Option<string>, nextSignature: string, o: Opened)
      modifies this
      ensures State() == Deliver(old(State()), next, revision, current, nextSignature, o)
    {
      if configMutationPending {
        if pendingConfigRev == "" || revision == "" {
          return;
        }
        if revision == pendingConfigRev {
          var drops := RuntimeUpdateDropsPendingRigs(next);
          if drops {
            return;
          }
        } else if current != Some(revision) {
          return;
        }
      } else if revision != "" && current != Some(revision) {
        return;
      }
      var reuse := RuntimeUpdateCanReuseCurrentStores(next, nextSignature);
      if reuse {
        UpdateConfigAndProviderOnly(next);
        ClearConfigMutationPending();
        return;
      }
      ReplaceStores(next, o);
      ClearConfigMutationPending();
    }

    /** The reload of unchanged config whose store metadata changed. */
    method ReloadStoreMetadata(next: City, nextSignature: string, o: Opened) returns (updated: bool)
      modifies this
      ensures updated == MetadataChanged(old(State()), nextSignature)
      ensures State() == if updated then Update(old(State()), next, o) else old(State())
    {
      updated := storeMetadataSignature != "" && storeMetadataSignature != nextSignature;
      if updated {
        ReplaceStores(next, o);
      }
    }

    /** One API mutation; `failed` is whether the caller gets an error. */
    method MutateAndPoke(m: Mutation) returns (failed: bool)
      requires m.SnapshotFails? ==> cityPath != ""
      modifies this
      ensures State() == Mutate(old(State()), m)
      ensures failed <==> !(m.Edits? && (!Refreshes(old(State())) || Good(m.entry)))
    {
      if !m.Edits? {
        return true;
      }
      var revision := "";
      if cityPath != "" && cfg.Some? {
        if !Good(m.entry) {
          return true;
        }
        ReplaceStores(m.entry.cfg, m.o);
        revision := m.entry.rev;
      }
      MarkConfigMutationPending(revision);
      return false;
    }
  }
}
