/** pkg/config/record.go and pkg/config/syncer.go with their pointers: the cache holds pod objects, and
    `podChanged` writes through them and through the variable its loop shares between iterations. Every
    method is proved to be one step of module ControlPlane. */
module Syncers {

  import opened Words
  import opened Options
  import opened QosProgram
  import opened BpfMaps
  import opened ControlPlane

  /** The indexer, keyed by pod ID. `Repr` holds the pod objects and the variables their rate pointers
      aim at; `values` is what they amount to. */
  class PodCache {
    var store: map<string, PodConfig>
    ghost var Repr: set<object>
    ghost var values: map<string, Pod>

    constructor ()
      ensures Valid() && values == map[] && Repr == {}
    {
      store, Repr, values := map[], {}, map[];
    }

    /** Every object is filed under its own ID, so no object is filed twice. */
    ghost predicate Filed(id: string)
      reads this, Repr
    {
      && id in store && id in values
      && store[id] in Repr && store[id].rxBps in Repr && store[id].txBps in Repr
      && store[id].podID == id
      && store[id].Value() == values[id]
    }

    ghost predicate Valid()
      reads this, Repr
    {
      && this !in Repr
      && values.Keys == store.Keys
      && forall id :: id in store ==> Filed(id)
    }

    /** Valid but for the value recorded of one pod. */
    ghost predicate ValidBut(id: string)
      reads this, Repr
    {
      && this !in Repr
      && values.Keys == store.Keys
      && forall i :: i in store && i != id ==> Filed(i)
    }

    /** Brings the recorded value of a pod whose object was changed in place up to date. */
    ghost method Record(config: PodConfig)
      requires ValidBut(config.podID) && config.podID in store && store[config.podID] == config
      requires config in Repr && config.rxBps in Repr && config.txBps in Repr
      modifies this`values
      ensures Valid() && values == old(values)[config.podID := config.Value()]
    {
      values := values[config.podID := config.Value()];
      forall id | id in store ensures Filed(id) {
        assert id != config.podID ==> old(Filed(id));
      }
    }

    method ByPodID(id: string) returns (config: PodConfig?)
      requires Valid()
      ensures config == null ==> id !in values
      ensures config != null ==> id in store && config == store[id] && id in values && config.Value() == values[id]
    {
      config := if id in store then store[id] else null;
    }

    /** Some pod with the path, or nothing when there is none. */
    method ByCgroupPath(path: string) returns (config: PodConfig?)
      requires Valid()
      ensures config == null ==> forall id :: id in values ==> values[id].cgroup.path != path
      ensures config != null ==>
        config.podID in store && store[config.podID] == config && values[config.podID].cgroup.path == path
    {
      var left := store.Keys;
      while left != {}
        invariant left <= store.Keys
        invariant forall id :: id in values && id !in left ==> values[id].cgroup.path != path
        decreases left
      {
        var id :| id in left;
        assert Filed(id);
        if store[id].cgroupInfo.path == path {
          return store[id];
        }
        left := left - {id};
      }
      config := null;
    }

    method Update(config: PodConfig)
      requires Valid()
      modifies this
      ensures Valid() && store == old(store)[config.podID := config]
      ensures Repr == old(Repr) + {config, config.rxBps, config.txBps}
      ensures values == old(values)[config.podID := config.Value()]
    {
      ghost var value := config.Value();
      store := store[config.podID := config];
      Repr := Repr + {config, config.rxBps, config.txBps};
      values := values[config.podID := value];
      forall id | id in store ensures Filed(id) {
        assert id != config.podID ==> old(Filed(id));
      }
    }

    method AddIfNotPresent(config: PodConfig)
      requires Valid()
      modifies this
      ensures Valid()
      ensures values == if config.podID in old(values) then old(values) else old(values)[config.podID := config.Value()]
    {
      if config.podID in store {
        return;
      }
      store := store[config.podID := config];
      Repr := Repr + {config, config.rxBps, config.txBps};
      values := values[config.podID := config.Value()];
    }

    method DelByPodID(id: string)
      requires Valid()
      modifies this`store, this`values
      ensures Valid() && values == old(values) - {id}
    {
      store := store - {id};
      values := values - {id};
    }
  }

  class Syncer {
    const writer: Writer
    const podCache: PodCache

    constructor ()
      ensures Valid() && State() == Plane(map[], Tables(map[], map[]))
    {
      writer := new Writer();
      podCache := new PodCache();
    }

    ghost predicate Valid()
      reads podCache, podCache.Repr
    {
      podCache.Valid() && writer !in podCache.Repr
    }

    ghost function State(): Plane reads podCache, writer { Plane(podCache.values, writer.State()) }

    method DeletePod(id: string)
      requires Valid()
      modifies podCache, writer
      ensures Valid() && State() == DeleteStep(old(State()), id)
    {
      var config := podCache.ByPodID(id);
      if config == null {
        return;
      }
      Forget(id, config);
    }

    method Forget(id: string, config: PodConfig)
      requires Valid() && id in podCache.values && config.Value() == podCache.values[id]
      modifies podCache, writer`podMap
      ensures Valid() && podCache.values == old(podCache.values) - {id}
      ensures writer.podMap == old(writer.podMap) - Keys(old(podCache.values)[id])
    {
      podCache.DelByPodID(id);
      writer.DeletePodInfo(config);
    }

    /** The caller hands over a pod object of its own. `found` is the result of the cgroup lookup and
        `classOk` that of writing a host-network pod's class. */
    method UpdatePod(config: PodConfig, found: Option<PodCgroup>, classOk: bool) returns (outcome: Outcome)
      requires Valid() && config !in podCache.Repr
      modifies podCache, writer, config
      ensures Valid()
      ensures (State(), outcome) == UpdateStep(old(State()), old(config.Value()), found, classOk)
    {
      var known := MergeCached(config, found);
      if !known {
        return Failed;
      }
      outcome := StoreAndWrite(config, classOk);
    }

    /** The tail UpdatePod and podChangeLocked share. */
    method StoreAndWrite(config: PodConfig, classOk: bool) returns (outcome: Outcome)
      requires Valid()
      modifies podCache, writer
      ensures Valid()
      ensures podCache.store == old(podCache.store)[config.podID := config]
      ensures podCache.Repr == old(podCache.Repr) + {config, config.rxBps, config.txBps}
      ensures (State(), outcome) == StoreStep(old(State()), config.Value(), classOk)
    {
      podCache.Update(config);
      if config.hostNetwork && config.prio.Some? && !classOk {
        return Failed;
      }
      writer.WritePodInfo(config);
      outcome := Done;
    }

    /** The half of UpdatePod that fills the new object from the cached one, or from the cgroup found. */
    method MergeCached(config: PodConfig, found: Option<PodCgroup>) returns (known: bool)
      requires Valid() && config !in podCache.Repr
      modifies config
      ensures known == (config.podID in podCache.values || found.Some?)
      ensures known ==> config.Value() == Merged(podCache.values, old(config.Value()), found)
    {
      var prev := podCache.ByPodID(config.podID);
      if prev != null {
        assert podCache.Filed(config.podID);
        TakeOver(config, prev);
      } else {
        if found.None? {
          return false;
        }
        config.cgroupInfo := found.value;
      }
      ApplyPrio(config);
      known := true;
    }

    static method TakeOver(config: PodConfig, prev: PodConfig)
      requires config != prev
      modifies config
      ensures config.Value() == old(config.Value()).(
        cgroup := prev.cgroupInfo,
        rxBps := KeptRate(old(config.rxBps.value), prev.rxBps.value),
        txBps := KeptRate(old(config.txBps.value), prev.txBps.value))
    {
      config.cgroupInfo := prev.cgroupInfo;
      if config.txBps.value.Some? {
        config.txBps := prev.txBps;
      }
      if config.rxBps.value.Some? {
        config.rxBps := prev.rxBps;
      }
    }

    static method ApplyPrio(config: PodConfig)
      modifies config
      ensures config.Value() == WithPrio(old(config.Value()))
    {
      var prio := config.prio;
      if prio.Some? && prio.value <= 2 {
        config.cgroupInfo := config.cgroupInfo.(classId := prio.value);
      }
    }

    // ---- podChanged ----

    /** A pod's rate pointers aim both at the loop's variables, or both elsewhere. */
    ghost predicate AimsAt(c: PodConfig, hit: bool, rx: RateVar, tx: RateVar) reads c {
      (c.rxBps == rx <==> hit) && (c.txBps == tx <==> hit) && c.rxBps != tx && c.txBps != rx
    }

    /** The cached pods whose rate pointers aim at the loop's own variables are the aliased ones. */
    ghost predicate Aims(aliased: set<string>, rx: RateVar, tx: RateVar)
      reads podCache, podCache.Repr
    {
      && rx != tx && rx in podCache.Repr && tx in podCache.Repr
      && forall id :: id in podCache.store && podCache.store[id] in podCache.Repr ==>
           AimsAt(podCache.store[id], id in aliased, rx, tx)
    }

    method NewLoopVariable() returns (rx: RateVar, tx: RateVar)
      requires Valid()
      modifies podCache`Repr
      ensures Valid() && Aims({}, rx, tx) && fresh(podCache.Repr - old(podCache.Repr))
    {
      rx := new RateVar(None);
      tx := new RateVar(None);
      podCache.Repr := podCache.Repr + {rx, tx};
      assert forall id :: id in podCache.store ==> podCache.Filed(id);
    }

    /** `for _, pod := range pods`: one variable for the whole loop, overwritten at each turn. */
    method AdvanceLoopVariable(e: Entry, rx: RateVar, tx: RateVar, ghost aliased: set<string>)
      requires Valid() && Aims(aliased, rx, tx)
      modifies rx, tx, podCache`values
      ensures Valid() && Aims(aliased, rx, tx)
      ensures rx.value == Some(e.rxBps) && tx.value == Some(e.txBps)
      ensures podCache.values == Overwritten(old(podCache.values), aliased, e)
    {
      rx.value := Some(e.rxBps);
      tx.value := Some(e.txBps);
      podCache.values := Overwritten(podCache.values, aliased, e);
    }

    /** Points a cached pod at the loop variable and gives it the entry's class, if that is a class. */
    method Retarget(config: PodConfig, e: Entry, rx: RateVar, tx: RateVar, ghost aliased: set<string>)
      requires Valid() && Aims(aliased, rx, tx)
      requires config.podID in podCache.store && podCache.store[config.podID] == config
      requires rx.value == Some(e.rxBps) && tx.value == Some(e.txBps)
      modifies config, podCache`values
      ensures Valid() && Aims(aliased + {config.podID}, rx, tx)
      ensures config.Value() == Retargeted(old(podCache.values)[config.podID], e)
      ensures podCache.values == old(podCache.values)[config.podID := config.Value()]
    {
      assert podCache.Filed(config.podID);
      FollowEntry(config, e, rx, tx, aliased);
      podCache.Record(config);
    }

    method FollowEntry(config: PodConfig, e: Entry, rx: RateVar, tx: RateVar, ghost aliased: set<string>)
      requires Valid() && Aims(aliased, rx, tx)
      requires config.podID in podCache.store && podCache.store[config.podID] == config
      requires rx.value == Some(e.rxBps) && tx.value == Some(e.txBps)
      modifies config
      ensures config.Value() == Retargeted(old(config.Value()), e) && config.rxBps == rx && config.txBps == tx
      ensures podCache.ValidBut(config.podID) && Aims(aliased + {config.podID}, rx, tx)
    {
      FollowPointers(config, e, rx, tx);
      forall id | id in podCache.store && id != config.podID
        ensures podCache.Filed(id) && AimsAt(podCache.store[id], id in aliased, rx, tx)
      {
        assert old(podCache.Filed(id)) && podCache.store[id] != config;
        assert old(AimsAt(podCache.store[id], id in aliased, rx, tx));
      }
    }

    static method FollowPointers(config: PodConfig, e: Entry, rx: RateVar, tx: RateVar)
      requires rx.value == Some(e.rxBps) && tx.value == Some(e.txBps)
      modifies config
      ensures config.Value() == Retargeted(old(config.Value()), e) && config.rxBps == rx && config.txBps == tx
    {
      if 0 <= e.prio <= 2 {
        config.prio := Some(e.prio);
        config.cgroupInfo := config.cgroupInfo.(classId := e.prio);
      }
      config.rxBps := rx;
      config.txBps := tx;
    }

    /** Its log line dereferences the class. */
    method PodChangeLocked(config: PodConfig, classOk: bool) returns (outcome: Outcome)
      requires Valid() && config.podID in podCache.store && podCache.store[config.podID] == config
      modifies podCache, writer
      ensures Valid() && podCache.store == old(podCache.store) && podCache.Repr == old(podCache.Repr)
      ensures (State(), outcome)
        == if config.prio.None? then (old(State()), Panicked) else StoreStep(old(State()), config.Value(), classOk)
    {
      if config.prio.None? {
        return Panicked;
      }
      outcome := StoreAndWrite(config, classOk);
      assert podCache.store == old(podCache.store);
      assert podCache.Repr == old(podCache.Repr);
    }

    /** Deletes the rates of every inode that was not processed. */
    method SweepRates(current: set<u64>)
      modifies writer`cgroupRateMap
      ensures writer.cgroupRateMap == Swept(old(writer.cgroupRateMap), current)
    {
      var olds := set k | k in writer.cgroupRateMap.Keys :: k.inode;
      var stale := olds - current;
      while stale != {}
        invariant stale !! current
        invariant forall k :: k in writer.cgroupRateMap ==> k in old(writer.cgroupRateMap)
        invariant forall k :: k in old(writer.cgroupRateMap) && (k.inode in stale || k.inode in current) ==>
          k in writer.cgroupRateMap && writer.cgroupRateMap[k] == old(writer.cgroupRateMap)[k]
        invariant forall k :: k in writer.cgroupRateMap ==> k.inode in stale || k.inode in current
        decreases stale
      {
        var inode :| inode in stale;
        writer.DeleteCgroupRate(inode);
        forall k: CgroupRateId { TwoDirections(k); }
        stale := stale - {inode};
      }
    }

    /** One turn of the loop, the variable already moved on. */
    method VisitEntry(e: Entry, rx: RateVar, tx: RateVar, ghost aliased: set<string>, current: set<u64>)
      returns (outcome: Outcome, current': set<u64>, ghost aliased': set<string>, ghost choice: Option<string>)
      requires Valid() && Aims(aliased, rx, tx)
      modifies podCache, podCache.Repr, writer
      ensures Valid() && Aims(aliased', rx, tx) && podCache.Repr == old(podCache.Repr)
      ensures ValidChoice(old(podCache.values), e, choice)
      ensures Pass(State(), aliased', current', outcome) == Visit(Pass(old(State()), aliased, current, Done), e, choice)
    {
      ghost var before := State();
      outcome, current', aliased', choice := Done, current, aliased, None;
      AdvanceLoopVariable(e, rx, tx, aliased);
      if e.cgroup.None? {
        return;
      }
      var config := podCache.ByCgroupPath(e.cgroup.value.path);
      ChoiceBeforeOverwriting(before.cache, aliased, e, if config == null then None else Some(config.podID));
      if config == null {
        return;
      }
      choice := Some(config.podID);
      aliased' := aliased + {config.podID};
      current' := current + {e.cgroup.value.inode};
      VisitAsStore(Pass(before, aliased, current, Done), e, config.podID);
      outcome := VisitCached(config, e, rx, tx, aliased);
    }

    /** The part of a turn that has found its pod. */
    method VisitCached(config: PodConfig, e: Entry, rx: RateVar, tx: RateVar, ghost aliased: set<string>)
      returns (outcome: Outcome)
      requires Valid() && Aims(aliased, rx, tx)
      requires config.podID in podCache.store && podCache.store[config.podID] == config
      requires rx.value == Some(e.rxBps) && tx.value == Some(e.txBps)
      modifies podCache, podCache.Repr, writer
      ensures Valid() && Aims(aliased + {config.podID}, rx, tx) && podCache.Repr == old(podCache.Repr)
      ensures (State(), outcome) == StoreRetargeted(old(State()), config.podID, e)
    {
      ghost var pl, id := State(), config.podID;
      Retarget(config, e, rx, tx, aliased);
      assert State() == pl.(cache := pl.cache[id := config.Value()]);
      outcome := PodChangeLocked(config, e.classOk);
    }

    /** `choices` records what the index returned for the entries seen; after an error or a panic the rest
        of the list is not looked at and nothing is swept. */
    method PodChanged(entries: seq<Entry>) returns (outcome: Outcome, ghost choices: seq<Option<string>>)
      requires Valid()
      modifies podCache, podCache.Repr, writer
      ensures Valid()
      ensures |choices| <= |entries| && (outcome == Done ==> |choices| == |entries|)
      ensures ValidChoices(old(podCache.values), entries[..|choices|], choices)
      ensures (State(), outcome) == ChangedStep(old(State()), entries[..|choices|], choices)
    {
      ghost var start := State();
      var rx, tx := NewLoopVariable();
      ghost var aliased: set<string> := {};
      var current: set<u64> := {};
      choices := [];
      for i := 0 to |entries|
        invariant |choices| == i
        invariant Valid() && Aims(aliased, rx, tx) && fresh(podCache.Repr - old(podCache.Repr))
        invariant ValidChoices(start.cache, entries[..i], choices)
        invariant Loop(start, entries[..i], choices) == Pass(State(), aliased, current, Done)
      {
        ghost var choice;
        ghost var seen := choices;
        outcome, current, aliased, choice := VisitEntry(entries[i], rx, tx, aliased, current);
        choices := choices + [choice];
        LoopGrows(start, entries[..i], seen, entries[i], choice);
        assert entries[..i + 1] == entries[..i] + [entries[i]];
        if outcome != Done {
          return;
        }
      }
      assert entries[..|entries|] == entries;
      SweepRates(current);
      outcome := Done;
    }
  }

  lemma ChoiceBeforeOverwriting(cache: map<string, Pod>, aliased: set<string>, e: Entry, choice: Option<string>)
    ensures ValidChoice(Overwritten(cache, aliased, e), e, choice) ==> ValidChoice(cache, e, choice)
  {
    if choice.None? && ValidChoice(Overwritten(cache, aliased, e), e, choice) && e.cgroup.Some? {
      forall id | id in cache ensures cache[id].cgroup.path != e.cgroup.value.path {
        assert id in Overwritten(cache, aliased, e);
      }
    }
  }

  lemma TwoDirections(k: CgroupRateId)
    ensures k == InId(k.inode) || k == OutId(k.inode)
  {
    match k.direction {
      case Ingress =>
      case Egress =>
    }
  }

  /** Retargeting a cached pod and storing it. */
  function StoreRetargeted(pl: Plane, id: string, e: Entry): (Plane, Outcome)
    requires id in pl.cache
  {
    var p := Retargeted(pl.cache[id], e);
    var pl' := pl.(cache := pl.cache[id := p]);
    if p.prio.None? then (pl', Panicked) else StoreStep(pl', p, e.classOk)
  }

  lemma VisitAsStore(s: Pass, e: Entry, id: string)
    requires s.outcome == Done && e.cgroup.Some? && id in s.plane.cache && s.plane.cache[id].id == id
    ensures var pl := s.plane.(cache := Overwritten(s.plane.cache, s.aliased, e));
      var (pl', outcome) := StoreRetargeted(pl, id, e);
      Visit(s, e, Some(id)) == Pass(pl', s.aliased + {id}, s.current + {e.cgroup.value.inode}, outcome)
  {
  }

  /** One more turn, whose choice is valid for the cache it finds, is valid for the cache of the start: the
      loop changes neither the cached IDs nor their cgroup paths. */
  lemma LoopGrows(pl: Plane, es: seq<Entry>, cs: seq<Option<string>>, e: Entry, choice: Option<string>)
    requires ValidChoices(pl.cache, es, cs) && ValidChoice(Loop(pl, es, cs).plane.cache, e, choice)
    ensures ValidChoices(pl.cache, es + [e], cs + [choice])
    ensures Loop(pl, es + [e], cs + [choice]) == Visit(Loop(pl, es, cs), e, choice)
  {
    LoopKeepsPaths(pl, es, cs);
    assert (es + [e])[..|es|] == es && (cs + [choice])[..|cs|] == cs;
  }

  /** The same pods, with the same cgroup paths. */
  ghost predicate SamePaths(a: map<string, Pod>, b: map<string, Pod>) {
    a.Keys == b.Keys && forall id :: id in a ==> a[id].cgroup.path == b[id].cgroup.path
  }

  lemma {:induction false} LoopKeepsPaths(pl: Plane, es: seq<Entry>, cs: seq<Option<string>>)
    requires |es| == |cs|
    ensures SamePaths(pl.cache, Loop(pl, es, cs).plane.cache)
    decreases |es|
  {
    if es != [] { LoopKeepsPaths(pl, es[..|es| - 1], cs[..|cs| - 1]); }
  }
}
