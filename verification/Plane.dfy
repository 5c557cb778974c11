/** The control plane as a value: the pod cache and the pod tables, what each operation of
    pkg/config/syncer.go turns them into, and what every sequence of operations keeps. Module Syncers
    proves the pointer-chasing code against these steps. */
module ControlPlane {

  import opened Words
  import opened Options
  import opened AddressKeys
  import opened QosProgram
  import opened BpfMaps
  import opened Claims

  datatype Plane = Plane(cache: map<string, Pod>, tables: Tables)

  /** A step ends normally, with an error, or in a nil dereference. */
  datatype Outcome = Done | Failed | Panicked

  // ---- UpdatePod and DeletePod ----

  /** The prior rate wins whenever a rate is given; a pod without one loses it. */
  function KeptRate(given: Option<u64>, prev: Option<u64>): Option<u64> { if given.Some? then prev else None }

  function WithPrio(p: Pod): Pod {
    if p.prio.Some? && p.prio.value <= 2 then p.(cgroup := p.cgroup.(classId := p.prio.value)) else p
  }

  /** The record UpdatePod caches. `found` is what the cgroup lookup returns for a new pod. */
  function Merged(cache: map<string, Pod>, pod: Pod, found: Option<PodCgroup>): Pod
    requires pod.id in cache || found.Some?
  {
    if pod.id in cache then
      var prev := cache[pod.id];
      WithPrio(pod.(cgroup := prev.cgroup, rxBps := KeptRate(pod.rxBps, prev.rxBps),
                    txBps := KeptRate(pod.txBps, prev.txBps)))
    else WithPrio(pod.(cgroup := found.value))
  }

  /** Caching a record, setting the class of a host-network pod's cgroup (`classOk` tells whether that
      succeeds) and writing the tables: the common tail of UpdatePod and podChangeLocked. */
  function StoreStep(pl: Plane, p: Pod, classOk: bool): (Plane, Outcome) {
    var cache := pl.cache[p.id := p];
    if p.hostNetwork && p.prio.Some? && !classOk then (Plane(cache, pl.tables), Failed)
    else (Plane(cache, PodWrite(pl.tables, p)), Done)
  }

  function UpdateStep(pl: Plane, pod: Pod, found: Option<PodCgroup>, classOk: bool): (Plane, Outcome) {
    if pod.id !in pl.cache && found.None? then (pl, Failed)
    else StoreStep(pl, Merged(pl.cache, pod, found), classOk)
  }

  function DeleteStep(pl: Plane, id: string): Plane {
    if id !in pl.cache then pl
    else Plane(pl.cache - {id}, pl.tables.(pods := pl.tables.pods - Keys(pl.cache[id])))
  }

  // ---- podChanged ----

  /** One listed pod: what reading its cgroup directory gives, and the settings asked for. */
  datatype Entry = Entry(cgroup: Option<PodCgroup>, prio: int, rxBps: u64, txBps: u64, classOk: bool)

  /** A pass in progress: `aliased` are the pods whose rate pointers aim at the loop variable, `current`
      the inodes processed. */
  datatype Pass = Pass(plane: Plane, aliased: set<string>, current: set<u64>, outcome: Outcome)

  predicate GivesClass(e: Entry) { 0 <= e.prio <= 2 }

  function WithRates(p: Pod, e: Entry): Pod { p.(rxBps := Some(e.rxBps), txBps := Some(e.txBps)) }

  /** Moving the loop variable to the next entry changes every rate that points at it. */
  function Overwritten(cache: map<string, Pod>, aliased: set<string>, e: Entry): map<string, Pod> {
    map id | id in cache :: if id in aliased then WithRates(cache[id], e) else cache[id]
  }

  function Retargeted(p: Pod, e: Entry): Pod {
    WithRates(if GivesClass(e) then p.(prio := Some(e.prio), cgroup := p.cgroup.(classId := e.prio)) else p, e)
  }

  /** One iteration; `choice` is the pod the index returns for the entry's cgroup path. */
  function Visit(s: Pass, e: Entry, choice: Option<string>): Pass {
    if s.outcome != Done then s
    else
      var cache := Overwritten(s.plane.cache, s.aliased, e);
      if e.cgroup.None? || choice.None? || choice.value !in cache then s.(plane := s.plane.(cache := cache))
      else
        var p := Retargeted(cache[choice.value], e);
        var s' := Pass(Plane(cache[choice.value := p], s.plane.tables), s.aliased + {choice.value},
                       s.current + {e.cgroup.value.inode}, Done);
        if p.prio.None? then s'.(outcome := Panicked)
        else if p.hostNetwork && !e.classOk then s'.(outcome := Failed)
        else s'.(plane := s'.plane.(tables := PodWrite(s.plane.tables, p)))
  }

  function Loop(pl: Plane, es: seq<Entry>, cs: seq<Option<string>>): Pass
    requires |es| == |cs|
    decreases |es|
  {
    if es == [] then Pass(pl, {}, {}, Done)
    else Visit(Loop(pl, es[..|es| - 1], cs[..|cs| - 1]), es[|es| - 1], cs[|cs| - 1])
  }

  function Swept(m: RateTable, current: set<u64>): RateTable { map k | k in m && k.inode in current :: m[k] }

  function ChangedStep(pl: Plane, es: seq<Entry>, cs: seq<Option<string>>): (Plane, Outcome)
    requires |es| == |cs|
  {
    var s := Loop(pl, es, cs);
    if s.outcome != Done then (s.plane, s.outcome)
    else (s.plane.(tables := s.plane.tables.(rates := Swept(s.plane.tables.rates, s.current))), Done)
  }

  /** The index returns some cached pod with that path, or nothing if there is none. */
  ghost predicate ValidChoice(cache: map<string, Pod>, e: Entry, choice: Option<string>) {
    e.cgroup.Some? ==>
      match choice
      case None => forall id :: id in cache ==> cache[id].cgroup.path != e.cgroup.value.path
      case Some(id) => id in cache && cache[id].cgroup.path == e.cgroup.value.path
  }

  ghost predicate ValidChoices(cache: map<string, Pod>, es: seq<Entry>, cs: seq<Option<string>>) {
    |es| == |cs| && forall i :: 0 <= i < |es| ==> ValidChoice(cache, es[i], cs[i])
  }

  // ---- agreement ----

  function ClaimOf(p: Pod): Claim<IpKey, CgroupInfo> { Claim(Keys(p), InfoOf(p)) }

  /** Each cached pod claims its addresses for its present class and inode. */
  function ClaimsOf(cache: map<string, Pod>): Owners<IpKey, CgroupInfo> {
    map id | id in cache :: ClaimOf(cache[id])
  }

  /** No two cached pods share an address, and pod_map holds exactly the addresses of the cached pods
      that have their own network, each with that pod's present class and inode. */
  ghost predicate InAgreement(pl: Plane) {
    Disjoint(ClaimsOf(pl.cache)) && Agreed(ClaimsOf(pl.cache), pl.tables.pods)
  }

  /** No address of the pod belongs to another cached pod. */
  ghost predicate AddressesFree(cache: map<string, Pod>, pod: Pod) { Free(ClaimsOf(cache), pod.id, ClaimOf(pod)) }

  /** An address of a cached pod is in pod_map with that pod's class and inode. */
  lemma OwnerWrites(pl: Plane, id: string, key: IpKey)
    requires InAgreement(pl) && id in pl.cache && key in Keys(pl.cache[id])
    ensures key in pl.tables.pods && pl.tables.pods[key] == InfoOf(pl.cache[id])
  {
    var o := ClaimsOf(pl.cache);
    assert id in o && key in o[id].keys;
  }

  lemma ClaimsOfUpdate(cache: map<string, Pod>, id: string, p: Pod)
    ensures ClaimsOf(cache[id := p]) == ClaimsOf(cache)[id := ClaimOf(p)]
  {
  }

  lemma ClaimsOfRemoval(cache: map<string, Pod>, id: string)
    ensures ClaimsOf(cache - {id}) == ClaimsOf(cache) - {id}
  {
  }

  lemma PodWriteIsPut(t: Tables, p: Pod)
    ensures PodWrite(t, p).pods == Put(t.pods, ClaimOf(p))
  {
    if p.hostNetwork {
      assert Keys(p) == {};
      assert Put(t.pods, ClaimOf(p)) == t.pods;
    }
  }

  lemma MergedKeys(cache: map<string, Pod>, pod: Pod, found: Option<PodCgroup>)
    requires pod.id in cache || found.Some?
    ensures Keys(Merged(cache, pod, found)) == Keys(pod) && Merged(cache, pod, found).id == pod.id
  {
  }

  lemma DeleteKeepsAgreement(pl: Plane, id: string)
    requires InAgreement(pl)
    ensures InAgreement(DeleteStep(pl, id))
  {
    if id in pl.cache {
      ClaimsOfRemoval(pl.cache, id);
      DropAgrees(ClaimsOf(pl.cache), pl.tables.pods, id);
    }
  }

  /** A successful UpdatePod keeps the tables in agreement exactly when the pod has not given up an
      address it had: the old entry is never removed. */
  lemma UpdateAgreesExactly(pl: Plane, pod: Pod, found: Option<PodCgroup>, classOk: bool)
    requires InAgreement(pl) && AddressesFree(pl.cache, pod)
    requires UpdateStep(pl, pod, found, classOk).1 == Done
    ensures InAgreement(UpdateStep(pl, pod, found, classOk).0)
        <==> (pod.id in pl.cache ==> Keys(pl.cache[pod.id]) <= Keys(pod))
  {
    MergedKeys(pl.cache, pod, found);
    var p := Merged(pl.cache, pod, found);
    WriteAgreesExactly(pl, pod.id, p);
  }

  /** Caching a record and writing it. */
  lemma WriteAgreesExactly(pl: Plane, id: string, p: Pod)
    requires InAgreement(pl) && Free(ClaimsOf(pl.cache), id, ClaimOf(p))
    ensures InAgreement(Plane(pl.cache[id := p], PodWrite(pl.tables, p)))
        <==> (id in pl.cache ==> Keys(pl.cache[id]) <= Keys(p))
  {
    var o := ClaimsOf(pl.cache);
    ClaimsOfUpdate(pl.cache, id, p);
    PodWriteIsPut(pl.tables, p);
    PutStaysDisjoint(o, id, ClaimOf(p));
    PutAgreesExactly(o, pl.tables.pods, id, ClaimOf(p));
    assert id in pl.cache ==> o[id].keys == Keys(pl.cache[id]);
  }

  lemma OverwrittenClaims(cache: map<string, Pod>, aliased: set<string>, e: Entry)
    ensures ClaimsOf(Overwritten(cache, aliased, e)) == ClaimsOf(cache)
  {
    forall id | id in cache ensures ClaimOf(Overwritten(cache, aliased, e)[id]) == ClaimOf(cache[id]) {
      KeysIgnoreSettings(cache[id], e);
    }
  }

  lemma KeysIgnoreSettings(p: Pod, e: Entry)
    ensures ClaimOf(WithRates(p, e)) == ClaimOf(p) && Keys(Retargeted(p, e)) == Keys(p)
  {
  }

  lemma VisitAgrees(s: Pass, e: Entry, choice: Option<string>)
    requires s.outcome == Done && InAgreement(s.plane) && Visit(s, e, choice).outcome == Done
    ensures InAgreement(Visit(s, e, choice).plane)
  {
    var cache := Overwritten(s.plane.cache, s.aliased, e);
    OverwrittenClaims(s.plane.cache, s.aliased, e);
    if e.cgroup.Some? && choice.Some? && choice.value in cache {
      var id := choice.value;
      KeysIgnoreSettings(cache[id], e);
      assert ClaimsOf(cache)[id].keys == Keys(cache[id]);
      WriteAgreesExactly(Plane(cache, s.plane.tables), id, Retargeted(cache[id], e));
    }
  }

  lemma {:induction false} LoopAgrees(pl: Plane, es: seq<Entry>, cs: seq<Option<string>>)
    requires |es| == |cs| && InAgreement(pl) && Loop(pl, es, cs).outcome == Done
    ensures InAgreement(Loop(pl, es, cs).plane)
    decreases |es|
  {
    if es != [] {
      var n := |es| - 1;
      LoopAgrees(pl, es[..n], cs[..n]);
      VisitAgrees(Loop(pl, es[..n], cs[..n]), es[n], cs[n]);
    }
  }

  /** "Hot update of annotations": for a cached pod with its own network, the limit in the table is the
      annotated one after a successful UpdatePod exactly when the annotation is absent, or equals the limit
      cached before: a changed annotation never gets through. Egress has one more obstacle: where the
      ingress limit to be written stands in the table already, egress is left as it was. */
  lemma HotUpdateExactly(pl: Plane, pod: Pod, found: Option<PodCgroup>, classOk: bool)
    requires pod.id in pl.cache && !pod.hostNetwork && UpdateStep(pl, pod, found, classOk).1 == Done
    ensures var cached, rates := pl.cache[pod.id], pl.tables.rates;
      var inode, rates' := cached.cgroup.inode, UpdateStep(pl, pod, found, classOk).0.tables.rates;
      && (AsRequested(rates', InId(inode), OrZero(pod.rxBps))
          <==> pod.rxBps.None? || OrZero(cached.rxBps) == OrZero(pod.rxBps))
      && (AsRequested(rates', OutId(inode), OrZero(pod.txBps))
          <==> if StopsEarly(rates, inode, OrZero(KeptRate(pod.rxBps, cached.rxBps)))
               then AsRequested(rates, OutId(inode), OrZero(pod.txBps))
               else pod.txBps.None? || OrZero(cached.txBps) == OrZero(pod.txBps))
  {
    var p := Merged(pl.cache, pod, found);
    RateWriteOutcome(pl.tables.rates, p.cgroup.inode, OrZero(p.rxBps), OrZero(p.txBps));
  }

  // ---- what an update and a deletion leave ----

  /** The class a pod asks for, or the one its cgroup had. */
  function ClassAsked(prio: Option<u32>, before: u32): u32 {
    match prio
    case Some(v) => if v < 3 then v else before
    case None => before
  }

  /** The record an update caches: a pod's priority becomes its class, and the rest is as given, but for the cgroup
      and the rates a cached pod keeps. No other pod's record changes. */
  lemma UpdateCaches(pl: Plane, pod: Pod, found: Option<PodCgroup>, classOk: bool)
    requires pod.id in pl.cache || found.Some?
    ensures var cache := UpdateStep(pl, pod, found, classOk).0.cache;
      var known := pod.id in pl.cache;
      var before := if known then pl.cache[pod.id].cgroup else found.value;
      && pod.id in cache && cache - {pod.id} == pl.cache - {pod.id}
      && cache[pod.id] == pod.(
           cgroup := PodCgroup(before.path, ClassAsked(pod.prio, before.classId), before.inode),
           rxBps := if known && pod.rxBps.Some? then pl.cache[pod.id].rxBps else pod.rxBps,
           txBps := if known && pod.txBps.Some? then pl.cache[pod.id].txBps else pod.txBps)
  {
  }

  /** After a successful update pod_map gives every address of the pod its class and its cgroup's inode, and no
      other address changes. */
  lemma UpdateGivesClass(pl: Plane, pod: Pod, found: Option<PodCgroup>, classOk: bool)
    requires UpdateStep(pl, pod, found, classOk).1 == Done
    ensures var pods := UpdateStep(pl, pod, found, classOk).0.tables.pods;
      var before := if pod.id in pl.cache then pl.cache[pod.id].cgroup else found.value;
      var asked := ClassAsked(pod.prio, before.classId);
      && UpdateStep(pl, pod, found, classOk).0.cache.Keys == pl.cache.Keys + {pod.id}
      && UpdateStep(pl, pod, found, classOk).0.cache[pod.id].cgroup == PodCgroup(before.path, asked, before.inode)
      && (forall k :: k in Keys(pod) ==> k in pods && pods[k] == CgroupInfo(asked, before.inode))
      && (forall k :: k !in Keys(pod) ==>
           (k in pods <==> k in pl.tables.pods) && (k in pods ==> pods[k] == pl.tables.pods[k]))
  {
    var p := Merged(pl.cache, pod, found);
    UpdateCaches(pl, pod, found, classOk);
    MergedKeys(pl.cache, pod, found);
    assert UpdateStep(pl, pod, found, classOk).0.tables.pods == Put(pl.tables.pods, ClaimOf(p)) by {
      PodWriteIsPut(pl.tables, p);
    }
  }

  /** A host-network pod leaves both tables alone, at an update as at a deletion. */
  lemma HostNetworkLeavesTables(pl: Plane, pod: Pod, found: Option<PodCgroup>, classOk: bool)
    ensures pod.hostNetwork ==> UpdateStep(pl, pod, found, classOk).0.tables == pl.tables
    ensures pod.id in pl.cache && pl.cache[pod.id].hostNetwork ==> DeleteStep(pl, pod.id).tables == pl.tables
  {
  }

  /** An update fails exactly when a new pod's cgroup is not found, which changes nothing, or the class of a
      host-network pod cannot be written, which leaves it cached. */
  lemma UpdateFailsExactly(pl: Plane, pod: Pod, found: Option<PodCgroup>, classOk: bool)
    ensures var (pl', outcome) := UpdateStep(pl, pod, found, classOk);
      var unknown := pod.id !in pl.cache && found.None?;
      var unwritten := pod.hostNetwork && pod.prio.Some? && !classOk;
      && outcome == (if unknown || unwritten then Failed else Done)
      && (unknown ==> pl' == pl)
      && (!unknown ==> pod.id in pl'.cache)
      && (outcome == Failed ==> pl'.tables == pl.tables)
  {
  }

  /** A deleted pod goes from the cache with its addresses, and nothing else does; its limits stay in the table. */
  lemma DeleteLeavesLimits(pl: Plane, id: string)
    ensures var pl' := DeleteStep(pl, id);
      && pl'.tables.rates == pl.tables.rates
      && pl'.cache.Keys == pl.cache.Keys - {id} && (forall i :: i in pl'.cache ==> pl'.cache[i] == pl.cache[i])
      && (id in pl.cache ==>
           forall k :: k in pl.tables.pods ==>
             if k in Keys(pl.cache[id]) then k !in pl'.tables.pods
             else k in pl'.tables.pods && pl'.tables.pods[k] == pl.tables.pods[k])
  {
  }

  // ---- runs ----

  datatype Op =
    | Update(pod: Pod, found: Option<PodCgroup>, classOk: bool)
    | Delete(id: string)
    | Changed(entries: seq<Entry>, choices: seq<Option<string>>)

  function Apply(pl: Plane, op: Op): (Plane, Outcome)
    requires op.Changed? ==> |op.entries| == |op.choices|
  {
    match op
    case Update(pod, found, classOk) => UpdateStep(pl, pod, found, classOk)
    case Delete(id) => (DeleteStep(pl, id), Done)
    case Changed(es, cs) => ChangedStep(pl, es, cs)
  }

  /** What the cluster promises about a step: live pods keep their addresses and host-network flag, and
      no two share an address. */
  ghost predicate Orderly(pl: Plane, op: Op) {
    match op
    case Update(pod, _, _) =>
      AddressesFree(pl.cache, pod) && (pod.id in pl.cache ==> Keys(pl.cache[pod.id]) == Keys(pod))
    case Delete(_) => true
    case Changed(es, cs) => |es| == |cs|
  }

  /** Every step is orderly and ends without an error. */
  ghost predicate ErrorFree(pl: Plane, ops: seq<Op>)
    decreases ops
  {
    ops == [] || (Orderly(pl, ops[0]) && Apply(pl, ops[0]).1 == Done && ErrorFree(Apply(pl, ops[0]).0, ops[1..]))
  }

  ghost function RunOps(pl: Plane, ops: seq<Op>): Plane
    requires ErrorFree(pl, ops)
    decreases ops
  {
    if ops == [] then pl else RunOps(Apply(pl, ops[0]).0, ops[1..])
  }

  lemma ApplyAgrees(pl: Plane, op: Op)
    requires InAgreement(pl) && Orderly(pl, op) && Apply(pl, op).1 == Done
    ensures InAgreement(Apply(pl, op).0)
  {
    match op {
      case Update(pod, found, classOk) => UpdateAgreesExactly(pl, pod, found, classOk);
      case Delete(id) => DeleteKeepsAgreement(pl, id);
      case Changed(es, cs) => LoopAgrees(pl, es, cs);
    }
  }

  /** After every error-free sequence of UpdatePod, DeletePod and podChanged, pod_map says what the cache
      implies, no more and no less. */
  lemma {:induction false} AgreementOverRuns(pl: Plane, ops: seq<Op>)
    requires InAgreement(pl) && ErrorFree(pl, ops)
    ensures InAgreement(RunOps(pl, ops))
    decreases ops
  {
    if ops != [] {
      ApplyAgrees(pl, ops[0]);
      AgreementOverRuns(Apply(pl, ops[0]).0, ops[1..]);
    }
  }

  /** In particular from the empty cache and tables the program starts with. */
  lemma AgreementFromStart(ops: seq<Op>)
    requires ErrorFree(Plane(map[], Tables(map[], map[])), ops)
    ensures InAgreement(RunOps(Plane(map[], Tables(map[], map[])), ops))
  {
    AgreementOverRuns(Plane(map[], Tables(map[], map[])), ops);
  }

  // ---- rates after a pass ----

  /** An entry is processed when its cgroup can be read and belongs to a cached pod. */
  predicate Processed(cache: map<string, Pod>, e: Entry, choice: Option<string>) {
    e.cgroup.Some? && choice.Some? && choice.value in cache
  }

  /** The positions of the list that are processed. */
  function ProcessedAt(cache: map<string, Pod>, es: seq<Entry>, cs: seq<Option<string>>): set<nat>
    requires |es| == |cs|
  {
    set i: nat | i < |es| && Processed(cache, es[i], cs[i])
  }

  function ProcessedInodes(cache: map<string, Pod>, es: seq<Entry>, cs: seq<Option<string>>): set<u64>
    requires |es| == |cs|
  {
    set i | i in ProcessedAt(cache, es, cs) :: es[i].cgroup.value.inode
  }

  function ProcessedPods(cache: map<string, Pod>, es: seq<Entry>, cs: seq<Option<string>>): set<string>
    requires |es| == |cs|
  {
    set i | i in ProcessedAt(cache, es, cs) :: cs[i].value
  }

  lemma ProcessedOfPrefix(cache: map<string, Pod>, es: seq<Entry>, cs: seq<Option<string>>)
    requires |es| == |cs| && es != []
    ensures var n := |es| - 1;
      ProcessedAt(cache, es, cs)
      == ProcessedAt(cache, es[..n], cs[..n]) + if Processed(cache, es[n], cs[n]) then {n} else {}
  {
  }

  lemma InodesOfPrefix(cache: map<string, Pod>, es: seq<Entry>, cs: seq<Option<string>>)
    requires |es| == |cs| && es != []
    ensures var n := |es| - 1;
      ProcessedInodes(cache, es, cs)
      == ProcessedInodes(cache, es[..n], cs[..n])
         + if Processed(cache, es[n], cs[n]) then {es[n].cgroup.value.inode} else {}
  {
    ProcessedOfPrefix(cache, es, cs);
  }

  lemma PodsOfPrefix(cache: map<string, Pod>, es: seq<Entry>, cs: seq<Option<string>>)
    requires |es| == |cs| && es != []
    ensures var n := |es| - 1;
      ProcessedPods(cache, es, cs)
      == ProcessedPods(cache, es[..n], cs[..n]) + if Processed(cache, es[n], cs[n]) then {cs[n].value} else {}
  {
    ProcessedOfPrefix(cache, es, cs);
  }

  lemma {:induction false} PassTracksProcessed(pl: Plane, es: seq<Entry>, cs: seq<Option<string>>)
    requires |es| == |cs| && Loop(pl, es, cs).outcome == Done
    ensures var s := Loop(pl, es, cs);
      && s.plane.cache.Keys == pl.cache.Keys
      && s.current == ProcessedInodes(pl.cache, es, cs)
      && s.aliased == ProcessedPods(pl.cache, es, cs)
    decreases |es|
  {
    if es != [] {
      var n := |es| - 1;
      PassTracksProcessed(pl, es[..n], cs[..n]);
      VisitTracks(Loop(pl, es[..n], cs[..n]), es[n], cs[n]);
      InodesOfPrefix(pl.cache, es, cs);
      PodsOfPrefix(pl.cache, es, cs);
    }
  }

  lemma VisitTracks(s: Pass, e: Entry, choice: Option<string>)
    requires Visit(s, e, choice).outcome == Done
    ensures var s', hit := Visit(s, e, choice), Processed(s.plane.cache, e, choice);
      && s.outcome == Done
      && s'.plane.cache.Keys == s.plane.cache.Keys
      && s'.current == s.current + (if hit then {e.cgroup.value.inode} else {})
      && s'.aliased == s.aliased + (if hit then {choice.value} else {})
  {
  }

  /** After an error-free pass an inode has a rate entry only if it was processed in that pass: a pod the
      list does not mention loses its limits, however it got them. */
  lemma PassLeavesProcessedOnly(pl: Plane, es: seq<Entry>, cs: seq<Option<string>>, k: CgroupRateId)
    requires |es| == |cs| && ChangedStep(pl, es, cs).1 == Done && k in ChangedStep(pl, es, cs).0.tables.rates
    ensures exists i :: 0 <= i < |es| && Processed(pl.cache, es[i], cs[i]) && es[i].cgroup.value.inode == k.inode
  {
    PassTracksProcessed(pl, es, cs);
    var i :| i in ProcessedAt(pl.cache, es, cs) && es[i].cgroup.value.inode == k.inode;
  }

  /** After an error-free pass every processed pod is cached with the rates of the last listed entry, since
      its rate pointers aim at the loop variable: it keeps the rates it was listed with exactly when they
      equal the last entry's. Pods not processed are cached as before. */
  lemma {:induction false} PassSharesLastRates(pl: Plane, es: seq<Entry>, cs: seq<Option<string>>, id: string)
    requires |es| == |cs| && es != [] && id in pl.cache && Loop(pl, es, cs).outcome == Done
    ensures var s, last := Loop(pl, es, cs), es[|es| - 1];
      && id in s.plane.cache
      && if id in s.aliased
         then s.plane.cache[id].rxBps == Some(last.rxBps) && s.plane.cache[id].txBps == Some(last.txBps)
         else s.plane.cache[id] == pl.cache[id]
    decreases |es|
  {
    var n := |es| - 1;
    var s := Loop(pl, es[..n], cs[..n]);
    assert Loop(pl, es, cs) == Visit(s, es[n], cs[n]);
    if n > 0 { PassSharesLastRates(pl, es[..n], cs[..n], id); }
  }

  // ---- what a pass leaves for the pods it processes ----

  /** The sweep removes limits, and none of a processed inode. */
  lemma SweepSparesProcessed(pl: Plane, es: seq<Entry>, cs: seq<Option<string>>, k: CgroupRateId)
    requires |es| == |cs| && Loop(pl, es, cs).outcome == Done
    ensures var m, m' := Loop(pl, es, cs).plane.tables.rates, ChangedStep(pl, es, cs).0.tables.rates;
      && (k in m' <==> k in m && k.inode in ProcessedInodes(pl.cache, es, cs))
      && (k in m' ==> m'[k] == m[k])
    ensures ChangedStep(pl, es, cs).0.cache == Loop(pl, es, cs).plane.cache
    ensures ChangedStep(pl, es, cs).0.tables.pods == Loop(pl, es, cs).plane.tables.pods
  {
    PassTracksProcessed(pl, es, cs);
  }

  /** The class the last entry to give the pod one gives it. */
  function LastClass(cache: map<string, Pod>, es: seq<Entry>, cs: seq<Option<string>>, id: string): Option<u32>
    requires |es| == |cs|
  {
    if es == [] then None
    else
      var n := |es| - 1;
      if Processed(cache, es[n], cs[n]) && cs[n].value == id && 0 <= es[n].prio < 3 then Some(es[n].prio)
      else LastClass(cache, es[..n], cs[..n], id)
  }

  /** A pod's record with a class, if one is given, and some rates. */
  ghost predicate Restyled(was: Pod, now: Pod, c: Option<u32>) {
    now == was.(prio := if c.Some? then c else was.prio, rxBps := now.rxBps, txBps := now.txBps,
                cgroup := PodCgroup(was.cgroup.path, if c.Some? then c.value else was.cgroup.classId, was.cgroup.inode))
  }

  lemma VisitRestyles(s: Pass, e: Entry, choice: Option<string>, id: string)
    requires Visit(s, e, choice).outcome == Done && id in s.plane.cache
    ensures var hit := Processed(s.plane.cache, e, choice) && choice.value == id && 0 <= e.prio < 3;
      id in Visit(s, e, choice).plane.cache
      && Restyled(s.plane.cache[id], Visit(s, e, choice).plane.cache[id], if hit then Some(e.prio) else None)
  {
  }

  /** After an error-free pass each pod has the class the last entry to give it one gave it, as its priority and in
      its cgroup, and is otherwise cached as before, but for its rates. */
  lemma {:induction false} PassGivesLastClass(pl: Plane, es: seq<Entry>, cs: seq<Option<string>>, id: string)
    requires |es| == |cs| && id in pl.cache && Loop(pl, es, cs).outcome == Done
    ensures Loop(pl, es, cs).plane.cache.Keys == pl.cache.Keys
    ensures Restyled(pl.cache[id], Loop(pl, es, cs).plane.cache[id], LastClass(pl.cache, es, cs, id))
    decreases |es|
  {
    if es != [] {
      var n := |es| - 1;
      var s := Loop(pl, es[..n], cs[..n]);
      VisitTracks(s, es[n], cs[n]);
      PassGivesLastClass(pl, es[..n], cs[..n], id);
      VisitRestyles(s, es[n], cs[n], id);
    }
  }

  /** So pod_map holds, for every address of a cached pod, the class the list last gave it. */
  lemma PassWritesLastClass(pl: Plane, es: seq<Entry>, cs: seq<Option<string>>, id: string, k: IpKey)
    requires |es| == |cs| && id in pl.cache && k in Keys(pl.cache[id])
    requires InAgreement(pl) && ChangedStep(pl, es, cs).1 == Done
    ensures var pods', c := ChangedStep(pl, es, cs).0.tables.pods, LastClass(pl.cache, es, cs, id);
      var was := pl.cache[id].cgroup;
      k in pods' && pods'[k] == CgroupInfo(if c.Some? then c.value else was.classId, was.inode)
  {
    var pl' := Loop(pl, es, cs).plane;
    assert ChangedStep(pl, es, cs).0.tables.pods == pl'.tables.pods;
    assert id in pl'.cache && Keys(pl'.cache[id]) == Keys(pl.cache[id]) by { PassGivesLastClass(pl, es, cs, id); }
    assert k in pl'.tables.pods && pl'.tables.pods[k] == InfoOf(pl'.cache[id]) by {
      LoopAgrees(pl, es, cs);
      OwnerWrites(pl', id, k);
    }
    PassGivesLastClass(pl, es, cs, id);
  }

  /** The last position that writes limits for an inode: it is processed for a pod of that cgroup with its own
      network. */
  function LastWriter(cache: map<string, Pod>, es: seq<Entry>, cs: seq<Option<string>>, inode: u64): (r: Option<nat>)
    requires |es| == |cs|
    ensures r.Some? ==> r.value < |es|
  {
    if es == [] then None
    else
      var n := |es| - 1;
      if Processed(cache, es[n], cs[n]) && !cache[cs[n].value].hostNetwork && cache[cs[n].value].cgroup.inode == inode
      then Some(n) else LastWriter(cache, es[..n], cs[..n], inode)
  }

  /** Both entries of an inode are the same, or both missing. */
  ghost predicate SameFor(m: RateTable, m': RateTable, inode: u64) {
    forall k :: k in {InId(inode), OutId(inode)} ==> (k in m <==> k in m') && (k in m ==> m'[k] == m[k])
  }

  /** The limits of an entry as listed: ingress always, egress exactly unless that ingress limit stood already while
      egress differed. */
  ghost predicate AsListed(prior: RateTable, m: RateTable, inode: u64, e: Entry) {
    && AsRequested(m, InId(inode), e.rxBps)
    && (AsRequested(m, OutId(inode), e.txBps)
        <==> !StopsEarly(prior, inode, e.rxBps) || AsRequested(prior, OutId(inode), e.txBps))
  }

  /** A pass changes neither a pod's cgroup inode nor whether it uses the host's network. */
  ghost predicate SameIdentity(cache: map<string, Pod>, cache': map<string, Pod>) {
    cache'.Keys == cache.Keys
    && forall id :: id in cache ==>
         cache'[id].hostNetwork == cache[id].hostNetwork && cache'[id].cgroup.inode == cache[id].cgroup.inode
  }

  lemma PrefixIdentity(pl: Plane, es: seq<Entry>, cs: seq<Option<string>>)
    requires |es| == |cs| && Loop(pl, es, cs).outcome == Done
    ensures SameIdentity(pl.cache, Loop(pl, es, cs).plane.cache)
  {
    PassTracksProcessed(pl, es, cs);
    forall id | id in pl.cache
      ensures var p := Loop(pl, es, cs).plane.cache[id];
        p.hostNetwork == pl.cache[id].hostNetwork && p.cgroup.inode == pl.cache[id].cgroup.inode
    {
      PassGivesLastClass(pl, es, cs, id);
    }
  }

  lemma VisitWritesLimits(s: Pass, e: Entry, choice: Option<string>, inode: u64)
    requires Visit(s, e, choice).outcome == Done
    ensures var m, m' := s.plane.tables.rates, Visit(s, e, choice).plane.tables.rates;
      if Processed(s.plane.cache, e, choice) && !s.plane.cache[choice.value].hostNetwork
         && s.plane.cache[choice.value].cgroup.inode == inode
      then AsListed(m, m', inode, e)
      else SameFor(m, m', inode)
  {
    if Processed(s.plane.cache, e, choice) {
      RateWriteOutcome(s.plane.tables.rates, inode, e.rxBps, e.txBps);
    }
  }

  lemma SameStaysListed(prior: RateTable, m: RateTable, m': RateTable, inode: u64, e: Entry)
    requires AsListed(prior, m, inode, e) && SameFor(m, m', inode)
    ensures AsListed(prior, m', inode, e)
  {
    assert InId(inode) in {InId(inode), OutId(inode)} && OutId(inode) in {InId(inode), OutId(inode)};
  }

  /** The rate table after the loop: an inode nobody writes has its entries as before; one that is written has them
      as listed last. */
  lemma {:induction false} PassWritesListedLimits(pl: Plane, es: seq<Entry>, cs: seq<Option<string>>, inode: u64)
    requires |es| == |cs| && Loop(pl, es, cs).outcome == Done
    ensures var m, w := Loop(pl, es, cs).plane.tables.rates, LastWriter(pl.cache, es, cs, inode);
      if w.None? then SameFor(pl.tables.rates, m, inode)
      else AsListed(Loop(pl, es[..w.value], cs[..w.value]).plane.tables.rates, m, inode, es[w.value])
    decreases |es|
  {
    if es != [] {
      var n := |es| - 1;
      var s := Loop(pl, es[..n], cs[..n]);
      assert Loop(pl, es, cs) == Visit(s, es[n], cs[n]);
      VisitTracks(s, es[n], cs[n]);
      PassWritesListedLimits(pl, es[..n], cs[..n], inode);
      PrefixIdentity(pl, es[..n], cs[..n]);
      assert Processed(s.plane.cache, es[n], cs[n]) == Processed(pl.cache, es[n], cs[n]);
      VisitWritesLimits(s, es[n], cs[n], inode);
      LastOfPrefix(pl, es, cs, inode);
    }
  }

  lemma LastOfPrefix(pl: Plane, es: seq<Entry>, cs: seq<Option<string>>, inode: u64)
    requires |es| == |cs| && es != []
    requires var n := |es| - 1;
      var m, w := Loop(pl, es[..n], cs[..n]).plane.tables.rates, LastWriter(pl.cache, es[..n], cs[..n], inode);
      if w.None? then SameFor(pl.tables.rates, m, inode)
      else AsListed(Loop(pl, es[..n][..w.value], cs[..n][..w.value]).plane.tables.rates, m, inode, es[..n][w.value])
    ensures var n := |es| - 1;
      var m, w := Loop(pl, es[..n], cs[..n]).plane.tables.rates, LastWriter(pl.cache, es[..n], cs[..n], inode);
      forall m' :: SameFor(m, m', inode) ==>
        if w.None? then SameFor(pl.tables.rates, m', inode)
        else AsListed(Loop(pl, es[..w.value], cs[..w.value]).plane.tables.rates, m', inode, es[w.value])
  {
    var n := |es| - 1;
    var m, w := Loop(pl, es[..n], cs[..n]).plane.tables.rates, LastWriter(pl.cache, es[..n], cs[..n], inode);
    if w.Some? { assert es[..n][..w.value] == es[..w.value] && cs[..n][..w.value] == cs[..w.value]; }
    forall m' | SameFor(m, m', inode)
      ensures if w.None? then SameFor(pl.tables.rates, m', inode)
              else AsListed(Loop(pl, es[..w.value], cs[..w.value]).plane.tables.rates, m', inode, es[w.value])
    {
      if w.Some? {
        SameStaysListed(Loop(pl, es[..w.value], cs[..w.value]).plane.tables.rates, m, m', inode, es[w.value]);
      }
    }
  }

  /** After an error-free pass: the limits listed last stand, unless the inode the list gave is not the one cached,
      and the sweep takes them away again. */
  lemma PassLeavesListedLimits(pl: Plane, es: seq<Entry>, cs: seq<Option<string>>, inode: u64)
    requires |es| == |cs| && ChangedStep(pl, es, cs).1 == Done && LastWriter(pl.cache, es, cs, inode).Some?
    ensures var m, i := ChangedStep(pl, es, cs).0.tables.rates, LastWriter(pl.cache, es, cs, inode).value;
      if inode in ProcessedInodes(pl.cache, es, cs)
      then AsListed(Loop(pl, es[..i], cs[..i]).plane.tables.rates, m, inode, es[i])
      else InId(inode) !in m && OutId(inode) !in m
  {
    PassWritesListedLimits(pl, es, cs, inode);
    SweepSparesProcessed(pl, es, cs, InId(inode));
    SweepSparesProcessed(pl, es, cs, OutId(inode));
  }

  /** Some entry up to position `n` is processed for the pod and gives it a class. */
  ghost predicate Classed(cache: map<string, Pod>, es: seq<Entry>, cs: seq<Option<string>>, n: nat, id: string)
    requires |es| == |cs| && n <= |es|
  {
    exists i :: 0 <= i < n && GivesClass(es[i]) && Processed(cache, es[i], cs[i]) && cs[i].value == id
  }

  /** The pod processed at position `i` has no class when its settings are logged. */
  ghost predicate Unclassed(cache: map<string, Pod>, es: seq<Entry>, cs: seq<Option<string>>, i: nat)
    requires |es| == |cs| && i < |es|
  {
    Processed(cache, es[i], cs[i]) && cache[cs[i].value].prio.None? && !Classed(cache, es, cs, i + 1, cs[i].value)
  }

  /** The pod processed at position `i` has a class, and writing it to the host-network cgroup fails. */
  ghost predicate Unwritten(cache: map<string, Pod>, es: seq<Entry>, cs: seq<Option<string>>, i: nat)
    requires |es| == |cs| && i < |es|
  {
    Processed(cache, es[i], cs[i]) && cache[cs[i].value].hostNetwork && !es[i].classOk && !Unclassed(cache, es, cs, i)
  }

  ghost predicate Stops(cache: map<string, Pod>, es: seq<Entry>, cs: seq<Option<string>>, i: nat)
    requires |es| == |cs| && i < |es|
  {
    Unclassed(cache, es, cs, i) || Unwritten(cache, es, cs, i)
  }

  ghost predicate NoStop(cache: map<string, Pod>, es: seq<Entry>, cs: seq<Option<string>>, n: nat)
    requires |es| == |cs| && n <= |es|
  {
    forall j :: 0 <= j < n ==> !Stops(cache, es, cs, j)
  }

  /** The first thing to stop the pass is a pod without a class. */
  ghost predicate UnclassedFirst(cache: map<string, Pod>, es: seq<Entry>, cs: seq<Option<string>>)
    requires |es| == |cs|
  {
    exists i :: 0 <= i < |es| && Unclassed(cache, es, cs, i) && NoStop(cache, es, cs, i)
  }

  lemma ClassedOfPrefix(cache: map<string, Pod>, es: seq<Entry>, cs: seq<Option<string>>, n: nat, id: string)
    requires |es| == |cs| && n < |es|
    ensures Classed(cache, es, cs, n + 1, id) <==>
      Classed(cache, es[..n], cs[..n], n, id)
      || (GivesClass(es[n]) && Processed(cache, es[n], cs[n]) && cs[n].value == id)
  {
  }

  lemma StopOfPrefix(cache: map<string, Pod>, es: seq<Entry>, cs: seq<Option<string>>, n: nat, i: nat)
    requires |es| == |cs| && i < n <= |es|
    ensures Unclassed(cache, es[..n], cs[..n], i) <==> Unclassed(cache, es, cs, i)
    ensures Unwritten(cache, es[..n], cs[..n], i) <==> Unwritten(cache, es, cs, i)
  {
  }

  lemma NoStopOfPrefix(cache: map<string, Pod>, es: seq<Entry>, cs: seq<Option<string>>, n: nat, i: nat)
    requires |es| == |cs| && i <= n <= |es|
    ensures NoStop(cache, es[..n], cs[..n], i) <==> NoStop(cache, es, cs, i)
  {
    forall j | 0 <= j < i ensures Stops(cache, es[..n], cs[..n], j) <==> Stops(cache, es, cs, j) {
      StopOfPrefix(cache, es, cs, n, j);
    }
  }

  lemma UnclassedFirstOfPrefix(cache: map<string, Pod>, es: seq<Entry>, cs: seq<Option<string>>)
    requires |es| == |cs| && es != []
    ensures var n := |es| - 1;
      UnclassedFirst(cache, es, cs)
      <==> if NoStop(cache, es[..n], cs[..n], n) then Unclassed(cache, es, cs, n)
           else UnclassedFirst(cache, es[..n], cs[..n])
  {
    var n := |es| - 1;
    NoStopOfPrefix(cache, es, cs, n, n);
    if UnclassedFirst(cache, es, cs) {
      var i :| 0 <= i < |es| && Unclassed(cache, es, cs, i) && NoStop(cache, es, cs, i);
      if i < n {
        StopOfPrefix(cache, es, cs, n, i);
        NoStopOfPrefix(cache, es, cs, n, i);
        assert Stops(cache, es[..n], cs[..n], i);
      }
    }
    if UnclassedFirst(cache, es[..n], cs[..n]) {
      var i :| 0 <= i < n && Unclassed(cache, es[..n], cs[..n], i) && NoStop(cache, es[..n], cs[..n], i);
      StopOfPrefix(cache, es, cs, n, i);
      NoStopOfPrefix(cache, es, cs, n, i);
      assert Stops(cache, es[..n], cs[..n], i);
    }
  }

  /** One iteration: when it ends in a nil dereference, and which pods have a class after it. */
  lemma VisitClasses(s: Pass, e: Entry, choice: Option<string>)
    requires s.outcome == Done
    ensures var s', hit := Visit(s, e, choice), Processed(s.plane.cache, e, choice);
      && (s'.outcome == Panicked <==> hit && s.plane.cache[choice.value].prio.None? && !GivesClass(e))
      && (s'.outcome == Failed <==>
          hit && s.plane.cache[choice.value].hostNetwork && !e.classOk && s'.outcome != Panicked)
      && s'.plane.cache.Keys == s.plane.cache.Keys
      && forall id :: id in s.plane.cache ==>
           && s'.plane.cache[id].hostNetwork == s.plane.cache[id].hostNetwork
           && (s'.plane.cache[id].prio.None? <==>
               s.plane.cache[id].prio.None? && !(hit && choice.value == id && GivesClass(e)))
  {
  }

  /** Which pods have a class after an error-free pass: those that had one, and those given one. */
  ghost predicate ClassesAfter(cache: map<string, Pod>, cache': map<string, Pod>,
                               es: seq<Entry>, cs: seq<Option<string>>)
    requires |es| == |cs|
  {
    && cache'.Keys == cache.Keys
    && forall id :: id in cache ==>
         && cache'[id].hostNetwork == cache[id].hostNetwork
         && (cache'[id].prio.None? <==> cache[id].prio.None? && !Classed(cache, es, cs, |es|, id))
  }

  lemma LastClasses(cache: map<string, Pod>, s: Pass, es: seq<Entry>, cs: seq<Option<string>>)
    requires |es| == |cs| && es != [] && s.outcome == Done
    requires ClassesAfter(cache, s.plane.cache, es[..|es| - 1], cs[..|es| - 1])
    ensures var n := |es| - 1;
      var s' := Visit(s, es[n], cs[n]);
      && (s'.outcome == Panicked <==> Unclassed(cache, es, cs, n))
      && (s'.outcome == Failed <==> Unwritten(cache, es, cs, n))
      && ClassesAfter(cache, s'.plane.cache, es, cs)
  {
    var n := |es| - 1;
    VisitClasses(s, es[n], cs[n]);
    forall id | id in cache
      ensures Classed(cache, es, cs, n + 1, id) <==>
        Classed(cache, es[..n], cs[..n], n, id)
        || (GivesClass(es[n]) && Processed(cache, es[n], cs[n]) && cs[n].value == id)
    {
      ClassedOfPrefix(cache, es, cs, n, id);
    }
  }

  /** How a pass ends: normally exactly when nothing stops it; in a nil dereference exactly when the first thing
      to stop it is a processed pod that had no class before the pass and has been given none by the entries up
      to that one. */
  lemma {:induction false} PanicsExactly(pl: Plane, es: seq<Entry>, cs: seq<Option<string>>)
    requires |es| == |cs|
    ensures Loop(pl, es, cs).outcome == Done <==> NoStop(pl.cache, es, cs, |es|)
    ensures Loop(pl, es, cs).outcome == Panicked <==> UnclassedFirst(pl.cache, es, cs)
    ensures Loop(pl, es, cs).outcome == Done ==> ClassesAfter(pl.cache, Loop(pl, es, cs).plane.cache, es, cs)
    decreases |es|
  {
    if es != [] {
      var n := |es| - 1;
      var s := Loop(pl, es[..n], cs[..n]);
      PanicsExactly(pl, es[..n], cs[..n]);
      NoStopOfPrefix(pl.cache, es, cs, n, n);
      UnclassedFirstOfPrefix(pl.cache, es, cs);
      assert NoStop(pl.cache, es, cs, |es|) <==> NoStop(pl.cache, es, cs, n) && !Stops(pl.cache, es, cs, n);
      if s.outcome == Done { LastClasses(pl.cache, s, es, cs); }
    }
  }

  lemma {:induction false} LoopStops(pl: Plane, es: seq<Entry>, cs: seq<Option<string>>, n: nat)
    requires |es| == |cs| && n <= |es| && Loop(pl, es[..n], cs[..n]).outcome != Done
    ensures Loop(pl, es, cs) == Loop(pl, es[..n], cs[..n])
    decreases |es|
  {
    if n == |es| {
      assert es[..n] == es && cs[..n] == cs;
    } else {
      var k := |es| - 1;
      assert es[..k][..n] == es[..n] && cs[..k][..n] == cs[..n];
      LoopStops(pl, es[..k], cs[..k], n);
    }
  }

  /** What a pass that cannot go on leaves: both tables as the entries before the one that stops it did, with nothing
      swept, and in the cache the settings of that entry, for the pod it belongs to. */
  lemma StoppedPassLeaves(pl: Plane, es: seq<Entry>, cs: seq<Option<string>>, i: nat)
    requires |es| == |cs| && i < |es| && Stops(pl.cache, es, cs, i) && NoStop(pl.cache, es, cs, i)
    ensures var (pl', outcome) := ChangedStep(pl, es, cs);
      var before, id, e := Loop(pl, es[..i], cs[..i]).plane, cs[i].value, es[i];
      && outcome == (if Unclassed(pl.cache, es, cs, i) then Panicked else Failed)
      && pl'.tables == before.tables
      && pl'.cache.Keys == before.cache.Keys && id in before.cache
      && pl'.cache[id].rxBps == Some(e.rxBps) && pl'.cache[id].txBps == Some(e.txBps)
      && pl'.cache[id].prio == (if GivesClass(e) then Some(e.prio) else before.cache[id].prio)
      && pl'.cache[id].cgroup.classId == (if GivesClass(e) then e.prio else before.cache[id].cgroup.classId)
  {
    StoppedLoop(pl, es, cs, i);
    StoppingVisit(Loop(pl, es[..i], cs[..i]), es[i], cs[i]);
  }

  /** The loop stops at the first position that cannot go on, and why. */
  lemma StoppedLoop(pl: Plane, es: seq<Entry>, cs: seq<Option<string>>, i: nat)
    requires |es| == |cs| && i < |es| && Stops(pl.cache, es, cs, i) && NoStop(pl.cache, es, cs, i)
    ensures var s := Loop(pl, es[..i], cs[..i]);
      && s.outcome == Done && Loop(pl, es, cs) == Visit(s, es[i], cs[i])
      && Visit(s, es[i], cs[i]).outcome == (if Unclassed(pl.cache, es, cs, i) then Panicked else Failed)
  {
    var s := Loop(pl, es[..i], cs[..i]);
    var es', cs' := es[..i + 1], cs[..i + 1];
    assert es'[..i] == es[..i] && cs'[..i] == cs[..i];
    assert Loop(pl, es', cs') == Visit(s, es[i], cs[i]);
    assert s.outcome == Done && ClassesAfter(pl.cache, s.plane.cache, es[..i], cs[..i]) by {
      NoStopOfPrefix(pl.cache, es, cs, i, i);
      PanicsExactly(pl, es[..i], cs[..i]);
    }
    LastClasses(pl.cache, s, es', cs');
    SameStops(pl.cache, es, cs, i);
    LoopStops(pl, es, cs, i + 1);
  }

  lemma SameStops(cache: map<string, Pod>, es: seq<Entry>, cs: seq<Option<string>>, i: nat)
    requires |es| == |cs| && i < |es|
    ensures Unclassed(cache, es[..i + 1], cs[..i + 1], i) <==> Unclassed(cache, es, cs, i)
    ensures Unwritten(cache, es[..i + 1], cs[..i + 1], i) <==> Unwritten(cache, es, cs, i)
  {
    StopOfPrefix(cache, es, cs, i + 1, i);
  }

  /** A turn that cannot go on has given the pod its settings in the cache, and nothing to the tables. */
  lemma StoppingVisit(s: Pass, e: Entry, choice: Option<string>)
    requires s.outcome == Done && Visit(s, e, choice).outcome != Done
    ensures var s' := Visit(s, e, choice);
      && s'.plane.tables == s.plane.tables && s'.plane.cache.Keys == s.plane.cache.Keys
      && choice.Some? && choice.value in s.plane.cache
      && var was, now := s.plane.cache[choice.value], s'.plane.cache[choice.value];
         && now.rxBps == Some(e.rxBps) && now.txBps == Some(e.txBps)
         && now.prio == (if GivesClass(e) then Some(e.prio) else was.prio)
         && now.cgroup.classId == (if GivesClass(e) then e.prio else was.cgroup.classId)
  {
  }

  /** The per-cgroup list never gives a class: as long as class writes succeed, a pass over it ends in a nil
      dereference exactly when it processes a pod that is cached without one. */
  lemma PerCgroupListPanicsExactly(pl: Plane, es: seq<Entry>, cs: seq<Option<string>>)
    requires |es| == |cs| && forall i :: 0 <= i < |es| ==> es[i].classOk && !GivesClass(es[i])
    ensures Loop(pl, es, cs).outcome == Panicked <==>
      exists i :: 0 <= i < |es| && Processed(pl.cache, es[i], cs[i]) && pl.cache[cs[i].value].prio.None?
  {
    PanicsExactly(pl, es, cs);
    NeverFails(pl, es, cs);
    forall i | 0 <= i < |es|
      ensures Unclassed(pl.cache, es, cs, i) <==> Processed(pl.cache, es[i], cs[i]) && pl.cache[cs[i].value].prio.None?
      ensures !Unwritten(pl.cache, es, cs, i)
    {
    }
  }

  lemma {:induction false} NeverFails(pl: Plane, es: seq<Entry>, cs: seq<Option<string>>)
    requires |es| == |cs| && forall i :: 0 <= i < |es| ==> es[i].classOk
    ensures Loop(pl, es, cs).outcome != Failed
    decreases |es|
  {
    if es != [] { NeverFails(pl, es[..|es| - 1], cs[..|es| - 1]); }
  }

  /** Two listed pods: the first ends up cached, and is written by its next annotated UpdatePod, with the
      second one's limits. */
  lemma ForeignRates(pl: Plane, a: string, b: string, ea: Entry, eb: Entry,
                     pod: Pod, found: Option<PodCgroup>, classOk: bool)
    requires a != b && a in pl.cache && b in pl.cache
    requires ea.cgroup.Some? && eb.cgroup.Some? && Loop(pl, [ea, eb], [Some(a), Some(b)]).outcome == Done
    requires pod.id == a && pod.rxBps.Some?
    ensures var pl1 := ChangedStep(pl, [ea, eb], [Some(a), Some(b)]).0;
      && a in pl1.cache && pl1.cache[a].rxBps == Some(eb.rxBps)
      && a in UpdateStep(pl1, pod, found, classOk).0.cache
      && UpdateStep(pl1, pod, found, classOk).0.cache[a].rxBps == Some(eb.rxBps)
  {
    var es, cs := [ea, eb], [Some(a), Some(b)];
    PassSharesLastRates(pl, es, cs, a);
    PassTracksProcessed(pl, es, cs);
    assert 0 in ProcessedAt(pl.cache, es, cs) && cs[0].value == a;
  }
}
