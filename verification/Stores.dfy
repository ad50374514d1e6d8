/** The two stores: the stack's node database and the berth table. When the stack assigns fresh addresses, every node
    is accounted for, and the berth table names nodes alone unless a flow's node was decommissioned under it. */
module Stores {
  import opened Common
  import opened BerthMap
  import opened GatewayModel
  import opened Moves

  // ----- what the stack promises -----

  /** A completion carries a fresh non-zero address, and in a flow the UUID the match was set for. */
  predicate FreshComplete(g: Gw, ev: Event) {
    ev.ProvComplete? ==>
      && ev.addr != 0 && ev.addr !in g.nodes && !HasUuid(g.nodes, ev.uuid)
      && (g.flow.Some? ==> ev.uuid == g.flow.value.uuid)
  }

  predicate Promised(g: Gw, ev: Event) { InOrder(g, ev) && FreshComplete(g, ev) }

  ghost predicate AllPromised(g0: Gw, ins: seq<Input>) {
    ins != [] ==>
      var k := |ins| - 1;
      AllPromised(g0, ins[..k]) && Promised(Run(g0, ins[..k]), ins[k].ev)
  }

  // ----- the invariant -----

  ghost predicate Vouched(out: seq<Msg>, a: u16, key: Key) { exists id :: ProvOk(id, a, key) in out }

  /** The addresses whose deletion the stack refused, after a failed flow or a completion nobody asked for. */
  ghost function Leftover(g0: Gw, ins: seq<Input>): set<u16> {
    if ins == [] then {}
    else
      var k := |ins| - 1;
      Leftover(g0, ins[..k]) + Undeleted(Run(g0, ins[..k]), ins[k])
  }

  function Undeleted(g: Gw, i: Input): set<u16> {
    if i.env.deleteOk then {}
    else if i.ev.ProvComplete? && g.flow.None? then {i.ev.addr}
    else if MoveOf(g, i.ev, i.env).Lose? && Target(g, i.ev) != 0 then {Target(g, i.ev)}
    else {}
  }

  ghost predicate DistinctUuids(nodes: map<u16, Node>) {
    forall a, b :: a in nodes && b in nodes && a != b ==> nodes[a].uuid != nodes[b].uuid
  }

  /** A node was there at boot, or was reported adopted, or is the flow's target, or could not be deleted. */
  ghost predicate AccountedAt(base: map<u16, Node>, left: set<u16>, g: Gw, a: u16)
    requires a in g.nodes
  {
    || (a in base && base[a] == g.nodes[a])
    || a in left
    || Vouched(g.out, a, g.nodes[a].key)
    || (g.flow.Some? && a == g.flow.value.target)
  }

  ghost predicate Accounted(base: map<u16, Node>, left: set<u16>, g: Gw) {
    forall a :: a in g.nodes ==> AccountedAt(base, left, g, a)
  }

  /** The flow's target is the node just provisioned, as long as it is there. */
  ghost predicate TargetKnown(g: Gw) {
    g.flow.Some? ==>
      var f := g.flow.value;
      && (f.step == IDLE <==> f.target == 0)
      && (f.target in g.nodes ==> g.nodes[f.target] == Node(f.uuid, g.devKey))
  }

  ghost predicate NodesGood(base: map<u16, Node>, left: set<u16>, g: Gw) {
    0 !in g.nodes && DistinctUuids(g.nodes) && TargetKnown(g) && Accounted(base, left, g)
  }

  // ----- one step -----

  lemma StepKeepsTarget(g: Gw, ev: Event, e: Env)
    requires 0 !in g.nodes && TargetKnown(g) && Resting(g) && Promised(g, ev)
    ensures TargetKnown(Step(g, ev, e))
  {
    hide Step, Said, HasUuid, Adopted;
    StepMoves(g, ev, e);
    StepStores(g, ev, e);
  }

  lemma StepKeepsUuids(g: Gw, ev: Event, e: Env)
    requires DistinctUuids(g.nodes) && FreshComplete(g, ev) && 0 !in g.nodes
    ensures DistinctUuids(Step(g, ev, e).nodes) && 0 !in Step(g, ev, e).nodes
  {
    hide Step, BerthsAfter, MoveOf;
    StepStores(g, ev, e);
  }

  lemma StepKeepsAccounts(base: map<u16, Node>, left: set<u16>, g: Gw, i: Input)
    requires 0 !in g.nodes && Accounted(base, left, g) && TargetKnown(g) && Resting(g) && Promised(g, i.ev)
    ensures Accounted(base, left + Undeleted(g, i), Step(g, i.ev, i.env))
  {
    var g' := Step(g, i.ev, i.env);
    forall a | a in g'.nodes ensures AccountedAt(base, left + Undeleted(g, i), g', a) {
      NodeStaysAccounted(base, left, g, i, a);
    }
  }

  lemma NodeStaysAccounted(base: map<u16, Node>, left: set<u16>, g: Gw, i: Input, a: u16)
    requires 0 !in g.nodes && Accounted(base, left, g) && TargetKnown(g) && Resting(g) && Promised(g, i.ev)
    requires a in Step(g, i.ev, i.env).nodes
    ensures AccountedAt(base, left + Undeleted(g, i), Step(g, i.ev, i.env), a)
  {
    hide Step, HasUuid, BerthsAfter, Vouched;
    var g' := Step(g, i.ev, i.env);
    StepStores(g, i.ev, i.env);
    StepMoves(g, i.ev, i.env);
    OutGrows(g, i.ev, i.env);
    if a in g.nodes {
      assert AccountedAt(base, left, g, a);
      if Vouched(g.out, a, g.nodes[a].key) { StillVouched(g.out, g'.out, a, g.nodes[a].key); }
      if MoveOf(g, i.ev, i.env).Win? {
        NewlyVouched(g.out + Reported(g, i.ev), g.flow.value.reqId, g.flow.value.target, g.devKey);
      }
    }
  }

  lemma StillVouched(out: seq<Msg>, more: seq<Msg>, a: u16, key: Key)
    requires out <= more && Vouched(out, a, key)
    ensures Vouched(more, a, key)
  {
    var id :| ProvOk(id, a, key) in out;
    assert ProvOk(id, a, key) in more;
  }

  lemma NewlyVouched(out: seq<Msg>, id: string, a: u16, key: Key)
    ensures Vouched(out + [ProvOk(id, a, key)], a, key)
  {
    assert ProvOk(id, a, key) in out + [ProvOk(id, a, key)];
  }

  /** In every run that keeps the promises, whoever is decommissioned when: each node in the database was there at
      boot, or was reported adopted, or is the flow's target, or could not be deleted, and no UUID occurs twice. */
  lemma {:induction false} NodesStayAccounted(g0: Gw, ins: seq<Input>)
    requires Booted(g0) && AllPromised(g0, ins) && 0 !in g0.nodes && DistinctUuids(g0.nodes)
    ensures NodesGood(g0.nodes, Leftover(g0, ins), Run(g0, ins))
  {
    if ins != [] {
      hide Step, Promised, DistinctUuids, TargetKnown, Accounted, Undeleted, Resting, Booted;
      var k := |ins| - 1;
      var g, i := Run(g0, ins[..k]), ins[k];
      NodesStayAccounted(g0, ins[..k]);
      RunRests(g0, ins[..k]);
      FreshIn(g, i.ev);
      StepKeepsTarget(g, i.ev, i.env);
      StepKeepsUuids(g, i.ev, i.env);
      StepKeepsAccounts(g0.nodes, Leftover(g0, ins[..k]), g, i);
    }
  }

  lemma FreshIn(g: Gw, ev: Event)
    requires Promised(g, ev)
    ensures FreshComplete(g, ev)
  {
  }

  /** When the stack deletes every node it is asked to delete, nothing is left over. */
  lemma {:induction false} NothingLeftOver(g0: Gw, ins: seq<Input>)
    requires forall k :: 0 <= k < |ins| ==> ins[k].env.deleteOk
    ensures Leftover(g0, ins) == {}
  {
    if ins != [] {
      NothingLeftOver(g0, ins[..|ins| - 1]);
    }
  }

  // ----- the berth table against the node database -----

  ghost predicate BerthsInside(g: Gw) { g.berths.Keys <= g.nodes.Keys }

  /** The flow's target is in no berth yet. */
  ghost predicate Unberthed(g: Gw) { g.flow.Some? ==> g.flow.value.target !in g.berths }

  /** The flow asked for a berth that the table can take. */
  ghost predicate RecordsBerth(g: Gw)
    requires g.flow.Some?
  {
    var f := g.flow.value;
    f.berth != "" && f.target != 0 && !OutOfRoom(g.berths, f.target, f.berth)
  }

  /** A flow reports ok and records its berth, and its node is no longer in the database. */
  ghost predicate Splits(g: Gw, i: Input) {
    MoveOf(g, i.ev, i.env).Win? && RecordsBerth(g) && g.flow.value.target !in g.nodes
  }

  lemma AdoptedKeys(m: Berths, f: Flow)
    ensures Adopted(m, f).Keys <= m.Keys + {f.target}
    ensures f.berth != "" && f.target != 0 && !OutOfRoom(m, f.target, f.berth) ==> f.target in Adopted(m, f)
    ensures !(f.berth != "" && f.target != 0 && !OutOfRoom(m, f.target, f.berth)) ==> Adopted(m, f) == m
  {
  }

  /** The one way in which a single callback can part the stores. */
  lemma StepSplitsExactly(g: Gw, i: Input)
    requires BerthsInside(g) && 0 !in g.nodes && TargetKnown(g) && Resting(g) && Promised(g, i.ev)
    ensures BerthsInside(Step(g, i.ev, i.env)) <==> !Splits(g, i)
  {
    hide Step, HasUuid, Adopted, OutOfRoom;
    StepStores(g, i.ev, i.env);
    if MoveOf(g, i.ev, i.env).Win? {
      AdoptedKeys(g.berths, g.flow.value);
      assert g.flow.value.(target := g.flow.value.target) == g.flow.value;
    }
  }

  lemma StepKeepsUnberthed(g: Gw, i: Input)
    requires BerthsInside(g) && Unberthed(g) && 0 !in g.nodes && TargetKnown(g) && Resting(g) && Promised(g, i.ev)
    ensures Unberthed(Step(g, i.ev, i.env))
  {
    hide Step, HasUuid, Adopted, Said;
    StepMoves(g, i.ev, i.env);
    StepStores(g, i.ev, i.env);
  }

  ghost predicate AlwaysInside(g0: Gw, ins: seq<Input>) {
    BerthsInside(Run(g0, ins)) && (ins != [] ==> AlwaysInside(g0, ins[..|ins| - 1]))
  }

  /** A decommission of the flow's target has ended, and deleted the node, since its provisioning completed. */
  ghost predicate TargetGone(g0: Gw, ins: seq<Input>) {
    ins != [] &&
      var k := |ins| - 1;
      var g, i := Run(g0, ins[..k]), ins[k];
      && !MoveOf(g, i.ev, i.env).Begin? && !i.ev.ProvComplete?
      && (TargetGone(g0, ins[..k])
          || (DecomEnds(g, i.ev) && i.env.deleteOk && g.flow.Some? && g.decom.value.addr == g.flow.value.target))
  }

  lemma {:induction false} RunOn(g0: Gw, ins: seq<Input>, i: Input)
    ensures Run(g0, ins + [i]) == Step(Run(g0, ins), i.ev, i.env)
  {
    hide Step;
    assert (ins + [i])[..|ins|] == ins;
  }

  /** The flow's node is gone exactly when it was taken away. */
  ghost predicate GoneExactly(g0: Gw, ins: seq<Input>) {
    var g := Run(g0, ins);
    g.flow.Some? && g.flow.value.target != 0 ==> (g.flow.value.target !in g.nodes <==> TargetGone(g0, ins))
  }

  lemma {:induction false} StepTargetGone(g0: Gw, ins: seq<Input>, i: Input)
    requires Resting(Run(g0, ins)) && TargetKnown(Run(g0, ins)) && InOrder(Run(g0, ins), i.ev)
    requires (i.ev.ProvComplete? ==> i.ev.addr != 0) && GoneExactly(g0, ins)
    ensures GoneExactly(g0, ins + [i])
  {
    hide Step, Run, HasUuid, BerthsAfter, FlashAfter, Said;
    assert (ins + [i])[..|ins|] == ins;
    RunOn(g0, ins, i);
    StepMoves(Run(g0, ins), i.ev, i.env);
    StepStores(Run(g0, ins), i.ev, i.env);
  }

  /** And a flow's node has left the database exactly when it was decommissioned under the flow, and deleted. */
  lemma {:induction false} TargetGoneExactly(g0: Gw, ins: seq<Input>)
    requires Booted(g0) && AllPromised(g0, ins) && 0 !in g0.nodes && DistinctUuids(g0.nodes)
    ensures GoneExactly(g0, ins)
  {
    if ins != [] {
      hide Run, GoneExactly, AllPromised, NodesGood, Resting, TargetKnown, InOrder, Booted, DistinctUuids;
      var k := |ins| - 1;
      PromisedNow(g0, ins);
      TargetGoneExactly(g0, ins[..k]);
      NodesStayAccounted(g0, ins[..k]);
      KnownTarget(g0.nodes, Leftover(g0, ins[..k]), Run(g0, ins[..k]));
      RunRests(g0, ins[..k]);
      StepTargetGone(g0, ins[..k], ins[k]);
      assert ins[..k] + [ins[k]] == ins;
    }
  }

  lemma KnownTarget(base: map<u16, Node>, left: set<u16>, g: Gw)
    requires NodesGood(base, left, g)
    ensures TargetKnown(g)
  {
  }

  lemma {:induction false} PromisedNow(g0: Gw, ins: seq<Input>)
    requires ins != [] && AllPromised(g0, ins)
    ensures var k := |ins| - 1;
      && AllPromised(g0, ins[..k]) && InOrder(Run(g0, ins[..k]), ins[k].ev)
      && (ins[k].ev.ProvComplete? ==> ins[k].ev.addr != 0)
  {
  }

  ghost predicate NeverSplits(g0: Gw, ins: seq<Input>) {
    ins != [] ==>
      var k := |ins| - 1;
      var g, i := Run(g0, ins[..k]), ins[k];
      NeverSplits(g0, ins[..k]) && !(MoveOf(g, i.ev, i.env).Win? && RecordsBerth(g) && TargetGone(g0, ins[..k]))
  }

  /** In every run that keeps the promises, from stores in step: each unicast in the berth table stays in the node
      database throughout if and only if no flow reports ok, with a berth to record, after its node was decommissioned
      under it; until then the flow's target is in no berth. */
  lemma {:induction false} StoresStayInStepExactly(g0: Gw, ins: seq<Input>)
    requires Booted(g0) && AllPromised(g0, ins) && BerthsInside(g0) && 0 !in g0.nodes && DistinctUuids(g0.nodes)
    ensures AlwaysInside(g0, ins) <==> NeverSplits(g0, ins)
    ensures AlwaysInside(g0, ins) ==> Unberthed(Run(g0, ins))
  {
    if ins != [] {
      var k := |ins| - 1;
      var g := Run(g0, ins[..k]);
      StoresStayInStepExactly(g0, ins[..k]);
      NodesStayAccounted(g0, ins[..k]);
      RunRests(g0, ins[..k]);
      TargetGoneExactly(g0, ins[..k]);
      SplitsWhenGone(g, ins[k]);
      hide Step, Promised, TargetKnown, Resting, Booted, BerthsInside, Unberthed, Splits, Accounted, DistinctUuids;
      hide MoveOf, RecordsBerth, TargetGone;
      if AlwaysInside(g0, ins[..k]) {
        InsideNow(g0, ins[..k]);
        StepSplitsExactly(g, ins[k]);
        StepKeepsUnberthed(g, ins[k]);
      }
    }
  }

  lemma SplitsWhenGone(g: Gw, i: Input)
    ensures Splits(g, i) <==>
      MoveOf(g, i.ev, i.env).Win? && RecordsBerth(g) && g.flow.value.target != 0 && g.flow.value.target !in g.nodes
  {
  }

  lemma {:induction false} InsideNow(g0: Gw, ins: seq<Input>)
    requires AlwaysInside(g0, ins)
    ensures BerthsInside(Run(g0, ins))
  {
  }

  /** Such a run exists: accepted for the node being configured, one decommission leaves the berth table naming a node
      the database no longer has. */
  lemma DecommissionOfTargetSplitsStores(g: Gw, r: DecomReq, e: Env)
    requires g.flow.Some? && g.flow.value.step == MODEL_PUB_SET && g.flow.value.target != 0 && g.flow.value.berth != ""
    requires Accepts(g, r, e) && GoodUnicast(r) && r.unicast.value == g.flow.value.target && e.deleteOk
    requires |g.berths - {g.flow.value.target}| < MAX_RECORDS
    ensures var t := g.flow.value.target;
      var g1 := Step(g, Decommission(r), e);
      var g2 := Step(g1, CfgClient(SET_STATE, OP_NODE_RESET, t, false), e);
      var g3 := Step(g2, CfgClient(SET_STATE, OP_MODEL_PUB_SET, t, false), e);
      t in g3.berths && t !in g3.nodes
  {
    hide Step, Accepts;
    var t := g.flow.value.target;
    var g1 := Step(g, Decommission(r), e);
    TakenUp(g, r, e);
    ResetAcked(g1, t, e);
    FinalAck(Step(g1, CfgClient(SET_STATE, OP_NODE_RESET, t, false), e), t, e);
  }

  lemma TakenUp(g: Gw, r: DecomReq, e: Env)
    requires Accepts(g, r, e)
    ensures var g' := Step(g, Decommission(r), e);
      g'.flow == g.flow && g'.berths == g.berths && g'.decom.Some? && g'.decom.value.addr == r.unicast.value
  {
    hide Step, Said, Cut;
    StepMoves(g, Decommission(r), e);
    StepStores(g, Decommission(r), e);
  }

  lemma ResetAcked(g: Gw, from: u16, e: Env)
    requires g.decom.Some? && e.deleteOk
    ensures var g' := Step(g, CfgClient(SET_STATE, OP_NODE_RESET, from, false), e);
      && g'.flow == g.flow && g'.decom.None?
      && g'.berths == g.berths - {g.decom.value.addr} && g'.nodes == g.nodes - {g.decom.value.addr}
  {
    hide Step, Said;
    StepMoves(g, CfgClient(SET_STATE, OP_NODE_RESET, from, false), e);
    StepStores(g, CfgClient(SET_STATE, OP_NODE_RESET, from, false), e);
  }

  lemma FinalAck(g: Gw, from: u16, e: Env)
    requires g.flow.Some? && g.flow.value.step == MODEL_PUB_SET && g.decom.None?
    ensures var g' := Step(g, CfgClient(SET_STATE, OP_MODEL_PUB_SET, from, false), e);
      g'.nodes == g.nodes && g'.berths == Adopted(g.berths, g.flow.value)
  {
    hide Step, Adopted;
    StepStores(g, CfgClient(SET_STATE, OP_MODEL_PUB_SET, from, false), e);
    assert g.flow.value.(target := g.flow.value.target) == g.flow.value;
  }

  // ----- rollback -----

  /** No decommission is at work. */
  predicate NoDecommission(g: Gw, ev: Event, e: Env) {
    g.decom.None? && !(ev.Decommission? && Accepts(g, ev.dreq, e))
  }

  /** Since it began at `s`, the flow has added its own target to the node database and nothing else. */
  ghost predicate OnlyTargetAdded(s: Gw, g: Gw) {
    && g.flow.Some? && g.decom.None? && g.berths == s.berths && s.berths.Keys <= s.nodes.Keys
    && (g.flow.value.step == IDLE <==> g.flow.value.target == 0)
    && g.nodes == Grown(s.nodes, g.flow.value, g.devKey)
    && g.flow.value.target !in s.nodes
  }

  function Grown(nodes: map<u16, Node>, f: Flow, key: Key): map<u16, Node> {
    if f.target == 0 then nodes else nodes[f.target := Node(f.uuid, key)]
  }

  lemma StepRollsBack(s: Gw, g: Gw, ev: Event, e: Env)
    requires OnlyTargetAdded(s, g) && Resting(g) && Promised(g, ev) && NoDecommission(g, ev, e)
    ensures var g' := Step(g, ev, e);
      && (MoveOf(g, ev, e).Lose? ==> RolledBack(s, g', g.flow.value.(target := Target(g, ev)), KeyOf(g, ev), e))
      && (g'.flow.Some? ==> OnlyTargetAdded(s, g'))
  {
    hide Step, HasUuid, Said, Adopted;
    StepMoves(g, ev, e);
    StepStores(g, ev, e);
  }

  /** The berths are as they were; so are the nodes, but for a target the stack would not delete. */
  ghost predicate RolledBack(s: Gw, g: Gw, f: Flow, key: Key, e: Env) {
    && g.flow.None? && g.berths == s.berths && f.target !in g.berths
    && g.nodes == (if e.deleteOk then s.nodes else Grown(s.nodes, f, key))
    && (f.target in g.nodes <==> !e.deleteOk && f.target != 0)
  }

  /** The flow stays in flight before each of these callbacks, with the promises kept and no decommission at work. */
  ghost predicate Underway(s: Gw, ins: seq<Input>) {
    ins != [] ==>
      var k := |ins| - 1;
      var g, i := Run(s, ins[..k]), ins[k];
      Underway(s, ins[..k]) && g.flow.Some? && Promised(g, i.ev) && NoDecommission(g, i.ev, i.env)
  }

  lemma {:induction false} UnderwayAddsOnlyTarget(s: Gw, ins: seq<Input>)
    requires OnlyTargetAdded(s, s) && Resting(s) && Underway(s, ins)
    ensures Resting(Run(s, ins)) && (Run(s, ins).flow.Some? ==> OnlyTargetAdded(s, Run(s, ins)))
  {
    if ins != [] {
      hide Step, OnlyTargetAdded, Resting, Promised, NoDecommission, MoveOf, RolledBack;
      var k := |ins| - 1;
      var g, i := Run(s, ins[..k]), ins[k];
      UnderwayAddsOnlyTarget(s, ins[..k]);
      StepRests(g, i.ev, i.env);
      StepRollsBack(s, g, i.ev, i.env);
    }
  }

  /** Whatever makes a flow end in error - its timer, a closed link, a refused send, an error reply, too many
      timeouts - the node database and the berth table are as they were before the request. */
  lemma {:induction false} FailedFlowRollsBack(s: Gw, start: Input, ins: seq<Input>, last: Input)
    requires MoveOf(s, start.ev, start.env).Begin? && s.decom.None?
    requires s.berths.Keys <= s.nodes.Keys && 0 !in s.nodes
    requires var begun := Step(s, start.ev, start.env);
      && Underway(begun, ins + [last]) && MoveOf(Run(begun, ins), last.ev, last.env).Lose?
    ensures var g := Run(Step(s, start.ev, start.env), ins);
      g.flow.Some? &&
      var f := g.flow.value.(target := Target(g, last.ev));
      RolledBack(s, Step(g, last.ev, last.env), f, KeyOf(g, last.ev), last.env)
  {
    hide Step, Run, Resting, Promised, NoDecommission, RolledBack;
    var begun := Step(s, start.ev, start.env);
    var g := Run(begun, ins);
    StepMoves(s, start.ev, start.env);
    StepStores(s, start.ev, start.env);
    assert (ins + [last])[..|ins|] == ins;
    StartRests(s, start.ev, start.env);
    UnderwayAddsOnlyTarget(begun, ins);
    StepRollsBack(begun, g, last.ev, last.env);
    var f := g.flow.value.(target := Target(g, last.ev));
    SameStart(s, begun, Step(g, last.ev, last.env), f, KeyOf(g, last.ev), last.env);
  }

  lemma StartRests(s: Gw, ev: Event, e: Env)
    requires MoveOf(s, ev, e).Begin?
    ensures Resting(Step(s, ev, e))
  {
    hide Step;
    StepMoves(s, ev, e);
  }

  lemma SameStart(s: Gw, t: Gw, g: Gw, f: Flow, key: Key, e: Env)
    requires RolledBack(t, g, f, key, e) && s.nodes == t.nodes && s.berths == t.berths
    ensures RolledBack(s, g, f, key, e)
  {
  }

  // ----- the auto-match -----

  /** The match is set exactly while a flow is in flight, for its device. */
  predicate ArmedForFlow(g: Gw) { g.armed == if g.flow.Some? then Some(g.flow.value.uuid) else None }

  /** The last flow to end could not clear its match, and none has begun since. */
  ghost predicate ClearRefused(g0: Gw, ins: seq<Input>) {
    if ins == [] then false
    else
      var k := |ins| - 1;
      match MoveOf(Run(g0, ins[..k]), ins[k].ev, ins[k].env)
      case Begin => false
      case Win => !ins[k].env.clearOk
      case Lose(_) => !ins[k].env.clearOk
      case _ => ClearRefused(g0, ins[..k])
  }

  lemma {:induction false} ArmedExactlyInFlight(g0: Gw, ins: seq<Input>)
    requires Booted(g0)
    ensures var g := Run(g0, ins);
      && (g.flow.Some? ==> ArmedForFlow(g))
      && (ArmedForFlow(g) <==> !ClearRefused(g0, ins))
  {
    if ins != [] {
      hide Step, Said, NodesAfter, BerthsAfter;
      var k := |ins| - 1;
      var g, i := Run(g0, ins[..k]), ins[k];
      ArmedExactlyInFlight(g0, ins[..k]);
      StepMoves(g, i.ev, i.env);
      StepStores(g, i.ev, i.env);
    }
  }
}
