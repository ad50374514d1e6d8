/** What one callback does to the provisioning flow, in normal form: the state machine's moves, with the messages,
    commands and store updates that go with each. Everything proved about whole runs rests on this table. */
module Moves {
  import opened Common
  import opened BerthMap
  import opened GatewayModel

  datatype Move = Still | Begin | Forward | Again | Win | Lose(code: Code)

  /** The provisioning branch takes the event: completions, and the replies no decommission claims. */
  predicate Delivered(g: Gw, ev: Event) {
    && g.flow.Some?
    && (ev.ProvComplete? || (ev.CfgClient? && !ev.kind.PUBLISH? && !(g.decom.Some? && ev.op == OP_NODE_RESET)))
  }

  /** The event moves the flow on to its next step. */
  predicate Advances(g: Gw, ev: Event) {
    Delivered(g, ev) && (ev.ProvComplete? || (ev.kind.SET_STATE? && !ev.err))
  }

  function Sent(s: CfgStep, e: Env, then_: Move): Move {
    if s.Sends() && e.sendOk then then_ else Lose(s.SendCode())
  }

  function MoveOf(g: Gw, ev: Event, e: Env): Move {
    if ev.Provision? then
      if WellFormed(ev.req) && Refusal(g, ev.req).None? && Starts(ev.req, e) then Begin else Still
    else if g.flow.None? then Still
    else
      var s := g.flow.value.step;
      if ev.Timer? then Lose(PROV_TIMEOUT)
      else if ev.LinkClose? then if s == IDLE then Lose(LINK_CLOSE) else Still
      else if !Delivered(g, ev) then Still
      else if Advances(g, ev) then if s.Next() == DONE then Win else Sent(s.Next(), e, Forward)
      else if ev.kind.CFG_TIMEOUT? && g.flow.value.attempts < CFG_MAX_ATTEMPTS then Sent(s, e, Again)
      else Lose(CFG_FAIL)
  }

  /** The flow's target once the event is in. */
  function Target(g: Gw, ev: Event): u16
    requires g.flow.Some?
  {
    if ev.ProvComplete? then ev.addr else g.flow.value.target
  }

  function Started(r: ProvReq): Flow
    requires WellFormed(r) && r.uuid.Good?
  {
    Flow(Cut(r.reqId.value, REQ_ID_MAX), Cut(r.berth, BERTH_ID_MAX), Cut(r.node, NODE_ID_MAX), r.uuid.value, IDLE, 0, 0)
  }

  function FlowAfter(g: Gw, ev: Event, e: Env): Option<Flow> {
    match MoveOf(g, ev, e)
    case Still => g.flow
    case Begin => Some(Started(ev.req))
    case Forward => Some(g.flow.value.(step := g.flow.value.step.Next(), attempts := 1, target := Target(g, ev)))
    case Again => Some(g.flow.value.(attempts := g.flow.value.attempts + 1))
    case _ => None
  }

  /** The progress reported on the way, before the flow ends or the command goes out. */
  function Reported(g: Gw, ev: Event): seq<Msg>
    requires g.flow.Some?
  {
    var f := g.flow.value;
    (if ev.ProvComplete? then [ProvState(f.reqId, PB_ADV_DONE)] else [])
    + if Advances(g, ev) then [ProvState(f.reqId, f.step.Next().Name())] else []
  }

  /** The reset of a decommission is answered, or given up. */
  predicate DecomEnds(g: Gw, ev: Event) {
    && g.decom.Some? && ev.CfgClient? && ev.op == OP_NODE_RESET
    && (ev.kind.SET_STATE? || (ev.kind.CFG_TIMEOUT? && g.decom.value.attempts >= DECOM_MAX_ATTEMPTS))
  }

  /** The one reply of a finished decommission. */
  function DecomReport(g: Gw, ev: Event, e: Env): Msg
    requires DecomEnds(g, ev)
  {
    var j := g.decom.value;
    var (status, why) := Outcome(g, j, e, ev.kind.SET_STATE? && !ev.err);
    DecomResp(j.reqId, if j.node != "" then Some(j.node) else None, status, why, j.attempts)
  }

  /** What else a callback that leaves the flow alone says: a refusal or a link report. */
  predicate Aside(g: Gw, m: Msg) {
    || (m.DecomResp? && m.attempts == 0)
    || (g.flow.Some? && m == ProvState(g.flow.value.reqId, LINK_OPEN))
    || (m.ProvErr? && if g.flow.Some? then m.code.BUSY?
                      else m.code in {BAD_UUID, BAD_OOB, ALREADY_PROVISIONED, START_FAIL})
  }

  ghost predicate Said(g: Gw, ev: Event, e: Env, out: seq<Msg>) {
    match MoveOf(g, ev, e)
    case Still =>
      if DecomEnds(g, ev) then out == g.out + [DecomReport(g, ev, e)]
      else out == g.out || (exists m | Aside(g, m) :: out == g.out + [m])
    case Begin => out == g.out + [ProvState(Started(ev.req).reqId, STARTED)]
    case Again => out == g.out
    case Forward => out == g.out + Reported(g, ev)
    case Win => out == g.out + Reported(g, ev) + [ProvOk(g.flow.value.reqId, Target(g, ev), KeyOf(g, ev))]
    case Lose(code) => out == g.out + Reported(g, ev) + [ProvErr(g.flow.value.reqId, code)]
  }

  function KeyOf(g: Gw, ev: Event): Key {
    if ev.ProvComplete? && g.flow.Some? then ev.key else g.devKey
  }

  ghost predicate Moved(g: Gw, ev: Event, e: Env, g': Gw) {
    g'.flow == FlowAfter(g, ev, e) && Said(g, ev, e, g'.out) && g'.devKey == KeyOf(g, ev)
  }

  lemma SendMoves(g: Gw, e: Env)
    requires g.flow.Some?
    ensures var g', s := SendStep(g, e), g.flow.value.step;
      && g'.devKey == g.devKey
      && (s.Sends() && e.sendOk ==> g'.flow == g.flow && g'.out == g.out)
      && (!(s.Sends() && e.sendOk) ==> g'.flow.None? && g'.out == g.out + [ProvErr(g.flow.value.reqId, s.SendCode())])
  {
  }

  lemma AdvanceMoves(g: Gw, e: Env)
    requires g.flow.Some?
    ensures var g', f, s := Advance(g, e), g.flow.value, g.flow.value.step.Next();
      && g'.devKey == g.devKey
      && (s == DONE ==>
            && g'.flow.None?
            && g'.out == g.out + [ProvState(f.reqId, COMPLETE), ProvOk(f.reqId, f.target, g.devKey)])
      && (s.Sends() && e.sendOk ==>
            g'.flow == Some(f.(step := s, attempts := 1)) && g'.out == g.out + [ProvState(f.reqId, s.Name())])
      && (s.Sends() && !e.sendOk ==>
            g'.flow.None? && g'.out == g.out + [ProvState(f.reqId, s.Name()), ProvErr(f.reqId, s.SendCode())])
  {
    hide SendStep;
    var f := g.flow.value.(step := g.flow.value.step.Next(), attempts := 1);
    if f.step != DONE { SendMoves(Emit(g.(flow := Some(f)), f.step.Name()), e); }
  }

  lemma CompleteMoves(g: Gw, addr: u16, uuid: Uuid, key: Key, e: Env)
    ensures Moved(g, ProvComplete(addr, uuid, key), e, OnProvComplete(g, addr, uuid, key, e))
  {
    hide Advance;
    if g.flow.Some? {
      var f := g.flow.value.(target := addr);
      var g1 := g.(nodes := g.nodes[addr := Node(uuid, key)], flow := Some(f), devKey := key);
      AdvanceMoves(Emit(g1, PB_ADV_DONE), e);
    }
  }

  lemma CfgMoves(g: Gw, kind: CfgKind, op: Opcode, from: u16, err: bool, e: Env)
    ensures Moved(g, CfgClient(kind, op, from, err), e, OnCfg(g, kind, op, err, e))
  {
    hide Advance, SendStep;
    var ev := CfgClient(kind, op, from, err);
    if g.flow.Some? && Delivered(g, ev) {
      AdvanceMoves(g, e);
      SendMoves(g.(flow := Some(g.flow.value.(attempts := g.flow.value.attempts + 1))), e);
    } else {
      ResetMoves(g, kind, op, from, err, e);
    }
  }

  lemma FinishDecomSays(g: Gw, kind: CfgKind, op: Opcode, from: u16, err: bool, e: Env)
    requires DecomEnds(g, CfgClient(kind, op, from, err))
    ensures var ev := CfgClient(kind, op, from, err);
      var g' := FinishDecom(g, e, kind.SET_STATE? && !err);
      g'.flow == g.flow && g'.devKey == g.devKey && g'.out == g.out + [DecomReport(g, ev, e)]
  {
    hide Outcome, ForgetsFlash;
  }

  lemma ResetMoves(g: Gw, kind: CfgKind, op: Opcode, from: u16, err: bool, e: Env)
    requires !(g.flow.Some? && Delivered(g, CfgClient(kind, op, from, err)))
    ensures Moved(g, CfgClient(kind, op, from, err), e, OnCfg(g, kind, op, err, e))
  {
    hide FinishDecom, Advance, FinishErr, SendStep, Refusal, DecomReport;
    if DecomEnds(g, CfgClient(kind, op, from, err)) { FinishDecomSays(g, kind, op, from, err, e); }
  }

  lemma ProvisionMoves(g: Gw, r: ProvReq, e: Env)
    ensures Moved(g, Provision(r), e, OnProvision(g, r, e))
  {
    hide HasUuid, Cut;
    var g' := OnProvision(g, r, e);
    if MoveOf(g, Provision(r), e).Still? && g'.out != g.out { assert Aside(g, g'.out[|g.out|]); }
  }

  lemma DecommissionSays(g: Gw, r: DecomReq, e: Env)
    ensures var g' := OnDecommission(g, r, e);
      && g'.flow == g.flow && g'.devKey == g.devKey
      && (g'.out == g.out || exists m | Aside(g, m) :: g'.out == g.out + [m])
  {
    hide Cut;
    var g' := OnDecommission(g, r, e);
    if g'.out != g.out { assert Aside(g, g'.out[|g.out|]); }
  }

  lemma DecommissionMoves(g: Gw, r: DecomReq, e: Env)
    ensures Moved(g, Decommission(r), e, OnDecommission(g, r, e))
  {
    hide OnDecommission, Aside;
    DecommissionSays(g, r, e);
  }

  /** The callback's effect on the flow and on what the broker hears, in every state and with every outcome. */
  lemma StepMoves(g: Gw, ev: Event, e: Env)
    ensures Moved(g, ev, e, Step(g, ev, e))
  {
    hide OnProvComplete, OnCfg, OnProvision, OnDecommission;
    match ev
    case Provision(r) => ProvisionMoves(g, r, e);
    case Decommission(r) => DecommissionMoves(g, r, e);
    case ProvComplete(addr, uuid, key) => CompleteMoves(g, addr, uuid, key, e);
    case CfgClient(kind, op, from, err) => CfgMoves(g, kind, op, from, err, e);
    case _ => QuietMoves(g, ev, e);
  }

  lemma QuietMoves(g: Gw, ev: Event, e: Env)
    requires ev.LinkOpen? || ev.LinkClose? || ev.Timer? || ev.OtherProvEvent?
    ensures Moved(g, ev, e, Step(g, ev, e))
  {
    var g' := Step(g, ev, e);
    if ev.LinkOpen? && g.flow.Some? { assert Aside(g, g'.out[|g.out|]); }
  }

  /** A flow's step, between callbacks: never DONE, and its bounded sends are counted. */
  ghost predicate Resting(g: Gw) {
    g.flow.Some? ==> var f := g.flow.value;
      !f.step.DONE? && (f.step == IDLE ==> f.attempts == 0) && (f.step != IDLE ==> 1 <= f.attempts <= CFG_MAX_ATTEMPTS)
  }

  lemma StepRests(g: Gw, ev: Event, e: Env)
    requires Resting(g)
    ensures Resting(Step(g, ev, e))
  {
    hide Step;
    StepMoves(g, ev, e);
  }

  lemma {:induction false} RunRests(g0: Gw, ins: seq<Input>)
    requires Booted(g0)
    ensures Resting(Run(g0, ins))
  {
    if ins != [] {
      var k := |ins| - 1;
      RunRests(g0, ins[..k]);
      StepRests(Run(g0, ins[..k]), ins[k].ev, ins[k].env);
    }
  }

  lemma OutGrows(g: Gw, ev: Event, e: Env)
    ensures g.out <= Step(g, ev, e).out
  {
    hide Step;
    StepMoves(g, ev, e);
  }

  // ----- the stores -----

  function Without<T>(m: map<u16, T>, a: u16): map<u16, T> { m - {a} }

  function NodesAfter(g: Gw, ev: Event, e: Env): map<u16, Node> {
    var nodes := if ev.ProvComplete? then g.nodes[ev.addr := Node(ev.uuid, ev.key)] else g.nodes;
    if !e.deleteOk then nodes
    else if ev.ProvComplete? && g.flow.None? then Without(nodes, ev.addr)
    else if MoveOf(g, ev, e).Lose? && Target(g, ev) != 0 then Without(nodes, Target(g, ev))
    else if DecomEnds(g, ev) then Without(nodes, g.decom.value.addr)
    else nodes
  }

  ghost function BerthsAfter(g: Gw, ev: Event, e: Env): Berths {
    match MoveOf(g, ev, e)
    case Win => Adopted(g.berths, g.flow.value.(target := Target(g, ev)))
    case Lose(_) => if Target(g, ev) != 0 then Without(g.berths, Target(g, ev)) else g.berths
    case _ => if DecomEnds(g, ev) then Without(g.berths, g.decom.value.addr) else g.berths
  }

  ghost function FlashAfter(g: Gw, ev: Event, e: Env): Berths {
    match MoveOf(g, ev, e)
    case Win => AdoptedFlash(g.berths, g.flash, g.flow.value.(target := Target(g, ev)), e.saveOk)
    case Lose(_) =>
      if Target(g, ev) != 0 then ForgetsFlash(g.berths, g.flash, Target(g, ev), e.saveOk) else g.flash
    case _ =>
      if DecomEnds(g, ev) then ForgetsFlash(g.berths, g.flash, g.decom.value.addr, e.saveOk) else g.flash
  }

  function ArmedAfter(g: Gw, ev: Event, e: Env): Option<Uuid> {
    match MoveOf(g, ev, e)
    case Begin => Some(Started(ev.req).uuid)
    case Win => Cleared(g, e)
    case Lose(_) => Cleared(g, e)
    case _ => g.armed
  }

  function DecomAfter(g: Gw, ev: Event, e: Env): Option<Job> {
    if ev.Decommission? && Accepts(g, ev.dreq, e) then
      var r := ev.dreq;
      Some(Job(r.unicast.value, 1, Cut(OrEmpty(r.reqId), REQ_ID_MAX), Cut(OrEmpty(r.node), REQ_ID_MAX)))
    else if DecomEnds(g, ev) then None
    else if g.decom.Some? && ev.CfgClient? && ev.op == OP_NODE_RESET && ev.kind.CFG_TIMEOUT? then
      Some(g.decom.value.(attempts := g.decom.value.attempts + 1))
    else g.decom
  }

  ghost predicate Stored(g: Gw, ev: Event, e: Env, g': Gw) {
    && g'.nodes == NodesAfter(g, ev, e)
    && g'.berths == BerthsAfter(g, ev, e) && g'.flash == FlashAfter(g, ev, e)
    && g'.armed == ArmedAfter(g, ev, e) && g'.decom == DecomAfter(g, ev, e)
  }

  lemma FinishErrStores(g: Gw, e: Env, code: Code)
    requires g.flow.Some?
    ensures var g', t := FinishErr(g, e, code), g.flow.value.target;
      && g'.decom == g.decom && g'.armed == Cleared(g, e)
      && g'.nodes == (if t != 0 && e.deleteOk then Without(g.nodes, t) else g.nodes)
      && g'.berths == (if t != 0 then Without(g.berths, t) else g.berths)
      && g'.flash == (if t != 0 then ForgetsFlash(g.berths, g.flash, t, e.saveOk) else g.flash)
  {
  }

  lemma SendStores(g: Gw, e: Env)
    requires g.flow.Some?
    ensures var g', s, t := SendStep(g, e), g.flow.value.step, g.flow.value.target;
      var lost := !(s.Sends() && e.sendOk);
      && g'.decom == g.decom && g'.armed == (if lost then Cleared(g, e) else g.armed)
      && g'.nodes == (if lost && t != 0 && e.deleteOk then Without(g.nodes, t) else g.nodes)
      && g'.berths == (if lost && t != 0 then Without(g.berths, t) else g.berths)
      && g'.flash == (if lost && t != 0 then ForgetsFlash(g.berths, g.flash, t, e.saveOk) else g.flash)
  {
    hide FinishErr, Without, ForgetsFlash, Cleared;
    var s := g.flow.value.step;
    if !s.Sends() {
      FinishErrStores(g, e, s.SendCode());
    } else {
      var sent := g.(cmds := g.cmds + [Cmd(s.Op(), g.flow.value.target, CONFIG, e.sendOk)]);
      FinishErrStores(sent, e, s.SendCode());
      SameMatch(g, sent, e);
    }
  }

  lemma SameMatch(g: Gw, g': Gw, e: Env)
    requires g.armed == g'.armed
    ensures Cleared(g, e) == Cleared(g', e)
  {
  }

  lemma AdvanceStores(g: Gw, e: Env)
    requires g.flow.Some?
    ensures var g', s, t := Advance(g, e), g.flow.value.step.Next(), g.flow.value.target;
      var lost := s != DONE && !e.sendOk;
      && g'.decom == g.decom && g'.armed == (if lost || s == DONE then Cleared(g, e) else g.armed)
      && g'.nodes == (if lost && t != 0 && e.deleteOk then Without(g.nodes, t) else g.nodes)
      && g'.berths == (if s == DONE then Adopted(g.berths, g.flow.value)
                       else if lost && t != 0 then Without(g.berths, t) else g.berths)
      && g'.flash == (if s == DONE then AdoptedFlash(g.berths, g.flash, g.flow.value, e.saveOk)
                      else if lost && t != 0 then ForgetsFlash(g.berths, g.flash, t, e.saveOk) else g.flash)
  {
    hide SendStep;
    var f := g.flow.value.(step := g.flow.value.step.Next(), attempts := 1);
    if f.step != DONE { SendStores(Emit(g.(flow := Some(f)), f.step.Name()), e); }
  }

  lemma CompleteStores(g: Gw, addr: u16, uuid: Uuid, key: Key, e: Env)
    requires g.flow.Some?
    ensures Stored(g, ProvComplete(addr, uuid, key), e, OnProvComplete(g, addr, uuid, key, e))
  {
    hide Advance, Without, Adopted, AdoptedFlash, ForgetsFlash;
    var f := g.flow.value.(target := addr);
    var g1 := g.(nodes := g.nodes[addr := Node(uuid, key)], flow := Some(f), devKey := key);
    AdvanceStores(Emit(g1, PB_ADV_DONE), e);
  }

  lemma CfgStores(g: Gw, kind: CfgKind, op: Opcode, from: u16, err: bool, e: Env)
    requires Delivered(g, CfgClient(kind, op, from, err))
    ensures Stored(g, CfgClient(kind, op, from, err), e, OnCfg(g, kind, op, err, e))
  {
    hide Advance, SendStep, FinishErr, Without, Adopted, AdoptedFlash, ForgetsFlash;
    assert g.flow.value.(target := g.flow.value.target) == g.flow.value;
    if kind.SET_STATE? && !err {
      AdvanceStores(g, e);
    } else if kind.CFG_TIMEOUT? && g.flow.value.attempts < CFG_MAX_ATTEMPTS {
      SendStores(g.(flow := Some(g.flow.value.(attempts := g.flow.value.attempts + 1))), e);
    } else {
      FinishErrStores(g, e, CFG_FAIL);
    }
  }

  lemma FinishDecomStores(g: Gw, e: Env, acked: bool)
    requires g.decom.Some?
    ensures var g', a := FinishDecom(g, e, acked), g.decom.value.addr;
      && g'.decom.None? && g'.armed == g.armed
      && g'.nodes == (if e.deleteOk then Without(g.nodes, a) else g.nodes)
      && g'.berths == Without(g.berths, a) && g'.flash == ForgetsFlash(g.berths, g.flash, a, e.saveOk)
  {
    hide Outcome, ForgetsFlash;
  }

  lemma ResetStores(g: Gw, kind: CfgKind, op: Opcode, from: u16, err: bool, e: Env)
    requires !Delivered(g, CfgClient(kind, op, from, err))
    ensures Stored(g, CfgClient(kind, op, from, err), e, OnCfg(g, kind, op, err, e))
  {
    hide Advance, SendStep, FinishErr, FinishDecom, Without, Adopted, AdoptedFlash, ForgetsFlash, Cut, Refusal;
    if DecomEnds(g, CfgClient(kind, op, from, err)) { FinishDecomStores(g, e, kind.SET_STATE? && !err); }
  }

  lemma ProvisionStores(g: Gw, r: ProvReq, e: Env)
    ensures Stored(g, Provision(r), e, OnProvision(g, r, e))
  {
    hide HasUuid, Cut, Adopted, AdoptedFlash, ForgetsFlash;
  }

  lemma DecommissionStores(g: Gw, r: DecomReq, e: Env)
    ensures Stored(g, Decommission(r), e, OnDecommission(g, r, e))
  {
    hide HasUuid, Cut, Adopted, AdoptedFlash, ForgetsFlash;
  }

  lemma OtherStores(g: Gw, ev: Event, e: Env)
    requires !Delivered(g, ev) && !ev.CfgClient? && !ev.Provision? && !ev.Decommission?
    ensures Stored(g, ev, e, Step(g, ev, e))
  {
    hide Advance, FinishErr;
    if g.flow.Some? {
      FinishErrStores(g, e, PROV_TIMEOUT);
      FinishErrStores(g, e, LINK_CLOSE);
    }
  }

  /** The callback's effect on the node database, the berth table, the auto-match and the decommission. */
  lemma StepStores(g: Gw, ev: Event, e: Env)
    ensures Stored(g, ev, e, Step(g, ev, e))
  {
    hide OnProvComplete, OnCfg, OnProvision, OnDecommission, Stored;
    match ev
    case Provision(r) => ProvisionStores(g, r, e);
    case Decommission(r) => DecommissionStores(g, r, e);
    case CfgClient(kind, op, from, err) =>
      if Delivered(g, ev) { CfgStores(g, kind, op, from, err, e); } else { ResetStores(g, kind, op, from, err, e); }
    case ProvComplete(addr, uuid, key) =>
      if Delivered(g, ev) { CompleteStores(g, addr, uuid, key, e); } else { OtherStores(g, ev, e); }
    case _ => OtherStores(g, ev, e);
  }

  // ----- the commands -----

  /** The step whose command the callback hands to the stack, if any. */
  function Tries(g: Gw, ev: Event): Option<CfgStep> {
    if !Delivered(g, ev) then None
    else
      var s := g.flow.value.step;
      if Advances(g, ev) then if s.Next().Sends() then Some(s.Next()) else None
      else if ev.kind.CFG_TIMEOUT? && g.flow.value.attempts < CFG_MAX_ATTEMPTS && s.Sends() then Some(s)
      else None
  }

  /** The address a decommission resets, the first time or again. */
  function Resets(g: Gw, ev: Event, e: Env): Option<u16> {
    if ev.Decommission? && Accepts(g, ev.dreq, e) then Some(ev.dreq.unicast.value)
    else if g.decom.Some? && ev.CfgClient? && ev.op == OP_NODE_RESET && ev.kind.CFG_TIMEOUT? && !DecomEnds(g, ev) then
      Some(g.decom.value.addr)
    else None
  }

  function TryCmds(g: Gw, ev: Event, e: Env): seq<Cmd> {
    if Tries(g, ev).Some? then [Cmd(Tries(g, ev).value.Op(), Target(g, ev), CONFIG, e.sendOk)] else []
  }

  function BackCmds(g: Gw, ev: Event, e: Env): seq<Cmd> {
    if MoveOf(g, ev, e).Lose? && Target(g, ev) != 0 then [Cmd(OP_NODE_RESET, Target(g, ev), ROLLBACK, e.resetOk)]
    else []
  }

  /** The flow's own commands: the step's message, and the reset that rolls back. */
  function FlowCmds(g: Gw, ev: Event, e: Env): seq<Cmd> { TryCmds(g, ev, e) + BackCmds(g, ev, e) }

  function ResetCmds(g: Gw, ev: Event, e: Env): seq<Cmd> {
    if Resets(g, ev, e).Some? then [Cmd(OP_NODE_RESET, Resets(g, ev, e).value, DECOMMISSION, e.resetOk)] else []
  }

  ghost predicate Commanded(g: Gw, ev: Event, e: Env, g': Gw) {
    g'.cmds == g.cmds + FlowCmds(g, ev, e) + ResetCmds(g, ev, e)
  }

  lemma FinishErrCmds(g: Gw, e: Env, code: Code)
    requires g.flow.Some?
    ensures var t := g.flow.value.target;
      FinishErr(g, e, code).cmds == g.cmds + if t != 0 then [Cmd(OP_NODE_RESET, t, ROLLBACK, e.resetOk)] else []
  {
  }

  lemma SendCmds(g: Gw, e: Env)
    requires g.flow.Some?
    ensures var s, t := g.flow.value.step, g.flow.value.target;
      SendStep(g, e).cmds == g.cmds
        + (if s.Sends() then [Cmd(s.Op(), t, CONFIG, e.sendOk)] else [])
        + if !(s.Sends() && e.sendOk) && t != 0 then [Cmd(OP_NODE_RESET, t, ROLLBACK, e.resetOk)] else []
  {
  }

  lemma AdvanceCmds(g: Gw, e: Env)
    requires g.flow.Some?
    ensures var s, t := g.flow.value.step.Next(), g.flow.value.target;
      Advance(g, e).cmds == g.cmds
        + (if s.Sends() then [Cmd(s.Op(), t, CONFIG, e.sendOk)] else [])
        + if s.Sends() && !e.sendOk && t != 0 then [Cmd(OP_NODE_RESET, t, ROLLBACK, e.resetOk)] else []
  {
    hide SendStep;
    var f := g.flow.value.(step := g.flow.value.step.Next(), attempts := 1);
    if f.step != DONE { SendCmds(Emit(g.(flow := Some(f)), f.step.Name()), e); }
  }

  lemma CompleteCmds(g: Gw, addr: u16, uuid: Uuid, key: Key, e: Env)
    ensures Commanded(g, ProvComplete(addr, uuid, key), e, OnProvComplete(g, addr, uuid, key, e))
  {
    hide Advance;
    if g.flow.Some? {
      var f := g.flow.value.(target := addr);
      var g1 := g.(nodes := g.nodes[addr := Node(uuid, key)], flow := Some(f), devKey := key);
      AdvanceCmds(Emit(g1, PB_ADV_DONE), e);
    }
  }

  lemma CfgCmds(g: Gw, kind: CfgKind, op: Opcode, from: u16, err: bool, e: Env)
    requires Delivered(g, CfgClient(kind, op, from, err))
    ensures Commanded(g, CfgClient(kind, op, from, err), e, OnCfg(g, kind, op, err, e))
  {
    hide Advance, SendStep, FinishErr, Outcome, Refusal, Cut;
    FinishErrCmds(g, e, CFG_FAIL);
    AdvanceCmds(g, e);
    SendCmds(g.(flow := Some(g.flow.value.(attempts := g.flow.value.attempts + 1))), e);
  }

  lemma ResetReplyCmds(g: Gw, kind: CfgKind, op: Opcode, from: u16, err: bool, e: Env)
    requires !Delivered(g, CfgClient(kind, op, from, err))
    ensures Commanded(g, CfgClient(kind, op, from, err), e, OnCfg(g, kind, op, err, e))
  {
    hide Advance, SendStep, FinishErr, Outcome, Refusal, Cut;
  }

  lemma OtherCmds(g: Gw, ev: Event, e: Env)
    requires !ev.ProvComplete? && !ev.CfgClient?
    ensures Commanded(g, ev, e, Step(g, ev, e))
  {
    hide HasUuid, Cut;
  }

  /** The callback's commands: a configuration message, the reset that rolls a failed flow back, or the reset of a
      decommission. */
  lemma StepCmds(g: Gw, ev: Event, e: Env)
    ensures Commanded(g, ev, e, Step(g, ev, e))
  {
    hide OnProvComplete, OnCfg, Commanded;
    match ev
    case ProvComplete(addr, uuid, key) => CompleteCmds(g, addr, uuid, key, e);
    case CfgClient(kind, op, from, err) =>
      if Delivered(g, ev) { CfgCmds(g, kind, op, from, err, e); } else { ResetReplyCmds(g, kind, op, from, err, e); }
    case _ => OtherCmds(g, ev, e);
  }

  // ----- the stack's side -----

  /** The stack answers the command last sent to the flow's node, and completes a flow's provisioning once. Nothing in
      `on_cfg_client` checks this: its provisioning branch compares neither the opcode with the step nor the sender
      with the target. */
  predicate Matched(g: Gw, ev: Event) {
    Delivered(g, ev) ==>
      var f := g.flow.value;
      if ev.ProvComplete? then f.step == IDLE else f.step.Sends() && ev.op == f.step.Op() && ev.from == f.target
  }

  /** The stack completes a flow's provisioning once, before it acknowledges any of the flow's commands. */
  predicate InOrder(g: Gw, ev: Event) {
    Advances(g, ev) ==> (ev.ProvComplete? <==> g.flow.value.step == IDLE)
  }
}
