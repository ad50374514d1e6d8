/** The gateway's adoption and decommission protocol as one state machine over callbacks: the step machine of
    `dp_mesh_provisioner.c` together with the MQTT handlers of `dp_gateway_adopt.c` and `dp_gateway_decom.c`. A step
    is one whole callback; `Env` says how the stack, NVS and the heap answer during it. */
module GatewayModel {
  import opened Common
  import opened BerthMap

  type Uuid = seq<u8>
  type Key = seq<u8>

  const CFG_MAX_ATTEMPTS := 3
  const DECOM_MAX_ATTEMPTS := 3
  const REQ_ID_MAX := 64
  const NO_KEY: Key := [0, 0, 0, 0, 0, 0, 0, 0, 0, 0, 0, 0, 0, 0, 0, 0]

  datatype CfgStep = IDLE | APP_KEY_ADD | MODEL_APP_BIND | MODEL_PUB_SET | DONE
  {
    /** `s_cfg_step++` */
    function Next(): CfgStep {
      match this
      case IDLE => APP_KEY_ADD
      case APP_KEY_ADD => MODEL_APP_BIND
      case MODEL_APP_BIND => MODEL_PUB_SET
      case _ => DONE
    }

    function Index(): nat {
      match this
      case IDLE => 0
      case APP_KEY_ADD => 1
      case MODEL_APP_BIND => 2
      case MODEL_PUB_SET => 3
      case DONE => 4
    }

    predicate Sends() { APP_KEY_ADD? || MODEL_APP_BIND? || MODEL_PUB_SET? }

    function Op(): Opcode {
      match this
      case APP_KEY_ADD => OP_APP_KEY_ADD
      case MODEL_APP_BIND => OP_MODEL_APP_BIND
      case MODEL_PUB_SET => OP_MODEL_PUB_SET
      case _ => OP_OTHER
    }

    function Name(): Progress {
      match this
      case APP_KEY_ADD => CFG_APP_KEY
      case MODEL_APP_BIND => CFG_BIND
      case MODEL_PUB_SET => CFG_PUB_SET
      case _ => COMPLETE
    }

    /** The error code of a failed send. */
    function SendCode(): Code {
      match this
      case APP_KEY_ADD => APPKEY_SEND
      case MODEL_APP_BIND => BIND_SEND
      case MODEL_PUB_SET => PUBSET_SEND
      case _ => CFG_FAIL
    }
  }

  datatype Opcode = OP_APP_KEY_ADD | OP_MODEL_APP_BIND | OP_MODEL_PUB_SET | OP_NODE_RESET | OP_OTHER

  datatype Progress = STARTED | LINK_OPEN | PB_ADV_DONE | CFG_APP_KEY | CFG_BIND | CFG_PUB_SET | COMPLETE

  datatype Code =
    | BUSY | BAD_UUID | BAD_OOB | ALREADY_PROVISIONED | START_FAIL
    | LINK_CLOSE | PROV_TIMEOUT | CFG_FAIL | APPKEY_SEND | BIND_SEND | PUBSET_SEND

  datatype DecomStatus = DECOM_OK | DECOM_ORPHAN | DECOM_ERR
  datatype DecomCode = BAD_REQ | BAD_UNICAST | UNKNOWN | DELETE_FAIL | NVS_WRITE

  /** What reaches the broker's topics. */
  datatype Msg =
    | ProvState(reqId: string, state: Progress)
    | ProvOk(reqId: string, addr: u16, key: Key)
    | ProvErr(reqId: string, code: Code)
    | DecomResp(reqId: string, nodeId: Option<string>, status: DecomStatus, why: Option<DecomCode>, attempts: nat)

  /** Who asked the stack to send. */
  datatype Origin = CONFIG | ROLLBACK | DECOMMISSION

  /** A config-client request handed to the stack, and whether the stack took it. */
  datatype Cmd = Cmd(op: Opcode, addr: u16, origin: Origin, taken: bool)

  datatype Node = Node(uuid: Uuid, key: Key)

  // ----- requests, as parsed -----

  datatype Field<T> = Missing | Bad | Good(value: T)

  datatype ProvReq = ProvReq(reqId: Option<string>, uuid: Field<Uuid>, oob: Field<Key>, berth: string, node: string)

  /** `unicast` is Bad when it does not parse as a number. */
  datatype DecomReq = DecomReq(reqId: Option<string>, unicast: Field<nat>, node: Option<string>)

  // ----- events and their environment -----

  datatype CfgKind = SET_STATE | CFG_TIMEOUT | PUBLISH

  datatype Event =
    | Provision(req: ProvReq)
    | Decommission(dreq: DecomReq)
    | LinkOpen
    | LinkClose
    | ProvComplete(addr: u16, uuid: Uuid, key: Key)  // the stack has just entered the node into its database
    // the config client reports on a command with opcode `op` that went to `from`
    | CfgClient(kind: CfgKind, op: Opcode, from: u16, err: bool)
    | Timer
    | OtherProvEvent

  datatype Env = Env(sendOk: bool, resetOk: bool, deleteOk: bool, clearOk: bool, oobOk: bool, matchOk: bool,
                     saveOk: bool, allocOk: bool)

  // ----- state -----

  datatype Flow = Flow(reqId: string, berth: string, node: string, uuid: Uuid,
                       step: CfgStep, attempts: nat, target: u16)

  datatype Job = Job(addr: u16, attempts: nat, reqId: string, node: string)

  datatype Gw = Gw(flow: Option<Flow>, decom: Option<Job>, devKey: Key,
                   nodes: map<u16, Node>, armed: Option<Uuid>,
                   berths: Berths, flash: Berths,  // the berth table in RAM, and what it would be after a reboot
                   out: seq<Msg>, cmds: seq<Cmd>)

  function Cut(s: string, size: nat): (c: string)
    requires size > 0
    ensures c <= s && |c| == if |s| < size then |s| else size - 1
  {
    if |s| < size then s else s[..size - 1]
  }

  // ----- provisioning flow -----

  function Cleared(g: Gw, e: Env): Option<Uuid> { if e.clearOk then None else g.armed }

  function Emit(g: Gw, p: Progress): Gw {
    if g.flow.Some? then g.(out := g.out + [ProvState(g.flow.value.reqId, p)]) else g
  }

  /** The berth map after a successful flow; a berth the table cannot take is not reported. */
  ghost function Adopted(m: Berths, f: Flow): Berths { Adopts(m, f.target, f.berth, f.node) }

  ghost function Adopts(m: Berths, addr: u16, berth: string, node: string): Berths {
    if Takes(m, addr, berth) then Recorded(m, addr, berth, node) else m
  }

  /** A berth was asked for, and the table has room for it. */
  ghost predicate Takes(m: Berths, addr: u16, berth: string) {
    berth != "" && addr != 0 && !OutOfRoom(m, addr, berth)
  }

  /** What flash then stands for: a change is saved, if the save succeeds. */
  ghost function AdoptedFlash(m: Berths, flash: Berths, f: Flow, saveOk: bool): Berths {
    AdoptsFlash(m, flash, f.target, f.berth, f.node, saveOk)
  }

  ghost function AdoptsFlash(m: Berths, flash: Berths, addr: u16, berth: string, node: string, saveOk: bool): Berths {
    if Takes(m, addr, berth) && saveOk then Recorded(m, addr, berth, node) else flash
  }

  /** Forgetting an address that the table does not hold saves nothing. */
  function ForgetsFlash(m: Berths, flash: Berths, addr: u16, saveOk: bool): Berths {
    if addr in m && saveOk then m - {addr} else flash
  }

  ghost function FinishOk(g: Gw, e: Env): Gw
    requires g.flow.Some?
  {
    var f := g.flow.value;
    g.(flow := None, armed := Cleared(g, e),
       berths := Adopted(g.berths, f), flash := AdoptedFlash(g.berths, g.flash, f, e.saveOk),
       out := g.out + [ProvState(f.reqId, COMPLETE), ProvOk(f.reqId, f.target, g.devKey)])
  }

  function FinishErr(g: Gw, e: Env, code: Code): Gw
    requires g.flow.Some?
  {
    var f := g.flow.value;
    var t := f.target;
    g.(flow := None, armed := Cleared(g, e),
       cmds := if t != 0 then g.cmds + [Cmd(OP_NODE_RESET, t, ROLLBACK, e.resetOk)] else g.cmds,
       nodes := if t != 0 && e.deleteOk then g.nodes - {t} else g.nodes,
       berths := if t != 0 then g.berths - {t} else g.berths,
       flash := if t != 0 then ForgetsFlash(g.berths, g.flash, t, e.saveOk) else g.flash,
       out := g.out + [ProvErr(f.reqId, code)])
  }

  /** Send the current step's command; a step without a command counts as a failed send. */
  function SendStep(g: Gw, e: Env): Gw
    requires g.flow.Some?
  {
    var f := g.flow.value;
    if !f.step.Sends() then FinishErr(g, e, f.step.SendCode())
    else
      var sent := g.(cmds := g.cmds + [Cmd(f.step.Op(), f.target, CONFIG, e.sendOk)]);
      if e.sendOk then sent else FinishErr(sent, e, f.step.SendCode())
  }

  ghost function Advance(g: Gw, e: Env): Gw
    requires g.flow.Some?
  {
    var f := g.flow.value.(step := g.flow.value.step.Next(), attempts := 1);
    var g' := g.(flow := Some(f));
    if f.step == DONE then FinishOk(g', e) else SendStep(Emit(g', f.step.Name()), e)
  }

  function Redo(g: Gw, e: Env): Gw
    requires g.flow.Some?
  {
    SendStep(g.(flow := Some(g.flow.value.(attempts := g.flow.value.attempts + 1))), e)
  }

  ghost function OnProvComplete(g: Gw, addr: u16, uuid: Uuid, key: Key, e: Env): Gw {
    var g1 := g.(nodes := g.nodes[addr := Node(uuid, key)]);
    if g.flow.None? then if e.deleteOk then g1.(nodes := g1.nodes - {addr}) else g1
    else Advance(Emit(g1.(flow := Some(g.flow.value.(target := addr)), devKey := key), PB_ADV_DONE), e)
  }

  // ----- decommission -----

  function SendReset(g: Gw, addr: u16, e: Env): Gw {
    g.(cmds := g.cmds + [Cmd(OP_NODE_RESET, addr, DECOMMISSION, e.resetOk)])
  }

  /** Local cleanup demotes ok to err when it fails, but an orphan stays an orphan. */
  function Outcome(g: Gw, j: Job, e: Env, acked: bool): (DecomStatus, Option<DecomCode>) {
    if !acked then (DECOM_ORPHAN, None)
    else if !e.deleteOk then (DECOM_ERR, Some(DELETE_FAIL))
    else if j.addr in g.berths && !e.saveOk then (DECOM_ERR, Some(NVS_WRITE))
    else (DECOM_OK, None)
  }

  function FinishDecom(g: Gw, e: Env, acked: bool): Gw
    requires g.decom.Some?
  {
    var j := g.decom.value;
    var (status, code) := Outcome(g, j, e, acked);
    g.(decom := None,
       nodes := if e.deleteOk then g.nodes - {j.addr} else g.nodes,
       berths := g.berths - {j.addr},
       flash := ForgetsFlash(g.berths, g.flash, j.addr, e.saveOk),
       out := g.out + [DecomResp(j.reqId, if j.node != "" then Some(j.node) else None, status, code, j.attempts)])
  }

  function OnReset(g: Gw, kind: CfgKind, err: bool, e: Env): Gw
    requires g.decom.Some?
  {
    var j := g.decom.value;
    match kind
    case PUBLISH => g
    case CFG_TIMEOUT =>
      if j.attempts < DECOM_MAX_ATTEMPTS then
        SendReset(g.(decom := Some(j.(attempts := j.attempts + 1))), j.addr, e)
      else FinishDecom(g, e, false)
    case SET_STATE => FinishDecom(g, e, !err)
  }

  ghost function OnCfg(g: Gw, kind: CfgKind, op: Opcode, err: bool, e: Env): Gw {
    if g.decom.Some? && op == OP_NODE_RESET then OnReset(g, kind, err, e)
    else if g.flow.None? || kind == PUBLISH then g
    else if kind == CFG_TIMEOUT then
      if g.flow.value.attempts < CFG_MAX_ATTEMPTS then Redo(g, e) else FinishErr(g, e, CFG_FAIL)
    else if err then FinishErr(g, e, CFG_FAIL)
    else Advance(g, e)
  }

  // ----- requests -----

  predicate WellFormed(r: ProvReq) { r.reqId.Some? && r.uuid != Missing }

  predicate HasUuid(nodes: map<u16, Node>, uuid: Uuid) {
    exists a :: a in nodes && nodes[a].uuid == uuid
  }

  /** Why a well-formed request is turned away before anything is stored, if it is. */
  function Refusal(g: Gw, r: ProvReq): Option<Code>
    requires WellFormed(r)
  {
    if g.flow.Some? then Some(BUSY)
    else if r.uuid == Bad then Some(BAD_UUID)
    else if r.oob == Bad then Some(BAD_OOB)
    else if HasUuid(g.nodes, r.uuid.value) then Some(ALREADY_PROVISIONED)
    else None
  }

  predicate Starts(r: ProvReq, e: Env) { (r.oob.Good? ==> e.oobOk) && e.matchOk }

  function OnProvision(g: Gw, r: ProvReq, e: Env): Gw {
    if !WellFormed(r) then g
    else if Refusal(g, r).Some? then g.(out := g.out + [ProvErr(r.reqId.value, Refusal(g, r).value)])
    else
      var id := Cut(r.reqId.value, REQ_ID_MAX);
      if !Starts(r, e) then g.(out := g.out + [ProvErr(id, START_FAIL)])
      else
        var f := Flow(id, Cut(r.berth, BERTH_ID_MAX), Cut(r.node, NODE_ID_MAX), r.uuid.value, IDLE, 0, 0);
        g.(flow := Some(f), armed := Some(f.uuid), out := g.out + [ProvState(id, STARTED)])
  }

  predicate GoodUnicast(r: DecomReq) { r.unicast.Good? && 0 < r.unicast.value <= 0xFFFF }

  predicate Accepts(g: Gw, r: DecomReq, e: Env) { GoodUnicast(r) && e.allocOk && g.decom.None? }

  /** Without a req_id a refusal is silent. */
  function Refuse(g: Gw, r: DecomReq, code: DecomCode): Gw {
    if r.reqId.None? then g
    else g.(out := g.out + [DecomResp(r.reqId.value, r.node, DECOM_ERR, Some(code), 0)])
  }

  function OrEmpty(s: Option<string>): string { if s.Some? then s.value else "" }

  function OnDecommission(g: Gw, r: DecomReq, e: Env): Gw {
    if r.unicast == Missing then Refuse(g, r, BAD_REQ)
    else if !GoodUnicast(r) then Refuse(g, r, BAD_UNICAST)
    else if !Accepts(g, r, e) then Refuse(g, r, UNKNOWN)
    else
      var j := Job(r.unicast.value, 1, Cut(OrEmpty(r.reqId), REQ_ID_MAX), Cut(OrEmpty(r.node), REQ_ID_MAX));
      SendReset(g.(decom := Some(j)), j.addr, e)
  }

  // ----- steps and runs -----

  ghost function Step(g: Gw, ev: Event, e: Env): Gw {
    match ev
    case Provision(r) => OnProvision(g, r, e)
    case Decommission(r) => OnDecommission(g, r, e)
    case LinkOpen => Emit(g, LINK_OPEN)
    case LinkClose => if g.flow.Some? && g.flow.value.step == IDLE then FinishErr(g, e, LINK_CLOSE) else g
    case ProvComplete(addr, uuid, key) => OnProvComplete(g, addr, uuid, key, e)
    case CfgClient(kind, op, _, err) => OnCfg(g, kind, op, err, e)
    case Timer => if g.flow.Some? then FinishErr(g, e, PROV_TIMEOUT) else g
    case OtherProvEvent => g
  }

  datatype Input = Input(ev: Event, env: Env)

  ghost function Run(g: Gw, ins: seq<Input>): Gw {
    if ins == [] then g
    else
      var k := |ins| - 1;
      Step(Run(g, ins[..k]), ins[k].ev, ins[k].env)
  }

  /** After boot, with whatever nodes and berths were restored. */
  ghost predicate Booted(g: Gw) {
    g.flow.None? && g.decom.None? && g.armed.None? && g.out == [] && g.cmds == []
  }

  /** After a restart in which `berths` was loaded; what was said and sent before stays on record. */
  function Rebooted(g: Gw, berths: Berths): Gw {
    g.(flow := None, decom := None, devKey := NO_KEY, armed := None, berths := berths)
  }
}
