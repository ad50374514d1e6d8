/** Agreement: gateway and sensors joined by a channel that loses, duplicates, delays and reorders. When the gateway
    reports a flow ok, the sensor it names is ready, armed to publish and safe from its watchdog. */
module Agreement {
  import opened Common
  import opened GatewayModel
  import opened Moves
  import opened Stores
  import opened SensorModel
  import opened Leftovers

  /** Device-key messages. Both name the node's address and the key they are encrypted with. */
  datatype Packet =
    | Request(op: Opcode, addr: u16, key: Key)
    | Reply(op: Opcode, addr: u16, key: Key, err: bool)

  datatype Grant = Grant(uuid: Uuid, addr: u16)

  /** `air` only grows: a packet sent may arrive at any later time, any number of times, or never. `grants` are the
      device keys that PB-ADV handshakes produced; `known` those whose completion the gateway has seen, `joined` those
      whose completion the node has. */
  datatype Sys = Sys(g: Gw, sensors: map<Uuid, Sensor>, air: set<Packet>, grants: map<Key, Grant>,
                     known: set<Key>, joined: set<Key>)

  datatype Action =
    | Handshake(key: Key, grant: Grant)  // PB-ADV hands out an address and a fresh key
    | GatewayDoes(ev: Event, env: Env)
    | NodeDoes(uuid: Uuid, nev: NodeEvent, nenv: NodeEnv)
    | NodeHears(uuid: Uuid, op: Opcode, accepted: bool, nenv: NodeEnv)

  // ----- what can happen -----

  /** A decommission does not name the node being adopted. */
  predicate SparesTarget(g: Gw, ev: Event) {
    && (ev.Decommission? && GoodUnicast(ev.dreq) && g.flow.Some? ==> ev.dreq.unicast.value != g.flow.value.target)
    && (ev.ProvComplete? && g.decom.Some? ==> ev.addr != g.decom.value.addr)
  }

  /** The gateway's stack delivers completions of its handshakes once each, as replies only those that came over the
      air and that it has the node's key for, and it keeps the promises of `Stores` and `Moves`; the
      operator spares the node being adopted. */
  predicate GatewayMay(s: Sys, ev: Event) {
    && Promised(s.g, ev) && Matched(s.g, ev) && SparesTarget(s.g, ev)
    && (ev.ProvComplete? ==>
          ev.key in s.grants && s.grants[ev.key] == Grant(ev.uuid, ev.addr) && ev.key !in s.known)
    && (Delivered(s.g, ev) && ev.CfgClient? && ev.kind.SET_STATE? ==>
          Reply(ev.op, ev.from, s.g.devKey, ev.err) in s.air)
    && (HeardByDecom(s.g, ev) && ev.kind.SET_STATE? ==>
          ev.from in s.g.nodes && Reply(ev.op, ev.from, s.g.nodes[ev.from].key, ev.err) in s.air)
  }

  /** No power loss, no button: a node completes its own handshakes once each, its watchdog expires when it runs, and
      the stack reports a reset only after the identity is gone. */
  predicate NodeMay(s: Sys, u: Uuid, ev: NodeEvent) {
    && u in s.sensors
    && match ev {
         case Boot => false
         case StateChange(_) => false
         case Complete(addr, key) =>
           s.sensors[u].stack.None? && key in s.grants && s.grants[key] == Grant(u, addr) && key !in s.joined
         case ResetEvt => s.sensors[u].stack.None?
         case WatchdogExpires => s.sensors[u].watchdog
         case _ => true
       }
  }

  predicate Hears(s: Sys, u: Uuid, op: Opcode) {
    && u in s.sensors && s.sensors[u].stack.Some?
    && Request(op, s.sensors[u].stack.value.addr, s.sensors[u].stack.value.key) in s.air
  }

  ghost predicate May(s: Sys, a: Action) {
    match a
    case Handshake(key, grant) => key !in s.grants && key !in s.known + s.joined && grant.uuid in s.sensors
    case GatewayDoes(ev, _) => GatewayMay(s, ev)
    case NodeDoes(u, nev, _) => NodeMay(s, u, nev)
    case NodeHears(u, op, _, _) => Hears(s, u, op)
  }

  // ----- what it does -----

  /** The node database while the callback runs: the stack enters a node before it reports it. */
  function Nodes(g: Gw, ev: Event): map<u16, Node> {
    if ev.ProvComplete? then g.nodes[ev.addr := Node(ev.uuid, ev.key)] else g.nodes
  }

  /** A command goes on the air when the stack took it and has the node's key. */
  function OnAir(nodes: map<u16, Node>, cmds: seq<Cmd>): set<Packet> {
    set c | c in cmds && c.taken && c.addr in nodes :: Request(c.op, c.addr, nodes[c.addr].key)
  }

  function NodeReacts(n: Sensor, op: Opcode, e: NodeEnv): Sensor {
    NodeStep(n, if op == OP_NODE_RESET then ResetEvt else StateChange(op), e)
  }

  /** An action that cannot happen changes nothing, so every sequence of actions is a run. */
  ghost function Do(s: Sys, a: Action): Sys {
    if !May(s, a) then s
    else
      match a
      case Handshake(key, grant) => s.(grants := s.grants[key := grant])
      case GatewayDoes(ev, env) => GatewayDid(s, ev, env)
      case NodeDoes(u, nev, nenv) =>
        s.(sensors := s.sensors[u := NodeStep(s.sensors[u], nev, nenv)],
           joined := if nev.Complete? then s.joined + {nev.key} else s.joined)
      case NodeHears(u, op, accepted, nenv) => NodeHeard(s, u, op, accepted, nenv)
  }

  ghost function GatewayDid(s: Sys, ev: Event, env: Env): Sys {
    var g' := Step(s.g, ev, env);
    StepCmds(s.g, ev, env);
    s.(g := g', air := s.air + OnAir(Nodes(s.g, ev), g'.cmds[|s.g.cmds|..]),
       known := if ev.ProvComplete? then s.known + {ev.key} else s.known)
  }

  function NodeHeard(s: Sys, u: Uuid, op: Opcode, accepted: bool, e: NodeEnv): Sys
    requires Hears(s, u, op)
  {
    var id := s.sensors[u].stack.value;
    s.(air := s.air + {Reply(op, id.addr, id.key, !accepted)},
       sensors := if accepted then s.sensors[u := NodeReacts(s.sensors[u], op, e)] else s.sensors)
  }

  ghost function After(s: Sys, acts: seq<Action>): Sys {
    if acts == [] then s else var k := |acts| - 1; Do(After(s, acts[..k]), acts[k])
  }

  // ----- the invariant -----

  /** The sensor holds this identity, has been given its publication setting and may publish. */
  ghost predicate ReadyAs(s: Sys, u: Uuid, addr: u16, key: Key) {
    && u in s.sensors
    && s.sensors[u].stack == Some(Identity(addr, key)) && s.sensors[u].ready && s.sensors[u].pubArmed
  }

  ghost predicate SensorsGood(s: Sys) {
    forall u :: u in s.sensors ==>
      var n := s.sensors[u];
      && Consistent(n)
      && (n.ready ==> n.stack.Some?)
      && (n.stack.Some? ==>
            var id := n.stack.value;
            id.key in s.grants && s.grants[id.key] == Grant(u, id.addr))
  }

  ghost predicate KeysGood(s: Sys) {
    && (forall a :: a in s.g.nodes ==> s.g.nodes[a].key in s.known)
    && (forall p :: p in s.air ==> p.key in s.known)
    && (s.known <= s.grants.Keys)
  }

  /** A publication setting acknowledged was processed; only a reset sent to the same node may have undone it. */
  ghost predicate AcksGood(s: Sys) {
    forall p :: p in s.air && p.Reply? && p.op == OP_MODEL_PUB_SET && !p.err ==>
      && p.key in s.grants && s.grants[p.key].addr == p.addr
      && (Request(OP_NODE_RESET, p.addr, p.key) in s.air || ReadyAs(s, s.grants[p.key].uuid, p.addr, p.key))
  }

  /** A reset acknowledged was processed: nobody holds the identity any more, and nobody can take it up again. */
  ghost predicate ResetsGood(s: Sys) {
    && (forall u :: u in s.sensors && s.sensors[u].stack.Some? ==> s.sensors[u].stack.value.key in s.joined)
    && forall p :: p in s.air && p.Reply? && p.op == OP_NODE_RESET && !p.err ==>
         p.key in s.joined && Gone(s, p.key)
  }

  ghost predicate Gone(s: Sys, key: Key) {
    forall u :: u in s.sensors && s.sensors[u].stack.Some? ==> s.sensors[u].stack.value.key != key
  }

  /** No reset is on the air for the node being configured. */
  ghost predicate FlowGood(s: Sys) {
    && TargetKnown(s.g) && 0 !in s.g.nodes
    && (s.g.flow.Some? && s.g.flow.value.target != 0 ==>
          && (s.g.decom.Some? ==> s.g.decom.value.addr != s.g.flow.value.target)
          && s.g.devKey in s.grants && s.grants[s.g.devKey] == Grant(s.g.flow.value.uuid, s.g.flow.value.target)
          && Request(OP_NODE_RESET, s.g.flow.value.target, s.g.devKey) !in s.air)
  }

  /** Every ok on record was backed by an acknowledged publication setting. */
  ghost predicate OksGood(s: Sys) {
    forall m :: m in s.g.out && m.ProvOk? ==> Reply(OP_MODEL_PUB_SET, m.addr, m.key, false) in s.air
  }

  ghost predicate Good(s: Sys) {
    && Resting(s.g)
    && SensorsGood(s) && KeysGood(s) && AcksGood(s) && ResetsGood(s) && FlowGood(s) && OksGood(s)
  }

  // ----- the gateway's steps -----

  lemma NewOnAir(s: Sys, ev: Event, e: Env)
    ensures GatewayDid(s, ev, e).air ==
      s.air + OnAir(Nodes(s.g, ev), FlowCmds(s.g, ev, e) + ResetCmds(s.g, ev, e))
  {
    hide Step, FlowCmds, ResetCmds, OnAir;
    StepCmds(s.g, ev, e);
    assert Step(s.g, ev, e).cmds[|s.g.cmds|..] == FlowCmds(s.g, ev, e) + ResetCmds(s.g, ev, e);
  }

  lemma GatewayKeepsKeys(s: Sys, ev: Event, e: Env)
    requires KeysGood(s) && GatewayMay(s, ev)
    ensures KeysGood(GatewayDid(s, ev, e))
  {
    hide Step, MoveOf, BerthsAfter, ArmedAfter, DecomAfter, DecomEnds, Promised, Matched, Delivered, Target;
    StepStores(s.g, ev, e);
  }

  /** A reset never goes to the node being configured. */
  lemma NoResetForTarget(g: Gw, ev: Event, e: Env)
    requires TargetKnown(g) && Resting(g) && Promised(g, ev) && SparesTarget(g, ev) && 0 !in g.nodes
    requires g.flow.Some? && g.decom.Some? && g.flow.value.target != 0 ==> g.decom.value.addr != g.flow.value.target
    ensures var f, d, cmds := FlowAfter(g, ev, e), DecomAfter(g, ev, e), FlowCmds(g, ev, e) + ResetCmds(g, ev, e);
      f.Some? && f.value.target != 0 ==>
        && (d.Some? ==> d.value.addr != f.value.target)
        && forall c :: c in cmds && c.op == OP_NODE_RESET ==> c.addr != f.value.target
  {
    hide HasUuid;
  }

  lemma GatewayKeepsFlow(s: Sys, ev: Event, e: Env)
    requires Good(s) && GatewayMay(s, ev)
    ensures FlowGood(GatewayDid(s, ev, e))
  {
    hide GatewayDid, Step, HasUuid, Said, SensorsGood, AcksGood, OksGood, FlowCmds, ResetCmds;
    StepKeepsTarget(s.g, ev, e);
    StepMoves(s.g, ev, e);
    StepStores(s.g, ev, e);
    NewOnAir(s, ev, e);
    NoResetForTarget(s.g, ev, e);
    Did(s, ev, e);
  }

  lemma Did(s: Sys, ev: Event, e: Env)
    ensures var s' := GatewayDid(s, ev, e);
      s'.g == Step(s.g, ev, e) && s'.grants == s.grants && s'.sensors == s.sensors && s.air <= s'.air
  {
    hide Step;
  }

  lemma NewOks(g: Gw, ev: Event, e: Env, m: Msg)
    requires m in Step(g, ev, e).out && m.ProvOk? && m !in g.out
    ensures MoveOf(g, ev, e).Win? && m == ProvOk(g.flow.value.reqId, Target(g, ev), KeyOf(g, ev))
  {
    hide Step, Outcome;
    StepMoves(g, ev, e);
  }

  lemma GatewayKeepsOks(s: Sys, ev: Event, e: Env)
    requires OksGood(s) && GatewayMay(s, ev) && Resting(s.g)
    ensures OksGood(GatewayDid(s, ev, e))
  {
    hide Step, HasUuid, GatewayDid, Promised;
    var s' := GatewayDid(s, ev, e);
    Did(s, ev, e);
    forall m | m in s'.g.out && m.ProvOk? ensures Reply(OP_MODEL_PUB_SET, m.addr, m.key, false) in s'.air {
      if m !in s.g.out { NewOks(s.g, ev, e, m); }
    }
  }

  lemma GatewayKeepsAcks(s: Sys, ev: Event, e: Env)
    requires AcksGood(s)
    ensures AcksGood(GatewayDid(s, ev, e))
  {
    hide Step;
  }

  /** The gateway itself acknowledges nothing. */
  lemma GatewayKeepsResets(s: Sys, ev: Event, e: Env)
    requires ResetsGood(s)
    ensures ResetsGood(GatewayDid(s, ev, e))
  {
    hide Step;
  }

  lemma GatewayKeepsGood(s: Sys, ev: Event, e: Env)
    requires Good(s) && GatewayMay(s, ev)
    ensures Good(GatewayDid(s, ev, e))
  {
    hide Step, KeysGood, AcksGood, OksGood, ResetsGood, GatewayDid, Resting;
    Did(s, ev, e);
    GatewayKeepsResets(s, ev, e);
    StepRests(s.g, ev, e);
    GatewayKeepsKeys(s, ev, e);
    GatewayKeepsFlow(s, ev, e);
    GatewayKeepsOks(s, ev, e);
    GatewayKeepsAcks(s, ev, e);
  }

  // ----- the nodes' steps -----

  /** What a node does by itself: ready, it keeps everything; otherwise it may lose or gain its identity. */
  lemma NodeAlone(n: Sensor, ev: NodeEvent, e: NodeEnv)
    requires Consistent(n) && (n.ready ==> n.stack.Some?)
    requires !ev.Boot? && !ev.StateChange? && (ev.Complete? || ev.ResetEvt? ==> n.stack.None?)
    ensures var n' := NodeStep(n, ev, e);
      && Consistent(n') && (n'.ready ==> n'.stack.Some?)
      && (n'.stack == n.stack || n'.stack.None? || (ev.Complete? && n'.stack == Some(Identity(ev.addr, ev.key))))
      && (n.ready ==> n'.ready && n'.stack == n.stack)
  {
  }

  lemma NodeKeepsSensors(s: Sys, u: Uuid, ev: NodeEvent, e: NodeEnv)
    requires SensorsGood(s) && ResetsGood(s) && NodeMay(s, u, ev)
    ensures var s' := Do(s, NodeDoes(u, ev, e)); SensorsGood(s') && ResetsGood(s')
  {
    hide NodeStep;
    NodeAlone(s.sensors[u], ev, e);
  }

  lemma NodeKeepsAcks(s: Sys, u: Uuid, ev: NodeEvent, e: NodeEnv)
    requires SensorsGood(s) && AcksGood(s) && NodeMay(s, u, ev)
    ensures AcksGood(Do(s, NodeDoes(u, ev, e)))
  {
    hide NodeStep;
    NodeAlone(s.sensors[u], ev, e);
  }

  lemma NodeKeepsGood(s: Sys, u: Uuid, ev: NodeEvent, e: NodeEnv)
    requires Good(s) && NodeMay(s, u, ev)
    ensures Good(Do(s, NodeDoes(u, ev, e)))
  {
    hide Resting, TargetKnown, NodeStep, SensorsGood, ResetsGood, AcksGood;
    NodeKeepsSensors(s, u, ev, e);
    NodeKeepsAcks(s, u, ev, e);
  }

  /** What a request does to a node: a reset takes everything, a publication setting makes it ready. */
  lemma NodeReaction(n: Sensor, op: Opcode, e: NodeEnv)
    requires Consistent(n) && n.stack.Some?
    ensures var n' := NodeReacts(n, op, e);
      && Consistent(n')
      && (op == OP_NODE_RESET ==> n'.stack.None? && !n'.ready)
      && (op != OP_NODE_RESET ==> n'.stack == n.stack && n'.ready == (n.ready || op == OP_MODEL_PUB_SET))
  {
  }

  lemma HearingKeepsGood(s: Sys, u: Uuid, op: Opcode, accepted: bool, e: NodeEnv)
    requires Good(s) && Hears(s, u, op)
    ensures Good(NodeHeard(s, u, op, accepted, e))
  {
    hide Resting, TargetKnown, NodeReacts, NodeStep;
    NodeReaction(s.sensors[u], op, e);
  }

  lemma HandshakeKeepsGood(s: Sys, key: Key, grant: Grant)
    requires Good(s) && May(s, Handshake(key, grant))
    ensures Good(Do(s, Handshake(key, grant)))
  {
    hide Resting, TargetKnown;
  }

  // ----- whole runs -----

  lemma {:induction false} EveryRunIsGood(s: Sys, acts: seq<Action>)
    requires Good(s)
    ensures Good(After(s, acts))
  {
    if acts != [] {
      hide Good, GatewayDid, NodeHeard;
      var k := |acts| - 1;
      var t := After(s, acts[..k]);
      EveryRunIsGood(s, acts[..k]);
      if May(t, acts[k]) {
        match acts[k]
        case Handshake(key, grant) => HandshakeKeepsGood(t, key, grant);
        case GatewayDoes(ev, env) => GatewayKeepsGood(t, ev, env);
        case NodeDoes(u, nev, nenv) => NodeKeepsGood(t, u, nev, nenv);
        case NodeHears(u, op, accepted, nenv) => HearingKeepsGood(t, u, op, accepted, nenv);
      }
    }
  }

  /** A freshly booted gateway with consistent stores, nothing on the air, and sensors that are consistent themselves
      (unprovisioned, or holding an identity from an earlier handshake). */
  ghost predicate Initial(s: Sys) {
    && Booted(s.g) && 0 !in s.g.nodes
    && s.air == {} && KeysGood(s) && SensorsGood(s) && ResetsGood(s)
  }

  lemma InitiallyGood(s: Sys)
    requires Initial(s)
    ensures Good(s)
  {
  }

  /** Whatever the channel loses, repeats, delays or reorders: in the callback in which the gateway reports a flow ok,
      the sensor that holds the flow's UUID is ready under the reported address and key, armed to publish, and its
      watchdog, should it still expire, leaves it so. */
  lemma {:induction false} OkMeansReady(s: Sys, acts: seq<Action>, ev: Event, e: Env)
    requires Initial(s)
    requires GatewayMay(After(s, acts), ev) && MoveOf(After(s, acts).g, ev, e).Win?
    ensures var t := After(s, acts);
      var f := t.g.flow.value;
      && Step(t.g, ev, e).out == t.g.out + [ProvState(f.reqId, COMPLETE), ProvOk(f.reqId, f.target, t.g.devKey)]
      && ReadyAs(t, f.uuid, f.target, t.g.devKey)
      && var n := t.sensors[f.uuid];
      forall x: NodeEnv :: NodeStep(n, WatchdogExpires, x) == n.(watchdog := false)
  {
    hide Step, NodeStep, HasUuid, FreshComplete, SparesTarget, KeysGood, OksGood, SensorsGood, After, Initial;
    var t := After(s, acts);
    InitiallyGood(s);
    EveryRunIsGood(s, acts);
    StepMoves(t.g, ev, e);
    forall x { ReadyOutlivesWatchdog(t.sensors[t.g.flow.value.uuid], x); }
  }

  /** And ever after, until a reset is sent to it: in every run each ok on record still names a sensor in that state,
      unless the gateway has since put a reset for the very same node on the air. */
  lemma {:induction false} OkStaysReady(s: Sys, acts: seq<Action>, m: Msg)
    requires Initial(s) && m in After(s, acts).g.out && m.ProvOk?
    ensures var t := After(s, acts);
      && m.key in t.grants && t.grants[m.key].addr == m.addr
      && (ReadyAs(t, t.grants[m.key].uuid, m.addr, m.key) || Request(OP_NODE_RESET, m.addr, m.key) in t.air)
  {
    hide KeysGood, SensorsGood, FlowGood, After, Initial, ReadyAs;
    InitiallyGood(s);
    EveryRunIsGood(s, acts);
    assert Reply(OP_MODEL_PUB_SET, m.addr, m.key, false) in After(s, acts).air;
  }

  /** The dual: a decommission that its own node acknowledges. In every run, when that acknowledgement ends it - with
      ok, if the stores let go - the node has processed the reset: no sensor holds the identity any more. */
  lemma {:induction false} OwnAckMeansGone(s: Sys, acts: seq<Action>, ev: Event)
    requires Initial(s) && GatewayMay(After(s, acts), ev) && DecomEnds(After(s, acts).g, ev)
    requires ev.kind.SET_STATE? && !ev.err && ev.from == After(s, acts).g.decom.value.addr
    ensures var t := After(s, acts);
      var a := t.g.decom.value.addr;
      && a in t.g.nodes && Reply(OP_NODE_RESET, a, t.g.nodes[a].key, false) in t.air
      && Gone(t, t.g.nodes[a].key)
  {
    hide KeysGood, SensorsGood, AcksGood, FlowGood, OksGood, Gone, After, Initial, Promised, Matched;
    InitiallyGood(s);
    EveryRunIsGood(s, acts);
  }

  /** And it stays gone: a node whose reset was once acknowledged never holds that identity again. */
  lemma {:induction false} ResetNodesStayGone(s: Sys, acts: seq<Action>, a: u16, key: Key)
    requires Initial(s) && Reply(OP_NODE_RESET, a, key, false) in After(s, acts).air
    ensures Gone(After(s, acts), key)
  {
    hide KeysGood, SensorsGood, AcksGood, FlowGood, OksGood, Gone, After, Initial;
    InitiallyGood(s);
    EveryRunIsGood(s, acts);
  }

  // ----- when nothing is lost -----

  /** The flow waits at `step`; its command is on the air and its node can read it. */
  ghost predicate Waiting(s: Sys, step: CfgStep) {
    && step.Sends() && s.g.flow.Some? && s.g.decom.None?
    && var f := s.g.flow.value;
    && f.step == step && f.target in s.g.nodes && s.g.nodes[f.target].key == s.g.devKey
    && f.uuid in s.sensors && s.sensors[f.uuid].stack == Some(Identity(f.target, s.g.devKey))
    && Request(step.Op(), f.target, s.g.devKey) in s.air
  }

  function ReportedOk(s: Sys): seq<Msg>
    requires s.g.flow.Some?
  {
    var f := s.g.flow.value;
    [ProvState(f.reqId, COMPLETE), ProvOk(f.reqId, f.target, s.g.devKey)]
  }

  function Exchange(s: Sys, step: CfgStep, e: Env, x: NodeEnv): (Action, Action)
    requires s.g.flow.Some?
  {
    var f := s.g.flow.value;
    (NodeHears(f.uuid, step.Op(), true, x), GatewayDoes(CfgClient(SET_STATE, step.Op(), f.target, false), e))
  }

  ghost function Exchanged(s: Sys, step: CfgStep, e: Env, x: NodeEnv): Sys
    requires s.g.flow.Some?
  {
    var (hear, reply) := Exchange(s, step, e, x);
    Do(Do(s, hear), reply)
  }

  /** A command that is heard and whose reply arrives takes the flow one step on, or to its end. */
  lemma ExchangeMovesOn(s: Sys, step: CfgStep, e: Env, x: NodeEnv)
    requires Waiting(s, step) && e.sendOk
    ensures var t := Exchanged(s, step, e, x);
      && (step != MODEL_PUB_SET ==> Waiting(t, step.Next()) && t.g.flow.value.reqId == s.g.flow.value.reqId)
      && (step == MODEL_PUB_SET ==> t.g.out == s.g.out + ReportedOk(s))
      && t.g.devKey == s.g.devKey && (step != MODEL_PUB_SET ==> t.g.flow.value.target == s.g.flow.value.target)
  {
    hide Step, HasUuid, GatewayDid;
    var f := s.g.flow.value;
    var (hear, reply) := Exchange(s, step, e, x);
    var h := Do(s, hear);
    assert h == NodeHeard(s, f.uuid, step.Op(), true, x);
    assert GatewayMay(h, reply.ev);
    StepMoves(h.g, reply.ev, e);
    StepStores(h.g, reply.ev, e);
    Did(h, reply.ev, e);
    NewOnAir(h, reply.ev, e);
  }

  /** So the promises above can be kept all the way: once both ends have completed provisioning, three exchanges end
      the flow with ok. */
  lemma LosslessFlowSucceeds(s: Sys, e: Env, x: NodeEnv)
    requires Waiting(s, APP_KEY_ADD) && e.sendOk
    ensures var s1 := Exchanged(s, APP_KEY_ADD, e, x);
      s1.g.flow.Some? &&
      var s2 := Exchanged(s1, MODEL_APP_BIND, e, x);
      s2.g.flow.Some? &&
      Exchanged(s2, MODEL_PUB_SET, e, x).g.out == s2.g.out + ReportedOk(s)
  {
    hide Do, Exchange;
    var s1 := Exchanged(s, APP_KEY_ADD, e, x);
    ExchangeMovesOn(s, APP_KEY_ADD, e, x);
    ExchangeMovesOn(s1, MODEL_APP_BIND, e, x);
    ExchangeMovesOn(Exchanged(s1, MODEL_APP_BIND, e, x), MODEL_PUB_SET, e, x);
  }
}
