/** The sensor's side of the handshake as a state machine over callbacks (`dp_mesh_sensor.c`, and the boot branch of
    `dp_mesh.c`): when it counts itself adopted, and when its watchdog may still reset it. */
module SensorModel {
  import opened Common
  import opened GatewayModel

  /** What the sensor's mesh stack keeps in NVS once it is provisioned. */
  datatype Identity = Identity(addr: u16, key: Key)

  datatype Sensor = Sensor(stack: Option<Identity>, ready: bool, pubArmed: bool, timerMade: bool, watchdog: bool,
                           listener: bool, calls: seq<u16>, published: seq<seq<u8>>)

  datatype NodeEvent =
    | Boot
    | Complete(addr: u16, key: Key)  // the stack has just stored its identity
    | ResetEvt
    | StateChange(op: Opcode)
    | WatchdogExpires
    | Publish(wire: seq<u8>)
    | OtherNodeEvent

  datatype NodeEnv = NodeEnv(timerOk: bool, resetOk: bool, publishOk: bool)

  function Address(s: Sensor): u16 { if s.stack.Some? then s.stack.value.addr else 0 }

  function FireReady(s: Sensor): Sensor {
    if s.ready then s
    else s.(ready := true, pubArmed := true, watchdog := false,
            calls := if s.listener then s.calls + [Address(s)] else s.calls)
  }

  /** A restart clears the statics; a stack that restores an identity makes the node ready at once. */
  function Restarted(s: Sensor, stack: Option<Identity>): Sensor {
    var blank := s.(stack := stack, ready := false, pubArmed := false, timerMade := false, watchdog := false,
                    calls := []);
    if stack.Some? then FireReady(blank) else blank
  }

  function NodeStep(s: Sensor, ev: NodeEvent, e: NodeEnv): Sensor {
    match ev
    case Boot => Restarted(s, s.stack)
    case Complete(addr, key) =>
      var made := s.timerMade || e.timerOk;
      s.(stack := Some(Identity(addr, key)), timerMade := made, watchdog := made)
    case ResetEvt => Restarted(s, None)
    case StateChange(op) => if op == OP_MODEL_PUB_SET then FireReady(s) else s
    case WatchdogExpires =>
      if s.ready then s.(watchdog := false)
      else if e.resetOk then s.(watchdog := false, stack := None)
      else Restarted(s, None)
    case Publish(wire) => if s.ready && s.pubArmed && e.publishOk then s.(published := s.published + [wire]) else s
    case OtherNodeEvent => s
  }

  datatype NodeInput = NodeInput(ev: NodeEvent, env: NodeEnv)

  ghost function NodeRun(s: Sensor, ins: seq<NodeInput>): Sensor {
    if ins == [] then s
    else var k := |ins| - 1; NodeStep(NodeRun(s, ins[..k]), ins[k].ev, ins[k].env)
  }

  ghost predicate Consistent(s: Sensor) {
    && s.pubArmed == s.ready && (s.watchdog ==> s.timerMade)
    && |s.calls| == if s.ready && s.listener then 1 else 0
  }

  // ----- runs -----

  predicate Restarts(s: Sensor, i: NodeInput) {
    i.ev.Boot? || i.ev.ResetEvt? || (i.ev.WatchdogExpires? && !s.ready && !i.env.resetOk)
  }

  /** A publication setting was processed since the last restart. */
  ghost predicate PubSetSeen(s0: Sensor, ins: seq<NodeInput>) {
    if ins == [] then false
    else
      var k := |ins| - 1;
      if Restarts(NodeRun(s0, ins[..k]), ins[k]) then false
      else ins[k].ev == StateChange(OP_MODEL_PUB_SET) || PubSetSeen(s0, ins[..k])
  }

  /** The last restart restored an identity. */
  ghost predicate Restored(s0: Sensor, ins: seq<NodeInput>) {
    if ins == [] then s0.ready
    else
      var k := |ins| - 1;
      var s := NodeRun(s0, ins[..k]);
      if Restarts(s, ins[k]) then ins[k].ev.Boot? && s.stack.Some? else Restored(s0, ins[..k])
  }

  lemma StepReady(s: Sensor, i: NodeInput)
    requires Consistent(s)
    ensures var s' := NodeStep(s, i.ev, i.env);
      && Consistent(s')
      && (s'.ready <==>
            if Restarts(s, i) then i.ev.Boot? && s.stack.Some?
            else s.ready || i.ev == StateChange(OP_MODEL_PUB_SET))
      // on becoming ready: the listener hears the node's address, and the watchdog is off
      && (s'.ready && (!s.ready || Restarts(s, i)) ==>
            && !s'.watchdog
            && (s.listener ==> s'.calls == [if s'.stack.Some? then s'.stack.value.addr else 0]))
      && s'.published == s.published + if i.ev.Publish? && i.env.publishOk && s.ready then [i.ev.wire] else []
  {
  }

  /** In every run the node is ready exactly when its publication was set, or it restarted provisioned; it is then
      armed to publish, and has called its listener once. */
  lemma {:induction false} ReadyExactly(s0: Sensor, ins: seq<NodeInput>)
    requires Consistent(s0)
    ensures var s := NodeRun(s0, ins);
      Consistent(s) && (s.ready <==> PubSetSeen(s0, ins) || Restored(s0, ins))
  {
    if ins != [] {
      hide NodeStep, Consistent;
      var k := |ins| - 1;
      ReadyExactly(s0, ins[..k]);
      StepReady(NodeRun(s0, ins[..k]), ins[k]);
    }
  }

  /** Everything published went out while the node was ready. */
  ghost function SentReady(s0: Sensor, ins: seq<NodeInput>): seq<seq<u8>> {
    if ins == [] then []
    else
      var k := |ins| - 1;
      var ready := PubSetSeen(s0, ins[..k]) || Restored(s0, ins[..k]);
      SentReady(s0, ins[..k])
      + if ins[k].ev.Publish? && ins[k].env.publishOk && ready then [ins[k].ev.wire] else []
  }

  /** The guards let through exactly the messages given while the node was ready. */
  lemma {:induction false} PublishesWhenReady(s0: Sensor, ins: seq<NodeInput>)
    requires Consistent(s0)
    ensures NodeRun(s0, ins).published == s0.published + SentReady(s0, ins)
  {
    if ins != [] {
      hide NodeStep, Consistent, PubSetSeen, Restored;
      var k := |ins| - 1;
      PublishesWhenReady(s0, ins[..k]);
      ReadyExactly(s0, ins[..k]);
      StepReady(NodeRun(s0, ins[..k]), ins[k]);
    }
  }

  /** Between a provisioning and its configuration the watchdog is running. */
  ghost predicate Guarded(s: Sensor) {
    && (s.stack.Some? && !s.ready ==> s.watchdog)
    && (s.ready ==> s.stack.Some?)
  }

  /** The timer can be created, and only a provisioned node is given configuration. */
  ghost predicate Served(s0: Sensor, ins: seq<NodeInput>) {
    ins != [] ==>
      var k := |ins| - 1;
      && Served(s0, ins[..k])
      && ins[k].env.timerOk && (ins[k].ev.StateChange? ==> NodeRun(s0, ins[..k]).stack.Some?)
  }

  lemma StepGuarded(s: Sensor, i: NodeInput)
    requires Guarded(s) && i.env.timerOk && (i.ev.StateChange? ==> s.stack.Some?)
    ensures Guarded(NodeStep(s, i.ev, i.env))
  {
  }

  /** So a provisioned node that is not ready is always under its watchdog, reboots included. */
  lemma {:induction false} HalfConfiguredIsGuarded(s0: Sensor, ins: seq<NodeInput>)
    requires Guarded(s0) && Served(s0, ins)
    ensures Guarded(NodeRun(s0, ins))
  {
    if ins != [] {
      hide NodeStep, Guarded;
      var k := |ins| - 1;
      HalfConfiguredIsGuarded(s0, ins[..k]);
      StepGuarded(NodeRun(s0, ins[..k]), ins[k]);
    }
  }

  /** Once ready, the watchdog's expiry changes nothing but the timer. */
  lemma ReadyOutlivesWatchdog(s: Sensor, e: NodeEnv)
    requires s.ready
    ensures NodeStep(s, WatchdogExpires, e) == s.(watchdog := false)
  {
  }

  // ----- ready, and configured -----

  /** Only an unprovisioned node completes a provisioning, and only a provisioned one is given configuration. */
  ghost predicate Proper(s0: Sensor, ins: seq<NodeInput>) {
    ins != [] ==>
      var k := |ins| - 1;
      var s := NodeRun(s0, ins[..k]);
      && Proper(s0, ins[..k])
      && (ins[k].ev.Complete? ==> s.stack.None?) && (ins[k].ev.StateChange? ==> s.stack.Some?)
  }

  /** The node's publication was set since it obtained the identity it has. */
  ghost predicate Configured(s0: Sensor, ins: seq<NodeInput>) {
    ins != [] && NodeRun(s0, ins).stack.Some? &&
    var k := |ins| - 1;
    match ins[k].ev
    case Complete(_, _) => false
    case StateChange(op) => op == OP_MODEL_PUB_SET || Configured(s0, ins[..k])
    case _ => Configured(s0, ins[..k])
  }

  /** It booted after it obtained its identity and before its publication was first set, which has yet to happen. */
  ghost predicate Interrupted(s0: Sensor, ins: seq<NodeInput>) {
    ins != [] && NodeRun(s0, ins).stack.Some? &&
    var k := |ins| - 1;
    match ins[k].ev
    case Complete(_, _) => false
    case StateChange(op) => op != OP_MODEL_PUB_SET && Interrupted(s0, ins[..k])
    case Boot => !Configured(s0, ins[..k])
    case _ => Interrupted(s0, ins[..k])
  }

  lemma StepIdentity(s: Sensor, i: NodeInput)
    ensures var s' := NodeStep(s, i.ev, i.env);
      s'.stack == match i.ev {
        case Complete(addr, key) => Some(Identity(addr, key))
        case ResetEvt => None
        case WatchdogExpires => if s.ready then s.stack else None
        case _ => s.stack
      }
  {
  }

  /** In every run of a node that starts unprovisioned: it is ready exactly when it was configured under its identity
      or booted between obtaining it and being configured; a ready node is unconfigured exactly in the second case. */
  lemma {:induction false} ReadyYetUnconfiguredExactly(s0: Sensor, ins: seq<NodeInput>)
    requires Consistent(s0) && s0.stack.None? && !s0.ready && Proper(s0, ins)
    ensures var s := NodeRun(s0, ins);
      && Consistent(s)
      && (s.ready <==> Configured(s0, ins) || Interrupted(s0, ins))
      && (s.ready ==> (!Configured(s0, ins) <==> Interrupted(s0, ins)))
  {
    if ins != [] {
      hide NodeStep, Consistent;
      var k := |ins| - 1;
      var s := NodeRun(s0, ins[..k]);
      ReadyYetUnconfiguredExactly(s0, ins[..k]);
      StepReady(s, ins[k]);
      StepIdentity(s, ins[k]);
    }
  }

  /** The second case happens: a node that loses power between its provisioning and its configuration comes back ready.
      The firmware itself arms it to publish to the group, though the gateway has set no publication and perhaps given
      no application key, and from then on no watchdog expiry resets it. */
  lemma {:induction false} RebootMidConfigurationLooksReady(s: Sensor, addr: u16, key: Key, e: NodeEnv)
    requires !s.ready
    ensures var ins := [NodeInput(Complete(addr, key), e), NodeInput(Boot, e)];
      var s' := NodeRun(s, ins);
      && s'.ready && s'.pubArmed && !s'.watchdog && !PubSetSeen(s, ins) && Interrupted(s, ins) && !Configured(s, ins)
      && NodeStep(s', WatchdogExpires, e) == s'
  {
    var a, b := NodeInput(Complete(addr, key), e), NodeInput(Boot, e);
    assert [a, b][..1] == [a] && [a][..0] == [];
    assert NodeRun(s, [a]) == NodeStep(s, a.ev, e);
  }
}
