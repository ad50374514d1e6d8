/** Which histories make a flow report ok: the events delivered to the flow since it began, and the path they trace
    (`on_cfg_client`, `cfg_step_advance`, `cfg_step_redo`). */
module FlowPath {
  import opened Common
  import opened GatewayModel
  import opened Moves

  /** The events delivered to the flow in flight since it began. */
  ghost function Trail(g0: Gw, ins: seq<Input>): seq<Event> {
    if ins == [] then []
    else
      var k := |ins| - 1;
      Followed(Run(g0, ins[..k]), ins[k], Trail(g0, ins[..k]))
  }

  ghost function Followed(g: Gw, i: Input, t: seq<Event>): seq<Event> {
    if MoveOf(g, i.ev, i.env).Begin? then [] else if Delivered(g, i.ev) then t + [i.ev] else t
  }

  /** How often each step reached so far has sent its command. */
  ghost function Sends(g0: Gw, ins: seq<Input>): seq<nat> {
    if ins == [] then []
    else
      var k := |ins| - 1;
      Counted(MoveOf(Run(g0, ins[..k]), ins[k].ev, ins[k].env), Sends(g0, ins[..k]))
  }

  function Counted(m: Move, sends: seq<nat>): seq<nat> {
    match m
    case Begin => []
    case Forward => sends + [1]
    case Again => if sends == [] then [] else sends[..|sends| - 1] + [sends[|sends| - 1] + 1]
    case _ => sends
  }

  predicate IsAdvance(ev: Event) { ev.ProvComplete? || (ev.CfgClient? && ev.kind.SET_STATE? && !ev.err) }

  predicate IsLoss(ev: Event) { ev.CfgClient? && ev.kind.CFG_TIMEOUT? }

  /** One leg per entry of `sends`: an advance, then a timeout before each further send. */
  ghost predicate Legs(t: seq<Event>, sends: seq<nat>) {
    if sends == [] then t == []
    else
      var k := |sends| - 1;
      var n := sends[k];
      && 1 <= n <= CFG_MAX_ATTEMPTS && n <= |t|
      && IsAdvance(t[|t| - n])
      && (forall j :: |t| - n < j < |t| ==> IsLoss(t[j]))
      && Legs(t[..|t| - n], sends[..k])
  }

  /** The flow's place is what its trail says. */
  ghost predicate OnTrail(g: Gw, t: seq<Event>, sends: seq<nat>) {
    g.flow.Some? ==>
      var f := g.flow.value;
      Legs(t, sends) && |sends| == f.step.Index() && (sends != [] ==> sends[|sends| - 1] == f.attempts)
  }

  lemma {:induction false} LegsForward(t: seq<Event>, sends: seq<nat>, ev: Event)
    requires Legs(t, sends) && IsAdvance(ev)
    ensures Legs(t + [ev], sends + [1])
  {
    var t', s' := t + [ev], sends + [1];
    assert t'[..|t'| - 1] == t && s'[..|s'| - 1] == sends;
  }

  lemma {:induction false} LegsAgain(t: seq<Event>, sends: seq<nat>, ev: Event)
    requires Legs(t, sends) && IsLoss(ev) && sends != [] && sends[|sends| - 1] < CFG_MAX_ATTEMPTS
    ensures Legs(t + [ev], sends[..|sends| - 1] + [sends[|sends| - 1] + 1])
  {
    var k, t' := |sends| - 1, t + [ev];
    var n := sends[k];
    var s' := sends[..k] + [n + 1];
    assert s'[..k] == sends[..k] && t'[..|t'| - (n + 1)] == t[..|t| - n];
  }

  lemma StepIsOnItsTrail(g: Gw, i: Input, t: seq<Event>, sends: seq<nat>)
    requires OnTrail(g, t, sends) && Resting(g)
    ensures OnTrail(Step(g, i.ev, i.env), Followed(g, i, t), Counted(MoveOf(g, i.ev, i.env), sends))
  {
    hide Step, Legs, Said, Cut, HasUuid;
    StepMoves(g, i.ev, i.env);
    match MoveOf(g, i.ev, i.env)
    case Begin => assert Legs([], []) by { NoLegs(); }
    case Forward => LegsForward(t, sends, i.ev);
    case Again => LegsAgain(t, sends, i.ev);
    case _ =>
  }

  lemma NoLegs()
    ensures Legs([], [])
  {
  }

  /** In every run, whatever the stack does: the steps taken are the advances delivered, and each step has sent its
      command once and again after each timeout, at most three times. */
  lemma {:induction false} FlowIsOnItsTrail(g0: Gw, ins: seq<Input>)
    requires Booted(g0)
    ensures OnTrail(Run(g0, ins), Trail(g0, ins), Sends(g0, ins))
  {
    if ins != [] {
      hide OnTrail, Step, Followed, Counted;
      var k := |ins| - 1;
      FlowIsOnItsTrail(g0, ins[..k]);
      RunRests(g0, ins[..k]);
      StepIsOnItsTrail(Run(g0, ins[..k]), ins[k], Trail(g0, ins[..k]), Sends(g0, ins[..k]));
    }
  }

  /** Any two ways of cutting a trail into legs have the same number of legs. */
  lemma {:induction false} LegsAgree(t: seq<Event>, a: seq<nat>, b: seq<nat>)
    requires Legs(t, a) && Legs(t, b)
    ensures a == b
  {
    if a != [] && b != [] {
      var n, m := a[|a| - 1], b[|b| - 1];
      assert IsAdvance(t[|t| - n]) && IsAdvance(t[|t| - m]);
      assert n == m;
      LegsAgree(t[..|t| - n], a[..|a| - 1], b[..|b| - 1]);
      assert a == a[..|a| - 1] + [n] && b == b[..|b| - 1] + [m];
    }
  }

  /** A callback reports ok exactly when it delivers the fourth advance of a flow whose trail has three legs before
      it. Needs nothing of the stack. */
  lemma {:induction false} OkExactlyAfterThreeLegs(g0: Gw, ins: seq<Input>, i: Input)
    requires Booted(g0)
    ensures var g := Run(g0, ins);
      MoveOf(g, i.ev, i.env).Win? <==>
        Delivered(g, i.ev) && IsAdvance(i.ev) && exists sends | |sends| == 3 :: Legs(Trail(g0, ins), sends)
  {
    hide Legs, Run, Trail, Sends, Booted;
    var g, t, s := Run(g0, ins), Trail(g0, ins), Sends(g0, ins);
    FlowIsOnItsTrail(g0, ins);
    RunRests(g0, ins);
    if sends :| |sends| == 3 && Legs(t, sends) && g.flow.Some? { LegsAgree(t, sends, s); }
  }

  // ----- the path the stack's promises leave -----

  /** A delivered event, with the node it is about. */
  datatype Sig =
    | Complete(addr: u16)
    | Ack(op: Opcode, from: u16)
    | Lost(op: Opcode, from: u16)
    | Refused(op: Opcode, from: u16)
    | Other

  function SigOf(ev: Event): Sig {
    match ev
    case ProvComplete(addr, _, _) => Complete(addr)
    case CfgClient(CFG_TIMEOUT, op, from, _) => Lost(op, from)
    case CfgClient(SET_STATE, op, from, err) => if err then Refused(op, from) else Ack(op, from)
    case _ => Other
  }

  function Sigs(t: seq<Event>): (s: seq<Sig>)
    ensures |s| == |t|
  {
    seq(|t|, i requires 0 <= i < |t| => SigOf(t[i]))
  }

  /** The order in which a node is configured. */
  const COMMANDS: seq<Opcode> := [OP_APP_KEY_ADD, OP_MODEL_APP_BIND, OP_MODEL_PUB_SET]

  /** What opens command `k`: the completion that assigned `a`, then that node's ack of the command before. */
  function Opening(a: u16, k: nat): Sig
    requires k < 4
  {
    if k == 0 then Complete(a) else Ack(COMMANDS[k - 1], a)
  }

  /** The command whose step the flow is at. */
  lemma OpOfStep(s: CfgStep)
    requires s.Sends()
    ensures 1 <= s.Index() <= 3 && s.Op() == COMMANDS[s.Index() - 1]
  {
  }

  /** A command that went out `n` times: what opened it, then the timeouts. */
  function Leg(a: u16, k: nat, n: nat): seq<Sig>
    requires k < 3
  {
    if n <= 1 then [Opening(a, k)] else Leg(a, k, n - 1) + [Lost(COMMANDS[k], a)]
  }

  /** The completion, then for each command its timeouts and its ack, all of the node at `a`. */
  function Path(a: u16, sends: seq<nat>): seq<Sig>
    requires |sends| <= 3
  {
    if sends == [] then []
    else var k := |sends| - 1; Path(a, sends[..k]) + Leg(a, k, sends[k])
  }

  /** The address the trail's completion assigned. */
  function Assigned(t: seq<Event>): u16 { if t != [] && t[0].ProvComplete? then t[0].addr else 0 }

  /** Every event delivered to the flow in flight since it began was an answer of its own node to its own command. */
  ghost predicate MatchedSoFar(g0: Gw, ins: seq<Input>) {
    ins != [] ==>
      var k := |ins| - 1;
      var g, i := Run(g0, ins[..k]), ins[k];
      MoveOf(g, i.ev, i.env).Begin? || (MatchedSoFar(g0, ins[..k]) && Matched(g, i.ev))
  }

  ghost predicate OnPath(g: Gw, t: seq<Event>, sends: seq<nat>, matched: bool) {
    g.flow.Some? ==>
      && |sends| == g.flow.value.step.Index() <= 3
      && (sends == [] <==> t == [])
      && (sends != [] ==> sends[|sends| - 1] == g.flow.value.attempts)
      && (matched <==> Sigs(t) == Path(Assigned(t), sends))
      && (matched && sends != [] ==> t[0] == Completion(g, t[0]))
  }

  /** The completion that gave the flow its target and key. */
  function Completion(g: Gw, ev: Event): Event
    requires g.flow.Some?
  {
    ProvComplete(g.flow.value.target, if ev.ProvComplete? then ev.uuid else [], g.devKey)
  }

  lemma SameEnds(a: seq<Sig>, x: Sig, b: seq<Sig>, y: Sig)
    ensures a + [x] == b + [y] <==> a == b && x == y
  {
    if a + [x] == b + [y] {
      assert (a + [x])[..|a|] == a && (b + [y])[..|b|] == b;
      assert (a + [x])[|a|] == x && (b + [y])[|b|] == y;
    }
  }

  lemma SigsMore(t: seq<Event>, ev: Event)
    ensures Sigs(t + [ev]) == Sigs(t) + [SigOf(ev)]
  {
  }

  lemma {:induction false} PathLeg(a: u16, before: seq<nat>, n: nat)
    requires |before| <= 2
    ensures Path(a, before + [n]) == Path(a, before) + Leg(a, |before|, n)
  {
    assert (before + [n])[..|before|] == before;
  }

  lemma {:induction false} PathAgain(a: u16, before: seq<nat>, n: nat)
    requires |before| <= 2 && n >= 1
    ensures Path(a, before + [n + 1]) == Path(a, before + [n]) + [Lost(COMMANDS[|before|], a)]
  {
    hide Path, Leg, Opening;
    PathLeg(a, before, n);
    PathLeg(a, before, n + 1);
    LegAgain(a, |before|, n);
    Assoc(Path(a, before), Leg(a, |before|, n), [Lost(COMMANDS[|before|], a)]);
  }

  lemma LegAgain(a: u16, k: nat, n: nat)
    requires k < 3 && n >= 1
    ensures Leg(a, k, n + 1) == Leg(a, k, n) + [Lost(COMMANDS[k], a)]
  {
  }

  lemma Assoc(a: seq<Sig>, b: seq<Sig>, c: seq<Sig>)
    ensures a + (b + c) == a + b + c
  {
  }

  lemma StepStaysOnPath(g: Gw, i: Input, t: seq<Event>, sends: seq<nat>, matched: bool)
    requires OnPath(g, t, sends, matched) && Resting(g)
    ensures var m := MoveOf(g, i.ev, i.env);
      OnPath(Step(g, i.ev, i.env), Followed(g, i, t), Counted(m, sends), m.Begin? || (matched && Matched(g, i.ev)))
  {
    hide Step, Path, Sigs, Said;
    StepMoves(g, i.ev, i.env);
    if g.flow.Some? && g.flow.value.step.Sends() { OpOfStep(g.flow.value.step); }
    var a := Assigned(t + [i.ev]);
    match MoveOf(g, i.ev, i.env)
    case Begin => NothingYet(0);
    case Forward =>
      SigsMore(t, i.ev);
      NothingYet(0);
      NothingYet(a);
      PathLeg(a, sends, 1);
      SameEnds(Sigs(t), SigOf(i.ev), Path(a, sends), Opening(a, |sends|));
    case Again =>
      SigsMore(t, i.ev);
      var k := |sends| - 1;
      PathAgain(a, sends[..k], sends[k]);
      assert sends == sends[..k] + [sends[k]];
      SameEnds(Sigs(t), SigOf(i.ev), Path(a, sends), Lost(COMMANDS[|sends| - 1], a));
    case _ =>
  }

  lemma {:induction false} NothingYet(a: u16)
    ensures Sigs([]) == Path(a, [])
  {
  }

  lemma {:induction false} FlowStaysOnPath(g0: Gw, ins: seq<Input>)
    requires Booted(g0)
    ensures OnPath(Run(g0, ins), Trail(g0, ins), Sends(g0, ins), MatchedSoFar(g0, ins))
  {
    if ins != [] {
      hide OnPath, Step, Followed, Counted;
      var k := |ins| - 1;
      FlowStaysOnPath(g0, ins[..k]);
      RunRests(g0, ins[..k]);
      StepStaysOnPath(Run(g0, ins[..k]), ins[k], Trail(g0, ins[..k]), Sends(g0, ins[..k]), MatchedSoFar(g0, ins[..k]));
    }
  }

  /** A flow that reports ok went the full path - one completion, then each command sent one to three times and
      acknowledged by the node the completion named - exactly when the stack delivered nothing but that node's answers
      to the step's own command. Its reply then carries the completion's address and key. */
  lemma {:induction false} OkByTheFullPath(g0: Gw, ins: seq<Input>, i: Input)
    requires Booted(g0) && MoveOf(Run(g0, ins), i.ev, i.env).Win?
    ensures var g, t, sends := Run(g0, ins), Trail(g0, ins), Sends(g0, ins);
      var a := Assigned(t);
      && |sends| == 3 && (forall k :: 0 <= k < 3 ==> 1 <= sends[k] <= 3)
      && (Sigs(t + [i.ev]) == Path(a, sends) + [Ack(OP_MODEL_PUB_SET, a)] <==>
          MatchedSoFar(g0, ins) && Matched(g, i.ev))
      && (MatchedSoFar(g0, ins) && Matched(g, i.ev) ==>
          var out := Step(g, i.ev, i.env).out;
          && t[0].ProvComplete?
          && out == g.out + [ProvState(g.flow.value.reqId, COMPLETE), ProvOk(g.flow.value.reqId, a, t[0].key)])
  {
    hide Legs, Run, Step, Trail, Sends, MatchedSoFar, Booted, Path, Sigs;
    var g, t, sends := Run(g0, ins), Trail(g0, ins), Sends(g0, ins);
    FlowIsOnItsTrail(g0, ins);
    FlowStaysOnPath(g0, ins);
    RunRests(g0, ins);
    LegSize(t, sends, 0);
    LegSize(t, sends, 1);
    LegSize(t, sends, 2);
    SigsMore(t, i.ev);
    SameEnds(Sigs(t), SigOf(i.ev), Path(Assigned(t), sends), Ack(OP_MODEL_PUB_SET, Assigned(t)));
    StepMoves(g, i.ev, i.env);
  }

  lemma {:induction false} LegSize(t: seq<Event>, sends: seq<nat>, k: nat)
    requires Legs(t, sends) && k < |sends|
    ensures 1 <= sends[k] <= CFG_MAX_ATTEMPTS
    decreases |sends|
  {
    var last := |sends| - 1;
    if k < last { LegSize(t[..|t| - sends[last]], sends[..last], k); }
  }

  // ----- without the stack's promise -----

  /** The promise is needed. A flow is about to have its publication setting acknowledged, and everything so far went
      as it should; one late node-reset acknowledgement, from another node, and the gateway reports ok although no
      publication setting was ever acknowledged. */
  lemma {:induction false} LateResetAckReportsOk(g0: Gw, ins: seq<Input>, from: u16, e: Env)
    requires Booted(g0) && MatchedSoFar(g0, ins)
    requires var g := Run(g0, ins);
      && g.flow.Some? && g.flow.value.step == MODEL_PUB_SET && g.decom.None?
      && g.flow.value.target != 0 && from != g.flow.value.target
    ensures var g, i := Run(g0, ins), Input(CfgClient(SET_STATE, OP_NODE_RESET, from, false), e);
      var f := g.flow.value;
      && Step(g, i.ev, e).out == g.out + [ProvState(f.reqId, COMPLETE), ProvOk(f.reqId, f.target, g.devKey)]
      && Assigned(Trail(g0, ins)) == f.target
      && forall s :: s in Sigs(Trail(g0, ins) + [i.ev]) ==> !(s.Ack? && s.op == OP_MODEL_PUB_SET)
  {
    hide Run, Step, Trail, Sends, MatchedSoFar, Booted, Path, Sigs;
    var g, t, sends := Run(g0, ins), Trail(g0, ins), Sends(g0, ins);
    var ev := CfgClient(SET_STATE, OP_NODE_RESET, from, false);
    FlowStaysOnPath(g0, ins);
    RunRests(g0, ins);
    SigsMore(t, ev);
    NoPubSetAck(Assigned(t), sends);
    StepMoves(g, ev, e);
    assert Reported(g, ev) == [ProvState(g.flow.value.reqId, COMPLETE)];
  }

  /** The path up to the last command holds no acknowledgement of it. */
  lemma {:induction false} NoPubSetAck(a: u16, sends: seq<nat>)
    requires |sends| <= 3
    ensures forall s :: s in Path(a, sends) ==> !(s.Ack? && s.op == OP_MODEL_PUB_SET)
  {
    if sends != [] {
      var k := |sends| - 1;
      NoPubSetAck(a, sends[..k]);
      NoPubSetAckIn(a, k, sends[k]);
    }
  }

  lemma {:induction false} NoPubSetAckIn(a: u16, k: nat, n: nat)
    requires k < 3
    ensures forall s :: s in Leg(a, k, n) ==> !(s.Ack? && s.op == OP_MODEL_PUB_SET)
  {
    if n > 1 { NoPubSetAckIn(a, k, n - 1); }
  }
}
