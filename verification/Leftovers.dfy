/** What one flow leaves behind for the next: commands the stack took and has not answered yet. The promise that it
    answers only the flow's own command (`Moves.Matched`) follows from answering each command once, as long as nothing
    is left over when a flow begins. */
module Leftovers {
  import opened Common
  import opened GatewayModel
  import opened Moves
  import opened FlowPath

  datatype Ask = Ask(op: Opcode, addr: u16)

  /** A reply to, or the timeout of, a command the stack took. */
  predicate IsAnswer(ev: Event) { ev.CfgClient? && !ev.kind.PUBLISH? }

  function AnsweredBy(ev: Event): multiset<Ask> {
    if IsAnswer(ev) then multiset{Ask(ev.op, ev.from)} else multiset{}
  }

  function TakenFrom(cmds: seq<Cmd>): multiset<Ask>
    requires |cmds| <= 1
  {
    if cmds != [] && cmds[0].taken then multiset{Ask(cmds[0].op, cmds[0].addr)} else multiset{}
  }

  /** What a callback hands to the stack, and the stack takes, for the flow and for a decommission. */
  function SentForFlow(g: Gw, i: Input): multiset<Ask> {
    TakenFrom(TryCmds(g, i.ev, i.env)) + TakenFrom(BackCmds(g, i.ev, i.env))
  }

  function SentForDecom(g: Gw, i: Input): multiset<Ask> { TakenFrom(ResetCmds(g, i.ev, i.env)) }

  /** The commands taken and not yet answered. */
  ghost function Outstanding(g0: Gw, ins: seq<Input>): multiset<Ask> {
    if ins == [] then multiset{}
    else
      var k := |ins| - 1;
      Outstanding(g0, ins[..k]) - AnsweredBy(ins[k].ev)
      + (SentForFlow(Run(g0, ins[..k]), ins[k]) + SentForDecom(Run(g0, ins[..k]), ins[k]))
  }

  /** The stack answers only what was asked, and each of it once; it completes a flow's provisioning once. */
  ghost predicate Honest(g0: Gw, ins: seq<Input>) {
    ins != [] ==>
      var k := |ins| - 1;
      Honest(g0, ins[..k]) && Answers(Run(g0, ins[..k]), ins[k].ev, Outstanding(g0, ins[..k]))
  }

  predicate Answers(g: Gw, ev: Event, out: multiset<Ask>) {
    && (IsAnswer(ev) ==> Ask(ev.op, ev.from) in out)
    && (ev.ProvComplete? && g.flow.Some? ==> g.flow.value.step == IDLE)
  }

  /** The command that the flow in flight waits for, and the one the decommission does. */
  function OwnFlow(g: Gw): multiset<Ask> {
    if g.flow.Some? && g.flow.value.step.Sends() then multiset{Ask(g.flow.value.step.Op(), g.flow.value.target)}
    else multiset{}
  }

  function OwnDecom(g: Gw): multiset<Ask> {
    if g.decom.Some? then multiset{Ask(OP_NODE_RESET, g.decom.value.addr)} else multiset{}
  }

  ghost predicate NothingLeft(g: Gw, out: multiset<Ask>) { out <= OwnFlow(g) + OwnDecom(g) }

  /** Every flow begins with nothing left over. */
  ghost predicate CleanStarts(g0: Gw, ins: seq<Input>) {
    ins != [] ==>
      var k := |ins| - 1;
      var g := Run(g0, ins[..k]);
      && CleanStarts(g0, ins[..k])
      && (MoveOf(g, ins[k].ev, ins[k].env).Begin? ==> NothingLeft(g, Outstanding(g0, ins[..k])))
  }

  // ----- one step -----

  predicate HeardByDecom(g: Gw, ev: Event) { g.decom.Some? && IsAnswer(ev) && ev.op == OP_NODE_RESET }

  /** When nothing is left over, an answer is the flow's own or the decommission's. */
  lemma AnswerIsOwn(g: Gw, ev: Event, out: multiset<Ask>)
    requires NothingLeft(g, out) && Answers(g, ev, out)
    ensures Matched(g, ev)
    ensures Delivered(g, ev) && IsAnswer(ev) ==> AnsweredBy(ev) == OwnFlow(g)
    ensures !Delivered(g, ev) && IsAnswer(ev) ==> HeardByDecom(g, ev) && AnsweredBy(ev) == OwnDecom(g)
  {
    if IsAnswer(ev) {
      var a := Ask(ev.op, ev.from);
      assert a in OwnFlow(g) || a in OwnDecom(g);
    }
  }

  lemma OnlyTheStep(g: Gw, i: Input)
    requires !MoveOf(g, i.ev, i.env).Lose?
    ensures SentForFlow(g, i) == TakenFrom(TryCmds(g, i.ev, i.env))
  {
    hide MoveOf, TryCmds;
    assert BackCmds(g, i.ev, i.env) == [];
  }

  lemma TriedByMove(g: Gw, i: Input)
    requires !MoveOf(g, i.ev, i.env).Lose?
    ensures match MoveOf(g, i.ev, i.env) {
        case Forward => Tries(g, i.ev) == Some(g.flow.value.step.Next()) && i.env.sendOk
        case Again => Tries(g, i.ev) == Some(g.flow.value.step) && i.env.sendOk
        case _ => Tries(g, i.ev) == None
      }
    ensures Delivered(g, i.ev) <==> !MoveOf(g, i.ev, i.env).Still? && !MoveOf(g, i.ev, i.env).Begin?
  {
  }

  lemma FlowSide(g: Gw, i: Input)
    requires Resting(g) && Matched(g, i.ev) && !MoveOf(g, i.ev, i.env).Lose?
    ensures var g' := Step(g, i.ev, i.env);
      if Delivered(g, i.ev) then SentForFlow(g, i) <= OwnFlow(g')
      else OwnFlow(g') == OwnFlow(g) && SentForFlow(g, i) == multiset{}
  {
    StepMoves(g, i.ev, i.env);
    OnlyTheStep(g, i);
    TriedByMove(g, i);
    if MoveOf(g, i.ev, i.env).Begin? { BeginsAfresh(g, i); }
    hide Step, Said, MoveOf, Tries, Delivered, Matched, SentForFlow;
  }

  lemma BeginsAfresh(g: Gw, i: Input)
    requires MoveOf(g, i.ev, i.env).Begin?
    ensures g.flow.None?
  {
    hide HasUuid;
  }

  lemma DecomSide(g: Gw, i: Input)
    ensures var g' := Step(g, i.ev, i.env);
      if HeardByDecom(g, i.ev) then SentForDecom(g, i) <= OwnDecom(g')
      else OwnDecom(g) + SentForDecom(g, i) <= OwnDecom(g')
  {
    hide Step, NodesAfter, BerthsAfter, ArmedAfter;
    StepStores(g, i.ev, i.env);
  }

  lemma TakeOff(out: multiset<Ask>, own: multiset<Ask>, other: multiset<Ask>, more: multiset<Ask>)
    requires out <= own + other
    ensures out - own + more <= other + more
  {
  }

  lemma Grown(out: multiset<Ask>, f: multiset<Ask>, d: multiset<Ask>, sf: multiset<Ask>, sd: multiset<Ask>,
              f': multiset<Ask>, d': multiset<Ask>)
    requires out <= f + d && f + sf <= f' && d + sd <= d'
    ensures out + (sf + sd) <= f' + d'
  {
  }

  /** And nothing is left over afterwards, unless the flow ended in error. */
  lemma StepLeavesNothing(g: Gw, i: Input, out: multiset<Ask>)
    requires Resting(g) && NothingLeft(g, out) && Answers(g, i.ev, out) && !MoveOf(g, i.ev, i.env).Lose?
    ensures NothingLeft(Step(g, i.ev, i.env), out - AnsweredBy(i.ev) + (SentForFlow(g, i) + SentForDecom(g, i)))
  {
    hide Step, MoveOf, SentForFlow, SentForDecom, AnsweredBy, OwnFlow, OwnDecom, Matched;
    var g', none := Step(g, i.ev, i.env), multiset{};
    AnswerIsOwn(g, i.ev, out);
    FlowSide(g, i);
    DecomSide(g, i);
    var f, d, sf, sd := OwnFlow(g), OwnDecom(g), SentForFlow(g, i), SentForDecom(g, i);
    if !IsAnswer(i.ev) {
      assert AnsweredBy(i.ev) == none by { NotAnswered(i.ev); }
      if Delivered(g, i.ev) { assert f == none by { NothingAsked(g, i.ev); } }
      Grown(out, f, d, sf, sd, OwnFlow(g'), OwnDecom(g'));
      assert out - none == out;
    } else if Delivered(g, i.ev) {
      TakeOff(out, f, d, none);
      Grown(out - f, none, d, sf, sd, OwnFlow(g'), OwnDecom(g'));
    } else {
      TakeOff(out, d, f, none);
      Grown(out - d, f, none, sf, sd, OwnFlow(g'), OwnDecom(g'));
    }
  }

  lemma NotAnswered(ev: Event)
    requires !IsAnswer(ev)
    ensures AnsweredBy(ev) == multiset{}
  {
  }

  lemma NothingAsked(g: Gw, ev: Event)
    requires Matched(g, ev) && Delivered(g, ev) && !IsAnswer(ev)
    ensures OwnFlow(g) == multiset{}
  {
  }

  // ----- whole runs -----

  /** In every run in which the stack answers each command it took at most once, and every flow begins with nothing
      left over: what reaches a flow is its own - its completion, and its node's answers to its own commands. */
  lemma {:induction false} CleanStartsKeepFlowsApart(g0: Gw, ins: seq<Input>)
    requires Booted(g0) && Honest(g0, ins) && CleanStarts(g0, ins)
    ensures Run(g0, ins).flow.Some? ==>
      NothingLeft(Run(g0, ins), Outstanding(g0, ins)) && MatchedSoFar(g0, ins)
  {
    if ins != [] {
      var k := |ins| - 1;
      var g, i, out := Run(g0, ins[..k]), ins[k], Outstanding(g0, ins[..k]);
      CleanStartsKeepFlowsApart(g0, ins[..k]);
      RunRests(g0, ins[..k]);
      FlowContinues(g, i);
      if Run(g0, ins).flow.Some? {
        hide Step, NothingLeft, MoveOf, Resting, Answers, Matched, SentForFlow, SentForDecom, AnsweredBy;
        AnswerIsOwn(g, i.ev, out);
        StepLeavesNothing(g, i, out);
      }
    }
  }

  /** A flow in flight afterwards was in flight before, or has just begun. */
  lemma FlowContinues(g: Gw, i: Input)
    ensures Step(g, i.ev, i.env).flow.Some? ==>
      (g.flow.Some? || MoveOf(g, i.ev, i.env).Begin?) && !MoveOf(g, i.ev, i.env).Lose?
  {
    hide Step, Said;
    StepMoves(g, i.ev, i.env);
  }

  /** So a flow that reports ok under those promises took the full path. */
  lemma {:induction false} HonestOkTookTheFullPath(g0: Gw, ins: seq<Input>, i: Input)
    requires Booted(g0)
    ensures var g, t, sends := Run(g0, ins), Trail(g0, ins), Sends(g0, ins);
      Honest(g0, ins + [i]) && CleanStarts(g0, ins + [i]) && MoveOf(g, i.ev, i.env).Win? ==>
        |sends| == 3 && Sigs(t + [i.ev]) == Path(Assigned(t), sends) + [Ack(OP_MODEL_PUB_SET, Assigned(t))]
  {
    if Honest(g0, ins + [i]) && CleanStarts(g0, ins + [i]) && MoveOf(Run(g0, ins), i.ev, i.env).Win? {
      hide Run, Trail, Sends, Booted, Path, Sigs, MatchedSoFar, Outstanding;
      assert (ins + [i])[..|ins|] == ins;
      CleanStartsKeepFlowsApart(g0, ins);
      AnswerIsOwn(Run(g0, ins), i.ev, Outstanding(g0, ins));
      OkByTheFullPath(g0, ins, i);
    }
  }

  /** An answer, whatever command it belongs to, leaves the flow in flight alone exactly when it is about a node reset
      and a decommission is open to take it. Any other moves the flow on, repeats its command, or ends it. */
  lemma LeftoverHarmlessExactly(g: Gw, ev: Event, e: Env)
    requires g.flow.Some? && IsAnswer(ev)
    ensures Step(g, ev, e).flow == g.flow <==> HeardByDecom(g, ev)
  {
    hide Step, Said;
    StepMoves(g, ev, e);
  }

  /** The late acknowledgement of `FlowPath.LateResetAckReportsOk` may be one the stack owes: in an honest run in which
      another node's reset is still unanswered, it makes the flow report ok although no publication setting was ever
      acknowledged, and it is then a leftover that undoes the flow. */
  lemma {:induction false} OwedResetAckReportsOk(g0: Gw, ins: seq<Input>, from: u16, e: Env)
    requires Booted(g0)
    ensures Honest(g0, ins) && MatchedSoFar(g0, ins) && Owes(g0, ins, from) ==>
      var g, i := Run(g0, ins), Input(CfgClient(SET_STATE, OP_NODE_RESET, from, false), e);
      var f := g.flow.value;
      && Honest(g0, ins + [i]) && !CleanStarts(g0, ins)
      && Step(g, i.ev, e).out == g.out + [ProvState(f.reqId, COMPLETE), ProvOk(f.reqId, f.target, g.devKey)]
      && forall s :: s in Sigs(Trail(g0, ins) + [i.ev]) ==> !(s.Ack? && s.op == OP_MODEL_PUB_SET)
  {
    if Honest(g0, ins) && MatchedSoFar(g0, ins) && Owes(g0, ins, from) {
      hide Run, Step, Trail, MatchedSoFar, Booted, Sigs, Honest, CleanStarts, Outstanding;
      var i := Input(CfgClient(SET_STATE, OP_NODE_RESET, from, false), e);
      var g, out := Run(g0, ins), Outstanding(g0, ins);
      RunMore(g0, ins, i);
      AnswersLate(g, i.ev, out);
      LateResetAckReportsOk(g0, ins, from, e);
      if CleanStarts(g0, ins) {
        CleanStartsKeepFlowsApart(g0, ins);
        AnswerIsOwn(g, i.ev, out);
      }
    }
  }

  /** The flow in flight waits for its last acknowledgement, and the stack still owes an answer for the reset of another
      node. */
  ghost predicate Owes(g0: Gw, ins: seq<Input>, from: u16) {
    var g := Run(g0, ins);
    && Ask(OP_NODE_RESET, from) in Outstanding(g0, ins)
    && g.flow.Some? && g.flow.value.step == MODEL_PUB_SET && g.decom.None?
    && g.flow.value.target != 0 && from != g.flow.value.target
  }

  /** The promise about beginnings is needed, and easily broken: a flow that ends in error sends its node a reset, the
      next request comes before that is answered, and the reset's timeout ends the new flow, whose device has not even
      been provisioned. The stack was honest throughout. */
  lemma {:induction false} RollbackTimeoutEndsNextFlow(g0: Gw, ins: seq<Input>, r: ProvReq, e: Env)
    requires Booted(g0) && Honest(g0, ins) && LateReset(Run(g0, ins), r, e)
    ensures var g, id := Run(g0, ins), Cut(r.reqId.value, REQ_ID_MAX);
      var more := ins + [Input(Timer, e)] + [Input(Provision(r), e)];
      var late := CfgClient(CFG_TIMEOUT, OP_NODE_RESET, g.flow.value.target, false);
      var g2 := Run(g0, more);
      && Honest(g0, more + [Input(late, e)]) && !CleanStarts(g0, more)
      && g2.flow.Some? && g2.flow.value.reqId == id && g2.flow.value.step == IDLE
      && Step(g2, late, e).flow == None && Step(g2, late, e).out == g2.out + [ProvErr(id, CFG_FAIL)]
  {
    NextFlowEnds(Run(g0, ins), r, e);
    hide *;
    var g := Run(g0, ins);
    var one, two := Input(Timer, e), Input(Provision(r), e);
    var late := CfgClient(CFG_TIMEOUT, OP_NODE_RESET, g.flow.value.target, false);
    var a := Ask(OP_NODE_RESET, g.flow.value.target);
    var g1, out1 := Run(g0, ins + [one]), Outstanding(g0, ins + [one]);
    RunMore(g0, ins, one);
    RunMore(g0, ins + [one], two);
    RunMore(g0, ins + [one] + [two], Input(late, e));
    Unanswered(g, one.ev, Outstanding(g0, ins), SentForFlow(g, one), SentForDecom(g, one), a);
    Unanswered(g1, two.ev, out1, SentForFlow(g1, two), SentForDecom(g1, two), a);
    AnswersLate(Run(g0, ins + [one] + [two]), late, Outstanding(g0, ins + [one] + [two]));
    SomethingLeft(g1, out1, a);
  }

  lemma Unanswered(g: Gw, ev: Event, out: multiset<Ask>, sf: multiset<Ask>, sd: multiset<Ask>, a: Ask)
    requires !ev.CfgClient? && !ev.ProvComplete? && (a in out || a in sf)
    ensures Answers(g, ev, out) && a in out - AnsweredBy(ev) + (sf + sd)
  {
  }

  lemma AnswersLate(g: Gw, late: Event, out: multiset<Ask>)
    requires late.CfgClient? && Ask(late.op, late.from) in out
    ensures Answers(g, late, out)
  {
  }

  lemma SomethingLeft(g: Gw, out: multiset<Ask>, a: Ask)
    requires g.flow.None? && g.decom.None? && a in out
    ensures !NothingLeft(g, out)
  {
  }

  /** A configured node's flow is about to time out, with a request for another device to follow. */
  ghost predicate LateReset(g: Gw, r: ProvReq, e: Env) {
    && g.flow.Some? && g.flow.value.target != 0 && g.decom.None? && e.resetOk
    && WellFormed(r) && r.uuid.Good? && r.oob != Bad && Starts(r, e)
    && !HasUuid(Step(g, Timer, e).nodes, r.uuid.value)
  }

  lemma NextFlowEnds(g: Gw, r: ProvReq, e: Env)
    requires LateReset(g, r, e)
    ensures g.flow.Some? && g.decom.None? && WellFormed(r)
    ensures var t, id := g.flow.value.target, Cut(r.reqId.value, REQ_ID_MAX);
      var late := CfgClient(CFG_TIMEOUT, OP_NODE_RESET, t, false);
      var g1 := Step(g, Timer, e);
      var g2 := Step(g1, Provision(r), e);
      && g1.flow.None? && g1.decom.None? && MoveOf(g1, Provision(r), e).Begin?
      && Ask(OP_NODE_RESET, t) in SentForFlow(g, Input(Timer, e))
      && g2.flow.Some? && g2.flow.value.reqId == id && g2.flow.value.step == IDLE
      && Step(g2, late, e).flow.None? && Step(g2, late, e).out == g2.out + [ProvErr(id, CFG_FAIL)]
  {
    hide HasUuid, Cut, Step;
    var late := CfgClient(CFG_TIMEOUT, OP_NODE_RESET, g.flow.value.target, false);
    var g1 := Step(g, Timer, e);
    var g2 := Step(g1, Provision(r), e);
    DecomStays(g, Timer, e);
    DecomStays(g1, Provision(r), e);
    StepMoves(g, Timer, e);
    StepMoves(g1, Provision(r), e);
    StepMoves(g2, late, e);
    assert Reported(g2, late) == [];
  }

  lemma DecomStays(g: Gw, ev: Event, e: Env)
    requires !ev.Decommission? && !ev.CfgClient?
    ensures Step(g, ev, e).decom == g.decom
  {
    hide Step, NodesAfter, BerthsAfter, ArmedAfter;
    StepStores(g, ev, e);
  }

  lemma {:induction false} RunMore(g0: Gw, ins: seq<Input>, i: Input)
    ensures Run(g0, ins + [i]) == Step(Run(g0, ins), i.ev, i.env)
    ensures Outstanding(g0, ins + [i]) ==
      Outstanding(g0, ins) - AnsweredBy(i.ev) + (SentForFlow(Run(g0, ins), i) + SentForDecom(Run(g0, ins), i))
    ensures Honest(g0, ins + [i]) <==> Honest(g0, ins) && Answers(Run(g0, ins), i.ev, Outstanding(g0, ins))
    ensures CleanStarts(g0, ins + [i]) ==>
      MoveOf(Run(g0, ins), i.ev, i.env).Begin? ==> NothingLeft(Run(g0, ins), Outstanding(g0, ins))
  {
    hide Step, Answers, MoveOf, NothingLeft, SentForFlow, SentForDecom, AnsweredBy;
    assert (ins + [i])[..|ins|] == ins;
  }
}
