/** Decommissions over whole runs: every accepted request is replied to once, in order, with the number of resets
    that went out for it (`dp_gateway_decom.c` and the decommission half of `dp_mesh_provisioner.c`). */
module Decommission {
  import opened Common
  import opened GatewayModel
  import opened Moves
  import opened Ledger

  /** The requests taken, in order. */
  ghost function Taken(g0: Gw, ins: seq<Input>): seq<Job> {
    if ins == [] then []
    else
      var k := |ins| - 1;
      var g, i := Run(g0, ins[..k]), ins[k];
      Taken(g0, ins[..k]) + NewJob(g, i)
  }

  function NewJob(g: Gw, i: Input): seq<Job> {
    if i.ev.Decommission? && Accepts(g, i.ev.dreq, i.env) then [DecomAfter(g, i.ev, i.env).value] else []
  }

  datatype Bill = Bill(reqId: string, attempts: nat)

  /** The replies that end a request; a refusal reports no attempt. */
  function Billed(out: seq<Msg>): seq<Bill> {
    if out == [] then []
    else
      var m := out[|out| - 1];
      Billed(out[..|out| - 1]) + if m.DecomResp? && m.attempts > 0 then [Bill(m.reqId, m.attempts)] else []
  }

  /** Replies given and the one still owed, with the attempts so far. */
  function Bills(g: Gw): seq<Bill> {
    Billed(g.out) + if g.decom.Some? then [Bill(g.decom.value.reqId, g.decom.value.attempts)] else []
  }

  /** The addresses that decommissions reset, in the order the commands went to the stack. */
  function ResetAddrs(cmds: seq<Cmd>): seq<u16> {
    if cmds == [] then []
    else
      var c := cmds[|cmds| - 1];
      ResetAddrs(cmds[..|cmds| - 1]) + if c.origin.DECOMMISSION? then [c.addr] else []
  }

  function Times(a: u16, n: nat): seq<u16> { seq(n, _ => a) }

  /** What the bills account for: each request's address as often as it was attempted. */
  function Charged(jobs: seq<Job>, bills: seq<Bill>): seq<u16>
    requires |jobs| == |bills|
  {
    if jobs == [] then []
    else var k := |jobs| - 1; Charged(jobs[..k], bills[..k]) + Times(jobs[k].addr, bills[k].attempts)
  }

  ghost predicate Settled(jobs: seq<Job>, g: Gw) {
    var bills := Bills(g);
    && |jobs| == |bills|
    && (forall k :: 0 <= k < |jobs| ==> bills[k].reqId == jobs[k].reqId && 1 <= bills[k].attempts <= 3)
    && ResetAddrs(g.cmds) == Charged(jobs, bills)
    && (g.decom.Some? ==> jobs[|jobs| - 1].addr == g.decom.value.addr)
  }

  lemma {:induction false} BilledMore(out: seq<Msg>, m: Msg)
    ensures Billed(out + [m]) ==
      Billed(out) + if m.DecomResp? && m.attempts > 0 then [Bill(m.reqId, m.attempts)] else []
  {
    assert (out + [m])[..|out|] == out;
  }

  lemma {:induction false} NothingBilled(out: seq<Msg>, ms: seq<Msg>)
    requires forall k :: 0 <= k < |ms| ==> !ms[k].DecomResp? || ms[k].attempts == 0
    ensures Billed(out + ms) == Billed(out)
  {
    if ms == [] {
      assert out + ms == out;
    } else {
      var k := |ms| - 1;
      NothingBilled(out, ms[..k]);
      assert out + ms == out + ms[..k] + [ms[k]];
      BilledMore(out + ms[..k], ms[k]);
    }
  }

  lemma {:induction false} ResetAddrsMore(cmds: seq<Cmd>, more: seq<Cmd>)
    ensures ResetAddrs(cmds + more) == ResetAddrs(cmds) + ResetAddrs(more)
  {
    if more == [] {
      assert cmds + more == cmds;
    } else {
      var k := |more| - 1;
      ResetAddrsMore(cmds, more[..k]);
      assert (cmds + more)[..|cmds| + k] == cmds + more[..k];
    }
  }

  lemma {:induction false} NoResets(cmds: seq<Cmd>)
    requires forall k :: 0 <= k < |cmds| ==> !cmds[k].origin.DECOMMISSION?
    ensures ResetAddrs(cmds) == []
  {
    if cmds != [] { NoResets(cmds[..|cmds| - 1]); }
  }

  /** One callback adds a reset to the log exactly when a decommission sends one. */
  lemma StepResets(g: Gw, ev: Event, e: Env)
    ensures ResetAddrs(Step(g, ev, e).cmds) ==
      ResetAddrs(g.cmds) + if Resets(g, ev, e).Some? then [Resets(g, ev, e).value] else []
  {
    hide Step, MoveOf, Tries, Resets, ResetAddrs;
    StepCmds(g, ev, e);
    var flow, resets := FlowCmds(g, ev, e), ResetCmds(g, ev, e);
    ResetAddrsMore(g.cmds, flow);
    ResetAddrsMore(g.cmds + flow, resets);
    NoResets(flow);
    OneReset(resets);
  }

  lemma {:induction false} OneReset(cmds: seq<Cmd>)
    requires |cmds| <= 1 && forall k :: 0 <= k < |cmds| ==> cmds[k].origin.DECOMMISSION?
    ensures ResetAddrs(cmds) == if cmds == [] then [] else [cmds[0].addr]
  {
  }

  /** One callback adds a bill exactly when it ends a decommission. */
  lemma StepBills(g: Gw, ev: Event, e: Env)
    requires g.decom.Some? ==> g.decom.value.attempts > 0
    ensures Billed(Step(g, ev, e).out) ==
      Billed(g.out) + if DecomEnds(g, ev) then [Bill(g.decom.value.reqId, g.decom.value.attempts)] else []
  {
    hide Step, Billed, Outcome;
    StepMoves(g, ev, e);
    var out := Step(g, ev, e).out;
    if DecomEnds(g, ev) && MoveOf(g, ev, e).Still? {
      BilledMore(g.out, DecomReport(g, ev, e));
    } else {
      assert out == g.out + out[|g.out|..];
      NothingBilled(g.out, out[|g.out|..]);
    }
  }

  lemma {:induction false} ChargedMore(jobs: seq<Job>, bills: seq<Bill>, j: Job, b: Bill)
    requires |jobs| == |bills|
    ensures Charged(jobs + [j], bills + [b]) == Charged(jobs, bills) + Times(j.addr, b.attempts)
  {
    assert (jobs + [j])[..|jobs|] == jobs && (bills + [b])[..|bills|] == bills;
  }

  lemma TimesMore(a: u16, n: nat)
    ensures Times(a, n + 1) == Times(a, n) + [a] && Times(a, 1) == [a]
  {
  }

  lemma Accepted(jobs: seq<Job>, g: Gw, g': Gw, j: Job)
    requires Settled(jobs, g) && g.decom.None? && g'.decom == Some(j) && j.attempts == 1
    requires Billed(g'.out) == Billed(g.out) && ResetAddrs(g'.cmds) == ResetAddrs(g.cmds) + [j.addr]
    ensures Settled(jobs + [j], g')
  {
    hide Billed, ResetAddrs, Charged;
    ChargedMore(jobs, Bills(g), j, Bill(j.reqId, 1));
    TimesMore(j.addr, 1);
    assert Billed(g.out) + [] == Billed(g.out);
  }

  lemma Retried(jobs: seq<Job>, g: Gw, g': Gw)
    requires Settled(jobs, g) && g.decom.Some? && g.decom.value.attempts < DECOM_MAX_ATTEMPTS
    requires g'.decom == Some(g.decom.value.(attempts := g.decom.value.attempts + 1))
    requires Billed(g'.out) == Billed(g.out) && ResetAddrs(g'.cmds) == ResetAddrs(g.cmds) + [g.decom.value.addr]
    ensures Settled(jobs, g')
  {
    hide Billed, ResetAddrs, Charged, Times;
    var j, k := g.decom.value, |jobs| - 1;
    var done := Billed(g.out);
    assert jobs == jobs[..k] + [jobs[k]];
    ChargedMore(jobs[..k], done, jobs[k], Bill(j.reqId, j.attempts));
    ChargedMore(jobs[..k], done, jobs[k], Bill(j.reqId, j.attempts + 1));
    TimesMore(j.addr, j.attempts);
  }

  lemma Ended(jobs: seq<Job>, g: Gw, g': Gw)
    requires Settled(jobs, g) && g.decom.Some? && g'.decom.None?
    requires Billed(g'.out) == Billed(g.out) + [Bill(g.decom.value.reqId, g.decom.value.attempts)]
    requires ResetAddrs(g'.cmds) == ResetAddrs(g.cmds)
    ensures Settled(jobs, g')
  {
    assert Bills(g') == Bills(g);
  }

  lemma StepSettles(g: Gw, i: Input, jobs: seq<Job>)
    requires Settled(jobs, g)
    ensures Settled(jobs + NewJob(g, i), Step(g, i.ev, i.env))
  {
    hide Step, Billed, ResetAddrs, Settled, NodesAfter, BerthsAfter, ArmedAfter;
    var g' := Step(g, i.ev, i.env);
    if g.decom.Some? { AttemptsInRange(jobs, g); }
    StepBills(g, i.ev, i.env);
    StepResets(g, i.ev, i.env);
    StepStores(g, i.ev, i.env);
    assert jobs + [] == jobs;
    if NewJob(g, i) != [] {
      Accepted(jobs, g, g', g'.decom.value);
    } else if DecomEnds(g, i.ev) {
      Ended(jobs, g, g');
    } else if Resets(g, i.ev, i.env).Some? {
      Retried(jobs, g, g');
    } else {
      Unmoved(jobs, g, g');
    }
  }

  lemma AttemptsInRange(jobs: seq<Job>, g: Gw)
    requires Settled(jobs, g) && g.decom.Some?
    ensures 1 <= g.decom.value.attempts <= DECOM_MAX_ATTEMPTS
  {
    assert Bills(g)[|jobs| - 1].attempts == g.decom.value.attempts;
  }

  lemma Unmoved(jobs: seq<Job>, g: Gw, g': Gw)
    requires g'.decom == g.decom && Billed(g'.out) == Billed(g.out) && ResetAddrs(g'.cmds) == ResetAddrs(g.cmds)
    ensures Settled(jobs, g) ==> Settled(jobs, g')
  {
  }

  /** In every run the accepted requests are replied to in order, each under its own id, and the resets sent are
      exactly what the replies and the open request say: one to three for each, all to its own address. */
  lemma {:induction false} EveryDecommissionIsSettled(g0: Gw, ins: seq<Input>)
    requires Booted(g0)
    ensures Settled(Taken(g0, ins), Run(g0, ins))
  {
    if ins != [] {
      hide Step, Settled, NewJob;
      var k := |ins| - 1;
      EveryDecommissionIsSettled(g0, ins[..k]);
      StepSettles(Run(g0, ins[..k]), ins[k], Taken(g0, ins[..k]));
    }
  }

  /** What a request comes to, in its own fields. It is taken exactly when its unicast is a number from 1 to 0xFFFF, no
      decommission is open and there is memory for it: one reset goes out, and nothing is said. Otherwise it gets one
      error under its full id, or none without an id, and nothing else changes. */
  lemma RequestIsTakenOrRefused(g: Gw, r: DecomReq, e: Env)
    ensures var g' := Step(g, Decommission(r), e);
      if r.unicast.Good? && 1 <= r.unicast.value <= 0xFFFF && g.decom.None? && e.allocOk then
        && g'.decom.Some?
        && var j := g'.decom.value;
        && j.addr == r.unicast.value && j.attempts == 1
        && FirstChars(j.reqId, if r.reqId.Some? then r.reqId.value else "", 63)
        && FirstChars(j.node, if r.node.Some? then r.node.value else "", 63)
        && g'.cmds == g.cmds + [Cmd(OP_NODE_RESET, j.addr, DECOMMISSION, e.resetOk)]
        && g' == g.(decom := g'.decom, cmds := g'.cmds)
      else if r.reqId.None? then g' == g
      else
        var code := if r.unicast.Missing? then BAD_REQ
                    else if r.unicast.Bad? || r.unicast.value == 0 || r.unicast.value > 0xFFFF then BAD_UNICAST
                    else UNKNOWN;
        g' == g.(out := g.out + [DecomResp(r.reqId.value, r.node, DECOM_ERR, Some(code), 0)])
  {
    hide Cut;
    FitsContext(OrEmpty(r.reqId));
    FitsContext(OrEmpty(r.node));
  }

  lemma FitsContext(s: string)
    ensures FirstChars(Cut(s, 64), s, 63)
  {
  }

  /** The end of a decommission: ok exactly when the node acknowledged and both stores let it go; either way the
      address has no berth afterwards, and no other entry changes. */
  lemma Outcomes(g: Gw, ev: Event, e: Env)
    requires DecomEnds(g, ev)
    ensures var g', j := Step(g, ev, e), g.decom.value;
      && |g'.out| == |g.out| + 1 && g'.flow == g.flow && g'.decom.None?
      && var m := g'.out[|g.out|];
      && m.DecomResp? && m.reqId == j.reqId && m.attempts == j.attempts
      && m.nodeId == (if j.node == "" then None else Some(j.node))
      && (m.status == DECOM_OK <==> ev.kind.SET_STATE? && !ev.err && e.deleteOk && (j.addr in g.berths ==> e.saveOk))
      && (m.why == Some(DELETE_FAIL) <==> ev.kind.SET_STATE? && !ev.err && !e.deleteOk)
      && (m.why == Some(NVS_WRITE) <==> ev.kind.SET_STATE? && !ev.err && e.deleteOk && j.addr in g.berths && !e.saveOk)
      && (m.status == DECOM_ORPHAN <==> ev.kind.CFG_TIMEOUT? || ev.err)
      && g'.berths == g.berths - {j.addr}
      && (forall a :: a != j.addr ==> (a in g'.nodes <==> a in g.nodes))
      && (j.addr in g'.nodes <==> j.addr in g.nodes && !e.deleteOk)
  {
    hide Step;
    StepMoves(g, ev, e);
    StepStores(g, ev, e);
  }

  // ----- when it ends -----

  predicate ResetEvent(ev: Event) { ev.CfgClient? && ev.op == OP_NODE_RESET && !ev.kind.PUBLISH? }

  /** An acknowledgement or an error, from whichever node. */
  predicate ResetReply(ev: Event) { ResetEvent(ev) && ev.kind.SET_STATE? }

  predicate ResetReplied(ins: seq<Input>) {
    ins != [] && (ResetReplied(ins[..|ins| - 1]) || ResetReply(ins[|ins| - 1].ev))
  }

  function ResetTimeouts(ins: seq<Input>): nat {
    if ins == [] then 0
    else
      var ev := ins[|ins| - 1].ev;
      ResetTimeouts(ins[..|ins| - 1]) + if ResetEvent(ev) && ev.kind.CFG_TIMEOUT? then 1 else 0
  }

  ghost predicate StaysOpen(g: Gw, ins: seq<Input>) {
    Run(g, ins).decom.Some? && (ins != [] ==> StaysOpen(g, ins[..|ins| - 1]))
  }

  /** An open decommission ends at the first reply to a node reset, or at the reset timeout that finds three attempts
      made, and at nothing else. In particular, when the stack refused to send its reset and no other is out, it stays
      open for ever. */
  lemma {:induction false} OpenExactlyUntilAnswered(g: Gw, ins: seq<Input>)
    requires g.decom.Some? && 1 <= g.decom.value.attempts <= 3
    ensures StaysOpen(g, ins) <==> !ResetReplied(ins) && g.decom.value.attempts + ResetTimeouts(ins) <= 3
    ensures StaysOpen(g, ins) ==>
      Run(g, ins).decom == Some(g.decom.value.(attempts := g.decom.value.attempts + ResetTimeouts(ins)))
  {
    if ins != [] {
      hide Step, NodesAfter, BerthsAfter, ArmedAfter;
      var k := |ins| - 1;
      OpenExactlyUntilAnswered(g, ins[..k]);
      StepStores(Run(g, ins[..k]), ins[k].ev, ins[k].env);
    }
  }

  // ----- whose acknowledgement it is -----

  /** What the open decommission has heard about node resets since it was taken. */
  ghost function Heard(g0: Gw, ins: seq<Input>): seq<Event> {
    if ins == [] then []
    else
      var k := |ins| - 1;
      var g, i := Run(g0, ins[..k]), ins[k];
      if NewJob(g, i) != [] then []
      else if g.decom.Some? && ResetEvent(i.ev) then Heard(g0, ins[..k]) + [i.ev]
      else Heard(g0, ins[..k])
  }

  ghost predicate OwnAck(heard: seq<Event>, addr: u16) {
    exists ev :: ev in heard && ResetReply(ev) && ev.from == addr && !ev.err
  }

  ghost predicate ForeignReply(heard: seq<Event>, addr: u16) {
    exists ev :: ev in heard && ResetReply(ev) && ev.from != addr
  }

  lemma {:induction false} HeardOnlyTimeouts(g0: Gw, ins: seq<Input>)
    requires Booted(g0) && Run(g0, ins).decom.Some?
    ensures forall ev :: ev in Heard(g0, ins) ==> !ResetReply(ev)
  {
    if ins != [] {
      hide Step, NodesAfter, BerthsAfter, ArmedAfter;
      var k := |ins| - 1;
      StepStores(Run(g0, ins[..k]), ins[k].ev, ins[k].env);
      if Run(g0, ins[..k]).decom.Some? { HeardOnlyTimeouts(g0, ins[..k]); }
    }
  }

  /** A decommission reported ok was acknowledged by its own node exactly when no other node's reply to a reset
      reached it while it was open: `on_cfg_client` never compares the sender. */
  lemma {:induction false} OkFromItsOwnNode(g0: Gw, ins: seq<Input>, i: Input)
    requires Booted(g0) && DecomEnds(Run(g0, ins), i.ev)
    requires DecomReport(Run(g0, ins), i.ev, i.env).status == DECOM_OK
    ensures var heard, addr := Heard(g0, ins) + [i.ev], Run(g0, ins).decom.value.addr;
      OwnAck(heard, addr) <==> !ForeignReply(heard, addr)
  {
    hide Run, Heard;
    HeardOnlyTimeouts(g0, ins);
    assert i.ev in Heard(g0, ins) + [i.ev];
  }

  /** And another node's does reach it: the reset that rolls a failed flow back goes to that flow's node, and when that
      node acknowledges it, the decommission is reported ok, whether or not its own node was ever heard. */
  lemma AnotherNodesAckEndsIt(g: Gw, e1: Env, e2: Env)
    requires g.flow.Some? && g.decom.Some? && g.flow.value.target != 0 && g.flow.value.target != g.decom.value.addr
    requires e2.deleteOk && e2.saveOk
    ensures var from := g.flow.value.target;
      var g1 := Step(g, Timer, e1);
      var ack := CfgClient(SET_STATE, OP_NODE_RESET, from, false);
      var g2 := Step(g1, ack, e2);
      && g1.cmds == g.cmds + [Cmd(OP_NODE_RESET, from, ROLLBACK, e1.resetOk)] && g1.decom == g.decom
      && ForeignReply([ack], g.decom.value.addr)
      && g2.cmds == g1.cmds && |g2.out| == |g1.out| + 1
      && g2.out[|g1.out|].DecomResp? && g2.out[|g1.out|].status == DECOM_OK
  {
    hide Step;
    var ack := CfgClient(SET_STATE, OP_NODE_RESET, g.flow.value.target, false);
    var g1 := Step(g, Timer, e1);
    StepCmds(g, Timer, e1);
    StepStores(g, Timer, e1);
    StepCmds(g1, ack, e2);
    Outcomes(g1, ack, e2);
    assert ack in [ack];
  }
}
