/** The reply ledger: every well-formed provision request is answered exactly once, under its own id. Needs nothing
    of the stack: it holds for every sequence of callbacks with every outcome (`dp_gateway_adopt.c`). */
module Ledger {
  import opened Common
  import opened GatewayModel

  predicate Final(m: Msg) { m.ProvOk? || m.ProvErr? }

  /** The ids of the final replies, as many times as each was answered. */
  ghost function Answered(out: seq<Msg>): multiset<string> {
    if out == [] then multiset{}
    else
      var m := out[|out| - 1];
      Answered(out[..|out| - 1]) + if Final(m) then multiset{Cut(m.reqId, REQ_ID_MAX)} else multiset{}
  }

  /** The ids of the well-formed requests handled. */
  ghost function Asked(ins: seq<Input>): multiset<string> {
    if ins == [] then multiset{} else Asked(ins[..|ins| - 1]) + AskedBy(ins[|ins| - 1].ev)
  }

  ghost function AskedBy(ev: Event): multiset<string> {
    if ev.Provision? && WellFormed(ev.req) then multiset{Cut(ev.req.reqId.value, REQ_ID_MAX)} else multiset{}
  }

  ghost function Pending(g: Gw): multiset<string> {
    if g.flow.Some? then multiset{Cut(g.flow.value.reqId, REQ_ID_MAX)} else multiset{}
  }

  /** What has been taken in: the requests answered and the one still pending. */
  ghost function Balance(g: Gw): multiset<string> { Answered(g.out) + Pending(g) }

  lemma {:induction false} AnsweredMore(out: seq<Msg>, m: Msg)
    ensures Answered(out + [m]) ==
      Answered(out) + if Final(m) then multiset{Cut(m.reqId, REQ_ID_MAX)} else multiset{}
  {
    assert (out + [m])[..|out|] == out;
  }

  /** Nothing final was said and the flow kept its id. */
  lemma Silent(g: Gw, g': Gw)
    requires g.flow.Some? == g'.flow.Some? && (g.flow.Some? ==> g.flow.value.reqId == g'.flow.value.reqId)
    requires g'.out == g.out || (|g'.out| == |g.out| + 1 && g'.out[..|g.out|] == g.out && !Final(g'.out[|g.out|]))
    ensures Balance(g') == Balance(g)
  {
    if g'.out != g.out {
      var m := g'.out[|g.out|];
      AnsweredMore(g.out, m);
      assert g'.out == g.out + [m];
    }
  }

  /** The pending request got its final reply. */
  lemma Replied(g: Gw, g': Gw, m: Msg)
    requires g.flow.Some? && g'.flow.None? && Final(m) && m.reqId == g.flow.value.reqId && g'.out == g.out + [m]
    ensures Balance(g') == Balance(g)
  {
    AnsweredMore(g.out, m);
  }

  lemma FinishErrSettles(g: Gw, e: Env, code: Code)
    requires g.flow.Some?
    ensures Balance(FinishErr(g, e, code)) == Balance(g)
  {
    Replied(g, FinishErr(g, e, code), ProvErr(g.flow.value.reqId, code));
  }

  lemma SendKeepsBalance(g: Gw, e: Env)
    requires g.flow.Some?
    ensures Balance(SendStep(g, e)) == Balance(g)
  {
    hide FinishErr, Balance;
    var f := g.flow.value;
    var sent := g.(cmds := g.cmds + [Cmd(f.step.Op(), f.target, CONFIG, e.sendOk)]);
    Silent(g, sent);
    FinishErrSettles(g, e, f.step.SendCode());
    FinishErrSettles(sent, e, f.step.SendCode());
  }

  lemma EmitKeepsBalance(g: Gw, p: Progress)
    ensures Balance(Emit(g, p)) == Balance(g) && Emit(g, p).flow == g.flow
  {
    hide Balance;
    Silent(g, Emit(g, p));
  }

  lemma AdvanceKeepsBalance(g: Gw, e: Env)
    requires g.flow.Some?
    ensures Balance(Advance(g, e)) == Balance(g)
  {
    hide SendStep, Balance;
    var f := g.flow.value.(step := g.flow.value.step.Next(), attempts := 1);
    var g1 := g.(flow := Some(f));
    Silent(g, g1);
    if f.step == DONE {
      var g2 := Emit(g1, COMPLETE);
      EmitKeepsBalance(g1, COMPLETE);
      assert FinishOk(g1, e).out == g2.out + [ProvOk(f.reqId, f.target, g.devKey)];
      Replied(g2, FinishOk(g1, e), ProvOk(f.reqId, f.target, g.devKey));
    } else {
      EmitKeepsBalance(g1, f.step.Name());
      SendKeepsBalance(Emit(g1, f.step.Name()), e);
    }
  }

  lemma CompleteKeepsBalance(g: Gw, addr: u16, uuid: Uuid, key: Key, e: Env)
    ensures Balance(OnProvComplete(g, addr, uuid, key, e)) == Balance(g)
  {
    hide Balance, Advance, Emit;
    if g.flow.Some? {
      var f := g.flow.value.(target := addr);
      var g1 := g.(nodes := g.nodes[addr := Node(uuid, key)], flow := Some(f), devKey := key);
      Silent(g, g1);
      EmitKeepsBalance(g1, PB_ADV_DONE);
      AdvanceKeepsBalance(Emit(g1, PB_ADV_DONE), e);
    } else {
      Silent(g, OnProvComplete(g, addr, uuid, key, e));
    }
  }

  lemma CfgKeepsBalance(g: Gw, kind: CfgKind, op: Opcode, err: bool, e: Env)
    ensures Balance(OnCfg(g, kind, op, err, e)) == Balance(g)
  {
    hide Balance, Advance, FinishErr, SendStep;
    if g.decom.Some? && op == OP_NODE_RESET {
      Silent(g, OnCfg(g, kind, op, err, e));
    } else if g.flow.Some? {
      var again := g.(flow := Some(g.flow.value.(attempts := g.flow.value.attempts + 1)));
      Silent(g, again);
      SendKeepsBalance(again, e);
      FinishErrSettles(g, e, CFG_FAIL);
      AdvanceKeepsBalance(g, e);
    }
  }

  lemma CutTwice(s: string)
    ensures Cut(Cut(s, REQ_ID_MAX), REQ_ID_MAX) == Cut(s, REQ_ID_MAX)
  {
  }

  /** A final reply to a request that was never in flight. */
  lemma Rejected(g: Gw, m: Msg)
    requires Final(m)
    ensures Balance(g.(out := g.out + [m])) == Balance(g) + multiset{Cut(m.reqId, REQ_ID_MAX)}
  {
    hide Answered, Cut;
    AnsweredMore(g.out, m);
  }

  lemma Begun(g: Gw, g': Gw)
    requires g.flow.None? && g'.flow.Some?
    requires g'.out == g.out + [ProvState(g'.flow.value.reqId, STARTED)]
    ensures Balance(g') == Balance(g) + multiset{Cut(g'.flow.value.reqId, REQ_ID_MAX)}
  {
    hide Answered, Cut;
    AnsweredMore(g.out, ProvState(g'.flow.value.reqId, STARTED));
  }

  lemma ProvisionKeepsBalance(g: Gw, r: ProvReq, e: Env)
    ensures Balance(OnProvision(g, r, e)) == Balance(g) + AskedBy(Provision(r))
  {
    hide Balance, HasUuid, Cut;
    if WellFormed(r) {
      var id := r.reqId.value;
      var kept := Cut(id, REQ_ID_MAX);
      CutTwice(id);
      if Refusal(g, r).Some? {
        Rejected(g, ProvErr(id, Refusal(g, r).value));
      } else if !Starts(r, e) {
        Rejected(g, ProvErr(kept, START_FAIL));
      } else {
        Begun(g, OnProvision(g, r, e));
      }
    }
  }

  /** One callback: what it asks is pending or answered afterwards, and nothing else changes. */
  lemma StepKeepsBalance(g: Gw, ev: Event, e: Env)
    ensures Balance(Step(g, ev, e)) == Balance(g) + AskedBy(ev)
  {
    hide Balance, FinishErr, Emit, OnProvComplete, OnCfg, OnProvision;
    match ev
    case Provision(r) => ProvisionKeepsBalance(g, r, e);
    case Decommission(r) => Silent(g, OnDecommission(g, r, e));
    case LinkOpen => EmitKeepsBalance(g, LINK_OPEN);
    case ProvComplete(addr, uuid, key) => CompleteKeepsBalance(g, addr, uuid, key, e);
    case CfgClient(kind, op, _, err) => CfgKeepsBalance(g, kind, op, err, e);
    case Timer => if g.flow.Some? { FinishErrSettles(g, e, PROV_TIMEOUT); }
    case LinkClose => if g.flow.Some? { FinishErrSettles(g, e, LINK_CLOSE); }
    case OtherProvEvent =>
  }

  /** In every run: the requests handled are the requests answered plus the one in flight, if any, each under its
      own id (ids are compared up to the 63 characters the gateway keeps). */
  lemma {:induction false} EveryRequestAnsweredOnce(g0: Gw, ins: seq<Input>)
    requires Booted(g0)
    ensures var g := Run(g0, ins);
      && Asked(ins) == Answered(g.out) + Pending(g)
      && |Asked(ins)| == |Answered(g.out)| + if g.flow.Some? then 1 else 0
  {
    if ins != [] {
      var k := |ins| - 1;
      EveryRequestAnsweredOnce(g0, ins[..k]);
      StepKeepsBalance(Run(g0, ins[..k]), ins[k].ev, ins[k].env);
    }
  }

  /** What a request with a req_id and a uuid comes to, in the request's and the database's own fields. It starts a flow
      exactly when none is in flight, both fields decode, no node holds the UUID and the stack takes it on; otherwise it
      gets one error, whose code names the first of these that failed, and nothing else changes. */
  lemma RequestStartsOrIsRefused(g: Gw, r: ProvReq, e: Env)
    requires r.reqId.Some? && r.uuid != Missing
    ensures var g', id := Step(g, Provision(r), e), r.reqId.value;
      var isNew := r.uuid.Good? && forall a :: a in g.nodes ==> g.nodes[a].uuid != r.uuid.value;
      var takenOn := (r.oob.Good? ==> e.oobOk) && e.matchOk;
      && |g'.out| == |g.out| + 1 && g.out <= g'.out
      && var m := g'.out[|g.out|];
      if g.flow.None? && isNew && r.oob != Bad && takenOn then
        && g'.flow.Some? && m == ProvState(g'.flow.value.reqId, STARTED)
        && Begins(r, g'.flow.value) && g'.armed == Some(r.uuid.value)
        && g' == g.(flow := g'.flow, armed := g'.armed, out := g'.out)
      else
        && m.ProvErr? && g' == g.(out := g'.out)
        && (m.code == BUSY <==> g.flow.Some?)
        && (m.code == BAD_UUID <==> g.flow.None? && r.uuid.Bad?)
        && (m.code == BAD_OOB <==> g.flow.None? && r.uuid.Good? && r.oob.Bad?)
        && (m.code == ALREADY_PROVISIONED <==>
              && g.flow.None? && r.uuid.Good? && !r.oob.Bad?
              && exists a :: a in g.nodes && g.nodes[a].uuid == r.uuid.value)
        && (m.code == START_FAIL <==> g.flow.None? && isNew && !r.oob.Bad? && !takenOn)
        && if m.code == START_FAIL then FirstChars(m.reqId, id, 63) else m.reqId == id
  {
    hide Cut, FirstChars;
    FitsRecord(r);
  }

  /** `c` is what fits of `s` in `n` characters. */
  predicate FirstChars(c: string, s: string, n: nat) { c <= s && |c| == if |s| < n then |s| else n }

  /** A new flow: the request's texts cut to their fields, its UUID, at its first step and without a node yet. */
  predicate Begins(r: ProvReq, f: Flow) {
    && r.reqId.Some? && r.uuid.Good?
    && FirstChars(f.reqId, r.reqId.value, 63) && FirstChars(f.berth, r.berth, 47) && FirstChars(f.node, r.node, 39)
    && f.uuid == r.uuid.value && f.step == IDLE && f.attempts == 0 && f.target == 0
  }

  lemma FitsRecord(r: ProvReq)
    ensures r.reqId.Some? ==> FirstChars(Cut(r.reqId.value, 64), r.reqId.value, 63)
    ensures FirstChars(Cut(r.berth, 48), r.berth, 47) && FirstChars(Cut(r.node, 40), r.node, 39)
  {
  }

  /** A request without a req_id or a uuid is ignored. */
  lemma MalformedRequestIsIgnored(g: Gw, r: ProvReq, e: Env)
    requires r.reqId.None? || r.uuid.Missing?
    ensures Step(g, Provision(r), e) == g
  {
  }
}
