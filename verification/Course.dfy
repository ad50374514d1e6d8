/** The course of a flow in its own fields: what each event makes of it, why it ends, and which commands it hands to the
    stack in which order (`on_cfg_client`, `cfg_step_advance`, `cfg_step_redo`, `cfg_do_current_step`). */
module Course {
  import opened Common
  import opened GatewayModel
  import opened Moves
  import opened FlowPath

  // ----- one event -----

  /** Reports the provisioning branch looks at. */
  predicate Reply(g: Gw, ev: Event) {
    ev.CfgClient? && ev.kind != PUBLISH && !(g.decom.Some? && ev.op == OP_NODE_RESET)
  }

  predicate GoesOn(g: Gw, ev: Event) { ev.ProvComplete? || (Reply(g, ev) && ev.kind == SET_STATE && !ev.err) }

  predicate TriesAgain(g: Gw, ev: Event) {
    g.flow.Some? && Reply(g, ev) && ev.kind == CFG_TIMEOUT && 1 <= g.flow.value.attempts <= 2
  }

  /** The last thing said about a flow that is over. */
  function Epitaph(g': Gw): Option<Msg> {
    if g'.flow.None? && g'.out != [] then Some(g'.out[|g'.out| - 1]) else None
  }

  /** Why a flow in flight ends, and what becomes of it if it does not. */
  lemma FlowEndsExactly(g: Gw, ev: Event, e: Env)
    requires g.flow.Some? && Resting(g)
    ensures var f, g' := g.flow.value, Step(g, ev, e);
      var s, end := f.step, Epitaph(g');
      var target := if ev.ProvComplete? then ev.addr else f.target;
      && (end == Some(ProvErr(f.reqId, PROV_TIMEOUT)) <==> ev.Timer?)
      && (end == Some(ProvErr(f.reqId, LINK_CLOSE)) <==> ev.LinkClose? && s == IDLE)
      && (end == Some(ProvErr(f.reqId, CFG_FAIL)) <==>
            Reply(g, ev) && if ev.kind == SET_STATE then ev.err else s == IDLE || f.attempts == 3)
      && (end == Some(ProvErr(f.reqId, APPKEY_SEND)) <==>
            !e.sendOk && ((GoesOn(g, ev) && s == IDLE) || (TriesAgain(g, ev) && s == APP_KEY_ADD)))
      && (end == Some(ProvErr(f.reqId, BIND_SEND)) <==>
            !e.sendOk && ((GoesOn(g, ev) && s == APP_KEY_ADD) || (TriesAgain(g, ev) && s == MODEL_APP_BIND)))
      && (end == Some(ProvErr(f.reqId, PUBSET_SEND)) <==>
            !e.sendOk && ((GoesOn(g, ev) && s == MODEL_APP_BIND) || (TriesAgain(g, ev) && s == MODEL_PUB_SET)))
      && (end == Some(ProvOk(f.reqId, target, if ev.ProvComplete? then ev.key else g.devKey)) <==>
            GoesOn(g, ev) && s == MODEL_PUB_SET)
      && (end == None ==>
            g'.flow == Some(if GoesOn(g, ev) then f.(step := After(s), attempts := 1, target := target)
                            else if TriesAgain(g, ev) then f.(attempts := f.attempts + 1) else f))
  {
    hide Step, Cut, HasUuid;
    StepMoves(g, ev, e);
  }

  function After(s: CfgStep): CfgStep {
    if s == IDLE then APP_KEY_ADD else if s == APP_KEY_ADD then MODEL_APP_BIND else MODEL_PUB_SET
  }

  /** Events with little or no effect. */
  lemma QuietEvents(g: Gw, ev: Event, e: Env)
    ensures ev.OtherProvEvent? ==> Step(g, ev, e) == g
    ensures ev.LinkOpen? ==>
      Step(g, ev, e) == g.(out := if g.flow.Some? then g.out + [ProvState(g.flow.value.reqId, LINK_OPEN)] else g.out)
    ensures ev.CfgClient? && ev.kind == PUBLISH ==> Step(g, ev, e) == g
    ensures ev.LinkClose? && g.flow.Some? && g.flow.value.step != IDLE ==> Step(g, ev, e) == g
    ensures g.flow.None? && (ev.Timer? || ev.LinkClose? || Reply(g, ev)) ==> Step(g, ev, e) == g
    // a completion nobody asked for
    ensures g.flow.None? && ev.ProvComplete? ==>
      var nodes := if e.deleteOk then g.nodes - {ev.addr} else g.nodes[ev.addr := Node(ev.uuid, ev.key)];
      Step(g, ev, e) == g.(nodes := nodes)
  {
    if g.flow.None? && ev.ProvComplete? {
      assert g.nodes[ev.addr := Node(ev.uuid, ev.key)] - {ev.addr} == g.nodes - {ev.addr};
    }
  }

  // ----- whole runs -----

  function ConfigOnly(cmds: seq<Cmd>): seq<Cmd> {
    if cmds == [] then []
    else ConfigOnly(cmds[..|cmds| - 1]) + if cmds[|cmds| - 1].origin.CONFIG? then [cmds[|cmds| - 1]] else []
  }

  /** What a callback adds to the commands handed to the stack. */
  ghost function NewCmds(g: Gw, i: Input): seq<Cmd> {
    var cmds := Step(g, i.ev, i.env).cmds;
    if g.cmds <= cmds then cmds[|g.cmds|..] else []
  }

  /** The configuration commands handed to the stack since the last flow began, taken or not. */
  ghost function Orders(g0: Gw, ins: seq<Input>): seq<Cmd> {
    if ins == [] then []
    else
      var k := |ins| - 1;
      Ordered(Run(g0, ins[..k]), ins[k], Orders(g0, ins[..k]))
  }

  ghost function Ordered(g: Gw, i: Input, orders: seq<Cmd>): seq<Cmd> {
    if MoveOf(g, i.ev, i.env).Begin? then [] else orders + ConfigOnly(NewCmds(g, i))
  }

  /** How often each command of the last flow was handed over, in order. */
  ghost function Tried(g0: Gw, ins: seq<Input>): seq<nat> {
    if ins == [] then []
    else
      var k := |ins| - 1;
      TriedAfter(Run(g0, ins[..k]), ins[k], Tried(g0, ins[..k]))
  }

  ghost function TriedAfter(g: Gw, i: Input, tried: seq<nat>): seq<nat> {
    if MoveOf(g, i.ev, i.env).Begin? then []
    else if Tries(g, i.ev).None? then tried
    else if Advances(g, i.ev) then tried + [1]
    else if tried == [] then [] else tried[..|tried| - 1] + [tried[|tried| - 1] + 1]
  }

  function Ops(cmds: seq<Cmd>): (ops: seq<Opcode>)
    ensures |ops| == |cmds|
  {
    seq(|cmds|, j requires 0 <= j < |cmds| => cmds[j].op)
  }

  function Repeat(op: Opcode, n: nat): (ops: seq<Opcode>)
    ensures |ops| == n && forall j :: 0 <= j < n ==> ops[j] == op
  {
    seq(n, _ => op)
  }

  /** Every command in its turn, as often as `tried` says. */
  function Script(tried: seq<nat>): seq<Opcode>
    requires |tried| <= 3
  {
    if tried == [] then []
    else var k := |tried| - 1; Script(tried[..k]) + Repeat(COMMANDS[k], tried[k])
  }

  /** The address given by the last completion among `t`. */
  function LastAssigned(t: seq<Event>): u16 {
    if t == [] then 0
    else if t[|t| - 1].ProvComplete? then t[|t| - 1].addr
    else LastAssigned(t[..|t| - 1])
  }

  ghost predicate InTurn(g: Gw, t: seq<Event>, tried: seq<nat>, orders: seq<Cmd>) {
    && |tried| <= 3 && OneToThree(tried)
    && Ops(orders) == Script(tried)
    && |orders| <= |t| && (forall j :: 0 <= j < |orders| ==>
          orders[j].addr == LastAssigned(t[..j + 1]) && (j + 1 < |orders| ==> orders[j].taken))
    && (g.flow.Some? ==>
          var f := g.flow.value;
          && |tried| == f.step.Index() && (tried != [] ==> tried[|tried| - 1] == f.attempts)
          && |orders| == |t| && f.target == LastAssigned(t)
          && (orders != [] ==> orders[|orders| - 1].taken))
  }

  lemma StepAdds(g: Gw, i: Input)
    ensures NewCmds(g, i) == TryCmds(g, i.ev, i.env) + BackCmds(g, i.ev, i.env) + ResetCmds(g, i.ev, i.env)
    ensures ConfigOnly(NewCmds(g, i)) == TryCmds(g, i.ev, i.env)
  {
    hide Step, MoveOf, Tries, Resets;
    StepCmds(g, i.ev, i.env);
    var try, back, reset := TryCmds(g, i.ev, i.env), BackCmds(g, i.ev, i.env), ResetCmds(g, i.ev, i.env);
    assert g.cmds + (try + back) + reset == g.cmds + (try + back + reset);
    ConfigOfThree(try, back, reset);
  }

  lemma {:induction false} ConfigOfThree(try: seq<Cmd>, back: seq<Cmd>, reset: seq<Cmd>)
    requires |try| <= 1 && |back| <= 1 && |reset| <= 1
    requires forall c :: c in try ==> c.origin.CONFIG?
    requires forall c :: c in back + reset ==> !c.origin.CONFIG?
    ensures ConfigOnly(try + back + reset) == try
  {
    ConfigOnlyMore(try + back, reset);
    ConfigOnlyMore(try, back);
    ConfigOnlyMore([], try);
    assert [] + try == try;
  }

  lemma ConfigOnlyMore(cmds: seq<Cmd>, more: seq<Cmd>)
    requires |more| <= 1
    ensures ConfigOnly(cmds + more) == ConfigOnly(cmds) + if more != [] && more[0].origin.CONFIG? then more else []
  {
    if more == [] {
      assert cmds + more == cmds;
    } else {
      assert (cmds + more)[..|cmds|] == cmds;
    }
  }

  lemma {:induction false} ScriptMore(before: seq<nat>, n: nat)
    requires |before| <= 2
    ensures Script(before + [n]) == Script(before) + Repeat(COMMANDS[|before|], n)
  {
    assert (before + [n])[..|before|] == before;
  }

  lemma RepeatMore(op: Opcode, n: nat)
    ensures Repeat(op, n + 1) == Repeat(op, n) + [op] && Repeat(op, 1) == [op]
  {
  }

  lemma {:induction false} ScriptAgain(before: seq<nat>, n: nat)
    requires |before| <= 2
    ensures Script(before + [n + 1]) == Script(before + [n]) + [COMMANDS[|before|]]
  {
    hide Script, Repeat;
    var op := COMMANDS[|before|];
    ScriptMore(before, n);
    ScriptMore(before, n + 1);
    RepeatMore(op, n);
    assert Script(before) + (Repeat(op, n) + [op]) == Script(before) + Repeat(op, n) + [op];
  }

  lemma OpsMore(cmds: seq<Cmd>, c: Cmd)
    ensures Ops(cmds + [c]) == Ops(cmds) + [c.op]
  {
  }

  lemma {:induction false} AssignedMore(t: seq<Event>, ev: Event)
    ensures LastAssigned(t + [ev]) == if ev.ProvComplete? then ev.addr else LastAssigned(t)
  {
    assert (t + [ev])[..|t|] == t;
  }

  /** One more order, made on the event that came last. */
  lemma {:induction false} OneMore(t: seq<Event>, ev: Event, orders: seq<Cmd>, c: Cmd)
    requires |orders| == |t| && c.addr == LastAssigned(t + [ev]) && (orders != [] ==> orders[|orders| - 1].taken)
    requires forall j :: 0 <= j < |orders| ==>
      orders[j].addr == LastAssigned(t[..j + 1]) && (j + 1 < |orders| ==> orders[j].taken)
    ensures var os := orders + [c];
      forall j :: 0 <= j < |os| ==> os[j].addr == LastAssigned((t + [ev])[..j + 1]) && (j + 1 < |os| ==> os[j].taken)
  {
    hide LastAssigned;
    var os, t' := orders + [c], t + [ev];
    forall j | 0 <= j < |os| ensures os[j].addr == LastAssigned(t'[..j + 1]) && (j + 1 < |os| ==> os[j].taken) {
      if j < |t| { assert t'[..j + 1] == t[..j + 1]; } else { assert t'[..j + 1] == t'; }
    }
  }

  /** And an event without one. */
  lemma NoMore(t: seq<Event>, ev: Event, orders: seq<Cmd>)
    requires |orders| <= |t| && forall j :: 0 <= j < |orders| ==> orders[j].addr == LastAssigned(t[..j + 1])
    ensures forall j :: 0 <= j < |orders| ==> orders[j].addr == LastAssigned((t + [ev])[..j + 1])
  {
    hide LastAssigned;
    forall j | 0 <= j < |orders| ensures orders[j].addr == LastAssigned((t + [ev])[..j + 1]) {
      assert (t + [ev])[..j + 1] == t[..j + 1];
    }
  }

  predicate OneToThree(tried: seq<nat>) { forall k :: 0 <= k < |tried| ==> 1 <= tried[k] <= 3 }

  lemma {:induction false} OnwardInScript(tried: seq<nat>)
    requires |tried| <= 2 && OneToThree(tried)
    ensures OneToThree(tried + [1]) && Script(tried + [1]) == Script(tried) + [COMMANDS[|tried|]]
  {
    hide Script;
    ScriptMore(tried, 1);
    RepeatMore(COMMANDS[|tried|], 0);
  }

  lemma AgainInScript(tried: seq<nat>)
    requires 1 <= |tried| <= 3 && OneToThree(tried) && tried[|tried| - 1] < 3
    ensures var after := tried[..|tried| - 1] + [tried[|tried| - 1] + 1];
      OneToThree(after) && Script(after) == Script(tried) + [COMMANDS[|tried| - 1]]
  {
    hide Script;
    var k := |tried| - 1;
    assert tried == tried[..k] + [tried[k]];
    ScriptAgain(tried[..k], tried[k]);
  }

  /** The command a delivered event tries is the next one in the script. */
  lemma {:induction false} TryIsNext(g: Gw, i: Input, tried: seq<nat>)
    requires g.flow.Some? && Resting(g) && Tries(g, i.ev).Some?
    requires |tried| == g.flow.value.step.Index() && (tried != [] ==> tried[|tried| - 1] == g.flow.value.attempts)
    requires |tried| <= 3 && OneToThree(tried)
    ensures var after := TriedAfter(g, i, tried);
      && |after| == Tries(g, i.ev).value.Index() <= 3 && after != [] && OneToThree(after)
      && after[|after| - 1] == (if Advances(g, i.ev) then 1 else g.flow.value.attempts + 1)
      && Script(after) == Script(tried) + [Tries(g, i.ev).value.Op()]
  {
    hide Script, HasUuid, OneToThree;
    OpOfStep(Tries(g, i.ev).value);
    if Advances(g, i.ev) { OnwardInScript(tried); } else { AgainInScript(tried); }
  }

  lemma TryInTurn(g: Gw, i: Input, t: seq<Event>, tried: seq<nat>, orders: seq<Cmd>)
    requires InTurn(g, t, tried, orders) && Resting(g) && Tries(g, i.ev).Some?
    ensures InTurn(Step(g, i.ev, i.env), Followed(g, i, t), TriedAfter(g, i, tried), Ordered(g, i, orders))
  {
    hide OneToThree;
    hide Step, Said, NewCmds, Script, LastAssigned, Ops, TriedAfter, Tries, Advances, Delivered, Resting, MoveOf;
    hide FlowAfter;
    var c := TryCmds(g, i.ev, i.env)[0];
    TryMoves(g, i);
    StepMoves(g, i.ev, i.env);
    StepAdds(g, i);
    TryIsNext(g, i, tried);
    AssignedMore(t, i.ev);
    OneMore(t, i.ev, orders, c);
    OpsMore(orders, c);
  }

  lemma TryMoves(g: Gw, i: Input)
    requires Tries(g, i.ev).Some?
    ensures Delivered(g, i.ev) && !MoveOf(g, i.ev, i.env).Begin?
    ensures FlowAfter(g, i.ev, i.env) ==
      if !i.env.sendOk then None
      else Some(g.flow.value.(step := Tries(g, i.ev).value, target := Target(g, i.ev),
                              attempts := if Advances(g, i.ev) then 1 else g.flow.value.attempts + 1))
  {
  }

  lemma RestInTurn(g: Gw, i: Input, t: seq<Event>, tried: seq<nat>, orders: seq<Cmd>)
    requires InTurn(g, t, tried, orders) && Resting(g) && Tries(g, i.ev).None?
    ensures InTurn(Step(g, i.ev, i.env), Followed(g, i, t), TriedAfter(g, i, tried), Ordered(g, i, orders))
  {
    hide Step, Said, NewCmds, Script, LastAssigned, Ops, Cut, HasUuid, OneToThree;
    StepMoves(g, i.ev, i.env);
    StepAdds(g, i);
    assert orders + [] == orders;
    NoMore(t, i.ev, orders);
    Unordered();
  }

  lemma StepInTurn(g: Gw, i: Input, t: seq<Event>, tried: seq<nat>, orders: seq<Cmd>)
    requires InTurn(g, t, tried, orders) && Resting(g)
    ensures InTurn(Step(g, i.ev, i.env), Followed(g, i, t), TriedAfter(g, i, tried), Ordered(g, i, orders))
  {
    hide *;
    if Tries(g, i.ev).Some? { TryInTurn(g, i, t, tried, orders); } else { RestInTurn(g, i, t, tried, orders); }
  }

  lemma Unordered()
    ensures Ops([]) == Script([]) && LastAssigned([]) == 0 && OneToThree([])
  {
  }

  /** In every run, whatever the stack does: the commands handed over since the last flow began are App Key Add, then
      Model App Bind, then Model Publication Set, each one to three times in a row. They go out one for each event
      delivered to the flow, to the address the latest completion gave; all but the last were taken, and the last one
      too as long as the flow lives. */
  lemma {:induction false} OrdersAreInTurn(g0: Gw, ins: seq<Input>)
    requires Booted(g0)
    ensures InTurn(Run(g0, ins), Trail(g0, ins), Tried(g0, ins), Orders(g0, ins))
  {
    if ins == [] {
      Unordered();
    } else {
      hide InTurn, Step, Followed, TriedAfter, Ordered;
      var k := |ins| - 1;
      OrdersAreInTurn(g0, ins[..k]);
      RunRests(g0, ins[..k]);
      StepInTurn(Run(g0, ins[..k]), ins[k], Trail(g0, ins[..k]), Tried(g0, ins[..k]), Orders(g0, ins[..k]));
    }
  }

  // ----- spelled out -----

  function Nth(n: seq<nat>, k: nat): nat { if k < |n| then n[k] else 0 }

  lemma {:induction false} ScriptSpelled(n: seq<nat>)
    requires |n| <= 3
    ensures Script(n) ==
      Repeat(OP_APP_KEY_ADD, Nth(n, 0)) + Repeat(OP_MODEL_APP_BIND, Nth(n, 1)) + Repeat(OP_MODEL_PUB_SET, Nth(n, 2))
  {
    var a, b, c := Repeat(OP_APP_KEY_ADD, Nth(n, 0)), Repeat(OP_MODEL_APP_BIND, Nth(n, 1)),
      Repeat(OP_MODEL_PUB_SET, Nth(n, 2));
    if n == [] {
      assert a + b + c == [];
    } else {
      hide Script, Repeat;
      var k := |n| - 1;
      ScriptSpelled(n[..k]);
      assert n == n[..k] + [n[k]];
      ScriptMore(n[..k], n[k]);
      if k == 0 { Padding(a, b, c); } else if k == 1 { Padding(a, b, c); }
    }
  }

  lemma Padding(a: seq<Opcode>, b: seq<Opcode>, c: seq<Opcode>)
    ensures b == [] && c == [] ==> a + b + c == a
    ensures c == [] ==> a + b + c == a + b
  {
  }

  /** The trail starts with the flow's one completion. */
  ghost predicate OneCompletion(g: Gw, t: seq<Event>) {
    g.flow.Some? ==>
      && (t == [] <==> g.flow.value.step == IDLE)
      && (t != [] ==> t[0].ProvComplete?)
      && forall j :: 0 < j < |t| ==> !t[j].ProvComplete?
  }

  lemma StepKeepsOneCompletion(g: Gw, i: Input, t: seq<Event>)
    requires OneCompletion(g, t) && Resting(g) && Matched(g, i.ev)
    ensures OneCompletion(Step(g, i.ev, i.env), Followed(g, i, t))
  {
    hide Step, Said, Cut, HasUuid;
    StepMoves(g, i.ev, i.env);
  }

  lemma {:induction false} MatchedHasOneCompletion(g0: Gw, ins: seq<Input>)
    requires Booted(g0) && MatchedSoFar(g0, ins)
    ensures OneCompletion(Run(g0, ins), Trail(g0, ins))
  {
    if ins != [] {
      hide OneCompletion, Step, Followed, Matched;
      var k := |ins| - 1;
      var g, i := Run(g0, ins[..k]), ins[k];
      if MoveOf(g, i.ev, i.env).Begin? {
        JustBegun(g, i, Trail(g0, ins[..k]));
      } else {
        MatchedHasOneCompletion(g0, ins[..k]);
        RunRests(g0, ins[..k]);
        StepKeepsOneCompletion(g, i, Trail(g0, ins[..k]));
      }
    }
  }

  lemma JustBegun(g: Gw, i: Input, t: seq<Event>)
    requires MoveOf(g, i.ev, i.env).Begin?
    ensures OneCompletion(Step(g, i.ev, i.env), Followed(g, i, t))
  {
    hide Step, Said, Cut, HasUuid;
    StepMoves(g, i.ev, i.env);
  }

  lemma {:induction false} OneAddress(t: seq<Event>, n: nat)
    requires 1 <= n <= |t| && t[0].ProvComplete? && forall j :: 0 < j < |t| ==> !t[j].ProvComplete?
    ensures LastAssigned(t[..n]) == t[0].addr
  {
    if n > 1 {
      OneAddress(t, n - 1);
      assert t[..n][..n - 1] == t[..n - 1];
    }
  }

  /** In every run: App Key Add one to three times, then Model App Bind one to three times, then Model Publication Set
      one to three times, as far as the flow got; and when only its own node's answers reached the flow in flight, all
      of them to the address its completion gave. */
  lemma {:induction false} CommandsInOrder(g0: Gw, ins: seq<Input>)
    requires Booted(g0)
    ensures var orders, t, n := Orders(g0, ins), Trail(g0, ins), Tried(g0, ins);
      && |n| <= 3 && (forall k :: 0 <= k < |n| ==> 1 <= n[k] <= 3)
      && Ops(orders) ==
           Repeat(OP_APP_KEY_ADD, Nth(n, 0)) + Repeat(OP_MODEL_APP_BIND, Nth(n, 1))
           + Repeat(OP_MODEL_PUB_SET, Nth(n, 2))
      && (Run(g0, ins).flow.Some? && MatchedSoFar(g0, ins) ==>
            forall j :: 0 <= j < |orders| ==> orders[j].addr == Assigned(t) && orders[j].taken)
  {
    hide Run, Trail, Tried, Orders, Booted, MatchedSoFar, LastAssigned, Repeat, Script;
    var g, orders, t := Run(g0, ins), Orders(g0, ins), Trail(g0, ins);
    OrdersAreInTurn(g0, ins);
    ScriptSpelled(Tried(g0, ins));
    if g.flow.Some? && MatchedSoFar(g0, ins) {
      MatchedHasOneCompletion(g0, ins);
      forall j | 0 <= j < |orders| ensures orders[j].addr == Assigned(t) && orders[j].taken { OneAddress(t, j + 1); }
    }
  }

  /** A flow that reports ok had all three sent, and every one taken. */
  lemma {:induction false} OkAfterThreeCommands(g0: Gw, ins: seq<Input>, i: Input)
    requires Booted(g0) && MoveOf(Run(g0, ins), i.ev, i.env).Win?
    ensures var orders, n := Orders(g0, ins), Tried(g0, ins);
      && |n| == 3 && (forall k :: 0 <= k < 3 ==> 1 <= n[k] <= 3) && (forall c :: c in orders ==> c.taken)
      && Ops(orders) ==
           Repeat(OP_APP_KEY_ADD, n[0]) + Repeat(OP_MODEL_APP_BIND, n[1]) + Repeat(OP_MODEL_PUB_SET, n[2])
  {
    hide Run, Trail, Tried, Orders, Booted, LastAssigned, Repeat, Script;
    OrdersAreInTurn(g0, ins);
    RunRests(g0, ins);
    CommandsInOrder(g0, ins);
  }
}
