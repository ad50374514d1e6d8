/** Real time at the gateway: every configuration message is answered or timed out within its 8 s, so a flow
    configures its node within 72 s. */
module Timing {
  import opened GatewayModel
  import opened Moves

  const MSG_TIMEOUT_MS := 8000
  const MAX_SENDS := 9
  const CONFIG_MS := 72_000

  /** When the flow in flight began to configure its node, when its last command went out, and how many commands had
      gone out before it began. */
  datatype Clock = Clock(start: nat, last: nat, base: nat)

  function Configs(cmds: seq<Cmd>): nat {
    if cmds == [] then 0
    else Configs(cmds[..|cmds| - 1]) + if cmds[|cmds| - 1].origin.CONFIG? then 1 else 0
  }

  predicate Configuring(g: Gw) { g.flow.Some? && g.flow.value.step.Sends() }

  function Ticked(c: Clock, g: Gw, i: Input, now: nat): Clock {
    match MoveOf(g, i.ev, i.env)
    case Begin => Clock(now, now, Configs(g.cmds))
    case Forward => if g.flow.value.step == IDLE then c.(start := now, last := now) else c.(last := now)
    case Again => c.(last := now)
    case _ => c
  }

  /** `at[k]` is the time of the callback `ins[k]`, in milliseconds. */
  ghost function ClockOf(g0: Gw, ins: seq<Input>, at: seq<nat>): Clock
    requires |ins| == |at|
  {
    if ins == [] then Clock(0, 0, Configs(g0.cmds))
    else
      var k := |ins| - 1;
      Ticked(ClockOf(g0, ins[..k], at[..k]), Run(g0, ins[..k]), ins[k], at[k])
  }

  /** The stack gives every command it took an answer or a timeout within 8 s: no callback comes later than that
      while one is outstanding. */
  ghost predicate Prompt(g0: Gw, ins: seq<Input>, at: seq<nat>)
    requires |ins| == |at|
  {
    ins != [] ==>
      var k := |ins| - 1;
      && Prompt(g0, ins[..k], at[..k])
      && (Configuring(Run(g0, ins[..k])) ==> at[k] <= ClockOf(g0, ins[..k], at[..k]).last + MSG_TIMEOUT_MS)
  }

  /** The commands of the flow in flight: at most three for each step it has reached. */
  ghost predicate FewCommands(g: Gw, base: nat) {
    && base <= Configs(g.cmds) <= base + MAX_SENDS
    && (g.flow.Some? ==>
          var f, n := g.flow.value, Configs(g.cmds) - base;
          if f.step == IDLE then n == 0 else n <= CFG_MAX_ATTEMPTS * (f.step.Index() - 1) + f.attempts)
  }

  ghost predicate OnTime(g: Gw, c: Clock) {
    && FewCommands(g, c.base)
    && (g.flow.Some? && g.flow.value.step != IDLE ==>
          c.last <= c.start + MSG_TIMEOUT_MS * (Configs(g.cmds) - c.base - 1))
  }

  lemma {:induction false} ConfigsMore(cmds: seq<Cmd>, more: seq<Cmd>)
    ensures Configs(cmds + more) == Configs(cmds) + Configs(more)
  {
    if more == [] {
      assert cmds + more == cmds;
    } else {
      var k := |more| - 1;
      ConfigsMore(cmds, more[..k]);
      assert (cmds + more)[..|cmds| + k] == cmds + more[..k];
    }
  }

  lemma {:induction false} CountOne(cmds: seq<Cmd>)
    requires |cmds| <= 1
    ensures Configs(cmds) == if cmds != [] && cmds[0].origin.CONFIG? then 1 else 0
  {
  }

  /** One callback sends one configuration command or none. */
  lemma StepConfigs(g: Gw, ev: Event, e: Env)
    ensures Configs(Step(g, ev, e).cmds) == Configs(g.cmds) + if Tries(g, ev).Some? then 1 else 0
  {
    hide Step, Tries, MoveOf, Resets, Configs;
    StepCmds(g, ev, e);
    var try, back, reset := TryCmds(g, ev, e), BackCmds(g, ev, e), ResetCmds(g, ev, e);
    ConfigsMore(try, back);
    ConfigsMore(g.cmds, try + back);
    ConfigsMore(g.cmds + (try + back), reset);
    CountOne(try);
    CountOne(back);
    CountOne(reset);
  }

  lemma StepFewCommands(g: Gw, i: Input, c: Clock, now: nat)
    requires FewCommands(g, c.base) && Resting(g)
    ensures FewCommands(Step(g, i.ev, i.env), Ticked(c, g, i, now).base)
  {
    hide Step, Configs, Said;
    StepMoves(g, i.ev, i.env);
    StepConfigs(g, i.ev, i.env);
  }

  /** Whatever the stack does, and however late: a flow hands it at most nine configuration commands. */
  lemma {:induction false} NineCommandsAtMost(g0: Gw, ins: seq<Input>, at: seq<nat>)
    requires Booted(g0) && |ins| == |at|
    ensures FewCommands(Run(g0, ins), ClockOf(g0, ins, at).base)
  {
    if ins != [] {
      hide Step, FewCommands, Ticked;
      var k := |ins| - 1;
      NineCommandsAtMost(g0, ins[..k], at[..k]);
      RunRests(g0, ins[..k]);
      StepFewCommands(Run(g0, ins[..k]), ins[k], ClockOf(g0, ins[..k], at[..k]), at[k]);
    }
  }

  lemma StepOnTime(g: Gw, i: Input, c: Clock, now: nat)
    requires OnTime(g, c) && Resting(g)
    requires Configuring(g) ==> now <= c.last + MSG_TIMEOUT_MS
    ensures OnTime(Step(g, i.ev, i.env), Ticked(c, g, i, now))
  {
    hide Step, Configs, Said;
    StepMoves(g, i.ev, i.env);
    StepConfigs(g, i.ev, i.env);
  }

  lemma {:induction false} RunOnTime(g0: Gw, ins: seq<Input>, at: seq<nat>)
    requires Booted(g0) && |ins| == |at| && Prompt(g0, ins, at)
    ensures OnTime(Run(g0, ins), ClockOf(g0, ins, at))
  {
    if ins != [] {
      hide Step, OnTime, Ticked;
      var k := |ins| - 1;
      RunOnTime(g0, ins[..k], at[..k]);
      RunRests(g0, ins[..k]);
      StepOnTime(Run(g0, ins[..k]), ins[k], ClockOf(g0, ins[..k], at[..k]), at[k]);
    }
  }

  /** And when the stack is prompt, at no moment `now` up to the deadline of the reply it waits for has a flow been
      configuring its node for more than 72 s, whatever is lost on the way. */
  lemma {:induction false} ConfigurationEndsInTime(g0: Gw, ins: seq<Input>, at: seq<nat>, now: nat)
    requires Booted(g0) && |ins| == |at| && Prompt(g0, ins, at)
    ensures var g, c := Run(g0, ins), ClockOf(g0, ins, at);
      && Configs(g.cmds) - c.base <= MAX_SENDS
      && (Configuring(g) && now <= c.last + MSG_TIMEOUT_MS ==> now <= c.start + CONFIG_MS)
  {
    hide Run, Booted, ClockOf, Configs;
    RunOnTime(g0, ins, at);
    RunRests(g0, ins);
  }
}
