/** The progress trace as the broker sees it: a subscriber that replays the messages always knows where the flow is,
    as long as the stack's events come in order, and exactly then (`cfg_step_advance`, `prov_finish_ok`). */
module ProgressTrace {
  import opened Common
  import opened GatewayModel
  import opened Moves

  const STAGES: seq<Progress> := [STARTED, PB_ADV_DONE, CFG_APP_KEY, CFG_BIND, CFG_PUB_SET, COMPLETE]

  /** What a subscriber makes of the messages so far: no flow, the flow of `reqId` with its first `seen` stages
      reported, or a trace that no flow in order produces. */
  datatype Observer = Quiet | Watching(reqId: string, seen: nat) | Violation

  function Hear(o: Observer, m: Msg): Observer {
    match o
    case Violation => Violation
    case Quiet =>
      match m {
        case ProvState(id, p) => if p == STARTED then Watching(id, 1) else Violation
        case ProvOk(_, _, _) => Violation
        case ProvErr(_, code) =>
          if code in {BAD_UUID, BAD_OOB, ALREADY_PROVISIONED, START_FAIL} then Quiet else Violation
        case DecomResp(_, _, _, _, _) => Quiet
      }
    case Watching(id, seen) =>
      match m {
        case ProvState(id', p) =>
          if id' != id then Violation
          else if p == LINK_OPEN && seen < |STAGES| then o
          else if seen < |STAGES| && p == STAGES[seen] then Watching(id, seen + 1)
          else Violation
        case ProvOk(id', _, _) => if id' == id && seen == |STAGES| then Quiet else Violation
        case ProvErr(id', code) =>
          if code == BUSY then o else if id' == id && seen < |STAGES| then Quiet else Violation
        case DecomResp(_, _, _, _, _) => o
      }
  }

  function HearAll(o: Observer, ms: seq<Msg>): Observer {
    if ms == [] then o else Hear(HearAll(o, ms[..|ms| - 1]), ms[|ms| - 1])
  }

  function Watch(out: seq<Msg>): Observer { HearAll(Quiet, out) }

  /** Where the gateway is. */
  function Whereabouts(flow: Option<Flow>): Observer {
    if flow.None? then Quiet
    else Watching(flow.value.reqId, if flow.value.step == IDLE then 1 else 2 + flow.value.step.Index())
  }

  /** Where an advancing event takes the observer. */
  function Onward(g: Gw, ev: Event): Observer
    requires g.flow.Some?
  {
    if InOrder(g, ev) then Whereabouts(Some(g.flow.value.(step := g.flow.value.step.Next()))) else Violation
  }

  /** A final reply to the flow's own request. */
  predicate Ends(m: Msg, id: string) {
    m.reqId == id && (m.ProvOk? || (m.ProvErr? && !m.code.BUSY?))
  }

  ghost predicate AllInOrder(g0: Gw, ins: seq<Input>) {
    ins != [] ==>
      var k := |ins| - 1;
      AllInOrder(g0, ins[..k]) && InOrder(Run(g0, ins[..k]), ins[k].ev)
  }

  lemma WatchMore(out: seq<Msg>, m: Msg)
    ensures Watch(out + [m]) == Hear(Watch(out), m)
  {
    assert (out + [m])[..|out|] == out;
  }

  lemma {:induction false} WatchAll(out: seq<Msg>, ms: seq<Msg>)
    ensures Watch(out + ms) == HearAll(Watch(out), ms)
  {
    if ms == [] {
      assert out + ms == out;
    } else {
      var k := |ms| - 1;
      WatchAll(out, ms[..k]);
      assert out + ms == out + ms[..k] + [ms[k]];
      WatchMore(out + ms[..k], ms[k]);
    }
  }

  lemma {:induction false} ViolationStays(a: seq<Msg>, b: seq<Msg>)
    requires a <= b && Watch(a) == Violation
    ensures Watch(b) == Violation
  {
    if a != b { ViolationStays(a, b[..|b| - 1]); }
  }

  lemma {:induction false} HearTwo(o: Observer, a: Msg, b: Msg)
    ensures HearAll(o, [a]) == Hear(o, a) && HearAll(o, [a, b]) == Hear(Hear(o, a), b)
  {
    hide Hear;
    assert [a][..0] == [] && [a, b][..1] == [a];
  }

  lemma HearStage(id: string, seen: nat, p: Progress)
    requires seen < |STAGES| && p != LINK_OPEN
    ensures Hear(Watching(id, seen), ProvState(id, p)) ==
      if p == STAGES[seen] then Watching(id, seen + 1) else Violation
  {
  }

  /** The final reply, when the last stage is or is not out. */
  lemma HearEnd(id: string, seen: nat, end: Msg)
    requires Ends(end, id) && seen <= |STAGES|
    ensures Hear(Watching(id, seen), end) == if end.ProvOk? <==> seen == |STAGES| then Quiet else Violation
  {
  }

  lemma HearNothing(m: Msg)
    ensures Hear(Violation, m) == Violation
  {
  }

  lemma StageNames(s: CfgStep)
    requires !s.DONE?
    ensures STAGES[2 + s.Index()] == s.Next().Name() != LINK_OPEN && s.Next().Name() != PB_ADV_DONE
    ensures STAGES[1 + s.Index()] != s.Next().Name()
    ensures STAGES[1] == PB_ADV_DONE && (s != IDLE ==> STAGES[2 + s.Index()] != PB_ADV_DONE)
    ensures |STAGES| == 6 && (s.Next() == DONE <==> 3 + s.Index() == 6)
  {
  }

  /** Where the reports of an advancing event leave the observer, before what ends the flow if it ends. */
  lemma ReportsAreWatched(g: Gw, ev: Event)
    requires Advances(g, ev) && !g.flow.value.step.DONE?
    ensures HearAll(Whereabouts(g.flow), Reported(g, ev)) ==
      if InOrder(g, ev) then Watching(g.flow.value.reqId, 3 + g.flow.value.step.Index()) else Violation
  {
    hide Hear, HearAll;
    var f := g.flow.value;
    var id, seen, p := f.reqId, if f.step == IDLE then 1 else 2 + f.step.Index(), f.step.Next().Name();
    StageNames(f.step);
    HearNothing(ProvState(id, p));
    if ev.ProvComplete? {
      HearTwo(Whereabouts(g.flow), ProvState(id, PB_ADV_DONE), ProvState(id, p));
      HearStage(id, seen, PB_ADV_DONE);
      if f.step == IDLE { HearStage(id, 2, p); }
      assert Reported(g, ev) == [ProvState(id, PB_ADV_DONE), ProvState(id, p)];
    } else {
      HearTwo(Whereabouts(g.flow), ProvState(id, p), ProvState(id, p));
      HearStage(id, seen, p);
      assert Reported(g, ev) == [ProvState(id, p)];
    }
  }

  /** What the broker hears when the flow moves on, or ends with `end`. */
  lemma AdvanceIsWatched(g: Gw, ev: Event, end: Msg)
    requires Watch(g.out) == Whereabouts(g.flow)
    requires g.flow.Some? && !g.flow.value.step.DONE? && Ends(end, g.flow.value.reqId)
    requires end.ProvOk? <==> Advances(g, ev) && g.flow.value.step.Next() == DONE
    ensures Watch(g.out + Reported(g, ev) + [end]) == if InOrder(g, ev) then Quiet else Violation
    ensures Advances(g, ev) && !end.ProvOk? ==> Watch(g.out + Reported(g, ev)) == Onward(g, ev)
  {
    hide Hear, HearAll, InOrder;
    var id, ms, s := g.flow.value.reqId, Reported(g, ev), g.flow.value.step;
    WatchAll(g.out, ms);
    WatchMore(g.out + ms, end);
    StageNames(s);
    if Advances(g, ev) {
      ReportsAreWatched(g, ev);
      HearEnd(id, 3 + s.Index(), end);
      HearNothing(end);
    } else {
      assert InOrder(g, ev) by { OnlyAdvancesCount(g, ev); }
      assert ms == [] && g.out + [] == g.out;
      HearEnd(id, if s == IDLE then 1 else 2 + s.Index(), end);
    }
  }

  lemma OnlyAdvancesCount(g: Gw, ev: Event)
    ensures InOrder(g, ev) || Advances(g, ev)
  {
  }

  lemma StepIsWatched(g: Gw, ev: Event, e: Env)
    requires Watch(g.out) == Whereabouts(g.flow)
    requires g.flow.Some? ==> !g.flow.value.step.DONE?
    ensures var g' := Step(g, ev, e);
      Watch(g'.out) == if InOrder(g, ev) then Whereabouts(g'.flow) else Violation
  {
    hide Step, Watch, HearAll, Reported;
    StepMoves(g, ev, e);
    var g' := Step(g, ev, e);
    match MoveOf(g, ev, e)
    case Still => if g'.out != g.out { WatchMore(g.out, g'.out[|g.out|]); }
    case Begin => WatchMore(g.out, ProvState(Started(ev.req).reqId, STARTED));
    case Again =>
    case Forward => AdvanceIsWatched(g, ev, ProvErr(g.flow.value.reqId, CFG_FAIL));
    case Win => AdvanceIsWatched(g, ev, ProvOk(g.flow.value.reqId, Target(g, ev), KeyOf(g, ev)));
    case Lose(code) => AdvanceIsWatched(g, ev, ProvErr(g.flow.value.reqId, code));
  }

  /** In every run the broker's view is the gateway's own state when the stack's events came in order, and a
      violation when they did not. */
  lemma {:induction false} TraceTellsTheState(g0: Gw, ins: seq<Input>)
    requires Booted(g0)
    ensures var g := Run(g0, ins); Watch(g.out) == if AllInOrder(g0, ins) then Whereabouts(g.flow) else Violation
  {
    if ins != [] {
      hide Step, Watch, InOrder, Resting, Whereabouts;
      var k := |ins| - 1;
      var g, i := Run(g0, ins[..k]), ins[k];
      TraceTellsTheState(g0, ins[..k]);
      if AllInOrder(g0, ins[..k]) {
        RunRests(g0, ins[..k]);
        StepIsWatched(g, i.ev, i.env);
      } else {
        OutGrows(g, i.ev, i.env);
        ViolationStays(g.out, Step(g, i.ev, i.env).out);
      }
    }
  }

  // ----- what the observer's verdict means -----

  /** The states reported since the last `started`, leaving out link reports. */
  function Story(out: seq<Msg>): seq<Progress> {
    if out == [] then []
    else
      var m, before := out[|out| - 1], Story(out[..|out| - 1]);
      if !m.ProvState? || m.state == LINK_OPEN then before
      else if m.state == STARTED then [STARTED]
      else before + [m.state]
  }

  /** The last flow that started was reported ok. */
  predicate Succeeded(out: seq<Msg>) {
    if out == [] then false
    else
      var m := out[|out| - 1];
      m.ProvOk? || (m != ProvState(m.reqId, STARTED) && Succeeded(out[..|out| - 1]))
  }

  predicate IsPrefix(p: seq<Progress>) { |p| <= |STAGES| && p == STAGES[..|p|] }

  lemma CompleteIsLast(p: seq<Progress>)
    requires IsPrefix(p)
    ensures COMPLETE in p <==> |p| == |STAGES|
  {
    assert STAGES[5] == COMPLETE;
    if |p| == 6 { assert p[5] == COMPLETE; }
  }

  lemma {:induction false} StoryOfTrace(out: seq<Msg>)
    requires Watch(out) != Violation
    ensures IsPrefix(Story(out))
    ensures Watch(out).Watching? ==>
      1 <= |Story(out)| == Watch(out).seen && !Succeeded(out)
    ensures Watch(out).Quiet? ==> (Succeeded(out) <==> COMPLETE in Story(out))
  {
    if out != [] {
      var k := |out| - 1;
      StoryOfTrace(out[..k]);
      CompleteIsLast(Story(out[..k]));
      CompleteIsLast(Story(out));
    }
  }

  /** So in an orderly run the states of the last flow are a prefix of the six stages: exactly up to the current step
      while it is in flight, and with `complete` among them just when it was reported ok. */
  lemma {:induction false} ProgressIsAPrefix(g0: Gw, ins: seq<Input>)
    requires Booted(g0) && AllInOrder(g0, ins)
    ensures var g := Run(g0, ins);
      && IsPrefix(Story(g.out))
      && (g.flow.Some? ==> |Story(g.out)| == if g.flow.value.step == IDLE then 1 else 2 + g.flow.value.step.Index())
      && (COMPLETE in Story(g.out) <==> Succeeded(g.out))
  {
    hide Run, Watch, Story, Succeeded, AllInOrder, IsPrefix, Booted;
    TraceTellsTheState(g0, ins);
    RunRests(g0, ins);
    StoryOfTrace(Run(g0, ins).out);
  }
}
