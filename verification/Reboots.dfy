/** The two stores across saves and reboots: when the berth table, in RAM and in flash, names nodes alone, and when an
    adopted node's berth is on record. */
module Reboots {
  import opened Common
  import opened BerthMap
  import opened GatewayModel
  import opened Moves
  import opened Stores

  /** A callback, or a restart; `loaded` says whether NVS yields the table, which passes for empty otherwise. */
  datatype Happening = Callback(i: Input) | Restart(loaded: bool)

  ghost function Next(g: Gw, h: Happening): Gw {
    match h
    case Callback(i) => Step(g, i.ev, i.env)
    case Restart(loaded) => Rebooted(g, if loaded then g.flash else map[])
  }

  ghost function Life(g: Gw, hs: seq<Happening>): Gw {
    if hs == [] then g else var k := |hs| - 1; Next(Life(g, hs[..k]), hs[k])
  }

  ghost predicate AllKept(g0: Gw, hs: seq<Happening>) {
    hs != [] ==>
      var k := |hs| - 1;
      AllKept(g0, hs[..k]) && (hs[k].Callback? ==> Promised(Life(g0, hs[..k]), hs[k].i.ev))
  }

  ghost predicate FlashInside(g: Gw) { g.flash.Keys <= g.nodes.Keys }

  /** The flow's target has no berth yet, in RAM or in flash. */
  ghost predicate Nowhere(g: Gw) {
    g.flow.Some? ==> g.flow.value.target !in g.berths && g.flow.value.target !in g.flash
  }

  ghost predicate Sane(g: Gw) { Resting(g) && 0 !in g.nodes && TargetKnown(g) }

  /** A decommission deletes a node whose berth stays in flash: the save is refused, or never made because the table in
      RAM had lost the entry before. */
  predicate Strands(g: Gw, i: Input) {
    && DecomEnds(g, i.ev) && i.env.deleteOk
    && var a := g.decom.value.addr;
    a in g.flash && !(a in g.berths && i.env.saveOk)
  }

  // ----- one callback -----

  lemma StepStaysSane(g: Gw, i: Input)
    requires Sane(g) && Promised(g, i.ev)
    ensures Sane(Step(g, i.ev, i.env))
  {
    hide Step, Resting, TargetKnown, HasUuid, MoveOf, BerthsAfter, FlashAfter;
    StepRests(g, i.ev, i.env);
    StepKeepsTarget(g, i.ev, i.env);
    StepStores(g, i.ev, i.env);
  }

  lemma StepStaysNowhere(g: Gw, i: Input)
    requires Sane(g) && BerthsInside(g) && FlashInside(g) && Nowhere(g) && Promised(g, i.ev)
    ensures Nowhere(Step(g, i.ev, i.env))
  {
    hide Step, HasUuid, Adopted, AdoptedFlash, Said;
    StepMoves(g, i.ev, i.env);
    StepStores(g, i.ev, i.env);
  }

  lemma AdoptedFlashKeys(m: Berths, flash: Berths, f: Flow, saveOk: bool)
    ensures AdoptedFlash(m, flash, f, saveOk) == if Takes(m, f.target, f.berth) && saveOk then Adopted(m, f) else flash
  {
  }

  lemma StepPartsFlash(g: Gw, i: Input)
    requires Sane(g) && BerthsInside(g) && FlashInside(g) && Nowhere(g) && Promised(g, i.ev) && !Splits(g, i)
    ensures FlashInside(Step(g, i.ev, i.env)) <==> !Strands(g, i)
  {
    hide Step, HasUuid, Adopted, AdoptedFlash, OutOfRoom;
    StepStores(g, i.ev, i.env);
    if MoveOf(g, i.ev, i.env).Win? {
      var f := g.flow.value;
      assert f.(target := f.target) == f;
      AdoptedKeys(g.berths, f);
      AdoptedFlashKeys(g.berths, g.flash, f, i.env.saveOk);
    }
  }

  // ----- whole lives -----

  ghost predicate BothInside(g: Gw) { BerthsInside(g) && FlashInside(g) }

  ghost predicate AlwaysBothInside(g0: Gw, hs: seq<Happening>) {
    BothInside(Life(g0, hs)) && (hs != [] ==> AlwaysBothInside(g0, hs[..|hs| - 1]))
  }

  /** What parts a callback: an ok that records a berth for a node that is gone, or a node deleted whose berth stays. */
  ghost predicate Parts(g: Gw, h: Happening) { h.Callback? && (Splits(g, h.i) || Strands(g, h.i)) }

  ghost predicate NeverParts(g0: Gw, hs: seq<Happening>) {
    hs != [] ==>
      var k := |hs| - 1;
      NeverParts(g0, hs[..k]) && !Parts(Life(g0, hs[..k]), hs[k])
  }

  ghost predicate Starts(g0: Gw) { Booted(g0) && 0 !in g0.nodes && BothInside(g0) }

  lemma HappeningStaysSane(g: Gw, h: Happening)
    requires Sane(g) && (h.Callback? ==> Promised(g, h.i.ev))
    ensures Sane(Next(g, h))
  {
    hide Step;
    if h.Callback? { StepStaysSane(g, h.i); }
  }

  lemma HappeningParts(g: Gw, h: Happening)
    requires Sane(g) && BothInside(g) && Nowhere(g) && (h.Callback? ==> Promised(g, h.i.ev))
    ensures BothInside(Next(g, h)) <==> !Parts(g, h)
    ensures Nowhere(Next(g, h))
  {
    hide Step, Sane, Splits, Strands, Promised;
    if h.Callback? {
      StepSplits(g, h.i);
      if !Splits(g, h.i) { StepPartsFlash(g, h.i); }
      StepStaysNowhere(g, h.i);
    }
  }

  lemma StepSplits(g: Gw, i: Input)
    requires Sane(g) && BerthsInside(g) && Promised(g, i.ev)
    ensures BerthsInside(Step(g, i.ev, i.env)) <==> !Splits(g, i)
  {
    StepSplitsExactly(g, i);
  }

  lemma {:induction false} LifeStaysSane(g0: Gw, hs: seq<Happening>)
    requires Starts(g0) && AllKept(g0, hs)
    ensures Sane(Life(g0, hs))
  {
    if hs != [] {
      hide Sane, Next, Promised, Starts;
      LifeStaysSane(g0, hs[..|hs| - 1]);
      HappeningStaysSane(Life(g0, hs[..|hs| - 1]), hs[|hs| - 1]);
    }
  }

  /** Over any callbacks and restarts that keep the promises, from stores in step: the berth table, in RAM and in flash,
      names nodes alone throughout if and only if no flow reports ok with a berth for a node that is gone, and no
      decommission deletes a node whose berth stays in flash. */
  lemma {:induction false} StoresStayInStepAcrossReboots(g0: Gw, hs: seq<Happening>)
    requires Starts(g0) && AllKept(g0, hs)
    ensures AlwaysBothInside(g0, hs) <==> NeverParts(g0, hs)
    ensures AlwaysBothInside(g0, hs) ==> Nowhere(Life(g0, hs))
  {
    if hs != [] {
      hide Sane, Next, Promised, Starts, BothInside, Nowhere, Parts;
      var k := |hs| - 1;
      StoresStayInStepAcrossReboots(g0, hs[..k]);
      LifeStaysSane(g0, hs[..k]);
      if AlwaysBothInside(g0, hs[..k]) {
        BothInsideNow(g0, hs[..k]);
        HappeningParts(Life(g0, hs[..k]), hs[k]);
      }
    }
  }

  lemma {:induction false} BothInsideNow(g0: Gw, hs: seq<Happening>)
    requires AlwaysBothInside(g0, hs)
    ensures BothInside(Life(g0, hs))
  {
  }

  // ----- when saves succeed -----

  ghost predicate AllSaved(hs: seq<Happening>) {
    forall k :: 0 <= k < |hs| ==> if hs[k].Callback? then hs[k].i.env.saveOk else hs[k].loaded
  }

  lemma StepSaves(g: Gw, i: Input)
    requires g.flash == g.berths && i.env.saveOk
    ensures var g' := Step(g, i.ev, i.env); g'.flash == g'.berths
  {
    hide Step, HasUuid, Recorded, OutOfRoom;
    StepStores(g, i.ev, i.env);
  }

  /** When every save and every load succeeds, flash is never behind, so no berth is ever stranded in it. */
  lemma {:induction false} SavedFlashIsCurrent(g0: Gw, hs: seq<Happening>)
    requires g0.flash == g0.berths && AllSaved(hs)
    ensures var g := Life(g0, hs);
      g.flash == g.berths && forall i: Input :: i.env.saveOk ==> !Strands(g, i)
  {
    if hs != [] {
      hide Step;
      var k := |hs| - 1;
      SavedFlashIsCurrent(g0, hs[..k]);
      if hs[k].Callback? { StepSaves(Life(g0, hs[..k]), hs[k].i); }
    }
  }

  // ----- berths that outlive their node -----

  lemma EndAndRestart(g: Gw, ev: Event, e: Env)
    requires DecomEnds(g, ev) && Strands(g, Input(ev, e))
    ensures var a, g' := g.decom.value.addr, Step(g, ev, e);
      && g'.out == g.out + [DecomReport(g, ev, e)]
      && var g'' := Rebooted(g', g'.flash);
      a in g''.berths && a !in g''.nodes
  {
    hide Step, Outcome;
    StepMoves(g, ev, e);
    StepStores(g, ev, e);
  }

  /** A node that never answers: its decommission is given up, its deletion succeeds, the save is refused. The reply
      says orphan and no more, and after the next restart the berth table names a node that is gone. */
  lemma OrphanKeptInFlash(g: Gw, e: Env)
    requires g.decom.Some? && g.decom.value.attempts == DECOM_MAX_ATTEMPTS && g.decom.value.addr in g.flash
    requires e.deleteOk && !e.saveOk
    ensures var a := g.decom.value.addr;
      var g' := Step(g, CfgClient(CFG_TIMEOUT, OP_NODE_RESET, a, false), e);
      var g'' := Rebooted(g', g'.flash);
      && |g'.out| == |g.out| + 1 && g'.out[|g.out|].DecomResp?
      && g'.out[|g.out|].status == DECOM_ORPHAN && g'.out[|g.out|].why == None
      && a in g''.berths && a !in g''.nodes
  {
    hide Step;
    EndAndRestart(g, CfgClient(CFG_TIMEOUT, OP_NODE_RESET, g.decom.value.addr, false), e);
  }

  /** And one that answers: when the table in RAM has lost the entry, nothing is saved, and the reply says ok. */
  lemma OkKeptInFlash(g: Gw, e: Env)
    requires g.decom.Some? && g.decom.value.addr in g.flash && g.decom.value.addr !in g.berths && e.deleteOk
    ensures var a := g.decom.value.addr;
      var g' := Step(g, CfgClient(SET_STATE, OP_NODE_RESET, a, false), e);
      var g'' := Rebooted(g', g'.flash);
      && |g'.out| == |g.out| + 1 && g'.out[|g.out|].DecomResp? && g'.out[|g.out|].status == DECOM_OK
      && a in g''.berths && a !in g''.nodes
  {
    hide Step;
    EndAndRestart(g, CfgClient(SET_STATE, OP_NODE_RESET, g.decom.value.addr, false), e);
  }

  /** RAM loses an entry that flash keeps when a berth changes hands and the save is refused. */
  lemma UnsavedHotSwap(g: Gw, i: Input, a: u16)
    requires MoveOf(g, i.ev, i.env).Win? && InOrder(g, i.ev) && Resting(g) && !i.env.saveOk
    requires RecordsBerth(g) && a in g.berths && a in g.flash && a != g.flow.value.target
    requires g.berths[a].berth == g.flow.value.berth
    ensures var g' := Step(g, i.ev, i.env); a !in g'.berths && a in g'.flash && (a in g'.nodes <==> a in g.nodes)
  {
    hide Step;
    StepStores(g, i.ev, i.env);
  }

  // ----- an adopted node's berth -----

  /** The berth is in the table exactly when the table had room, and in flash exactly when the save succeeded too; the
      reply is ok either way. */
  ghost predicate RecordedWithRoom(g: Gw, i: Input)
    requires g.flow.Some?
  {
    var g', f := Step(g, i.ev, i.env), g.flow.value;
    var room := !OutOfRoom(g.berths, f.target, f.berth);
    && g'.out == g.out + [ProvState(f.reqId, COMPLETE), ProvOk(f.reqId, f.target, g.devKey)]
    && (f.target in g'.berths <==> room)
    && (f.target in g'.flash <==> room && i.env.saveOk)
    && (room ==> g'.berths[f.target] == Entry(f.berth, f.node))
    && (room && i.env.saveOk ==> g'.flash == g'.berths)
    && (!room ==> g'.berths == g.berths)
  }

  lemma StepRecords(g: Gw, i: Input)
    requires MoveOf(g, i.ev, i.env).Win? && InOrder(g, i.ev) && Resting(g) && Nowhere(g)
    requires g.flow.value.berth != "" && g.flow.value.target != 0
    ensures RecordedWithRoom(g, i)
  {
    hide Step;
    StepMoves(g, i.ev, i.env);
    StepStores(g, i.ev, i.env);
    assert Reported(g, i.ev) == [ProvState(g.flow.value.reqId, COMPLETE)];
  }

  /** In every life with the stores in step, that is what an ok with a berth asked for means: `on_prov_done` ignores
      what recording returned. */
  lemma {:induction false} OkRecordsItsBerthExactly(g0: Gw, hs: seq<Happening>, i: Input)
    requires Starts(g0) && AllKept(g0, hs) && AlwaysBothInside(g0, hs) && Promised(Life(g0, hs), i.ev)
    requires MoveOf(Life(g0, hs), i.ev, i.env).Win? && Life(g0, hs).flow.value.berth != ""
    ensures RecordedWithRoom(Life(g0, hs), i)
  {
    StoresStayInStepAcrossReboots(g0, hs);
    LifeStaysSane(g0, hs);
    hide Life, Starts, AllKept, AlwaysBothInside, RecordedWithRoom, HasUuid, RecordsBerth;
    StepRecords(Life(g0, hs), i);
  }
}
