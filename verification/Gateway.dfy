/** The gateway as the C files hold it: separate statics for the mesh flow, the adoption record and the
    decommission, tied together by the invariant `Valid`. Every callback refines one step of `GatewayModel`. */
module Gateway {
  import opened Common
  import opened BerthMap
  import BerthTable
  import M = GatewayModel

  /** `decom_ctx_t`: allocated by the request handler, freed by the completion callback. */
  class DecomCtx {
    const reqId: string
    const nodeId: string

    constructor (reqId: string, nodeId: string)
      ensures this.reqId == reqId && this.nodeId == nodeId
    {
      this.reqId, this.nodeId := reqId, nodeId;
    }
  }

  class Gateway {
    // dp_mesh_provisioner.c: provisioning
    var provCb: bool  // s_prov_cb is set
    var provUuid: M.Uuid
    var provInFlight: bool
    var provTarget: u16
    var provDevKey: M.Key
    var timerRunning: bool
    var cfgStep: M.CfgStep
    var cfgAttempts: nat
    // dp_mesh_provisioner.c: s_decom
    var decomActive: bool
    var decomAddr: u16
    var decomAttempts: nat
    var decomCtx: DecomCtx?
    // dp_gateway_adopt.c: s_inflight
    var active: bool
    var reqId: string
    var berthId: string
    var nodeId: string
    // dp_prov.c
    const table: BerthTable.Table
    // the mesh stack, the broker and the heap
    var nodes: map<u16, M.Node>
    var uuidMatch: Option<M.Uuid>
    var out: seq<M.Msg>
    var cmds: seq<M.Cmd>
    ghost var live: set<DecomCtx>  // decom_ctx_t blocks allocated and not yet freed

    /** The coupling of the layers: mesh flow in flight, adoption record active, callback set and timer running all
        stand or fall together; out of flight the step is IDLE, and DONE is never a resting state. */
    ghost predicate Valid()
      reads this, table, table.records
    {
      && table.Ready()
      && FlowValid()
      && DecomValid()
    }

    ghost predicate FlowValid()
      reads this`provInFlight, this`active, this`timerRunning, this`provCb, this`cfgStep,
            this`reqId, this`berthId, this`nodeId
    {
      && provInFlight == active == timerRunning
      && (provInFlight ==> provCb && cfgStep != M.DONE)
      && (!provInFlight ==> cfgStep == M.IDLE)
      && |reqId| < M.REQ_ID_MAX && |berthId| < BERTH_ID_MAX && |nodeId| < NODE_ID_MAX
    }

    ghost function FlowView(): Option<M.Flow>
      reads this`provInFlight, this`reqId, this`berthId, this`nodeId, this`provUuid, this`cfgStep, this`cfgAttempts,
            this`provTarget
    {
      if provInFlight then Some(M.Flow(reqId, berthId, nodeId, provUuid, cfgStep, cfgAttempts, provTarget)) else None
    }

    /** An active decommission owns the one live heap block, and none is live otherwise. */
    ghost predicate DecomValid()
      reads this`decomActive, this`decomAddr, this`decomAttempts, this`decomCtx, this`live
    {
      if decomActive then
        decomCtx != null && live == {decomCtx} && 1 <= decomAttempts <= M.DECOM_MAX_ATTEMPTS && decomAddr != 0
      else decomCtx == null && live == {}
    }

    ghost function View(): M.Gw
      reads this, table, table.records
    {
      M.Gw(FlowView(), DecomView(), provDevKey, nodes, uuidMatch, table.Map(), Flashed(), out, cmds)
    }

    /** What the berth table would be after a reboot. */
    ghost function Flashed(): Berths
      reads table
    {
      BerthTable.FlashMap(table.flash)
    }

    ghost function DecomView(): Option<M.Job>
      reads this`decomActive, this`decomAddr, this`decomAttempts, this`decomCtx
    {
      if decomActive && decomCtx != null then Some(M.Job(decomAddr, decomAttempts, decomCtx.reqId, decomCtx.nodeId))
      else None
    }

    /** `save` as the berth table sees it; the table is loaded, so only the save outcome matters. */
    function Nvs(e: M.Env): BerthTable.Nvs { BerthTable.Nvs(true, true, true, e.saveOk) }

    constructor (table: BerthTable.Table, nodes: map<u16, M.Node>)
      requires table.Ready()
      ensures Valid() && M.Booted(View()) && this.table == table && this.nodes == nodes && View().berths == table.Map()
    {
      this.table, this.nodes := table, nodes;
      provCb, provUuid, provInFlight, timerRunning := false, [], false, false;
      provTarget, provDevKey := 0, M.NO_KEY;
      cfgStep, cfgAttempts := M.IDLE, 0;
      decomActive, decomAddr, decomAttempts, decomCtx := false, 0, 0, null;
      active, reqId, berthId, nodeId := false, "", "", "";
      uuidMatch, out, cmds, live := None, [], [], {};
    }

    /** A restart, up to the loading of the table: the statics are cleared, and the stack restores its nodes. */
    method Reboot(nvs: BerthTable.Nvs) returns (err: EspErr)
      requires Valid()
      modifies this, table, table.records
      ensures match old(BerthTable.Loads(table.flash, 0, nvs))
        case None => err != OK
        case Some(m) =>
          && err == OK && Valid() && View() == M.Rebooted(old(View()), m)
          && !provInFlight && !active && !decomActive && live == {} && uuidMatch == None && table.Map() == m
          && nodes == old(nodes) && out == old(out) && cmds == old(cmds)
    {
      hide BerthTable.Table.Ready, BerthTable.Table.Map, BerthTable.FlashMap, BerthTable.Loads;
      hide FlowValid, FlowView, DecomValid, DecomView;
      ClearFlow();
      ClearDecom();
      err := table.Restart(nvs);
    }

    method ClearFlow()
      modifies this`provCb, this`provInFlight, this`timerRunning, this`provTarget, this`provDevKey, this`cfgStep,
               this`cfgAttempts, this`active, this`reqId, this`berthId, this`nodeId, this`uuidMatch
      ensures FlowValid() && FlowView() == None && provDevKey == M.NO_KEY && uuidMatch == None
      ensures !provInFlight && !active
    {
      provCb, provInFlight, timerRunning, active := false, false, false, false;
      provTarget, provDevKey, cfgStep, cfgAttempts := 0, M.NO_KEY, M.IDLE, 0;
      reqId, berthId, nodeId, uuidMatch := "", "", "", None;
    }

    method ClearDecom()
      modifies this`decomActive, this`decomAddr, this`decomAttempts, this`decomCtx, this`live
      ensures DecomValid() && DecomView() == None && !decomActive && live == {}
    {
      decomActive, decomAddr, decomAttempts, decomCtx := false, 0, 0, null;
      live := {};
    }

    // ----- dp_gateway_adopt.c callbacks -----

    method OnProvState(state: M.Progress)
      modifies this`out
      ensures out == if active then old(out) + [M.ProvState(reqId, state)] else old(out)
    {
      if active {
        out := out + [M.ProvState(reqId, state)];
      }
    }

    method RecordBerth(addr: u16, e: M.Env)
      requires table.Ready() && berthId != "" && |berthId| < BERTH_ID_MAX && |nodeId| < NODE_ID_MAX
      modifies table, table.records
      ensures table.Ready()
      ensures table.Map() == M.Adopts(old(table.Map()), addr, berthId, nodeId)
      ensures Flashed() == M.AdoptsFlash(old(table.Map()), old(Flashed()), addr, berthId, nodeId, e.saveOk)
    {
      hide Recorded, OutOfRoom, BerthTable.FlashMap;
      var _ := table.RecordNode(addr, Some(berthId), if nodeId != "" then Some(nodeId) else None, Nvs(e));
    }

    method ForgetBerth(addr: u16, e: M.Env) returns (err: EspErr)
      requires table.Ready() && addr != 0
      modifies table, table.records
      ensures table.Ready() && table.Map() == old(table.Map()) - {addr}
      ensures Flashed() == M.ForgetsFlash(old(table.Map()), old(Flashed()), addr, e.saveOk)
      ensures err == if addr in old(table.Map()) && !e.saveOk then FAIL else OK
    {
      hide BerthTable.FlashMap;
      err := table.ForgetUnicast(addr, Nvs(e));
    }

    method PublishRespErr(id: string, code: M.Code)
      modifies this`out
      ensures out == old(out) + [M.ProvErr(id, code)]
    {
      out := out + [M.ProvErr(id, code)];
    }

    method OnProvDone(ok: bool, addr: u16, devKey: M.Key, code: M.Code, e: M.Env)
      requires table.Ready() && |berthId| < BERTH_ID_MAX && |nodeId| < NODE_ID_MAX
      modifies this`active, this`reqId, this`berthId, this`nodeId, this`out, table, table.records
      ensures table.Ready()
      ensures !active && (old(active) ==> reqId == "" && berthId == "" && nodeId == "")
      ensures !old(active) ==>
        out == old(out) && reqId == old(reqId) && berthId == old(berthId) && nodeId == old(nodeId)
      ensures old(active) ==>
        out == old(out) + [if ok then M.ProvOk(old(reqId), addr, devKey) else M.ProvErr(old(reqId), code)]
      ensures table.Map() ==
        if old(active) && ok then M.Adopts(old(table.Map()), addr, old(berthId), old(nodeId)) else old(table.Map())
      ensures Flashed() ==
        if old(active) && ok
        then M.AdoptsFlash(old(table.Map()), old(Flashed()), addr, old(berthId), old(nodeId), e.saveOk)
        else old(Flashed())
    {
      hide BerthTable.Table.Ready, BerthTable.Table.Map, Flashed, M.Adopts, M.AdoptsFlash, M.ForgetsFlash;
      if !active { return; }
      NoBerthToAdopt(table.Map(), Flashed(), addr, nodeId, e.saveOk);
      if ok {
        if berthId != "" {
          RecordBerth(addr, e);
        }
        out := out + [M.ProvOk(reqId, addr, devKey)];
      } else {
        PublishRespErr(reqId, code);
      }
      active, reqId, berthId, nodeId := false, "", "", "";
    }

    // ----- dp_mesh_provisioner.c: provisioning flow -----

    method EmitState(state: M.Progress)
      modifies this`out
      ensures out == if provInFlight && active then old(out) + [M.ProvState(reqId, state)] else old(out)
    {
      if provInFlight {
        OnProvState(state);
      }
    }

    method ClearDevUuidMatch(e: M.Env)
      modifies this`uuidMatch
      ensures uuidMatch == if e.clearOk then None else old(uuidMatch)
    {
      if e.clearOk {
        uuidMatch := None;
      }
    }

    method DeleteNode(addr: u16, e: M.Env) returns (err: EspErr)
      modifies this`nodes
      ensures nodes == if e.deleteOk then old(nodes) - {addr} else old(nodes)
      ensures err == if !e.deleteOk then FAIL else if addr in old(nodes) then OK else NOT_FOUND
    {
      if !e.deleteOk { return FAIL; }
      err := if addr in nodes then OK else NOT_FOUND;
      nodes := nodes - {addr};
    }

    method SendNodeReset(addr: u16, origin: M.Origin, e: M.Env)
      modifies this`cmds
      ensures cmds == old(cmds) + [M.Cmd(M.OP_NODE_RESET, addr, origin, e.resetOk)]
    {
      cmds := cmds + [M.Cmd(M.OP_NODE_RESET, addr, origin, e.resetOk)];
    }

    /** How both ways of finishing end: disarm the UUID match, then call back once. */
    method Conclude(ok: bool, addr: u16, devKey: M.Key, code: M.Code, e: M.Env)
      requires table.Ready() && provCb && active && |berthId| < BERTH_ID_MAX && |nodeId| < NODE_ID_MAX
      modifies this`uuidMatch, this`provCb, this`active, this`reqId, this`berthId, this`nodeId, this`out,
               table, table.records
      ensures table.Ready() && !active && !provCb && reqId == "" && berthId == "" && nodeId == ""
      ensures uuidMatch == if e.clearOk then None else old(uuidMatch)
      ensures out == old(out) + [if ok then M.ProvOk(old(reqId), addr, devKey) else M.ProvErr(old(reqId), code)]
      ensures table.Map() ==
        if ok then M.Adopts(old(table.Map()), addr, old(berthId), old(nodeId)) else old(table.Map())
      ensures Flashed() ==
        if ok then M.AdoptsFlash(old(table.Map()), old(Flashed()), addr, old(berthId), old(nodeId), e.saveOk)
        else old(Flashed())
    {
      hide BerthTable.Table.Ready, BerthTable.Table.Map, Flashed, M.Adopts, M.AdoptsFlash, M.ForgetsFlash;
      ClearDevUuidMatch(e);
      if provCb {
        OnProvDone(ok, addr, devKey, code, e);
      }
      provCb := false;
    }

    method ProvFinishOk(e: M.Env)
      requires table.Ready() && DecomValid() && Concluding() && provInFlight
      modifies this, table, table.records
      ensures Valid() && View() == M.FinishOk(old(View()), e)
    {
      hide BerthTable.Table.Ready, BerthTable.Table.Map, Flashed, M.Adopts, M.AdoptsFlash, M.ForgetsFlash, DecomValid;
      hide DecomView;
      Succeed(e);
    }

    /** As `FlowValid` in flight, but the step may already be DONE. */
    ghost predicate Concluding()
      reads this`provInFlight, this`active, this`timerRunning, this`provCb, this`reqId, this`berthId, this`nodeId
    {
      && provInFlight == active == timerRunning && (provInFlight ==> provCb)
      && |reqId| < M.REQ_ID_MAX && |berthId| < BERTH_ID_MAX && |nodeId| < NODE_ID_MAX
    }

    method Succeed(e: M.Env)
      requires table.Ready() && Concluding() && provInFlight
      modifies this`provInFlight, this`cfgStep, this`timerRunning, this`provCb, this`active, this`reqId, this`berthId,
               this`nodeId, this`uuidMatch, this`out, table, table.records
      ensures table.Ready() && FlowValid() && !provInFlight
      ensures uuidMatch == if e.clearOk then None else old(uuidMatch)
      ensures out == old(out) + [M.ProvState(old(reqId), M.COMPLETE), M.ProvOk(old(reqId), provTarget, provDevKey)]
      ensures table.Map() == M.Adopts(old(table.Map()), provTarget, old(berthId), old(nodeId))
      ensures Flashed() ==
        M.AdoptsFlash(old(table.Map()), old(Flashed()), provTarget, old(berthId), old(nodeId), e.saveOk)
    {
      hide BerthTable.Table.Ready, BerthTable.Table.Map, Flashed, M.Adopts, M.AdoptsFlash, M.ForgetsFlash;
      EmitState(M.COMPLETE);
      provInFlight := false;
      cfgStep := M.IDLE;
      timerRunning := false;
      Conclude(true, provTarget, provDevKey, M.CFG_FAIL, e);
    }

    /** The reset goes out while the device key is still in the database, then the node and its berth go. */
    method Rollback(target: u16, e: M.Env)
      requires table.Ready()
      modifies this`cmds, this`nodes, table, table.records
      ensures table.Ready() && table.Map() == if target != 0 then old(table.Map()) - {target} else old(table.Map())
      ensures Flashed() ==
        if target != 0 then M.ForgetsFlash(old(table.Map()), old(Flashed()), target, e.saveOk) else old(Flashed())
      ensures cmds ==
        if target != 0 then old(cmds) + [M.Cmd(M.OP_NODE_RESET, target, M.ROLLBACK, e.resetOk)] else old(cmds)
      ensures nodes == if target != 0 && e.deleteOk then old(nodes) - {target} else old(nodes)
    {
      hide BerthTable.Table.Ready, BerthTable.Table.Map, Flashed;
      if target == 0 { return; }
      SendNodeReset(target, M.ROLLBACK, e);
      var _ := DeleteNode(target, e);
      var _ := ForgetBerth(target, e);
    }

    method ProvFinishErr(code: M.Code, e: M.Env)
      requires Valid()
      modifies this, table, table.records
      ensures Valid() && View() == if old(provInFlight) then M.FinishErr(old(View()), e, code) else old(View())
    {
      hide BerthTable.Table.Ready, BerthTable.Table.Map, Flashed, DecomValid, DecomView;
      if provInFlight {
        Fail(code, e);
      }
    }

    method Fail(code: M.Code, e: M.Env)
      requires table.Ready() && FlowValid() && provInFlight
      modifies this`provInFlight, this`provTarget, this`cfgStep, this`timerRunning, this`provCb, this`active,
               this`reqId, this`berthId, this`nodeId, this`uuidMatch, this`out, this`cmds, this`nodes,
               table, table.records
      ensures table.Ready() && FlowValid() && !provInFlight
      ensures uuidMatch == if e.clearOk then None else old(uuidMatch)
      ensures out == old(out) + [M.ProvErr(old(reqId), code)]
      ensures table.Map() == if old(provTarget) != 0 then old(table.Map()) - {old(provTarget)} else old(table.Map())
      ensures Flashed() ==
        if old(provTarget) != 0 then M.ForgetsFlash(old(table.Map()), old(Flashed()), old(provTarget), e.saveOk)
        else old(Flashed())
      ensures cmds == if old(provTarget) != 0
                      then old(cmds) + [M.Cmd(M.OP_NODE_RESET, old(provTarget), M.ROLLBACK, e.resetOk)] else old(cmds)
      ensures nodes == if old(provTarget) != 0 && e.deleteOk then old(nodes) - {old(provTarget)} else old(nodes)
    {
      hide BerthTable.Table.Ready, BerthTable.Table.Map, Flashed, M.Adopts, M.AdoptsFlash, M.ForgetsFlash;
      var target := provTarget;
      provInFlight := false;
      cfgStep := M.IDLE;
      timerRunning := false;
      Rollback(target, e);
      provTarget := 0;
      Conclude(false, 0, [], code, e);
    }

    /** `cfg_do_current_step`: the current step's command, if it has one. */
    method CfgDoCurrentStep(addr: u16, e: M.Env) returns (err: EspErr)
      modifies this`cmds
      ensures err == OK <==> cfgStep != M.IDLE && cfgStep != M.DONE && e.sendOk
      ensures match cfgStep
        case APP_KEY_ADD => cmds == old(cmds) + [M.Cmd(M.OP_APP_KEY_ADD, addr, M.CONFIG, e.sendOk)]
        case MODEL_APP_BIND => cmds == old(cmds) + [M.Cmd(M.OP_MODEL_APP_BIND, addr, M.CONFIG, e.sendOk)]
        case MODEL_PUB_SET => cmds == old(cmds) + [M.Cmd(M.OP_MODEL_PUB_SET, addr, M.CONFIG, e.sendOk)]
        case _ => cmds == old(cmds)
    {
      var op;
      match cfgStep {
        case APP_KEY_ADD => op := M.OP_APP_KEY_ADD;
        case MODEL_APP_BIND => op := M.OP_MODEL_APP_BIND;
        case MODEL_PUB_SET => op := M.OP_MODEL_PUB_SET;
        case _ => return INVALID_STATE;
      }
      cmds := cmds + [M.Cmd(op, addr, M.CONFIG, e.sendOk)];
      err := if e.sendOk then OK else FAIL;
    }

    method CfgStepAdvance(addr: u16, e: M.Env)
      requires Valid() && provInFlight && addr == provTarget
      modifies this, table, table.records
      ensures Valid() && View() == M.Advance(old(View()), e)
    {
      hide BerthTable.Table.Ready, BerthTable.Table.Map, Flashed, M.Adopts, M.AdoptsFlash, M.ForgetsFlash, DecomValid;
      hide DecomView;
      hide M.FinishErr, M.FinishOk, M.SendStep;
      cfgStep := cfgStep.Next();
      cfgAttempts := 1;
      match cfgStep {
        case APP_KEY_ADD => EnterStep(addr, M.CFG_APP_KEY, M.APPKEY_SEND, e);
        case MODEL_APP_BIND => EnterStep(addr, M.CFG_BIND, M.BIND_SEND, e);
        case MODEL_PUB_SET => EnterStep(addr, M.CFG_PUB_SET, M.PUBSET_SEND, e);
        case DONE => ProvFinishOk(e);
      }
    }

    /** Each arm of `cfg_step_advance` that sends: report the step, send its command, give up if that fails. */
    method EnterStep(addr: u16, state: M.Progress, code: M.Code, e: M.Env)
      requires Valid() && provInFlight && addr == provTarget
      requires cfgStep.Sends() && state == cfgStep.Name() && code == cfgStep.SendCode()
      modifies this, table, table.records
      ensures Valid() && View() == M.SendStep(M.Emit(old(View()), state), e)
    {
      hide BerthTable.Table.Ready, BerthTable.Table.Map, Flashed, DecomValid, DecomView, M.SendStep;
      EmitState(state);
      TrySend(addr, code, e);
    }

    /** Send the step's command; give the flow up with `code` if that fails. */
    method TrySend(addr: u16, code: M.Code, e: M.Env)
      requires Valid() && provInFlight && addr == provTarget && code == cfgStep.SendCode()
      modifies this, table, table.records
      ensures Valid() && View() == M.SendStep(old(View()), e)
    {
      hide BerthTable.Table.Ready, BerthTable.Table.Map, Flashed, DecomValid, DecomView, M.FinishErr;
      var err := CfgDoCurrentStep(addr, e);
      if err != OK {
        ProvFinishErr(code, e);
      }
    }

    method CfgStepRedo(addr: u16, e: M.Env)
      requires Valid() && provInFlight && addr == provTarget
      modifies this, table, table.records
      ensures Valid() && View() == M.Redo(old(View()), e)
    {
      hide BerthTable.Table.Ready, BerthTable.Table.Map, Flashed, DecomValid, DecomView, M.SendStep;
      cfgAttempts := cfgAttempts + 1;
      var code := FailedSend();
      TrySend(addr, code, e);
    }

    /** The error code of a failed resend. */
    method FailedSend() returns (code: M.Code)
      ensures code == cfgStep.SendCode()
    {
      match cfgStep {
        case APP_KEY_ADD => code := M.APPKEY_SEND;
        case MODEL_APP_BIND => code := M.BIND_SEND;
        case MODEL_PUB_SET => code := M.PUBSET_SEND;
        case _ => code := M.CFG_FAIL;
      }
    }

    method ProvTimerCb(e: M.Env)
      requires Valid()
      modifies this, table, table.records
      ensures Valid() && View() == M.Step(old(View()), M.Timer, e)
    {
      hide BerthTable.Table.Ready, BerthTable.Table.Map, Flashed, M.Adopts, M.AdoptsFlash, M.ForgetsFlash, DecomValid;
      hide DecomView, M.FinishErr, M.FinishOk;
      if provInFlight {
        ProvFinishErr(M.PROV_TIMEOUT, e);
      }
    }

    /** The sender `from` comes with the event; neither branch looks at it. */
    method OnCfgClient(kind: M.CfgKind, op: M.Opcode, from: u16, err: bool, e: M.Env)
      requires Valid()
      modifies this, table, table.records
      ensures Valid() && View() == M.Step(old(View()), M.CfgClient(kind, op, from, err), e)
    {
      hide BerthTable.Table.Ready, BerthTable.Table.Map, Flashed, M.Adopts, M.AdoptsFlash, M.ForgetsFlash;
      hide M.FinishErr, M.FinishDecom, M.Advance, M.Redo;
      if decomActive && op == M.OP_NODE_RESET {
        OnResetReply(kind, err, e);
        return;
      }
      if !provInFlight { return; }
      if kind == M.PUBLISH { return; }
      if kind == M.CFG_TIMEOUT {
        if cfgAttempts < M.CFG_MAX_ATTEMPTS {
          CfgStepRedo(provTarget, e);
          return;
        }
        ProvFinishErr(M.CFG_FAIL, e);
        return;
      }
      if err {
        ProvFinishErr(M.CFG_FAIL, e);
        return;
      }
      CfgStepAdvance(provTarget, e);
    }

    /** The decommission's branch: a reply to some node reset. */
    method OnResetReply(kind: M.CfgKind, err: bool, e: M.Env)
      requires Valid() && decomActive
      modifies this, table, table.records
      ensures Valid() && View() == M.OnReset(old(View()), kind, err, e)
    {
      hide BerthTable.Table.Ready, BerthTable.Table.Map, Flashed, M.FinishDecom, FlowValid, FlowView;
      if kind == M.PUBLISH { return; }
      if kind == M.CFG_TIMEOUT {
        if decomAttempts < M.DECOM_MAX_ATTEMPTS {
          decomAttempts := decomAttempts + 1;
          SendNodeReset(decomAddr, M.DECOMMISSION, e);
          return;
        }
        DecomLocalCleanupAndFinish(M.DECOM_ORPHAN, e);
        return;
      }
      if err {
        DecomLocalCleanupAndFinish(M.DECOM_ORPHAN, e);
        return;
      }
      DecomLocalCleanupAndFinish(M.DECOM_OK, e);
    }

    /** Provisioning events; for `ProvComplete` the stack enters the node before it calls back. */
    method HandleProvEvent(ev: M.Event, e: M.Env)
      requires Valid()
      requires ev.LinkOpen? || ev.LinkClose? || ev.ProvComplete? || ev.OtherProvEvent?
      modifies this, table, table.records
      ensures Valid() && View() == M.Step(old(View()), ev, e)
    {
      hide BerthTable.Table.Ready, BerthTable.Table.Map, Flashed, M.Adopts, M.AdoptsFlash, M.ForgetsFlash, DecomValid;
      hide DecomView, M.FinishErr, M.Advance;
      match ev {
        case LinkOpen => EmitState(M.LINK_OPEN);
        case LinkClose =>
          if provInFlight && cfgStep.Index() < 1 {
            ProvFinishErr(M.LINK_CLOSE, e);
          }
        case ProvComplete(addr, uuid, key) =>
          nodes := nodes[addr := M.Node(uuid, key)];
          if !provInFlight {
            var _ := DeleteNode(addr, e);
            return;
          }
          OnProvComplete(addr, e);
        case OtherProvEvent =>
      }
    }

    /** The completion of the flow in flight, once the stack has entered the node. */
    method OnProvComplete(addr: u16, e: M.Env)
      requires Valid() && provInFlight && addr in nodes
      modifies this, table, table.records
      ensures Valid()
      ensures View() ==
        var g := old(View());
        var f := g.flow.value.(target := addr);
        M.Advance(M.Emit(g.(flow := Some(f), devKey := g.nodes[addr].key), M.PB_ADV_DONE), e)
    {
      hide BerthTable.Table.Ready, BerthTable.Table.Map, Flashed, DecomValid, DecomView, M.Advance;
      provTarget := addr;
      provDevKey := nodes[addr].key;
      EmitState(M.PB_ADV_DONE);
      CfgStepAdvance(addr, e);
    }

    /** `dp_mesh_gateway_provision`, on the gateway role. */
    method ProvisionNode(uuid: M.Uuid, staticOob: Option<M.Key>, e: M.Env) returns (err: EspErr)
      modifies this`provInFlight, this`provCb, this`provUuid, this`provTarget, this`cfgStep, this`cfgAttempts,
               this`uuidMatch, this`timerRunning, this`out
      ensures old(provInFlight) ==> err == INVALID_STATE && out == old(out) && provInFlight && provCb == old(provCb)
      ensures !old(provInFlight) ==>
        && (err == OK <==> (staticOob.Some? ==> e.oobOk) && e.matchOk)
        && provCb && provUuid == uuid && provTarget == 0 && cfgStep == M.IDLE && cfgAttempts == 0
        && provInFlight == (err == OK)
        && (err == OK ==> timerRunning && uuidMatch == Some(uuid))
        && (err != OK ==> timerRunning == old(timerRunning) && uuidMatch == old(uuidMatch))
        && out == if err == OK && active then old(out) + [M.ProvState(reqId, M.STARTED)] else old(out)
    {
      if provInFlight { return INVALID_STATE; }
      provInFlight := true;
      provCb := true;
      provUuid := uuid;
      provTarget := 0;
      cfgStep := M.IDLE;
      cfgAttempts := 0;
      if staticOob.Some? {
        if !e.oobOk {
          provInFlight := false;
          return FAIL;
        }
      }
      if !e.matchOk {
        provInFlight := false;
        return FAIL;
      }
      uuidMatch := Some(uuid);
      timerRunning := true;
      EmitState(M.STARTED);
      return OK;
    }

    method HasNodeWithUuid(uuid: M.Uuid) returns (b: bool)
      ensures b <==> M.HasUuid(nodes, uuid)
      ensures b <==> exists a :: a in nodes && nodes[a].uuid == uuid
    {
      b := M.HasUuid(nodes, uuid);
    }

    method HandleProvisionReq(r: M.ProvReq, e: M.Env)
      requires Valid()
      modifies this, table, table.records
      ensures Valid() && View() == M.Step(old(View()), M.Provision(r), e)
    {
      hide BerthTable.Table.Ready, BerthTable.Table.Map, Flashed, M.Adopts, M.AdoptsFlash, M.ForgetsFlash, DecomValid;
      hide DecomView, M.Cut, M.HasUuid, M.FinishErr, M.OnProvComplete, M.OnCfg, M.OnDecommission, M.Emit;
      if r.reqId == None || r.uuid == M.Missing { return; }
      var id := r.reqId.value;
      if active {
        PublishRespErr(id, M.BUSY);
        return;
      }
      if r.uuid == M.Bad {
        PublishRespErr(id, M.BAD_UUID);
        return;
      }
      if r.oob == M.Bad {
        PublishRespErr(id, M.BAD_OOB);
        return;
      }
      var known := HasNodeWithUuid(r.uuid.value);
      if known {
        PublishRespErr(id, M.ALREADY_PROVISIONED);
        return;
      }
      StartFlow(id, r.berth, r.node, r.uuid.value, if r.oob.Good? then Some(r.oob.value) else None, e);
    }

    /** The end of `handle_provision_req`: remember the request, then start the mesh flow. */
    method StartFlow(id: string, berth: string, node: string, uuid: M.Uuid, oob: Option<M.Key>, e: M.Env)
      requires FlowValid() && !active
      modifies this`provInFlight, this`provCb, this`provUuid, this`provTarget, this`cfgStep, this`cfgAttempts,
               this`uuidMatch, this`timerRunning, this`out, this`active, this`reqId, this`berthId, this`nodeId
      ensures FlowValid()
      ensures var cut := M.Cut(id, M.REQ_ID_MAX);
        if (oob.Some? ==> e.oobOk) && e.matchOk then
          && FlowView() == Some(M.Flow(cut, M.Cut(berth, BERTH_ID_MAX), M.Cut(node, NODE_ID_MAX), uuid, M.IDLE, 0, 0))
          && uuidMatch == Some(uuid) && out == old(out) + [M.ProvState(cut, M.STARTED)]
        else FlowView() == None && uuidMatch == old(uuidMatch) && out == old(out) + [M.ProvErr(cut, M.START_FAIL)]
    {
      active := true;
      reqId := M.Cut(id, M.REQ_ID_MAX);
      berthId := M.Cut(berth, BERTH_ID_MAX);
      nodeId := M.Cut(node, NODE_ID_MAX);
      var err := ProvisionNode(uuid, oob, e);
      if err != OK {
        PublishRespErr(reqId, M.START_FAIL);
        active := false;
        reqId := "";
      }
    }

    // ----- decommission -----

    /** `free(ctx)`: the block must be live, so freeing twice is impossible. */
    ghost method Free(ctx: DecomCtx)
      requires ctx in live
      modifies this`live
      ensures live == old(live) - {ctx}
    {
      live := live - {ctx};
    }

    method OnDecomDone(status: M.DecomStatus, attempts: nat, code: Option<M.DecomCode>, ctx: DecomCtx)
      requires ctx in live
      modifies this`out, this`live
      ensures live == old(live) - {ctx}
      ensures out == old(out) +
        [M.DecomResp(ctx.reqId, if ctx.nodeId != "" then Some(ctx.nodeId) else None, status, code, attempts)]
    {
      var node := if ctx.nodeId != "" then Some(ctx.nodeId) else None;
      out := out + [M.DecomResp(ctx.reqId, node, status, code, attempts)];
      Free(ctx);
    }

    /** Local cleanup, whatever the node answered; what fails here demotes ok, but never an orphan. */
    method DecomLocalCleanup(addr: u16, result: M.DecomStatus, e: M.Env)
      returns (status: M.DecomStatus, code: Option<M.DecomCode>)
      requires table.Ready() && addr != 0
      modifies this`nodes, table, table.records
      ensures table.Ready() && table.Map() == old(table.Map()) - {addr}
      ensures Flashed() == M.ForgetsFlash(old(table.Map()), old(Flashed()), addr, e.saveOk)
      ensures nodes == if e.deleteOk then old(nodes) - {addr} else old(nodes)
      ensures result != M.DECOM_OK ==> status == result && code == None
      ensures result == M.DECOM_OK ==>
        (status, code) == if !e.deleteOk then (M.DECOM_ERR, Some(M.DELETE_FAIL))
                          else if addr in old(table.Map()) && !e.saveOk then (M.DECOM_ERR, Some(M.NVS_WRITE))
                          else (M.DECOM_OK, None)
    {
      hide BerthTable.Table.Ready, BerthTable.Table.Map, Flashed;
      status, code := result, None;
      var d := DeleteNode(addr, e);
      if d != OK && d != NOT_FOUND {
        if status == M.DECOM_OK { status, code := M.DECOM_ERR, Some(M.DELETE_FAIL); }
      }
      var f := ForgetBerth(addr, e);
      if f != OK {
        if status == M.DECOM_OK { status, code := M.DECOM_ERR, Some(M.NVS_WRITE); }
      }
    }

    method DecomLocalCleanupAndFinish(result: M.DecomStatus, e: M.Env)
      requires Valid() && decomActive && result != M.DECOM_ERR
      modifies this, table, table.records
      ensures Valid() && View() == M.FinishDecom(old(View()), e, result == M.DECOM_OK)
    {
      hide BerthTable.Table.Ready, BerthTable.Table.Map, Flashed, M.ForgetsFlash, FlowValid, FlowView;
      var status, code := CleanUpAndCallBack(result, e);
    }

    method CleanUpAndCallBack(result: M.DecomStatus, e: M.Env)
      returns (status: M.DecomStatus, code: Option<M.DecomCode>)
      requires table.Ready() && DecomValid() && decomActive && result != M.DECOM_ERR
      modifies this`decomActive, this`decomAddr, this`decomAttempts, this`decomCtx, this`live, this`out, this`nodes,
               table, table.records
      ensures table.Ready() && DecomValid() && !decomActive
      ensures var (s, c) := M.Outcome(old(View()), old(DecomView()).value, e, result == M.DECOM_OK);
        status == s && code == c
      ensures var j := old(DecomView()).value;
        && table.Map() == old(table.Map()) - {j.addr}
        && Flashed() == M.ForgetsFlash(old(table.Map()), old(Flashed()), j.addr, e.saveOk)
        && nodes == (if e.deleteOk then old(nodes) - {j.addr} else old(nodes))
        && out == old(out) +
             [M.DecomResp(j.reqId, if j.node != "" then Some(j.node) else None, status, code, j.attempts)]
    {
      hide BerthTable.Table.Ready, BerthTable.Table.Map, Flashed, M.ForgetsFlash;
      var addr, attempts, ctx := decomAddr, decomAttempts, decomCtx;
      status, code := DecomLocalCleanup(addr, result, e);
      // cleared before the callback, so that it may start another decommission
      decomActive, decomAddr, decomAttempts, decomCtx := false, 0, 0, null;
      OnDecomDone(status, attempts, code, ctx);
    }

    /** `dp_mesh_gateway_decommission_node`, on the gateway role. */
    method DecommissionNode(addr: u16, ctx: DecomCtx, e: M.Env) returns (err: EspErr)
      modifies this`decomActive, this`decomAddr, this`decomAttempts, this`decomCtx, this`cmds
      ensures err == if addr == 0 then INVALID_ARG else if old(decomActive) then INVALID_STATE else OK
      ensures err != OK ==>
        decomActive == old(decomActive) && decomAddr == old(decomAddr) && decomAttempts == old(decomAttempts)
        && decomCtx == old(decomCtx) && cmds == old(cmds)
      ensures err == OK ==>
        decomActive && decomAddr == addr && decomAttempts == 1 && decomCtx == ctx
        && cmds == old(cmds) + [M.Cmd(M.OP_NODE_RESET, addr, M.DECOMMISSION, e.resetOk)]
    {
      if addr == 0 { return INVALID_ARG; }
      if decomActive { return INVALID_STATE; }
      decomActive, decomAddr, decomAttempts, decomCtx := true, addr, 1, ctx;
      SendNodeReset(addr, M.DECOMMISSION, e);
      return OK;
    }

    method PublishRefusal(r: M.DecomReq, code: M.DecomCode)
      modifies this`out
      ensures out == if r.reqId.None? then old(out)
                     else old(out) + [M.DecomResp(r.reqId.value, r.node, M.DECOM_ERR, Some(code), 0)]
    {
      if r.reqId.None? { return; }
      out := out + [M.DecomResp(r.reqId.value, r.node, M.DECOM_ERR, Some(code), 0)];
    }

    method HandleDecommissionReq(r: M.DecomReq, e: M.Env)
      requires Valid()
      modifies this, table, table.records
      ensures Valid() && View() == M.Step(old(View()), M.Decommission(r), e)
    {
      hide BerthTable.Table.Ready, BerthTable.Table.Map, Flashed, M.Cut, FlowValid, FlowView, DecomValid, DecomView;
      if r.unicast == M.Missing {
        PublishRefusal(r, M.BAD_REQ);
        return;
      }
      if r.unicast == M.Bad || r.unicast.value == 0 || r.unicast.value > 0xFFFF {
        PublishRefusal(r, M.BAD_UNICAST);
        return;
      }
      TakeDecommission(r, r.unicast.value, e);
    }

    /** A well-formed request: its context goes on the heap, and back when the flow is refused. */
    method TakeDecommission(r: M.DecomReq, addr: u16, e: M.Env)
      requires DecomValid() && addr != 0
      modifies this`decomActive, this`decomAddr, this`decomAttempts, this`decomCtx, this`live, this`cmds, this`out
      ensures DecomValid()
      ensures if e.allocOk && old(DecomView()).None? then
          && DecomView() ==
               Some(M.Job(addr, 1, M.Cut(M.OrEmpty(r.reqId), M.REQ_ID_MAX), M.Cut(M.OrEmpty(r.node), M.REQ_ID_MAX)))
          && cmds == old(cmds) + [M.Cmd(M.OP_NODE_RESET, addr, M.DECOMMISSION, e.resetOk)] && out == old(out)
        else
          && DecomView() == old(DecomView()) && cmds == old(cmds)
          && out == if r.reqId.None? then old(out)
                    else old(out) + [M.DecomResp(r.reqId.value, r.node, M.DECOM_ERR, Some(M.UNKNOWN), 0)]
    {
      hide M.Cut;
      if !e.allocOk {
        PublishRefusal(r, M.UNKNOWN);
        return;
      }
      var c := new DecomCtx(M.Cut(M.OrEmpty(r.reqId), M.REQ_ID_MAX), M.Cut(M.OrEmpty(r.node), M.REQ_ID_MAX));
      live := live + {c};
      var err := DecommissionNode(addr, c, e);
      if err != OK {
        PublishRefusal(r, M.UNKNOWN);
        Free(c);
      }
    }
  }

  lemma NoBerthToAdopt(m: Berths, flash: Berths, addr: u16, node: string, saveOk: bool)
    ensures M.Adopts(m, addr, "", node) == m && M.AdoptsFlash(m, flash, addr, "", node, saveOk) == flash
  {
  }
}
