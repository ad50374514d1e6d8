/** The sensor's mesh side as its C file holds it: statics and a one-shot timer, each callback refining one step of
    `SensorModel` (`dp_mesh_sensor.c`). */
module SensorNode {
  import opened Common
  import Codec
  import S = SensorModel
  import M = GatewayModel

  class Node {
    var readyFired: bool
    var publishAddrSet: bool  // vnd_pub.publish_addr is not the unassigned address
    var timerMade: bool
    var timerRunning: bool
    const readyCb: bool
    const sensorRole: bool  // dp_mesh_get_role() is the sensor
    // the mesh stack and what it was given
    var stack: Option<S.Identity>
    var calls: seq<u16>
    var published: seq<seq<u8>>

    ghost predicate Valid()
      reads this
    {
      sensorRole && S.Consistent(View())
    }

    ghost function View(): S.Sensor
      reads this
    {
      S.Sensor(stack, readyFired, publishAddrSet, timerMade, timerRunning, readyCb, calls, published)
    }

    /** A sensor that boots with what its stack restored, up to the end of `dp_mesh_init`. */
    constructor (stack: Option<S.Identity>, readyCb: bool)
      ensures Valid()
      ensures View() == S.Restarted(S.Sensor(stack, false, false, false, false, readyCb, [], []), stack)
    {
      this.stack, this.readyCb, sensorRole := stack, readyCb, true;
      readyFired, publishAddrSet, timerMade, timerRunning := false, false, false, false;
      calls, published := [], [];
      new;
      if stack.Some? {
        FireReady();
      }
    }

    method ArmPostProvWatchdog(e: S.NodeEnv)
      requires Valid()
      modifies this`timerMade, this`timerRunning
      ensures Valid() && timerMade == timerRunning == (old(timerMade) || e.timerOk)
    {
      if !timerMade {
        if !e.timerOk { return; }
        timerMade := true;
      }
      timerRunning := true;
    }

    method DisarmPostProvWatchdog()
      modifies this`timerRunning
      ensures timerMade ==> !timerRunning
      ensures !timerMade ==> timerRunning == old(timerRunning)
    {
      if timerMade {
        timerRunning := false;
      }
    }

    method FireReady()
      requires Valid()
      modifies this
      ensures Valid() && View() == S.FireReady(old(View()))
    {
      if readyFired { return; }
      var addr := if stack.Some? then stack.value.addr else 0;
      publishAddrSet := true;
      readyFired := true;
      DisarmPostProvWatchdog();
      if readyCb {
        calls := calls + [addr];
      }
    }

    /** A restart, as the statics see it: `dp_mesh_init` runs again. */
    method Restart()
      requires sensorRole
      modifies this
      ensures Valid() && View() == S.Restarted(old(View()), old(stack))
    {
      readyFired, publishAddrSet, timerMade, timerRunning, calls := false, false, false, false, [];
      if stack.Some? {
        FireReady();
      }
    }

    /** `dp_prov_factory_reset`: erases NVS, the stack's identity included, and restarts. */
    method FactoryReset()
      requires sensorRole
      modifies this
      ensures Valid() && View() == S.Restarted(old(View()), None)
    {
      stack := None;
      Restart();
    }

    method PostProvTimerCb(e: S.NodeEnv)
      requires Valid()
      modifies this
      ensures Valid() && View() == S.NodeStep(old(View()), S.WatchdogExpires, e)
    {
      timerRunning := false;  // one-shot
      if readyFired { return; }
      if e.resetOk {
        stack := None;
      } else {
        FactoryReset();
      }
    }

    /** For `Complete` the stack stores the identity before it calls back. */
    method HandleProvEvent(ev: S.NodeEvent, e: S.NodeEnv)
      requires Valid() && (ev.Complete? || ev.ResetEvt? || ev.OtherNodeEvent?)
      modifies this
      ensures Valid() && View() == S.NodeStep(old(View()), ev, e)
    {
      match ev {
        case Complete(addr, key) =>
          stack := Some(S.Identity(addr, key));
          ArmPostProvWatchdog(e);
        case ResetEvt => FactoryReset();
        case _ =>
      }
    }

    method OnCfgServer(stateChange: bool, op: M.Opcode, e: S.NodeEnv)
      requires Valid()
      modifies this
      ensures Valid()
      ensures View() == S.NodeStep(old(View()), if stateChange then S.StateChange(op) else S.OtherNodeEvent, e)
    {
      if !stateChange { return; }
      if op == M.OP_MODEL_PUB_SET {
        FireReady();
      }
    }

    /** `dp_mesh_publish_status`: the packed status goes to the stack, or the guards say why not. */
    method PublishStatus(s: Codec.BerthStatus, e: S.NodeEnv) returns (err: EspErr)
      requires Valid()
      modifies this
      ensures Valid() && View() == S.NodeStep(old(View()), S.Publish(Codec.StatusWire(s)), e)
      ensures err == if !old(readyFired) then INVALID_STATE else if e.publishOk then OK else FAIL
    {
      if !sensorRole { return INVALID_ARG; }
      if !readyFired || !publishAddrSet { return INVALID_STATE; }
      var wire := new u8[Codec.STATUS_WIRE_LEN];
      var len;
      err, len := Codec.StatusPack(s, wire, Codec.STATUS_WIRE_LEN);
      if err != OK { return; }
      err := InternalPublish(wire[..len], e);
    }

    method PublishDiag(d: Codec.BerthDiag, e: S.NodeEnv) returns (err: EspErr)
      requires Valid() && d.Valid()
      modifies this
      ensures Valid() && View() == S.NodeStep(old(View()), S.Publish(Codec.DiagWire(d)), e)
      ensures err == if !old(readyFired) then INVALID_STATE else if e.publishOk then OK else FAIL
    {
      if !sensorRole { return INVALID_ARG; }
      if !readyFired || !publishAddrSet { return INVALID_STATE; }
      var wire := new u8[Codec.DIAG_WIRE_LEN];
      var len;
      err, len := Codec.DiagPack(d, wire, Codec.DIAG_WIRE_LEN);
      if err != OK { return; }
      err := InternalPublish(wire[..len], e);
    }

    method InternalPublish(wire: seq<u8>, e: S.NodeEnv) returns (err: EspErr)
      modifies this`published
      ensures err == if e.publishOk then OK else FAIL
      ensures published == if e.publishOk then old(published) + [wire] else old(published)
    {
      if !e.publishOk { return FAIL; }
      published := published + [wire];
      return OK;
    }
  }
}
