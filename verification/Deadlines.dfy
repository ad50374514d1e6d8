/** Real time at both ends: runs of the joint system with a time on every action. When gateway and sensor see their
    provisioning complete less than 18 s apart, the sensor's 90 s watchdog does not expire under the gateway. */
module Deadlines {
  import opened GatewayModel
  import opened Moves
  import opened SensorModel
  import opened Timing
  import opened Agreement

  const WATCHDOG_MS := 90_000
  const APART_MS := 18_000

  /** The gateway's clock, the time of the last action, and when each sensor's watchdog was last started. */
  datatype Clocks = Clocks(gw: Clock, now: nat, armed: map<Uuid, nat>)

  function Timed(s: Sys, c: Clocks, a: Action, now: nat): Clocks {
    match a
    case GatewayDoes(ev, env) => c.(gw := Ticked(c.gw, s.g, Input(ev, env), now), now := now)
    case NodeDoes(u, Complete(_, _), _) => c.(armed := c.armed[u := now], now := now)
    case _ => c.(now := now)
  }

  /** What time allows. It goes forward; the gateway's stack answers a command within its timeout; a watchdog expires
      90 s after it was last started; and a flow's provisioning completes at the gateway less than 18 s after it did at
      the sensor, if it did there already. */
  predicate Timely(s: Sys, c: Clocks, a: Action, now: nat) {
    && c.now <= now
    && (Configuring(s.g) ==> now <= c.gw.last + MSG_TIMEOUT_MS)
    && (a.NodeDoes? && a.nev.WatchdogExpires? && a.uuid in c.armed ==> c.armed[a.uuid] + WATCHDOG_MS <= now)
    && (a.GatewayDoes? && a.ev.ProvComplete? && s.g.flow.Some? ==> Close(s, c, a.ev.uuid, now))
  }

  predicate Close(s: Sys, c: Clocks, u: Uuid, at: nat) {
    u in s.sensors && s.sensors[u].watchdog ==> u in c.armed && at < c.armed[u] + APART_MS
  }

  /** `at[k]` is the time of `acts[k]`. */
  ghost function ClocksAfter(s: Sys, c: Clocks, acts: seq<Action>, at: seq<nat>): Clocks
    requires |acts| == |at|
  {
    if acts == [] then c
    else
      var k := |acts| - 1;
      Timed(After(s, acts[..k]), ClocksAfter(s, c, acts[..k], at[..k]), acts[k], at[k])
  }

  ghost predicate AllTimely(s: Sys, c: Clocks, acts: seq<Action>, at: seq<nat>)
    requires |acts| == |at|
  {
    acts != [] ==>
      var k := |acts| - 1;
      var t := After(s, acts[..k]);
      && AllTimely(s, c, acts[..k], at[..k])
      && May(t, acts[k]) && Timely(t, ClocksAfter(s, c, acts[..k], at[..k]), acts[k], at[k])
  }

  /** The watchdogs that run are on the books, and the flow's sensor started its own late enough. */
  ghost predicate InTime(s: Sys, c: Clocks) {
    && OnTime(s.g, c.gw) && Resting(s.g)
    && (forall u :: u in s.sensors && s.sensors[u].watchdog ==> u in c.armed)
    && (Configuring(s.g) ==> c.gw.start <= c.now && Close(s, c, s.g.flow.value.uuid, c.gw.start))
  }

  lemma GatewayKeepsTime(s: Sys, c: Clocks, ev: Event, e: Env, now: nat)
    requires InTime(s, c) && GatewayMay(s, ev) && Timely(s, c, GatewayDoes(ev, e), now)
    ensures InTime(GatewayDid(s, ev, e), Timed(s, c, GatewayDoes(ev, e), now))
  {
    hide Step, OnTime, Said, HasUuid, GatewayDid, SparesTarget;
    StepOnTime(s.g, Input(ev, e), c.gw, now);
    StepRests(s.g, ev, e);
    StepMoves(s.g, ev, e);
    Did(s, ev, e);
  }

  lemma NodeKeepsTime(s: Sys, c: Clocks, a: Action, now: nat)
    requires InTime(s, c) && May(s, a) && Timely(s, c, a, now) && !a.GatewayDoes?
    ensures InTime(Do(s, a), Timed(s, c, a, now))
  {
    hide OnTime, Resting;
  }

  lemma {:induction false} RunKeepsTime(s: Sys, c: Clocks, acts: seq<Action>, at: seq<nat>)
    requires |acts| == |at| && InTime(s, c) && AllTimely(s, c, acts, at)
    ensures InTime(After(s, acts), ClocksAfter(s, c, acts, at))
  {
    if acts != [] {
      hide InTime, Timely, GatewayDid, NodeHeard, Timed, GatewayMay, NodeMay;
      var k := |acts| - 1;
      var t, d := After(s, acts[..k]), ClocksAfter(s, c, acts[..k], at[..k]);
      RunKeepsTime(s, c, acts[..k], at[..k]);
      match acts[k]
      case GatewayDoes(ev, env) => GatewayKeepsTime(t, d, ev, env, at[k]);
      case _ => NodeKeepsTime(t, d, acts[k], at[k]);
    }
  }

  /** The gateway boots at time 0 and every watchdog that runs then is on the books. */
  ghost predicate StartsInTime(s: Sys, c: Clocks) {
    && Booted(s.g) && c.gw == Clock(0, 0, Configs(s.g.cmds))
    && forall u :: u in s.sensors && s.sensors[u].watchdog ==> u in c.armed
  }

  /** In every timed run over the lossy channel: while the gateway configures a node, the watchdog of the sensor that
      holds the flow's UUID does not expire. */
  lemma {:induction false} NoExpiryWhileConfiguring(s: Sys, c: Clocks, acts: seq<Action>, at: seq<nat>, u: Uuid,
                                                    e: NodeEnv, now: nat)
    requires |acts| == |at| && StartsInTime(s, c) && AllTimely(s, c, acts, at)
    requires var t, expiry := After(s, acts), NodeDoes(u, WatchdogExpires, e);
      May(t, expiry) && Timely(t, ClocksAfter(s, c, acts, at), expiry, now)
    ensures var t := After(s, acts);
      !(Configuring(t.g) && t.g.flow.value.uuid == u)
  {
    hide After, ClocksAfter, AllTimely, Configs;
    RunKeepsTime(s, c, acts, at);
  }
}
