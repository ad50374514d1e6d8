/** The near-field filter (`dp_radar_filter.c`) and the sensor's read / recover / publish loop (`sensor_main.c`). */
module SensorLoop {
  import opened Common
  import Codec

  // ----- near filter -----

  predicate InRange(s: Option<Sample>, proxCm: u16) {
    s.Some? && s.value.presence && 0 < s.value.distanceCm <= proxCm
  }

  /** At least `n` samples so far, and the last `n` of them all report presence within the threshold. */
  ghost predicate LastAllInRange(h: seq<Option<Sample>>, n: nat, proxCm: u16) {
    && |h| >= n
    && forall i :: |h| - n <= i < |h| ==> h[i].Some? && h[i].value.presence && 1 <= h[i].value.distanceCm <= proxCm
  }

  class NearFilter {
    const proxCm: u16
    const proxFrames: u8
    var streak: u8
    ghost var history: seq<Option<Sample>>  // every sample the filter was given

    ghost predicate Valid()
      reads this
    {
      && 1 <= proxFrames && streak <= proxFrames
      && LastAllInRange(history, streak, proxCm)
      && (streak < proxFrames ==> !LastAllInRange(history, streak + 1, proxCm))
    }

    /** The configuration allows 1 to 16 frames and 1 to 1000 cm. */
    constructor (proxCm: u16, proxFrames: u8)
      requires 1 <= proxFrames
      ensures Valid() && history == [] && this.proxCm == proxCm && this.proxFrames == proxFrames
    {
      this.proxCm := proxCm;
      this.proxFrames := proxFrames;
      streak := 0;
      history := [];
    }

    method Near(s: Option<Sample>) returns (near: bool)
      requires Valid()
      modifies this
      ensures Valid() && history == old(history) + [s]
      ensures near <==> LastAllInRange(history, proxFrames, proxCm)
      ensures near <==>
        && |history| >= proxFrames
        && forall i :: |history| - proxFrames <= i < |history| ==>
             && history[i].Some? && history[i].value.presence
             && 1 <= history[i].value.distanceCm <= proxCm
    {
      history := history + [s];
      if !InRange(s, proxCm) {
        streak := 0;
        assert !InRange(history[|history| - 1], proxCm);
        return false;
      }
      LastAllInRangeSnoc(old(history), s, streak, proxCm);
      LastAllInRangeSnoc(old(history), s, streak + 1, proxCm);
      if streak < proxFrames {
        streak := streak + 1;
      }
      return streak >= proxFrames;
    }
  }

  lemma {:induction false} LastAllInRangeSnoc(h: seq<Option<Sample>>, s: Option<Sample>, n: nat, proxCm: u16)
    requires InRange(s, proxCm)
    ensures LastAllInRange(h + [s], n + 1, proxCm) <==> LastAllInRange(h, n, proxCm)
    ensures LastAllInRange(h, n + 1, proxCm) ==> LastAllInRange(h, n, proxCm)
  {
    var t := h + [s];
    if LastAllInRange(t, n + 1, proxCm) {
      forall i | |h| - n <= i < |h| ensures InRange(h[i], proxCm) { assert t[i] == h[i]; }
    }
  }

  // ----- the loop -----

  /** One pass: what `dp_radar_read` returned, the tick count when it had, and the battery reading. */
  datatype Pass = Pass(read: Option<Sample>, now: u32, batteryPct: u8)

  /** A status handed to the mesh in pass `at`. */
  datatype Publication = Publication(at: nat, status: Codec.BerthStatus)

  const RECOVERY_THRESHOLD := 10

  function Successes(ps: seq<Pass>): (h: seq<Option<Sample>>)
    ensures forall s :: s in h ==> s.Some?
  {
    if ps == [] then []
    else
      var front, last := Successes(ps[..|ps| - 1]), ps[|ps| - 1];
      if last.read.Some? then front + [last.read] else front
  }

  /** How many of the latest passes failed in a row. */
  function FailRun(ps: seq<Pass>): nat {
    if ps == [] || ps[|ps| - 1].read.Some? then 0 else 1 + FailRun(ps[..|ps| - 1])
  }

  /** Every tenth failure in a row re-sends the mode-change command. */
  function RecoveryCount(ps: seq<Pass>): nat {
    if ps == [] then 0
    else
      RecoveryCount(ps[..|ps| - 1])
      + if ps[|ps| - 1].read == None && FailRun(ps) % RECOVERY_THRESHOLD == 0 then 1 else 0
  }

  /** The tick counter wraps around. */
  function TicksSince(now: u32, last: u32): (t: u32)
    ensures t == if now >= last then now - last else now + 0x1_0000_0000 - last
  {
    (now as int - last as int) % 0x1_0000_0000
  }

  /** The first `|ps|` passes of the endless loop in `dp_sensor_run`, whose radar reads return `ps`. `leds` is what
      the berth LED was set to, one value for each successful read. */
  method Run(ps: seq<Pass>, proxCm: u16, proxFrames: u8, interval: u32, nodeId: u8)
    returns (leds: seq<bool>, recoveries: nat, published: seq<Publication>)
    requires 1 <= proxFrames
    // the LED is on exactly when enough of the latest successful reads report presence within the threshold; failed
    // reads do not matter
    ensures LedsFollow(leds, Successes(ps), proxFrames, proxCm)
    ensures var h := Successes(ps);
      && |leds| == |h|
      && forall k :: 0 <= k < |leds| ==> (leds[k] <==>
           && k + 1 >= proxFrames
           && forall i :: k + 1 - proxFrames <= i <= k ==>
                h[i].value.presence && 1 <= h[i].value.distanceCm <= proxCm)
    ensures recoveries == RecoveryCount(ps)
    // every publication reports a successful read and whether that was near, and they come in order
    ensures FaithfulLog(ps, |ps|, published, proxCm, proxFrames, nodeId)
    ensures forall k :: 0 <= k < |published| ==> Reports(ps, leds, published[k], nodeId)
    // and a successful read is published exactly when nothing was yet, or the last publication was at tick 0, or it
    // is at least the interval old
    ensures DueOnes(ps, |ps|, published, interval)
  {
    hide LastAllInRange, LedsFollow, FaithfulLog, DueOnes, TicksSince, Codec.ToStatus;
    hide Successes, FailRun, RecoveryCount, InRange;
    StartsEmpty(ps, proxCm, proxFrames, interval, nodeId);
    var filter := new NearFilter(proxCm, proxFrames);
    var consecutiveFailures: nat, lastPublish: u32 := 0, 0;
    leds, recoveries, published := [], 0, [];
    for i := 0 to |ps|
      invariant filter.Valid() && filter.proxCm == proxCm && filter.proxFrames == proxFrames
      invariant filter.history == Successes(ps[..i])
      invariant consecutiveFailures < RECOVERY_THRESHOLD && consecutiveFailures == FailRun(ps[..i]) % RECOVERY_THRESHOLD
      invariant recoveries == RecoveryCount(ps[..i])
      invariant LedsFollow(leds, filter.history, proxFrames, proxCm)
      invariant FaithfulLog(ps, i, published, proxCm, proxFrames, nodeId)
      invariant DueOnes(ps, i, published, interval)
      invariant published != [] ==> published[|published| - 1].at < i
      invariant lastPublish == if published == [] then 0 else ps[published[|published| - 1].at].now
    {
      var p := ps[i];
      PassCounts(ps, i);
      LogKeeps(ps, i, published, proxCm, proxFrames, nodeId);
      if p.read.None? {
        consecutiveFailures := consecutiveFailures + 1;
        if consecutiveFailures == RECOVERY_THRESHOLD {
          recoveries := recoveries + 1;
          consecutiveFailures := 0;
        }
        NotDue(ps, i, published, interval);
        continue;
      }
      consecutiveFailures := 0;
      ghost var h := filter.history;
      var near := filter.Near(p.read);
      LedNext(leds, h, p.read, near, proxFrames, proxCm);
      leds := leds + [near];
      if lastPublish == 0 || TicksSince(p.now, lastPublish) >= interval {
        var status := Codec.ToStatus(p.read.value, near, nodeId, nodeId, p.batteryPct);
        DueNow(ps, published, Publication(i, status), interval);
        LogNext(ps, published, Publication(i, status), near, proxCm, proxFrames, nodeId);
        published := published + [Publication(i, status)];
        lastPublish := p.now;
      } else {
        NotDue(ps, i, published, interval);
      }
    }
    assert ps[..|ps|] == ps;
    LedsSay(leds, Successes(ps), proxFrames, proxCm);
    forall k | 0 <= k < |published| ensures Reports(ps, leds, published[k], nodeId) {
      LogSays(ps, leds, published, k, proxCm, proxFrames, nodeId);
    }
  }

  /** The publication in full: the configured ids, the sample and battery reading of its own pass, and as occupancy
      what that pass set the LED to. */
  ghost predicate Reports(ps: seq<Pass>, leds: seq<bool>, p: Publication, nodeId: u8) {
    p.at < |ps| && ps[p.at].read.Some? &&
    var n := |Successes(ps[..p.at + 1])|;
    && 1 <= n <= |leds|
    && p.status.occupied == leds[n - 1]
    && p.status.nodeId == nodeId && p.status.berthId == nodeId
    && p.status.rawMm == ps[p.at].read.value.distanceCm * 10 % 0x1_0000
    && p.status.batteryPct == ps[p.at].batteryPct
    && p.status.tsMs == ps[p.at].read.value.tsMs
  }

  lemma {:induction false} LedsSay(leds: seq<bool>, h: seq<Option<Sample>>, n: nat, proxCm: u16)
    requires LedsFollow(leds, h, n, proxCm) && forall s :: s in h ==> s.Some?
    ensures |leds| == |h|
    ensures forall k :: 0 <= k < |leds| ==> (leds[k] <==>
      k + 1 >= n && forall i :: k + 1 - n <= i <= k ==> h[i].value.presence && 1 <= h[i].value.distanceCm <= proxCm)
  {
    forall k | 0 <= k < |leds|
      ensures leds[k] <==>
        k + 1 >= n && forall i :: k + 1 - n <= i <= k ==> h[i].value.presence && 1 <= h[i].value.distanceCm <= proxCm
    {
      var t := h[..k + 1];
      forall i | 0 <= i <= k ensures t[i] == h[i] && h[i].Some? {}
      if LastAllInRange(t, n, proxCm) {
        forall i | k + 1 - n <= i <= k ensures h[i].value.presence && 1 <= h[i].value.distanceCm <= proxCm {
          assert t[i].value.presence;
        }
      }
    }
  }

  /** The reads of the first `n` passes come first. */
  lemma {:induction false} SuccessesPrefix(ps: seq<Pass>, n: nat)
    requires n <= |ps|
    ensures Successes(ps[..n]) <= Successes(ps)
  {
    if n < |ps| {
      assert ps[..|ps| - 1][..n] == ps[..n];
      SuccessesPrefix(ps[..|ps| - 1], n);
    } else {
      assert ps[..n] == ps;
    }
  }

  lemma {:induction false} LogSays(ps: seq<Pass>, leds: seq<bool>, published: seq<Publication>, k: nat, proxCm: u16,
                                   proxFrames: u8, nodeId: u8)
    requires LedsFollow(leds, Successes(ps), proxFrames, proxCm)
    requires FaithfulLog(ps, |ps|, published, proxCm, proxFrames, nodeId) && k < |published|
    ensures Reports(ps, leds, published[k], nodeId)
  {
    hide LastAllInRange;
    var at := published[k].at;
    SuccessesPrefix(ps, at + 1);
    var n := |Successes(ps[..at + 1])|;
    PassCounts(ps, at);
    assert Successes(ps)[..n] == Successes(ps[..at + 1]);
    assert leds[n - 1] <==> LastAllInRange(Successes(ps)[..n - 1 + 1], proxFrames, proxCm);
  }

  ghost predicate Faithful(ps: seq<Pass>, p: Publication, proxCm: u16, proxFrames: u8, nodeId: u8) {
    p.at < |ps| && ps[p.at].read.Some? &&
    var near := LastAllInRange(Successes(ps[..p.at + 1]), proxFrames, proxCm);
    var s := ps[p.at].read.value;
    p.status == Codec.BerthStatus(nodeId, nodeId, near, s.distanceCm * 10 % 0x1_0000, ps[p.at].batteryPct, s.tsMs)
  }

  ghost predicate FaithfulLog(ps: seq<Pass>, n: nat, published: seq<Publication>, proxCm: u16, proxFrames: u8,
                              nodeId: u8)
  {
    && (forall k :: 0 <= k < |published| ==>
          published[k].at < n && Faithful(ps, published[k], proxCm, proxFrames, nodeId))
    && forall k :: 0 < k < |published| ==> published[k - 1].at < published[k].at
  }

  lemma LogNext(ps: seq<Pass>, published: seq<Publication>, p: Publication, near: bool, proxCm: u16, proxFrames: u8,
                nodeId: u8)
    requires FaithfulLog(ps, p.at, published, proxCm, proxFrames, nodeId)
    requires p.at < |ps| && ps[p.at].read.Some?
    requires near <==> LastAllInRange(Successes(ps[..p.at + 1]), proxFrames, proxCm)
    requires p.status == Codec.ToStatus(ps[p.at].read.value, near, nodeId, nodeId, ps[p.at].batteryPct)
    ensures FaithfulLog(ps, p.at + 1, published + [p], proxCm, proxFrames, nodeId)
  {
  }

  /** A log covers every longer history in which nothing new was published. */
  lemma LogKeeps(ps: seq<Pass>, n: nat, published: seq<Publication>, proxCm: u16, proxFrames: u8,
                 nodeId: u8)
    requires FaithfulLog(ps, n, published, proxCm, proxFrames, nodeId)
    ensures FaithfulLog(ps, n + 1, published, proxCm, proxFrames, nodeId)
  {
  }

  ghost predicate LedsFollow(leds: seq<bool>, h: seq<Option<Sample>>, n: nat, proxCm: u16) {
    |leds| == |h| && forall k :: 0 <= k < |h| ==> (leds[k] <==> LastAllInRange(h[..k + 1], n, proxCm))
  }

  lemma LedNext(leds: seq<bool>, h: seq<Option<Sample>>, s: Option<Sample>, near: bool, n: nat, proxCm: u16)
    requires LedsFollow(leds, h, n, proxCm) && (near <==> LastAllInRange(h + [s], n, proxCm))
    ensures LedsFollow(leds + [near], h + [s], n, proxCm)
  {
    hide LastAllInRange;
    assert (h + [s])[..|h| + 1] == h + [s];
    forall k | 0 <= k < |h| ensures leds[k] <==> LastAllInRange((h + [s])[..k + 1], n, proxCm) {
      assert (h + [s])[..k + 1] == h[..k + 1];
    }
  }

  /** What pass `i` adds to the counts. */
  lemma PassCounts(ps: seq<Pass>, i: nat)
    requires i < |ps|
    ensures var before, after := ps[..i], ps[..i + 1];
      if ps[i].read.Some? then
        && Successes(after) == Successes(before) + [ps[i].read]
        && FailRun(after) == 0 && RecoveryCount(after) == RecoveryCount(before)
      else
        && Successes(after) == Successes(before) && FailRun(after) == FailRun(before) + 1
        && RecoveryCount(after) == RecoveryCount(before) + if FailRun(after) % RECOVERY_THRESHOLD == 0 then 1 else 0
  {
    assert ps[..i + 1][..i] == ps[..i];
  }

  lemma {:induction false} StartsEmpty(ps: seq<Pass>, proxCm: u16, proxFrames: u8, interval: u32, nodeId: u8)
    ensures LedsFollow([], [], proxFrames, proxCm)
    ensures ps[..0] == [] && Successes([]) == [] && FailRun([]) == 0 && RecoveryCount([]) == 0
    ensures FaithfulLog(ps, 0, [], proxCm, proxFrames, nodeId) && DueOnes(ps, 0, [], interval)
  {
  }

  predicate PublishedAt(published: seq<Publication>, i: nat) {
    exists k :: 0 <= k < |published| && published[k].at == i
  }

  /** The last publication made before pass `i`. */
  function Before(published: seq<Publication>, i: nat): Option<Publication> {
    if published == [] then None
    else
      var k := |published| - 1;
      if published[k].at < i then Some(published[k]) else Before(published[..k], i)
  }

  predicate Due(ps: seq<Pass>, last: Option<Publication>, now: u32, interval: u32) {
    last.Some? && last.value.at < |ps| ==>
      var then_ := ps[last.value.at].now;
      then_ == 0 || TicksSince(now, then_) >= interval
  }

  /** The first `n` passes published exactly the successful reads that were due. */
  ghost predicate DueOnes(ps: seq<Pass>, n: nat, published: seq<Publication>, interval: u32) {
    && (forall k :: 0 <= k < |published| ==> published[k].at < n)
    && forall i :: 0 <= i < n <= |ps| && ps[i].read.Some? ==>
         (PublishedAt(published, i) <==> Due(ps, Before(published, i), ps[i].now, interval))
  }

  lemma {:induction false} NotDue(ps: seq<Pass>, n: nat, published: seq<Publication>, interval: u32)
    requires n < |ps| && DueOnes(ps, n, published, interval)
    requires ps[n].read.Some? ==>
      published != [] && !Due(ps, Some(published[|published| - 1]), ps[n].now, interval)
    ensures DueOnes(ps, n + 1, published, interval)
  {
  }

  lemma {:induction false} DueNow(ps: seq<Pass>, published: seq<Publication>, p: Publication, interval: u32)
    requires p.at < |ps| && DueOnes(ps, p.at, published, interval)
    requires published != [] ==> Due(ps, Some(published[|published| - 1]), ps[p.at].now, interval)
    ensures DueOnes(ps, p.at + 1, published + [p], interval)
  {
    var more := published + [p];
    assert more[..|published|] == published && more[|published|] == p;
    forall i | 0 <= i < p.at
      ensures Before(more, i) == Before(published, i) && (PublishedAt(more, i) <==> PublishedAt(published, i))
    {
      if PublishedAt(published, i) {
        var k :| 0 <= k < |published| && published[k].at == i;
        assert more[k].at == i;
      }
    }
    assert Before(more, p.at) == Before(published, p.at);
    assert PublishedAt(more, p.at);
  }

  /** So the read that follows a publication made at tick 0 is published too, however soon it comes: `last_publish` is
      back at its initial value. */
  lemma {:induction false} TickZeroPublishesAgain(ps: seq<Pass>, published: seq<Publication>, interval: u32, i: nat)
    requires DueOnes(ps, |ps|, published, interval) && i + 1 < |ps|
    requires forall k :: 0 < k < |published| ==> published[k - 1].at < published[k].at
    requires PublishedAt(published, i) && ps[i].now == 0 && ps[i + 1].read.Some?
    ensures PublishedAt(published, i + 1)
  {
    var next := i + 1;
    LastBefore(published, i);
    assert Due(ps, Before(published, next), ps[next].now, interval);
  }

  lemma {:induction false} LastBefore(published: seq<Publication>, i: nat)
    requires forall k :: 0 < k < |published| ==> published[k - 1].at < published[k].at
    requires PublishedAt(published, i)
    ensures Before(published, i + 1).Some? && Before(published, i + 1).value.at == i
  {
    var k := |published| - 1;
    if published[k].at > i {
      var j :| 0 <= j < |published| && published[j].at == i;
      assert published[..k][j].at == i;
      LastBefore(published[..k], i);
    } else {
      var j :| 0 <= j < |published| && published[j].at == i;
      Ascending(published, j, k);
    }
  }

  lemma {:induction false} Ascending(published: seq<Publication>, j: nat, k: nat)
    requires j <= k < |published| && forall m :: 0 < m < |published| ==> published[m - 1].at < published[m].at
    ensures published[j].at <= published[k].at
    decreases k - j
  {
    if j < k { Ascending(published, j, k - 1); }
  }

  /** Concretely: two good reads five ticks apart, the first at tick 0, and an interval of 100 ticks; both are
      published, where the second would have to wait had the first come at tick 1. */
  lemma {:induction false} TickZeroInstance(s: Sample, published: seq<Publication>, first: u32)
    requires first <= 1
    requires var ps := [Pass(Some(s), first, 80), Pass(Some(s), 5, 80)];
      DueOnes(ps, 2, published, 100) && FaithfulLog(ps, 2, published, 100, 1, 7)
    ensures PublishedAt(published, 0) && (PublishedAt(published, 1) <==> first == 0)
  {
    hide Faithful;
    var ps := [Pass(Some(s), first, 80), Pass(Some(s), 5, 80)];
    NothingBefore(published);
    assert Due(ps, Before(published, 0), ps[0].now, 100);
    LastBefore(published, 0);
    assert PublishedAt(published, 1) <==> Due(ps, Before(published, 1), ps[1].now, 100);
  }

  lemma {:induction false} NothingBefore(published: seq<Publication>)
    ensures Before(published, 0) == None
  {
    if published != [] { NothingBefore(published[..|published| - 1]); }
  }

  // ----- what the counts mean -----

  /** A run of `k` failed reads after a success, or at the start, re-sends the command exactly `k / 10` times. */
  lemma {:induction false} FailuresRecover(ps: seq<Pass>, fails: seq<Pass>)
    requires ps == [] || ps[|ps| - 1].read.Some?
    requires forall p :: p in fails ==> p.read == None
    ensures FailRun(ps + fails) == |fails|
    ensures RecoveryCount(ps + fails) == RecoveryCount(ps) + |fails| / 10
  {
    if fails == [] {
      assert ps + fails == ps;
    } else {
      var k := |fails| - 1;
      FailuresRecover(ps, fails[..k]);
      assert (ps + fails)[..|ps| + k] == ps + fails[..k];
      assert (ps + fails)[|ps| + k] == fails[k] && fails[k] in fails;
    }
  }

  /** Failed reads leave the near decision untouched: it depends on the successful reads alone. */
  lemma {:induction false} FailuresKeepSamples(ps: seq<Pass>, fails: seq<Pass>)
    requires forall p :: p in fails ==> p.read == None
    ensures Successes(ps + fails) == Successes(ps)
  {
    if fails == [] {
      assert ps + fails == ps;
    } else {
      var k := |fails| - 1;
      FailuresKeepSamples(ps, fails[..k]);
      assert (ps + fails)[..|ps| + k] == ps + fails[..k];
      assert (ps + fails)[|ps| + k] == fails[k] && fails[k] in fails;
    }
  }
}
