/** What a berth table means: an injective map from unicast addresses to berths (`dp_prov.c`). */
module BerthMap {
  import opened Common

  const MAX_RECORDS := 16
  const BERTH_ID_MAX := 48
  const NODE_ID_MAX := 40

  datatype Entry = Entry(berth: string, node: string)

  type Berths = map<u16, Entry>

  /** Unicasts are non-zero, no berth is held twice, and the table's 16 slots suffice. */
  ghost predicate Sound(m: Berths) {
    && 0 !in m && |m| <= MAX_RECORDS
    && forall a, b :: a in m && b in m && a != b ==> m[a].berth != m[b].berth
  }

  /** The holders a new owner of the berth displaces. */
  ghost function Stale(m: Berths, addr: u16, berth: string): set<u16> {
    set a | a in m && a != addr && m[a].berth == berth
  }

  ghost predicate OutOfRoom(m: Berths, addr: u16, berth: string) {
    |m| == MAX_RECORDS && addr !in m && forall a :: a in m ==> m[a].berth != berth
  }

  /** Binding `addr` to `berth`: the displaced holder goes, everyone else stays. */
  ghost function Recorded(m: Berths, addr: u16, berth: string, node: string): Berths {
    (m - Stale(m, addr, berth))[addr := Entry(berth, node)]
  }

  /** Binding keeps the table injective and within its slots, whenever it is not out of room. */
  lemma RecordedIsSound(m: Berths, addr: u16, berth: string, node: string)
    requires Sound(m) && addr != 0 && !OutOfRoom(m, addr, berth)
    ensures Sound(Recorded(m, addr, berth, node))
    ensures addr in Recorded(m, addr, berth, node) && Recorded(m, addr, berth, node)[addr] == Entry(berth, node)
    ensures forall a :: a != addr ==>
      && (a in Recorded(m, addr, berth, node) <==> a in m && m[a].berth != berth)
      && (a in Recorded(m, addr, berth, node) ==> Recorded(m, addr, berth, node)[a] == m[a])
  {
    RecordedFits(m, addr, berth, node);
    var r := Recorded(m, addr, berth, node);
    forall a, b | a in r && b in r && a != b ensures r[a].berth != r[b].berth {
      assert a != addr ==> a in m && a !in Stale(m, addr, berth) && r[a] == m[a];
      assert b != addr ==> b in m && b !in Stale(m, addr, berth) && r[b] == m[b];
    }
  }

  lemma RecordedFits(m: Berths, addr: u16, berth: string, node: string)
    requires |m| <= MAX_RECORDS && !OutOfRoom(m, addr, berth)
    ensures |Recorded(m, addr, berth, node)| <= MAX_RECORDS
  {
    var keys, stale, r := m.Keys, Stale(m, addr, berth), Recorded(m, addr, berth, node);
    assert |keys| == |m| && |r.Keys| == |r|;
    assert r.Keys == (keys - stale) + {addr};
    assert addr in keys || keys * stale != {} || |keys| < MAX_RECORDS by {
      if addr !in m && |m| == MAX_RECORDS {
        var a :| a in m && m[a].berth == berth;
        assert a in keys * stale;
      }
    }
    SwapFits(keys, stale, addr, MAX_RECORDS);
  }

  /** The table is out of room exactly when the bound map would need a seventeenth slot. */
  lemma OutOfRoomExactly(m: Berths, addr: u16, berth: string, node: string)
    requires Sound(m)
    ensures OutOfRoom(m, addr, berth) <==> |Recorded(m, addr, berth, node)| > 16
  {
    var r := Recorded(m, addr, berth, node);
    if OutOfRoom(m, addr, berth) {
      assert Stale(m, addr, berth) == {};
      assert r.Keys == m.Keys + {addr} && |r.Keys| == |r| && |m.Keys| == |m|;
    } else {
      RecordedFits(m, addr, berth, node);
    }
  }

  /** Adding one element to a set with room, or from which something goes, or that has it already. */
  lemma SwapFits<T>(s: set<T>, out: set<T>, x: T, n: nat)
    requires |s| <= n && (x in s || s * out != {} || |s| < n)
    ensures |(s - out) + {x}| <= n
  {
    if x in s {
      CardinalitySubset((s - out) + {x}, s);
    } else if s * out != {} {
      var y :| y in s * out;
      CardinalitySubset(s - out, s - {y});
    } else {
      CardinalitySubset(s - out, s);
    }
  }

  lemma {:induction false} CardinalitySubset<T>(a: set<T>, b: set<T>)
    requires a <= b
    ensures |a| <= |b|
  {
    if a != {} {
      var x :| x in a;
      CardinalitySubset(a - {x}, b - {x});
    }
  }

  // ----- slots -----

  datatype Record = Record(addr: u16, berth: string, node: string)  // addr 0 = empty

  const EMPTY := Record(0, "", "")

  ghost predicate DistinctSlots(rs: seq<Record>) {
    && (forall i, j :: 0 <= i < j < |rs| && rs[i].addr != 0 ==> rs[i].addr != rs[j].addr)
    && forall i, j :: 0 <= i < j < |rs| && rs[i].addr != 0 && rs[j].addr != 0 ==> rs[i].berth != rs[j].berth
  }

  ghost function Addrs(rs: seq<Record>): set<u16> {
    set r | r in rs && r.addr != 0 :: r.addr
  }

  /** Some slot that holds `a`. */
  ghost function SlotOf(rs: seq<Record>, a: u16): (i: nat)
    requires a in Addrs(rs)
    ensures i < |rs| && rs[i].addr == a
  {
    var i :| 0 <= i < |rs| && rs[i].addr == a;
    i
  }

  ghost function MapOf(rs: seq<Record>): (m: Berths)
    ensures m.Keys == Addrs(rs)
  {
    map a | a in Addrs(rs) :: Entry(rs[SlotOf(rs, a)].berth, rs[SlotOf(rs, a)].node)
  }

  lemma MapAt(rs: seq<Record>, i: nat)
    requires DistinctSlots(rs) && i < |rs| && rs[i].addr != 0
    ensures rs[i].addr in MapOf(rs) && MapOf(rs)[rs[i].addr] == Entry(rs[i].berth, rs[i].node)
  {
    assert rs[i] in rs;
    var j := SlotOf(rs, rs[i].addr);
    assert j == i;
  }

  /** A map is the table's meaning when it agrees with every occupied slot and has no other key. */
  lemma MapIs(rs: seq<Record>, m: Berths)
    requires DistinctSlots(rs)
    requires forall i :: 0 <= i < |rs| && rs[i].addr != 0 ==>
      rs[i].addr in m && m[rs[i].addr] == Entry(rs[i].berth, rs[i].node)
    requires forall a :: a in m ==> exists i :: 0 <= i < |rs| && rs[i].addr == a && a != 0
    ensures MapOf(rs) == m
  {
    forall a | a in m ensures a in MapOf(rs) {
      var i :| 0 <= i < |rs| && rs[i].addr == a && a != 0;
      assert rs[i] in rs;
    }
    forall a | a in MapOf(rs) ensures a in m && MapOf(rs)[a] == m[a] {
      var i := SlotOf(rs, a);
    }
  }

  lemma SlotsAreSound(rs: seq<Record>)
    requires DistinctSlots(rs) && |rs| == MAX_RECORDS
    ensures Sound(MapOf(rs))
  {
    AddrsBound(rs);
    var m := MapOf(rs);
    assert |m| == |m.Keys|;
    forall a, b | a in m && b in m && a != b ensures m[a].berth != m[b].berth {
      var i, j := SlotOf(rs, a), SlotOf(rs, b);
      assert i < j || j < i;
    }
  }

  /** At most one address per slot, and fewer when a slot is empty. */
  lemma {:induction false} AddrsBound(rs: seq<Record>)
    ensures |Addrs(rs)| <= |rs|
    ensures (exists i :: 0 <= i < |rs| && rs[i].addr == 0) ==> |Addrs(rs)| < |rs|
  {
    if rs != [] {
      var k := |rs| - 1;
      AddrsBound(rs[..k]);
      assert rs == rs[..k] + [rs[k]];
      assert Addrs(rs) <= Addrs(rs[..k]) + {rs[k].addr} && (rs[k].addr == 0 ==> Addrs(rs) == Addrs(rs[..k]));
      CardinalitySubset(Addrs(rs), Addrs(rs[..k]) + {rs[k].addr});
      if i :| 0 <= i < |rs| && rs[i].addr == 0 {
        if i < k { assert rs[..k][i].addr == 0; }
      }
    }
  }

  lemma {:induction false} AddrsFull(rs: seq<Record>)
    requires DistinctSlots(rs) && forall i :: 0 <= i < |rs| ==> rs[i].addr != 0
    ensures |Addrs(rs)| == |rs|
  {
    if rs != [] {
      var k := |rs| - 1;
      AddrsFull(rs[..k]);
      assert rs == rs[..k] + [rs[k]];
      assert rs[k].addr !in Addrs(rs[..k]);
      assert Addrs(rs) == Addrs(rs[..k]) + {rs[k].addr};
    }
  }

  lemma ClearSlot(rs: seq<Record>, i: nat)
    requires DistinctSlots(rs) && i < |rs| && rs[i].addr != 0
    ensures var ts := rs[i := EMPTY];
      DistinctSlots(ts) && MapOf(ts) == MapOf(rs) - {rs[i].addr} && |Addrs(ts)| == |Addrs(rs)| - 1
  {
    hide DistinctSlots;
    var ts := rs[i := EMPTY];
    var m := MapOf(rs) - {rs[i].addr};
    ClearSlotDistinct(rs, i);
    forall j | 0 <= j < |ts| && ts[j].addr != 0
      ensures ts[j].addr in m && m[ts[j].addr] == Entry(ts[j].berth, ts[j].node)
    {
      MapAt(rs, j);
    }
    forall a | a in m ensures exists j :: 0 <= j < |ts| && ts[j].addr == a && a != 0 {
      var j := SlotOf(rs, a);
      assert ts[j].addr == a;
    }
    MapIs(ts, m);
    assert rs[i] in rs;
    assert Addrs(ts) == m.Keys == Addrs(rs) - {rs[i].addr};
  }

  lemma ClearSlotDistinct(rs: seq<Record>, i: nat)
    requires DistinctSlots(rs) && i < |rs| && rs[i].addr != 0
    ensures DistinctSlots(rs[i := EMPTY])
    ensures forall j :: 0 <= j < |rs| && j != i ==> rs[j].addr != rs[i].addr
  {
  }

  lemma FillSlot(rs: seq<Record>, i: nat, r: Record)
    requires DistinctSlots(rs) && i < |rs| && r.addr != 0
    requires rs[i].addr == r.addr || (rs[i].addr == 0 && r.addr !in Addrs(rs))
    requires Stale(MapOf(rs), r.addr, r.berth) == {}
    ensures var ts := rs[i := r];
      DistinctSlots(ts) && MapOf(ts) == MapOf(rs)[r.addr := Entry(r.berth, r.node)]
      && |Addrs(ts)| == |Addrs(rs)| + if rs[i].addr == 0 then 1 else 0
  {
    hide DistinctSlots;
    var ts, m0 := rs[i := r], MapOf(rs);
    var m := m0[r.addr := Entry(r.berth, r.node)];
    FillSlotDistinct(rs, i, r);
    forall j | 0 <= j < |ts| && ts[j].addr != 0
      ensures ts[j].addr in m && m[ts[j].addr] == Entry(ts[j].berth, ts[j].node)
    {
      if j != i { MapAt(rs, j); }
    }
    forall a | a in m ensures exists j :: 0 <= j < |ts| && ts[j].addr == a && a != 0 {
      var j := if a == r.addr then i else SlotOf(rs, a);
      assert ts[j].addr == a;
    }
    MapIs(ts, m);
    if rs[i].addr != 0 { assert rs[i] in rs; }
    assert Addrs(ts) == m.Keys == Addrs(rs) + {r.addr};
  }

  lemma FillSlotDistinct(rs: seq<Record>, i: nat, r: Record)
    requires DistinctSlots(rs) && i < |rs| && r.addr != 0
    requires rs[i].addr == r.addr || (rs[i].addr == 0 && r.addr !in Addrs(rs))
    requires Stale(MapOf(rs), r.addr, r.berth) == {}
    ensures DistinctSlots(rs[i := r])
    ensures forall j :: 0 <= j < |rs| && j != i ==> rs[j].addr != r.addr
  {
    forall j | 0 <= j < |rs| && j != i && rs[j].addr != 0 ensures rs[j].addr != r.addr && rs[j].berth != r.berth {
      assert rs[j] in rs;
      MapAt(rs, j);
      assert rs[j].addr !in Stale(MapOf(rs), r.addr, r.berth);
    }
  }
}
