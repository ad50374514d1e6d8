/** What the berth table's contracts add up to over saves, reboots and migration (`dp_prov.c`). */
module Persistence {
  import opened Common
  import opened BerthMap
  import opened BerthTable

  // ----- runs of operations and reboots -----

  /** One call, with the outcome of its save; reads succeed. */
  datatype Op = Record(addr: u16, berth: string, node: string, saveOk: bool) | Forget(addr: u16, saveOk: bool) | Boot

  /** The table in RAM, if loaded, and the map that flash stands for. */
  datatype Disk = Disk(ram: Option<Berths>, stored: Berths)
  {
    ghost function Meaning(): Berths { if ram.Some? then ram.value else stored }
  }

  /** The effect of an operation on the map, when it is not a reboot. */
  ghost function Effect(m: Berths, op: Op): Berths {
    match op
    case Record(a, b, n, _) =>
      if BadArguments(a, Some(b), Some(n)) != OK || OutOfRoom(m, a, b) then m else Recorded(m, a, b, n)
    case Forget(a, _) => m - {a}
    case Boot => m
  }

  ghost predicate Saves(m: Berths, op: Op) {
    match op
    case Record(a, b, n, saveOk) => saveOk && BadArguments(a, Some(b), Some(n)) == OK && !OutOfRoom(m, a, b)
    case Forget(a, saveOk) => saveOk && a in m
    case Boot => false
  }

  /** What `RecordNode`, `ForgetUnicast` and `Reboot` promise, in terms of the two maps. */
  ghost function Apply(d: Disk, op: Op): Disk {
    if op.Boot? then Disk(None, d.stored)
    else if op.Record? && BadArguments(op.addr, Some(op.berth), Some(op.node)) != OK then d
    else
      var m := Effect(d.Meaning(), op);
      Disk(Some(m), if Saves(d.Meaning(), op) then m else d.stored)
  }

  ghost function DiskOf(t: Table): Disk
    reads t, t.records
  {
    Disk(if t.loaded then Some(t.Map()) else None, FlashMap(t.flash))
  }

  /** The table itself does just that, whether or not it is loaded yet. */
  method Perform(t: Table, op: Op)
    requires t.Valid() && t.CountExact() && (op.Forget? ==> op.addr != 0)
    modifies t, t.records
    ensures t.Valid() && t.CountExact() && DiskOf(t) == Apply(old(DiskOf(t)), op)
  {
    hide DistinctSlots, MapOf, Addrs, GoodFlash, FlashMap, Recorded, OutOfRoom;
    LoadsWhatFlashMeans(t.flash, t.version, Nvs(true, true, true, op.Boot? || op.saveOk));
    match op {
      case Record(a, b, n, saveOk) => var _ := t.RecordNode(a, Some(b), Some(n), Nvs(true, true, true, saveOk));
      case Forget(a, saveOk) => var _ := t.ForgetUnicast(a, Nvs(true, true, true, saveOk));
      case Boot => t.Reboot();
    }
  }

  lemma LoadsWhatFlashMeans(f: Flash, version: u8, nvs: Nvs)
    requires nvs.openOk && nvs.sizeOk && nvs.readOk
    ensures Loads(f, version, nvs) == Some(FlashMap(f))
  {
  }

  ghost function Run(d: Disk, ops: seq<Op>): Disk {
    if ops == [] then d else Apply(Run(d, ops[..|ops| - 1]), ops[|ops| - 1])
  }

  /** The same operations on a map that never reboots. */
  ghost function Folded(m: Berths, ops: seq<Op>): Berths {
    if ops == [] then m else Effect(Folded(m, ops[..|ops| - 1]), ops[|ops| - 1])
  }

  predicate SaveSucceeds(op: Op) { !op.Boot? ==> op.saveOk }

  lemma StepIsInvisible(d: Disk, op: Op)
    requires d.stored == d.Meaning() && Sound(d.stored) && SaveSucceeds(op)
    ensures var d' := Apply(d, op); d'.stored == d'.Meaning() == Effect(d.stored, op) && Sound(d'.stored)
  {
    hide Sound, Recorded, OutOfRoom, BadArguments;
    EffectIsSound(d.stored, op);
    if op.Forget? && op.addr !in d.stored { assert Effect(d.stored, op) == d.stored; }
  }

  /** When saves succeed, reboots anywhere in a run make no difference, and flash is never behind. */
  lemma {:induction false} RebootsAreInvisible(d: Disk, ops: seq<Op>)
    requires Sound(d.stored) && (d.ram.Some? ==> d.ram.value == d.stored)
    requires forall k :: 0 <= k < |ops| ==> SaveSucceeds(ops[k])
    ensures Run(d, ops).stored == Run(d, ops).Meaning() == Folded(d.stored, ops)
    ensures Sound(Run(d, ops).stored)
  {
    if ops != [] {
      hide Sound, Effect, Apply, SaveSucceeds;
      var k := |ops| - 1;
      RebootsAreInvisible(d, ops[..k]);
      StepIsInvisible(Run(d, ops[..k]), ops[k]);
    }
  }

  lemma EffectIsSound(m: Berths, op: Op)
    requires Sound(m)
    ensures Sound(Effect(m, op))
  {
    if op.Record? && BadArguments(op.addr, Some(op.berth), Some(op.node)) == OK && !OutOfRoom(m, op.addr, op.berth) {
      RecordedIsSound(m, op.addr, op.berth, op.node);
    } else if op.Forget? {
      var f := Effect(m, op);
      assert f.Keys <= m.Keys && |f| == |f.Keys| && |m| == |m.Keys|;
      CardinalitySubset(f.Keys, m.Keys);
    }
  }

  /** Whatever saves fail, flash holds the table as it stood in RAM at some earlier moment, or as it was at first. */
  lemma {:induction false} FlashIsSomePastTable(d: Disk, ops: seq<Op>)
    ensures Run(d, ops).stored == d.stored
         || exists k :: 0 <= k <= |ops| && Run(d, ops[..k]).ram == Some(Run(d, ops).stored)
  {
    if ops != [] {
      var n := |ops| - 1;
      var before, after := Run(d, ops[..n]), Run(d, ops);
      FlashIsSomePastTable(d, ops[..n]);
      if after.stored != before.stored {
        assert ops[..|ops|] == ops;
        assert Run(d, ops[..|ops|]).ram == Some(after.stored);
      } else if after.stored != d.stored {
        var k :| 0 <= k <= n && Run(d, ops[..n][..k]).ram == Some(before.stored);
        assert ops[..n][..k] == ops[..k];
      }
    }
  }

  // ----- migration -----

  /** A version-1 blob stands for the same unicast-to-berth map, with empty node ids. */
  lemma MigrationKeepsBerths(recs1: seq<RecordV1>, count: u8)
    requires GoodFlash(SizeV1(1, count, recs1))
    ensures var m := FlashMap(SizeV1(1, count, recs1));
      && Sound(m)
      && (forall a :: a in m <==> a != 0 && exists i :: 0 <= i < |recs1| && recs1[i].addr == a)
      && forall i :: 0 <= i < |recs1| && recs1[i].addr != 0 ==> m[recs1[i].addr] == Entry(recs1[i].berth, "")
  {
    var rs := Migrated(recs1);
    SlotsAreSound(rs);
    forall i | 0 <= i < |recs1| && recs1[i].addr != 0
      ensures recs1[i].addr in MapOf(rs) && MapOf(rs)[recs1[i].addr] == Entry(recs1[i].berth, "")
    {
      MapAt(rs, i);
    }
    forall a | a in MapOf(rs) ensures a != 0 && exists i :: 0 <= i < |recs1| && recs1[i].addr == a {
      assert recs1[SlotOf(rs, a)].addr == a;
    }
  }

  // ----- errors at boot -----

  /** A table that either firmware version left in flash, with something in it. */
  ghost predicate HoldsBerths(f: Flash) {
    GoodFlash(f) && ExactFlash(f) && FlashMap(f) != map[]
  }

  /** Whether NVS yields all that loading this layout needs. */
  predicate Readable(f: Flash, nvs: Nvs) { nvs.readOk && (f.SizeV1? ==> nvs.sizeOk) }

  lemma BootLoads(f: Flash, nvs: Nvs)
    requires HoldsBerths(f) && nvs.openOk
    ensures Loads(f, 0, nvs) == Some(FlashMap(f)) <==> Readable(f, nvs)
    ensures Loads(f, 0, nvs) == Some(map[]) <==> !Readable(f, nvs) && !(f.SizeV1? && nvs.sizeOk)
  {
  }

  /** Booting with a stored table of either layout, once NVS opens: the table is there exactly when NVS yields its blob,
      and for a version-1 blob its size. Otherwise loading reports success with an empty table, except for a version-1
      blob whose size is known. */
  method BootTable(f: Flash, nvs: Nvs) returns (t: Table, err: EspErr)
    requires HoldsBerths(f) && nvs.openOk
    ensures fresh(t) && fresh(t.records) && t.Valid() && t.CountExact() && FlashMap(t.flash) == FlashMap(f)
    ensures err == OK && t.Map() == FlashMap(f) <==> Readable(f, nvs)
    ensures err == OK && t.Map() == map[] <==> !Readable(f, nvs) && !(f.SizeV1? && nvs.sizeOk)
    ensures err == OK ==> t.loaded
  {
    hide DistinctSlots, MapOf, Addrs, GoodFlash, ExactFlash, FlashMap, Loads;
    BootLoads(f, nvs);
    t := new Table(f);
    err := t.Init(nvs);
  }

  /** And an empty table loaded by mistake is soon the one in flash: after such a boot the first berth recorded, once
      saved, is all that is left of the stored ones. */
  method BootErrorLosesBerths(f: Flash, nvs: Nvs, addr: u16, berth: string) returns (after: Flash, err: EspErr)
    requires HoldsBerths(f) && nvs.openOk && !Readable(f, nvs) && !(f.SizeV1? && nvs.sizeOk)
    requires BadArguments(addr, Some(berth), None) == OK
    ensures err == OK && FlashMap(after) == map[addr := Entry(berth, "")]
  {
    hide DistinctSlots, MapOf, Addrs, GoodFlash, ExactFlash, FlashMap, Loads, OutOfRoom, HoldsBerths;
    var t, _ := BootTable(f, nvs);
    RecordedAlone(addr, berth);
    err := t.RecordNode(addr, Some(berth), None, Nvs(true, true, true, true));
    after := t.flash;
  }

  lemma RecordedAlone(addr: u16, berth: string)
    ensures Recorded(map[], addr, berth, "") == map[addr := Entry(berth, "")] && !OutOfRoom(map[], addr, berth)
  {
  }

  /** Such a table exists: one berth, stored by either firmware version. */
  lemma OneBerthIsStored()
    ensures HoldsBerths(SizeV2(2, 1, [BerthMap.Record(3, "pier-1", "")] + seq(15, _ => EMPTY)))
    ensures HoldsBerths(SizeV1(1, 1, [RecordV1(3, "pier-1")] + seq(15, _ => RecordV1(0, ""))))
  {
    var rs := [BerthMap.Record(3, "pier-1", "")] + seq(15, _ => EMPTY);
    var rs1 := [RecordV1(3, "pier-1")] + seq(15, _ => RecordV1(0, ""));
    assert rs[0].addr == 3 && forall i :: 1 <= i < |rs| ==> rs[i] == EMPTY;
    assert rs1[0].addr == 3 && forall i :: 1 <= i < |rs1| ==> rs1[i] == RecordV1(0, "");
    assert Migrated(rs1) == rs;
    MapIs(rs, map[3 := Entry("pier-1", "")]);
    assert Addrs(rs) == MapOf(rs).Keys == {3};
  }
}
