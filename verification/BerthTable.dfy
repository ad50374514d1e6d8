/** The gateway's persistent berth table (`dp_prov.c`). */
module BerthTable {
  import opened Common
  import opened BerthMap

  const TABLE_VERSION: u8 := 2

  datatype RecordV1 = RecordV1(addr: u16, berth: string)

  /** The one NVS blob: its namespace or its key missing, of the size of either table layout, or of another size. */
  datatype Flash =
    | NoNamespace
    | NoKey
    | SizeV1(version: u8, count: u8, recs1: seq<RecordV1>)
    | SizeV2(version: u8, count: u8, records: seq<Record>)
    | OtherSize

  /** How NVS behaves during one call: opening, the query for the blob's size, reading the blob, saving. Opening a
      namespace that does not exist is not a failure; a missing key is reported as such by both the query and the read
      unless they fail otherwise. A failed read leaves the caller's buffer alone; a save is atomic. */
  datatype Nvs = Nvs(openOk: bool, sizeOk: bool, readOk: bool, saveOk: bool)

  function Migrated(recs1: seq<RecordV1>): (rs: seq<Record>)
    ensures |rs| == |recs1| && forall i :: 0 <= i < |rs| ==> rs[i] == Record(recs1[i].addr, recs1[i].berth, "")
  {
    seq(|recs1|, i requires 0 <= i < |recs1| => Record(recs1[i].addr, recs1[i].berth, ""))
  }

  /** The map a blob stands for; only a current-version blob or a version-1 one of the old size stands for any. */
  ghost function FlashMap(f: Flash): Berths {
    match f
    case SizeV1(1, _, recs1) => MapOf(Migrated(recs1))
    case SizeV2(2, _, rs) => MapOf(rs)
    case _ => map[]
  }

  /** What firmware of either version left in flash: a full-size table without duplicates. */
  ghost predicate GoodFlash(f: Flash) {
    match f
    case SizeV1(_, _, recs1) => |recs1| == MAX_RECORDS && DistinctSlots(Migrated(recs1))
    case SizeV2(_, _, rs) => |rs| == MAX_RECORDS && DistinctSlots(rs)
    case _ => true
  }

  ghost predicate ExactFlash(f: Flash) {
    match f
    case SizeV1(_, n, recs1) => n as int == |Addrs(Migrated(recs1))|
    case SizeV2(_, n, rs) => n as int == |Addrs(rs)|
    case _ => true
  }

  /** The table that loading yields, if it yields one. A version-1 blob is recognised by its size alone, so when the
      size query fails it passes for an empty table; so does any blob whose read fails, unless the table in RAM already
      has the current version. */
  ghost function Loads(f: Flash, version: u8, nvs: Nvs): Option<Berths> {
    if !nvs.openOk then None
    else if f.NoNamespace? then Some(map[])
    else if f.SizeV1? && nvs.sizeOk then if nvs.readOk then Some(FlashMap(f)) else None
    else if nvs.readOk then Some(if f.SizeV2? then FlashMap(f) else map[])
    else if version == TABLE_VERSION then None
    else Some(map[])
  }

  class Table {
    // s_table and s_loaded
    const records: array<Record>
    var version: u8
    var count: u8
    var loaded: bool
    // the NVS partition
    var flash: Flash

    ghost predicate Valid()
      reads this, records
    {
      && records.Length == MAX_RECORDS && GoodFlash(flash)
      && if loaded then version == TABLE_VERSION && DistinctSlots(records[..])
         else forall i :: 0 <= i < MAX_RECORDS ==> records[i] == EMPTY
    }

    ghost predicate Usable()
      reads this, records
    {
      && records.Length == MAX_RECORDS && GoodFlash(flash)
      && loaded && version == TABLE_VERSION && DistinctSlots(records[..])
    }

    /** The counter is the number of occupied slots, in RAM and in flash. */
    ghost predicate CountExact()
      reads this, records
    {
      count as int == |Addrs(records[..])| && ExactFlash(flash)
    }

    /** Loaded and counted right: how the gateway finds its table after boot, and leaves it. */
    ghost predicate Ready()
      reads this, records
    {
      Usable() && CountExact()
    }

    ghost function Map(): Berths
      reads this, records
    {
      MapOf(records[..])
    }

    /** The map an operation starts from: the one in RAM, or what loading it first yields. */
    ghost function Start(nvs: Nvs): Option<Berths>
      reads this, records
    {
      if loaded then Some(Map()) else Loads(flash, version, nvs)
    }

    /** Power-up: zeroed RAM over whatever flash holds. */
    constructor (flash: Flash)
      requires GoodFlash(flash)
      ensures Valid() && (ExactFlash(flash) ==> CountExact()) && !loaded && version == 0
      ensures this.flash == flash && fresh(records)
    {
      this.flash := flash;
      records := new Record[MAX_RECORDS](_ => EMPTY);
      version, count, loaded := 0, 0, false;
      new;
      assert Addrs(records[..]) == {};
    }

    method Reboot()
      requires Valid()
      modifies this, records
      ensures Valid() && (ExactFlash(flash) ==> CountExact()) && !loaded && version == 0 && flash == old(flash)
    {
      Clear();
      version, loaded := 0, false;
    }

    /** `memset(&s_table, 0, …)`. */
    method Clear()
      requires records.Length == MAX_RECORDS
      modifies this`version, this`count, records
      ensures forall i :: 0 <= i < MAX_RECORDS ==> records[i] == EMPTY
      ensures version == 0 && count == 0 && Map() == map[] && Addrs(records[..]) == {} && DistinctSlots(records[..])
    {
      forall i | 0 <= i < records.Length { records[i] := EMPTY; }
      version, count := 0, 0;
      assert Addrs(records[..]) == {};
      assert Map().Keys == {};
    }

    method MigrateFromV1(oldCount: u8, recs1: seq<RecordV1>)
      requires records.Length == MAX_RECORDS && |recs1| == MAX_RECORDS
      modifies this`version, this`count, records
      ensures version == TABLE_VERSION && count == oldCount && records[..] == Migrated(recs1)
    {
      Clear();
      version, count := TABLE_VERSION, oldCount;
      for i := 0 to MAX_RECORDS
        invariant version == TABLE_VERSION && count == oldCount
        invariant records[..i] == Migrated(recs1)[..i]
      {
        records[i] := Record(recs1[i].addr, recs1[i].berth, "");
      }
      assert records[..] == records[..MAX_RECORDS] && Migrated(recs1) == Migrated(recs1)[..MAX_RECORDS];
    }

    method SaveTable(nvs: Nvs) returns (err: EspErr)
      requires Usable()
      modifies this`flash
      ensures Usable()
      ensures err == (if nvs.saveOk then OK else FAIL)
      ensures flash == if nvs.saveOk then SizeV2(version, count, records[..]) else old(flash)
      ensures nvs.saveOk ==> FlashMap(flash) == Map()
      ensures count as int == |Addrs(records[..])| && ExactFlash(old(flash)) ==> CountExact()
      ensures count as int != |Addrs(records[..])| ==> !CountExact()
    {
      if !nvs.saveOk { return FAIL; }
      flash := SizeV2(version, count, records[..]);
      return OK;
    }

    /** Loading never changes what flash stands for, not even through the migration's own save. */
    method LoadTable(nvs: Nvs) returns (err: EspErr)
      requires Valid() && !loaded
      modifies this, records
      ensures Valid() && FlashMap(flash) == FlashMap(old(flash))
      ensures match old(Loads(flash, version, nvs))
        case None => err != OK && !loaded && flash == old(flash) && (old(CountExact()) ==> CountExact())
        case Some(m) => err == OK && loaded && Map() == m && (ExactFlash(old(flash)) ==> CountExact())
    {
      if !nvs.openOk { return FAIL; }
      if flash.NoNamespace? {
        Clear();
        version, loaded := TABLE_VERSION, true;
        return OK;
      }
      if nvs.sizeOk && flash.SizeV1? {
        if !nvs.readOk { return FAIL; }
        if flash.version == 1 {
          MigrateFromV1(flash.count, flash.recs1);
          loaded := true;
          var _ := SaveTable(nvs);
          return OK;
        }
        Clear();
        version, loaded := TABLE_VERSION, true;
        return OK;
      }
      if nvs.readOk && flash.SizeV2? {
        forall i | 0 <= i < MAX_RECORDS { records[i] := flash.records[i]; }
        assert records[..] == flash.records;
        version, count := flash.version, flash.count;
      }
      // a missing key, or a blob of another size than asked for
      if (nvs.readOk && !flash.SizeV2?) || version != TABLE_VERSION {
        Clear();
        version := TABLE_VERSION;
      } else if !nvs.readOk {
        return FAIL;
      }
      loaded := true;
      return OK;
    }

    method Init(nvs: Nvs) returns (err: EspErr)
      requires Valid()
      modifies this, records
      ensures Valid() && (old(CountExact()) ==> CountExact()) && FlashMap(flash) == FlashMap(old(flash))
      ensures match old(Start(nvs))
        case None => err != OK && !loaded
        case Some(m) => err == OK && loaded && Map() == m
    {
      if loaded { return OK; }
      err := LoadTable(nvs);
    }

    /** A reboot and the loading that follows it. */
    method Restart(nvs: Nvs) returns (err: EspErr)
      requires Ready()
      modifies this, records
      ensures FlashMap(flash) == FlashMap(old(flash))
      ensures match old(Loads(flash, 0, nvs))
        case None => err != OK
        case Some(m) => err == OK && Ready() && Map() == m
    {
      hide DistinctSlots, MapOf, Addrs, GoodFlash, FlashMap, Loads;
      Reboot();
      err := Init(nvs);
    }

    method LookupBerth(addr: u16) returns (r: Option<string>)
      requires Valid()
      ensures r == if addr in Map() then Some(Map()[addr].berth) else None
    {
      if !loaded || addr == 0 { return None; }
      for i := 0 to MAX_RECORDS
        invariant forall j :: 0 <= j < i ==> records[j].addr != addr
      {
        if records[i].addr == addr {
          MapAt(records[..], i);
          return Some(records[i].berth);
        }
      }
      return None;
    }

    method LookupNodeId(addr: u16) returns (r: Option<string>)
      requires Valid()
      ensures r == if addr in Map() && Map()[addr].node != "" then Some(Map()[addr].node) else None
    {
      if !loaded || addr == 0 { return None; }
      for i := 0 to MAX_RECORDS
        invariant forall j :: 0 <= j < i ==> records[j].addr != addr
      {
        if records[i].addr == addr {
          MapAt(records[..], i);
          return if records[i].node != "" then Some(records[i].node) else None;
        }
      }
      return None;
    }

    /** Zero the slot at `i` and lower the counter, as both eviction and forgetting do. On an empty slot that
        loses count. */
    method DropSlot(i: nat)
      requires Usable() && CountExact() && i < MAX_RECORDS
      modifies this`count, records
      ensures Usable() && Map() == old(Map()) - {old(records[i].addr)}
      ensures CountExact() <==> old(records[i].addr != 0 || Map() == map[])
      ensures records[..] == old(records[..])[i := EMPTY]
    {
      hide DistinctSlots, MapOf, Addrs, Sound, GoodFlash, ExactFlash;
      TableIsSound(records[..]);
      if records[i].addr != 0 {
        ClearSlot(records[..], i);
      } else {
        ClearEmptySlot(records[..], i);
      }
      records[i] := EMPTY;
      if count > 0 { count := count - 1; }
    }

    /** Hot-swap: drop the records bound to the same berth under a different address. */
    method EvictStale(addr: u16, berth: string)
      requires Usable() && CountExact()
      modifies this`count, records
      ensures Usable() && CountExact()
      ensures Map() == old(Map()) - Stale(old(Map()), addr, berth)
    {
      hide DistinctSlots, MapOf, Addrs, GoodFlash, ExactFlash, Stale;
      ghost var before := Map();
      ghost var gone: set<u16> := {};
      for i := 0 to MAX_RECORDS
        invariant Usable() && CountExact()
        invariant gone <= Stale(before, addr, berth) && Map() == before - gone
        invariant forall j :: 0 <= j < i ==>
          !(records[j].addr != 0 && records[j].addr != addr && records[j].berth == berth)
      {
        if records[i].addr != 0 && records[i].addr != addr && records[i].berth == berth {
          MapAt(records[..], i);
          MinusTwice(before, gone, records[i].addr);
          StaleMember(before, addr, berth, records[i].addr);
          gone := gone + {records[i].addr};
          DropSlot(i);
        }
      }
      NoneStale(records[..], before, gone, addr, berth);
    }

    method RecordNode(addr: u16, berth: Option<string>, node: Option<string>, nvs: Nvs) returns (err: EspErr)
      requires Valid() && CountExact()
      modifies this, records
      ensures Valid() && CountExact()
      // bad arguments change nothing
      ensures BadArguments(addr, berth, node) != OK ==>
        err == BadArguments(addr, berth, node) && loaded == old(loaded) && Map() == old(Map()) && flash == old(flash)
      ensures BadArguments(addr, berth, node) == OK ==>
        match old(Start(nvs))
        case None => err == FAIL && !loaded && flash == old(flash)
        case Some(m) =>
          && loaded
          && (err == NO_MEM <==> OutOfRoom(m, addr, berth.value))
          && (err == NO_MEM ==> Map() == m && FlashMap(flash) == FlashMap(old(flash)))
          && (err != NO_MEM ==>
                && Map() == Recorded(m, addr, berth.value, if node.Some? then node.value else "")
                && err == (if nvs.saveOk then OK else FAIL)
                && FlashMap(flash) == if nvs.saveOk then Map() else FlashMap(old(flash)))
    {
      hide DistinctSlots, MapOf, Addrs, GoodFlash, Recorded, OutOfRoom, FlashMap, Loads;
      err := BadArguments(addr, berth, node);
      if err != OK { return err; }
      if !loaded {
        err := LoadTable(nvs);
        if err != OK { return FAIL; }
      }
      err := Bind(addr, berth.value, if node.Some? then node.value else "", nvs);
    }

    /** The rest of `dp_prov_record_node`, on a loaded table and good arguments. */
    method Bind(addr: u16, berth: string, node: string, nvs: Nvs) returns (err: EspErr)
      requires Usable() && CountExact() && addr != 0
      modifies this`count, this`flash, records
      ensures Usable() && CountExact()
      ensures err == NO_MEM <==> OutOfRoom(old(Map()), addr, berth)
      ensures err == NO_MEM ==> Map() == old(Map()) && flash == old(flash)
      ensures err != NO_MEM ==>
        && Map() == Recorded(old(Map()), addr, berth, node)
        && err == (if nvs.saveOk then OK else FAIL)
        && FlashMap(flash) == if nvs.saveOk then Map() else FlashMap(old(flash))
    {
      hide DistinctSlots, MapOf, Addrs, Recorded, OutOfRoom, Stale, Sound, GoodFlash, ExactFlash, FlashMap;
      ghost var m := Map();
      TableIsSound(records[..]);
      EvictStale(addr, berth);
      ghost var kept := records[..];
      var slot, empty := FindSlot(addr);
      if slot < 0 {
        if empty < 0 {
          NoSlot(kept, m, addr, berth);
          return NO_MEM;
        }
        slot := empty;
      }
      SlotFound(kept, slot, m, Record(addr, berth, node));
      Put(slot, Record(addr, berth, node));
      err := SaveTable(nvs);
    }

    /** Fill an empty slot or overwrite the holder's own. */
    method Put(slot: nat, r: Record)
      requires Usable() && CountExact() && slot < MAX_RECORDS && r.addr != 0
      requires DistinctSlots(records[..][slot := r])
      requires |Addrs(records[..][slot := r])| == |Addrs(records[..])| + if records[slot].addr == 0 then 1 else 0
      modifies this`count, records
      ensures Usable() && CountExact() && records[..] == old(records[..])[slot := r]
    {
      TableIsSound(records[..]);
      if records[slot].addr == 0 {
        count := count + 1;
      }
      records[slot] := r;
      assert records[..] == old(records[..])[slot := r];
    }

    /** The slot that holds `addr`, if any, and otherwise the first empty one, if any. */
    method FindSlot(addr: u16) returns (slot: int, empty: int)
      requires records.Length == MAX_RECORDS && addr != 0
      ensures -1 <= slot < MAX_RECORDS && -1 <= empty < MAX_RECORDS
      ensures slot >= 0 ==> records[slot].addr == addr
      ensures slot < 0 ==> forall j :: 0 <= j < MAX_RECORDS ==> records[j].addr != addr
      ensures slot < 0 && empty >= 0 ==> records[empty].addr == 0
      ensures slot < 0 && empty < 0 ==> forall j :: 0 <= j < MAX_RECORDS ==> records[j].addr != 0
    {
      slot, empty := -1, -1;
      for i := 0 to MAX_RECORDS
        invariant -1 <= empty < MAX_RECORDS && slot == -1
        invariant empty >= 0 ==> records[empty].addr == 0
        invariant forall j :: 0 <= j < i ==> records[j].addr != addr && (records[j].addr == 0 ==> empty >= 0)
      {
        if records[i].addr == addr {
          slot := i;
          break;
        }
        if empty < 0 && records[i].addr == 0 {
          empty := i;
        }
      }
    }

    /** Forgetting a real address removes that key. Address 0 matches the first empty slot instead: the map stays,
        but the counter drops. */
    method ForgetUnicast(addr: u16, nvs: Nvs) returns (err: EspErr)
      requires Valid() && CountExact()
      modifies this, records
      ensures Valid()
      ensures match old(Start(nvs))
        case None => err == FAIL && !loaded && flash == old(flash)
        case Some(m) =>
          && loaded && Map() == m - {addr}
          && (addr != 0 ==> CountExact())
          && (addr != 0 ==> err == if addr in m && !nvs.saveOk then FAIL else OK)
          && (addr != 0 ==> FlashMap(flash) == if addr in m && nvs.saveOk then Map() else FlashMap(old(flash)))
          && (addr == 0 ==> (CountExact() <==> |m| == 0 || |m| == MAX_RECORDS))
    {
      hide DistinctSlots, MapOf, Addrs, GoodFlash, FlashMap, Loads;
      if !loaded {
        err := LoadTable(nvs);
        if err != OK { return FAIL; }
      }
      err := Unbind(addr, nvs);
    }

    method DropAndSave(i: nat, nvs: Nvs) returns (err: EspErr)
      requires Usable() && CountExact() && i < MAX_RECORDS
      modifies this`count, this`flash, records
      ensures Usable() && Map() == old(Map()) - {old(records[i].addr)}
      ensures CountExact() <==> old(records[i].addr != 0 || Map() == map[])
      ensures err == if nvs.saveOk then OK else FAIL
      ensures FlashMap(flash) == if nvs.saveOk then Map() else FlashMap(old(flash))
    {
      hide DistinctSlots, MapOf, Addrs, Sound, GoodFlash, ExactFlash, FlashMap;
      DropSlot(i);
      err := SaveTable(nvs);
    }

    /** The rest of `dp_prov_forget_unicast`, on a loaded table. */
    method Unbind(addr: u16, nvs: Nvs) returns (err: EspErr)
      requires Usable() && CountExact()
      modifies this`count, this`flash, records
      ensures Usable() && Map() == old(Map()) - {addr}
      ensures addr != 0 ==> CountExact() && err == if addr in old(Map()) && !nvs.saveOk then FAIL else OK
      ensures addr != 0 ==>
        FlashMap(flash) == if addr in old(Map()) && nvs.saveOk then Map() else FlashMap(old(flash))
      ensures addr == 0 ==> (CountExact() <==> |old(Map())| == 0 || |old(Map())| == MAX_RECORDS)
    {
      hide DistinctSlots, MapOf, Addrs, Sound, GoodFlash, ExactFlash, FlashMap;
      TableIsSound(records[..]);
      for i := 0 to MAX_RECORDS
        invariant forall j :: 0 <= j < i ==> records[j].addr != addr
      {
        if records[i].addr == addr {
          if addr != 0 { MapAt(records[..], i); }
          err := DropAndSave(i, nvs);
          return err;
        }
      }
      NotHeld(records[..], addr);
      return OK;
    }
  }

  lemma NoneStale(rs: seq<Record>, before: Berths, gone: set<u16>, addr: u16, berth: string)
    requires DistinctSlots(rs) && gone <= Stale(before, addr, berth) && MapOf(rs) == before - gone
    requires forall j :: 0 <= j < |rs| ==> !(rs[j].addr != 0 && rs[j].addr != addr && rs[j].berth == berth)
    ensures gone == Stale(before, addr, berth)
  {
    forall a | a in Stale(before, addr, berth) ensures a in gone {
      if a in MapOf(rs) { MapAt(rs, SlotOf(rs, a)); }
    }
  }

  lemma NotHeld(rs: seq<Record>, addr: u16)
    requires forall j :: 0 <= j < |rs| ==> rs[j].addr != addr
    ensures addr !in MapOf(rs)
  {
  }

  /** Sizes, in terms of the slots. */
  lemma TableIsSound(rs: seq<Record>)
    requires DistinctSlots(rs) && |rs| == MAX_RECORDS
    ensures Sound(MapOf(rs)) && |MapOf(rs)| == |Addrs(rs)| <= MAX_RECORDS && (MapOf(rs) == map[] <==> |MapOf(rs)| == 0)
    ensures |MapOf(rs)| == MAX_RECORDS <==> forall i :: 0 <= i < |rs| ==> rs[i].addr != 0
  {
    SlotsAreSound(rs);
    AddrsBound(rs);
    assert |MapOf(rs)| == |MapOf(rs).Keys|;
    if forall i :: 0 <= i < |rs| ==> rs[i].addr != 0 { AddrsFull(rs); }
  }

  /** The argument checks of `dp_prov_record_node`. */
  function BadArguments(addr: u16, berth: Option<string>, node: Option<string>): (err: EspErr)
    ensures err in {OK, INVALID_ARG, INVALID_SIZE}
    ensures err == OK <==> addr != 0 && berth.Some? && 1 <= |berth.value| <= 47 && (node.Some? ==> |node.value| <= 39)
    ensures err == INVALID_ARG <==> addr == 0 || berth.None? || |berth.value| == 0
  {
    if addr == 0 || berth == None || berth.value == "" then INVALID_ARG
    else if |berth.value| >= BERTH_ID_MAX then INVALID_SIZE
    else if node.Some? && |node.value| >= NODE_ID_MAX then INVALID_SIZE
    else OK
  }

  /** All slots taken by others, and the new berth by none of them: nothing was evicted and there is no room. */
  lemma NoSlot(rs: seq<Record>, m: Berths, addr: u16, berth: string)
    requires DistinctSlots(rs) && |rs| == MAX_RECORDS && MapOf(rs) == m - Stale(m, addr, berth) && |m| <= MAX_RECORDS
    requires forall j :: 0 <= j < |rs| ==> rs[j].addr != addr && rs[j].addr != 0
    ensures OutOfRoom(m, addr, berth) && m == MapOf(rs)
  {
    hide DistinctSlots, MapOf, Stale;
    AddrsFull(rs);
    assert |m| == |m.Keys|;
    assert MapOf(rs).Keys == Addrs(rs) && MapOf(rs).Keys <= m.Keys;
    SubsetOfSameSize(Addrs(rs), m.Keys);
    assert addr !in m;
    forall a | a in m ensures m[a].berth != berth { StaleMember(m, addr, berth, a); }
  }

  lemma StaleMember(m: Berths, addr: u16, berth: string, a: u16)
    ensures a in Stale(m, addr, berth) <==> a in m && a != addr && m[a].berth == berth
  {
  }

  lemma MinusTwice(m: Berths, s: set<u16>, a: u16)
    ensures m - s - {a} == m - (s + {a})
  {
  }

  lemma SubsetOfSameSize<T>(a: set<T>, b: set<T>)
    requires a <= b && |a| >= |b|
    ensures a == b
  {
    if b - a != {} {
      var x :| x in b - a;
      CardinalitySubset(a, b - {x});
    }
  }

  lemma SlotFound(rs: seq<Record>, slot: nat, m: Berths, r: Record)
    requires DistinctSlots(rs) && MapOf(rs) == m - Stale(m, r.addr, r.berth)
    requires slot < |rs| == MAX_RECORDS && r.addr != 0
    requires rs[slot].addr == r.addr || (rs[slot].addr == 0 && forall j :: 0 <= j < |rs| ==> rs[j].addr != r.addr)
    ensures !OutOfRoom(m, r.addr, r.berth)
    ensures var ts := rs[slot := r];
      && DistinctSlots(ts) && MapOf(ts) == Recorded(m, r.addr, r.berth, r.node)
      && |Addrs(ts)| == |Addrs(rs)| + if rs[slot].addr == 0 then 1 else 0
  {
    hide DistinctSlots, MapOf;
    FillSlot(rs, slot, r);
    assert rs[slot] in rs;
    if rs[slot].addr == 0 {
      AddrsBound(rs);
      assert |MapOf(rs)| == |MapOf(rs).Keys|;
      assert Stale(m, r.addr, r.berth) == {} ==> MapOf(rs) == m;
    }
  }

  lemma ClearEmptySlot(rs: seq<Record>, i: nat)
    requires DistinctSlots(rs) && i < |rs| && rs[i].addr == 0
    ensures DistinctSlots(rs[i := EMPTY]) && MapOf(rs[i := EMPTY]) == MapOf(rs) && Addrs(rs[i := EMPTY]) == Addrs(rs)
  {
    var ts := rs[i := EMPTY];
    forall j | 0 <= j < |ts| && ts[j].addr != 0
      ensures ts[j].addr in MapOf(rs) && MapOf(rs)[ts[j].addr] == Entry(ts[j].berth, ts[j].node)
    {
      MapAt(rs, j);
    }
    forall a | a in MapOf(rs) ensures exists j :: 0 <= j < |ts| && ts[j].addr == a && a != 0 {
      assert ts[SlotOf(rs, a)].addr == a;
    }
    MapIs(ts, MapOf(rs));
    assert MapOf(ts).Keys == Addrs(ts);
  }
}
