/** The two mesh payloads (`dp_common.c`) and the sensor's translation into them (`sensor_main.c`). */
module Codec {
  import opened Common

  const STATUS_WIRE_LEN := 11
  const DIAG_WIRE_LEN := 1 + 2 + 1 + 2 + 2 * GATE_COUNT + 4

  datatype BerthStatus = BerthStatus(nodeId: u8, berthId: u16, occupied: bool, rawMm: u16, batteryPct: u8, tsMs: u32)

  datatype BerthDiag = BerthDiag(nodeId: u8, berthId: u16, targetState: i8, distanceCm: u16, gates: seq<u16>, tsMs: u32)
  {
    ghost predicate Valid() { |gates| == GATE_COUNT }
  }

  datatype Unpacked<+T> = Unpacked(value: T) | Rejected(error: EspErr)

  // ----- the documented layouts, as concatenations of numerals -----

  ghost function StatusWire(s: BerthStatus): (w: seq<u8>)
    ensures |w| == STATUS_WIRE_LEN
  {
    [s.nodeId] + LE(s.berthId, 2) + [if s.occupied then 1 else 0] + LE(s.rawMm, 2) + [s.batteryPct] + LE(s.tsMs, 4)
  }

  ghost function DiagWire(d: BerthDiag): (w: seq<u8>)
    requires d.Valid()
    ensures |w| == DIAG_WIRE_LEN
  {
    [d.nodeId] + LE(d.berthId, 2) + [ToU8(d.targetState)] + LE(d.distanceCm, 2) + LE16s(d.gates) + LE(d.tsMs, 4)
  }

  // ----- pack and unpack -----

  method StatusPack(s: BerthStatus, buf: array?<u8>, cap: nat) returns (err: EspErr, outLen: nat)
    requires buf != null ==> cap <= buf.Length
    modifies buf
    ensures buf == null ==> err == INVALID_ARG
    ensures buf != null && cap < STATUS_WIRE_LEN ==> err == INVALID_SIZE && buf[..] == old(buf[..])
    ensures buf != null && cap >= STATUS_WIRE_LEN ==>
      err == OK && outLen == STATUS_WIRE_LEN && buf[..] == StatusWire(s) + old(buf[outLen..])
  {
    outLen := 0;
    if buf == null { return INVALID_ARG, outLen; }
    if cap < STATUS_WIRE_LEN { return INVALID_SIZE, outLen; }
    buf[0] := s.nodeId;
    buf[1] := s.berthId % 0x100;
    buf[2] := s.berthId / 0x100;
    buf[3] := if s.occupied then 1 else 0;
    buf[4] := s.rawMm % 0x100;
    buf[5] := s.rawMm / 0x100;
    buf[6] := s.batteryPct;
    buf[7] := s.tsMs % 0x100;
    buf[8] := s.tsMs / 0x100 % 0x100;
    buf[9] := s.tsMs / 0x1_0000 % 0x100;
    buf[10] := s.tsMs / 0x100_0000 % 0x100;
    Numerals(s.berthId, s.tsMs);
    Numerals(s.rawMm, 0);
    return OK, STATUS_WIRE_LEN;
  }

  method StatusUnpack(buf: array?<u8>, len: nat) returns (r: Unpacked<BerthStatus>)
    requires buf != null ==> len <= buf.Length
    ensures r.Rejected? <==> buf == null || len < STATUS_WIRE_LEN
    ensures r.Rejected? ==> r.error == if buf == null then INVALID_ARG else INVALID_SIZE
    ensures r.Unpacked? ==> DecodesStatus(r.value, buf[..])
  {
    if buf == null { return Rejected(INVALID_ARG); }
    if len < STATUS_WIRE_LEN { return Rejected(INVALID_SIZE); }
    var s := BerthStatus(buf[0], U16(buf[1], buf[2]), buf[3] != 0, U16(buf[4], buf[5]), buf[6],
                         U32(buf[7], buf[8], buf[9], buf[10]));
    var w := buf[..];
    FromNumerals(w[1..3]);
    FromNumerals(w[4..6]);
    FromNumerals(w[7..11]);
    return Unpacked(s);
  }

  /** What a receiver may conclude from `w`; bytes past the layout do not matter. */
  ghost predicate DecodesStatus(s: BerthStatus, w: seq<u8>)
    requires |w| >= STATUS_WIRE_LEN
  {
    && s.nodeId == w[0]
    && s.berthId == FromLE(w[1..3])
    && (s.occupied <==> w[3] != 0)
    && s.rawMm == FromLE(w[4..6])
    && s.batteryPct == w[6]
    && s.tsMs == FromLE(w[7..11])
  }

  ghost predicate DecodesDiag(d: BerthDiag, w: seq<u8>)
    requires |w| >= DIAG_WIRE_LEN
  {
    && d.nodeId == w[0]
    && d.berthId == FromLE(w[1..3])
    && d.targetState == ToI8(w[3])
    && d.distanceCm == FromLE(w[4..6])
    && d.gates == U16sAt(w, 6, GATE_COUNT)
    && d.tsMs == FromLE(w[38..42])
  }

  method PutU16(buf: array<u8>, i: nat, v: u16)
    requires i + 2 <= buf.Length
    modifies buf
    ensures buf[..] == old(buf[..i]) + [v % 0x100, v / 0x100] + old(buf[i + 2..])
  {
    buf[i], buf[i + 1] := v % 0x100, v / 0x100;
  }

  method PutU32(buf: array<u8>, i: nat, v: u32)
    requires i + 4 <= buf.Length
    modifies buf
    ensures buf[..] == old(buf[..i]) + LE(v, 4) + old(buf[i + 4..])
  {
    buf[i] := v % 0x100;
    buf[i + 1] := v / 0x100 % 0x100;
    buf[i + 2] := v / 0x1_0000 % 0x100;
    buf[i + 3] := v / 0x100_0000 % 0x100;
    Numerals(0, v);
  }

  method PutGates(buf: array<u8>, at: nat, gates: seq<u16>) returns (i: nat)
    requires at + 2 * |gates| <= buf.Length
    modifies buf
    ensures i == at + 2 * |gates|
    ensures buf[..] == old(buf[..at]) + LE16s(gates) + old(buf[i..])
  {
    hide LE16s;
    ghost var before := buf[..];
    i := at;
    assert LE16s(gates[..0]) == [];
    for g := 0 to |gates|
      invariant i == at + 2 * g
      invariant buf[..] == before[..at] + LE16s(gates[..g]) + before[i..]
    {
      ghost var wire, pair := LE16s(gates[..g]), [gates[g] % 0x100, gates[g] / 0x100];
      assert buf[..i] == before[..at] + wire && buf[i + 2..] == before[i + 2..];
      PutU16(buf, i, gates[g]);
      i := i + 2;
      LE16sPrefix(gates, g);
      assert before[..at] + wire + pair == before[..at] + (wire + pair);
    }
    assert gates[..|gates|] == gates;
  }

  method DiagPack(d: BerthDiag, buf: array?<u8>, cap: nat) returns (err: EspErr, outLen: nat)
    requires d.Valid()
    requires buf != null ==> cap <= buf.Length
    modifies buf
    ensures buf == null ==> err == INVALID_ARG
    ensures buf != null && cap < DIAG_WIRE_LEN ==> err == INVALID_SIZE && buf[..] == old(buf[..])
    ensures buf != null && cap >= DIAG_WIRE_LEN ==>
      err == OK && outLen == DIAG_WIRE_LEN && buf[..] == DiagWire(d) + old(buf[outLen..])
  {
    outLen := 0;
    if buf == null { return INVALID_ARG, outLen; }
    if cap < DIAG_WIRE_LEN { return INVALID_SIZE, outLen; }
    hide LE, LE16s;
    ghost var before := buf[..];
    buf[0] := d.nodeId;
    assert buf[..1] == [d.nodeId] && buf[3..] == before[3..];
    PutU16(buf, 1, d.berthId);
    buf[3] := ToU8(d.targetState);
    assert buf[..4] == [d.nodeId, d.berthId % 0x100, d.berthId / 0x100, ToU8(d.targetState)] && buf[6..] == before[6..];
    PutU16(buf, 4, d.distanceCm);
    Numerals(d.berthId, 0);
    Numerals(d.distanceCm, 0);
    ghost var head := [d.nodeId] + LE(d.berthId, 2) + [ToU8(d.targetState)] + LE(d.distanceCm, 2);
    assert buf[..6] == head && buf[6..] == before[6..];
    var i := PutGates(buf, 6, d.gates);
    ghost var body := head + LE16s(d.gates);
    assert buf[..i] == body && buf[i + 4..] == before[i + 4..];
    PutU32(buf, i, d.tsMs);
    return OK, i + 4;
  }

  method DiagUnpack(buf: array?<u8>, len: nat) returns (r: Unpacked<BerthDiag>)
    requires buf != null ==> len <= buf.Length
    ensures r.Rejected? <==> buf == null || len < DIAG_WIRE_LEN
    ensures r.Rejected? ==> r.error == if buf == null then INVALID_ARG else INVALID_SIZE
    ensures r.Unpacked? ==> r.value.Valid() && DecodesDiag(r.value, buf[..])
  {
    if buf == null { return Rejected(INVALID_ARG); }
    if len < DIAG_WIRE_LEN { return Rejected(INVALID_SIZE); }
    var gates: seq<u16> := [];
    var i := 6;
    for g := 0 to GATE_COUNT
      invariant i == 6 + 2 * g
      invariant gates == U16sAt(buf[..], 6, g)
    {
      gates := gates + [U16(buf[i], buf[i + 1])];
      i := i + 2;
    }
    var d := BerthDiag(buf[0], U16(buf[1], buf[2]), ToI8(buf[3]), U16(buf[4], buf[5]), gates,
                       U32(buf[i], buf[i + 1], buf[i + 2], buf[i + 3]));
    var w := buf[..];
    FromNumerals(w[1..3]);
    FromNumerals(w[4..6]);
    FromNumerals(w[38..42]);
    return Unpacked(d);
  }

  // ----- round trips -----

  /** The bytes of a message decode to that message and to no other. */
  lemma StatusRoundTrip(s: BerthStatus, r: BerthStatus, tail: seq<u8>)
    ensures DecodesStatus(r, StatusWire(s) + tail) <==> r == s
  {
    var w := StatusWire(s) + tail;
    Numerals(s.berthId, s.tsMs);
    assert w[1..3] == LE(s.berthId, 2) && w[4..6] == LE(s.rawMm, 2) && w[7..11] == LE(s.tsMs, 4);
    FromLEOfLE(s.berthId, 2);
    FromLEOfLE(s.rawMm, 2);
    FromLEOfLE(s.tsMs, 4);
  }

  /** Re-packing restores the received bytes, except that the occupied byte becomes 0 or 1. */
  lemma StatusRepack(s: BerthStatus, w: seq<u8>)
    requires |w| == STATUS_WIRE_LEN && DecodesStatus(s, w)
    ensures StatusWire(s) == w[3 := if w[3] != 0 then 1 else 0]
  {
    LEOfFromLE(w[1..3]);
    LEOfFromLE(w[4..6]);
    LEOfFromLE(w[7..11]);
  }

  lemma DiagRoundTrip(d: BerthDiag, r: BerthDiag, tail: seq<u8>)
    requires d.Valid()
    ensures DecodesDiag(r, DiagWire(d) + tail) <==> r == d
  {
    var w := DiagWire(d) + tail;
    Numerals(d.berthId, d.tsMs);
    assert w[1..3] == LE(d.berthId, 2) && w[4..6] == LE(d.distanceCm, 2) && w[38..42] == LE(d.tsMs, 4);
    FromLEOfLE(d.berthId, 2);
    FromLEOfLE(d.distanceCm, 2);
    FromLEOfLE(d.tsMs, 4);
    assert w[6..38] == LE16s(d.gates);
    U16sOfLE16s(w, 6, d.gates);
    assert ToI8(ToU8(d.targetState)) == d.targetState;
  }

  lemma DiagRepack(d: BerthDiag, w: seq<u8>)
    requires |w| == DIAG_WIRE_LEN && DecodesDiag(d, w)
    ensures d.Valid() && DiagWire(d) == w
  {
    LEOfFromLE(w[1..3]);
    LEOfFromLE(w[4..6]);
    LEOfFromLE(w[38..42]);
    LE16sOfU16s(w, 6, GATE_COUNT);
    assert w == w[..1] + w[1..3] + w[3..4] + w[4..6] + w[6..38] + w[38..];
  }

  // ----- translation of a radar sample -----

  function ToStatus(s: Sample, occupied: bool, nodeId: u8, berthId: u16, batteryPct: u8): BerthStatus {
    BerthStatus(nodeId, berthId, occupied, s.distanceCm * 10 % 0x1_0000, batteryPct, s.tsMs)
  }

  /** The millimetre reading is the distance exactly when it fits 16 bits; any reading the near filter can
      report (threshold at most 1000 cm) does. */
  lemma RawMillimetres(s: Sample, occupied: bool, nodeId: u8, berthId: u16, batteryPct: u8)
    ensures var d := s.distanceCm;
      ToStatus(s, occupied, nodeId, berthId, batteryPct).rawMm == 10 * d as int <==> d <= 6553
  {
  }

  method ToDiag(s: Sample, nodeId: u8, berthId: u16) returns (d: BerthDiag)
    requires |s.gates| == GATE_COUNT
    ensures d.Valid() && d == BerthDiag(nodeId, berthId, s.targetState, s.distanceCm, s.gates, s.tsMs)
  {
    var gates := new u16[GATE_COUNT](_ => 0);
    for i := 0 to GATE_COUNT
      invariant gates[..i] == s.gates[..i]
    {
      gates[i] := s.gates[i];
    }
    assert gates[..] == gates[..GATE_COUNT] && s.gates == s.gates[..GATE_COUNT];
    d := BerthDiag(nodeId, berthId, s.targetState, s.distanceCm, gates[..], s.tsMs);
  }
}
