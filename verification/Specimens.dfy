/** Byte by byte: frames of the radar's protocol with what the readers of `dp_radar.c` make of them, and the two mesh
    payloads of `dp_common.c`. */
module Specimens {
  import opened Common
  import opened Radar
  import opened CommandAck
  import Codec

  /** The 45-byte report, whatever its 35 bytes of payload. */
  lemma {:induction false} FullReport(body: seq<u8>, rest: seq<u8>)
    requires |body| == 35
    ensures Parse([0xF4, 0xF3, 0xF2, 0xF1, 35, 0] + body + [0xF8, 0xF7, 0xF6, 0xF5] + rest, 0) == Frame(body, 45)
  {
    hide Parse;
    JunkThenFrame([], body, rest);
    assert [] + EncodeFrame(body) + rest == [0xF4, 0xF3, 0xF2, 0xF1, 35, 0] + body + [0xF8, 0xF7, 0xF6, 0xF5] + rest;
  }

  /** Its payload: target state, distance, sixteen gate energies, each low byte first. */
  lemma {:induction false} FullReportSample(body: seq<u8>, now: u32, r: Sample)
    requires |body| == 35 && Decodes(r, body, now)
    ensures r.presence <==> body[0] != 0
    ensures if body[0] < 128 then r.targetState == body[0] else r.targetState as int + 256 == body[0] as int
    ensures r.distanceCm % 256 == body[1] && r.distanceCm / 256 == body[2] && r.tsMs == now
    ensures |r.gates| == 16
    ensures forall k :: 0 <= k < 16 ==> r.gates[k] % 256 == body[3 + 2 * k] && r.gates[k] / 256 == body[4 + 2 * k]
  {
    FromNumerals(body[1..3]);
  }

  /** The shortest report: a target going away at 1 m, without gate energies. */
  lemma {:induction false} ShortReport(rest: seq<u8>, now: u32, r: Sample)
    ensures var body := [0xFF, 100, 0];
      && Parse([0xF4, 0xF3, 0xF2, 0xF1, 3, 0] + body + [0xF8, 0xF7, 0xF6, 0xF5] + rest, 0) == Frame(body, 13)
      && (Decodes(r, body, now) ==>
            && r.presence && r.distanceCm == 100 && r.targetState == -1 && r.tsMs == now
            && |r.gates| == 16 && forall k :: 0 <= k < 16 ==> r.gates[k] == 0)
  {
    hide Parse;
    var body := [0xFF, 100, 0];
    JunkThenFrame([], body, rest);
    assert [] + EncodeFrame(body) + rest == [0xF4, 0xF3, 0xF2, 0xF1, 3, 0] + body + [0xF8, 0xF7, 0xF6, 0xF5] + rest;
    assert body[1..3] == [100, 0];
    FromNumerals([100, 0]);
  }

  /** The radar's answer to the mode change. */
  lemma AnswerIsTaken(rest: seq<u8>)
    ensures Ack([0xFD, 0xFC, 0xFB, 0xFA, 4, 0, 0x12, 0x01, 0, 0, 4, 3, 2, 1] + rest, 0x0012) == OK
  {
    hide Ack;
    var body := [0x12, 0x01, 0, 0];
    ReportModeAnswer([], body, rest);
    assert [] + CommandFrame(body) + rest == [0xFD, 0xFC, 0xFB, 0xFA, 4, 0, 0x12, 0x01, 0, 0, 4, 3, 2, 1] + rest;
  }

  // ----- the mesh payloads -----

  /** The status payload byte by byte. */
  lemma StatusLayout(s: Codec.BerthStatus)
    ensures var w := Codec.StatusWire(s);
      && |w| == 11 && w[0] == s.nodeId && w[3] == (if s.occupied then 1 else 0) && w[6] == s.batteryPct
      && w[1] == s.berthId % 256 && w[2] == s.berthId / 256 && w[4] == s.rawMm % 256 && w[5] == s.rawMm / 256
      && w[7] == s.tsMs % 256 && w[8] == s.tsMs / 256 % 256
      && w[9] == s.tsMs / 65536 % 256 && w[10] == s.tsMs / 16777216 % 256
  {
    Numerals(s.berthId, s.tsMs);
    Numerals(s.rawMm, 0);
  }

  /** The diagnostic payload byte by byte; a negative state is sent as its two's complement. */
  lemma {:induction false} DiagLayout(d: Codec.BerthDiag)
    requires |d.gates| == 16
    ensures var w := Codec.DiagWire(d);
      && |w| == 42 && w[0] == d.nodeId && w[1] == d.berthId % 256 && w[2] == d.berthId / 256
      && w[3] as int == (if d.targetState < 0 then d.targetState as int + 256 else d.targetState as int)
      && w[4] == d.distanceCm % 256 && w[5] == d.distanceCm / 256
      && (forall k :: 0 <= k < 16 ==> w[6 + 2 * k] == d.gates[k] % 256 && w[7 + 2 * k] == d.gates[k] / 256)
      && w[38] == d.tsMs % 256 && w[39] == d.tsMs / 256 % 256
      && w[40] == d.tsMs / 65536 % 256 && w[41] == d.tsMs / 16777216 % 256
  {
    hide LE, LE16s;
    Numerals(d.berthId, d.tsMs);
    Numerals(d.distanceCm, 0);
    forall k | 0 <= k < 16
      ensures LE16s(d.gates)[2 * k] == d.gates[k] % 256 && LE16s(d.gates)[2 * k + 1] == d.gates[k] / 256
    {
      LE16sAt(d.gates, k);
    }
  }
}
