/** The HMMD report-frame reader (`dp_radar.c`): a byte-at-a-time machine against a stream grammar. */
module Radar {
  import opened Common
  import opened Framing
  import Codec

  const MAX_FRAME := 64
  const REPORT_HDR: seq<u8> := [0xF4, 0xF3, 0xF2, 0xF1]
  const REPORT_TAIL: seq<u8> := [0xF8, 0xF7, 0xF6, 0xF5]
  const CMD_HDR: seq<u8> := [0xFD, 0xFC, 0xFB, 0xFA]
  const CMD_TAIL: seq<u8> := [0x04, 0x03, 0x02, 0x01]
  const CMD_ENTER_REPORT_MODE: seq<u8> :=
    [0xFD, 0xFC, 0xFB, 0xFA, 0x08, 0x00, 0x12, 0x00, 0x00, 0x00, 0x04, 0x00, 0x00, 0x00, 0x04, 0x03, 0x02, 0x01]

  // ----- the grammar -----

  datatype Outcome = Starved | Frame(body: seq<u8>, end: nat)

  /** What the bytes after a header at `h` amount to. */
  datatype Verdict = Short | Resume(at: nat) | Accept(body: seq<u8>, end: nat)

  /** Read the length, check the range, check the tail. */
  ghost function Judge(s: seq<u8>, h: nat): (v: Verdict)
    requires h + 4 <= |s|
    ensures v.Resume? ==> h + 6 <= v.at <= h + MAX_FRAME && v.at <= |s|
    ensures v.Accept? ==> 3 <= |v.body| <= MAX_FRAME - 10 && v.end == h + 10 + |v.body| <= |s|
  {
    if h + 6 > |s| then Short
    else
      var n := U16(s[h + 4], s[h + 5]);
      if n < 3 || n + 10 > MAX_FRAME then Resume(h + 6)
      else if h + 10 + n > |s| then Short
      else if s[h + 6 + n..h + 10 + n] != REPORT_TAIL then Resume(h + 10 + n)
      else Accept(s[h + 6..h + 6 + n], h + 10 + n)
  }

  /** Find the first header and judge it; on a bad range or tail go on after the bytes consumed so far. */
  ghost function Parse(s: seq<u8>, from: nat): Outcome
    requires from <= |s|
    decreases |s| - from
  {
    match FirstHeader(s, from, REPORT_HDR)
    case None => Starved
    case Some(h) =>
      match Judge(s, h)
      case Short => Starved
      case Resume(at) => Parse(s, at)
      case Accept(body, end) => Frame(body, end)
  }

  /** What a sample must be for a frame with this body; a short body carries no gate energies. */
  ghost predicate Decodes(r: Sample, body: seq<u8>, nowMs: u32)
    requires |body| >= 3
  {
    && r.targetState == ToI8(body[0])
    && (r.presence <==> body[0] != 0)
    && r.distanceCm == FromLE(body[1..3])
    && r.tsMs == nowMs
    && r.gates == if |body| >= 3 + 2 * GATE_COUNT then U16sAt(body, 3, GATE_COUNT) else seq(GATE_COUNT, _ => 0)
  }

  // ----- the machine -----

  /** The reader's answer for an outcome: the decoded sample and the frame's end, or a timeout that used up
      everything. */
  ghost predicate Returns(o: Outcome, len: nat, nowMs: u32, r: Option<Sample>, used: nat) {
    match o
    case Starved => r == None && used == len
    case Frame(body, end) => |body| >= 3 && r.Some? && Decodes(r.value, body, nowMs) && used == end
  }

  datatype State = SYNC_HDR | READ_LEN | READ_BODY

  /** `dp_radar_read`; `s` is what the UART delivers between the flush and the deadline, so running out of it
      is the timeout. `used` counts the bytes taken from the UART. */
  method Read(s: seq<u8>, nowMs: u32) returns (r: Option<Sample>, used: nat)
    ensures Returns(Parse(s, 0), |s|, nowMs, r, used)
  {
    hide Parse, FirstHeader, Progress, Decodes;
    var state := SYNC_HDR;
    var frame := new u8[MAX_FRAME](_ => 0);
    var frameLen: nat, hdrMatch: nat, expectedBody: nat := 0, 0, 0;
    used := 0;
    ghost var from: nat, h: nat := 0, 0;
    ParseStarts(s, 0, 0, frame[..], 0);
    while used < |s|
      invariant from <= used <= |s|
      invariant Parse(s, 0) == Parse(s, from)
      invariant Progress(s, from, h, used, state, hdrMatch, frame[..], frameLen, expectedBody)
    {
      var b := s[used];
      match state {
        case SYNC_HDR =>
          SyncStep(s, from, h, used, hdrMatch, frame[..], frameLen, expectedBody);
          if b == REPORT_HDR[hdrMatch] {
            hdrMatch := hdrMatch + 1;
            if hdrMatch == 4 {
              StoreHeader(frame, REPORT_HDR);
              state, frameLen := READ_LEN, 4;
              h := used - 3;
            }
          } else {
            hdrMatch := if b == REPORT_HDR[0] then 1 else 0;
          }
        case READ_LEN =>
          LenStep(s, from, h, used, hdrMatch, frame[..], frameLen, expectedBody);
          Store(frame, frameLen, b);
          frameLen := frameLen + 1;
          if frameLen == 6 {
            expectedBody := U16(frame[4], frame[5]);
            if expectedBody < 3 || expectedBody + 4 + 2 + 4 > MAX_FRAME {
              state, hdrMatch, frameLen := SYNC_HDR, 0, 0;
              from := used + 1;
            } else {
              state := READ_BODY;
            }
          }
        case READ_BODY =>
          BodyStep(s, from, h, used, hdrMatch, frame[..], frameLen, expectedBody);
          Store(frame, frameLen, b);
          frameLen := frameLen + 1;
          if frameLen == 4 + 2 + expectedBody + 4 {
            if frame[frameLen - 4..frameLen] != REPORT_TAIL {
              state, hdrMatch, frameLen := SYNC_HDR, 0, 0;
              from := used + 1;
            } else {
              var sample := DecodeFrame(frame, expectedBody, nowMs);
              return Some(sample), used + 1;
            }
          }
      }
      used := used + 1;
    }
    ParseStarves(s, from, h, state, hdrMatch, frame[..], frameLen, expectedBody);
    return None, used;
  }

  /** The loop invariant, state by state: the hunt, or a buffer that holds the stream from the first header on. */
  ghost predicate Progress(s: seq<u8>, from: nat, h: nat, used: nat, state: State, hdrMatch: nat,
                           frame: seq<u8>, frameLen: nat, expectedBody: nat)
  {
    |frame| == MAX_FRAME &&
    match state
    case SYNC_HDR => Hunting(s, from, used, hdrMatch, REPORT_HDR)
    case READ_LEN => InFrame(s, from, h, used, frame, frameLen, REPORT_HDR) && frameLen < 6
    case READ_BODY =>
      && InFrame(s, from, h, used, frame, frameLen, REPORT_HDR)
      && 6 <= frameLen < expectedBody + 10 <= MAX_FRAME && 3 <= expectedBody == U16(s[h + 4], s[h + 5])
  }

  ghost predicate InFrame(s: seq<u8>, from: nat, h: nat, used: nat, frame: seq<u8>, frameLen: nat, hdr: seq<u8>) {
    && from <= used <= |s| && |frame| == MAX_FRAME && 4 <= frameLen <= MAX_FRAME
    && FirstHeader(s, from, hdr) == Some(h) && used == h + frameLen
    && frame[..frameLen] == s[h..used]
  }

  lemma ParseStarts(s: seq<u8>, from: nat, h: nat, frame: seq<u8>, expectedBody: nat)
    requires from <= |s| && |frame| == MAX_FRAME
    ensures Progress(s, from, h, from, SYNC_HDR, 0, frame, 0, expectedBody)
  {
    HuntStarts(s, from, REPORT_HDR);
  }

  lemma SyncStep(s: seq<u8>, from: nat, h: nat, used: nat, hdrMatch: nat,
                 frame: seq<u8>, frameLen: nat, expectedBody: nat)
    requires used < |s| && Progress(s, from, h, used, SYNC_HDR, hdrMatch, frame, frameLen, expectedBody)
    ensures hdrMatch < 4
    ensures var m := Match(REPORT_HDR, hdrMatch, s[used]);
      if m < 4 then Progress(s, from, h, used + 1, SYNC_HDR, m, frame, frameLen, expectedBody)
      else used >= 3 && Progress(s, from, used - 3, used + 1, READ_LEN, m, REPORT_HDR + frame[4..], 4, expectedBody)
  {
    hide FirstHeader;
    HuntStep(s, from, used, hdrMatch, REPORT_HDR);
    assert (REPORT_HDR + frame[4..])[..4] == REPORT_HDR;
  }

  lemma InFrameStep(s: seq<u8>, from: nat, h: nat, used: nat, frame: seq<u8>, frameLen: nat, hdr: seq<u8>)
    requires InFrame(s, from, h, used, frame, frameLen, hdr) && used < |s| && frameLen < MAX_FRAME
    ensures InFrame(s, from, h, used + 1, frame[frameLen := s[used]], frameLen + 1, hdr)
  {
    assert frame[frameLen := s[used]][..frameLen + 1] == frame[..frameLen] + [s[used]];
  }

  lemma LenStep(s: seq<u8>, from: nat, h: nat, used: nat, hdrMatch: nat,
                frame: seq<u8>, frameLen: nat, expectedBody: nat)
    requires used < |s| && Progress(s, from, h, used, READ_LEN, hdrMatch, frame, frameLen, expectedBody)
    ensures |frame| == MAX_FRAME && 4 <= frameLen < 6 && from <= used
    ensures var f := frame[frameLen := s[used]];
      if frameLen == 4 then Progress(s, from, h, used + 1, READ_LEN, hdrMatch, f, 5, expectedBody)
      else
        var n := U16(f[4], f[5]);
        if n < 3 || n + 10 > MAX_FRAME then
          Parse(s, from) == Parse(s, used + 1) && Progress(s, used + 1, h, used + 1, SYNC_HDR, 0, f, 0, n)
        else Progress(s, from, h, used + 1, READ_BODY, hdrMatch, f, 6, n)
  {
    hide FirstHeader, Parse, Hunting;
    InFrameStep(s, from, h, used, frame, frameLen, REPORT_HDR);
    var f := frame[frameLen := s[used]];
    if frameLen == 5 {
      ParseFollows(s, from, h);
      assert f[..6][4] == s[h..used + 1][4] && f[..6][5] == s[h..used + 1][5];
      ParseStarts(s, used + 1, h, f, U16(f[4], f[5]));
    }
  }

  lemma BodyStep(s: seq<u8>, from: nat, h: nat, used: nat, hdrMatch: nat,
                 frame: seq<u8>, frameLen: nat, expectedBody: nat)
    requires used < |s| && Progress(s, from, h, used, READ_BODY, hdrMatch, frame, frameLen, expectedBody)
    ensures |frame| == MAX_FRAME && 6 <= frameLen < expectedBody + 10 <= MAX_FRAME && 3 <= expectedBody && from <= used
    ensures var f := frame[frameLen := s[used]];
      if frameLen + 1 < expectedBody + 10 then
        Progress(s, from, h, used + 1, READ_BODY, hdrMatch, f, frameLen + 1, expectedBody)
      else if f[frameLen - 3..frameLen + 1] != REPORT_TAIL then
        Parse(s, from) == Parse(s, used + 1) && Progress(s, used + 1, h, used + 1, SYNC_HDR, 0, f, 0, expectedBody)
      else Parse(s, from) == Frame(f[6..6 + expectedBody], used + 1)
  {
    hide FirstHeader, Parse, Hunting;
    InFrameStep(s, from, h, used, frame, frameLen, REPORT_HDR);
    var f := frame[frameLen := s[used]];
    if frameLen + 1 == expectedBody + 10 {
      BufferParts(s, from, h, used + 1, f, frameLen + 1, REPORT_HDR);
      ParseStarts(s, used + 1, h, f, expectedBody);
      ParseFollows(s, from, h);
    }
  }

  lemma {:induction false} ParseFollows(s: seq<u8>, from: nat, h: nat)
    requires from <= |s| && FirstHeader(s, from, REPORT_HDR) == Some(h)
    ensures Judge(s, h).Resume? ==> Parse(s, from) == Parse(s, Judge(s, h).at)
    ensures Judge(s, h).Accept? ==> Parse(s, from) == Frame(Judge(s, h).body, Judge(s, h).end)
  {
  }

  /** The tail and the body in the buffer are those of the stream. */
  lemma BufferParts(s: seq<u8>, from: nat, h: nat, used: nat, frame: seq<u8>, frameLen: nat, hdr: seq<u8>)
    requires InFrame(s, from, h, used, frame, frameLen, hdr) && frameLen >= 10
    ensures frame[frameLen - 4..frameLen] == s[used - 4..used] && frame[6..frameLen - 4] == s[h + 6..used - 4]
  {
    SliceOfSlice(frame, 0, frameLen, 6, frameLen - 4);
    SliceOfSlice(frame, 0, frameLen, frameLen - 4, frameLen);
    SliceOfSlice(s, h, used, 6, frameLen - 4);
    SliceOfSlice(s, h, used, frameLen - 4, frameLen);
  }

  method Store(frame: array<u8>, i: nat, b: u8)
    requires i < frame.Length
    modifies frame
    ensures frame[..] == old(frame[..])[i := b]
  {
    frame[i] := b;
  }

  method StoreHeader(frame: array<u8>, hdr: seq<u8>)
    requires 4 <= frame.Length && |hdr| == 4
    modifies frame
    ensures frame[..] == hdr + old(frame[4..])
  {
    frame[0], frame[1], frame[2], frame[3] := hdr[0], hdr[1], hdr[2], hdr[3];
  }

  lemma {:induction false} ParseStarves(s: seq<u8>, from: nat, h: nat, state: State, hdrMatch: nat, frame: seq<u8>,
                                        frameLen: nat, expectedBody: nat)
    requires from <= |s| && Progress(s, from, h, |s|, state, hdrMatch, frame, frameLen, expectedBody)
    ensures Parse(s, from) == Starved
  {
    if state == SYNC_HDR { HuntEnds(s, from, hdrMatch, REPORT_HDR); }
  }

  /** The decoding that ends `dp_radar_read`: the body starts at byte 6 of the frame buffer. */
  method DecodeFrame(frame: array<u8>, expectedBody: nat, nowMs: u32) returns (r: Sample)
    requires frame.Length == MAX_FRAME && 3 <= expectedBody && expectedBody + 10 <= MAX_FRAME
    ensures Decodes(r, frame[6..6 + expectedBody], nowMs)
  {
    var targetState := ToI8(frame[6]);
    var gates: seq<u16> := [];
    ghost var body := frame[6..6 + expectedBody];
    if expectedBody >= 3 + 2 * GATE_COUNT {
      for i := 0 to GATE_COUNT
        invariant gates == U16sAt(body, 3, i)
      {
        gates := gates + [U16(frame[9 + 2 * i], frame[9 + 2 * i + 1])];
        assert frame[9 + 2 * i] == body[3 + 2 * i] && frame[10 + 2 * i] == body[4 + 2 * i];
      }
    } else {
      gates := seq(GATE_COUNT, _ => 0);
    }
    var lo, hi := frame[7], frame[8];
    assert body[1] == lo && body[2] == hi;
    assert body[1..3] == [lo, hi];
    FromNumerals([lo, hi]);
    r := Sample(targetState != 0, U16(lo, hi), targetState, nowMs, gates);
  }

  // ----- what the grammar promises -----

  function EncodeFrame(body: seq<u8>): (f: seq<u8>)
    requires |body| < 0x1_0000
    ensures |f| == |body| + 10
  {
    REPORT_HDR + [|body| % 0x100, |body| / 0x100] + body + REPORT_TAIL
  }

  /** The accepted bytes are exactly an encoded frame. */
  lemma AcceptIsFrame(s: seq<u8>, h: nat)
    requires HeaderAt(s, h, REPORT_HDR) && Judge(s, h).Accept?
    ensures s[h..Judge(s, h).end] == EncodeFrame(Judge(s, h).body)
  {
    var n := U16(s[h + 4], s[h + 5]);
    BytesOfU16(s[h + 4], s[h + 5]);
    assert s[h..h + 10 + n] == s[h..h + 4] + [s[h + 4], s[h + 5]] + s[h + 6..h + 6 + n] + s[h + 6 + n..h + 10 + n];
  }

  lemma FrameIsAccepted(s: seq<u8>, h: nat, body: seq<u8>)
    requires 3 <= |body| <= MAX_FRAME - 10
    requires h + 10 + |body| <= |s| && s[h..h + 10 + |body|] == EncodeFrame(body)
    ensures HeaderAt(s, h, REPORT_HDR) && Judge(s, h) == Accept(body, h + 10 + |body|)
  {
    var f, n := s[h..h + 10 + |body|], |body|;
    assert f == REPORT_HDR + [n % 0x100, n / 0x100] + body + REPORT_TAIL;
    assert s[h..h + 4] == f[..4] == REPORT_HDR;
    assert s[h + 4] == f[4] && s[h + 5] == f[5];
    assert f[6..6 + n] == body && f[6 + n..] == REPORT_TAIL;
    SliceOfSlice(s, h, h + 10 + n, 6, 6 + n);
    SliceOfSlice(s, h, h + 10 + n, 6 + n, 10 + n);
    assert f[6 + n..10 + n] == f[6 + n..];
  }

  /** A success is a whole, contiguous, in-range frame of the stream, ending where reading stopped. */
  lemma {:induction false} FrameIsContiguous(s: seq<u8>, from: nat)
    requires from <= |s| && Parse(s, from).Frame?
    ensures var f := Parse(s, from);
      && 3 <= |f.body| <= 54
      && from + |f.body| + 10 <= f.end <= |s|
      && s[f.end - (|f.body| + 10)..f.end] == EncodeFrame(f.body)
    decreases |s| - from
  {
    hide FirstHeader, Judge, EncodeFrame;
    var h := FirstHeader(s, from, REPORT_HDR).value;
    var v := Judge(s, h);
    if v.Resume? { FrameIsContiguous(s, v.at); } else { AcceptIsFrame(s, h); }
  }

  /** Once the stream holds 64 bytes from the first header on, that header is settled within those 64 bytes:
      either they give the result, or the hunt goes on inside or right after them. */
  lemma {:induction false} FalseHeaderCost(s: seq<u8>, from: nat, h: nat)
    requires from <= |s| && FirstHeader(s, from, REPORT_HDR) == Some(h) && h + MAX_FRAME <= |s|
    ensures exists end: nat :: h + 6 <= end <= h + MAX_FRAME
              && (Parse(s, from) == Parse(s, end) || (h + 10 <= end && Parse(s, from) == Frame(s[h + 6..end - 4], end)))
  {
    var v := Judge(s, h);
    if v.Resume? {
      assert Parse(s, from) == Parse(s, v.at);
    } else {
      var there := Parse(s, v.end);
      assert v.body == s[h + 6..v.end - 4];
    }
  }

  /** A valid frame that is the first thing with a header is the result. */
  lemma {:induction false} FrameParses(s: seq<u8>, from: nat, h: nat, body: seq<u8>)
    requires 3 <= |body| <= MAX_FRAME - 10
    requires from <= h && h + 10 + |body| <= |s| && s[h..h + 10 + |body|] == EncodeFrame(body)
    requires forall i :: from <= i < h ==> !HeaderAt(s, i, REPORT_HDR)
    ensures Parse(s, from) == Frame(body, h + 10 + |body|)
  {
    FrameIsAccepted(s, h, body);
    FirstHeaderIs(s, from, h, REPORT_HDR);
  }

  /** Round trip: behind any bytes that contain no whole header, even ones ending inside a header, an encoded
      frame is found at once, and exactly its bytes are consumed. */
  lemma {:induction false} JunkThenFrame(junk: seq<u8>, body: seq<u8>, rest: seq<u8>)
    requires 3 <= |body| <= 54
    requires forall i: nat :: !HeaderAt(junk, i, REPORT_HDR)
    ensures Parse(junk + EncodeFrame(body) + rest, 0) == Frame(body, |junk| + 10 + |body|)
  {
    var tail := EncodeFrame(body) + rest;
    var s := junk + EncodeFrame(body) + rest;
    assert s == junk + tail;
    assert tail[0..4] == REPORT_HDR;
    FirstHeaderAfterJunk(junk, tail, REPORT_HDR);
    assert s[|junk|..|junk| + 10 + |body|] == EncodeFrame(body);
    FrameIsAccepted(s, |junk|, body);
  }

  /** The body of the 45-byte report frame that carries a sample. */
  ghost function EncodeBody(r: Sample): (b: seq<u8>)
    requires |r.gates| == GATE_COUNT
    ensures |b| == 35
  {
    [ToU8(r.targetState)] + LE(r.distanceCm, 2) + LE16s(r.gates)
  }

  /** ... and the sample read back is the one encoded. */
  lemma {:induction false} SampleRoundTrip(r: Sample, back: Sample, junk: seq<u8>, rest: seq<u8>)
    requires |r.gates| == GATE_COUNT && (r.presence <==> r.targetState != 0)
    requires forall i: nat :: !HeaderAt(junk, i, REPORT_HDR)
    ensures var f := Parse(junk + EncodeFrame(EncodeBody(r)) + rest, 0);
      f.Frame? && f.body == EncodeBody(r) && f.end == |junk| + 45 && (Decodes(back, f.body, r.tsMs) <==> back == r)
  {
    var b := EncodeBody(r);
    JunkThenFrame(junk, b, rest);
    assert b[1..3] == LE(r.distanceCm, 2);
    Numerals(r.distanceCm, 0);
    FromLEOfLE(r.distanceCm, 2);
    assert b[3..35] == LE16s(r.gates);
    U16sOfLE16s(b, 3, r.gates);
  }

  /** From the radar's wire to the mesh wire: for a full frame, bytes 3..37 of the packed diagnostics are bytes
      0..34 of the frame body. */
  lemma {:induction false} BodyReachesMesh(r: Sample, body: seq<u8>, nowMs: u32, d: Codec.BerthDiag)
    requires |body| >= 35 && Decodes(r, body, nowMs)
    requires d == Codec.BerthDiag(d.nodeId, d.berthId, r.targetState, r.distanceCm, r.gates, r.tsMs)
    ensures d.Valid() && Codec.DiagWire(d)[3..38] == body[..35]
  {
    hide LE, LE16s, FromLE;
    LEOfFromLE(body[1..3]);
    LE16sOfU16s(body, 3, GATE_COUNT);
    assert LE(r.distanceCm, 2) == body[1..3] && LE16s(r.gates) == body[3..35];
    var middle := [ToU8(r.targetState)] + LE(r.distanceCm, 2) + LE16s(r.gates);
    assert Codec.DiagWire(d) == ([d.nodeId] + LE(d.berthId, 2)) + middle + LE(d.tsMs, 4);
    assert body[..35] == [body[0]] + body[1..3] + body[3..35];
  }

  // ----- bounded resynchronisation -----

  /** From any position at most 60 bytes into a row of three frames whose only headers are the frame starts,
      reading succeeds by the end of the third. */
  lemma {:induction false} ThreeFramesFromInside(s: seq<u8>, j: nat, from: nat, b1: seq<u8>, b2: seq<u8>, b3: seq<u8>)
    requires 20 <= |b1| <= MAX_FRAME - 10 && 20 <= |b2| <= MAX_FRAME - 10 && 20 <= |b3| <= MAX_FRAME - 10
    requires ThreeFramesAt(s, j, b1, b2, b3)
    requires j <= from <= j + 60
    ensures Parse(s, from).Frame? && Parse(s, from).end <= j + |b1| + |b2| + |b3| + 30
  {
    var j2 := j + 10 + |b1|;
    var j3 := j2 + 10 + |b2|;
    if from == j { FrameParses(s, from, j, b1); }
    else if from <= j2 { FrameParses(s, from, j2, b2); }
    else { FrameParses(s, from, j3, b3); }
  }

  ghost predicate ThreeFramesAt(s: seq<u8>, j: nat, b1: seq<u8>, b2: seq<u8>, b3: seq<u8>)
    requires |b1| < 0x1_0000 && |b2| < 0x1_0000 && |b3| < 0x1_0000
  {
    var j2 := j + 10 + |b1|;
    var j3 := j2 + 10 + |b2|;
    var end := j3 + 10 + |b3|;
    && end <= |s|
    && s[j..j2] == EncodeFrame(b1) && s[j2..j3] == EncodeFrame(b2) && s[j3..end] == EncodeFrame(b3)
    && forall i :: j <= i <= end - 4 && HeaderAt(s, i, REPORT_HDR) ==> i == j || i == j2 || i == j3
  }

  lemma {:induction false} ResyncFrom(s: seq<u8>, j: nat, from: nat, b1: seq<u8>, b2: seq<u8>, b3: seq<u8>)
    requires 20 <= |b1| <= MAX_FRAME - 10 && 20 <= |b2| <= MAX_FRAME - 10 && 20 <= |b3| <= MAX_FRAME - 10
    requires ThreeFramesAt(s, j, b1, b2, b3)
    requires forall i: nat :: i < j < i + 4 ==> !HeaderAt(s, i, REPORT_HDR)
    requires from <= j + 60
    ensures Parse(s, from).Frame? && Parse(s, from).end <= j + |b1| + |b2| + |b3| + 30
    decreases |s| - from
  {
    if from >= j {
      ThreeFramesFromInside(s, j, from, b1, b2, b3);
    } else {
      assert HeaderAt(s, j, REPORT_HDR) by {
        assert s[j..j + 4] == s[j..j + 10 + |b1|][..4];
      }
      var r := FirstHeader(s, from, REPORT_HDR);
      assert r.Some? && r.value <= j;
      var h := r.value;
      if h == j {
        FrameParses(s, from, j, b1);
      } else {
        var v := Judge(s, h);
        if v.Resume? { ResyncFrom(s, j, v.at, b1, b2, b3); }
      }
    }
  }

  /** Whatever came before, three back-to-back frames whose headers are only the frame starts suffice: reading
      succeeds by the end of the third. The 45-byte report frame is the case of 35-byte bodies. */
  lemma ResyncWithinThreeFrames(junk: seq<u8>, b1: seq<u8>, b2: seq<u8>, b3: seq<u8>, rest: seq<u8>)
    requires 20 <= |b1| <= MAX_FRAME - 10 && 20 <= |b2| <= MAX_FRAME - 10 && 20 <= |b3| <= MAX_FRAME - 10
    requires var frames := EncodeFrame(b1) + EncodeFrame(b2) + EncodeFrame(b3);
      forall i: nat :: HeaderAt(frames, i, REPORT_HDR) ==> i == 0 || i == |b1| + 10 || i == |b1| + |b2| + 20
    ensures var s := junk + EncodeFrame(b1) + EncodeFrame(b2) + EncodeFrame(b3) + rest;
      Parse(s, 0).Frame? && Parse(s, 0).end <= |junk| + |b1| + |b2| + |b3| + 30
  {
    var frames := EncodeFrame(b1) + EncodeFrame(b2) + EncodeFrame(b3);
    var s := junk + EncodeFrame(b1) + EncodeFrame(b2) + EncodeFrame(b3) + rest;
    assert s == junk + (frames + rest) && s == junk + frames + rest;
    FramesInStream(junk, b1, b2, b3, rest);
    SeamHasNoHeader(junk, frames + rest);
    ResyncFrom(s, |junk|, 0, b1, b2, b3);
  }

  lemma SeamHasNoHeader(junk: seq<u8>, tail: seq<u8>)
    requires HeaderAt(tail, 0, REPORT_HDR)
    ensures forall i: nat :: i < |junk| < i + 4 ==> !HeaderAt(junk + tail, i, REPORT_HDR)
  {
    forall i: nat | i < |junk| < i + 4 ensures !HeaderAt(junk + tail, i, REPORT_HDR) {
      if HeaderAt(junk + tail, i, REPORT_HDR) { NoStraddle(junk, tail, i, REPORT_HDR); }
    }
  }

  lemma FramesInStream(junk: seq<u8>, b1: seq<u8>, b2: seq<u8>, b3: seq<u8>, rest: seq<u8>)
    requires |b1| < 0x1_0000 && |b2| < 0x1_0000 && |b3| < 0x1_0000
    requires var frames := EncodeFrame(b1) + EncodeFrame(b2) + EncodeFrame(b3);
      forall i: nat :: HeaderAt(frames, i, REPORT_HDR) ==> i == 0 || i == |b1| + 10 || i == |b1| + |b2| + 20
    ensures var frames := EncodeFrame(b1) + EncodeFrame(b2) + EncodeFrame(b3);
      HeaderAt(frames + rest, 0, REPORT_HDR) && ThreeFramesAt(junk + frames + rest, |junk|, b1, b2, b3)
  {
    hide EncodeFrame;
    var frames := EncodeFrame(b1) + EncodeFrame(b2) + EncodeFrame(b3);
    var s, j := junk + frames + rest, |junk|;
    assert EncodeFrame(b1)[..4] == REPORT_HDR by { FrameHead(b1); }
    assert (frames + rest)[0..4] == EncodeFrame(b1)[..4];
    forall i | j <= i <= j + |frames| - 4 && HeaderAt(s, i, REPORT_HDR) ensures HeaderAt(frames, i - j, REPORT_HDR) {
      assert s[i..i + 4] == frames[i - j..i - j + 4];
    }
  }

  lemma FrameHead(body: seq<u8>)
    requires |body| < 0x1_0000
    ensures EncodeFrame(body)[..4] == REPORT_HDR
  {
  }
}
