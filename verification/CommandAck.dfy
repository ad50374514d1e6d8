/** Waiting for the radar's answer to the mode-change command (`dp_radar.c`). */
module CommandAck {
  import opened Common
  import opened Framing
  import opened Radar

  const ENTER_REPORT_MODE: u16 := 0x0012

  /** `req_cmd | 0x0100`: the response bit is set whether or not the request had it. */
  function WantCmd(reqCmd: u16): u16 {
    if reqCmd / 0x100 % 2 == 1 then reqCmd else reqCmd + 0x100
  }

  /** The low byte and the bits above the response bit stay. */
  lemma WantCmdSetsOneBit(reqCmd: u16)
    ensures var w := WantCmd(reqCmd); w % 0x100 == reqCmd % 0x100 && w / 0x100 % 2 == 1 && w / 0x200 == reqCmd / 0x200
  {
  }

  /** The answer read off the stream: unlike the report reader this one never resynchronises. */
  ghost function Ack(s: seq<u8>, reqCmd: u16): EspErr {
    match FirstHeader(s, 0, CMD_HDR)
    case None => TIMEOUT
    case Some(h) =>
      if h + 6 > |s| then TIMEOUT
      else
        var n := U16(s[h + 4], s[h + 5]);
        if n < 2 || n + 10 > MAX_FRAME then FAIL
        else if h + 10 + n > |s| then TIMEOUT
        else if s[h + 6 + n..h + 10 + n] != CMD_TAIL || U16(s[h + 6], s[h + 7]) != WantCmd(reqCmd) then FAIL
        else OK
  }

  /** `read_command_ack`; `s` is what the UART delivers before the deadline. */
  method ReadCommandAck(s: seq<u8>, reqCmd: u16) returns (err: EspErr)
    ensures err == Ack(s, reqCmd)
  {
    hide Ack, Progress;
    var state := SYNC_HDR;
    var hdrMatch: nat, frameLen: nat, expectedBody: nat := 0, 0, 0;
    var frame := new u8[MAX_FRAME](_ => 0);
    var used: nat := 0;
    ghost var h: nat := 0;
    AckStarts(s, frame[..]);
    while used < |s|
      invariant used <= |s|
      invariant Progress(s, h, used, state, hdrMatch, frame[..], frameLen, expectedBody)
    {
      var b := s[used];
      match state {
        case SYNC_HDR =>
          SyncStep(s, h, used, hdrMatch, frame[..], frameLen, expectedBody);
          if b == CMD_HDR[hdrMatch] {
            hdrMatch := hdrMatch + 1;
            if hdrMatch == 4 {
              StoreHeader(frame, CMD_HDR);
              frameLen, state := 4, READ_LEN;
              h := used - 3;
            }
          } else {
            hdrMatch := if b == CMD_HDR[0] then 1 else 0;
          }
        case READ_LEN =>
          LenStep(s, h, used, hdrMatch, frame[..], frameLen, expectedBody, reqCmd);
          Store(frame, frameLen, b);
          frameLen := frameLen + 1;
          if frameLen == 6 {
            expectedBody := U16(frame[4], frame[5]);
            if expectedBody < 2 || expectedBody + 4 + 2 + 4 > MAX_FRAME {
              return FAIL;
            }
            state := READ_BODY;
          }
        case READ_BODY =>
          BodyStep(s, h, used, hdrMatch, frame[..], frameLen, expectedBody, reqCmd);
          Store(frame, frameLen, b);
          frameLen := frameLen + 1;
          if frameLen == 4 + 2 + expectedBody + 4 {
            if frame[frameLen - 4..frameLen] != CMD_TAIL {
              return FAIL;
            }
            var gotCmd := U16(frame[6], frame[7]);
            return if gotCmd != WantCmd(reqCmd) then FAIL else OK;
          }
      }
      used := used + 1;
    }
    AckStarves(s, h, state, hdrMatch, frame[..], frameLen, expectedBody, reqCmd);
    return TIMEOUT;
  }

  ghost predicate Progress(s: seq<u8>, h: nat, used: nat, state: State, hdrMatch: nat,
                           frame: seq<u8>, frameLen: nat, expectedBody: nat)
  {
    |frame| == MAX_FRAME &&
    match state
    case SYNC_HDR => Hunting(s, 0, used, hdrMatch, CMD_HDR)
    case READ_LEN => InFrame(s, 0, h, used, frame, frameLen, CMD_HDR) && frameLen < 6
    case READ_BODY =>
      && InFrame(s, 0, h, used, frame, frameLen, CMD_HDR)
      && 6 <= frameLen < expectedBody + 10 <= MAX_FRAME && 2 <= expectedBody == U16(s[h + 4], s[h + 5])
  }

  lemma AckStarts(s: seq<u8>, frame: seq<u8>)
    requires |frame| == MAX_FRAME
    ensures Progress(s, 0, 0, SYNC_HDR, 0, frame, 0, 0)
  {
    HuntStarts(s, 0, CMD_HDR);
  }

  lemma AckStarves(s: seq<u8>, h: nat, state: State, hdrMatch: nat,
                   frame: seq<u8>, frameLen: nat, expectedBody: nat, reqCmd: u16)
    requires Progress(s, h, |s|, state, hdrMatch, frame, frameLen, expectedBody)
    ensures Ack(s, reqCmd) == TIMEOUT
  {
    if state == SYNC_HDR { HuntEnds(s, 0, hdrMatch, CMD_HDR); }
  }

  lemma SyncStep(s: seq<u8>, h: nat, used: nat, hdrMatch: nat, frame: seq<u8>, frameLen: nat, expectedBody: nat)
    requires used < |s| && Progress(s, h, used, SYNC_HDR, hdrMatch, frame, frameLen, expectedBody)
    ensures hdrMatch < 4
    ensures var m := Match(CMD_HDR, hdrMatch, s[used]);
      if m < 4 then Progress(s, h, used + 1, SYNC_HDR, m, frame, frameLen, expectedBody)
      else used >= 3 && Progress(s, used - 3, used + 1, READ_LEN, m, CMD_HDR + frame[4..], 4, expectedBody)
  {
    hide FirstHeader;
    HuntStep(s, 0, used, hdrMatch, CMD_HDR);
    assert (CMD_HDR + frame[4..])[..4] == CMD_HDR;
  }

  lemma LenStep(s: seq<u8>, h: nat, used: nat, hdrMatch: nat,
                frame: seq<u8>, frameLen: nat, expectedBody: nat, reqCmd: u16)
    requires used < |s| && Progress(s, h, used, READ_LEN, hdrMatch, frame, frameLen, expectedBody)
    ensures |frame| == MAX_FRAME && 4 <= frameLen < 6
    ensures var f := frame[frameLen := s[used]];
      if frameLen == 4 then Progress(s, h, used + 1, READ_LEN, hdrMatch, f, 5, expectedBody)
      else
        var n := U16(f[4], f[5]);
        if n < 2 || n + 10 > MAX_FRAME then Ack(s, reqCmd) == FAIL
        else Progress(s, h, used + 1, READ_BODY, hdrMatch, f, 6, n)
  {
    hide FirstHeader, Hunting;
    InFrameStep(s, 0, h, used, frame, frameLen, CMD_HDR);
    BufferBytes(s, h, used + 1, frame[frameLen := s[used]], frameLen + 1);
  }

  lemma BodyStep(s: seq<u8>, h: nat, used: nat, hdrMatch: nat,
                 frame: seq<u8>, frameLen: nat, expectedBody: nat, reqCmd: u16)
    requires used < |s| && Progress(s, h, used, READ_BODY, hdrMatch, frame, frameLen, expectedBody)
    ensures |frame| == MAX_FRAME && 6 <= frameLen < expectedBody + 10 <= MAX_FRAME && 2 <= expectedBody
    ensures var f := frame[frameLen := s[used]];
      if frameLen + 1 < expectedBody + 10 then
        Progress(s, h, used + 1, READ_BODY, hdrMatch, f, frameLen + 1, expectedBody)
      else
        var accepted := f[frameLen - 3..frameLen + 1] == CMD_TAIL && U16(f[6], f[7]) == WantCmd(reqCmd);
        Ack(s, reqCmd) == if accepted then OK else FAIL
  {
    hide FirstHeader, Hunting;
    InFrameStep(s, 0, h, used, frame, frameLen, CMD_HDR);
    var f := frame[frameLen := s[used]];
    BufferBytes(s, h, used + 1, f, frameLen + 1);
    if frameLen + 1 == expectedBody + 10 { BufferParts(s, 0, h, used + 1, f, frameLen + 1, CMD_HDR); }
  }

  lemma BufferBytes(s: seq<u8>, h: nat, used: nat, frame: seq<u8>, frameLen: nat)
    requires InFrame(s, 0, h, used, frame, frameLen, CMD_HDR)
    ensures forall k :: 0 <= k < frameLen ==> frame[k] == s[h + k]
  {
    forall k | 0 <= k < frameLen ensures frame[k] == s[h + k] {
      assert frame[..frameLen][k] == s[h..used][k];
    }
  }

  function CommandFrame(body: seq<u8>): (f: seq<u8>)
    requires |body| < 0x1_0000
  {
    CMD_HDR + [|body| % 0x100, |body| / 0x100] + body + CMD_TAIL
  }

  /** Behind bytes without a command header, a well-formed command frame is accepted exactly when it carries the
      request's word with the response bit; everything after it is ignored. */
  lemma AckOfFrame(junk: seq<u8>, body: seq<u8>, rest: seq<u8>, reqCmd: u16)
    requires 2 <= |body| <= 54
    requires forall i: nat :: !HeaderAt(junk, i, CMD_HDR)
    ensures Ack(junk + CommandFrame(body) + rest, reqCmd) ==
      if body[0] == reqCmd % 0x100 && body[1] % 2 == 1 && body[1] / 2 == reqCmd / 0x200 then OK else FAIL
  {
    hide FirstHeader, WantCmd;
    var tail := CommandFrame(body) + rest;
    var s := junk + CommandFrame(body) + rest;
    assert s == junk + tail;
    assert tail[0..4] == CMD_HDR;
    FirstHeaderAfterJunk(junk, tail, CMD_HDR);
    FrameInStream(junk, body, rest);
    SameWord(body[0], body[1], reqCmd);
  }

  /** Comparing the word is comparing its low byte, its response bit and the bits above that. */
  lemma SameWord(lo: u8, hi: u8, reqCmd: u16)
    ensures U16(lo, hi) == WantCmd(reqCmd) <==> lo == reqCmd % 0x100 && hi % 2 == 1 && hi / 2 == reqCmd / 0x200
  {
    hide WantCmd;
    WantCmdSetsOneBit(reqCmd);
    var w := WantCmd(reqCmd);
    assert w == w % 0x100 + 0x100 * (w / 0x100 % 2) + 0x200 * (w / 0x200);
    assert hi == hi % 2 + 2 * (hi / 2);
  }

  /** And the other way round: what is accepted is a whole command frame, the first in the stream. */
  lemma {:induction false} OkIsAFrame(s: seq<u8>, reqCmd: u16)
    requires Ack(s, reqCmd) == OK
    ensures FirstHeader(s, 0, CMD_HDR).Some? && FrameStarts(s[FirstHeader(s, 0, CMD_HDR).value..], reqCmd)
  {
    hide FirstHeader, WantCmd;
    var h := FirstHeader(s, 0, CMD_HDR).value;
    FrameFrom(s, h, U16(s[h + 4], s[h + 5]), reqCmd);
  }

  lemma FrameFrom(s: seq<u8>, h: nat, n: nat, reqCmd: u16)
    requires HeaderAt(s, h, CMD_HDR) && 2 <= n <= 54 && h + 10 + n <= |s| && n == U16(s[h + 4], s[h + 5])
    requires s[h + 6 + n..h + 10 + n] == CMD_TAIL && U16(s[h + 6], s[h + 7]) == WantCmd(reqCmd)
    ensures FrameStarts(s[h..], reqCmd)
  {
    hide WantCmd, CommandFrame;
    var t := s[h..];
    BytesOfU16(s[h + 4], s[h + 5]);
    SameWord(s[h + 6], s[h + 7], reqCmd);
    SliceOfSlice(s, h, |s|, 6 + n, 10 + n);
    SliceOfSlice(s, h, |s|, 0, 4);
    assert t[..4] == t[0..4] == CMD_HDR;
    WholeFrame(t, n);
    var body := t[6..6 + n];
    assert body[0] == s[h + 6] && body[1] == s[h + 7];
  }

  /** A command frame, with the request's word and the response bit in front. */
  ghost predicate FrameStarts(t: seq<u8>, reqCmd: u16) {
    exists body: seq<u8> | 2 <= |body| <= 54 ::
      CommandFrame(body) <= t && body[0] == reqCmd % 0x100 && body[1] % 2 == 1 && body[1] / 2 == reqCmd / 0x200
  }

  lemma WholeFrame(t: seq<u8>, n: nat)
    requires n < 0x1_0000 && 10 + n <= |t| && t[..4] == CMD_HDR && t[4] == n % 0x100 && t[5] == n / 0x100
    requires t[6 + n..10 + n] == CMD_TAIL
    ensures CommandFrame(t[6..6 + n]) <= t
  {
    assert t[..10 + n] == t[..4] + [t[4], t[5]] + t[6..6 + n] + t[6 + n..10 + n];
  }

  /** What the mode change waits for: a command frame whose body starts with the bytes 12 01. */
  lemma ReportModeAnswer(junk: seq<u8>, body: seq<u8>, rest: seq<u8>)
    requires 2 <= |body| <= 54
    requires forall i: nat :: !HeaderAt(junk, i, CMD_HDR)
    ensures Ack(junk + CommandFrame(body) + rest, ENTER_REPORT_MODE) == if body[..2] == [0x12, 0x01] then OK else FAIL
  {
    AckOfFrame(junk, body, rest, ENTER_REPORT_MODE);
    assert body[1] == body[1] % 2 + 2 * (body[1] / 2);
    assert body[..2] == [body[0], body[1]];
  }

  lemma FrameInStream(junk: seq<u8>, body: seq<u8>, rest: seq<u8>)
    requires |body| < 0x1_0000
    ensures var s, h := junk + CommandFrame(body) + rest, |junk|;
      && h + 10 + |body| <= |s| && U16(s[h + 4], s[h + 5]) == |body|
      && s[h + 6..h + 6 + |body|] == body && s[h + 6 + |body|..h + 10 + |body|] == CMD_TAIL
  {
    var s, h := junk + CommandFrame(body) + rest, |junk|;
    assert s == (junk + CMD_HDR + [|body| % 0x100, |body| / 0x100]) + body + (CMD_TAIL + rest);
    assert s[h + 4] == |body| % 0x100 && s[h + 5] == |body| / 0x100;
  }

  /** The mode-change request is itself a well-formed command frame that sets value 4 for command 0x0012, and a
      UART that merely echoes it is not mistaken for an answer. */
  lemma EchoIsNoAck(rest: seq<u8>)
    ensures CMD_ENTER_REPORT_MODE == CommandFrame(LE(ENTER_REPORT_MODE, 2) + LE(0, 2) + LE(4, 4))
    ensures Ack(CMD_ENTER_REPORT_MODE + rest, ENTER_REPORT_MODE) == FAIL
  {
    hide LE, Ack;
    Numerals(ENTER_REPORT_MODE, 4);
    Numerals(0, 0);
    var body := LE(ENTER_REPORT_MODE, 2) + LE(0, 2) + LE(4, 4);
    AckOfFrame([], body, rest, ENTER_REPORT_MODE);
    assert [] + CommandFrame(body) + rest == CMD_ENTER_REPORT_MODE + rest;
    assert body[1] == 0;
  }
}
