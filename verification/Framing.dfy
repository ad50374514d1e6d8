/** Hunting for a four-byte header in a byte stream (`dp_radar.c`), for any header whose bytes are distinct. */
module Framing {
  import opened Common

  ghost predicate DistinctHeader(hdr: seq<u8>) {
    |hdr| == 4 && forall i, j :: 0 <= i < j < 4 ==> hdr[i] != hdr[j]
  }

  /** The last `k` bytes of `s[from..pos]` are the first `k` bytes of the header. */
  ghost predicate Border(s: seq<u8>, from: nat, pos: nat, k: nat, hdr: seq<u8>)
    requires |hdr| == 4 && pos <= |s|
  {
    k <= 4 && from + k <= pos && forall j :: 0 <= j < k ==> s[pos - k + j] == hdr[j]
  }

  ghost predicate LongestBorder(s: seq<u8>, from: nat, pos: nat, k: nat, hdr: seq<u8>)
    requires |hdr| == 4 && pos <= |s|
  {
    Border(s, from, pos, k, hdr) && forall m :: k < m <= 4 ==> !Border(s, from, pos, m, hdr)
  }

  /** One step of the matcher: advance on the expected byte, else fall back to one or zero matched bytes. */
  function Match(hdr: seq<u8>, m: nat, b: u8): nat
    requires |hdr| == 4 && m < 4
  {
    if b == hdr[m] then m + 1 else if b == hdr[0] then 1 else 0
  }

  lemma BorderShorten(s: seq<u8>, from: nat, pos: nat, k: nat, hdr: seq<u8>)
    requires |hdr| == 4 && pos < |s| && 0 < k <= 4
    ensures Border(s, from, pos + 1, k, hdr) <==> Border(s, from, pos, k - 1, hdr) && s[pos] == hdr[k - 1]
  {
    if Border(s, from, pos + 1, k, hdr) {
      assert s[pos + 1 - k + (k - 1)] == hdr[k - 1];
      forall j | 0 <= j < k - 1 ensures s[pos - (k - 1) + j] == hdr[j] {
        assert s[pos + 1 - k + j] == hdr[j];
      }
    }
    if Border(s, from, pos, k - 1, hdr) && s[pos] == hdr[k - 1] {
      forall j | 0 <= j < k ensures s[pos + 1 - k + j] == hdr[j] {
        if j < k - 1 { assert s[pos - (k - 1) + j] == hdr[j]; }
      }
    }
  }

  /** The one-or-zero fallback computes the longest border: no prefix of a header with distinct bytes has a
      border of its own. */
  lemma MatchIsLongestBorder(s: seq<u8>, from: nat, pos: nat, m: nat, hdr: seq<u8>)
    requires DistinctHeader(hdr) && pos < |s| && m < 4 && LongestBorder(s, from, pos, m, hdr)
    ensures LongestBorder(s, from, pos + 1, Match(hdr, m, s[pos]), hdr)
  {
    var p := pos + 1;
    forall k | 0 < k <= 4
      ensures Border(s, from, p, k, hdr) <==> (k == m + 1 || k == 1) && s[pos] == hdr[k - 1]
    {
      BorderShorten(s, from, pos, k, hdr);
      if Border(s, from, pos, k - 1, hdr) && k - 1 > 0 {
        assert k - 1 <= m;
        assert s[pos - (k - 1) + (k - 2)] == hdr[k - 2] && s[pos - m + (m - 1)] == hdr[m - 1];
      }
    }
  }

  ghost predicate HeaderAt(s: seq<u8>, i: nat, hdr: seq<u8>) {
    i + 4 <= |s| && s[i..i + 4] == hdr
  }

  /** The least index, from `from` on, at which a whole header starts. */
  ghost function FirstHeader(s: seq<u8>, from: nat, hdr: seq<u8>): (r: Option<nat>)
    ensures r.Some? ==> from <= r.value && HeaderAt(s, r.value, hdr)
    ensures forall i :: from <= i < (if r.Some? then r.value else |s|) ==> !HeaderAt(s, i, hdr)
    decreases |s| - from
  {
    if from + 4 > |s| then None
    else if HeaderAt(s, from, hdr) then Some(from)
    else FirstHeader(s, from + 1, hdr)
  }

  lemma {:induction false} FirstHeaderIs(s: seq<u8>, from: nat, h: nat, hdr: seq<u8>)
    requires from <= h && HeaderAt(s, h, hdr) && forall i :: from <= i < h ==> !HeaderAt(s, i, hdr)
    ensures FirstHeader(s, from, hdr) == Some(h)
  {
  }

  lemma HeaderIsBorder(s: seq<u8>, from: nat, pos: nat, hdr: seq<u8>)
    requires |hdr| == 4 && from + 4 <= pos <= |s|
    ensures Border(s, from, pos, 4, hdr) <==> HeaderAt(s, pos - 4, hdr)
  {
    if Border(s, from, pos, 4, hdr) {
      assert s[pos - 4..pos] == hdr;
    }
    if HeaderAt(s, pos - 4, hdr) {
      forall j | 0 <= j < 4 ensures s[pos - 4 + j] == hdr[j] {
        assert s[pos - 4 + j] == s[pos - 4..pos][j];
      }
    }
  }

  /** What the hunt knows after reading up to `pos` with `m` header bytes matched. */
  ghost predicate Hunting(s: seq<u8>, from: nat, pos: nat, m: nat, hdr: seq<u8>) {
    && |hdr| == 4 && from <= pos <= |s| && m < 4
    && LongestBorder(s, from, pos, m, hdr)
    && forall i :: from <= i && i + 4 <= pos ==> !HeaderAt(s, i, hdr)
  }

  lemma HuntStarts(s: seq<u8>, from: nat, hdr: seq<u8>)
    requires |hdr| == 4 && from <= |s|
    ensures Hunting(s, from, from, 0, hdr)
  {
  }

  /** One byte of the hunt, and what it establishes when the header is complete. */
  lemma {:induction false} HuntStep(s: seq<u8>, from: nat, pos: nat, m: nat, hdr: seq<u8>)
    requires DistinctHeader(hdr) && Hunting(s, from, pos, m, hdr) && pos < |s|
    ensures var m' := Match(hdr, m, s[pos]);
      if m' < 4 then Hunting(s, from, pos + 1, m', hdr)
      else from + 3 <= pos && FirstHeader(s, from, hdr) == Some(pos - 3)
  {
    var m' := Match(hdr, m, s[pos]);
    MatchIsLongestBorder(s, from, pos, m, hdr);
    if from + 4 <= pos + 1 { HeaderIsBorder(s, from, pos + 1, hdr); }
    if m' == 4 {
      FirstHeaderIs(s, from, pos - 3, hdr);
    } else {
      forall i | from <= i && i + 4 <= pos + 1 ensures !HeaderAt(s, i, hdr) {
        if i + 4 == pos + 1 { assert !Border(s, from, pos + 1, 4, hdr); }
      }
    }
  }

  lemma {:induction false} HuntEnds(s: seq<u8>, from: nat, m: nat, hdr: seq<u8>)
    requires Hunting(s, from, |s|, m, hdr)
    ensures FirstHeader(s, from, hdr) == None
  {
    var r := FirstHeader(s, from, hdr);
  }

  /** A header cannot straddle two streams unless it starts in the first one: placing one that starts with a
      header behind any bytes creates no new header across the seam. */
  lemma NoStraddle(a: seq<u8>, b: seq<u8>, i: nat, hdr: seq<u8>)
    requires DistinctHeader(hdr) && HeaderAt(b, 0, hdr) && HeaderAt(a + b, i, hdr)
    ensures i + 4 <= |a| || i >= |a|
  {
    var s := a + b;
    assert b[0] == b[0..4][0] == hdr[0] && s[|a|] == b[0];
    assert forall k :: 0 <= k < 4 ==> s[i + k] == s[i..i + 4][k] == hdr[k];
    assert i <= |a| < i + 4 ==> s[i + (|a| - i)] == hdr[|a| - i];
  }

  lemma JunkStaysJunk(junk: seq<u8>, tail: seq<u8>, i: nat, hdr: seq<u8>)
    requires DistinctHeader(hdr) && HeaderAt(tail, 0, hdr)
    requires i < |junk| && !HeaderAt(junk, i, hdr)
    ensures !HeaderAt(junk + tail, i, hdr)
  {
    var s := junk + tail;
    if i + 4 <= |junk| {
      assert junk[i..i + 4] == s[i..i + 4];
    } else if HeaderAt(s, i, hdr) {
      NoStraddle(junk, tail, i, hdr);
    }
  }

  /** Behind bytes without a whole header, the first header is the one that follows them. */
  lemma {:induction false} FirstHeaderAfterJunk(junk: seq<u8>, tail: seq<u8>, hdr: seq<u8>)
    requires DistinctHeader(hdr) && HeaderAt(tail, 0, hdr)
    requires forall i: nat :: !HeaderAt(junk, i, hdr)
    ensures FirstHeader(junk + tail, 0, hdr) == Some(|junk|)
  {
    var s := junk + tail;
    assert HeaderAt(s, |junk|, hdr) by {
      assert s[|junk|..|junk| + 4] == tail[0..4];
    }
    hide HeaderAt, FirstHeader, DistinctHeader;
    forall i: nat | i < |junk| ensures !HeaderAt(s, i, hdr) {
      JunkStaysJunk(junk, tail, i, hdr);
    }
    FirstHeaderIs(s, 0, |junk|, hdr);
  }
}
