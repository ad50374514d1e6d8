/** Machine integers, error codes and the little-endian numerals shared by every component. */
module Common {

  type u8 = x: int | 0 <= x < 0x100
  type u16 = x: int | 0 <= x < 0x1_0000
  type u32 = x: int | 0 <= x < 0x1_0000_0000
  type i8 = x: int | -0x80 <= x < 0x80

  datatype Option<+T> = None | Some(value: T)

  /** The part of `esp_err_t` that the modelled code distinguishes. */
  datatype EspErr = OK | INVALID_ARG | INVALID_SIZE | INVALID_STATE | NO_MEM | NOT_FOUND | TIMEOUT | FAIL

  const GATE_COUNT := 16

  /** `dp_radar_sample_t`. */
  datatype Sample = Sample(presence: bool, distanceCm: u16, targetState: i8, tsMs: u32, gates: seq<u16>)

  /** C's conversions between `int8_t` and `uint8_t` reinterpret the bit pattern. */
  function ToI8(b: u8): (v: i8)
    ensures (v - b) % 0x100 == 0
  {
    if b < 0x80 then b else b - 0x100
  }

  function ToU8(v: i8): (b: u8)
    ensures (b - v) % 0x100 == 0
  {
    if v < 0 then v + 0x100 else v
  }

  lemma SliceOfSlice<T>(s: seq<T>, a: nat, b: nat, c: nat, d: nat)
    requires a <= b <= |s| && c <= d <= b - a
    ensures s[a..b][c..d] == s[a + c..a + d]
  {
    var t := s[a..b];
    var x, y := t[c..d], s[a + c..a + d];
    forall i | 0 <= i < d - c ensures x[i] == y[i] {
      assert x[i] == t[c + i] == s[a + c + i];
    }
  }

  // ----- little-endian numerals -----

  function Pow256(n: nat): nat
    ensures Pow256(n) > 0
  {
    if n == 0 then 1 else 256 * Pow256(n - 1)
  }

  function LE(v: nat, n: nat): (b: seq<u8>)
    ensures |b| == n
  {
    if n == 0 then [] else [v % 256] + LE(v / 256, n - 1)
  }

  function FromLE(b: seq<u8>): nat {
    if b == [] then 0 else b[0] as int + 256 * FromLE(b[1..])
  }

  lemma {:induction false} FromLEOfLE(v: nat, n: nat)
    requires v < Pow256(n)
    ensures FromLE(LE(v, n)) == v
  {
    if n > 0 {
      FromLEOfLE(v / 256, n - 1);
      assert LE(v, n)[1..] == LE(v / 256, n - 1);
    }
  }

  lemma {:induction false} LEOfFromLE(b: seq<u8>)
    ensures LE(FromLE(b), |b|) == b
    ensures FromLE(b) < Pow256(|b|)
  {
    if b != [] {
      LEOfFromLE(b[1..]);
      assert FromLE(b) % 256 == b[0] && FromLE(b) / 256 == FromLE(b[1..]);
    }
  }

  /** The two- and four-byte numerals written with the shifts and masks the C code uses. */
  lemma {:induction false} Numerals(v: u16, w: u32)
    ensures Pow256(2) == 0x1_0000 && Pow256(4) == 0x1_0000_0000
    ensures LE(v, 2) == [v % 0x100, v / 0x100]
    ensures LE(w, 4) == [w % 0x100, w / 0x100 % 0x100, w / 0x1_0000 % 0x100, w / 0x100_0000 % 0x100]
  {
    assert LE(v / 256, 1) == [v / 256 % 256] + LE(v / 256 / 256, 0);
    var a, b, c := w / 256, w / 256 / 256, w / 256 / 256 / 256;
    assert LE(w, 4) == [w % 256] + LE(a, 3);
    assert LE(a, 3) == [a % 256] + LE(b, 2);
    assert LE(b, 2) == [b % 256] + LE(c, 1);
    assert LE(c, 1) == [c % 256] + LE(c / 256, 0);
    assert b == w / 0x1_0000 && c == w / 0x100_0000;
    assert Pow256(2) == 256 * Pow256(1) && Pow256(4) == 256 * Pow256(3) && Pow256(3) == 256 * Pow256(2);
  }

  /** `lo | hi << 8` on two bytes. */
  function U16(lo: u8, hi: u8): u16 { lo as int + 0x100 * (hi as int) }

  function U32(a: u8, b: u8, c: u8, d: u8): u32 {
    a as int + 0x100 * (b as int) + 0x1_0000 * (c as int) + 0x100_0000 * (d as int)
  }

  lemma {:induction false} FromNumerals(b: seq<u8>)
    ensures |b| == 2 ==> FromLE(b) == U16(b[0], b[1])
    ensures |b| == 4 ==> FromLE(b) == U32(b[0], b[1], b[2], b[3])
  {
    if |b| == 2 {
      assert FromLE(b[1..]) == b[1] as int + 256 * FromLE(b[1..][1..]);
    } else if |b| == 4 {
      var c := b[1..];
      var d := c[1..];
      var e := d[1..];
      assert FromLE(c) == b[1] as int + 256 * FromLE(d);
      assert FromLE(d) == b[2] as int + 256 * FromLE(e);
      assert FromLE(e) == b[3] as int + 256 * FromLE(e[1..]);
    }
  }

  /** A row of 16-bit numerals, as the gate energies travel. */
  function LE16s(vs: seq<u16>): (b: seq<u8>)
    ensures |b| == 2 * |vs|
  {
    if vs == [] then [] else
      var k := |vs| - 1;
      LE16s(vs[..k]) + [vs[k] % 0x100, vs[k] / 0x100]
  }

  lemma LE16sPrefix(vs: seq<u16>, k: nat)
    requires k < |vs|
    ensures LE16s(vs[..k + 1]) == LE16s(vs[..k]) + [vs[k] % 0x100, vs[k] / 0x100]
  {
    assert vs[..k + 1][..k] == vs[..k];
  }

  lemma {:induction false} LE16sAt(vs: seq<u16>, i: nat)
    requires i < |vs|
    ensures LE16s(vs)[2 * i] == vs[i] % 0x100 && LE16s(vs)[2 * i + 1] == vs[i] / 0x100
  {
    var k := |vs| - 1;
    if i < k { LE16sAt(vs[..k], i); }
  }

  /** The `n` 16-bit numerals that start at `off`. */
  function U16sAt(b: seq<u8>, off: nat, n: nat): (vs: seq<u16>)
    requires off + 2 * n <= |b|
    ensures |vs| == n
    ensures forall i :: 0 <= i < n ==> vs[i] == U16(b[off + 2 * i], b[off + 2 * i + 1])
  {
    seq(n, i requires 0 <= i < n => U16(b[off + 2 * i], b[off + 2 * i + 1]))
  }

  lemma BytesOfU16(lo: u8, hi: u8)
    ensures U16(lo, hi) % 0x100 == lo && U16(lo, hi) / 0x100 == hi
  {
  }

  lemma {:induction false} LE16sOfU16s(b: seq<u8>, off: nat, n: nat)
    requires off + 2 * n <= |b|
    ensures LE16s(U16sAt(b, off, n)) == b[off..off + 2 * n]
  {
    if n > 0 {
      hide LE16s, U16;
      var k, vs := n - 1, U16sAt(b, off, n);
      LE16sOfU16s(b, off, k);
      LE16sPrefix(vs, k);
      assert vs[..k] == U16sAt(b, off, k) && vs[..n] == vs;
      BytesOfU16(b[off + 2 * k], b[off + 2 * k + 1]);
      assert b[off..off + 2 * n] == b[off..off + 2 * k] + [b[off + 2 * k], b[off + 2 * k + 1]];
    }
  }

  lemma {:induction false} U16sOfLE16s(w: seq<u8>, off: nat, vs: seq<u16>)
    requires off + 2 * |vs| <= |w| && w[off..off + 2 * |vs|] == LE16s(vs)
    ensures U16sAt(w, off, |vs|) == vs
  {
    var b := LE16s(vs);
    forall i | 0 <= i < |vs| ensures U16sAt(w, off, |vs|)[i] == vs[i] {
      LE16sAt(vs, i);
      assert w[off + 2 * i] == b[2 * i] && w[off + 2 * i + 1] == b[2 * i + 1];
    }
  }
}
