/** The two cyclic checksums of the wire contract: CRC-16 guards frames, CRC-32 fingerprints operation
    requests. A machine word is its bits, listed from the end the algorithm shifts out of: the most
    significant first for CRC-16, the least significant first for the reflected CRC-32. Both are then
    the same shift register with a different polynomial. */
module Checksum {

  type Byte = b: int | 0 <= b < 256

  type Octet = s: seq<bool> | |s| == 8 witness [false, false, false, false, false, false, false, false]

  const OFF := false
  const ON := true

  // ---------------------------------------------------------------- bits of a byte

  /** The low `n` bits, most significant first. */
  function HighFirst(b: nat, n: nat): (r: seq<bool>)
    ensures |r| == n
  {
    if n == 0 then [] else HighFirst(b / 2, n - 1) + [b % 2 == 1]
  }

  /** The low `n` bits, least significant first. */
  function LowFirst(b: nat, n: nat): (r: seq<bool>)
    ensures |r| == n
  {
    if n == 0 then [] else [b % 2 == 1] + LowFirst(b / 2, n - 1)
  }

  function Value(bits: seq<bool>): nat {
    if bits == [] then 0 else 2 * Value(bits[..|bits| - 1]) + if bits[|bits| - 1] then 1 else 0
  }

  function Power2(n: nat): nat {
    if n == 0 then 1 else 2 * Power2(n - 1)
  }

  function Msb(b: Byte): Octet {
    HighFirst(b, 8)
  }

  function Lsb(b: Byte): Octet {
    LowFirst(b, 8)
  }

  function FromMsb(o: Octet): Byte {
    ValueBound(o);
    assert Power2(8) == 256;
    Value(o)
  }

  function LowValue(bits: seq<bool>): nat {
    if bits == [] then 0 else 2 * LowValue(bits[1..]) + if bits[0] then 1 else 0
  }

  function FromLsb(o: Octet): Byte {
    LowValueBound(o);
    assert Power2(8) == 256;
    LowValue(o)
  }

  lemma {:induction false} LowValueBound(bits: seq<bool>)
    ensures LowValue(bits) < Power2(|bits|)
    decreases |bits|
  {
    if bits != [] { LowValueBound(bits[1..]); }
  }

  lemma {:induction false} LowFirstOfValue(bits: seq<bool>)
    ensures LowFirst(LowValue(bits), |bits|) == bits
    decreases |bits|
  {
    if bits != [] {
      LowFirstOfValue(bits[1..]);
      assert bits == [bits[0]] + bits[1..];
    }
  }

  lemma FromLsbRoundTrip(o: Octet)
    ensures Lsb(FromLsb(o)) == o
  {
    LowFirstOfValue(o);
  }

  lemma {:induction false} ValueBound(bits: seq<bool>)
    ensures Value(bits) < Power2(|bits|)
    decreases |bits|
  {
    if bits != [] { ValueBound(bits[..|bits| - 1]); }
  }

  lemma {:induction false} ValueOfHighFirst(b: nat, n: nat)
    requires b < Power2(n)
    ensures Value(HighFirst(b, n)) == b
  {
    if n > 0 {
      ValueOfHighFirst(b / 2, n - 1);
      assert HighFirst(b, n)[..n - 1] == HighFirst(b / 2, n - 1);
    }
  }

  lemma {:induction false} HighFirstOfValue(bits: seq<bool>)
    ensures HighFirst(Value(bits), |bits|) == bits
    decreases |bits|
  {
    if bits != [] {
      HighFirstOfValue(bits[..|bits| - 1]);
      assert bits == bits[..|bits| - 1] + [bits[|bits| - 1]];
    }
  }

  lemma MsbRoundTrip(b: Byte)
    ensures FromMsb(Msb(b)) == b
  {
    assert Power2(8) == 256;
    ValueOfHighFirst(b, 8);
  }

  lemma FromMsbRoundTrip(o: Octet)
    ensures Msb(FromMsb(o)) == o
  {
    HighFirstOfValue(o);
  }

  lemma {:induction false} LowFirstInjective(a: nat, b: nat, n: nat)
    requires a < Power2(n) && b < Power2(n) && LowFirst(a, n) == LowFirst(b, n)
    ensures a == b
  {
    if n > 0 {
      assert LowFirst(a, n)[0] == LowFirst(b, n)[0];
      assert LowFirst(a, n)[1..] == LowFirst(a / 2, n - 1) && LowFirst(b, n)[1..] == LowFirst(b / 2, n - 1);
      LowFirstInjective(a / 2, b / 2, n - 1);
    }
  }

  lemma LsbInjective(a: Byte, b: Byte)
    requires Lsb(a) == Lsb(b)
    ensures a == b
  {
    assert Power2(8) == 256;
    LowFirstInjective(a, b, 8);
  }

  // ---------------------------------------------------------------- the shift register

  function Zeros(n: nat): (z: seq<bool>)
    ensures |z| == n && forall i :: 0 <= i < n ==> !z[i]
  {
    seq(n, _ => false)
  }

  function Ones(n: nat): (z: seq<bool>)
    ensures |z| == n && forall i :: 0 <= i < n ==> z[i]
  {
    seq(n, _ => true)
  }

  function Xor(a: seq<bool>, b: seq<bool>): (c: seq<bool>)
    requires |a| == |b|
    ensures |c| == |a| && forall i :: 0 <= i < |a| ==> c[i] == (a[i] != b[i])
  {
    seq(|a|, i requires 0 <= i < |a| => a[i] != b[i])
  }

  /** A polynomial whose constant term is one, at least a byte wide. */
  predicate IsPolynomial(p: seq<bool>) {
    |p| >= 8 && p[|p| - 1]
  }

  function Step(p: seq<bool>, c: seq<bool>): (r: seq<bool>)
    requires |c| == |p| > 0
    ensures |r| == |p|
  {
    var d := c[1..] + [false];
    if c[0] then Xor(d, p) else d
  }

  function Times(p: seq<bool>, c: seq<bool>, n: nat): (r: seq<bool>)
    requires |c| == |p| > 0
    ensures |r| == |p|
  {
    if n == 0 then c else Step(p, Times(p, c, n - 1))
  }

  /** The bits of a short message placed at the end that is shifted out first. */
  function Placed(bits: seq<bool>, width: nat): (r: seq<bool>)
    requires |bits| <= width
    ensures |r| == width
  {
    bits + Zeros(width - |bits|)
  }

  function Feed(p: seq<bool>, c: seq<bool>, o: Octet): (r: seq<bool>)
    requires |c| == |p| >= 8
    ensures |r| == |p|
  {
    Times(p, Xor(c, Placed(o, |p|)), 8)
  }

  function FeedAll(p: seq<bool>, c: seq<bool>, data: seq<Octet>): (r: seq<bool>)
    requires |c| == |p| >= 8
    ensures |r| == |p|
  {
    if data == [] then c else Feed(p, FeedAll(p, c, data[..|data| - 1]), data[|data| - 1])
  }

  function Flatten(data: seq<Octet>): (r: seq<bool>)
    ensures |r| == 8 * |data|
  {
    if data == [] then [] else Flatten(data[..|data| - 1]) + data[|data| - 1]
  }

  lemma EightShifts(p: seq<bool>, c: seq<bool>)
    requires |c| == |p| > 0
    ensures Times(p, c, 8) == Step(p, Step(p, Step(p, Step(p, Times(p, c, 4)))))
    ensures Times(p, c, 4) == Step(p, Step(p, Step(p, Step(p, c))))
  {
    assert Times(p, c, 8) == Step(p, Times(p, c, 7));
    assert Times(p, c, 7) == Step(p, Times(p, c, 6));
    assert Times(p, c, 6) == Step(p, Times(p, c, 5));
    assert Times(p, c, 5) == Step(p, Times(p, c, 4));
    assert Times(p, c, 4) == Step(p, Times(p, c, 3));
    assert Times(p, c, 3) == Step(p, Times(p, c, 2));
    assert Times(p, c, 2) == Step(p, Times(p, c, 1));
    assert Times(p, c, 1) == Step(p, Times(p, c, 0));
  }

  lemma StepBit(p: seq<bool>, c: seq<bool>, i: nat)
    requires |c| == |p| && i < |p|
    ensures Step(p, c)[i] == ((i + 1 < |c| && c[i + 1]) != (c[0] && p[i]))
  {
  }

  lemma StepLinear(p: seq<bool>, a: seq<bool>, b: seq<bool>)
    requires |a| == |b| == |p| > 0
    ensures Step(p, Xor(a, b)) == Xor(Step(p, a), Step(p, b))
  {
  }

  lemma {:induction false} TimesLinear(p: seq<bool>, a: seq<bool>, b: seq<bool>, n: nat)
    requires |a| == |b| == |p| > 0
    ensures Times(p, Xor(a, b), n) == Xor(Times(p, a, n), Times(p, b, n))
  {
    if n > 0 {
      TimesLinear(p, a, b, n - 1);
      StepLinear(p, Times(p, a, n - 1), Times(p, b, n - 1));
    }
  }

  /** The bit shifted out comes back as the last bit, so a shift loses nothing. */
  lemma StepInjective(p: seq<bool>, a: seq<bool>, b: seq<bool>)
    requires |a| == |b| == |p| && IsPolynomial(p) && Step(p, a) == Step(p, b)
    ensures a == b
  {
    var n := |p|;
    assert Step(p, a)[n - 1] == a[0] && Step(p, b)[n - 1] == b[0];
    forall i | 0 < i < n ensures a[i] == b[i] {
      assert Step(p, a)[i - 1] == (a[i] != (a[0] && p[i - 1]));
      assert Step(p, b)[i - 1] == (b[i] != (b[0] && p[i - 1]));
    }
  }

  lemma {:induction false} TimesInjective(p: seq<bool>, a: seq<bool>, b: seq<bool>, n: nat)
    requires |a| == |b| == |p| && IsPolynomial(p) && Times(p, a, n) == Times(p, b, n)
    ensures a == b
  {
    if n > 0 {
      StepInjective(p, Times(p, a, n - 1), Times(p, b, n - 1));
      TimesInjective(p, a, b, n - 1);
    }
  }

  lemma {:induction false} TimesAdd(p: seq<bool>, c: seq<bool>, m: nat, n: nat)
    requires |c| == |p| > 0
    ensures Times(p, c, m + n) == Times(p, Times(p, c, m), n)
    decreases n
  {
    if n > 0 { TimesAdd(p, c, m, n - 1); }
  }

  /** Leading zeros are shifted out without touching the polynomial. */
  lemma {:induction false} ZerosShiftOut(p: seq<bool>, z: nat, bits: seq<bool>, k: nat)
    requires z + |bits| <= |p| && k <= z && |p| > 0
    ensures Times(p, Placed(Zeros(z) + bits, |p|), k) == Placed(Zeros(z - k) + bits, |p|)
  {
    if k > 0 {
      ZerosShiftOut(p, z, bits, k - 1);
      var c := Placed(Zeros(z - k + 1) + bits, |p|);
      assert c[1..] + [false] == Placed(Zeros(z - k) + bits, |p|);
    } else {
      assert Zeros(z - k) == Zeros(z);
    }
  }

  /** One more octet, fed after `n` bits, is as good as mixed in before they are shifted out. */
  lemma MixOneMore(p: seq<bool>, c: seq<bool>, bits: seq<bool>, o: Octet, n: nat)
    requires |c| == |p| && n == |bits| && n + 8 <= |p|
    ensures Feed(p, Times(p, Xor(c, Placed(bits, |p|)), n), o) == Times(p, Xor(c, Placed(bits + o, |p|)), n + 8)
  {
    var x, y := Xor(c, Placed(bits, |p|)), Placed(Zeros(n) + o, |p|);
    ZerosShiftOut(p, n, o, n);
    assert Zeros(0) + o == o;
    TimesLinear(p, x, y, n);
    assert Xor(x, y) == Xor(c, Placed(bits + o, |p|));
    TimesAdd(p, Xor(x, y), n, 8);
  }

  /** Feeding a run of octets no wider than the register is one exclusive-or of all their bits followed
      by all the shifts. */
  lemma {:induction false} WindowIsOneMix(p: seq<bool>, c: seq<bool>, w: seq<Octet>)
    requires |c| == |p| >= 8 && 8 * |w| <= |p|
    ensures FeedAll(p, c, w) == Times(p, Xor(c, Placed(Flatten(w), |p|)), 8 * |w|)
    decreases |w|
  {
    if w == [] {
      assert Xor(c, Placed(Flatten(w), |p|)) == c;
    } else {
      var n := |w| - 1;
      WindowIsOneMix(p, c, w[..n]);
      MixOneMore(p, c, Flatten(w[..n]), w[n], 8 * n);
    }
  }

  /** A changed octet changes the register by what that difference alone would shift to. */
  lemma FeedDifference(p: seq<bool>, c: seq<bool>, o: Octet, d: Octet)
    requires |c| == |p| >= 8
    ensures Feed(p, c, Xor(o, d)) == Xor(Feed(p, c, o), Times(p, Placed(d, |p|), 8))
  {
    var u, v := Xor(c, Placed(o, |p|)), Placed(d, |p|);
    assert Xor(c, Placed(Xor(o, d), |p|)) == Xor(u, v);
    TimesLinear(p, u, v, 8);
  }

  lemma {:induction false} TailInjective(p: seq<bool>, c: seq<bool>, d: seq<bool>, tail: seq<Octet>)
    requires |c| == |d| == |p| && IsPolynomial(p) && FeedAll(p, c, tail) == FeedAll(p, d, tail)
    ensures c == d
    decreases |tail|
  {
    if tail != [] {
      var n := |tail| - 1;
      var x, y := FeedAll(p, c, tail[..n]), FeedAll(p, d, tail[..n]);
      var o := Placed(tail[n], |p|);
      TimesInjective(p, Xor(x, o), Xor(y, o), 8);
      XorCancels(x, y, o);
      TailInjective(p, c, d, tail[..n]);
    }
  }

  lemma XorCancels(a: seq<bool>, b: seq<bool>, c: seq<bool>)
    requires |a| == |b| == |c| && Xor(a, c) == Xor(b, c)
    ensures a == b
  {
    forall i | 0 <= i < |a| ensures a[i] == b[i] {
      assert Xor(a, c)[i] == Xor(b, c)[i];
    }
  }

  lemma {:induction false} FlattenInjective(v: seq<Octet>, w: seq<Octet>)
    requires |v| == |w| && Flatten(v) == Flatten(w)
    ensures v == w
    decreases |v|
  {
    if v != [] {
      var n := |v| - 1;
      assert Flatten(v)[..8 * n] == Flatten(v[..n]) && Flatten(v)[8 * n..] == v[n];
      assert Flatten(w)[..8 * n] == Flatten(w[..n]) && Flatten(w)[8 * n..] == w[n];
      FlattenInjective(v[..n], w[..n]);
      assert v == v[..n] + [v[n]] && w == w[..n] + [w[n]];
    }
  }

  lemma {:induction false} FeedAppend(p: seq<bool>, c: seq<bool>, a: seq<Octet>, b: seq<Octet>)
    requires |c| == |p| >= 8
    ensures FeedAll(p, c, a + b) == FeedAll(p, FeedAll(p, c, a), b)
    decreases |b|
  {
    if b == [] {
      assert a + b == a;
    } else {
      var n := |b| - 1;
      assert (a + b)[..|a| + n] == a + b[..n];
      FeedAppend(p, c, a, b[..n]);
    }
  }

  /** Any change confined to a run of octets no wider than the register leaves it in a different state,
      whatever comes before and after. */
  lemma WindowDetected(p: seq<bool>, c: seq<bool>, pre: seq<Octet>, v: seq<Octet>, w: seq<Octet>, post: seq<Octet>)
    requires |c| == |p| && IsPolynomial(p) && |v| == |w| && 8 * |v| <= |p| && v != w
    ensures FeedAll(p, c, pre + v + post) != FeedAll(p, c, pre + w + post)
  {
    var d := FeedAll(p, c, pre);
    FeedAppend(p, c, pre + v, post);
    FeedAppend(p, c, pre, v);
    FeedAppend(p, c, pre + w, post);
    FeedAppend(p, c, pre, w);
    if FeedAll(p, c, pre + v + post) == FeedAll(p, c, pre + w + post) {
      TailInjective(p, FeedAll(p, d, v), FeedAll(p, d, w), post);
      SameWindow(p, d, v, w);
    }
  }

  lemma SameWindow(p: seq<bool>, c: seq<bool>, v: seq<Octet>, w: seq<Octet>)
    requires |c| == |p| && IsPolynomial(p) && |v| == |w| && 8 * |v| <= |p|
    requires FeedAll(p, c, v) == FeedAll(p, c, w)
    ensures v == w
  {
    WindowIsOneMix(p, c, v);
    WindowIsOneMix(p, c, w);
    var x, y := Placed(Flatten(v), |p|), Placed(Flatten(w), |p|);
    TimesInjective(p, Xor(c, x), Xor(c, y), 8 * |v|);
    assert Xor(c, x) == Xor(x, c) && Xor(c, y) == Xor(y, c);
    XorCancels(x, y, c);
    assert x[..8 * |v|] == Flatten(v) && y[..8 * |v|] == Flatten(w);
    FlattenInjective(v, w);
  }

  // ---------------------------------------------------------------- the two checksums

  ghost predicate DifferOnlyWithin<T>(a: seq<T>, b: seq<T>, lo: nat, len: nat) {
    |a| == |b| && forall i :: 0 <= i < |a| && (i < lo || lo + len <= i) ==> a[i] == b[i]
  }

  lemma ChangeDetected(p: seq<bool>, c: seq<bool>, a: seq<Octet>, b: seq<Octet>, lo: nat, n: nat)
    requires |c| == |p| && IsPolynomial(p) && 8 * n <= |p|
    requires a != b && DifferOnlyWithin(a, b, lo, n)
    ensures FeedAll(p, c, a) != FeedAll(p, c, b)
  {
    var s := if lo < |a| then lo else |a|;
    var e := if s + n < |a| then s + n else |a|;
    assert a[..s] == b[..s] && a[e..] == b[e..];
    assert a == a[..s] + a[s..e] + a[e..];
    assert b == b[..s] + b[s..e] + b[e..];
    WindowDetected(p, c, a[..s], a[s..e], b[s..e], a[e..]);
  }

  /** 0x1021. */
  const POLY16: seq<bool> :=
    [false, false, false, true, false, false, false, false,
     false, false, true, false, false, false, false, true]

  /** 0xEDB88320, least significant bit first. */
  const POLY32: seq<bool> :=
    [false, false, false, false, false, true, false, false,
     true, true, false, false, false, false, false, true,
     false, false, false, true, true, true, false, true,
     true, false, true, true, false, true, true, true]

  /** One shift of the CRC-16 register, bit by bit: the bit shifted out is fed back at three places. */
  lemma ShiftBits(c: seq<bool>)
    requires |c| == 16
    ensures var s := Step(POLY16, c);
            && s[0] == c[1] && s[1] == c[2] && s[2] == c[3] && s[3] == (c[4] != c[0])
            && s[4] == c[5] && s[5] == c[6] && s[6] == c[7] && s[7] == c[8]
            && s[8] == c[9] && s[9] == c[10] && s[10] == (c[11] != c[0]) && s[11] == c[12]
            && s[12] == c[13] && s[13] == c[14] && s[14] == c[15] && s[15] == c[0]
  {
    forall i | 0 <= i < 16 ensures Step(POLY16, c)[i] == ((i + 1 < 16 && c[i + 1]) != (c[0] && POLY16[i])) {
      StepBit(POLY16, c, i);
    }
  }

  function MsbAll(data: seq<Byte>): (r: seq<Octet>)
    ensures |r| == |data| && forall i :: 0 <= i < |data| ==> r[i] == Msb(data[i])
  {
    seq(|data|, i requires 0 <= i < |data| => Msb(data[i]))
  }

  function LsbAll(data: seq<Byte>): (r: seq<Octet>)
    ensures |r| == |data| && forall i :: 0 <= i < |data| ==> r[i] == Lsb(data[i])
  {
    seq(|data|, i requires 0 <= i < |data| => Lsb(data[i]))
  }

  function Crc16Of(data: seq<Byte>): (r: seq<bool>)
    ensures |r| == 16
  {
    FeedAll(POLY16, Ones(16), MsbAll(data))
  }

  function Crc32Of(data: seq<Byte>): (r: seq<bool>)
    ensures |r| == 32
  {
    Xor(FeedAll(POLY32, Ones(32), LsbAll(data)), Ones(32))
  }

  /** Any change confined to two adjacent bytes changes the CRC-16, at every length and position. */
  lemma TwoAdjacentBytesDetected(a: seq<Byte>, b: seq<Byte>, lo: nat)
    requires a != b && DifferOnlyWithin(a, b, lo, 2)
    ensures Crc16Of(a) != Crc16Of(b)
  {
    var i :| 0 <= i < |a| && a[i] != b[i];
    MsbRoundTrip(a[i]);
    MsbRoundTrip(b[i]);
    assert MsbAll(a)[i] != MsbAll(b)[i];
    ChangeDetected(POLY16, Ones(16), MsbAll(a), MsbAll(b), lo, 2);
  }

  /** Any change confined to four adjacent bytes changes the CRC-32. */
  lemma FourAdjacentBytesDetected(a: seq<Byte>, b: seq<Byte>, lo: nat)
    requires a != b && DifferOnlyWithin(a, b, lo, 4)
    ensures Crc32Of(a) != Crc32Of(b)
  {
    var i :| 0 <= i < |a| && a[i] != b[i];
    if Lsb(a[i]) == Lsb(b[i]) { LsbInjective(a[i], b[i]); }
    assert LsbAll(a)[i] != LsbAll(b)[i];
    ChangeDetected(POLY32, Ones(32), LsbAll(a), LsbAll(b), lo, 4);
    if Crc32Of(a) == Crc32Of(b) {
      XorCancels(FeedAll(POLY32, Ones(32), LsbAll(a)), FeedAll(POLY32, Ones(32), LsbAll(b)), Ones(32));
    }
  }

  // ---------------------------------------------------------------- the loops that compute them

  /** One bit of the shifting loop. */
  method ShiftOnce(p: seq<bool>, c: seq<bool>) returns (r: seq<bool>)
    requires |c| == |p| > 0
    ensures r == Step(p, c)
  {
    r := c[1..] + [false];
    if c[0] {
      r := Xor(r, p);
    }
  }

  method FeedOctet(p: seq<bool>, c: seq<bool>, o: Octet) returns (r: seq<bool>)
    requires |c| == |p| >= 8
    ensures r == Feed(p, c, o)
  {
    r := Xor(c, Placed(o, |p|));
    for b := 0 to 8
      invariant r == Times(p, Xor(c, Placed(o, |p|)), b)
    {
      r := ShiftOnce(p, r);
    }
  }

  method Crc16(data: seq<Byte>) returns (crc: seq<bool>)
    ensures crc == Crc16Of(data)
  {
    crc := Ones(16);
    for i := 0 to |data|
      invariant crc == Crc16Of(data[..i])
    {
      crc := FeedOctet(POLY16, crc, Msb(data[i]));
      assert MsbAll(data[..i + 1])[..i] == MsbAll(data[..i]);
    }
    assert data[..|data|] == data;
  }

  method Crc32(data: seq<Byte>) returns (crc: seq<bool>)
    ensures crc == Crc32Of(data)
  {
    crc := Ones(32);
    for i := 0 to |data|
      invariant crc == FeedAll(POLY32, Ones(32), LsbAll(data[..i]))
    {
      crc := FeedOctet(POLY32, crc, Lsb(data[i]));
      assert LsbAll(data[..i + 1])[..i] == LsbAll(data[..i]);
    }
    assert data[..|data|] == data;
    crc := Xor(crc, Ones(32));
  }
}
