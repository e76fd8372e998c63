/** Which changes of two adjacent bytes the frame check lets through: all but one kind are refused. */
module FrameErrors {
  import opened Checksum
  import opened Codec

  lemma CrcBytesInjective(a: seq<bool>, b: seq<bool>)
    requires |a| == |b| == 16
    ensures CrcBytes(a) == CrcBytes(b) ==> a == b
  {
    FromMsbRoundTrip(a[8..]);
    FromMsbRoundTrip(b[8..]);
    FromMsbRoundTrip(a[..8]);
    FromMsbRoundTrip(b[..8]);
    if CrcBytes(a) == CrcBytes(b) {
      assert CrcBytes(a)[0] == CrcBytes(b)[0] && CrcBytes(a)[1] == CrcBytes(b)[1];
      assert a == a[..8] + a[8..] && b == b[..8] + b[8..];
    }
  }

  /** 0x89 and 0xA1. */
  const HIT: Octet := [ON, OFF, OFF, OFF, ON, OFF, OFF, ON]
  const ECHO: Octet := [ON, OFF, ON, OFF, OFF, OFF, OFF, ON]

  function XorByte(a: Byte, o: Octet): Byte {
    FromMsb(Xor(Msb(a), o))
  }

  /** HIT at the head of a register, and the register one shift later. */
  lemma FirstShift()
    ensures Step(POLY16, Placed(HIT, 16)) == Placed(Zeros(6) + [ON, OFF, OFF, OFF, ON, OFF, OFF, OFF, OFF, ON], 16)
  {
    var a: seq<bool> := [ON, OFF, OFF, OFF, ON, OFF, OFF, ON, OFF, OFF, OFF, OFF, OFF, OFF, OFF, OFF];
    assert Placed(HIT, 16) == a;
    var d: seq<bool> := [OFF, OFF, OFF, ON, OFF, OFF, ON, OFF, OFF, OFF, OFF, OFF, OFF, OFF, OFF, OFF];
    assert a[1..] + [false] == d;
    assert Xor(d, POLY16) == [OFF, OFF, OFF, OFF, OFF, OFF, ON, OFF, OFF, OFF, ON, OFF, OFF, OFF, OFF, ON];
  }

  lemma LastShift()
    ensures Step(POLY16, [ON, OFF, OFF, OFF, ON, OFF, OFF, OFF, OFF, ON, OFF, OFF, OFF, OFF, OFF, OFF])
                == Zeros(8) + ECHO
  {
    var a: seq<bool> := [ON, OFF, OFF, OFF, ON, OFF, OFF, OFF, OFF, ON, OFF, OFF, OFF, OFF, OFF, OFF];
    var d: seq<bool> := [OFF, OFF, OFF, ON, OFF, OFF, OFF, OFF, ON, OFF, OFF, OFF, OFF, OFF, OFF, OFF];
    assert a[1..] + [false] == d;
    assert Xor(d, POLY16) == [OFF, OFF, OFF, OFF, OFF, OFF, OFF, OFF, ON, OFF, ON, OFF, OFF, OFF, OFF, ON];
  }

  /** The eight shifts of this one byte difference leave an effect only in the low half of the register. */
  lemma DifferenceStaysLow()
    ensures Times(POLY16, Placed(HIT, 16), 8) == Zeros(8) + ECHO
  {
    var s0 := Placed(HIT, 16);
    var bits: seq<bool> := [ON, OFF, OFF, OFF, ON, OFF, OFF, OFF, OFF, ON];
    FirstShift();
    assert Times(POLY16, s0, 1) == Placed(Zeros(6) + bits, 16);
    ZerosShiftOut(POLY16, 6, bits, 6);
    assert Placed(Zeros(0) + bits, 16) == [ON, OFF, OFF, OFF, ON, OFF, OFF, OFF, OFF, ON, OFF, OFF, OFF, OFF, OFF, OFF];
    TimesAdd(POLY16, s0, 1, 6);
    LastShift();
  }

  /** Of all one-byte differences only this one leaves the high half of the register as it was. */
  lemma OnlyHitStaysLow(d: Octet)
    requires Times(POLY16, Placed(d, 16), 8)[..8] == Zeros(8)
    ensures d == Zeros(8) || d == HIT
  {
    var s0 := Placed(d, 16);
    var s1 := Step(POLY16, s0);
    var s2 := Step(POLY16, s1);
    var s3 := Step(POLY16, s2);
    var s4 := Step(POLY16, s3);
    var s5 := Step(POLY16, s4);
    var s6 := Step(POLY16, s5);
    var s7 := Step(POLY16, s6);
    var s8 := Step(POLY16, s7);
    EightShifts(POLY16, s0);
    ShiftBits(s0);
    ShiftBits(s1);
    ShiftBits(s2);
    ShiftBits(s3);
    ShiftBits(s4);
    ShiftBits(s5);
    ShiftBits(s6);
    ShiftBits(s7);
    assert forall i :: 0 <= i < 8 ==> !s8[..8][i];
    assert !s8[0] && !s8[1] && !s8[2] && !s8[3] && !s8[4] && !s8[5] && !s8[6] && !s8[7];
    assert d[4] == d[0] && d[7] == d[0] && !d[1] && !d[2] && !d[3] && !d[5] && !d[6];
  }

  lemma CrcBytesChanged(crc: seq<bool>, other: seq<bool>)
    requires |crc| == 16 && |other| == 16 && other == Xor(crc, Zeros(8) + ECHO)
    ensures CrcBytes(other) == [XorByte(CrcBytes(crc)[0], ECHO), CrcBytes(crc)[1]]
  {
    FromMsbRoundTrip(crc[8..]);
    assert other[..8] == crc[..8] && other[8..] == Xor(crc[8..], ECHO);
  }

  lemma Crc16Snoc(front: seq<Byte>, b: Byte)
    ensures Crc16Of(front + [b]) == Feed(POLY16, Crc16Of(front), Msb(b))
  {
    assert MsbAll(front + [b])[..|front|] == MsbAll(front);
  }

  // ---------------------------------------------------------------- two adjacent bytes

  /** The checksum bytes behind `n` payload bytes are those of header and payload. */
  predicate Sealed(b: seq<Byte>, n: nat)
    requires 12 + n <= |b|
  {
    b[10 + n..12 + n] == CrcBytes(Crc16Of(b[2..10 + n]))
  }

  /** The last payload byte and the checksum byte next to it are changed by 0x89 and 0xA1. */
  predicate Straddles(buf: seq<Byte>, bad: seq<Byte>, n: nat)
    requires 12 + n <= |buf| == |bad|
  {
    n > 0 && bad[9 + n] == XorByte(buf[9 + n], HIT) && bad[10 + n] == XorByte(buf[10 + n], ECHO)
  }

  lemma XorByteChanges(b: Byte, o: Octet)
    requires o[0]
    ensures XorByte(b, o) != b
  {
    FromMsbRoundTrip(Xor(Msb(b), o));
    assert Xor(Msb(b), o)[0] != Msb(b)[0];
  }

  lemma XorBack(b: Byte, x: Byte)
    ensures XorByte(b, Xor(Msb(b), Msb(x))) == x
  {
    assert Xor(Msb(b), Xor(Msb(b), Msb(x))) == Msb(x);
    MsbRoundTrip(x);
  }

  /** The effect of any change of the last covered byte on the checksum. */
  lemma LastByteDiffers(front: seq<Byte>, b: Byte, x: Byte)
    ensures var d := Xor(Msb(b), Msb(x));
            Crc16Of(front + [x]) == Xor(Crc16Of(front + [b]), Times(POLY16, Placed(d, 16), 8))
  {
    var d := Xor(Msb(b), Msb(x));
    Crc16Snoc(front, x);
    Crc16Snoc(front, b);
    assert Xor(Msb(b), d) == Msb(x);
    FeedDifference(POLY16, Crc16Of(front), Msb(b), d);
  }

  /** If the checksum moves in its first byte only, the last covered byte changed by 0x89 and the first
      checksum byte by 0xA1; and that change does have this effect. */
  lemma OnlyFirstCheckByteMovesIff(front: seq<Byte>, b: Byte, x: Byte, c: Byte)
    requires b != x
    ensures CrcBytes(Crc16Of(front + [x])) == [c, CrcBytes(Crc16Of(front + [b]))[1]] <==>
            x == XorByte(b, HIT) && c == XorByte(CrcBytes(Crc16Of(front + [b]))[0], ECHO)
  {
    var d := Xor(Msb(b), Msb(x));
    var e := Times(POLY16, Placed(d, 16), 8);
    var crc, other := Crc16Of(front + [b]), Crc16Of(front + [x]);
    LastByteDiffers(front, b, x);
    XorBack(b, x);
    if x == XorByte(b, HIT) {
      FromMsbRoundTrip(Xor(Msb(b), HIT));
      assert d == HIT;
      DifferenceStaysLow();
      CrcBytesChanged(crc, other);
    } else if CrcBytes(other)[1] == CrcBytes(crc)[1] {
      HighByteSame(crc, other, e);
      OnlyHitStaysLow(d);
      SomeBitDiffers(b, x);
    }
  }

  lemma HighByteSame(crc: seq<bool>, other: seq<bool>, e: seq<bool>)
    requires |crc| == |other| == |e| == 16 && other == Xor(crc, e) && CrcBytes(other)[1] == CrcBytes(crc)[1]
    ensures e[..8] == Zeros(8)
  {
    FromMsbRoundTrip(crc[..8]);
    FromMsbRoundTrip(other[..8]);
    assert forall i :: 0 <= i < 8 ==> other[..8][i] == crc[..8][i];
  }

  lemma SomeBitDiffers(b: Byte, x: Byte)
    requires b != x
    ensures Xor(Msb(b), Msb(x)) != Zeros(8)
  {
    if Xor(Msb(b), Msb(x)) == Zeros(8) {
      assert forall i :: 0 <= i < 8 ==> !Xor(Msb(b), Msb(x))[i];
      assert Msb(b) == Msb(x);
      MsbRoundTrip(b);
      MsbRoundTrip(x);
    }
  }

  /** The window lies across the end of the payload. */
  lemma SealedAcrossIff(buf: seq<Byte>, bad: seq<Byte>, n: nat)
    requires n > 0 && 12 + n <= |buf| == |bad| && Sealed(buf, n)
    requires DifferOnlyWithin(buf, bad, 9 + n, 2) && buf[9 + n] != bad[9 + n]
    ensures Sealed(bad, n) <==> Straddles(buf, bad, n)
  {
    var front: seq<Byte> := buf[2..9 + n];
    assert buf[2..10 + n] == front + [buf[9 + n]] && bad[2..10 + n] == front + [bad[9 + n]];
    assert buf[10 + n..12 + n] == [buf[10 + n], buf[11 + n]] && bad[10 + n..12 + n] == [bad[10 + n], bad[11 + n]];
    OnlyFirstCheckByteMovesIff(front, buf[9 + n], bad[9 + n], bad[10 + n]);
  }

  /** The window lies within header and payload. */
  lemma NotSealedWithin(buf: seq<Byte>, bad: seq<Byte>, n: nat, lo: nat)
    requires 12 + n <= |buf| == |bad| && Sealed(buf, n) && DifferOnlyWithin(buf, bad, lo, 2)
    requires bad[2..10 + n] != buf[2..10 + n] && bad[10 + n..12 + n] == buf[10 + n..12 + n]
    ensures !Sealed(bad, n)
  {
    var x, y := buf[2..10 + n], bad[2..10 + n];
    assert DifferOnlyWithin(x, y, if lo < 2 then 0 else lo - 2, 2);
    TwoAdjacentBytesDetected(x, y, if lo < 2 then 0 else lo - 2);
    CrcBytesInjective(Crc16Of(x), Crc16Of(y));
  }

  lemma AcrossTheEnd(buf: seq<Byte>, bad: seq<Byte>, n: nat, lo: nat)
    requires 12 + n <= |buf| == |bad| && DifferOnlyWithin(buf, bad, lo, 2) && bad[8..10] == buf[8..10]
    requires bad[2..10 + n] != buf[2..10 + n] && bad[10 + n..12 + n] != buf[10 + n..12 + n]
    ensures n > 0 && lo == 9 + n && buf[9 + n] != bad[9 + n]
  {
    var i :| 0 <= i < 8 + n && bad[2..10 + n][i] != buf[2..10 + n][i];
    var j :| 0 <= j < 2 && bad[10 + n..12 + n][j] != buf[10 + n..12 + n][j];
    assert bad[2 + i] != buf[2 + i] && bad[10 + n + j] != buf[10 + n + j];
    assert bad[9] == bad[8..10][1] && buf[9] == buf[8..10][1];
  }

  lemma SameParts<T>(s: seq<T>, t: seq<T>, i: nat, j: nat, k: nat)
    requires i <= j <= k <= |s| == |t|
    ensures s[i..k] == t[i..k] <==> s[i..j] == t[i..j] && s[j..k] == t[j..k]
  {
    assert s[i..k] == s[i..j] + s[j..k] && t[i..k] == t[i..j] + t[j..k];
    assert s[i..k][..j - i] == s[i..j] && t[i..k][..j - i] == t[i..j];
    assert s[i..k][j - i..] == s[j..k] && t[i..k][j - i..] == t[j..k];
  }

  lemma SealedIff(buf: seq<Byte>, bad: seq<Byte>, n: nat, lo: nat)
    requires 12 + n <= |buf| == |bad| && Sealed(buf, n)
    requires DifferOnlyWithin(buf, bad, lo, 2) && bad[8..10] == buf[8..10]
    ensures Sealed(bad, n) <==> bad[2..12 + n] == buf[2..12 + n] || Straddles(buf, bad, n)
  {
    var x, y := buf[2..10 + n], bad[2..10 + n];
    var v, w := buf[10 + n..12 + n], bad[10 + n..12 + n];
    SameParts(buf, bad, 2, 10 + n, 12 + n);
    if n > 0 {
      assert buf[9 + n] == x[7 + n] && bad[9 + n] == y[7 + n];
      XorByteChanges(buf[9 + n], HIT);
      assert buf[10 + n] == v[0] && bad[10 + n] == w[0];
      XorByteChanges(buf[10 + n], ECHO);
    }
    if x == y {
    } else if v == w {
      NotSealedWithin(buf, bad, n, lo);
    } else {
      AcrossTheEnd(buf, bad, n, lo);
      SealedAcrossIff(buf, bad, n);
    }
  }

  /** `buf` begins with the frame of `h` and `payload`; by DecodesIffFramed, it decodes to them. */
  predicate Frames(buf: seq<Byte>, h: Header, payload: seq<Byte>) {
    Encodable(h, payload) && FrameOf(h, payload) <= buf
  }

  /** The length field says `n` and the bytes are there. */
  predicate Holds(b: seq<Byte>, n: nat) {
    n <= MAX_PAYLOAD && 12 + n <= |b| && Rd16(b[8], b[9]) == n
  }

  predicate Synced(b: seq<Byte>)
    requires |b| >= 2
  {
    b[0] == SYNC0 && b[1] == SYNC1
  }

  function HeaderAt(b: seq<Byte>): Header
    requires |b| >= 8
  {
    Header(b[2], b[3], b[4], b[5], b[6], b[7])
  }

  lemma FrameFacts(buf: seq<Byte>, h: Header, payload: seq<Byte>)
    requires Frames(buf, h, payload)
    ensures var n := |payload|;
            && Holds(buf, n) && Synced(buf) && Sealed(buf, n) && buf[2] == PROTOCOL_MAJOR && FamilyKnown(buf[3])
            && HeaderAt(buf) == h && buf[10..10 + n] == payload && Decode(buf) == Decoded(h, payload)
  {
    FrameVerdict(buf, h, payload);
    DecodedFacts(buf, h, payload);
  }

  lemma DecodedFacts(buf: seq<Byte>, h: Header, payload: seq<Byte>)
    requires Decode(buf) == Decoded(h, payload)
    ensures var n := |payload|;
            && Holds(buf, n) && Synced(buf) && Sealed(buf, n) && buf[2] == PROTOCOL_MAJOR && FamilyKnown(buf[3])
            && HeaderAt(buf) == h && buf[10..10 + n] == payload
  {
  }

  lemma DecodeBySeal(b: seq<Byte>, n: nat)
    requires Holds(b, n)
    ensures !Synced(b) ==> Decode(b) == Refused(BadSync)
    ensures Synced(b) && !Sealed(b, n) ==> Decode(b) == Refused(BadCrc)
    ensures Synced(b) && Sealed(b, n) && b[2] == PROTOCOL_MAJOR && FamilyKnown(b[3]) ==>
              Decode(b) == Decoded(HeaderAt(b), b[10..10 + n])
  {
  }

  lemma LengthKept(buf: seq<Byte>, bad: seq<Byte>, n: nat)
    requires Holds(buf, n) && |bad| == |buf| && bad[8..10] == buf[8..10]
    ensures Holds(bad, n)
  {
    assert bad[8] == bad[8..10][0] && bad[9] == bad[8..10][1] && buf[8] == buf[8..10][0] && buf[9] == buf[8..10][1];
  }

  lemma SyncKeptIff(buf: seq<Byte>, bad: seq<Byte>)
    requires |buf| == |bad| >= 2 && Synced(buf)
    ensures Synced(bad) <==> bad[..2] == buf[..2]
  {
    assert buf[..2] == [buf[0], buf[1]] && bad[..2] == [bad[0], bad[1]];
  }

  lemma StraddleKeepsSync(buf: seq<Byte>, bad: seq<Byte>, n: nat, lo: nat)
    requires 12 + n <= |buf| == |bad| && DifferOnlyWithin(buf, bad, lo, 2) && Straddles(buf, bad, n)
    ensures bad[..2] == buf[..2] && bad[..12 + n] != buf[..12 + n]
  {
    XorByteChanges(buf[9 + n], HIT);
    assert bad[..12 + n][9 + n] != buf[..12 + n][9 + n];
    XorByteChanges(buf[10 + n], ECHO);
  }

  /** Of all changes confined to two adjacent bytes of the buffer that keep the length field, exactly those
      are accepted that lie behind the frame or change its last payload byte by 0x89 and the checksum byte
      next to it by 0xA1. All others are refused, by the sync bytes if those changed and else by the CRC. */
  lemma TwoByteChangeAcceptedIff(buf: seq<Byte>, h: Header, payload: seq<Byte>, bad: seq<Byte>, lo: nat)
    requires Frames(buf, h, payload) && DifferOnlyWithin(buf, bad, lo, 2) && bad[8..10] == buf[8..10]
    ensures var n := |payload|;
            && Decode(buf) == Decoded(h, payload) && 12 + n <= |buf| == |bad|
            && (Decode(bad).Decoded? <==> bad[..12 + n] == buf[..12 + n] || Straddles(buf, bad, n))
            && (!Decode(bad).Decoded? ==> Decode(bad) == Refused(if bad[..2] != buf[..2] then BadSync else BadCrc))
  {
    var n := |payload|;
    FrameFacts(buf, h, payload);
    LengthKept(buf, bad, n);
    SyncKeptIff(buf, bad);
    SealedIff(buf, bad, n, lo);
    SameParts(buf, bad, 0, 2, 12 + n);
    DecodeBySeal(bad, n);
    if Sealed(bad, n) { HeaderKept(buf, bad, n, lo); }
    if Straddles(buf, bad, n) { StraddleKeepsSync(buf, bad, n, lo); }
  }

  lemma HeaderKept(buf: seq<Byte>, bad: seq<Byte>, n: nat, lo: nat)
    requires 12 + n <= |buf| == |bad| && DifferOnlyWithin(buf, bad, lo, 2)
    requires bad[2..12 + n] == buf[2..12 + n] || Straddles(buf, bad, n)
    ensures bad[2] == buf[2] && bad[3] == buf[3]
  {
    if bad[2..12 + n] == buf[2..12 + n] {
      assert bad[2] == bad[2..12 + n][0] && bad[3] == bad[2..12 + n][1];
    } else {
      XorByteChanges(buf[9 + n], HIT);
      XorByteChanges(buf[10 + n], ECHO);
    }
  }

  /** A change of header or payload alone never passes. */
  lemma CorruptionRefused(buf: seq<Byte>, h: Header, payload: seq<Byte>, bad: seq<Byte>, lo: nat)
    requires Frames(buf, h, payload) && bad != buf && DifferOnlyWithin(buf, bad, lo, 2)
    requires 2 <= lo && lo + 2 <= 10 + |payload| && bad[8..10] == buf[8..10]
    ensures Decode(buf) == Decoded(h, payload) && Decode(bad) == Refused(BadCrc)
  {
    var n := |payload|;
    var i :| 0 <= i < |buf| && buf[i] != bad[i];
    assert bad[..12 + n][i] != buf[..12 + n][i];
    assert bad[..2] == buf[..2];
    TwoByteChangeAcceptedIff(buf, h, payload, bad, lo);
    if Straddles(buf, bad, n) {
      XorByteChanges(buf[10 + n], ECHO);
      assert false;
    }
  }

  /** And every frame with a payload has one changed twin that does: the last payload byte changed by 0x89
      and the checksum byte next to it by 0xA1. */
  lemma StraddlingChangeAccepted(buf: seq<Byte>, h: Header, payload: seq<Byte>)
    requires Frames(buf, h, payload) && payload != []
    ensures var n := |payload|; var x := XorByte(payload[n - 1], HIT);
            && 12 + n <= |buf|
            && Decode(buf[9 + n := x][10 + n := XorByte(buf[10 + n], ECHO)]) == Decoded(h, payload[n - 1 := x])
  {
    var n := |payload|;
    FrameFacts(buf, h, payload);
    assert payload[n - 1] == buf[9 + n];
    StraddlingTwin(buf, n, XorByte(buf[9 + n], HIT), XorByte(buf[10 + n], ECHO));
  }

  lemma StraddlingTwin(buf: seq<Byte>, n: nat, x: Byte, c: Byte)
    requires Holds(buf, n) && n > 0 && Synced(buf) && Sealed(buf, n) && buf[2] == PROTOCOL_MAJOR && FamilyKnown(buf[3])
    requires x == XorByte(buf[9 + n], HIT) && c == XorByte(buf[10 + n], ECHO)
    ensures Decode(buf[9 + n := x][10 + n := c]) == Decoded(HeaderAt(buf), buf[10..10 + n][n - 1 := x])
  {
    var bad: seq<Byte> := buf[9 + n := x][10 + n := c];
    assert bad[8..10] == buf[8..10];
    LengthKept(buf, bad, n);
    SealedIff(buf, bad, n, 9 + n);
    DecodeBySeal(bad, n);
    assert bad[10..10 + n] == buf[10..10 + n][n - 1 := x];
  }
}
