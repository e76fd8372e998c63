/** Canonical framing: sync, header, payload and CRC-16 in one buffer, and the fingerprint of an
    operation request. */
module Codec {
  import opened Checksum

  const SYNC0: Byte := 0xE3
  const SYNC1: Byte := 0x10
  const PROTOCOL_MAJOR: Byte := 1
  const MAX_PAYLOAD := 116
  const MIN_FRAME := 12
  const MAX_PARAMS := 64

  datatype Header = Header(major: Byte, family: Byte, msgType: Byte, queueClass: Byte, flags: Byte, frameSeq: Byte)

  datatype TransportError = Truncated | BadSync | PayloadTooLong | BadCrc | UnsupportedMajor | UnknownFamily

  datatype DecodeResult = Decoded(header: Header, payload: seq<Byte>) | Refused(error: TransportError)

  predicate FamilyKnown(family: Byte) {
    1 <= family <= 7
  }

  /** A 16-bit length, low byte first. */
  function Le16(n: nat): (r: seq<Byte>)
    requires n < 65536
    ensures |r| == 2
  {
    [n % 256, n / 256]
  }

  function Rd16(lo: Byte, hi: Byte): nat {
    lo + 256 * hi
  }

  /** A CRC register, low byte first. */
  function CrcBytes(crc: seq<bool>): (r: seq<Byte>)
    requires |crc| == 16
    ensures |r| == 2
  {
    [FromMsb(crc[8..]), FromMsb(crc[..8])]
  }

  /** Header and payload: the bytes the CRC covers. */
  function Body(h: Header, payload: seq<Byte>): (r: seq<Byte>)
    requires |payload| <= MAX_PAYLOAD
    ensures |r| == 8 + |payload|
  {
    [h.major, h.family, h.msgType, h.queueClass, h.flags, h.frameSeq] + Le16(|payload|) + payload
  }

  function FrameOf(h: Header, payload: seq<Byte>): (r: seq<Byte>)
    requires |payload| <= MAX_PAYLOAD
    ensures |r| == MIN_FRAME + |payload|
  {
    [SYNC0, SYNC1] + Body(h, payload) + CrcBytes(Crc16Of(Body(h, payload)))
  }

  /** The checks of the decoder, in its order. */
  function Decode(buf: seq<Byte>): DecodeResult {
    if |buf| < MIN_FRAME then Refused(Truncated)
    else if buf[0] != SYNC0 || buf[1] != SYNC1 then Refused(BadSync)
    else
      var n := Rd16(buf[8], buf[9]);
      if n > MAX_PAYLOAD then Refused(PayloadTooLong)
      else if MIN_FRAME + n > |buf| then Refused(Truncated)
      else if buf[10 + n..12 + n] != CrcBytes(Crc16Of(buf[2..10 + n])) then Refused(BadCrc)
      else if buf[2] != PROTOCOL_MAJOR then Refused(UnsupportedMajor)
      else if !FamilyKnown(buf[3]) then Refused(UnknownFamily)
      else Decoded(Header(buf[2], buf[3], buf[4], buf[5], buf[6], buf[7]), buf[10..10 + n])
  }

  lemma SliceOfPrefix<T>(s: seq<T>, n: nat, a: nat, b: nat)
    requires a <= b <= n <= |s|
    ensures s[..n][a..b] == s[a..b]
  {
  }

  lemma SliceOfSuffix<T>(s: seq<T>, a: nat, k: nat)
    requires a + k <= |s|
    ensures s[a..][..k] == s[a..a + k] && s[a..][k..] == s[a + k..]
  {
  }

  method DecodeBuffer(buf: array<Byte>, len: nat) returns (r: DecodeResult)
    requires len <= buf.Length
    ensures r == Decode(buf[..len])
  {
    if len < MIN_FRAME {
      return Refused(Truncated);
    }
    if buf[0] != SYNC0 || buf[1] != SYNC1 {
      return Refused(BadSync);
    }
    var h := Header(buf[2], buf[3], buf[4], buf[5], buf[6], buf[7]);
    var n := Rd16(buf[8], buf[9]);
    if n > MAX_PAYLOAD {
      return Refused(PayloadTooLong);
    }
    var total := MIN_FRAME + n;
    if total > len {
      return Refused(Truncated);
    }
    var crc := Crc16(buf[2..10 + n]);
    SliceOfPrefix(buf[..], len, 2, 10 + n);
    SliceOfPrefix(buf[..], len, 10 + n, 12 + n);
    assert buf[10 + n..12 + n] == [buf[10 + n], buf[11 + n]];
    if buf[10 + n] != FromMsb(crc[8..]) || buf[11 + n] != FromMsb(crc[..8]) {
      return Refused(BadCrc);
    }
    if h.major != PROTOCOL_MAJOR {
      return Refused(UnsupportedMajor);
    }
    if !FamilyKnown(h.family) {
      return Refused(UnknownFamily);
    }
    SliceOfPrefix(buf[..], len, 10, 10 + n);
    return Decoded(h, buf[10..10 + n]);
  }

  /** What ends up framed: a null payload leaves whatever the buffer already holds there. */
  ghost function Framed(before: seq<Byte>, payload: array?<Byte>, len: nat): seq<Byte>
    requires 10 + len <= |before|
    requires payload != null ==> len <= payload.Length
    reads if payload == null then {} else {payload}
  {
    if payload != null then payload[..len] else before[10..10 + len]
  }

  /** Writes one frame at the start of `buf`, or nothing at all when it cannot fit. */
  method EncodeBuffer(buf: array<Byte>, cap: nat, h: Header, payload: array?<Byte>, len: nat) returns (n: nat)
    requires cap <= buf.Length && (payload != null ==> len <= payload.Length && payload != buf)
    modifies buf
    ensures n == if len > MAX_PAYLOAD || cap < MIN_FRAME + len then 0 else MIN_FRAME + len
    ensures n == 0 ==> buf[..] == old(buf[..])
    ensures n != 0 ==> buf[..n] == FrameOf(h, old(Framed(buf[..], payload, len))) && buf[n..] == old(buf[n..])
  {
    if len > MAX_PAYLOAD {
      return 0;
    }
    var total := MIN_FRAME + len;
    if cap < total {
      return 0;
    }
    ghost var body := old(Framed(buf[..], payload, len));
    WriteHeader(buf, h, len);
    SliceOfSuffix(old(buf[..]), 10, len);
    SliceOfSuffix(buf[..], 10, len);
    if payload != null {
      CopyPayload(buf, payload, len);
    }
    FinishFrame(buf, len, h, body);
    SliceOfSuffix(old(buf[..]), 10, 2 + len);
    SliceOfSuffix(buf[..], 10, 2 + len);
    return total;
  }

  method FinishFrame(buf: array<Byte>, n: nat, ghost h: Header, ghost body: seq<Byte>)
    requires n == |body| <= MAX_PAYLOAD && MIN_FRAME + |body| <= buf.Length
    requires buf[..10] == Prefix(h, |body|) && buf[10..10 + |body|] == body
    modifies buf
    ensures buf[..MIN_FRAME + |body|] == FrameOf(h, body)
    ensures buf[MIN_FRAME + |body|..] == old(buf[MIN_FRAME + |body|..])
  {
    ghost var written := buf[..10 + n];
    assert written[..10] == buf[..10] && written[10..] == buf[10..10 + n] && written[2..] == buf[2..10 + n];
    WriteCrc(buf, n);
    assert buf[..12 + n] == written + CrcBytes(Crc16Of(written[2..]));
    FinishedFrame(written, h, body);
  }

  lemma FinishedFrame(written: seq<Byte>, h: Header, body: seq<Byte>)
    requires |body| <= MAX_PAYLOAD && |written| == 10 + |body|
    requires written[..10] == Prefix(h, |body|) && written[10..] == body
    ensures written + CrcBytes(Crc16Of(written[2..])) == FrameOf(h, body)
  {
    var n := |body|;
    var f := written + CrcBytes(Crc16Of(written[2..]));
    assert f[..10] == written[..10] && f[10..10 + n] == written[10..] && f[2..10 + n] == written[2..];
    FrameParts(f, h, body);
  }

  lemma FrameParts(f: seq<Byte>, h: Header, payload: seq<Byte>)
    requires |payload| <= MAX_PAYLOAD && |f| == MIN_FRAME + |payload|
    requires f[..10] == Prefix(h, |payload|) && f[10..10 + |payload|] == payload
    requires f[10 + |payload|..] == CrcBytes(Crc16Of(f[2..10 + |payload|]))
    ensures f == FrameOf(h, payload)
  {
    var n := |payload|;
    FrameBody(f, h, payload);
    assert f == f[..10][..2] + f[2..10 + n] + f[10 + n..];
  }

  lemma FrameBody(f: seq<Byte>, h: Header, payload: seq<Byte>)
    requires |payload| <= MAX_PAYLOAD && |f| == MIN_FRAME + |payload|
    requires f[..10] == Prefix(h, |payload|) && f[10..10 + |payload|] == payload
    ensures f[2..10 + |payload|] == Body(h, payload)
  {
    var n := |payload|;
    assert f[2..10 + n] == f[..10][2..] + f[10..10 + n];
    assert Prefix(h, n)[2..] + payload == Body(h, payload);
  }

  function Prefix(h: Header, n: nat): (r: seq<Byte>)
    requires n < 65536
    ensures |r| == 10
  {
    [SYNC0, SYNC1, h.major, h.family, h.msgType, h.queueClass, h.flags, h.frameSeq] + Le16(n)
  }

  method WriteHeader(buf: array<Byte>, h: Header, n: nat)
    requires 10 <= buf.Length && n < 65536
    modifies buf
    ensures buf[..10] == Prefix(h, n) && buf[10..] == old(buf[10..])
  {
    buf[0], buf[1] := SYNC0, SYNC1;
    buf[2], buf[3], buf[4], buf[5], buf[6], buf[7] := h.major, h.family, h.msgType, h.queueClass, h.flags, h.frameSeq;
    buf[8], buf[9] := n % 256, n / 256;
  }

  method CopyPayload(buf: array<Byte>, payload: array<Byte>, n: nat)
    requires 10 + n <= buf.Length && n <= payload.Length && payload != buf
    modifies buf
    ensures buf[..10] == old(buf[..10]) && buf[10..10 + n] == payload[..n] && buf[10 + n..] == old(buf[10 + n..])
  {
    for i := 0 to n
      invariant buf[..10] == old(buf[..10])
      invariant forall j :: 0 <= j < i ==> buf[10 + j] == payload[j]
      invariant buf[10 + n..] == old(buf[10 + n..])
    {
      buf[10 + i] := payload[i];
    }
  }

  method WriteCrc(buf: array<Byte>, n: nat)
    requires 12 + n <= buf.Length
    modifies buf
    ensures buf[..10 + n] == old(buf[..10 + n]) && buf[12 + n..] == old(buf[12 + n..])
    ensures buf[10 + n..12 + n] == CrcBytes(Crc16Of(old(buf[2..10 + n])))
  {
    var crc := Crc16(buf[2..10 + n]);
    buf[10 + n], buf[11 + n] := FromMsb(crc[8..]), FromMsb(crc[..8]);
  }

  // ---------------------------------------------------------------- decoding and encoding are inverse

  lemma Le16RoundTrip(n: nat)
    requires n < 65536
    ensures Rd16(Le16(n)[0], Le16(n)[1]) == n
  {
  }

  lemma Rd16RoundTrip(lo: Byte, hi: Byte)
    ensures Rd16(lo, hi) < 65536 && Le16(Rd16(lo, hi)) == [lo, hi]
  {
  }

  predicate Encodable(h: Header, payload: seq<Byte>) {
    |payload| <= MAX_PAYLOAD && h.major == PROTOCOL_MAJOR && FamilyKnown(h.family)
  }

  /** A buffer decodes to a header and payload exactly when it starts with their frame: nothing accepted
      could have been encoded any other way, and nothing encoded is refused, whatever follows it. */
  lemma DecodesIffFramed(buf: seq<Byte>, h: Header, payload: seq<Byte>)
    ensures Decode(buf) == Decoded(h, payload) <==>
            |payload| <= 116 && h.major == 1 && 1 <= h.family <= 7 && FrameOf(h, payload) <= buf
  {
    if Encodable(h, payload) && FrameOf(h, payload) <= buf {
      FrameVerdict(buf, h, payload);
    }
    DecodedIsFramed(buf, h, payload);
  }

  /** What becomes of any frame, whatever follows it: a foreign version is refused before the family is looked at. */
  lemma FrameVerdict(buf: seq<Byte>, h: Header, payload: seq<Byte>)
    requires |payload| <= 116 && FrameOf(h, payload) <= buf
    ensures h.major != 1 ==> Decode(buf) == Refused(UnsupportedMajor)
    ensures h.major == 1 && !(1 <= h.family <= 7) ==> Decode(buf) == Refused(UnknownFamily)
    ensures h.major == 1 && 1 <= h.family <= 7 ==> Decode(buf) == Decoded(h, payload)
  {
    var f := FrameOf(h, payload);
    var n := |payload|;
    assert buf[..|f|] == f;
    SliceOfPrefix(buf, |f|, 2, 10 + n);
    SliceOfPrefix(buf, |f|, 10, 10 + n);
    SliceOfPrefix(buf, |f|, 10 + n, 12 + n);
    FrameSlices(h, payload);
    assert buf[..10] == Prefix(h, n) by { SliceOfPrefix(buf, |f|, 0, 10); }
    PartsVerdict(buf, h, payload);
  }

  /** A frame cut short anywhere is reported as that, also before its version is looked at. */
  lemma CutFrameIsTruncated(h: Header, payload: seq<Byte>, k: nat)
    requires |payload| <= 116 && k < |FrameOf(h, payload)|
    ensures Decode(FrameOf(h, payload)[..k]) == Refused(Truncated)
  {
    if k >= MIN_FRAME {
      FrameSlices(h, payload);
      Le16RoundTrip(|payload|);
      var buf := FrameOf(h, payload)[..k];
      assert forall i :: 0 <= i < 10 ==> buf[i] == FrameOf(h, payload)[..10][i];
      assert buf[8] == Le16(|payload|)[0] && buf[9] == Le16(|payload|)[1];
    }
  }

  /** A buffer with a header, payload and checksum bytes in place. */
  lemma PartsVerdict(buf: seq<Byte>, h: Header, payload: seq<Byte>)
    requires |payload| <= MAX_PAYLOAD && MIN_FRAME + |payload| <= |buf|
    requires buf[..10] == Prefix(h, |payload|) && buf[10..10 + |payload|] == payload
    requires buf[10 + |payload|..12 + |payload|] == CrcBytes(Crc16Of(buf[2..10 + |payload|]))
    ensures Decode(buf) == if h.major != PROTOCOL_MAJOR then Refused(UnsupportedMajor)
                           else if !FamilyKnown(h.family) then Refused(UnknownFamily) else Decoded(h, payload)
  {
    var n := |payload|;
    Le16RoundTrip(n);
    assert forall i :: 0 <= i < 10 ==> buf[i] == buf[..10][i];
    assert buf[8] == Le16(n)[0] && buf[9] == Le16(n)[1];
  }

  lemma FrameSlices(h: Header, payload: seq<Byte>)
    requires |payload| <= MAX_PAYLOAD
    ensures var f := FrameOf(h, payload); var n := |payload|;
            && f[..10] == Prefix(h, n) && f[2..10 + n] == Body(h, payload) && f[10..10 + n] == payload
            && f[10 + n..12 + n] == CrcBytes(Crc16Of(Body(h, payload)))
  {
  }

  lemma DecodedIsFramed(buf: seq<Byte>, h: Header, payload: seq<Byte>)
    ensures Decode(buf) == Decoded(h, payload) ==> Encodable(h, payload) && FrameOf(h, payload) <= buf
  {
    if Decode(buf) == Decoded(h, payload) {
      var n := |payload|;
      Rd16RoundTrip(buf[8], buf[9]);
      assert buf[2..10 + n] == Body(h, payload);
      assert buf[..12 + n] == FrameOf(h, payload);
    }
  }

  // ---------------------------------------------------------------- request fingerprint

  datatype OperationRequest = OperationRequest(
    requestId: nat, controllerEpoch: nat, authorityId: nat, role: Byte, operationType: nat,
        parent: nat, params: seq<Byte>)

  function Le32(n: nat): (r: seq<Byte>)
    requires n < 0x1_0000_0000
    ensures |r| == 4
  {
    [n % 256, n / 256 % 256, n / 65536 % 256, n / 16777216]
  }

  /** Field widths on the wire. */
  predicate WellSized(r: OperationRequest) {
    r.operationType < 65536 && r.parent < 0x1_0000_0000 && |r.params| <= MAX_PARAMS
  }

  function Canonical(r: OperationRequest): (c: seq<Byte>)
    requires WellSized(r)
    ensures |c| == 7 + |r.params|
  {
    [r.role] + Le16(r.operationType) + Le32(r.parent) + r.params
  }

  function Fingerprint(r: OperationRequest): seq<bool>
    requires WellSized(r)
  {
    Crc32Of(Canonical(r))
  }

  method RequestFingerprint(r: OperationRequest) returns (fp: seq<bool>)
    requires WellSized(r)
    ensures fp == Fingerprint(r)
  {
    var buf: seq<Byte> := [r.role, r.operationType % 256, r.operationType / 256,
      r.parent % 256, r.parent / 256 % 256, r.parent / 65536 % 256, r.parent / 16777216];
    for i := 0 to |r.params|
      invariant buf == [r.role] + Le16(r.operationType) + Le32(r.parent) + r.params[..i]
    {
      buf := buf + [r.params[i]];
    }
    assert buf == Canonical(r);
    fp := Crc32(buf);
  }

  /** Requests alike but for up to four adjacent canonical bytes never share a fingerprint: in particular
      a different parent, a different type, a different role, or a changed run of four parameter bytes. */
  lemma NearbyRequestsDiffer(a: OperationRequest, b: OperationRequest, lo: nat)
    requires WellSized(a) && WellSized(b) && Canonical(a) != Canonical(b)
    requires DifferOnlyWithin(Canonical(a), Canonical(b), lo, 4)
    ensures Fingerprint(a) != Fingerprint(b)
  {
    FourAdjacentBytesDetected(Canonical(a), Canonical(b), lo);
  }

  lemma Le32Injective(m: nat, n: nat)
    requires m < 0x1_0000_0000 && n < 0x1_0000_0000 && Le32(m) == Le32(n)
    ensures m == n
  {
    assert Le32(m)[0] == Le32(n)[0] && Le32(m)[1] == Le32(n)[1] && Le32(m)[2] == Le32(n)[2] && Le32(m)[3] == Le32(n)[3];
    Le32Value(m);
    Le32Value(n);
  }

  lemma Le32Value(n: nat)
    requires n < 0x1_0000_0000
    ensures var w: seq<int> := Le32(n); n == w[0] + 256 * w[1] + 65536 * w[2] + 16777216 * w[3]
  {
  }

  /** Changing only the parent, or only the type and role, always changes the fingerprint. */
  lemma FieldChangeDetected(a: OperationRequest, b: OperationRequest)
    requires WellSized(a) && WellSized(b) && a.params == b.params
    requires (a.parent != b.parent && a.role == b.role && a.operationType == b.operationType) ||
             (a.parent == b.parent && (a.role != b.role || a.operationType != b.operationType))
    ensures Fingerprint(a) != Fingerprint(b)
  {
    if a.parent != b.parent { ParentChangeDetected(a, b); } else { TypeOrRoleChangeDetected(a, b); }
  }

  lemma CanonicalParts(r: OperationRequest)
    requires WellSized(r)
    ensures var x := Canonical(r);
            && |x| == 7 + |r.params|
            && x[0] == r.role && x[1..3] == Le16(r.operationType) && x[3..7] == Le32(r.parent) && x[7..] == r.params
  {
  }

  lemma ParentChangeDetected(a: OperationRequest, b: OperationRequest)
    requires WellSized(a) && WellSized(b) && a.params == b.params
    requires a.parent != b.parent && a.role == b.role && a.operationType == b.operationType
    ensures Fingerprint(a) != Fingerprint(b)
  {
    var x, y := Canonical(a), Canonical(b);
    CanonicalParts(a);
    CanonicalParts(b);
    if x == y { Le32Injective(a.parent, b.parent); }
    assert forall i :: 7 <= i < |x| ==> x[i] == x[7..][i - 7] && y[i] == y[7..][i - 7];
    assert forall i :: 1 <= i < 3 ==> x[i] == x[1..3][i - 1] && y[i] == y[1..3][i - 1];
    NearbyRequestsDiffer(a, b, 3);
  }

  lemma TypeOrRoleChangeDetected(a: OperationRequest, b: OperationRequest)
    requires WellSized(a) && WellSized(b) && a.params == b.params
    requires a.parent == b.parent && (a.role != b.role || a.operationType != b.operationType)
    ensures Fingerprint(a) != Fingerprint(b)
  {
    var x, y := Canonical(a), Canonical(b);
    CanonicalParts(a);
    CanonicalParts(b);
    Le16RoundTrip(a.operationType);
    Le16RoundTrip(b.operationType);
    assert forall i :: 7 <= i < |x| ==> x[i] == x[7..][i - 7] && y[i] == y[7..][i - 7];
    assert forall i :: 3 <= i < 7 ==> x[i] == x[3..7][i - 3] && y[i] == y[3..7][i - 3];
    NearbyRequestsDiffer(a, b, 0);
  }

  /** A changed run of up to four parameter bytes always changes the fingerprint. */
  lemma ParamsChangeDetected(a: OperationRequest, b: OperationRequest, lo: nat)
    requires WellSized(a) && WellSized(b)
    requires a.parent == b.parent && a.role == b.role && a.operationType == b.operationType
    requires a.params != b.params && DifferOnlyWithin(a.params, b.params, lo, 4)
    ensures Fingerprint(a) != Fingerprint(b)
  {
    var x, y := Canonical(a), Canonical(b);
    CanonicalParts(a);
    CanonicalParts(b);
    assert forall i :: 7 <= i < |x| ==> x[i] == x[7..][i - 7] && y[i] == y[7..][i - 7];
    assert forall i :: 3 <= i < 7 ==> x[i] == x[3..7][i - 3] && y[i] == y[3..7][i - 3];
    assert forall i :: 1 <= i < 3 ==> x[i] == x[1..3][i - 1] && y[i] == y[1..3][i - 1];
    NearbyRequestsDiffer(a, b, 7 + lo);
  }

  // ---------------------------------------------------------------- requests that share a fingerprint

  const NUL: Octet := [OFF, OFF, OFF, OFF, OFF, OFF, OFF, OFF]

  /** The bits of x^32 followed by the CRC-32 polynomial, as five bytes: 41 06 71 DB 01. */
  const ALIAS_HEAD: seq<Octet> :=
    [[ON, OFF, OFF, OFF, OFF, OFF, ON, OFF], [OFF, ON, ON, OFF, OFF, OFF, OFF, OFF],
         [ON, OFF, OFF, OFF, ON, ON, ON, OFF], [ON, ON, OFF, ON, ON, OFF, ON, ON]]
  const ALIAS_LAST: Octet := [ON, OFF, OFF, OFF, OFF, OFF, OFF, OFF]

  const ALIAS: seq<Byte> :=
    [FromLsb(ALIAS_HEAD[0]), FromLsb(ALIAS_HEAD[1]), FromLsb(ALIAS_HEAD[2]), FromLsb(ALIAS_HEAD[3]),
         FromLsb(ALIAS_LAST)]

  const BLANK: seq<Byte> := [FromLsb(NUL), FromLsb(NUL), FromLsb(NUL), FromLsb(NUL), FromLsb(NUL)]

  lemma AliasOctets()
    ensures LsbAll(ALIAS) == ALIAS_HEAD + [ALIAS_LAST]
    ensures LsbAll(BLANK) == [NUL, NUL, NUL, NUL] + [NUL]
  {
    forall o: Octet ensures Lsb(FromLsb(o)) == o {
      FromLsbRoundTrip(o);
    }
  }

  function AliasBits(): (r: seq<bool>)
    ensures |r| == 32
  {
    [ON, OFF, OFF, OFF, OFF, OFF, ON, OFF, OFF, ON, ON, OFF, OFF, OFF, OFF, OFF,
         ON, OFF, OFF, OFF, ON, ON, ON, OFF, ON, ON, OFF, ON, ON, OFF, ON, ON]
  }

  lemma AliasFlat()
    ensures Flatten(ALIAS_HEAD) == AliasBits()
  {
    assert ALIAS_HEAD[..3][..2][..1][..0] == [];
    assert Flatten(ALIAS_HEAD[..3][..2][..1]) == [] + ALIAS_HEAD[0];
    assert Flatten(ALIAS_HEAD[..3][..2]) == Flatten(ALIAS_HEAD[..3][..2][..1]) + ALIAS_HEAD[1];
    assert Flatten(ALIAS_HEAD[..3]) == Flatten(ALIAS_HEAD[..3][..2]) + ALIAS_HEAD[2];
    assert Flatten(ALIAS_HEAD) == Flatten(ALIAS_HEAD[..3]) + ALIAS_HEAD[3];
  }

  /** Thirty-two shifts take these bits to a single bit at the head of the register. */
  lemma AliasShifts()
    ensures Times(POLY32, AliasBits(), 32) == Placed([ON], 32)
  {
    var a := AliasBits();
    assert a[1..] + [OFF] == Xor(POLY32, Zeros(31) + [ON]);
    assert Step(POLY32, a) == Placed(Zeros(31) + [ON], 32);
    assert Times(POLY32, a, 1) == Step(POLY32, Times(POLY32, a, 0));
    ZerosShiftOut(POLY32, 31, [ON], 31);
    TimesAdd(POLY32, a, 1, 31);
    assert Zeros(0) + [ON] == [ON];
  }

  lemma BlankFlat()
    ensures Flatten([NUL, NUL, NUL, NUL]) == Zeros(32)
  {
    var w: seq<Octet> := [NUL, NUL, NUL, NUL];
    assert w[..3] == [NUL, NUL, NUL] && w[..3][..2] == [NUL, NUL] &&
               w[..3][..2][..1] == [NUL] && w[..3][..2][..1][..0] == [];
    assert Flatten([NUL]) == Zeros(8);
    assert Flatten([NUL, NUL]) == Zeros(16);
    assert Flatten([NUL, NUL, NUL]) == Zeros(24);
  }

  lemma HeadFeeds(p: seq<bool>, c: seq<bool>, w: seq<Octet>, e: seq<bool>)
    requires |c| == |p| == |e| == 32 && |w| == 4 && Times(p, Flatten(w), 32) == e
    ensures FeedAll(p, c, w) == Xor(Times(p, c, 32), e)
  {
    var bits := Flatten(w);
    WindowIsOneMix(p, c, w);
    assert Placed(bits, 32) == bits;
    TimesLinear(p, c, bits, 32);
  }

  lemma FeedSnoc(p: seq<bool>, c: seq<bool>, w: seq<Octet>, o: Octet)
    requires |c| == |p| >= 8
    ensures FeedAll(p, c, w + [o]) == Feed(p, FeedAll(p, c, w), o)
  {
    assert (w + [o])[..|w|] == w;
  }

  lemma XorTwice(x: seq<bool>, e: seq<bool>)
    requires |x| == |e|
    ensures Xor(Xor(x, e), e) == x
  {
  }

  /** A last octet equal to the difference so far removes it. */
  lemma LastCancels(p: seq<bool>, c: seq<bool>, w: seq<Octet>, o: Octet)
    requires |c| == |p| == 32 && |w| == 4 && Times(p, Flatten(w), 32) == Placed(o, 32)
    ensures FeedAll(p, c, w + [o]) == Times(p, Times(p, c, 32), 8)
  {
    HeadFeeds(p, c, w, Placed(o, 32));
    FeedSnoc(p, c, w, o);
    XorTwice(Times(p, c, 32), Placed(o, 32));
  }

  lemma {:induction false} ZerosStay(p: seq<bool>, n: nat)
    requires |p| > 0
    ensures Times(p, Zeros(|p|), n) == Zeros(|p|)
  {
    if n > 0 {
      ZerosStay(p, n - 1);
      assert Step(p, Zeros(|p|)) == Zeros(|p|);
    }
  }

  lemma AliasFacts() returns (w: seq<Octet>, o: Octet, v: seq<Octet>, q: Octet)
    ensures |w| == |v| == 4 && LsbAll(ALIAS) == w + [o] && LsbAll(BLANK) == v + [q]
    ensures Times(POLY32, Flatten(w), 32) == Placed(o, 32) && Times(POLY32, Flatten(v), 32) == Placed(q, 32)
  {
    w, o, v, q := ALIAS_HEAD, ALIAS_LAST, [NUL, NUL, NUL, NUL], NUL;
    AliasOctets();
    AliasFlat();
    AliasShifts();
    assert Placed([ON], 32) == Placed(ALIAS_LAST, 32);
    BlankFlat();
    ZerosStay(POLY32, 32);
    assert Placed(NUL, 32) == Zeros(32);
  }

  lemma AliasFeeds(c: seq<bool>)
    requires |c| == 32
    ensures FeedAll(POLY32, c, LsbAll(ALIAS)) == FeedAll(POLY32, c, LsbAll(BLANK))
  {
    var w, o, v, q := AliasFacts();
    LastCancels(POLY32, c, w, o);
    LastCancels(POLY32, c, v, q);
  }

  /** The guarantee goes no further: for every role, type and parent, these two parameter blobs of five
      bytes share a fingerprint. */
  lemma FingerprintsCollide(r: OperationRequest)
    requires WellSized(r)
    ensures var a, b := r.(params := ALIAS), r.(params := BLANK);
            WellSized(a) && WellSized(b) && a.params != b.params && Fingerprint(a) == Fingerprint(b)
  {
    var head: seq<Byte> := [r.role] + Le16(r.operationType) + Le32(r.parent);
    FromLsbRoundTrip(ALIAS_LAST);
    FromLsbRoundTrip(NUL);
    assert ALIAS_LAST[0] && !NUL[0];
    assert ALIAS[4] != BLANK[4];
    assert LsbAll(head + ALIAS) == LsbAll(head) + LsbAll(ALIAS);
    assert LsbAll(head + BLANK) == LsbAll(head) + LsbAll(BLANK);
    FeedAppend(POLY32, Ones(32), LsbAll(head), LsbAll(ALIAS));
    FeedAppend(POLY32, Ones(32), LsbAll(head), LsbAll(BLANK));
    AliasFeeds(FeedAll(POLY32, Ones(32), LsbAll(head)));
  }
}
