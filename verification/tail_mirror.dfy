/** The compact mirrors of the newest event and log records that a fault capture takes along. */
module TailMirrors {
  import opened Checksum
  import Codec
  import opened Words

  const DEPTH := 8
  const PREFIX := 10
  const EVENT_RECORD := 26
  const LOG_RECORD := 32

  /** Eight records and how many were ever noted. */
  datatype Mirror = Mirror(count: nat, records: seq<seq<Byte>>)

  predicate Width(w: nat) {
    w == EVENT_RECORD || w == LOG_RECORD
  }

  predicate Shaped(m: Mirror, w: nat) {
    |m.records| == DEPTH && forall i :: 0 <= i < DEPTH ==> |m.records[i]| == w
  }

  /** What follows sync and header in a frame: the record and, after it, the checksum. */
  function Payload(data: seq<Byte>): seq<Byte> {
    if |data| >= PREFIX then data[PREFIX..] else []
  }

  /** A shorter payload leaves the rest of the old record in place. */
  function Overlaid(was: seq<Byte>, p: seq<Byte>): (r: seq<Byte>)
    ensures |r| == |was|
  {
    if |p| >= |was| then p[..|was|] else p + was[|p|..]
  }

  /** Where the `n`-th record goes. */
  function Slot(n: nat): (r: nat)
    ensures r < DEPTH
  {
    n % DEPTH
  }

  function Noted(m: Mirror, data: seq<Byte>): Mirror
    requires |m.records| == DEPTH
  {
    Mirror(m.count + 1, m.records[Slot(m.count) := Overlaid(m.records[Slot(m.count)], Payload(data))])
  }

  function NotedAll(m: Mirror, frames: seq<seq<Byte>>): (r: Mirror)
    requires |m.records| == DEPTH
    ensures |r.records| == DEPTH && r.count == m.count + |frames|
  {
    if frames == [] then m else Noted(NotedAll(m, frames[..|frames| - 1]), frames[|frames| - 1])
  }

  /** The first `k` records from position `start` on. */
  function Joined(m: Mirror, start: nat, k: nat): seq<Byte>
    requires |m.records| == DEPTH
  {
    if k == 0 then [] else Joined(m, start, k - 1) + m.records[Slot(start + k - 1)]
  }

  function Oldest(m: Mirror): nat {
    if m.count > DEPTH then Slot(m.count - DEPTH) else 0
  }

  function Held(m: Mirror): nat {
    if m.count < DEPTH then m.count else DEPTH
  }

  /** Whole records that fit into `cap` bytes, oldest first. */
  function Fitting(m: Mirror, w: nat, cap: nat): nat
    requires Width(w)
  {
    var h := Held(m);
    if w == EVENT_RECORD then (if h * EVENT_RECORD < cap then h * EVENT_RECORD else cap) / EVENT_RECORD
    else (if h * LOG_RECORD < cap then h * LOG_RECORD else cap) / LOG_RECORD
  }

  function Tail(m: Mirror, w: nat, cap: nat): seq<Byte>
    requires Width(w) && |m.records| == DEPTH
  {
    Joined(m, Oldest(m), Fitting(m, w, cap))
  }

  // ---------------------------------------------------------------- what the mirror shows

  /** What frame `j` leaves in its place: its payload laid over what the frame eight before it left there. */
  function Layered(m: Mirror, frames: seq<seq<Byte>>, j: nat): seq<Byte>
    requires |m.records| == DEPTH && j < |frames|
    decreases j, 1
  {
    Overlaid(Below(m, frames, j), Payload(frames[j]))
  }

  /** What frame `j` finds in its place. */
  function Below(m: Mirror, frames: seq<seq<Byte>>, j: nat): seq<Byte>
    requires |m.records| == DEPTH && j < |frames|
    decreases j, 0
  {
    if j < DEPTH then m.records[j] else Layered(m, frames, j - DEPTH)
  }

  /** What `k` frames from the one at `from` on left, joined. */
  function Layers(m: Mirror, frames: seq<seq<Byte>>, from: nat, k: nat): seq<Byte>
    requires |m.records| == DEPTH && from + k <= |frames|
  {
    if k == 0 then [] else Layers(m, frames, from, k - 1) + Layered(m, frames, from + k - 1)
  }

  /** At least `w` bytes follow sync and header. */
  predicate Long(data: seq<Byte>, w: nat) {
    |data| >= PREFIX + w
  }

  /** The `k` frames from the one at `from` on are long. */
  ghost predicate AllLong(frames: seq<seq<Byte>>, w: nat, from: nat, k: nat)
    requires from + k <= |frames|
  {
    forall i :: from <= i < from + k ==> Long(frames[i], w)
  }

  function RecordOf(data: seq<Byte>, w: nat): (r: seq<Byte>)
    requires Long(data, w)
    ensures |r| == w
  {
    data[PREFIX..PREFIX + w]
  }

  /** The records of `k` frames from the one at `from` on. */
  ghost function Records(frames: seq<seq<Byte>>, w: nat, from: nat, k: nat): seq<Byte>
    requires from + k <= |frames| && AllLong(frames, w, from, k)
  {
    if k == 0 then [] else Records(frames, w, from, k - 1) + RecordOf(frames[from + k - 1], w)
  }

  lemma {:induction false} LayeredPrefix(m: Mirror, frames: seq<seq<Byte>>, n: nat, j: nat)
    requires |m.records| == DEPTH && j < n <= |frames|
    ensures Layered(m, frames[..n], j) == Layered(m, frames, j)
    decreases j
  {
    if j >= DEPTH { LayeredPrefix(m, frames, n, j - DEPTH); }
  }

  lemma {:induction false} LayeredWidth(m: Mirror, w: nat, frames: seq<seq<Byte>>, j: nat)
    requires Shaped(m, w) && j < |frames|
    ensures |Below(m, frames, j)| == |Layered(m, frames, j)| == w
    decreases j
  {
    if j >= DEPTH { LayeredWidth(m, w, frames, j - DEPTH); }
  }

  lemma LayeredLong(m: Mirror, w: nat, frames: seq<seq<Byte>>, j: nat)
    requires Shaped(m, w) && j < |frames| && Long(frames[j], w)
    ensures Layered(m, frames, j) == RecordOf(frames[j], w)
  {
    LayeredWidth(m, w, frames, j);
    assert frames[j][PREFIX..][..w] == frames[j][PREFIX..PREFIX + w];
  }

  lemma SlotsDiffer(j: nat, n: nat)
    requires j < n < j + DEPTH
    ensures Slot(j) != Slot(n)
  {
  }

  lemma FitsWhole(m: Mirror, w: nat, cap: nat)
    requires Width(w) && cap >= DEPTH * w
    ensures Fitting(m, w, cap) == Held(m)
  {
    var h := Held(m);
    if w == EVENT_RECORD { assert h * 26 / 26 == h; } else { assert h * 32 / 32 == h; }
  }

  /** Each of the newest frames' layers is in its place, and places never written are as in `z`. */
  ghost predicate Shows(z: Mirror, m: Mirror, frames: seq<seq<Byte>>) {
    && |z.records| == |m.records| == DEPTH && m.count == |frames|
    && (forall j :: 0 <= j < |frames| <= j + DEPTH ==> ShowsAt(z, m, frames, j))
    && (forall k :: |frames| <= k < DEPTH ==> m.records[k] == z.records[k])
  }

  ghost predicate ShowsAt(z: Mirror, m: Mirror, frames: seq<seq<Byte>>, j: nat)
    requires j < |frames| && |z.records| == |m.records| == DEPTH
  {
    m.records[Slot(j)] == Layered(z, frames, j)
  }

  lemma ShownBelow(z: Mirror, m: Mirror, frames: seq<seq<Byte>>, data: seq<Byte>)
    requires Shows(z, m, frames)
    ensures m.records[Slot(|frames|)] == Below(z, frames + [data], |frames|)
  {
    var n := |frames|;
    if n >= DEPTH {
      assert ShowsAt(z, m, frames, n - DEPTH);
      SlotRepeats(n - DEPTH);
      LayeredPrefix(z, frames + [data], n, n - DEPTH);
      assert (frames + [data])[..n] == frames;
    }
  }

  lemma SlotRepeats(j: nat)
    ensures Slot(j + DEPTH) == Slot(j)
  {
  }

  lemma NotedKeepsShows(z: Mirror, m: Mirror, frames: seq<seq<Byte>>, data: seq<Byte>)
    requires Shows(z, m, frames)
    ensures Shows(z, Noted(m, data), frames + [data])
  {
    var n := |frames|;
    ShownBelow(z, m, frames, data);
    forall j | 0 <= j < n + 1 <= j + DEPTH ensures ShowsAt(z, Noted(m, data), frames + [data], j) {
      if j < n {
        assert ShowsAt(z, m, frames, j);
        SlotsDiffer(j, n);
        LayeredPrefix(z, frames + [data], n, j);
        assert (frames + [data])[..n] == frames;
      }
    }
  }

  lemma {:induction false} NotedShows(z: Mirror, frames: seq<seq<Byte>>)
    requires z.count == 0 && |z.records| == DEPTH
    ensures Shows(z, NotedAll(z, frames), frames)
    decreases |frames|
  {
    if frames != [] {
      var n := |frames| - 1;
      NotedShows(z, frames[..n]);
      NotedKeepsShows(z, NotedAll(z, frames[..n]), frames[..n], frames[n]);
      assert frames[..n] + [frames[n]] == frames;
    }
  }

  lemma {:induction false} JoinedIsLayers(z: Mirror, m: Mirror, frames: seq<seq<Byte>>, from: nat, k: nat)
    requires Shows(z, m, frames) && from + k <= |frames| <= from + DEPTH
    ensures Joined(m, from, k) == Layers(z, frames, from, k)
  {
    if k > 0 {
      JoinedIsLayers(z, m, frames, from, k - 1);
      assert ShowsAt(z, m, frames, from + k - 1);
    }
  }

  lemma {:induction false} LayersAreRecords(m: Mirror, w: nat, frames: seq<seq<Byte>>, from: nat, k: nat)
    requires Shaped(m, w) && from + k <= |frames| && AllLong(frames, w, from, k)
    ensures Layers(m, frames, from, k) == Records(frames, w, from, k)
  {
    if k > 0 {
      LayersAreRecords(m, w, frames, from, k - 1);
      LayeredLong(m, w, frames, from + k - 1);
    }
  }

  lemma SameSlot(start: nat, from: nat, i: nat)
    requires start == Slot(from)
    ensures Slot(start + i) == Slot(from + i)
  {
    assert from + i == DEPTH * (from / DEPTH) + (start + i);
  }

  lemma {:induction false} JoinedShift(m: Mirror, start: nat, from: nat, k: nat)
    requires |m.records| == DEPTH && start == Slot(from)
    ensures Joined(m, start, k) == Joined(m, from, k)
  {
    if k > 0 {
      JoinedShift(m, start, from, k - 1);
      SameSlot(start, from, k - 1);
    }
  }

  lemma ShownTail(z: Mirror, m: Mirror, w: nat, frames: seq<seq<Byte>>, cap: nat, from: nat, k: nat)
    requires Shows(z, m, frames) && Shaped(m, w) && Width(w) && cap >= DEPTH * w
    requires k == Held(m) && from + k == |frames|
    ensures Tail(m, w, cap) == Layers(z, frames, from, k)
  {
    TailIsJoined(m, w, cap);
    JoinedIsLayers(z, m, frames, from, k);
  }

  /** Over every run the tail is what the last eight frames left in their places, in order. */
  lemma TailIsLayers(m: Mirror, w: nat, frames: seq<seq<Byte>>, cap: nat, from: nat, k: nat)
    requires m.count == 0 && Shaped(m, w) && (w == 26 || w == 32) && cap >= 8 * w
    requires k == (if |frames| < 8 then |frames| else 8) && from + k == |frames|
    ensures Tail(NotedAll(m, frames), w, cap) == Layers(m, frames, from, k)
  {
    NotedShows(m, frames);
    NotedShaped(m, w, frames);
    ShownTail(m, NotedAll(m, frames), w, frames, cap, from, k);
  }

  lemma {:induction false} NotedShaped(m: Mirror, w: nat, frames: seq<seq<Byte>>)
    requires Shaped(m, w)
    ensures Shaped(NotedAll(m, frames), w)
    decreases |frames|
  {
    if frames != [] { NotedShaped(m, w, frames[..|frames| - 1]); }
  }

  /** When the last eight frames are long, whatever came before, the tail is exactly their records, in order. */
  lemma TailIsNewest(m: Mirror, w: nat, frames: seq<seq<Byte>>, cap: nat, from: nat, k: nat)
    requires m.count == 0 && Shaped(m, w) && (w == 26 || w == 32) && cap >= 8 * w
    requires k == (if |frames| < 8 then |frames| else 8) && from + k == |frames| && AllLong(frames, w, from, k)
    ensures Tail(NotedAll(m, frames), w, cap) == Records(frames, w, from, k)
  {
    TailIsLayers(m, w, frames, cap, from, k);
    LayersAreRecords(m, w, frames, from, k);
  }

  lemma TailIsJoined(m: Mirror, w: nat, cap: nat)
    requires Shaped(m, w) && Width(w) && cap >= DEPTH * w
    ensures Tail(m, w, cap) == Joined(m, m.count - Held(m), Held(m))
  {
    FitsWhole(m, w, cap);
    if m.count > DEPTH {
      JoinedShift(m, Oldest(m), m.count - DEPTH, Held(m));
    }
  }

  // ---------------------------------------------------------------- what a frame's record shows

  lemma FramePayload(h: Codec.Header, body: seq<Byte>)
    requires |body| <= Codec.MAX_PAYLOAD
    ensures |Codec.FrameOf(h, body)| == PREFIX + |body| + 2
    ensures Payload(Codec.FrameOf(h, body)) == body + Trailer(h, body) && |Trailer(h, body)| == 2
  {
    assert |Codec.Body(h, body)| == 8 + |body| && Codec.Body(h, body)[8..] == body;
  }

  /** The checksum bytes of a frame. */
  function Trailer(h: Codec.Header, body: seq<Byte>): seq<Byte>
    requires |body| <= Codec.MAX_PAYLOAD
  {
    Codec.CrcBytes(Crc16Of(Codec.Body(h, body)))
  }

  lemma OverlaidParts(was: seq<Byte>, body: seq<Byte>, crc: seq<Byte>)
    requires |crc| == 2
    ensures var r := Overlaid(was, body + crc); var n := |body|;
            && (n >= |was| ==> r == body[..|was|])
            && (n < |was| ==> r[..n] == body && r[n] == crc[0])
            && (n + 1 < |was| ==> r[n + 1] == crc[1] && r[n + 2..] == was[n + 2..])
  {
    var r := Overlaid(was, body + crc);
    if |body| >= |was| {
      assert (body + crc)[..|was|] == body[..|was|];
    } else {
      assert r[..|body|] == body;
    }
  }

  /** What a capture shows of one of the last eight frames: its body and nothing else exactly when that fills
      the record; behind a shorter one come the checksum bytes and then what the place held before. */
  lemma ShortRecordShowsTrailer(m: Mirror, w: nat, frames: seq<seq<Byte>>, j: nat, h: Codec.Header, body: seq<Byte>)
    requires m.count == 0 && Shaped(m, w) && j < |frames| <= j + 8
    requires |body| <= Codec.MAX_PAYLOAD && frames[j] == Codec.FrameOf(h, body)
    ensures |Below(m, frames, j)| == w && |Trailer(h, body)| == 2
    ensures var r := NotedAll(m, frames).records[Slot(j)]; var n := |body|;
            && |r| == w
            && (n >= w ==> r == body[..w])
            && (n < w ==> r[..n] == body && r[n] == Trailer(h, body)[0])
            && (n + 1 < w ==> r[n + 1] == Trailer(h, body)[1] && r[n + 2..] == Below(m, frames, j)[n + 2..])
  {
    NotedShows(m, frames);
    assert ShowsAt(m, NotedAll(m, frames), frames, j);
    LayeredWidth(m, w, frames, j);
    FramePayload(h, body);
    OverlaidParts(Below(m, frames, j), body, Trailer(h, body));
  }

  lemma FramedRecord(w: nat, h: Codec.Header, body: seq<Byte>)
    requires w <= |body| <= Codec.MAX_PAYLOAD
    ensures Long(Codec.FrameOf(h, body), w) && RecordOf(Codec.FrameOf(h, body), w) == body[..w]
  {
    var f := Codec.FrameOf(h, body);
    FramePayload(h, body);
    assert f[PREFIX..][..w] == f[PREFIX..PREFIX + w];
    assert (body + Trailer(h, body))[..w] == body[..w];
  }

  lemma BelowIsRecord(m: Mirror, w: nat, frames: seq<seq<Byte>>, j: nat, h: Codec.Header, body: seq<Byte>)
    requires Shaped(m, w) && DEPTH <= j < |frames| && w <= |body| <= Codec.MAX_PAYLOAD
    requires frames[j - DEPTH] == Codec.FrameOf(h, body)
    ensures Below(m, frames, j) == body[..w]
  {
    FramedRecord(w, h, body);
    LayeredLong(m, w, frames, j - DEPTH);
  }

  lemma ShortOverFull(r: seq<Byte>, body: seq<Byte>, crc: seq<Byte>, was: seq<Byte>, n: nat)
    requires |body| == n && |crc| == 2 && n + 2 <= |r| == |was|
    requires r[..n] == body && r[n] == crc[0] && r[n + 1] == crc[1] && r[n + 2..] == was[n + 2..]
    ensures r == body + crc + was[n + 2..]
  {
    assert r == r[..n] + [r[n], r[n + 1]] + r[n + 2..];
  }

  /** So a short log shows the end of the log eight before it, as if it were its own text. */
  lemma StaleBytesShow(m: Mirror, w: nat, frames: seq<seq<Byte>>, j: nat, h: Codec.Header, body: seq<Byte>,
                       h0: Codec.Header, body0: seq<Byte>)
    requires m.count == 0 && Shaped(m, w) && 8 <= j < |frames| <= j + 8
    requires |body| + 2 <= w <= |body0| <= Codec.MAX_PAYLOAD
    requires |body| <= Codec.MAX_PAYLOAD && frames[j] == Codec.FrameOf(h, body)
    requires frames[j - 8] == Codec.FrameOf(h0, body0)
    ensures NotedAll(m, frames).records[Slot(j)] == body + Trailer(h, body) + body0[..w][|body| + 2..]
  {
    ShortRecordShowsTrailer(m, w, frames, j, h, body);
    BelowIsRecord(m, w, frames, j, h0, body0);
    ShortOverFull(NotedAll(m, frames).records[Slot(j)], body, Trailer(h, body), body0[..w], |body|);
  }

  type Half = n: nat | n < 65536

  /** What precedes every record, with wall time. */
  datatype Envelope = Envelope(cls: nat, validity: nat, epoch: Word, tick: Word, seqNo: Byte, wall: Word)

  datatype EventBody = EventBody(id: Half, severity: Byte, kind: Byte, value: Word, value2: Word)

  datatype EventRecord = EventRecord(header: Codec.Header, envelope: Envelope, body: EventBody)

  /** Class and time validity share the first byte. */
  function EnvelopeBytes(e: Envelope): (r: seq<Byte>)
    ensures |r| == 14
  {
    [e.cls % 8 + 8 * (e.validity % 4)] + Codec.Le32(e.epoch) + Codec.Le32(e.tick) + [e.seqNo] + Codec.Le32(e.wall)
  }

  function BodyBytes(b: EventBody): (r: seq<Byte>)
    ensures |r| == 12
  {
    Codec.Le16(b.id) + [b.severity, b.kind] + Codec.Le32(b.value) + Codec.Le32(b.value2)
  }

  function RecordBytes(x: EventRecord): (r: seq<Byte>)
    ensures |r| == EVENT_RECORD
  {
    EnvelopeBytes(x.envelope) + BodyBytes(x.body)
  }

  function EventFrame(x: EventRecord): seq<Byte> {
    Codec.FrameOf(x.header, RecordBytes(x))
  }

  ghost predicate AreEvents(frames: seq<seq<Byte>>, events: seq<EventRecord>) {
    |frames| == |events| && forall i :: 0 <= i < |frames| ==> frames[i] == EventFrame(events[i])
  }

  function JoinedRecords(records: seq<seq<Byte>>): seq<Byte> {
    if records == [] then [] else JoinedRecords(records[..|records| - 1]) + records[|records| - 1]
  }

  function AllRecords(events: seq<EventRecord>): (r: seq<seq<Byte>>)
    ensures |r| == |events| && forall i :: 0 <= i < |r| ==> r[i] == RecordBytes(events[i])
  {
    seq(|events|, i requires 0 <= i < |events| => RecordBytes(events[i]))
  }

  /** An event frame is 38 bytes and has its record, all of it, behind sync and header. */
  lemma EventIsLong(x: EventRecord)
    ensures |EventFrame(x)| == 38 && Long(EventFrame(x), EVENT_RECORD)
    ensures RecordOf(EventFrame(x), EVENT_RECORD) == RecordBytes(x)
  {
    FrameIsLong(x.header, RecordBytes(x));
  }

  lemma FrameIsLong(h: Codec.Header, record: seq<Byte>)
    requires |record| == EVENT_RECORD
    ensures |Codec.FrameOf(h, record)| == 38 && Long(Codec.FrameOf(h, record), EVENT_RECORD)
    ensures RecordOf(Codec.FrameOf(h, record), EVENT_RECORD) == record
  {
    FramePayload(h, record);
    FramedRecord(EVENT_RECORD, h, record);
  }

  lemma EventsAreLong(frames: seq<seq<Byte>>, events: seq<EventRecord>, from: nat, k: nat)
    requires AreEvents(frames, events) && from + k <= |frames|
    ensures AllLong(frames, EVENT_RECORD, from, k)
    ensures forall i :: from <= i < from + k ==> RecordOf(frames[i], EVENT_RECORD) == AllRecords(events)[i]
  {
    forall i | from <= i < from + k
      ensures Long(frames[i], EVENT_RECORD) && RecordOf(frames[i], EVENT_RECORD) == AllRecords(events)[i]
    {
      EventIsLong(events[i]);
    }
  }

  /** Event frames fill their places: over every run of events the tail is exactly the last eight event records,
      in order. */
  lemma EventTailIsNewest(m: Mirror, frames: seq<seq<Byte>>, events: seq<EventRecord>, cap: nat, from: nat, k: nat)
    requires m.count == 0 && Shaped(m, 26) && cap >= 8 * 26 && AreEvents(frames, events)
    requires k == (if |frames| < 8 then |frames| else 8) && from + k == |frames|
    ensures Tail(NotedAll(m, frames), 26, cap) == JoinedRecords(AllRecords(events)[from..from + k])
  {
    EventsAreLong(frames, events, from, k);
    TailIsNewest(m, EVENT_RECORD, frames, cap, from, k);
    JoinRecords(frames, EVENT_RECORD, AllRecords(events), from, k);
  }

  lemma {:induction false} JoinRecords(frames: seq<seq<Byte>>, w: nat, records: seq<seq<Byte>>, from: nat, k: nat)
    requires from + k <= |frames| == |records| && AllLong(frames, w, from, k)
    requires forall i :: from <= i < from + k ==> RecordOf(frames[i], w) == records[i]
    ensures Records(frames, w, from, k) == JoinedRecords(records[from..from + k])
  {
    if k > 0 {
      JoinRecords(frames, w, records, from, k - 1);
      assert records[from..from + k][..k - 1] == records[from..from + k - 1];
    }
  }

  lemma {:induction false} JoinedLength(m: Mirror, w: nat, start: nat, k: nat)
    requires Shaped(m, w) && Width(w)
    ensures |Joined(m, start, k)| == k * w
  {
    if k > 0 { JoinedLength(m, w, start, k - 1); }
  }

  /** The tail never exceeds its capacity nor eight records. */
  lemma TailBounded(m: Mirror, w: nat, cap: nat)
    requires Shaped(m, w) && Width(w)
    ensures |Tail(m, w, cap)| <= cap && |Tail(m, w, cap)| <= DEPTH * w
  {
    JoinedLength(m, w, Oldest(m), Fitting(m, w, cap));
    if w == EVENT_RECORD { assert Held(m) * 26 <= 208; } else { assert Held(m) * 32 <= 256; }
  }

  /** Size of the capture staging buffer. */
  const STAGING := 512

  /** Header, reset cause, snapshot block, event tail and log tail, each tail cut to the room left. */
  function Staging(header: seq<Byte>, cause: Byte, snapshot: seq<Byte>, events: Mirror, logs: Mirror): seq<Byte>
    requires |header| == 11 && |snapshot| == 13 && |events.records| == |logs.records| == DEPTH
  {
    var front := header + [cause] + snapshot;
    var withEvents := front + Tail(events, EVENT_RECORD, STAGING - |front|);
    if |withEvents| > STAGING then withEvents else withEvents + Tail(logs, LOG_RECORD, STAGING - |withEvents|)
  }

  /** Nothing is cut off: both tails are whole, and with the stream header the capture fits its five fragments. */
  lemma StagingIsWhole(header: seq<Byte>, cause: Byte, snapshot: seq<Byte>, events: Mirror, logs: Mirror)
    requires |header| == 11 && |snapshot| == 13 && Shaped(events, 26) && Shaped(logs, 32)
    ensures var s := Staging(header, cause, snapshot, events, logs);
            && |s| <= 489
            && s == header + [cause] + snapshot + Joined(events, Oldest(events), Held(events))
                      + Joined(logs, Oldest(logs), Held(logs))
  {
    var front := header + [cause] + snapshot;
    TailBounded(events, EVENT_RECORD, STAGING - |front|);
    FitsWhole(events, EVENT_RECORD, STAGING - |front|);
    var rest := STAGING - |front| - |Tail(events, EVENT_RECORD, STAGING - |front|)|;
    TailBounded(logs, LOG_RECORD, rest);
    FitsWhole(logs, LOG_RECORD, rest);
  }

  // ---------------------------------------------------------------- in place

  /** `copy` bytes of the frame from `start` on replaced the beginning of `was`. */
  lemma CopiedIsOverlaid(was: seq<Byte>, data: seq<Byte>, start: nat, copy: nat, r: seq<Byte>)
    requires start == (if |data| >= PREFIX then PREFIX else |data|) && |r| == |was|
    requires copy == if |data| - start < |was| then |data| - start else |was|
    requires forall b :: 0 <= b < copy ==> r[b] == data[start + b]
    requires forall b :: copy <= b < |was| ==> r[b] == was[b]
    ensures r == Overlaid(was, Payload(data))
  {
    assert Payload(data) == data[start..];
  }

  class TailMirror {
    const cells: array2<Byte>
    var count: nat

    ghost predicate Valid()
    {
      cells.Length0 == DEPTH && Width(cells.Length1)
    }

    ghost function Record(k: nat): (r: seq<Byte>)
      requires Valid() && k < DEPTH
      reads cells
      ensures |r| == cells.Length1 && forall b :: 0 <= b < |r| ==> r[b] == cells[k, b]
    {
      seq(cells.Length1, b requires Valid() && 0 <= b < cells.Length1 reads cells => cells[k, b])
    }

    ghost function View(): (m: Mirror)
      requires Valid()
      reads this, cells
      ensures Shaped(m, cells.Length1) && forall k :: 0 <= k < DEPTH ==> m.records[k] == Record(k)
    {
      Mirror(count, seq(DEPTH, k requires Valid() && 0 <= k < DEPTH reads cells => Record(k)))
    }

    constructor (w: nat)
      requires Width(w)
      ensures Valid() && cells.Length1 == w && View().count == 0 && fresh(cells)
    {
      cells := new Byte[DEPTH, w]((_, _) => 0);
      count := 0;
    }

    method Append(data: seq<Byte>)
      requires Valid()
      modifies this, cells
      ensures Valid() && View() == Noted(old(View()), data)
    {
      ghost var m := View();
      var start := if |data| >= PREFIX then PREFIX else |data|;
      var copy := if |data| - start < cells.Length1 then |data| - start else cells.Length1;
      var k := Slot(count);
      ghost var was := Record(k);
      for i := 0 to copy
        invariant count == m.count
        invariant forall b :: 0 <= b < i ==> cells[k, b] == data[start + b]
        invariant forall b :: i <= b < cells.Length1 ==> cells[k, b] == was[b]
        invariant forall j, b :: 0 <= j < DEPTH && j != k && 0 <= b < cells.Length1 ==> cells[j, b] == old(cells[j, b])
      {
        cells[k, i] := data[start + i];
      }
      count := count + 1;
      CopiedIsOverlaid(was, data, start, copy, Record(k));
      assert m.records[k] == was;
      forall j | 0 <= j < DEPTH ensures View().records[j] == m.records[k := Record(k)][j] {
        if j != k {
          assert m.records[j] == old(Record(j));
          assert Record(j) == old(Record(j));
        }
      }
      assert View().records == m.records[k := Record(k)];
    }

    method CopyTail(cap: nat) returns (out: seq<Byte>)
      requires Valid()
      ensures out == Tail(View(), cells.Length1, cap)
    {
      var total := if count < DEPTH then count else DEPTH;
      var want := total * cells.Length1;
      var whole := (if want < cap then want else cap) / cells.Length1;
      var start := if count > DEPTH then Slot(count - DEPTH) else 0;
      out := [];
      for i := 0 to whole
        invariant out == Joined(View(), start, i)
      {
        var src := Slot(start + i);
        ghost var before := out;
        for b := 0 to cells.Length1
          invariant out == before + Record(src)[..b]
        {
          out := out + [cells[src, b]];
        }
        assert Record(src)[..cells.Length1] == Record(src);
      }
    }
  }
}
