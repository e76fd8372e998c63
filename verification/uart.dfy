/** The transmit side of the serial adapter: a 256-byte ring filled by the foreground and emptied by the
    transmit interrupt. Interrupts may run between any two accesses the foreground makes; `world` says, for
    each such gap, which interrupts run there and whether the data register is ready for each. */
module Uart {
  import opened Checksum
  import opened Ring
  import opened Sequences

  const RING_SIZE := 256

  /** The line as an observer sees it: bytes written to the data register, bytes still in the ring, and the
      transmit-interrupt enable with the flag that mirrors it. */
  datatype Line = Line(out: seq<Byte>, queued: seq<Byte>, enabled: bool, flag: bool)

  type World = nat -> seq<bool>

  /** One transmit interrupt: it runs only while enabled and acts only when the data register is ready. */
  function Fired(l: Line, ready: bool): Line {
    if !l.enabled || !ready then l
    else if l.queued == [] then l.(enabled := false, flag := false)
    else l.(out := l.out + [l.queued[0]], queued := l.queued[1..])
  }

  function FiredAll(l: Line, readys: seq<bool>): Line {
    if readys == [] then l else Fired(FiredAll(l, readys[..|readys| - 1]), readys[|readys| - 1])
  }

  /** The foreground is not inside a transmission: the flag tells the truth and nobody waits for a wake-up. */
  predicate Settled(l: Line) {
    l.flag == l.enabled && (l.queued != [] ==> l.enabled)
  }

  /** What any number of interrupts do: move a run of bytes from the ring to the data register, and switch
      the interrupt off only once the ring is empty. */
  predicate Moved(l: Line, m: Line) {
    && |m.queued| <= |l.queued|
    && m.queued == l.queued[|l.queued| - |m.queued|..]
    && m.out == l.out + l.queued[..|l.queued| - |m.queued|]
    && (if l.enabled then m.enabled || (m.queued == [] && !m.flag) else m == l)
    && (m.enabled ==> m.flag == l.flag)
  }

  lemma {:induction false} InterruptsMove(l: Line, readys: seq<bool>)
    ensures Moved(l, FiredAll(l, readys))
    ensures Settled(l) ==> Settled(FiredAll(l, readys))
    decreases |readys|
  {
    if readys == [] {
      assert l.queued[..0] == [];
    } else {
      InterruptsMove(l, readys[..|readys| - 1]);
      var m := FiredAll(l, readys[..|readys| - 1]);
      var k := |l.queued| - |m.queued|;
      if m.enabled && readys[|readys| - 1] && m.queued != [] {
        assert l.queued[..k + 1] == l.queued[..k] + [l.queued[k]];
        assert l.out + l.queued[..k] + [l.queued[k]] == l.out + l.queued[..k + 1];
      }
    }
  }

  /** Everything sent or queued is what was before followed by `data`, and nothing sent is taken back. */
  predicate Carried(l: Line, m: Line, data: seq<Byte>) {
    m.out + m.queued == l.out + l.queued + data && l.out <= m.out
  }

  lemma Unlost(l: Line, m: Line)
    requires Moved(l, m)
    ensures Carried(l, m, []) && m.out + m.queued == l.out + l.queued
  {
    CutAndJoin(l.out, l.queued, |l.queued| - |m.queued|);
  }

  lemma CutAndJoin(a: seq<Byte>, q: seq<Byte>, k: nat)
    requires k <= |q|
    ensures a + q[..k] + q[k..] == a + q == a + q + []
  {
    assert q == q[..k] + q[k..];
  }

  lemma CarriedOn(l: Line, k: Line, m: Line, data: seq<Byte>, b: Byte)
    requires Carried(l, k, data) && Carried(k, m, [b])
    ensures Carried(l, m, data + [b])
  {
    assert l.out + l.queued + data + [b] == l.out + l.queued + (data + [b]);
    PrefixTrans(l.out, k.out, m.out);
  }

  lemma CarriedAfter(l: Line, k: Line, m: Line, data: seq<Byte>)
    requires Carried(l, k, []) && Carried(k, m, data)
    ensures Carried(l, m, data)
  {
    assert l.out + l.queued + [] == l.out + l.queued;
    PrefixTrans(l.out, k.out, m.out);
  }

  lemma CarriedThen(l: Line, k: Line, m: Line, data: seq<Byte>)
    requires Carried(l, k, data) && Carried(k, m, [])
    ensures Carried(l, m, data)
  {
    assert k.out + k.queued + [] == k.out + k.queued;
    PrefixTrans(l.out, k.out, m.out);
  }

  /** The lines seen before, between and after any number of calls and runs of interrupts, and what each of
      those accepted. */
  ghost predicate History(lines: seq<Line>, blocks: seq<seq<Byte>>) {
    |lines| == |blocks| + 1 && forall i :: 0 <= i < |blocks| ==> Carried(lines[i], lines[i + 1], blocks[i])
  }

  function Accepted(blocks: seq<seq<Byte>>): seq<Byte> {
    if blocks == [] then [] else Accepted(blocks[..|blocks| - 1]) + blocks[|blocks| - 1]
  }

  /** Over any sequence of calls, under any interrupts within and between them, what has been written to the
      data register, followed by what is still queued, is everything accepted so far, in order. */
  lemma {:induction false} SentIsPrefixOfAccepted(lines: seq<Line>, blocks: seq<seq<Byte>>)
    requires History(lines, blocks) && lines[0].out == lines[0].queued == []
    ensures var l := lines[|blocks|]; l.out + l.queued == Accepted(blocks) && l.out <= Accepted(blocks)
    decreases |blocks|
  {
    if blocks != [] {
      var n := |blocks| - 1;
      SentIsPrefixOfAccepted(lines[..n + 1], blocks[..n]);
      assert Carried(lines[n], lines[n + 1], blocks[n]);
    }
  }

  function Ready(readys: seq<bool>): nat {
    if readys == [] then 0 else Ready(readys[..|readys| - 1]) + if readys[|readys| - 1] then 1 else 0
  }

  /** No lost wake-up: once the foreground has left, as many ready interrupts as there are queued bytes send
      them all, in order, and one more switches the interrupt off. */
  lemma {:induction false} EverythingIsSent(l: Line, readys: seq<bool>)
    requires Settled(l)
    ensures var m := FiredAll(l, readys); var n := Ready(readys);
            && |m.queued| == (if n <= |l.queued| then |l.queued| - n else 0)
            && (n >= |l.queued| ==> m.out == l.out + l.queued)
            && (n > |l.queued| ==> !m.enabled && !m.flag)
    decreases |readys|
  {
    InterruptsMove(l, readys);
    if readys != [] {
      EverythingIsSent(l, readys[..|readys| - 1]);
      InterruptsMove(l, readys[..|readys| - 1]);
    }
    assert l.queued[..|l.queued|] == l.queued;
  }

  /** Bytes in the ring from `head` up to `tail`. */
  function Count(head: nat, tail: nat): nat
    requires head < RING_SIZE && tail < RING_SIZE
  {
    if tail >= head then tail - head else RING_SIZE - (head - tail)
  }

  class UartBridge {
    const ring: array<Byte>
    var head: nat
    var tail: nat
    var flag: bool
    /** TXEIE in CR1. */
    var enabled: bool
    /** Bytes written to the data register so far, and bytes accepted. */
    var out: seq<Byte>
    ghost var accepted: seq<Byte>

    ghost predicate Valid()
      reads this
    {
      ring.Length == RING_SIZE && head < RING_SIZE && tail < RING_SIZE
    }

    ghost function Queued(): (q: seq<Byte>)
      requires Valid()
      reads this, ring
      ensures |q| == Count(head, tail)
      ensures forall i :: 0 <= i < |q| ==> q[i] == ring[At(head, i, RING_SIZE)]
    {
      seq(Count(head, tail), i requires Valid() && 0 <= i < Count(head, tail) reads this, ring =>
        ring[At(head, i, RING_SIZE)])
    }

    ghost function View(): Line
      requires Valid()
      reads this, ring
    {
      Line(out, Queued(), enabled, flag)
    }

    /** Every byte accepted so far is sent or queued, in order. */
    ghost predicate Conserved()
      requires Valid()
      reads this, ring
    {
      View().out + View().queued == accepted
    }

    constructor ()
      ensures Valid() && fresh(ring) && View() == Line([], [], false, false) && Conserved() && accepted == []
    {
      ring := new Byte[RING_SIZE](_ => 0);
      head, tail, flag, enabled, out, accepted := 0, 0, false, false, [], [];
    }

    method Interrupt(ready: bool)
      requires Valid()
      modifies this`head, this`out, this`enabled, this`flag
      ensures Valid() && View() == Fired(old(View()), ready)
    {
      if !enabled {
        return;
      }
      if !ready {
        return;
      }
      if head != tail {
        assert Queued()[0] == ring[head];
        out := out + [ring[head]];
        head := At(head, 1, RING_SIZE);
        assert Queued() == old(Queued())[1..];
      } else {
        enabled := false;
        flag := false;
      }
    }

    method Interrupts(readys: seq<bool>)
      requires Valid()
      modifies this`head, this`out, this`enabled, this`flag
      ensures Valid() && View() == FiredAll(old(View()), readys)
      ensures Moved(old(View()), View()) && (Settled(old(View())) ==> Settled(View()))
      ensures old(Conserved()) ==> Conserved()
    {
      ghost var l := View();
      for i := 0 to |readys|
        invariant Valid() && View() == FiredAll(l, readys[..i])
      {
        Interrupt(readys[i]);
        assert readys[..i + 1][..i] == readys[..i];
      }
      assert readys[..|readys|] == readys;
      InterruptsMove(l, readys);
      Unlost(l, View());
    }

    /** Free room, one slot being kept to tell full from empty. Interrupts between the two reads can only
        add to it. */
    method TxBytesAvailable(world: World, n: nat) returns (room: nat)
      requires Valid()
      modifies this`head, this`out, this`enabled, this`flag
      ensures Valid() && Moved(old(View()), View()) && (Settled(old(View())) ==> Settled(View()))
      ensures old(Conserved()) ==> Conserved()
      ensures 255 - |old(View()).queued| <= room <= 255 - |View().queued|
    {
      var h := head;
      Interrupts(world(n));
      var t := tail;
      if t >= h {
        return RING_SIZE - (t - h) - 1;
      }
      return h - t - 1;
    }

    method PutByte(b: Byte)
      requires Valid() && |View().queued| < RING_SIZE - 1
      modifies ring
      ensures Valid() && View() == old(View())
      ensures ring[tail] == b
    {
      ring[tail] := b;
      assert Queued() == old(Queued());
    }

    method Advance()
      requires Valid() && |View().queued| < RING_SIZE - 1
      modifies this`tail
      ensures Valid() && View() == old(View()).(queued := old(View()).queued + [ring[old(tail)]])
    {
      tail := At(tail, 1, RING_SIZE);
      assert Queued() == old(Queued()) + [ring[old(tail)]];
    }

    /** One byte into the ring, with interrupts after each of its two writes. */
    method Append(b: Byte, world: World, n: nat)
      requires Valid() && View().flag == View().enabled && |View().queued| < RING_SIZE - 1
      modifies this`head, this`tail, this`out, this`enabled, this`flag, ring
      ensures Valid() && View().flag == View().enabled
      ensures Carried(old(View()), View(), [b]) && |View().queued| <= |old(View()).queued| + 1
    {
      ghost var l := View();
      PutByte(b);
      Interrupts(world(n));
      ghost var m := View();
      Unlost(l, m);
      Advance();
      ghost var k := View();
      assert k.out + k.queued == m.out + m.queued + [b];
      Interrupts(world(n + 1));
      Unlost(k, View());
      CarriedAfter(l, m, k, [b]);
      CarriedThen(l, k, View(), [b]);
    }

    method AppendAll(data: seq<Byte>, world: World, n: nat)
      requires Valid() && View().flag == View().enabled && |View().queued| + |data| < RING_SIZE
      modifies this`head, this`tail, this`out, this`enabled, this`flag, ring
      ensures Valid() && View().flag == View().enabled
      ensures Carried(old(View()), View(), data)
    {
      ghost var l := View();
      assert l.queued + [] == l.queued;
      for i := 0 to |data|
        invariant Valid() && View().flag == View().enabled
        invariant Carried(l, View(), data[..i]) && |View().queued| + (|data| - i) < RING_SIZE
      {
        ghost var k := View();
        Append(data[i], world, n + 2 * i);
        CarriedOn(l, k, View(), data[..i], data[i]);
        assert data[..i] + [data[i]] == data[..i + 1];
      }
      assert data[..|data|] == data;
    }

    /** Copies `data` into the ring if it fits now, and never waits. Whatever interrupts run in between, what
        has been and will be sent is exactly what was accepted, in order; a refused block leaves no trace; and
        when it returns a non-empty ring has its interrupt enabled. */
    method Tx(data: seq<Byte>, world: World) returns (ok: bool)
      requires Valid() && Settled(View())
      modifies this`head, this`tail, this`out, this`enabled, this`flag, this`accepted, ring
      ensures Valid() && Settled(View())
      ensures Carried(old(View()), View(), if ok then data else [])
      ensures accepted == old(accepted) + (if ok then data else []) && (old(Conserved()) ==> Conserved())
      ensures ok ==> |data| < 256
      ensures |data| + |old(View()).queued| < 256 ==> ok
    {
      ghost var l := View();
      ok := Place(data, world);
      ghost var taken := if ok then data else [];
      accepted := accepted + taken;
      assert l.out + l.queued + taken == View().out + View().queued;
    }

    method Place(data: seq<Byte>, world: World) returns (ok: bool)
      requires Valid() && Settled(View())
      modifies this`head, this`tail, this`out, this`enabled, this`flag, ring
      ensures Valid() && Settled(View())
      ensures Carried(old(View()), View(), if ok then data else [])
      ensures ok ==> |data| < 256
      ensures |data| + |old(View()).queued| < 256 ==> ok
    {
      ghost var l := View();
      if |data| >= RING_SIZE {
        assert l.out + l.queued + [] == l.out + l.queued;
        return false;
      }
      var room := TxBytesAvailable(world, 0);
      ghost var m := View();
      Unlost(l, m);
      Interrupts(world(1));
      ghost var k := View();
      Unlost(m, k);
      CarriedAfter(l, m, k, []);
      if |data| > room {
        return false;
      }
      AppendAll(data, world, 2);
      ghost var a := View();
      CarriedAfter(l, k, a, data);
      Wake(world, 2 + 2 * |data|);
      CarriedThen(l, a, View(), data);
      ok := true;
    }

    /** Switches the transmit interrupt on if the flag says it is off. */
    method Wake(world: World, n: nat)
      requires Valid() && View().flag == View().enabled
      modifies this`head, this`out, this`enabled, this`flag
      ensures Valid() && Settled(View())
      ensures Carried(old(View()), View(), [])
    {
      ghost var l := View();
      var on := flag;
      Interrupts(world(n));
      Unlost(l, View());
      if !on {
        flag := true;
        Interrupts(world(n + 1));
        enabled := true;
      }
    }
  }
}
