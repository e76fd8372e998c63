/** The idempotency ledger: for each principal, a ring holding the admission outcomes stored last. */
module Ledger {
  import opened Ring

  const DEPTH := 8
  const PRINCIPALS := 16

  /** `kind` is 0 for an accepted request, whose `outcome` is the operation id, and 1 for a rejected one,
      whose `outcome` is the rejection code. */
  datatype Entry = Entry(requestId: nat, fingerprint: seq<bool>, outcome: nat, kind: nat)

  datatype Slot = Slot(epoch: nat, entry: Entry)

  datatype Lookup = Miss | SameResult(entry: Entry) | Conflict

  /** What the ledger remembers of each principal, oldest first. */
  type Memory = m: seq<seq<Slot>> | |m| == PRINCIPALS witness seq(PRINCIPALS, _ => [])

  predicate HasKey(s: Slot, epoch: nat, requestId: nat) {
    s.epoch == epoch && s.entry.requestId == requestId
  }

  function FirstWithKey(ring: seq<Slot>, epoch: nat, requestId: nat): (r: nat)
    ensures r <= |ring|
    ensures forall i :: 0 <= i < r ==> !HasKey(ring[i], epoch, requestId)
    ensures r < |ring| ==> HasKey(ring[r], epoch, requestId)
  {
    if ring == [] then 0
    else if HasKey(ring[0], epoch, requestId) then 0
    else 1 + FirstWithKey(ring[1..], epoch, requestId)
  }

  function Answer(ring: seq<Slot>, epoch: nat, requestId: nat, fp: seq<bool>): Lookup {
    var i := FirstWithKey(ring, epoch, requestId);
    if i == |ring| then Miss
    else if ring[i].entry.fingerprint == fp then SameResult(ring[i].entry)
    else Conflict
  }

  function LookupIn(m: Memory, epoch: nat, authority: nat, requestId: nat, fp: seq<bool>): Lookup {
    if authority >= PRINCIPALS then Miss else Answer(m[authority], epoch, requestId, fp)
  }

  function Newest<T>(s: seq<T>, n: nat): (r: seq<T>)
    ensures |r| == if |s| <= n then |s| else n
  {
    if |s| <= n then s else s[|s| - n..]
  }

  lemma NewestOfFull<T>(s: seq<T>, x: T)
    requires |s| <= DEPTH
    ensures Newest(s + [x], DEPTH) == if |s| == DEPTH then s[1..] + [x] else s + [x]
  {
  }

  function StoreIn(m: Memory, epoch: nat, authority: nat, e: Entry): Memory {
    if authority >= PRINCIPALS then m
    else m[authority := Newest(m[authority] + [Slot(epoch, e)], DEPTH)]
  }

  // ---------------------------------------------------------------- what is remembered over a run

  datatype Put = Put(epoch: nat, authority: nat, entry: Entry)

  function StoreAll(m: Memory, puts: seq<Put>): Memory {
    if puts == [] then m
    else
      var p := puts[|puts| - 1];
      StoreIn(StoreAll(m, puts[..|puts| - 1]), p.epoch, p.authority, p.entry)
  }

  /** Everything stored for one principal, oldest first. */
  function StoredFor(puts: seq<Put>, authority: nat): seq<Slot> {
    if puts == [] then []
    else
      var p := puts[|puts| - 1];
      StoredFor(puts[..|puts| - 1], authority) + if p.authority == authority then [Slot(p.epoch, p.entry)] else []
  }

  lemma NewestAppend<T>(s: seq<T>, x: T, n: nat)
    requires n > 0
    ensures Newest(Newest(s, n) + [x], n) == Newest(s + [x], n)
  {
  }

  /** Whatever the order of stores, each principal's ring is the last eight of its own stores. */
  lemma {:induction false} RemembersNewestEight(m: Memory, puts: seq<Put>, authority: nat)
    requires authority < 16 && m[authority] == []
    ensures StoreAll(m, puts)[authority] == Newest(StoredFor(puts, authority), 8)
    decreases |puts|
  {
    if puts != [] {
      var n := |puts| - 1;
      RemembersNewestEight(m, puts[..n], authority);
      if puts[n].authority == authority {
        NewestAppend(StoredFor(puts[..n], authority), Slot(puts[n].epoch, puts[n].entry), DEPTH);
      } else {
        assert StoredFor(puts, authority) == StoredFor(puts[..n], authority);
      }
    }
  }

  // ---------------------------------------------------------------- the rings

  class IdempotencyLedger {
    const rings: array2<Slot>
    const heads: array<nat>
    const counts: array<nat>

    ghost predicate Valid()
      reads heads, counts
    {
      && rings.Length0 == PRINCIPALS && rings.Length1 == DEPTH
      && heads.Length == PRINCIPALS && counts.Length == PRINCIPALS && heads != counts
      && forall a :: 0 <= a < PRINCIPALS ==> heads[a] < DEPTH && counts[a] <= DEPTH
    }

    ghost function Ring(a: nat): (s: seq<Slot>)
      requires Valid() && a < PRINCIPALS
      reads rings, heads, counts
      ensures |s| == counts[a]
      ensures forall i :: 0 <= i < |s| ==> s[i] == rings[a, At(heads[a], i, DEPTH)]
    {
      seq(counts[a], i requires 0 <= i < counts[a] && Valid() reads rings, heads, counts =>
        rings[a, At(heads[a], i, DEPTH)])
    }

    ghost function View(): (m: Memory)
      requires Valid()
      reads rings, heads, counts
      ensures forall a :: 0 <= a < PRINCIPALS ==> m[a] == Ring(a)
    {
      seq(PRINCIPALS, a requires 0 <= a < PRINCIPALS && Valid() reads rings, heads, counts => Ring(a))
    }

    constructor ()
      ensures Valid() && fresh(rings) && fresh(heads) && fresh(counts)
      ensures View() == seq(PRINCIPALS, _ => [])
    {
      rings := new Slot[PRINCIPALS, DEPTH]((_, _) => Slot(0, Entry(0, [], 0, 0)));
      heads := new nat[PRINCIPALS](_ => 0);
      counts := new nat[PRINCIPALS](_ => 0);
      new;
      assert forall a :: 0 <= a < PRINCIPALS ==> Ring(a) == [];
    }

    method Find(epoch: nat, authority: nat, requestId: nat, fp: seq<bool>) returns (r: Lookup)
      requires Valid()
      ensures r == LookupIn(View(), epoch, authority, requestId, fp)
    {
      if authority >= PRINCIPALS {
        return Miss;
      }
      ghost var ring := Ring(authority);
      assert View()[authority] == ring;
      for i := 0 to counts[authority]
        invariant forall j :: 0 <= j < i ==> !HasKey(ring[j], epoch, requestId)
      {
        var s := rings[authority, At(heads[authority], i, DEPTH)];
        if s.epoch == epoch && s.entry.requestId == requestId {
          assert ring[i] == s;
          if s.entry.fingerprint == fp {
            return SameResult(s.entry);
          }
          return Conflict;
        }
      }
      return Miss;
    }

    method Store(epoch: nat, authority: nat, e: Entry)
      requires Valid()
      modifies rings, heads, counts
      ensures Valid() && View() == StoreIn(old(View()), epoch, authority, e)
    {
      if authority >= PRINCIPALS {
        return;
      }
      ghost var before := View();
      StoreRing(epoch, authority, e);
      forall a | 0 <= a < PRINCIPALS ensures View()[a] == StoreIn(before, epoch, authority, e)[a] {
        assert before[a] == old(Ring(a));
      }
    }

    method StoreRing(epoch: nat, authority: nat, e: Entry)
      requires Valid() && authority < PRINCIPALS
      modifies rings, heads, counts
      ensures Valid()
      ensures forall a :: 0 <= a < PRINCIPALS ==>
                Ring(a) == if a == authority then Newest(old(Ring(a)) + [Slot(epoch, e)], DEPTH) else old(Ring(a))
    {
      ghost var ring := Ring(authority);
      var tail := At(heads[authority], counts[authority], DEPTH);
      if counts[authority] >= DEPTH {
        heads[authority] := At(heads[authority], 1, DEPTH);
        var evicted := At(heads[authority], counts[authority] - 1, DEPTH);
        rings[authority, evicted] := Slot(epoch, e);
        assert evicted == tail;
        assert Ring(authority) == ring[1..] + [Slot(epoch, e)];
      } else {
        rings[authority, tail] := Slot(epoch, e);
        counts[authority] := counts[authority] + 1;
        assert Ring(authority) == ring + [Slot(epoch, e)];
      }
      assert Ring(authority) == Newest(ring + [Slot(epoch, e)], DEPTH) by {
        NewestOfFull(ring, Slot(epoch, e));
      }
      forall a | 0 <= a < PRINCIPALS && a != authority ensures Ring(a) == old(Ring(a)) {
      }
    }
  }
}
