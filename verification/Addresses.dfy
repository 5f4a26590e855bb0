/** The cyclic generator of local addresses and the probing loop that uses it
    (src/ls_proxy.cpp:114-130 and 139-159). */
module Addresses {
  import opened Base

  const FIRST_PORT: nat := 4100
  const LAST_PORT: nat := 65100
  const PORTS: nat := LAST_PORT - FIRST_PORT + 1
  const HOSTS: nat := 255
  const TOTAL: nat := HOSTS * PORTS

  /** 127.0.0.`host` and a port. */
  datatype Address = Address(host: nat, port: nat) {
    predicate Valid() {
      1 <= host <= HOSTS && FIRST_PORT <= port <= LAST_PORT
    }

    function Next(): Address {
      if port < LAST_PORT then Address(host, port + 1)
      else Address(if host == HOSTS then 1 else host + 1, FIRST_PORT)
    }

    function Index(): nat
      requires Valid()
    {
      (host - 1) * PORTS + (port - FIRST_PORT)
    }
  }

  // ------------------------------------------------------------- words and wire bytes

  /** `s_addr` as the machine sees it: network order read in the byte order of the host. */
  function Word(littleEndian: bool, host: nat): nat {
    if littleEndian then 0x0000007f + host * 0x100_0000 else 0x7f00_0000 + host
  }

  function HostOf(littleEndian: bool, word: nat): nat {
    if littleEndian then word / 0x100_0000 else word % 0x100
  }

  /** The four bytes in memory, which is what goes on the wire. */
  function Wire(littleEndian: bool, word: nat): seq<nat> {
    var low := [word % 0x100, word / 0x100 % 0x100, word / 0x1_0000 % 0x100, word / 0x100_0000 % 0x100];
    if littleEndian then low else [low[3], low[2], low[1], low[0]]
  }

  /** Little endian: 32-bit addition that jumps over host 0. */
  function AdvanceLittle(word: nat): nat {
    (word + (if word == 0xff00_007f then 0x200_0000 else 0x100_0000)) % 0x1_0000_0000
  }

  function AdvanceBig(word: nat): nat {
    if word == 0x7f00_00ff then 0x7f00_0001 else word + 1
  }

  lemma WordFacts(littleEndian: bool, host: nat)
    requires 1 <= host <= HOSTS
    ensures HostOf(littleEndian, Word(littleEndian, host)) == host
    ensures Word(littleEndian, host) < 0x1_0000_0000
    ensures Wire(littleEndian, Word(littleEndian, host)) == [127, 0, 0, host]
  {
    if littleEndian {
      var word := Word(true, host);
      assert word / 0x100 == host * 0x1_0000;
      assert word / 0x1_0000 == host * 0x100;
      assert (host * 0x1_0000) % 0x100 == 0 && (host * 0x100) % 0x100 == 0;
    } else {
      var word := Word(false, host);
      assert word / 0x100 == 0x7f_0000 && word / 0x1_0000 == 0x7f00 && word / 0x100_0000 == 0x7f;
    }
  }

  /** The modular addition and the explicit branch step from host to host alike: both put the same
      next address on the wire, and host 0 never appears. */
  lemma EndiansAgree(host: nat)
    requires 1 <= host <= HOSTS
    ensures var next := Address(host, LAST_PORT).Next().host;
            && 1 <= next <= HOSTS
            && AdvanceLittle(Word(true, host)) == Word(true, next)
            && AdvanceBig(Word(false, host)) == Word(false, next)
            && Wire(true, AdvanceLittle(Word(true, host))) == Wire(false, AdvanceBig(Word(false, host)))
  {
    WordFacts(true, host);
    WordFacts(true, Address(host, LAST_PORT).Next().host);
    WordFacts(false, Address(host, LAST_PORT).Next().host);
  }

  // ------------------------------------------------------------- the cycle

  /** The address after `k` calls. */
  function Nth(a: Address, k: nat): Address {
    if k == 0 then a else Nth(a, k - 1).Next()
  }

  lemma NextIndex(a: Address)
    requires a.Valid()
    ensures a.Next().Valid() && a.Index() < TOTAL
    ensures a.Next().Index() == if a.Index() == TOTAL - 1 then 0 else a.Index() + 1
  {
    assert (a.host - 1) * PORTS <= (HOSTS - 1) * PORTS;
    if a.port == LAST_PORT && a.host < HOSTS {
      assert a.host * PORTS == (a.host - 1) * PORTS + PORTS;
      assert a.host <= HOSTS - 1;
      assert a.host * PORTS <= (HOSTS - 1) * PORTS;
    }
  }

  lemma IndexInjective(a: Address, b: Address)
    requires a.Valid() && b.Valid() && a.Index() == b.Index()
    ensures a == b
  {
    assert a.host < b.host ==> (b.host - 1) * PORTS >= a.host * PORTS;
    assert b.host < a.host ==> (a.host - 1) * PORTS >= b.host * PORTS;
  }

  lemma {:induction false} NthIndex(a: Address, k: nat)
    requires a.Valid() && k <= TOTAL
    ensures Nth(a, k).Valid() && a.Index() < TOTAL
    ensures Nth(a, k).Index() == if a.Index() + k < TOTAL then a.Index() + k else a.Index() + k - TOTAL
    decreases k
  {
    NextIndex(a);
    if k > 0 {
      var m := k - 1;
      NthIndex(a, m);
      NextIndex(Nth(a, m));
    }
  }

  /** From any state, the next `TOTAL` calls give every address exactly once. */
  lemma FullCycle(a: Address, target: Address) returns (k: nat)
    requires a.Valid() && target.Valid()
    ensures 1 <= k <= TOTAL && Nth(a, k) == target
    ensures forall j :: 1 <= j <= TOTAL && Nth(a, j) == target ==> j == k
  {
    NextIndex(a);
    NextIndex(target);
    k := target.Index() - a.Index() + if target.Index() > a.Index() then 0 else TOTAL;
    NthIndex(a, k);
    IndexInjective(Nth(a, k), target);
    forall j | 1 <= j <= TOTAL && Nth(a, j) == target ensures j == k {
      NthIndex(a, j);
    }
  }

  /** No address comes twice within one cycle. */
  lemma NthDistinct(a: Address, i: nat, j: nat)
    requires a.Valid() && 1 <= i < j <= TOTAL
    ensures Nth(a, i) != Nth(a, j)
  {
    NthIndex(a, i);
    NthIndex(a, j);
  }

  /** After a whole cycle the generator is back where it was. */
  lemma CycleCloses(a: Address, k: nat)
    requires a.Valid() && k == TOTAL
    ensures Nth(a, k) == a
  {
    NthIndex(a, k);
    IndexInjective(Nth(a, k), a);
  }

  // ------------------------------------------------------------- the generator

  /** The static variables of `next_local_addr`. */
  class Generator {
    const littleEndian: bool
    var word: nat
    var port: nat

    ghost function Current(): Address
      reads this
    {
      Address(HostOf(littleEndian, word), port)
    }

    ghost predicate Valid()
      reads this
    {
      Current().Valid() && word == Word(littleEndian, Current().host)
    }

    constructor (littleEndian: bool)
      ensures Valid() && Current() == Address(1, FIRST_PORT)
    {
      this.littleEndian := littleEndian;
      word := if littleEndian then 0x0100_007f else 0x7f00_0001;
      port := FIRST_PORT;
    }

    method NextLocalAddr() returns (a: Address)
      requires Valid()
      modifies this
      ensures Valid() && a == Current() == old(Current()).Next()
      ensures Wire(littleEndian, word) == [127, 0, 0, a.host]
    {
      ghost var host := HostOf(littleEndian, word);
      WordFacts(littleEndian, host);
      EndiansAgree(host);
      WordFacts(littleEndian, Address(host, LAST_PORT).Next().host);
      port := port + 1;
      if port > LAST_PORT {
        port := FIRST_PORT;
        word := if littleEndian then AdvanceLittle(word) else AdvanceBig(word);
      }
      a := Address(HostOf(littleEndian, word), port);
    }

    /** The linear probing of `connect_TCP`; `busy` are the addresses `bind` refuses. It gives up only
        when every address is busy, having tried each exactly once, and otherwise takes the first free
        one in the generator's order. */
    method Probe(busy: set<Address>) returns (bound: Option<Address>, ghost tries: nat)
      requires Valid()
      modifies this
      ensures Valid() && 1 <= tries <= TOTAL && Current() == Nth(old(Current()), tries)
      ensures bound.None? <==> forall a: Address :: a.Valid() ==> a in busy
      ensures bound.None? ==> tries == TOTAL
      ensures bound.Some? ==> bound.value == Current() && bound.value !in busy
      ensures forall j :: 1 <= j < tries ==> Nth(old(Current()), j) in busy
      ensures forall i, j :: 1 <= i < j <= tries ==> Nth(old(Current()), i) != Nth(old(Current()), j)
    {
      ghost var start := Current();
      tries := 0;
      bound := None;
      var i := 0;
      while i < TOTAL
        invariant 0 <= i < TOTAL && tries == i && Valid() && Current() == Nth(start, i)
        invariant forall j :: 1 <= j <= i ==> Nth(start, j) in busy
        invariant bound.None?
      {
        var a := NextLocalAddr();
        tries := tries + 1;
        if a !in busy {
          bound := Some(a);
          assert a.Valid();
          break;
        }
        if i >= TOTAL - 1 {
          Exhausted(start, busy, tries);
          break;
        }
        i := i + 1;
      }
      forall i, j | 1 <= i < j <= tries ensures Nth(start, i) != Nth(start, j) {
        NthDistinct(start, i, j);
      }
    }
  }

  lemma Exhausted(start: Address, busy: set<Address>, n: nat)
    requires start.Valid() && n == TOTAL
    requires forall j :: 1 <= j <= n ==> Nth(start, j) in busy
    ensures forall a: Address :: a.Valid() ==> a in busy
  {
    forall a: Address | a.Valid() ensures a in busy {
      var k := FullCycle(start, a);
    }
  }
}
