/** Admission and the pool of history buffers: who owns which buffer, and how many there are
    (src/client.cpp:16-22, src/client.h:57-63, src/connection.h:17-22, src/connection.cpp:107-125). */
module Pooling {
  import opened Base
  import opened Hybrid

  /** `pooled` waits for reuse, oldest first; `held` gives the buffer of each connection that has one;
      `slow` are the open connections that left fast mode and own four descriptors of file buffers. */
  datatype Store<B(==)> = Store(pooled: seq<B>, held: map<nat, B>, open: set<nat>, slow: set<nat>) {
    ghost predicate InUse(b: B) {
      || (exists i :: 0 <= i < |pooled| && pooled[i] == b)
      || (exists k :: k in held && held[k] == b)
    }

    /** No buffer is pooled twice, held twice, or both pooled and held. */
    ghost predicate Owned() {
      && (forall i, j :: 0 <= i < j < |pooled| ==> pooled[i] != pooled[j])
      && (forall i, k :: 0 <= i < |pooled| && k in held ==> pooled[i] != held[k])
      && (forall k, l :: k in held && l in held && k != l ==> held[k] != held[l])
    }

    /** Every open connection holds its history or has gone slow, never both. */
    ghost predicate Partitioned() {
      Splits(held.Keys, slow, open)
    }

    ghost predicate Bounded() {
      && |open| <= MAX_CONNECTION
      && |pooled| <= MAX_HYBRID_POOL
      && |pooled| + |held| <= MAX_CONNECTION
    }

    ghost predicate Inv() {
      Owned() && Partitioned() && Bounded()
    }

    function Descriptors(): nat {
      |pooled| + |held| + 4 * |slow|
    }

    /** A full house turns the newcomer away; otherwise it takes the oldest pooled buffer, or `b`. */
    function Accept(conn: nat, b: B): Store<B> {
      if |open| >= MAX_CONNECTION then this
      else if pooled != [] then
        Store(pooled[1..], held[conn := pooled[0]], open + {conn}, slow)
      else
        Store(pooled, held[conn := b], open + {conn}, slow)
    }

    /** A buffer beyond the pool's bound is freed. */
    function Release(conn: nat): Store<B> {
      if conn !in held then this
      else this.(pooled := if |pooled| < MAX_HYBRID_POOL then pooled + [held[conn]] else pooled,
                 held := held - {conn})
    }

    /** The switch makes the four slow descriptors first ... */
    function Allocate(conn: nat): Store<B> {
      this.(slow := slow + {conn})
    }

    /** ... and gives the history back afterwards. */
    function Switch(conn: nat): Store<B> {
      if conn !in open || conn in slow then this else Allocate(conn).Release(conn)
    }

    function Close(conn: nat): Store<B> {
      Release(conn).(open := open - {conn}, slow := slow - {conn})
    }

    /** The most descriptors in use at any moment of a step. */
    function Peak(e: Event<B>): nat {
      match e
      case Accept(conn, b) => Accept(conn, b).Descriptors()
      case Switch(conn) => if conn !in open || conn in slow then Descriptors() else Allocate(conn).Descriptors()
      case Close(conn) => Descriptors()
    }

    ghost predicate Enabled(e: Event<B>) {
      e.Accept? ==> e.conn !in open && (pooled == [] ==> !InUse(e.b))
    }

    function Step(e: Event<B>): Store<B> {
      match e
      case Accept(conn, b) => Accept(conn, b)
      case Switch(conn) => Switch(conn)
      case Close(conn) => Close(conn)
    }
  }

  /** `b` is the buffer that would be made if the pool had none. */
  datatype Event<B> = Accept(conn: nat, b: B) | Switch(conn: nat) | Close(conn: nat)

  function Run<B>(start: Store<B>, events: seq<Event<B>>): Store<B> {
    if events == [] then start
    else Run(start, events[..|events| - 1]).Step(events[|events| - 1])
  }

  ghost predicate Feasible<B>(start: Store<B>, events: seq<Event<B>>) {
    events == [] ||
    (Feasible(start, events[..|events| - 1]) &&
     Run(start, events[..|events| - 1]).Enabled(events[|events| - 1]))
  }

  /** As set up by `main`: a full pool of distinct buffers and no connection. */
  ghost predicate Initial<B>(s: Store<B>) {
    && s == Store(s.pooled, map[], {}, {})
    && |s.pooled| == MAX_HYBRID_POOL
    && forall i, j :: 0 <= i < j < |s.pooled| ==> s.pooled[i] != s.pooled[j]
  }

  ghost predicate Splits(a: set<nat>, b: set<nat>, whole: set<nat>) {
    a + b == whole && a !! b
  }

  lemma SplitAdd(a: set<nat>, b: set<nat>, whole: set<nat>, x: nat)
    requires Splits(a, b, whole) && x !in whole
    ensures Splits(a + {x}, b, whole + {x}) && |a + {x}| == |a| + 1 && |whole + {x}| == |whole| + 1
  {
  }

  lemma SplitMove(a: set<nat>, b: set<nat>, whole: set<nat>, x: nat)
    requires Splits(a, b, whole) && x in whole && x !in b
    ensures Splits(a - {x}, b + {x}, whole) && x in a
  {
  }

  lemma SplitDrop(a: set<nat>, b: set<nat>, whole: set<nat>, x: nat)
    requires Splits(a, b, whole)
    ensures Splits(a - {x}, b - {x}, whole - {x}) && |whole - {x}| <= |whole|
  {
    if x !in whole {
      assert whole - {x} == whole;
    }
  }

  lemma HeldCount<B>(s: Store<B>)
    requires s.Partitioned()
    ensures |s.held| + |s.slow| == |s.open|
  {
    assert |s.held| == |s.held.Keys|;
  }

  lemma TakeOwned<B>(s: Store<B>, conn: nat)
    requires s.Owned() && s.pooled != [] && conn !in s.held
    ensures s.(pooled := s.pooled[1..], held := s.held[conn := s.pooled[0]]).Owned()
  {
    var t := s.(pooled := s.pooled[1..], held := s.held[conn := s.pooled[0]]);
    forall k, l | k in t.held && l in t.held && k != l ensures t.held[k] != t.held[l] {
      if k == conn {
        assert s.pooled[0] != s.held[l];
      } else if l == conn {
        assert s.pooled[0] != s.held[k];
      }
    }
  }

  lemma TakenElsewhere<B>(s: Store<B>)
    requires s.Owned() && s.pooled != []
    ensures forall i :: 0 <= i < |s.pooled[1..]| ==> s.pooled[1..][i] != s.pooled[0]
    ensures forall k :: k in s.held ==> s.held[k] != s.pooled[0]
  {
  }

  lemma MakeOwned<B>(s: Store<B>, conn: nat, b: B)
    requires s.Owned() && conn !in s.held && !s.InUse(b)
    ensures s.(held := s.held[conn := b]).Owned()
  {
    var t := s.(held := s.held[conn := b]);
  }

  lemma AcceptOwned<B>(s: Store<B>, conn: nat, b: B)
    requires s.Owned() && conn !in s.held && (s.pooled == [] ==> !s.InUse(b))
    ensures s.Accept(conn, b).Owned()
  {
    if s.pooled != [] {
      TakeOwned(s, conn);
    } else {
      MakeOwned(s, conn, b);
    }
  }

  lemma InsertCount<B>(m: map<nat, B>, k: nat, v: B)
    requires k !in m
    ensures m[k := v].Keys == m.Keys + {k} && |m[k := v]| == |m| + 1
  {
    assert m[k := v].Keys == m.Keys + {k};
    assert |m[k := v].Keys| == |m.Keys| + 1;
    assert |m[k := v]| == |m[k := v].Keys| && |m| == |m.Keys|;
  }

  lemma AcceptCounts<B>(s: Store<B>, conn: nat, b: B)
    requires s.Partitioned() && s.Bounded() && conn !in s.open
    ensures s.Accept(conn, b).Partitioned() && s.Accept(conn, b).Bounded()
  {
    if |s.open| < MAX_CONNECTION {
      HeldCount(s);
      SplitAdd(s.held.Keys, s.slow, s.open, conn);
      if s.pooled != [] {
        InsertCount(s.held, conn, s.pooled[0]);
        assert s.Accept(conn, b).Partitioned() && s.Accept(conn, b).Bounded();
      } else {
        InsertCount(s.held, conn, b);
        assert s.Accept(conn, b).Partitioned() && s.Accept(conn, b).Bounded();
      }
    }
  }

  lemma AcceptKeeps<B>(s: Store<B>, conn: nat, b: B)
    requires s.Inv() && conn !in s.open && (s.pooled == [] ==> !s.InUse(b))
    ensures s.Accept(conn, b).Inv() && conn !in s.held
  {
    assert conn !in s.held.Keys;
    AcceptOwned(s, conn, b);
    AcceptCounts(s, conn, b);
  }

  lemma ReleaseOwned<B>(s: Store<B>, conn: nat)
    requires s.Owned()
    ensures s.Release(conn).Owned()
  {
  }

  lemma ReleaseCounts<B>(s: Store<B>, conn: nat)
    requires s.Bounded()
    ensures s.Release(conn).Bounded() && s.Release(conn).held.Keys == s.held.Keys - {conn}
  {
    var t := s.Release(conn);
    if conn in s.held {
      assert t.held.Keys == s.held.Keys - {conn};
      assert |t.held| == |t.held.Keys| == |s.held.Keys| - 1;
    }
  }

  lemma SwitchKeeps<B>(s: Store<B>, conn: nat)
    requires s.Inv()
    ensures s.Switch(conn).Inv()
  {
    if conn in s.open && conn !in s.slow {
      SameBuffers(s, s.Allocate(conn));
      ReleaseOwned(s.Allocate(conn), conn);
      ReleaseCounts(s.Allocate(conn), conn);
      SplitMove(s.held.Keys, s.slow, s.open, conn);
    }
  }

  lemma SameBuffers<B>(s: Store<B>, t: Store<B>)
    requires s.pooled == t.pooled && s.held == t.held && s.Owned()
    ensures t.Owned()
  {
  }

  lemma SwitchHolds<B>(s: Store<B>, conn: nat)
    requires s.Partitioned() && conn in s.open
    ensures conn in s.held <==> conn !in s.slow
    ensures conn !in s.Switch(conn).held && conn in s.Switch(conn).slow
  {
    assert conn in s.held.Keys + s.slow;
  }

  lemma CloseKeeps<B>(s: Store<B>, conn: nat)
    requires s.Inv()
    ensures s.Close(conn).Inv()
  {
    ReleaseOwned(s, conn);
    ReleaseCounts(s, conn);
    SplitDrop(s.held.Keys, s.slow, s.open, conn);
    SameBuffers(s.Release(conn), s.Close(conn));
    assert s.Close(conn).Bounded();
  }

  lemma StepKeeps<B>(s: Store<B>, e: Event<B>)
    requires s.Inv() && s.Enabled(e)
    ensures s.Step(e).Inv()
  {
    match e
    case Accept(conn, b) => AcceptKeeps(s, conn, b);
    case Switch(conn) => SwitchKeeps(s, conn);
    case Close(conn) => CloseKeeps(s, conn);
  }

  /** Ownership and bounds over every run of accepts, switches and closes. */
  lemma {:induction false} PoolOwnership<B>(start: Store<B>, events: seq<Event<B>>)
    requires Initial(start) && Feasible(start, events)
    ensures Run(start, events).Inv()
  {
    if events != [] {
      PoolOwnership(start, events[..|events| - 1]);
      StepKeeps(Run(start, events[..|events| - 1]), events[|events| - 1]);
    }
  }

  /** The documented budget is five descriptors a connection (one history, four slow buffers). Since a
      connection never has both, four and a quarter suffice. */
  lemma DescriptorBound<B>(start: Store<B>, events: seq<Event<B>>)
    requires Initial(start) && Feasible(start, events)
    ensures Run(start, events).Descriptors() <= 4 * MAX_CONNECTION + MAX_HYBRID_POOL <= 5 * MAX_CONNECTION
  {
    PoolOwnership(start, events);
    HeldCount(Run(start, events));
  }

  lemma PeakIsHighest<B>(s: Store<B>, e: Event<B>)
    requires s.Inv() && s.Enabled(e)
    ensures s.Descriptors() <= s.Peak(e) && s.Step(e).Descriptors() <= s.Peak(e)
  {
    assert e.Accept? ==> e.conn !in s.held.Keys;
    match e
    case Accept(conn, b) => AcceptDescriptors(s, conn, b);
    case Switch(conn) => ReleaseDescriptors(s.Allocate(conn), conn);
    case Close(conn) =>
      ReleaseDescriptors(s, conn);
      SplitDrop(s.held.Keys, s.slow, s.open, conn);
      SubsetCount(s.slow - {conn}, s.slow);
  }

  lemma AcceptDescriptors<B>(s: Store<B>, conn: nat, b: B)
    requires conn !in s.held
    ensures s.Descriptors() <= s.Accept(conn, b).Descriptors()
  {
    if |s.open| < MAX_CONNECTION {
      if s.pooled != [] {
        InsertCount(s.held, conn, s.pooled[0]);
      } else {
        InsertCount(s.held, conn, b);
      }
    }
  }

  lemma SubsetCount(a: set<nat>, b: set<nat>)
    requires a <= b
    ensures |a| <= |b|
  {
    assert b == a + (b - a);
  }

  lemma ReleaseDescriptors<B>(s: Store<B>, conn: nat)
    ensures |s.Release(conn).pooled| + |s.Release(conn).held| <= |s.pooled| + |s.held|
  {
    var t := s.Release(conn);
    if conn in s.held {
      assert t.held.Keys == s.held.Keys - {conn};
      assert |t.held| == |t.held.Keys| == |s.held.Keys| - 1;
    }
  }

  /** Within a step one more may be in use: a switching connection has its slow buffers and still its
      history. */
  lemma PeakBound<B>(start: Store<B>, events: seq<Event<B>>, e: Event<B>)
    requires Initial(start) && Feasible(start, events) && Run(start, events).Enabled(e)
    ensures Run(start, events).Peak(e) <= 4 * MAX_CONNECTION + MAX_HYBRID_POOL + 1 <= 5 * MAX_CONNECTION
  {
    var s := Run(start, events);
    PoolOwnership(start, events);
    HeldCount(s);
    match e
    case Accept(conn, b) =>
      AcceptKeeps(s, conn, b);
      HeldCount(s.Accept(conn, b));
    case Switch(conn) =>
      if conn in s.open && conn !in s.slow {
        assert conn in s.held.Keys;
        assert |s.held| >= 1;
        assert |s.Allocate(conn).slow| == |s.slow| + 1;
      }
    case Close(conn) =>
  }

  // ------------------------------------------------------------- the bounds are reached

  function Full(): Store<int> {
    Store(seq(MAX_HYBRID_POOL, i => i), map[], {}, {})
  }

  ghost predicate Leads<B>(start: Store<B>, events: seq<Event<B>>, s: Store<B>) {
    Feasible(start, events) && Run(start, events) == s
  }

  ghost predicate Reachable<B(!new)>(start: Store<B>, s: Store<B>) {
    exists events :: Leads(start, events, s)
  }

  lemma ReachableStart<B(!new)>(start: Store<B>)
    ensures Reachable(start, start)
  {
    assert Leads(start, [], start);
  }

  lemma ReachableStep<B(!new)>(start: Store<B>, s: Store<B>, e: Event<B>)
    requires Reachable(start, s) && s.Enabled(e)
    ensures Reachable(start, s.Step(e))
  {
    var events :| Leads(start, events, s);
    assert (events + [e])[..|events|] == events;
    assert Leads(start, events + [e], s.Step(e));
  }

  lemma ReachableInv<B(!new)>(start: Store<B>, s: Store<B>)
    requires Initial(start) && Reachable(start, s)
    ensures s.Inv()
  {
    var events :| Leads(start, events, s);
    PoolOwnership(start, events);
  }

  function Below(n: nat): set<nat> {
    if n == 0 then {} else Below(n - 1) + {n - 1}
  }

  lemma {:induction false} BelowCount(n: nat)
    ensures |Below(n)| == n && forall i: nat :: i in Below(n) <==> i < n
  {
    if n > 0 {
      var m := n - 1;
      BelowCount(m);
      assert Below(n) == Below(m) + {m};
    }
  }

  /** No buffer numbered `n` or more is in use. */
  ghost predicate Numbered(s: Store<int>, n: int) {
    && (forall i :: 0 <= i < |s.pooled| ==> s.pooled[i] < n)
    && (forall k :: k in s.held ==> s.held[k] < n)
  }

  lemma AcceptNumbered(s: Store<int>, conn: nat, n: int)
    requires Numbered(s, n)
    ensures !s.InUse(n) && Numbered(s.Accept(conn, n), n + 1)
  {
  }

  lemma {:induction false} Arrivals(start: Store<int>, n: nat) returns (s: Store<int>)
    requires n <= MAX_CONNECTION && Crowded(start, 0)
    ensures Reachable(start, s) && Crowded(s, n)
    decreases n
  {
    s := start;
    if n == 0 {
      ReachableStart(start);
    } else {
      var m := n - 1;
      s := Arrivals(start, m);
      s := Arrival(start, s, m);
      assert n == m + 1;
    }
  }

  lemma Arrival(start: Store<int>, s: Store<int>, n: nat) returns (t: Store<int>)
    requires n < MAX_CONNECTION && Reachable(start, s) && Crowded(s, n)
    ensures Reachable(start, t) && Crowded(t, n + 1)
  {
    ArrivalCrowds(s, n);
    var e := Event<int>.Accept(n, MAX_HYBRID_POOL + n);
    ReachableStep(start, s, e);
    t := s.Step(e);
  }

  ghost predicate Crowded(s: Store<int>, n: nat) {
    && s.open == Below(n) && s.slow == {} && Numbered(s, MAX_HYBRID_POOL + n)
    && |s.pooled| == MAX_HYBRID_POOL - Min(n, MAX_HYBRID_POOL)
  }

  lemma ArrivalCrowds(s: Store<int>, n: nat)
    requires Crowded(s, n) && n < MAX_CONNECTION
    ensures s.Enabled(Event.Accept(n, MAX_HYBRID_POOL + n))
    ensures Crowded(s.Accept(n, MAX_HYBRID_POOL + n), n + 1)
  {
    BelowCount(n);
    AcceptNumbered(s, n, MAX_HYBRID_POOL + n);
  }

  ghost predicate Demoted(s: Store<int>, all: nat, n: nat) {
    s.open == Below(all) && s.slow == Below(n) && |s.pooled| == Min(n, MAX_HYBRID_POOL)
  }

  lemma SwitchDemotes(s: Store<int>, all: nat, n: nat)
    requires s.Inv() && Demoted(s, all, n) && n < all
    ensures Demoted(s.Switch(n), all, n + 1)
  {
    BelowCount(n);
    BelowCount(all);
    assert n in s.held.Keys;
  }

  lemma Departure(start: Store<int>, s: Store<int>, all: nat, n: nat) returns (t: Store<int>)
    requires Initial(start) && Reachable(start, s) && Demoted(s, all, n) && n < all
    ensures Reachable(start, t) && Demoted(t, all, n + 1)
  {
    ReachableInv(start, s);
    t := s.Switch(n);
    SwitchDemotes(s, all, n);
    ReachableStep(start, s, Event<int>.Switch(n));
  }

  /** The connections from `n` up to `upto` go slow. */
  lemma {:induction false} Departures(start: Store<int>, s: Store<int>, all: nat, n: nat, upto: nat)
    returns (t: Store<int>)
    requires Initial(start) && Reachable(start, s) && Demoted(s, all, n) && n <= upto <= all
    ensures Reachable(start, t) && Demoted(t, all, upto)
    decreases upto - n
  {
    t := s;
    if n < upto {
      var m := n + 1;
      t := Departure(start, s, all, n);
      assert Demoted(t, all, m);
      t := Departures(start, t, all, m, upto);
    }
  }

  /** Filling the house and demoting everybody needs every descriptor of the bound. */
  lemma DescriptorBoundIsTight(all: nat) returns (s: Store<int>)
    requires all == MAX_CONNECTION
    ensures Initial(Full()) && Reachable(Full(), s)
    ensures s.Descriptors() == 4 * MAX_CONNECTION + MAX_HYBRID_POOL
  {
    s := Arrivals(Full(), all);
    s := Departures(Full(), s, all, 0, all);
    BelowCount(all);
    ReachableInv(Full(), s);
    HeldCount(s);
  }

  /** The last of them to go slow needs one more while it does. */
  lemma PeakBoundIsTight(all: nat) returns (s: Store<int>)
    requires all == MAX_CONNECTION
    ensures Initial(Full()) && Reachable(Full(), s) && s.Enabled(Event<int>.Switch(all - 1))
    ensures s.Peak(Event<int>.Switch(all - 1)) == 4 * MAX_CONNECTION + MAX_HYBRID_POOL + 1
  {
    s := Arrivals(Full(), all);
    s := Departures(Full(), s, all, 0, all - 1);
    ReachableInv(Full(), s);
    PeakOfLast(s, all);
  }

  lemma PeakOfLast(s: Store<int>, all: nat)
    requires all == MAX_CONNECTION && s.Inv() && Demoted(s, all, all - 1)
    ensures s.Peak(Event<int>.Switch(all - 1)) == 4 * MAX_CONNECTION + MAX_HYBRID_POOL + 1
  {
    BelowCount(all);
    BelowCount(all - 1);
    HeldCount(s);
    assert |s.Allocate(all - 1).slow| == |s.slow| + 1;
  }

  // ------------------------------------------------------------- the buffers themselves

  /** Pooled buffers are empty, held ones ready for appending. */
  ghost predicate Sound(pool: seq<Hybridbuf>, history: map<nat, Hybridbuf>)
    reads pool, history.Values
    reads set b <- pool :: b.mem
    reads set b <- history.Values :: b.mem
  {
    && (forall i :: 0 <= i < |pool| ==> pool[i].Valid() && pool[i].contents == [])
    && (forall k :: k in history ==> history[k].Appending())
  }

  lemma SoundWithout(pool: seq<Hybridbuf>, history: map<nat, Hybridbuf>, conn: nat)
    requires Sound(pool, history)
    ensures Sound(pool, history - {conn})
  {
  }

  lemma SoundRest(pool: seq<Hybridbuf>, history: map<nat, Hybridbuf>)
    requires Sound(pool, history) && |pool| > 0
    ensures Sound(pool[1..], history)
  {
  }

  /** `hybridbuf_pool`, `connection_count` and the history pointers of all clients. */
  class Admission {
    var pool: seq<Hybridbuf>
    var history: map<nat, Hybridbuf>
    var connectionCount: nat
    ghost var open: set<nat>
    ghost var slow: set<nat>

    ghost function State(): Store<Hybridbuf>
      reads this
    {
      Store(pool, history, open, slow)
    }

    ghost predicate Valid()
      reads this, pool, history.Values
      reads set b <- pool :: b.mem
      reads set b <- history.Values :: b.mem
    {
      State().Inv() && connectionCount == |open| && Sound(pool, history)
    }

    /** `main` fills the pool. */
    constructor ()
      ensures Valid() && Initial(State())
    {
      var buffers := Allocate();
      pool, history, connectionCount, open, slow := buffers, map[], 0, {}, {};
    }

    static method Allocate() returns (buffers: seq<Hybridbuf>)
      ensures |buffers| == MAX_HYBRID_POOL && Sound(buffers, map[])
      ensures forall i, j :: 0 <= i < j < |buffers| ==> buffers[i] != buffers[j]
    {
      buffers := [];
      for n := 0 to MAX_HYBRID_POOL
        invariant |buffers| == n && Sound(buffers, map[])
        invariant forall i, j :: 0 <= i < j < |buffers| ==> buffers[i] != buffers[j]
      {
        var buf := new Hybridbuf(HIST_CACHE_SIZE, true);
        buffers := buffers + [buf];
      }
    }

    /** A new connection starts with an empty history, and nobody else's history changes. */
    method Accept(conn: nat) returns (accepted: bool)
      requires Valid() && conn !in open
      modifies this, if pool != [] then {pool[0]} else {}
      ensures Valid()
      ensures accepted <==> |old(open)| < MAX_CONNECTION
      ensures !accepted ==> State() == old(State())
      ensures accepted ==>
        && conn in history && history[conn].contents == []
        && State() == old(State()).Accept(conn, history[conn])
        && (if old(pool) != [] then history[conn] == old(pool)[0] else fresh(history[conn]))
    {
      accepted := connectionCount < MAX_CONNECTION;
      if accepted {
        if pool != [] {
          ClaimPooled(conn);
        } else {
          ClaimNew(conn);
        }
      }
    }

    method ClaimPooled(conn: nat)
      requires Valid() && pool != [] && conn !in open && |open| < MAX_CONNECTION
      modifies this, pool[0]
      ensures Valid() && State() == old(State()).Accept(conn, old(pool)[0])
      ensures conn in history && history[conn] == old(pool)[0] && history[conn].contents == []
    {
      ghost var t := State().Accept(conn, pool[0]);
      AcceptKeeps(State(), conn, pool[0]);
      SoundRest(pool, history);
      TakenElsewhere(State());
      var buf := pool[0];
      ClearApart(pool[1..], history, buf);
      Register(conn, buf, pool[1..]);
      assert State() == t;
    }

    static method ClearApart(rest: seq<Hybridbuf>, history: map<nat, Hybridbuf>, buf: Hybridbuf)
      requires Sound(rest, history) && buf.Valid()
      requires forall i :: 0 <= i < |rest| ==> rest[i] != buf
      requires forall k :: k in history ==> history[k] != buf
      modifies buf
      ensures Sound(rest, history) && Sound(rest + [buf], history)
      ensures buf.Appending() && buf.contents == []
    {
      buf.Clear();
    }

    method ClaimNew(conn: nat)
      requires Valid() && pool == [] && conn !in open && |open| < MAX_CONNECTION
      modifies this
      ensures conn in history && fresh(history[conn]) && history[conn].contents == []
      ensures Valid() && State() == old(State()).Accept(conn, history[conn])
    {
      ghost var s := State();
      var buf := new Hybridbuf(HIST_CACHE_SIZE, true);
      assert Sound(pool, history);
      assert State() == s && !s.InUse(buf);
      AcceptKeeps(s, conn, buf);
      Register(conn, buf, pool);
      assert State() == s.Accept(conn, buf);
    }

    method Register(conn: nat, buf: Hybridbuf, rest: seq<Hybridbuf>)
      requires conn !in history && conn !in open && connectionCount == |open|
      requires Sound(rest, history) && buf.Appending()
      modifies this
      ensures State() == Store(rest, old(history)[conn := buf], old(open) + {conn}, old(slow))
      ensures connectionCount == |open| && Sound(pool, history)
    {
      pool, history := rest, history[conn := buf];
      connectionCount := connectionCount + 1;
      open := open + {conn};
    }

    /** No other place refers to the history of `conn`. */
    ghost predicate Sole(conn: nat)
      requires conn in history
      reads this
    {
      && (forall i :: 0 <= i < |pool| ==> pool[i] != history[conn])
      && (forall k :: k in history && k != conn ==> history[k] != history[conn])
    }

    /** `release_request_history`: cleared and pooled, or freed when the pool is full. */
    method Release(conn: nat)
      requires Sound(pool, history) && conn in history && Sole(conn)
      modifies this`pool, this`history, history[conn]
      ensures Sound(pool, history) && State() == old(State()).Release(conn)
    {
      var buf := history[conn];
      SoundWithout(pool, history, conn);
      history := history - {conn};
      if |pool| < MAX_HYBRID_POOL {
        ClearApart(pool, history, buf);
        pool := pool + [buf];
      }
    }

    /** The switch to slow mode gives the history back; a second one changes nothing. */
    method Switch(conn: nat)
      requires Valid() && conn in open
      modifies this`pool, this`history, this`slow, if conn in history then {history[conn]} else {}
      ensures Valid() && State() == old(State()).Switch(conn)
      ensures conn !in history && conn in slow
    {
      SwitchHolds(State(), conn);
      if conn in history {
        SwitchHolding(conn);
      }
    }

    method SwitchHolding(conn: nat)
      requires Valid() && conn in open && conn in history
      modifies this`pool, this`history, this`slow, history[conn]
      ensures Valid() && State() == old(State()).Switch(conn)
    {
      SwitchKeeps(State(), conn);
      SwitchHolds(State(), conn);
      ReleaseToSlow(conn);
    }

    method ReleaseToSlow(conn: nat)
      requires Sound(pool, history) && conn in history && Sole(conn) && conn in open && conn !in slow
      modifies this`pool, this`history, this`slow, history[conn]
      ensures Sound(pool, history) && State() == old(State()).Switch(conn)
    {
      slow := slow + {conn};
      Release(conn);
    }

    /** Deleting a connection, in whichever mode. */
    method Close(conn: nat)
      requires Valid() && conn in open
      modifies this, if conn in history then {history[conn]} else {}
      ensures Valid() && State() == old(State()).Close(conn)
    {
      if conn in history {
        CloseHolding(conn);
      } else {
        CloseSlow(conn);
      }
    }

    method CloseHolding(conn: nat)
      requires Valid() && conn in open && conn in history
      modifies this, history[conn]
      ensures Valid() && State() == old(State()).Close(conn)
    {
      CloseKeeps(State(), conn);
      ReleaseAndUncount(conn);
    }

    method ReleaseAndUncount(conn: nat)
      requires Sound(pool, history) && conn in history && Sole(conn) && conn in open && connectionCount == |open|
      modifies this, history[conn]
      ensures Sound(pool, history) && State() == old(State()).Close(conn) && connectionCount == |open|
    {
      Release(conn);
      Uncount(conn);
    }

    method CloseSlow(conn: nat)
      requires Valid() && conn in open && conn !in history
      modifies this
      ensures Valid() && State() == old(State()).Close(conn)
    {
      CloseKeeps(State(), conn);
      Uncount(conn);
    }

    method Uncount(conn: nat)
      requires Sound(pool, history) && conn in open && connectionCount == |open|
      modifies this`connectionCount, this`open, this`slow
      ensures connectionCount == |open| && open == old(open) - {conn} && slow == old(slow) - {conn}
      ensures Sound(pool, history)
    {
      connectionCount := connectionCount - 1;
      open, slow := open - {conn}, slow - {conn};
    }
  }
}
