/** The HTTP parser as the proxy sees it: an arbitrary deterministic automaton that consumes one byte
    at a time and may report that the byte completed a message (src/ls_proxy.cpp:19-27, 301-312). */
module Parsing {
  import opened Base

  datatype Reaction = Next(state: nat, complete: bool) | Reject

  /** `toRequest` and `toResponse` are the two resets; they see the old state because the parser
      remembers the last request method across them (src/ls_proxy.h:180-188). */
  datatype Http = Http(
    start: nat,
    toRequest: nat -> nat,
    toResponse: nat -> nat,
    step: (nat, Byte) -> Reaction)

  /** Outcome of parsing one chunk: the new state with the first and last past-the-end offsets of
      messages completed inside the chunk. */
  datatype Parse = Parsed(state: nat, first: Option<nat>, last: Option<nat>) | Malformed

  ghost function Scan(h: Http, s: nat, data: Bytes): (p: Parse)
    ensures p.Parsed? ==> (p.first.Some? <==> p.last.Some?)
    ensures p.Parsed? && p.first.Some? ==> 1 <= p.first.value <= p.last.value <= |data|
  {
    if |data| == 0 then Parsed(s, None, None)
    else match Scan(h, s, data[..|data| - 1])
      case Malformed => Malformed
      case Parsed(mid, first, last) =>
        match h.step(mid, data[|data| - 1])
        case Reject => Malformed
        case Next(s', complete) =>
          Parsed(s',
                 if complete && first.None? then Some(|data|) else first,
                 if complete then Some(|data|) else last)
  }

  /** Reference notion: a message ends right before offset `k` of the stream. */
  ghost predicate EndsAt(h: Http, s: nat, data: Bytes, k: nat) {
    && 1 <= k <= |data|
    && var before := Scan(h, s, data[..k - 1]);
       && before.Parsed?
       && h.step(before.state, data[k - 1]).Next?
       && h.step(before.state, data[k - 1]).complete
  }

  /** The automaton walks through `states` on `data`: one step of it for each byte. */
  ghost predicate Walk(h: Http, states: seq<nat>, data: Bytes) {
    && |states| == |data| + 1
    && forall i :: 0 <= i < |data| ==> Walked(h, states, data, i)
  }

  ghost predicate Walked(h: Http, states: seq<nat>, data: Bytes, i: nat)
    requires i < |data| && i + 1 < |states|
  {
    h.step(states[i], data[i]).Next? && h.step(states[i], data[i]).state == states[i + 1]
  }

  /** The step at the byte before offset `k` completes a message. */
  ghost predicate CompletesAt(h: Http, states: seq<nat>, data: Bytes, k: nat)
    requires |states| == |data| + 1
  {
    1 <= k <= |data| && h.step(states[k - 1], data[k - 1]).Next? && h.step(states[k - 1], data[k - 1]).complete
  }

  /** Messages end exactly where a step of the walk completes one. */
  ghost predicate SameEnds(h: Http, states: seq<nat>, s: nat, data: Bytes)
    requires |states| == |data| + 1
  {
    forall k: nat :: CompletesAt(h, states, data, k) <==> EndsAt(h, s, data, k)
  }

  /** A chunk parses exactly if the automaton walks through it; then the parse reports the last state, and
      messages end exactly where a step of the walk completes one. */
  lemma {:induction false} ScanWalks(h: Http, s: nat, data: Bytes) returns (states: seq<nat>)
    ensures Scan(h, s, data).Parsed? ==>
      && Walk(h, states, data) && states[0] == s && states[|data|] == Scan(h, s, data).state
      && SameEnds(h, states, s, data)
  {
    if |data| == 0 {
      states := [s];
    } else {
      var prefix := data[..|data| - 1];
      states := ScanWalks(h, s, prefix);
      if Scan(h, s, data).Parsed? {
        var before := states;
        states := states + [Scan(h, s, data).state];
        WalkOn(h, s, data, before);
      }
    }
  }

  lemma WalkOn(h: Http, s: nat, data: Bytes, before: seq<nat>)
    requires |data| > 0 && Scan(h, s, data).Parsed? && Scan(h, s, data[..|data| - 1]).Parsed?
    requires Walk(h, before, data[..|data| - 1]) && before[0] == s
    requires before[|data| - 1] == Scan(h, s, data[..|data| - 1]).state
    requires SameEnds(h, before, s, data[..|data| - 1])
    ensures var states := before + [Scan(h, s, data).state];
            Walk(h, states, data) && SameEnds(h, states, s, data)
  {
    var prefix := data[..|data| - 1];
    var states := before + [Scan(h, s, data).state];
    forall i | 0 <= i < |data|
      ensures Walked(h, states, data, i)
    {
      if i < |prefix| {
        assert Walked(h, before, prefix, i);
      }
    }
    forall k: nat
      ensures CompletesAt(h, states, data, k) <==> EndsAt(h, s, data, k)
    {
      if 1 <= k <= |prefix| {
        assert prefix[..k - 1] == data[..k - 1];
        assert CompletesAt(h, before, prefix, k) <==> EndsAt(h, s, prefix, k);
      }
    }
  }

  /** And conversely every walk is a parse. */
  lemma {:induction false} WalkParses(h: Http, states: seq<nat>, data: Bytes)
    requires Walk(h, states, data)
    ensures Scan(h, states[0], data).Parsed? && Scan(h, states[0], data).state == states[|data|]
    decreases |data|
  {
    if |data| > 0 {
      var prefix := data[..|data| - 1];
      forall i | 0 <= i < |prefix|
        ensures Walked(h, states[..|data|], prefix, i)
      {
        assert Walked(h, states, data, i);
      }
      WalkParses(h, states[..|data|], prefix);
      assert Walked(h, states, data, |data| - 1);
    }
  }

  /** The reported offsets are exactly the least and the greatest message end. */
  lemma {:induction false} ScanFindsEnds(h: Http, s: nat, data: Bytes, k: nat)
    requires Scan(h, s, data).Parsed?
    ensures var p := Scan(h, s, data);
            EndsAt(h, s, data, k) ==> p.first.Some? && p.first.value <= k <= p.last.value
    ensures var p := Scan(h, s, data);
            p.first.Some? ==> EndsAt(h, s, data, p.first.value) && EndsAt(h, s, data, p.last.value)
  {
    if |data| > 0 {
      var prefix := data[..|data| - 1];
      ScanFindsEnds(h, s, prefix, k);
      assert forall j: nat :: j <= |prefix| ==> prefix[..j] == data[..j];
      assert forall j: nat :: EndsAt(h, s, prefix, j) ==> EndsAt(h, s, data, j);
      if EndsAt(h, s, data, k) && k < |data| {
        assert EndsAt(h, s, prefix, k);
      }
      assert data[..|data| - 1] == prefix;
    }
  }

  ghost function Shift(o: Option<nat>, offset: nat): Option<nat> {
    match o case None => None case Some(k) => Some(k + offset)
  }

  ghost function Join(a: Parse, offset: nat, b: Parse): Parse
    requires a.Parsed?
  {
    match b
    case Malformed => Malformed
    case Parsed(s, first, last) =>
      Parsed(s,
             if a.first.Some? then a.first else Shift(first, offset),
             if last.Some? then Shift(last, offset) else a.last)
  }

  /** One more byte, the `n`th. */
  ghost function Extend(h: Http, p: Parse, b: Byte, n: nat): Parse {
    match p
    case Malformed => Malformed
    case Parsed(mid, first, last) =>
      match h.step(mid, b)
      case Reject => Malformed
      case Next(s, complete) =>
        Parsed(s, if complete && first.None? then Some(n) else first, if complete then Some(n) else last)
  }

  lemma ScanExtends(h: Http, s: nat, data: Bytes, b: Byte)
    ensures Scan(h, s, data + [b]) == Extend(h, Scan(h, s, data), b, |data| + 1)
  {
    assert (data + [b])[..|data|] == data;
  }

  lemma JoinExtends(h: Http, a: Parse, offset: nat, p: Parse, b: Byte, n: nat)
    requires a.Parsed? && (p.Parsed? ==> (p.first.Some? <==> p.last.Some?))
    requires a.first.Some? <==> a.last.Some?
    ensures Join(a, offset, Extend(h, p, b, n)) == Extend(h, Join(a, offset, p), b, offset + n)
  {
  }

  /** Chunking does not matter: parsing `a` and then `b` is parsing `a + b`. */
  lemma {:induction false} ScanConcat(h: Http, s: nat, a: Bytes, b: Bytes)
    requires Scan(h, s, a).Parsed?
    ensures Scan(h, s, a + b) == Join(Scan(h, s, a), |a|, Scan(h, Scan(h, s, a).state, b))
  {
    if |b| == 0 {
      assert a + b == a;
    } else {
      var b0, c := b[..|b| - 1], b[|b| - 1];
      var left := Scan(h, s, a);
      var right := Scan(h, left.state, b0);
      ScanConcat(h, s, a, b0);
      assert b == b0 + [c] && a + b == a + b0 + [c];
      ScanExtends(h, s, a + b0, c);
      ScanExtends(h, left.state, b0, c);
      JoinExtends(h, left, |a|, right, c, |b|);
    }
  }

  /** A parsed stream has only parsed prefixes. */
  lemma {:induction false} ScanPrefix(h: Http, s: nat, data: Bytes, k: nat)
    requires k <= |data| && Scan(h, s, data).Parsed?
    ensures Scan(h, s, data[..k]).Parsed?
    decreases |data|
  {
    if k < |data| {
      var prefix := data[..|data| - 1];
      ScanPrefix(h, s, prefix, k);
      assert prefix[..k] == data[..k];
    } else {
      assert data[..k] == data;
    }
  }

  /** The first message end of a stream, whatever follows it. */
  ghost function FirstEnd(h: Http, s: nat, data: Bytes): (k: Option<nat>)
    ensures k.Some? ==> 1 <= k.value <= |data|
  {
    if |data| == 0 then None
    else
      var earlier := FirstEnd(h, s, data[..|data| - 1]);
      if earlier.Some? then earlier
      else if EndsAt(h, s, data, |data|) then Some(|data|) else None
  }

  /** `FirstEnd` is the least message end. */
  lemma {:induction false} FirstEndIsLeast(h: Http, s: nat, data: Bytes)
    ensures var k := FirstEnd(h, s, data);
            && (k.Some? ==> EndsAt(h, s, data, k.value))
            && (forall j: nat :: EndsAt(h, s, data, j) ==> k.Some? && k.value <= j)
  {
    if |data| > 0 {
      var prefix := data[..|data| - 1];
      FirstEndIsLeast(h, s, prefix);
      assert forall j: nat :: j <= |prefix| ==> prefix[..j] == data[..j];
      assert forall j: nat :: 1 <= j <= |prefix| ==> (EndsAt(h, s, prefix, j) <==> EndsAt(h, s, data, j));
    }
  }

  lemma {:induction false} FirstEndStable(h: Http, s: nat, data: Bytes, more: Bytes)
    requires FirstEnd(h, s, data).Some?
    ensures FirstEnd(h, s, data + more) == FirstEnd(h, s, data)
  {
    if |more| == 0 {
      assert data + more == data;
    } else {
      FirstEndStable(h, s, data, more[..|more| - 1]);
      assert (data + more)[..|data + more| - 1] == data + more[..|more| - 1];
    }
  }

  /** On a parsed stream it is the offset the parser reports first. */
  lemma FirstEndOfScan(h: Http, s: nat, data: Bytes)
    requires Scan(h, s, data).Parsed?
    ensures FirstEnd(h, s, data) == Scan(h, s, data).first
  {
    var p := Scan(h, s, data);
    FirstEndIsLeast(h, s, data);
    ScanFindsEnds(h, s, data, 0);
    var k := FirstEnd(h, s, data);
    if k.Some? {
      ScanFindsEnds(h, s, data, k.value);
    }
  }

  /** The parser object: llhttp's state and the two end-of-message fields set by the callback. */
  class HttpParser {
    const http: Http
    var state: nat
    var firstEom: Option<nat>
    var lastEom: Option<nat>

    constructor (http: Http)
      ensures this.http == http && state == http.start
      ensures firstEom == None && lastEom == None
    {
      this.http, state, firstEom, lastEom := http, http.start, None, None;
    }

    method SwitchToRequestMode()
      modifies this
      ensures state == http.toRequest(old(state))
      ensures firstEom == old(firstEom) && lastEom == old(lastEom)
    {
      state := http.toRequest(state);
    }

    method SwitchToResponseMode()
      modifies this
      ensures state == http.toResponse(old(state))
      ensures firstEom == old(firstEom) && lastEom == old(lastEom)
    {
      state := http.toResponse(state);
    }

    /** The callback: `at` is the offset right after the message. */
    method MessageComplete(at: nat)
      modifies this
      ensures firstEom == if old(firstEom).None? then Some(at) else old(firstEom)
      ensures lastEom == Some(at) && state == old(state)
    {
      if firstEom.None? {
        firstEom := Some(at);
      }
      lastEom := Some(at);
    }

    /** `ok` is false where the source throws ParserError. */
    method DoParse(data: Bytes) returns (ok: bool)
      modifies this
      ensures ok <==> Scan(http, old(state), data).Parsed?
      ensures ok ==> Scan(http, old(state), data) == Parsed(state, firstEom, lastEom)
    {
      firstEom, lastEom := None, None;
      for i := 0 to |data|
        invariant Scan(http, old(state), data[..i]) == Parsed(state, firstEom, lastEom)
      {
        assert data[..i + 1][..i] == data[..i];
        match http.step(state, data[i])
        case Reject =>
          assert Scan(http, old(state), data[..i + 1]).Malformed?;
          if Scan(http, old(state), data).Parsed? {
            ScanPrefix(http, old(state), data, i + 1);
          }
          return false;
        case Next(s, complete) =>
          state := s;
          if complete {
            MessageComplete(i + 1);
          }
      }
      assert data[..|data|] == data;
      ok := true;
    }
  }
}
