/**
 One batch of relay sockets shared by consumers that do not know each other: the chain
 of closures addRelaySockets builds, and the login bridge that spends its share.
 */
module Relays {
  import opened Options

  type Socket = nat

  // ---- the chain of closures -------------------------------------------------------------

  /** Options.OnRelaySockets: nil, or a closure over how many sockets the earlier consumers
      take, the earlier closure, and this consumer. */
  datatype Handler = Nobody | Then(prevN: nat, prev: Handler, fn: nat)

  datatype Consumer = Consumer(n: nat, fn: nat)

  /** What one delivery does: the consumers called, in order, each with its share; the
      sockets closed, in order; and who refused, if anyone. */
  datatype Effect = Effect(calls: seq<(nat, seq<Socket>)>, closed: seq<Socket>, refusal: Option<nat>)

  const SILENT := Effect([], [], None)

  // The closure can slice what it is given.
  predicate Fits(h: Handler, n: nat) { h.Then? ==> h.prevN <= n && Fits(h.prev, h.prevN) }

  // Calling the closure; refuses says which consumers return an error.
  method Deliver(h: Handler, fs: seq<Socket>, refuses: nat -> bool) returns (e: Effect)
    requires Fits(h, |fs|)
    ensures e == Delivered(h, fs, refuses)
    decreases h
  {
    if h.Nobody? {
      return SILENT;
    }
    var before := SILENT;
    if h.prev.Then? {
      before := Deliver(h.prev, fs[..h.prevN], refuses);
      if before.refusal.Some? {
        var rest, closed := fs[h.prevN..], before.closed;
        var i := 0;
        while i < |rest|
          invariant i <= |rest| && closed == before.closed + rest[..i]
        {
          closed := closed + [rest[i]];
          i := i + 1;
        }
        assert rest[..i] == rest;
        return Effect(before.calls, closed, before.refusal);
      }
    }
    var err := if refuses(h.fn) then Some(h.fn) else None;
    return Effect(before.calls + [(h.fn, fs[h.prevN..])], before.closed, err);
  }

  function Delivered(h: Handler, fs: seq<Socket>, refuses: nat -> bool): Effect
    requires Fits(h, |fs|)
    decreases h
  {
    if h.Nobody? then SILENT
    else
      var before := Delivered(h.prev, fs[..h.prevN], refuses);
      if before.refusal.Some? then Effect(before.calls, before.closed + fs[h.prevN..], before.refusal)
      else Effect(before.calls + [(h.fn, fs[h.prevN..])], before.closed, if refuses(h.fn) then Some(h.fn) else None)
  }

  class RunOptions {
    var relaySockets: nat
    var onRelaySockets: Handler

    // The consumers registered so far, in order.
    ghost var consumers: seq<Consumer>

    ghost predicate Valid() reads this {
      relaySockets == Total(consumers) && onRelaySockets == Chain(consumers)
    }

    constructor ()
      ensures Valid() && consumers == []
    {
      relaySockets, onRelaySockets, consumers := 0, Nobody, [];
    }

    method AddRelaySockets(n: nat, fn: nat)
      requires Valid()
      modifies this
      ensures Valid() && consumers == old(consumers) + [Consumer(n, fn)]
      ensures relaySockets == old(relaySockets) + n
    {
      ghost var was := consumers;
      consumers := consumers + [Consumer(n, fn)];
      assert consumers[..|was|] == was;
      onRelaySockets := Then(relaySockets, onRelaySockets, fn);
      relaySockets := relaySockets + n;
    }
  }

  function Total(cs: seq<Consumer>): nat {
    if cs == [] then 0 else Total(cs[..|cs| - 1]) + cs[|cs| - 1].n
  }

  function Chain(cs: seq<Consumer>): Handler {
    if cs == [] then Nobody
    else
      var before := cs[..|cs| - 1];
      Then(Total(before), Chain(before), cs[|cs| - 1].fn)
  }

  // ---- who gets what ------------------------------------------------------------------------

  lemma {:induction false} TotalGrows(cs: seq<Consumer>, i: nat)
    requires i <= |cs|
    ensures Total(cs[..i]) <= Total(cs)
    decreases |cs|
  {
    if i < |cs| {
      var before := cs[..|cs| - 1];
      TotalGrows(before, i);
      assert before[..i] == cs[..i];
    } else {
      assert cs[..i] == cs;
    }
  }

  lemma {:induction false} ChainFits(cs: seq<Consumer>)
    ensures Fits(Chain(cs), Total(cs))
  {
    if cs != [] {
      ChainFits(cs[..|cs| - 1]);
    }
  }

  // Consumer i's slice of the batch.
  function Share(cs: seq<Consumer>, fs: seq<Socket>, i: nat): seq<Socket>
    requires i < |cs| && |fs| == Total(cs)
  {
    TotalGrows(cs, i + 1);
    assert cs[..i + 1][..i] == cs[..i];
    fs[Total(cs[..i])..Total(cs[..i + 1])]
  }

  // The first consumer that refuses; the number of consumers when none does.
  function FirstRefusal(cs: seq<Consumer>, refuses: nat -> bool): (k: nat)
    ensures k <= |cs| && (k < |cs| ==> refuses(cs[k].fn))
    ensures forall i :: 0 <= i < k ==> !refuses(cs[i].fn)
  {
    if cs == [] then 0
    else
      var before := cs[..|cs| - 1];
      var k := FirstRefusal(before, refuses);
      if k < |before| || refuses(cs[|cs| - 1].fn) then k else |cs|
  }

  /** The batch is partitioned.  Consumers are called in the order they registered, each
      with its own consecutive slice, up to the first that refuses; that one's error is
      the run's, every socket meant for a later consumer is closed once, and nobody after
      it is called. */
  ghost predicate Partitioned(cs: seq<Consumer>, fs: seq<Socket>, refuses: nat -> bool, e: Effect)
    requires |fs| == Total(cs)
  {
    var k := FirstRefusal(cs, refuses);
    && |e.calls| == (if k < |cs| then k + 1 else |cs|)
    && (forall i :: 0 <= i < |e.calls| ==> e.calls[i] == (cs[i].fn, Share(cs, fs, i)))
    && (k == |cs| ==> e.refusal == None && e.closed == [])
    && (k < |cs| ==>
          && e.refusal == Some(cs[k].fn)
          && Total(cs[..k + 1]) <= |fs| && e.closed == fs[Total(cs[..k + 1])..])
  }

  // A share does not depend on the consumers registered later.
  lemma SharePrefix(cs: seq<Consumer>, fs: seq<Socket>, i: nat)
    requires |fs| == Total(cs) && i + 1 < |cs|
    ensures var before := cs[..|cs| - 1];
            Total(before) <= |fs| && Share(cs, fs, i) == Share(before, fs[..Total(before)], i)
  {
    var before := cs[..|cs| - 1];
    assert before[..i] == cs[..i] && before[..i + 1] == cs[..i + 1];
    assert cs[..i + 1][..i] == cs[..i];
    TotalGrows(before, i + 1);
    var a, b, t := Total(cs[..i]), Total(cs[..i + 1]), Total(before);
    assert fs[..t][a..b] == fs[a..b];
  }

  lemma CutJoins(fs: seq<Socket>, a: nat, t: nat)
    requires a <= t <= |fs|
    ensures fs[..t][a..] + fs[t..] == fs[a..]
  {
  }

  // An earlier consumer has refused: this level closes its own consumer's share.
  lemma LaterShareIsClosed(cs: seq<Consumer>, fs: seq<Socket>, refuses: nat -> bool, e0: Effect)
    requires cs != [] && |fs| == Total(cs)
    requires var before := cs[..|cs| - 1];
             && FirstRefusal(before, refuses) < |before|
             && Total(before) <= |fs| && Partitioned(before, fs[..Total(before)], refuses, e0)
    ensures Partitioned(cs, fs, refuses, Effect(e0.calls, e0.closed + fs[Total(cs[..|cs| - 1])..], e0.refusal))
  {
    var before := cs[..|cs| - 1];
    var k, t := FirstRefusal(before, refuses), Total(before);
    forall i | 0 <= i <= k ensures e0.calls[i] == (cs[i].fn, Share(cs, fs, i)) {
      SharePrefix(cs, fs, i);
    }
    assert before[..k + 1] == cs[..k + 1];
    var a := Total(cs[..k + 1]);
    TotalGrows(before, k + 1);
    CutJoins(fs, a, t);
  }

  lemma LastShare(cs: seq<Consumer>, fs: seq<Socket>)
    requires cs != [] && |fs| == Total(cs)
    ensures Total(cs[..|cs| - 1]) <= |fs| && Share(cs, fs, |cs| - 1) == fs[Total(cs[..|cs| - 1])..]
  {
    assert cs[..|cs| - 1 + 1] == cs;
  }

  // Nobody has refused yet: every call so far, and this consumer's with the rest.
  lemma AllSharesSoFar(cs: seq<Consumer>, fs: seq<Socket>, refuses: nat -> bool, e0: Effect)
    requires cs != [] && |fs| == Total(cs)
    requires var before := cs[..|cs| - 1];
             && FirstRefusal(before, refuses) == |before|
             && Total(before) <= |fs| && Partitioned(before, fs[..Total(before)], refuses, e0)
    ensures var n := |cs| - 1;
            var calls := e0.calls + [(cs[n].fn, fs[Total(cs[..n])..])];
            |calls| == |cs| && forall i :: 0 <= i < |calls| ==> calls[i] == (cs[i].fn, Share(cs, fs, i))
  {
    var n := |cs| - 1;
    var calls := e0.calls + [(cs[n].fn, fs[Total(cs[..n])..])];
    LastShare(cs, fs);
    forall i | 0 <= i < |calls| ensures calls[i] == (cs[i].fn, Share(cs, fs, i)) {
      if i < n {
        SharePrefix(cs, fs, i);
        assert calls[i] == e0.calls[i];
      }
    }
  }

  lemma LastShareIsRest(cs: seq<Consumer>, fs: seq<Socket>, refuses: nat -> bool, e0: Effect)
    requires cs != [] && |fs| == Total(cs)
    requires var before := cs[..|cs| - 1];
             && FirstRefusal(before, refuses) == |before|
             && Total(before) <= |fs| && Partitioned(before, fs[..Total(before)], refuses, e0)
    ensures var fn := cs[|cs| - 1].fn;
            Partitioned(cs, fs, refuses,
                        Effect(e0.calls + [(fn, fs[Total(cs[..|cs| - 1])..])], e0.closed,
                               if refuses(fn) then Some(fn) else None))
  {
    var n := |cs| - 1;
    AllSharesSoFar(cs, fs, refuses, e0);
    assert FirstRefusal(cs, refuses) == if refuses(cs[n].fn) then n else n + 1;
    assert cs[..n + 1] == cs && fs[|fs|..] == [];
  }

  lemma {:induction false} BatchIsPartitioned(cs: seq<Consumer>, fs: seq<Socket>, refuses: nat -> bool)
    requires |fs| == Total(cs)
    ensures Fits(Chain(cs), |fs|) && Partitioned(cs, fs, refuses, Delivered(Chain(cs), fs, refuses))
  {
    ChainFits(cs);
    if cs != [] {
      var n := |cs| - 1;
      var before, mine := cs[..n], fs[..Total(cs[..n])];
      BatchIsPartitioned(before, mine, refuses);
      var e0 := Delivered(Chain(before), mine, refuses);
      if FirstRefusal(before, refuses) < n {
        LaterShareIsClosed(cs, fs, refuses, e0);
      } else {
        LastShareIsRest(cs, fs, refuses, e0);
      }
    }
  }

  // ---- the bridge's own sockets -----------------------------------------------------------------

  /** The login bridge's share.  What it was last handed is at all times what Dial has spent,
      then what is left, or, once closed, what close closed; a batch that a later one
      overwrote is lost, and a run hands over one. */
  class LoginBridge {
    var relay: seq<Socket>
    ghost var handed: seq<Socket>
    ghost var spent: seq<Socket>
    ghost var closed: seq<Socket>
    ghost var lost: seq<Socket>

    ghost predicate Valid() reads this { handed == spent + closed + relay && (closed != [] ==> relay == []) }

    constructor ()
      ensures Valid() && handed == [] && lost == []
    {
      relay, handed, spent, closed, lost := [], [], [], [], [];
    }

    /** Options.OnRelaySockets.  A batch handed over first, or after the one before was all
        spent or closed, loses nothing; any other overwrites what was left. */
    method SetRelay(fs: seq<Socket>)
      requires Valid()
      modifies this
      ensures Valid() && handed == fs && relay == fs && spent == [] && closed == []
      ensures lost == old(lost) + old(relay)
    {
      lost := lost + relay;
      relay, handed, spent, closed := fs, fs, [], [];
    }

    method Left() returns (n: nat)
      requires Valid()
      ensures n + |spent| + |closed| == |handed|
    {
      return |relay|;
    }

    /** Spends the next socket, whether the connection succeeds or not; refuses, spending
        nothing, when none is left. */
    method Dial(connects: bool) returns (conn: Option<Socket>)
      requires Valid()
      modifies this
      ensures Valid() && handed == old(handed) && closed == old(closed) && lost == old(lost)
      ensures old(relay) == [] ==> conn == None && spent == old(spent)
      ensures old(relay) != [] ==>
                && spent == old(spent) + [old(relay)[0]] && relay == old(relay)[1..]
                && conn == if connects then Some(old(relay)[0]) else None
    {
      if |relay| == 0 {
        return None;
      }
      var f := relay[0];
      relay := relay[1..];
      spent := spent + [f];
      return if connects then Some(f) else None;
    }

    /** Afterwards every socket the bridge was ever handed has been spent or closed, each
        exactly once, and no later Dial can spend one. */
    method Close()
      requires Valid()
      modifies this
      ensures Valid() && handed == old(handed) && spent == old(spent) && lost == old(lost)
      ensures relay == [] && handed == spent + closed
    {
      while relay != []
        invariant handed == spent + closed + relay && handed == old(handed) && spent == old(spent) && lost == old(lost)
        decreases |relay|
      {
        closed := closed + [relay[0]];
        relay := relay[1..];
      }
    }
  }
}
