/** Consecutive fixed-size blocks of a sample stream, whatever the calls it arrived in. */
module Blocks {

  /** The whole blocks of `s`, in order. */
  function Chunks<T>(s: seq<T>, n: nat): seq<seq<T>>
    requires n > 0
  {
    if |s| < n then [] else [s[..n]] + Chunks(s[n..], n)
  }

  /** What is left after the last whole block. */
  function Remainder<T>(s: seq<T>, n: nat): seq<T>
    requires n > 0
  {
    if |s| < n then s else Remainder(s[n..], n)
  }

  function Flatten<T>(parts: seq<seq<T>>): seq<T> {
    if parts == [] then [] else parts[0] + Flatten(parts[1..])
  }

  ghost predicate AllOfSize<T>(parts: seq<seq<T>>, n: nat) {
    forall i :: 0 <= i < |parts| ==> |parts[i]| == n
  }

  /** Blocks and remainder rebuild the stream; every block is full and the remainder is not. */
  lemma {:induction false} ChunksRebuild<T>(s: seq<T>, n: nat)
    requires n > 0
    ensures Flatten(Chunks(s, n)) + Remainder(s, n) == s
    ensures AllOfSize(Chunks(s, n), n) && |Remainder(s, n)| < n
    decreases |s|
  {
    if |s| >= n {
      ChunksRebuild(s[n..], n);
      assert Chunks(s, n)[1..] == Chunks(s[n..], n);
      assert s == s[..n] + s[n..];
    }
  }

  /** There is only one way to cut a stream into full blocks and a shorter remainder. */
  lemma {:induction false} ChunksUnique<T>(s: seq<T>, n: nat, parts: seq<seq<T>>, rest: seq<T>)
    requires n > 0 && AllOfSize(parts, n) && |rest| < n
    requires Flatten(parts) + rest == s
    ensures parts == Chunks(s, n) && rest == Remainder(s, n)
    decreases |parts|
  {
    if parts == [] {
      assert Flatten(parts) == [];
    } else {
      assert s == parts[0] + (Flatten(parts[1..]) + rest);
      assert s[..n] == parts[0] && s[n..] == Flatten(parts[1..]) + rest;
      ChunksUnique(s[n..], n, parts[1..], rest);
      assert parts == [parts[0]] + parts[1..];
    }
  }

  /** Cutting `a` first and the remainder with `b` afterwards cuts `a + b`. */
  lemma {:induction false} ChunksAppend<T>(a: seq<T>, b: seq<T>, n: nat)
    requires n > 0
    ensures Chunks(a + b, n) == Chunks(a, n) + Chunks(Remainder(a, n) + b, n)
    ensures Remainder(a + b, n) == Remainder(Remainder(a, n) + b, n)
    decreases |a|
  {
    if |a| >= n {
      assert (a + b)[..n] == a[..n] && (a + b)[n..] == a[n..] + b;
      ChunksAppend(a[n..], b, n);
    }
  }

  lemma {:induction false} FlattenAppend<T>(a: seq<seq<T>>, b: seq<seq<T>>)
    ensures Flatten(a + b) == Flatten(a) + Flatten(b)
  {
    if a == [] {
      assert a + b == b;
    } else {
      assert (a + b)[1..] == a[1..] + b;
      FlattenAppend(a[1..], b);
    }
  }

  lemma FlattenPlusOne<T>(parts: seq<seq<T>>, part: seq<T>)
    ensures Flatten(parts + [part]) == Flatten(parts) + part
  {
    FlattenAppend(parts, [part]);
    assert [part][1..] == [] && Flatten([part]) == part + [];
  }

  // ---------- a run of calls ----------

  /** The blocks emitted by each call of a run that starts with `buffer`. */
  function Emitted<T>(buffer: seq<T>, calls: seq<seq<T>>, n: nat): seq<seq<seq<T>>>
    requires n > 0
    decreases |calls|
  {
    if calls == [] then []
    else [Chunks(buffer + calls[0], n)] + Emitted(Remainder(buffer + calls[0], n), calls[1..], n)
  }

  function Buffered<T>(buffer: seq<T>, calls: seq<seq<T>>, n: nat): seq<T>
    requires n > 0
    decreases |calls|
  {
    if calls == [] then buffer
    else Buffered(Remainder(buffer + calls[0], n), calls[1..], n)
  }

  /** However the stream is split into calls, the same blocks come out and the same remainder stays. */
  lemma {:induction false} RunCutsTheStream<T>(buffer: seq<T>, calls: seq<seq<T>>, n: nat)
    requires n > 0 && |buffer| < n
    ensures Flatten(Emitted(buffer, calls, n)) == Chunks(buffer + Flatten(calls), n)
    ensures Buffered(buffer, calls, n) == Remainder(buffer + Flatten(calls), n)
    decreases |calls|
  {
    if calls == [] {
      assert buffer + Flatten(calls) == buffer;
    } else {
      var now, later := buffer + calls[0], Flatten(calls[1..]);
      assert buffer + Flatten(calls) == now + later;
      ChunksRebuild(now, n);
      ChunksAppend(now, later, n);
      RunCutsTheStream(Remainder(now, n), calls[1..], n);
      assert Emitted(buffer, calls, n)[1..] == Emitted(Remainder(now, n), calls[1..], n);
    }
  }

  lemma SplittingIsInvisible<T>(calls: seq<seq<T>>, calls': seq<seq<T>>, n: nat)
    requires n > 0 && Flatten(calls) == Flatten(calls')
    ensures Flatten(Emitted([], calls, n)) == Flatten(Emitted([], calls', n))
    ensures Buffered([], calls, n) == Buffered([], calls', n)
  {
    RunCutsTheStream([], calls, n);
    RunCutsTheStream([], calls', n);
  }
}
