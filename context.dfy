/** `context/context.hpp`: a fixed pool of io_contexts handed out round-robin, with each pool
    entry kept alive by a work guard. Only the indexing of the pool is modelled; the
    io_contexts themselves are known by identity only. */
module Contexts {

  /** A `boost::asio::io_context`. */
  class IoContext {
    constructor () {
    }
  }

  /** An `executor_work_guard` on the executor of one io_context. */
  datatype WorkGuard = WorkGuard(target: IoContext)

  /** The index `get_one` moves to after handing out index `i` of a pool of `n`. */
  function Next(i: nat, n: nat): (r: nat)
    requires i < n
    ensures r == if i + 1 < n then i + 1 else 0
  {
    SmallResidue(i + 1, n);
    (i + 1) % n
  }

  /** A number below n is its own residue, and n's residue is 0. */
  lemma SmallResidue(x: nat, n: nat)
    requires 0 < n && x <= n
    ensures x % n == if x < n then x else 0
  {
  }

  /** The indices handed out by `k` consecutive calls of `get_one` starting at `start`. */
  function Turns(start: nat, n: nat, k: nat): (r: seq<nat>)
    requires start < n
    ensures |r| == k
    ensures forall m :: 0 <= m < k ==> r[m] < n
    decreases k
  {
    if k == 0 then [] else [start] + Turns(Next(start, n), n, k - 1)
  }

  /** The first turn is `start`; the rest start from the next index. */
  lemma TurnsFirst(start: nat, n: nat, k: nat)
    requires start < n && k > 0
    ensures Turns(start, n, k) == [start] + Turns(Next(start, n), n, k - 1)
    ensures Turns(start, n, k)[0] == start
    ensures Turns(start, n, k)[1..] == Turns(Next(start, n), n, k - 1)
  {
  }

  /** The index `get_one` leaves behind after `k` consecutive calls starting at `start`. */
  function After(start: nat, n: nat, k: nat): (r: nat)
    requires start < n
    ensures r < n
    decreases k
  {
    if k == 0 then start else After(Next(start, n), n, k - 1)
  }

  /** One more call moves the index on by `Next`. */
  lemma {:induction false} AfterStep(start: nat, n: nat, i: nat)
    requires start < n
    ensures After(start, n, i + 1) == Next(After(start, n, i), n)
    decreases i
  {
    if i > 0 {
      AfterStep(Next(start, n), n, i - 1);
    }
  }

  /** Call i of a run hands out the index that the first i calls leave behind. */
  lemma {:induction false} TurnsAfter(start: nat, n: nat, k: nat, i: nat)
    requires start < n && i < k
    ensures Turns(start, n, k)[i] == After(start, n, i)
    decreases i
  {
    TurnsFirst(start, n, k);
    if i > 0 {
      TurnsAfter(Next(start, n), n, k - 1, i - 1);
    }
  }

  /** n calls of `get_one` on a pool of n bring the index back to where it started. */
  lemma FullCycle(start: nat, n: nat)
    requires start < n
    ensures After(start, n, n) == start
  {
    AfterStep(start, n, n - 1);
    TurnsAfter(start, n, n, n - 1);
    TurnsAt(start, n, n, n - 1);
  }

  /** `kie::context`. */
  class Context {
    var all: seq<IoContext>
    var guards: seq<WorkGuard>
    var currentIdx: nat

    /** Every entry has its guard, in order, and the next index is inside the pool (or 0 for
        an empty pool). */
    ghost predicate Valid()
      reads this
    {
      && |guards| == |all|
      && (forall i :: 0 <= i < |all| ==> guards[i].target == all[i])
      && (currentIdx == 0 || currentIdx < |all|)
    }

    /** `context(size)`: `size` new io_contexts, each with a work guard. The default
        constructor is this one applied to `std::thread::hardware_concurrency()`. */
    constructor Sized(size: nat)
      ensures Valid() && |all| == size && currentIdx == 0
      ensures forall i :: 0 <= i < size ==> fresh(all[i])
      ensures forall i, j :: 0 <= i < j < size ==> all[i] != all[j]
    {
      all := [];
      guards := [];
      currentIdx := 0;
      new;
      var i := 0;
      while i < size
        invariant 0 <= i <= size && |all| == i && currentIdx == 0
        invariant Valid()
        invariant forall k :: 0 <= k < i ==> fresh(all[k])
        invariant forall k, l :: 0 <= k < l < i ==> all[k] != all[l]
      {
        var c := new IoContext();
        all := all + [c];
        guards := guards + [WorkGuard(all[i])];
        i := i + 1;
      }
    }

    /** `context(io_context&)`: a pool of exactly the given io_context, which the pool does
        not own. */
    constructor Wrap(ctx: IoContext)
      ensures Valid() && all == [ctx] && guards == [WorkGuard(ctx)] && currentIdx == 0
    {
      all := [ctx];
      guards := [WorkGuard(ctx)];
      currentIdx := 0;
    }

    /** `get_one()`: the entry at the current index, after which the index moves on by one,
        wrapping to 0 past the end. The pool must not be empty. */
    method GetOne() returns (c: IoContext)
      requires Valid() && |all| > 0
      modifies this`currentIdx
      ensures Valid()
      ensures c == all[old(currentIdx)]
      ensures currentIdx == Next(old(currentIdx), |all|)
    {
      c := all[currentIdx];
      currentIdx := currentIdx + 1;
      currentIdx := currentIdx % |all|;
    }

    /** `k` consecutive calls of `get_one`: call m hands out the entry at index m of
        `Turns` from the index before the first call. With `k` the pool size, every entry is
        handed out. */
    method GetMany(k: nat) returns (got: seq<IoContext>)
      requires Valid() && |all| > 0
      modifies this`currentIdx
      ensures Valid()
      ensures |got| == k
      ensures forall m :: 0 <= m < k ==> got[m] == all[Turns(old(currentIdx), |all|, k)[m]]
      ensures k == |all| ==> forall e :: 0 <= e < |all| ==> all[e] in got
      ensures currentIdx == After(old(currentIdx), |all|, k)
      ensures k == 0 ==> currentIdx == old(currentIdx)
      ensures k > 0 ==> currentIdx == Next(Turns(old(currentIdx), |all|, k)[k - 1], |all|)
    {
      ghost var start := currentIdx;
      got := [];
      var i := 0;
      while i < k
        invariant 0 <= i <= k && |got| == i
        invariant Valid() && currentIdx == After(start, |all|, i)
        invariant forall m :: 0 <= m < i ==> got[m] == all[After(start, |all|, m)]
      {
        AfterStep(start, |all|, i);
        var c := GetOne();
        got := got + [c];
        i := i + 1;
      }
      DrawsFollowTurns(all, got, start, k);
      if k > 0 {
        AfterLastTurn(start, |all|, k);
      }
    }

    /** `get(idx)`: entry `idx` and true when `idx` is inside the pool, otherwise the first
        entry and false. The pool must not be empty. */
    function Get(idx: nat): (r: (IoContext, bool))
      requires Valid() && |all| > 0
      reads this
      ensures r.1 <==> idx < |all|
      ensures r.1 ==> r.0 == all[idx]
      ensures !r.1 ==> r.0 == all[0]
    {
      if idx >= |all| then (all[0], false) else (all[idx], true)
    }

    /** `get_all()`: the whole pool. */
    function GetAll(): (r: seq<IoContext>)
      reads this
      ensures |r| == |all| && forall i :: 0 <= i < |r| ==> r[i] == all[i]
    {
      all
    }

    /** The loop of `run` and of `run_as_daemon`: one thread per index up to
        `max(size, hint)`, thread `i` running entry `i % size`. The result lists the entry
        each thread runs, so that every entry is run by at least one thread. */
    method Schedule(hint: nat) returns (drivers: seq<IoContext>)
      requires Valid() && (|all| > 0 || hint == 0)
      ensures |drivers| == (if |all| >= hint then |all| else hint)
      ensures forall i :: 0 <= i < |drivers| ==> drivers[i] == all[i % |all|]
      ensures forall k :: 0 <= k < |all| ==> all[k] in drivers
    {
      var count := if |all| >= hint then |all| else hint;
      drivers := [];
      var i := 0;
      while i < count
        invariant 0 <= i <= count && |drivers| == i
        invariant forall j :: 0 <= j < i ==> drivers[j] == all[j % |all|]
      {
        drivers := drivers + [all[i % |all|]];
        i := i + 1;
      }
      forall k | 0 <= k < |all|
        ensures all[k] in drivers
      {
        SmallResidue(k, |all|);
        assert drivers[k] == all[k];
      }
    }
  }

  /** Where `x`, below 2n, lands once wrapped past n. */
  function Wrapped(x: nat, n: nat): nat
    requires x < 2 * n
  {
    if x < n then x else x - n
  }

  /** `Turns(start, n, k)` is `start, start + 1, ...`, wrapped past the end of the pool. */
  lemma {:induction false} TurnsAt(start: nat, n: nat, k: nat, i: nat)
    requires start < n && i < k && i < n
    ensures Turns(start, n, k)[i] == Wrapped(start + i, n)
    decreases i
  {
    if i > 0 {
      var s := Next(start, n);
      TurnsAt(s, n, k - 1, i - 1);
      if start + 1 == n {
        assert s == 0;
        assert Turns(s, n, k - 1)[i - 1] == i - 1;
      }
    }
  }

  /** Round robin: n consecutive calls of `get_one` on a pool of n entries, from any
      starting index, hand out every entry exactly once. */
  lemma RoundRobin(start: nat, n: nat)
    requires start < n
    ensures forall i, j :: 0 <= i < j < n ==> Turns(start, n, n)[i] != Turns(start, n, n)[j]
    ensures forall e :: 0 <= e < n ==> e in Turns(start, n, n)
  {
    var t := Turns(start, n, n);
    forall i, j | 0 <= i < j < n
      ensures t[i] != t[j]
    {
      TurnsAt(start, n, n, i);
      TurnsAt(start, n, n, j);
    }
    forall e | 0 <= e < n
      ensures e in t
    {
      var i := if e >= start then e - start else e + n - start;
      TurnsAt(start, n, n, i);
      assert t[i] == e;
    }
  }

  /** Draws that follow the indices `After` gives are the draws of `Turns`, and a full run
      of them covers the pool. */
  lemma DrawsFollowTurns<T>(all: seq<T>, got: seq<T>, start: nat, k: nat)
    requires start < |all| && |got| == k
    requires forall m :: 0 <= m < k ==> got[m] == all[After(start, |all|, m)]
    ensures forall m :: 0 <= m < k ==> got[m] == all[Turns(start, |all|, k)[m]]
    ensures k == |all| ==> forall e :: 0 <= e < |all| ==> all[e] in got
  {
    forall m | 0 <= m < k
      ensures got[m] == all[Turns(start, |all|, k)[m]]
    {
      TurnsAfter(start, |all|, k, m);
    }
    if k == |all| {
      EveryEntryHandedOut(all, got, start);
    }
  }

  /** After k > 0 calls the index is the one after the last index handed out. */
  lemma AfterLastTurn(start: nat, n: nat, k: nat)
    requires start < n && k > 0
    ensures After(start, n, k) == Next(Turns(start, n, k)[k - 1], n)
  {
    AfterStep(start, n, k - 1);
    TurnsAfter(start, n, k, k - 1);
  }

  /** A run of `get_one` calls as long as the pool hands out every entry of the pool. */
  lemma EveryEntryHandedOut<T>(all: seq<T>, got: seq<T>, start: nat)
    requires start < |all| && |got| == |all|
    requires forall m :: 0 <= m < |all| ==> got[m] == all[Turns(start, |all|, |all|)[m]]
    ensures forall e :: 0 <= e < |all| ==> all[e] in got
  {
    var t := Turns(start, |all|, |all|);
    RoundRobin(start, |all|);
    forall e | 0 <= e < |all|
      ensures all[e] in got
    {
      assert e in t;
      var m :| 0 <= m < |t| && t[m] == e;
      assert got[m] == all[e];
    }
  }
}
