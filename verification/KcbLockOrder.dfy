/** Threads that lock KCBs through sorted lock arrays: mutual exclusion, no circular wait,
    progress, and release of exactly what was locked. */
module KcbLockOrder {
  import opened Lists
  import opened KcbLocks

  // ----- Building, locking and unlocking an array --------------------------------------------

  /** The indices CmpBuildAndLockKcbArray collects: the parent's when the whole path matched,
      the KCB's own, and one for every remaining subkey. */
  function Wanted(parent: Option<nat>, own: nat, subkeys: seq<nat>, matching: nat): seq<nat> {
    (if parent.Some? && |subkeys| == matching then [parent.value] else []) + [own] + subkeys
  }

  function Locks(indices: seq<nat>, thread: nat): set<(nat, nat)> {
    set l | l in indices :: (l, thread)
  }

  // ----- The protocol -----------------------------------------------------------------------

  /** A thread works through its array: it holds the first `got` indices and is acquiring
      upwards or releasing downwards. */
  datatype Thread = Thread(want: seq<nat>, got: nat, exclusive: bool, releasing: bool)

  datatype State = State(threads: map<nat, Thread>, held: set<(nat, nat)>)

  datatype Step =
    | Begin(t: nat, want: seq<nat>, exclusive: bool)
    | Acquire(t: nat)
    | Turn(t: nat)
    | Release(t: nat)
    | End(t: nat)

  /** The lock can be granted: nobody holds it, or everybody only shares it. */
  ghost predicate Free(s: State, l: nat, exclusive: bool) {
    forall u :: (l, u) in s.held && u in s.threads ==> !exclusive && !s.threads[u].exclusive
  }

  predicate Acquiring(s: State, t: nat) {
    t in s.threads && !s.threads[t].releasing && s.threads[t].got < |s.threads[t].want|
  }

  /** The index the thread asks for next. */
  function Asks(s: State, t: nat): nat
    requires Acquiring(s, t)
  {
    s.threads[t].want[s.threads[t].got]
  }

  ghost predicate Enabled(s: State, step: Step) {
    match step
    case Begin(t, want, _) => t !in s.threads && Ascending(want)
    case Acquire(t) => Acquiring(s, t) && Free(s, Asks(s, t), s.threads[t].exclusive)
    case Turn(t) => t in s.threads && !s.threads[t].releasing && s.threads[t].got == |s.threads[t].want|
    case Release(t) => t in s.threads && s.threads[t].releasing && 0 < s.threads[t].got <= |s.threads[t].want|
    case End(t) => t in s.threads && s.threads[t].releasing && s.threads[t].got == 0
  }

  function Next(s: State, step: Step): State
    requires Enabled(s, step)
  {
    match step
    case Begin(t, want, exclusive) => s.(threads := s.threads[t := Thread(want, 0, exclusive, false)])
    case Acquire(t) =>
      var th := s.threads[t];
      State(s.threads[t := th.(got := th.got + 1)], s.held + {(th.want[th.got], t)})
    case Turn(t) => s.(threads := s.threads[t := s.threads[t].(releasing := true)])
    case Release(t) =>
      var th := s.threads[t];
      State(s.threads[t := th.(got := th.got - 1)], s.held - {(th.want[th.got - 1], t)})
    case End(t) => s.(threads := map u | u in s.threads && u != t :: s.threads[u])
  }

  /** Each thread's array ascends and the table holds exactly what the threads got. */
  ghost predicate Tracked(s: State) {
    && (forall t :: t in s.threads ==> Ascending(s.threads[t].want) && s.threads[t].got <= |s.threads[t].want|)
    && (forall t, l :: (l, t) in s.held <==> t in s.threads && l in s.threads[t].want[..Got(s, t)])
  }

  function Got(s: State, t: nat): (g: nat)
    ensures t in s.threads ==> g <= |s.threads[t].want|
  {
    if t in s.threads && s.threads[t].got <= |s.threads[t].want| then s.threads[t].got else 0
  }

  /** An exclusive holder is the only holder. */
  ghost predicate Exclusion(s: State) {
    forall l, t, u :: (l, t) in s.held && (l, u) in s.held && t != u && t in s.threads && u in s.threads ==>
      !s.threads[t].exclusive && !s.threads[u].exclusive
  }

  ghost predicate Inv(s: State) {
    Tracked(s) && Exclusion(s)
  }

  // ----- The invariant is kept -------------------------------------------------------------------

  lemma TakeOneMore(want: seq<nat>, got: nat, l: nat)
    requires Ascending(want) && got < |want|
    ensures l in want[..got + 1] <==> l in want[..got] || l == want[got]
    ensures want[got] !in want[..got]
  {
    assert want[..got + 1] == want[..got] + [want[got]];
  }

  lemma AcquireTracked(s: State, t: nat)
    requires Tracked(s) && Enabled(s, Acquire(t))
    ensures Tracked(Next(s, Acquire(t)))
  {
    hide Free;
    var s1 := Next(s, Acquire(t));
    var th := s.threads[t];
    forall u: nat, l: nat ensures (l, u) in s1.held <==> u in s1.threads && l in s1.threads[u].want[..Got(s1, u)] {
      TakeOneMore(th.want, th.got, l);
      assert (l, u) in s.held <==> u in s.threads && l in s.threads[u].want[..Got(s, u)];
    }
  }

  lemma AcquireExclusion(s: State, t: nat)
    requires Exclusion(s) && Enabled(s, Acquire(t))
    ensures Exclusion(Next(s, Acquire(t)))
  {
  }

  lemma AcquireInv(s: State, t: nat)
    requires Inv(s) && Enabled(s, Acquire(t))
    ensures Inv(Next(s, Acquire(t)))
  {
    hide Tracked, Exclusion, Free, Next;
    AcquireTracked(s, t);
    AcquireExclusion(s, t);
  }

  lemma ReleaseInv(s: State, t: nat)
    requires Inv(s) && Enabled(s, Release(t))
    ensures Inv(Next(s, Release(t)))
  {
    var s1 := Next(s, Release(t));
    var th := s.threads[t];
    forall u: nat, l: nat ensures (l, u) in s1.held <==> u in s1.threads && l in s1.threads[u].want[..Got(s1, u)] {
      TakeOneMore(th.want, th.got - 1, l);
      assert (l, u) in s.held <==> u in s.threads && l in s.threads[u].want[..Got(s, u)];
    }
  }

  lemma InvStep(s: State, step: Step)
    requires Inv(s) && Enabled(s, step)
    ensures Inv(Next(s, step))
  {
    match step {
      case Begin(t, want, exclusive) => QuietInv(s, t, Thread(want, 0, exclusive, false));
      case Acquire(t) => AcquireInv(s, t);
      case Turn(t) => QuietInv(s, t, s.threads[t].(releasing := true));
      case Release(t) => ReleaseInv(s, t);
      case End(t) => EndInv(s, t);
    }
  }

  lemma QuietInv(s: State, t: nat, th: Thread)
    requires Inv(s) && Ascending(th.want)
    requires (t !in s.threads && th.got == 0) || (t in s.threads && th == s.threads[t].(releasing := th.releasing))
    ensures Inv(s.(threads := s.threads[t := th]))
  {
    var s1 := s.(threads := s.threads[t := th]);
    forall u: nat, l: nat ensures (l, u) in s1.held <==> u in s1.threads && l in s1.threads[u].want[..Got(s1, u)] {
      assert (l, u) in s.held <==> u in s.threads && l in s.threads[u].want[..Got(s, u)];
    }
  }

  lemma EndInv(s: State, t: nat)
    requires Inv(s) && Enabled(s, End(t))
    ensures Inv(Next(s, End(t)))
  {
    var s1 := Next(s, End(t));
    forall u: nat, l: nat ensures (l, u) in s1.held <==> u in s1.threads && l in s1.threads[u].want[..Got(s1, u)] {
      assert (l, u) in s.held <==> u in s.threads && l in s.threads[u].want[..Got(s, u)];
    }
  }

  // ----- Waiting --------------------------------------------------------------------------------------

  /** `t` has to wait because `u` holds the index it asks for. */
  predicate WaitsFor(s: State, t: nat, u: nat) {
    && Acquiring(s, t) && u in s.threads
    && (Asks(s, t), u) in s.held
    && (s.threads[t].exclusive || s.threads[u].exclusive)
  }

  /** Whatever a thread holds lies below what it asks for. */
  lemma HoldsBelow(s: State, u: nat, l: nat)
    requires Inv(s) && Acquiring(s, u) && (l, u) in s.held
    ensures l < Asks(s, u)
  {
    var th := s.threads[u];
    assert l in th.want[..Got(s, u)];
    var i :| 0 <= i < th.got && th.want[i] == l;
  }

  /** No thread waits for itself. */
  lemma NoSelfWait(s: State, t: nat)
    requires Inv(s)
    ensures !WaitsFor(s, t, t)
  {
    if WaitsFor(s, t, t) {
      HoldsBelow(s, t, Asks(s, t));
    }
  }

  /** Each thread of `ts` waits for the next. */
  ghost predicate Chain(s: State, ts: seq<nat>) {
    forall i :: 0 <= i < |ts| - 1 ==> WaitsFor(s, ts[i], ts[i + 1])
  }

  /** Along a chain the indices asked for go up. */
  lemma {:induction false} ChainClimbs(s: State, ts: seq<nat>)
    requires Inv(s) && |ts| > 1 && Chain(s, ts) && Acquiring(s, ts[|ts| - 1])
    ensures Acquiring(s, ts[0]) && Asks(s, ts[0]) < Asks(s, ts[|ts| - 1])
  {
    assert WaitsFor(s, ts[0], ts[1]);
    var rest := ts[1..];
    forall i | 0 <= i < |rest| - 1 ensures WaitsFor(s, rest[i], rest[i + 1]) {
      assert WaitsFor(s, ts[i + 1], ts[i + 2]);
    }
    if |ts| > 2 {
      ChainClimbs(s, rest);
    }
    HoldsBelow(s, ts[1], Asks(s, ts[0]));
  }

  /** There is no circular wait, among however many threads. */
  lemma NoCircularWait(s: State, ts: seq<nat>)
    requires Inv(s) && ts != [] && Chain(s, ts)
    ensures !WaitsFor(s, ts[|ts| - 1], ts[0])
  {
    var last := ts[|ts| - 1];
    if WaitsFor(s, last, ts[0]) {
      if |ts| == 1 {
        NoSelfWait(s, last);
      } else {
        ChainClimbs(s, ts);
        HoldsBelow(s, ts[0], Asks(s, last));
      }
    }
  }

  // ----- Progress ----------------------------------------------------------------------------------------

  /** Among acquiring threads one asks for an index no other asks above. */
  lemma {:induction false} HighestAsker(s: State, ts: set<nat>) returns (top: nat)
    requires ts != {} && forall t :: t in ts ==> Acquiring(s, t)
    ensures top in ts && forall t :: t in ts ==> Asks(s, t) <= Asks(s, top)
  {
    var t :| t in ts;
    if ts == {t} {
      top := t;
    } else {
      var rest := ts - {t};
      assert rest != {};
      top := HighestAsker(s, rest);
      if Asks(s, top) < Asks(s, t) {
        top := t;
      }
    }
  }

  /** As long as there are threads, one of them can go on. */
  lemma Progress(s: State) returns (step: Step)
    requires Inv(s) && s.threads != map[]
    ensures !step.Begin? && Enabled(s, step)
  {
    if t :| t in s.threads && !Acquiring(s, t) {
      var th := s.threads[t];
      step := if !th.releasing then Turn(t) else if th.got == 0 then End(t) else Release(t);
    } else {
      var t := HighestAsker(s, s.threads.Keys);
      var l := Asks(s, t);
      forall u | u in s.threads ensures (l, u) !in s.held {
        if (l, u) in s.held {
          HoldsBelow(s, u, l);
        }
      }
      step := Acquire(t);
    }
  }

  // ----- Runs --------------------------------------------------------------------------------------------

  ghost predicate Runs(s: State, steps: seq<Step>)
    decreases steps
  {
    steps == [] || (Enabled(s, steps[0]) && Runs(Next(s, steps[0]), steps[1..]))
  }

  ghost function After(s: State, steps: seq<Step>): State
    requires Runs(s, steps)
    decreases steps
  {
    if steps == [] then s else After(Next(s, steps[0]), steps[1..])
  }

  lemma {:induction false} InvRun(s: State, steps: seq<Step>)
    requires Inv(s) && Runs(s, steps)
    ensures Inv(After(s, steps))
    decreases steps
  {
    hide Inv, Next, Enabled;
    if steps != [] {
      InvStep(s, steps[0]);
      InvRun(Next(s, steps[0]), steps[1..]);
    }
  }

  /** In every run: an exclusive holder is alone, no chain of waits closes, and when all
      threads are gone so are all locks. */
  lemma LockOrderHolds(steps: seq<Step>, ts: seq<nat>)
    requires Runs(State(map[], {}), steps)
    requires ts != [] && Chain(After(State(map[], {}), steps), ts)
    ensures var s := After(State(map[], {}), steps);
            && Exclusion(s)
            && !WaitsFor(s, ts[|ts| - 1], ts[0])
            && (s.threads == map[] ==> s.held == {})
  {
    InvRun(State(map[], {}), steps);
    var s := After(State(map[], {}), steps);
    NoCircularWait(s, ts);
    forall p | p in s.held ensures p.1 in s.threads {
      assert p == (p.0, p.1);
    }
  }

  // ----- The code -----------------------------------------------------------------------------------

  lemma SameMembers(a: seq<nat>, b: seq<nat>)
    requires Elements(a) == Elements(b)
    ensures forall l :: l in a <==> l in b
  {
    forall l ensures l in a <==> l in b {
      assert l in Elements(a) <==> l in Elements(b);
    }
  }


  /** The lock table: which thread holds which index, and how far the threads are. */
  class LockTable {
    var held: set<(nat, nat)>
    ghost var threads: map<nat, Thread>

    ghost function View(): State
      reads this
    {
      State(threads, held)
    }

    constructor ()
      ensures Inv(View()) && held == {} && threads == map[]
    {
      held, threads := {}, map[];
    }

    /** CmpBuildAndLockKcbArray up to the locking: `outer` ends up with the wanted indices,
        ascending and without repetition. */
    method BuildArray(outer: array<nat>, parent: Option<nat>, own: nat, subkeys: seq<nat>, matching: nat)
      requires |Wanted(parent, own, subkeys, matching)| < outer.Length
      modifies outer
      ensures outer[0] < outer.Length && Ascending(outer[1..outer[0] + 1])
      ensures Elements(outer[1..outer[0] + 1]) == Elements(Wanted(parent, own, subkeys, matching))
      ensures forall l :: l in outer[1..outer[0] + 1] <==>
                l == own || l in subkeys || (parent == Some(l) && |subkeys| == matching)
    {
      var next := 1;
      ghost var w := Wanted(parent, own, subkeys, matching);
      if parent.Some? && |subkeys| == matching {
        outer[next] := parent.value;
        next := next + 1;
      }
      outer[next] := own;
      next := next + 1;
      ghost var first := next;
      assert outer[1..first] == w[..first - 1];
      for i := 0 to |subkeys|
        invariant next == first + i && outer[1..next] == w[..next - 1]
      {
        outer[next] := subkeys[i];
        next := next + 1;
      }
      assert outer[1..next] == w;
      outer[0] := next - 1;
      assert outer[1..outer[0] + 1] == w;
      SortKcbArray(outer);
      SameMembers(outer[1..outer[0] + 1], w);
    }

    /** CmpLockKcbArray, for a thread nobody is in the way of: it goes through the protocol's
        steps without waiting, and holds exactly the array's indices. */
    method LockArray(a: array<nat>, thread: nat, exclusive: bool)
      requires Inv(View()) && thread !in threads
      requires a.Length > 0 && a[0] < a.Length && Ascending(a[1..a[0] + 1])
      requires forall l :: l in a[1..a[0] + 1] ==> Free(View(), l, exclusive)
      modifies this
      ensures Inv(View()) && threads == old(threads)[thread := Thread(a[1..a[0] + 1], a[0], exclusive, false)]
      ensures held == old(held) + Locks(a[1..a[0] + 1], thread)
    {
      hide Inv, Free, Locks, Ascending;
      ghost var s, want := View(), a[1..a[0] + 1];
      QuietInv(s, thread, Thread(want, 0, exclusive, false));
      threads := threads[thread := Thread(want, 0, exclusive, false)];
      NoLocks(want, thread);
      for i := 1 to a[0] + 1
        invariant Inv(View()) && threads == s.threads[thread := Thread(want, i - 1, exclusive, false)]
        invariant held == s.held + Locks(want[..i - 1], thread)
      {
        assert a[i] == want[i - 1] && a[i] in want;
        StillFree(s, View(), thread, want, i - 1, exclusive);
        AcquireInv(View(), thread);
        OneMoreLock(want, i - 1, thread);
        held := held + {(a[i], thread)};
        threads := threads[thread := Thread(want, i, exclusive, false)];
        assert View() == State(s.threads[thread := Thread(want, i, exclusive, false)], held);
      }
      assert want[..a[0]] == want;
    }

    /** CmpUnLockKcbArray, last index first: the thread is gone from the protocol and the
        table holds what it held without it. */
    method UnlockArray(a: array<nat>, thread: nat)
      requires Inv(View()) && a.Length > 0 && a[0] < a.Length && thread in threads
      requires threads[thread].want == a[1..a[0] + 1] && threads[thread].got == a[0]
      modifies this
      ensures Inv(View()) && threads == old(threads) - {thread}
      ensures held == old(held) - Locks(a[1..a[0] + 1], thread)
    {
      hide Inv, Free, Locks, Ascending;
      ghost var s, want := View(), a[1..a[0] + 1];
      ghost var th := threads[thread].(releasing := true);
      TrackedAscends(s, thread);
      QuietInv(s, thread, th);
      threads := threads[thread := th];
      NoLocks(want, thread);
      assert want[a[0]..] == [];
      var i := a[0];
      while i > 0
        invariant 0 <= i <= a[0] && Inv(View()) && threads == s.threads[thread := th.(got := i)]
        invariant held == s.held - Locks(want[i..], thread)
      {
        ReleaseInv(View(), thread);
        OneLessLock(want, i, thread);
        held := held - {(a[i], thread)};
        threads := threads[thread := th.(got := i - 1)];
        i := i - 1;
      }
      assert want[0..] == want;
      EndInv(View(), thread);
      threads := map u | u in threads && u != thread :: threads[u];
    }

    /** Locking and then unlocking an array leaves the table as it was. */
    method LockAndUnlock(a: array<nat>, thread: nat, exclusive: bool)
      requires Inv(View()) && thread !in threads
      requires a.Length > 0 && a[0] < a.Length && Ascending(a[1..a[0] + 1])
      requires forall l :: l in a[1..a[0] + 1] ==> Free(View(), l, exclusive)
      modifies this
      ensures View() == old(View())
    {
      hide Inv, Free, Ascending;
      NotHeld(View(), thread);
      LockArray(a, thread, exclusive);
      UnlockArray(a, thread);
    }
  }

  lemma NoLocks(want: seq<nat>, thread: nat)
    ensures Locks([], thread) == {} && want[..0] == []
  {
  }

  lemma OneMoreLock(want: seq<nat>, got: nat, thread: nat)
    requires got < |want|
    ensures Locks(want[..got + 1], thread) == Locks(want[..got], thread) + {(want[got], thread)}
  {
    assert want[..got + 1] == want[..got] + [want[got]];
  }

  lemma OneLessLock(want: seq<nat>, got: nat, thread: nat)
    requires 0 < got <= |want|
    ensures Locks(want[got - 1..], thread) == Locks(want[got..], thread) + {(want[got - 1], thread)}
  {
    assert want[got - 1..] == [want[got - 1]] + want[got..];
  }

  lemma TrackedAscends(s: State, t: nat)
    requires Inv(s) && t in s.threads
    ensures Ascending(s.threads[t].want)
  {
  }

  lemma NotHeld(s: State, t: nat)
    requires Inv(s) && t !in s.threads
    ensures forall l :: (l, t) !in s.held
  {
  }

  /** A lock that was free stays free for the thread that works its way up to it. */
  lemma StillFree(s: State, s1: State, t: nat, want: seq<nat>, got: nat, exclusive: bool)
    requires Inv(s) && t !in s.threads && Ascending(want) && got < |want| && Free(s, want[got], exclusive)
    requires s1.threads == s.threads[t := Thread(want, got, exclusive, false)]
    requires s1.held == s.held + Locks(want[..got], t)
    ensures Enabled(s1, Acquire(t))
  {
    TakeOneMore(want, got, 0);
    NotHeld(s, t);
    forall u | (want[got], u) in s1.held && u in s1.threads ensures !exclusive && !s1.threads[u].exclusive {
      assert (want[got], u) in s.held;
    }
  }
}
