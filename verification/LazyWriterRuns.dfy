/** Runs of the cache manager's worker threads: no item is stranded, and the barrier that
    CcWaitForCurrentLazyWriterActivity relies on. */
module LazyWriterRuns {
  import opened Lists
  import opened LazyWriter

  // ----- Runs ----------------------------------------------------------------------

  /** All workers idle and nothing queued, as CcInitializeCacheManager leaves it. */
  ghost predicate Initial(s: State) {
    && s.express == [] && s.regular == [] && s.postTick == [] && !s.otherWork && !s.throttle && s.active == 0
    && s.scans == map[] && s.home == map[] && s.fn == map[]
    && NoDuplicates(s.idle)
    && (forall w :: w in s.idle <==> w in s.threads)
    && (forall w :: w in s.threads ==> s.threads[w] == Idle)
  }

  ghost predicate Runs(s: State, steps: seq<Step>)
    decreases steps
  {
    steps == [] || (Enabled(s, steps[0]) && Runs(Next(s, steps[0]), steps[1..]))
  }

  ghost function After(s: State, steps: seq<Step>): State
    requires Runs(s, steps)
    decreases steps
  {
    if steps == [] then s else After(Next(s, steps[0]), steps[1..])
  }

  lemma InitialInv(s: State)
    requires Initial(s)
    ensures Inv(s)
  {
    assert Busy(s) == {};
  }

  lemma {:induction false} InvRun(s: State, steps: seq<Step>)
    requires Inv(s) && Runs(s, steps)
    ensures Inv(After(s, steps)) && After(s, steps).threads.Keys == s.threads.Keys
    decreases steps
  {
    hide Inv, Next, Enabled;
    if steps != [] {
      InvStep(s, steps[0]);
      InvRun(Next(s, steps[0]), steps[1..]);
    }
  }

  lemma {:induction false} RunSplits(s: State, a: seq<Step>, b: seq<Step>)
    requires Runs(s, a + b)
    ensures Runs(s, a) && Runs(After(s, a), b) && After(s, a + b) == After(After(s, a), b)
    decreases a
  {
    hide Next, Enabled;
    if a == [] {
      assert a + b == b;
    } else {
      assert (a + b)[0] == a[0] && (a + b)[1..] == a[1..] + b;
      RunSplits(Next(s, a[0]), a[1..], b);
    }
  }

  /** In every reachable state idle and active workers make up the configured total, a
      throttle means an active worker, and so does a non-empty queue. */
  lemma NothingStranded(s: State, steps: seq<Step>)
    requires Initial(s) && Runs(s, steps) && s.idle != []
    ensures var t := After(s, steps);
            && |t.idle| + t.active == |s.idle|
            && (t.throttle ==> t.active > 0)
            && (t.express != [] || t.regular != [] ==> t.active > 0)
  {
    InitialInv(s);
    InvRun(s, steps);
    var t := After(s, steps);
    hide After, Runs, Placed, BarriersRegular;
    assert s.idle[0] in s.threads;
    if t.throttle {
      ThrottleHasWorker(t);
    }
    WorkersAddUp(t);
    WorkersAddUp(s);
  }

  lemma WorkersAddUp(s: State)
    requires Workers(s)
    ensures |s.idle| + s.active == |s.threads.Keys|
  {
    DistinctSize(s.idle);
    hide NoDuplicates;
    assert s.threads.Keys == Elements(s.idle) + Busy(s);
    assert Elements(s.idle) !! Busy(s);
  }

  lemma {:induction false} DistinctSize(q: seq<nat>)
    requires NoDuplicates(q)
    ensures |Elements(q)| == |q|
  {
    if q != [] {
      var first, rest := q[0], q[1..];
      DistinctSize(rest);
      assert q == [first] + rest;
      assert first !in rest;
      assert Elements(q) == {first} + Elements(rest);
    }
  }

  // ----- The barrier ------------------------------------------------------------------

  /** The item has reached a queue. */
  predicate Posted(s: State, x: nat) {
    x in s.home && s.home[x] != InTick && !s.home[x].InScan?
  }

  /** `x` lies in front of `e` wherever both are in the regular queue. */
  ghost predicate InFront(regular: seq<nat>, x: nat, e: nat) {
    forall i, j :: 0 <= i < |regular| && 0 <= j < |regular| && regular[i] == x && regular[j] == e ==> i < j
  }

  /** `x` is done, or `e` is still to be picked and cannot be picked before `x` is done. */
  ghost predicate Guards(s: State, x: nat, e: nat) {
    && x in s.home && e in s.home && e in s.fn && s.fn[e] == SetDone && x != e
    && (s.home[x] == Finished ||
        (!s.home[e].AtWorker? && s.home[e] != Finished && Posted(s, x) && InFront(s.regular, x, e)))
  }

  /** A barrier is picked only when no other worker handles anything, the express queue is
      empty and the barrier heads the regular queue. */
  lemma BarrierPick(s: State, w: nat)
    requires Inv(s) && w in s.threads && s.threads[w].Looping?
    requires s.express == [] && s.active <= 1
    ensures forall x :: x in s.home ==> !s.home[x].AtWorker? && s.home[x] != InExpress
  {
    InBusy(s, w);
    OnlyMember(Busy(s), w);
    hide NoDuplicates, BarriersRegular, ThrottleOwned, Attended, ScansPlaced;
    forall x | x in s.home ensures !s.home[x].AtWorker? && s.home[x] != InExpress {
      if s.home[x].AtWorker? {
        InBusy(s, s.home[x].w);
      }
    }
  }

  lemma OnlyMember(b: set<nat>, w: nat)
    requires w in b && |b| <= 1
    ensures b == {w}
  {
    assert |b - {w}| == |b| - 1;
  }

  lemma InFrontAppend(regular: seq<nat>, x: nat, e: nat, y: nat)
    requires InFront(regular, x, e) && y != x && (y == e ==> e !in regular)
    ensures InFront(regular + [y], x, e)
  {
  }

  lemma InFrontPop(regular: seq<nat>, x: nat, e: nat)
    requires InFront(regular, x, e) && regular != []
    ensures InFront(regular[1..], x, e)
  {
  }

  /** Where an item is decides which list it can be met in. */
  lemma HomeOfHead(s: State, queue: Queue)
    requires Placed(s)
    requires if queue == Express then s.express != [] else s.regular != []
    ensures var x := if queue == Express then s.express[0] else s.regular[0];
            x in s.home && s.home[x] == QueueHome(queue)
  {
    assert (if queue == Express then s.express[0] else s.regular[0]) in if queue == Express then s.express else s.regular;
  }

  lemma GuardsTaken(s: State, w: nat, queue: Queue, x: nat, e: nat)
    requires Inv(s) && Guards(s, x, e) && w in s.threads && s.threads[w].Looping?
    requires Choose(s) == Take(queue)
    ensures Guards(Taken(s, w, queue), x, e)
  {
    HomeOfHead(s, queue);
    if s.regular != [] {
      InFrontPop(s.regular, x, e);
    }
    var item := if queue == Express then s.express[0] else s.regular[0];
    if item == e {
      BarrierNotExpress(s, e);
      BarrierPick(s, w);
      if s.home[x] == InRegular {
        PositionOf(s, x);
      }
    }
  }

  lemma BarrierNotExpress(s: State, e: nat)
    requires Inv(s) && e in s.home && s.fn[e] == SetDone
    ensures s.home[e] != InExpress
  {
  }

  /** An item whose home is the regular queue is in it. */
  lemma PositionOf(s: State, x: nat)
    requires Placed(s) && x in s.home && s.home[x] == InRegular
    ensures x in s.regular
  {
  }

  lemma GuardsPick(s: State, w: nat, x: nat, e: nat)
    requires Inv(s) && Guards(s, x, e) && w in s.threads && s.threads[w].Looping?
    ensures Guards(PickNext(s, w), x, e)
  {
    var s1 := Lowered(s, w);
    assert Inv(s1) by { LoweredInv(s, w); }
    hide Inv, InFront, Taken;
    match Choose(s1) {
      case NothingToDo =>
      case LeaveToOthers =>
      case Take(queue) => GuardsTaken(s1, w, queue, x, e);
    }
  }

  lemma LoweredInv(s: State, w: nat)
    requires Inv(s) && w in s.threads && s.threads[w].Looping?
    ensures Inv(Lowered(s, w))
  {
    hide NoDuplicates, ThreadsPlaced, ScansPlaced, BarrierHomes;
  }

  lemma GuardsEnqueue(s: State, y: nat, queue: Queue, x: nat, e: nat)
    requires Guards(s, x, e) && y != x && (queue == Express ==> y != e) && (y == e ==> e !in s.regular)
    ensures Guards(Enqueue(s, y, queue), x, e)
  {
    if s.home[x] != Finished && queue == Regular {
      InFrontAppend(s.regular, x, e, y);
    }
    hide InFront;
  }

  lemma GuardsScanPost(s: State, k: Scanner, x: nat, e: nat)
    requires Inv(s) && Guards(s, x, e) && Enabled(s, ScanPost(k))
    ensures Guards(Next(s, ScanPost(k)), x, e)
  {
    ScansPop(s.scans, s.home, k, InRegular);
    var y := s.scans[k][0];
    assert y == e ==> e !in s.regular;
    hide Inv, InFront, Enqueue;
    GuardsEnqueue(s.(scans := s.scans[k := s.scans[k][1..]]), y, Regular, x, e);
  }

  lemma GuardsPost(s: State, item: nat, fn: Function, queue: Queue, x: nat, e: nat)
    requires Inv(s) && item !in s.home && Guards(s, x, e)
    ensures Guards(Enqueue(s.(fn := s.fn[item := fn]), item, queue), x, e)
  {
    hide Inv, InFront, Enqueue;
    GuardsEnqueue(s.(fn := s.fn[item := fn]), item, queue, x, e);
  }

  /** Every step keeps the guard. */
  lemma GuardsStep(s: State, step: Step, x: nat, e: nat)
    requires Inv(s) && Enabled(s, step) && Guards(s, x, e)
    ensures Guards(Next(s, step), x, e)
  {
    hide Inv, InFront, Enqueue, PickNext;
    match step {
      case Post(item, fn, queue) => GuardsPost(s, item, fn, queue, x, e);
      case Pick(w) => GuardsPick(s, w, x, e);
      case Finish(w) => FinishedHome(s, w);
      case Wait(item) =>
      case ScanBegin(k) =>
      case ScanPost(k) => GuardsScanPost(s, k, x, e);
      case ScanEnd(k) =>
    }
  }

  lemma FinishedHome(s: State, w: nat)
    requires Inv(s) && CanFinish(s, w)
    ensures s.threads[w].item in s.home && s.home[s.threads[w].item] == AtWorker(w)
  {
  }

  lemma {:induction false} GuardsRun(s: State, steps: seq<Step>, x: nat, e: nat)
    requires Inv(s) && Runs(s, steps) && Guards(s, x, e)
    ensures Guards(After(s, steps), x, e)
    decreases steps
  {
    hide Inv, Next, Enabled, Guards;
    if steps != [] {
      InvStep(s, steps[0]);
      GuardsStep(s, steps[0], x, e);
      GuardsRun(Next(s, steps[0]), steps[1..], x, e);
    }
  }

  /** The barrier.  In every run, once the SetDone item `e` of a waiter has been picked (so
      its event may be set), every item that reached either queue before `e` did has been
      removed and fully handled. */
  lemma Barrier(s: State, before: seq<Step>, later: seq<Step>, e: nat, x: nat)
    requires Initial(s) && Runs(s, before + later) && Runs(s, before)
    requires var m := After(s, before); e in m.home && e in m.fn && m.fn[e] == SetDone && !Posted(m, e) && Posted(m, x)
    requires var t := After(s, before + later); e in t.home && (t.home[e].AtWorker? || t.home[e] == Finished)
    ensures var t := After(s, before + later); x in t.home && t.home[x] == Finished
  {
    InitialInv(s);
    RunSplits(s, before, later);
    InvRun(s, before);
    UnpostedGuards(After(s, before), x, e);
    GuardsRun(After(s, before), later, x, e);
  }

  /** A barrier that is announced but not yet posted guards everything already posted. */
  lemma UnpostedGuards(s: State, x: nat, e: nat)
    requires Inv(s) && e in s.home && e in s.fn && s.fn[e] == SetDone && !Posted(s, e) && Posted(s, x)
    ensures Guards(s, x, e)
  {
    assert e !in s.regular;
  }

  /** So a waiter that is woken can rely on everything queued before it called
      CcWaitForCurrentLazyWriterActivity. */
  lemma WaitBarrier(s: State, before: seq<Step>, e: nat, later: seq<Step>, x: nat)
    requires Initial(s) && Runs(s, before + [Wait(e)] + later)
    requires Runs(s, before) && Posted(After(s, before), x)
    requires var t := After(s, before + [Wait(e)] + later); e in t.home && (t.home[e].AtWorker? || t.home[e] == Finished)
    ensures var t := After(s, before + [Wait(e)] + later); x in t.home && t.home[x] == Finished
  {
    InitialInv(s);
    assert before + [Wait(e)] + later == before + ([Wait(e)] + later);
    RunSplits(s, before, [Wait(e)] + later);
    InvRun(s, before);
    var m := After(s, before);
    assert ([Wait(e)] + later)[1..] == later;
    var m1 := Next(m, Wait(e));
    assert After(m, [Wait(e)] + later) == After(m1, later);
    InvStep(m, Wait(e));
    UnpostedGuards(m1, x, e);
    GuardsRun(m1, later, x, e);
  }
}
