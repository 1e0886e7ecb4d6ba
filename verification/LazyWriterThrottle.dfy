/** The throttle that makes room for a barrier: when it goes up, that no worker starts under
    it, and what takes it down again. */
module LazyWriterThrottle {
  import opened Lists
  import opened LazyWriter
  import opened LazyWriterRuns

  /** A barrier is next in line and more than one worker is active. */
  predicate BarrierMustWait(s: State) {
    s.express == [] && s.regular != [] && s.regular[0] in s.fn && s.fn[s.regular[0]] == SetDone && s.active > 1
  }

  /** A worker that finds a barrier it must leave to others raises the throttle, a worker
      that has handled a barrier lowers it, and no other turn touches it. */
  lemma TurnThrottles(s: State, w: nat)
    requires Inv(s) && Enabled(s, Pick(w))
    ensures Next(s, Pick(w)).throttle <==> BarrierMustWait(s) || (s.throttle && !s.threads[w].dropThrottle)
    ensures BarrierMustWait(s) ==> Next(s, Pick(w)).threads == s.threads[w := Idle]
  {
    hide Inv;
    if s.express != [] {
      ExpressHeadPlain(s);
    }
  }

  lemma ExpressHeadPlain(s: State)
    requires Inv(s) && s.express != []
    ensures s.express[0] in s.fn && s.fn[s.express[0]] != SetDone
  {
    hide Workers, ThrottleOwned, Attended, NoDuplicates, ScansPlaced, ThreadsPlaced;
    assert s.express[0] in s.express;
  }

  /** While the throttle is up no step starts a worker. */
  lemma NobodyStarts(s: State, step: Step)
    requires Enabled(s, step) && s.throttle
    ensures Busy(Next(s, step)) <= Busy(s)
  {
    match step {
      case Post(item, fn, queue) =>
      case Pick(w) =>
      case Finish(w) =>
      case Wait(item) =>
      case ScanBegin(k) =>
      case ScanPost(k) =>
      case ScanEnd(k) =>
    }
  }

  /** Only a worker that has handled a barrier takes the throttle down. */
  lemma LoweredBy(s: State, step: Step)
    requires Enabled(s, step) && s.throttle && !Next(s, step).throttle
    ensures step.Pick? && s.threads[step.w] == Looping(true)
  {
  }

  predicate FinishesBarrier(s: State, step: Step) {
    step.Finish? && CanFinish(s, step.w) && s.fn[s.threads[step.w].item] == SetDone
  }

  /** A worker comes to lower the throttle exactly by finishing a barrier. */
  lemma LowersIff(s: State, step: Step, w: nat)
    requires Inv(s) && Enabled(s, step) && w in s.threads && s.threads[w] != Looping(true)
    ensures w in Next(s, step).threads
    ensures Next(s, step).threads[w] == Looping(true) <==> FinishesBarrier(s, step) && step.w == w
  {
    hide Inv, Enqueue, PickNext;
    match step {
      case Post(item, fn, queue) => EnqueueThreads(s, s.(fn := s.fn[item := fn]), item, queue);
      case Pick(v) => PickThreads(s, v);
      case Finish(v) =>
      case Wait(item) =>
      case ScanBegin(k) =>
      case ScanPost(k) => EnqueueThreads(s, s.(scans := s.scans[k := s.scans[k][1..]]), s.scans[k][0], Regular);
      case ScanEnd(k) =>
    }
  }

  lemma EnqueueThreads(s: State, s1: State, item: nat, queue: Queue)
    requires Inv(s) && s1.threads == s.threads && s1.idle == s.idle
    ensures var t := Enqueue(s1, item, queue);
            t.threads.Keys == s.threads.Keys && forall w :: w in s.threads ==> t.threads[w] == s.threads[w] || t.threads[w] == Looping(false)
  {
    hide Placed, BarriersRegular, ThrottleOwned, Attended, NoDuplicates;
    if s.idle != [] {
      assert s.idle[0] in s.idle;
    }
  }

  lemma PickThreads(s: State, v: nat)
    requires v in s.threads && s.threads[v].Looping?
    ensures var t := PickNext(s, v);
            v in t.threads && !t.threads[v].Looping? && t.threads == s.threads[v := t.threads[v]]
  {
    var s1 := Lowered(s, v);
    assert s1.threads == s.threads;
    hide Lowered;
    match Choose(s1) {
      case NothingToDo => assert PickNext(s, v).threads == s.threads[v := Idle];
      case LeaveToOthers => assert PickNext(s, v).threads == s.threads[v := Idle];
      case Take(queue) =>
        var item := if queue == Express then s1.express[0] else s1.regular[0];
        assert PickNext(s, v).threads == s.threads[v := Running(item, Fresh)];
    }
  }

  /** No barrier is finished in the run. */
  ghost predicate NoBarrierDone(s: State, steps: seq<Step>)
    requires Runs(s, steps)
    decreases steps
  {
    steps == [] || (!FinishesBarrier(s, steps[0]) && NoBarrierDone(Next(s, steps[0]), steps[1..]))
  }

  ghost predicate NobodyLowers(s: State) {
    forall w :: w in s.threads ==> s.threads[w] != Looping(true)
  }

  /** Once up, the throttle stays up and the workers at work only become fewer, in every run,
      until a barrier has been handled. */
  lemma {:induction false} HeldUntilDone(s: State, steps: seq<Step>)
    requires Inv(s) && Runs(s, steps) && s.throttle && NobodyLowers(s) && NoBarrierDone(s, steps)
    ensures After(s, steps).throttle && Busy(After(s, steps)) <= Busy(s)
    decreases steps
  {
    hide Inv, Next, Enabled, Busy, FinishesBarrier;
    if steps != [] {
      var t := Next(s, steps[0]);
      InvStep(s, steps[0]);
      NobodyStarts(s, steps[0]);
      if !t.throttle {
        LoweredBy(s, steps[0]);
        LoweringPicker(s, steps[0]);
      }
      SameThreads(s, steps[0]);
      forall w | w in t.threads ensures t.threads[w] != Looping(true) {
        LowersIff(s, steps[0], w);
      }
      HeldUntilDone(t, steps[1..]);
    }
  }

  lemma LoweringPicker(s: State, step: Step)
    requires Enabled(s, step) && step.Pick?
    ensures step.w in s.threads
  {
  }

  lemma SameThreads(s: State, step: Step)
    requires Inv(s) && Enabled(s, step)
    ensures Next(s, step).threads.Keys == s.threads.Keys
  {
    hide Inv, Next, Enabled;
    assert Runs(s, [step]) by { assert [step][1..] == []; }
    assert After(s, [step]) == Next(s, step) by { assert [step][1..] == []; }
    InvRun(s, [step]);
  }
}
