/** Draining of the work queues: once nobody else posts new work, every schedule of the
    workers and scans, with the items the scans post themselves, is finite and ends with
    every posted item handled. */
module LazyWriterDrain {
  import opened Lists
  import opened LazyWriter
  import opened LazyWriterRuns

  predicate PhaseFits(t: Thread, open: bool, fn: map<nat, Function>) {
    if t.Running? then (t.phase == Scanning <==> open) && (t.phase != Fresh ==> t.item in fn && fn[t.item] == LazyScan)
    else !open
  }

  /** A scan of a worker is open exactly while that worker is in the scanning phase, and
      only LazyScan items are scanned for. */
  ghost predicate PhasesFit(threads: map<nat, Thread>, scans: map<Scanner, seq<nat>>, fn: map<nat, Function>) {
    && (forall w :: w in threads ==> PhaseFits(threads[w], Worker(w) in scans, fn))
    && (forall w :: Worker(w) in scans ==> w in threads)
  }

  ghost predicate Phases(s: State) {
    PhasesFit(s.threads, s.scans, s.fn)
  }

  /** The steps that work off what is queued, without bringing in anything new. */
  predicate Quiet(step: Step) {
    step.Pick? || step.Finish? || step.ScanPost? || step.ScanEnd? || (step.ScanBegin? && step.scanner.Worker?)
  }

  // ----- The phases are kept ---------------------------------------------------------

  lemma ChangeThread(threads: map<nat, Thread>, scans: map<Scanner, seq<nat>>, fn: map<nat, Function>, w: nat, t: Thread)
    requires PhasesFit(threads, scans, fn) && w in threads && PhaseFits(t, Worker(w) in scans, fn)
    ensures PhasesFit(threads[w := t], scans, fn)
  {
  }

  lemma EnqueuePhases(s: State, item: nat, queue: Queue)
    requires Workers(s) && Phases(s)
    ensures Phases(Enqueue(s, item, queue))
  {
    if s.idle != [] {
      assert s.idle[0] in s.idle;
      ChangeThread(s.threads, s.scans, s.fn, s.idle[0], Looping(false));
    }
    hide PhasesFit, Workers;
  }

  lemma PickPhases(s: State, w: nat)
    requires Phases(s) && w in s.threads && s.threads[w].Looping?
    ensures Phases(PickNext(s, w))
  {
    var t := PickNext(s, w).threads[w];
    ChangeThread(s.threads, s.scans, s.fn, w, t);
    hide PhasesFit;
    match Choose(Lowered(s, w)) {
      case NothingToDo =>
      case LeaveToOthers =>
      case Take(queue) =>
    }
  }

  lemma FinishPhases(s: State, w: nat)
    requires Phases(s) && CanFinish(s, w)
    ensures Phases(Next(s, Finish(w)))
  {
    ChangeThread(s.threads, s.scans, s.fn, w, Looping(s.fn[s.threads[w].item] == SetDone));
  }

  lemma ScanBeginPhases(s: State, k: Scanner)
    requires Phases(s) && CanScan(s, k)
    ensures Phases(Next(s, ScanBegin(k)))
  {
  }

  lemma ScanPostPhases(s: State, k: Scanner)
    requires Phases(s) && Workers(s) && Enabled(s, ScanPost(k))
    ensures Phases(Next(s, ScanPost(k)))
  {
    var s1 := s.(scans := s.scans[k := s.scans[k][1..]]);
    assert Phases(s1) && Workers(s1);
    hide PhasesFit, Workers, Enqueue;
    EnqueuePhases(s1, s.scans[k][0], Regular);
  }

  lemma ScanEndPhases(s: State, k: Scanner)
    requires Phases(s) && Enabled(s, ScanEnd(k))
    ensures Phases(Next(s, ScanEnd(k)))
  {
  }

  /** A new item is at no worker yet. */
  lemma NewFnPhases(s: State, item: nat, fn: Function)
    requires Inv(s) && Phases(s) && item !in s.home
    ensures Phases(s.(fn := s.fn[item := fn])) && Workers(s.(fn := s.fn[item := fn]))
  {
    hide NoDuplicates, ThrottleOwned, Attended, BarriersRegular, ScansPlaced;
    SameWorkers(s, s.(fn := s.fn[item := fn]));
  }

  lemma PhasesStep(s: State, step: Step)
    requires Inv(s) && Phases(s) && Enabled(s, step)
    ensures Phases(Next(s, step))
  {
    assert Workers(s);
    hide Inv, PhasesFit, Workers, Enqueue, PickNext;
    match step {
      case Post(item, fn, queue) =>
        NewFnPhases(s, item, fn);
        EnqueuePhases(s.(fn := s.fn[item := fn]), item, queue);
      case Pick(w) => PickPhases(s, w);
      case Finish(w) => FinishPhases(s, w);
      case Wait(item) => NewFnPhases(s, item, SetDone);
      case ScanBegin(k) => ScanBeginPhases(s, k);
      case ScanPost(k) => ScanPostPhases(s, k);
      case ScanEnd(k) => ScanEndPhases(s, k);
    }
  }

  // ----- The work left ---------------------------------------------------------------

  function Weight(t: Thread, fn: map<nat, Function>): nat {
    match t
    case Idle => 0
    case Looping(_) => 1
    case Running(item, phase) =>
      if item in fn && fn[item] == LazyScan then
        match phase case Fresh => 5 case Scanning => 3 case Handled => 2
      else 2
  }

  ghost function Weights(keys: set<nat>, threads: map<nat, Thread>, fn: map<nat, Function>): nat
    requires keys <= threads.Keys
  {
    if keys == {} then 0 else
    var w :| w in keys;
    Weight(threads[w], fn) + Weights(keys - {w}, threads, fn)
  }

  lemma {:induction false} WeightsOf(keys: set<nat>, threads: map<nat, Thread>, fn: map<nat, Function>, w: nat)
    requires keys <= threads.Keys && w in keys
    ensures Weights(keys, threads, fn) == Weight(threads[w], fn) + Weights(keys - {w}, threads, fn)
  {
    var v :| v in keys && Weights(keys, threads, fn) == Weight(threads[v], fn) + Weights(keys - {v}, threads, fn);
    if v != w {
      WeightsOf(keys - {v}, threads, fn, w);
      assert keys - {v} - {w} == keys - {w} - {v};
      WeightsOf(keys - {w}, threads, fn, v);
    }
  }

  lemma {:induction false} SameWeights(keys: set<nat>, threads: map<nat, Thread>, fn: map<nat, Function>, w: nat, t: Thread)
    requires keys <= threads.Keys && w !in keys
    ensures keys <= threads[w := t].Keys && Weights(keys, threads[w := t], fn) == Weights(keys, threads, fn)
  {
    if keys != {} {
      var v :| v in keys;
      WeightsOf(keys, threads, fn, v);
      WeightsOf(keys, threads[w := t], fn, v);
      SameWeights(keys - {v}, threads, fn, w, t);
    }
  }

  /** Changing one thread changes the sum by that thread's difference. */
  lemma WeightChange(threads: map<nat, Thread>, fn: map<nat, Function>, w: nat, t: Thread)
    requires w in threads
    ensures threads[w := t].Keys == threads.Keys
    ensures Weights(threads.Keys, threads[w := t], fn) + Weight(threads[w], fn)
         == Weights(threads.Keys, threads, fn) + Weight(t, fn)
  {
    var keys := threads.Keys;
    WeightsOf(keys, threads, fn, w);
    WeightsOf(keys, threads[w := t], fn, w);
    SameWeights(keys - {w}, threads, fn, w, t);
  }

  function InScans(home: map<nat, Home>): set<nat> {
    set x | x in home && home[x].InScan?
  }

  /** A measure of the work left to do. */
  ghost function Left(s: State): nat {
    8 * |s.postTick| + 7 * |InScans(s.home)| + 5 * (|s.express| + |s.regular|)
    + Weights(s.threads.Keys, s.threads, s.fn) + |s.scans|
  }

  lemma SameInScans(home: map<nat, Home>, x: nat, h: Home)
    requires (x in home ==> !home[x].InScan?) && !h.InScan?
    ensures InScans(home[x := h]) == InScans(home)
  {
  }

  lemma TakenLeft(s: State, w: nat, queue: Queue)
    requires Placed(s) && w in s.threads && s.threads[w].Looping?
    requires if queue == Express then s.express != [] else s.regular != []
    ensures Left(Taken(s, w, queue)) < Left(s)
  {
    HomeOfHead(s, queue);
    var item := if queue == Express then s.express[0] else s.regular[0];
    SameInScans(s.home, item, AtWorker(w));
    WeightChange(s.threads, s.fn, w, Running(item, Fresh));
  }

  lemma PickLeft(s: State, w: nat)
    requires Placed(s) && w in s.threads && s.threads[w].Looping?
    ensures Left(PickNext(s, w)) < Left(s)
  {
    hide Taken, InScans, Weights;
    WeightChange(s.threads, s.fn, w, Idle);
    var s1 := Lowered(s, w);
    assert Left(s1) == Left(s);
    match Choose(s1) {
      case NothingToDo =>
      case LeaveToOthers =>
      case Take(queue) =>
        TakenLeft(s1, w, queue);
    }
  }

  lemma FinishLeft(s: State, w: nat)
    requires Placed(s) && CanFinish(s, w)
    ensures Left(Next(s, Finish(w))) < Left(s)
  {
    hide Holds, ScansPlaced;
    var item := s.threads[w].item;
    SameInScans(s.home, item, Finished);
    WeightChange(s.threads, s.fn, w, Looping(s.fn[item] == SetDone));
  }

  /** Enqueueing adds one item and at most wakes one worker. */
  lemma EnqueueLeft(s: State, x: nat)
    requires Workers(s)
    ensures var t := Enqueue(s, x, Regular);
            && t.postTick == s.postTick && t.scans == s.scans && t.home == s.home[x := InRegular]
            && |t.express| + |t.regular| == |s.express| + |s.regular| + 1
            && Weights(t.threads.Keys, t.threads, t.fn) <= Weights(s.threads.Keys, s.threads, s.fn) + 1
  {
    if s.idle != [] {
      assert s.idle[0] in s.idle;
      WeightChange(s.threads, s.fn, s.idle[0], Looping(false));
    }
    hide Workers, Weights;
  }

  lemma PoppedScan(scans: map<Scanner, seq<nat>>, home: map<nat, Home>, k: Scanner)
    requires ScansPlaced(scans, home) && k in scans && scans[k] != []
    ensures |InScans(home[scans[k][0] := InRegular])| == |InScans(home)| - 1
    ensures |scans[k := scans[k][1..]]| == |scans|
  {
    ScansPop(scans, home, k, InRegular);
    hide ScansPlaced;
    var x := scans[k][0];
    assert InScans(home[x := InRegular]) == InScans(home) - {x};
    assert scans[k := scans[k][1..]].Keys == scans.Keys;
  }

  lemma ScanPostLeft(s: State, k: Scanner)
    requires Placed(s) && Workers(s) && Enabled(s, ScanPost(k))
    ensures Left(Next(s, ScanPost(k))) < Left(s)
  {
    hide Holds, ScansPlaced, ThreadsPlaced, Workers, InScans, Weights, Enqueue;
    PoppedScan(s.scans, s.home, k);
    var s1 := s.(scans := s.scans[k := s.scans[k][1..]]);
    SameWorkers(s, s1);
    EnqueueLeft(s1, s.scans[k][0]);
  }

  lemma ScanBeginLeft(s: State, w: nat)
    requires Placed(s) && Enabled(s, ScanBegin(Worker(w))) && (s.postTick != [] ==> s.otherWork)
    ensures Left(Next(s, ScanBegin(Worker(w)))) < Left(s)
  {
    WeightChange(s.threads, s.fn, w, s.threads[w].(phase := Scanning));
    DrainedScans(s.home, s.postTick, Worker(w));
    NewScanSize(s.scans, Worker(w), s.postTick);
    NewScanSize(s.scans, Worker(w), []);
    hide Placed, InScans, Weights;
  }

  function Drained(home: map<nat, Home>, k: Scanner): map<nat, Home> {
    map x | x in home :: if home[x] == InTick then InScan(k) else home[x]
  }

  lemma DrainedScans(home: map<nat, Home>, tick: seq<nat>, k: Scanner)
    requires Holds(tick, home, InTick)
    ensures |InScans(Drained(home, k))| == |InScans(home)| + |tick|
  {
    DistinctSize(tick);
    hide NoDuplicates;
    assert InScans(Drained(home, k)) == InScans(home) + Elements(tick);
    assert InScans(home) !! Elements(tick);
  }

  lemma NewScanSize(scans: map<Scanner, seq<nat>>, k: Scanner, list: seq<nat>)
    requires k !in scans
    ensures |scans[k := list]| == |scans| + 1
  {
    assert scans[k := list].Keys == scans.Keys + {k};
  }

  lemma ScanEndLeft(s: State, k: Scanner)
    requires Phases(s) && Enabled(s, ScanEnd(k))
    ensures Left(Next(s, ScanEnd(k))) < Left(s)
  {
    hide Weights, CanFinish, CanScan;
    OneScanLess(s.scans, k);
    if k.Worker? {
      assert k.w in s.threads;
      assert PhaseFits(s.threads[k.w], true, s.fn);
      WeightChange(s.threads, s.fn, k.w, s.threads[k.w].(phase := Handled));
    }
  }

  lemma OneScanLess(scans: map<Scanner, seq<nat>>, k: Scanner)
    requires k in scans
    ensures |map j | j in scans && j != k :: scans[j]| == |scans| - 1
  {
    assert (map j | j in scans && j != k :: scans[j]).Keys == scans.Keys - {k};
  }

  /** Every quiet step leaves less work. */
  lemma QuietShrinks(s: State, step: Step)
    requires Inv(s) && Phases(s) && Enabled(s, step) && Quiet(step)
    ensures Left(Next(s, step)) < Left(s)
  {
    assert Placed(s) && Workers(s) && (s.postTick != [] ==> s.otherWork);
    hide Inv, Placed, Workers, Phases, Left, Enqueue, PickNext, MarkPhase;
    match step {
      case Pick(w) => PickLeft(s, w);
      case Finish(w) => FinishLeft(s, w);
      case ScanBegin(k) => ScanBeginLeft(s, k.w);
      case ScanPost(k) => ScanPostLeft(s, k);
      case ScanEnd(k) => ScanEndLeft(s, k);
    }
  }

  // ----- What scans post themselves -----------------------------------------------------

  /** The WriteBehind item a scan posts of its own accord. */
  predicate ScanWrite(step: Step) {
    step.Post? && step.fn == WriteBehind && step.queue == Regular
  }

  /** LazyScan items whose scan has not begun. */
  function Unscanned(s: State): set<nat> {
    set x | x in s.home && x in s.fn && s.fn[x] == LazyScan && Waiting(s, x)
  }

  predicate Waiting(s: State, x: nat)
    requires x in s.home
  {
    || s.home[x] == InExpress || s.home[x] == InRegular
    || (s.home[x].AtWorker? && s.home[x].w in s.threads && s.threads[s.home[x].w] == Running(x, Fresh))
  }

  lemma Fewer(x: set<nat>, y: set<nat>)
    requires x <= y
    ensures |x| <= |y|
  {
    if x != {} {
      var a :| a in x;
      Fewer(x - {a}, y - {a});
    }
  }

  lemma TakenUnscanned(s: State, w: nat, queue: Queue)
    requires Placed(s) && w in s.threads && s.threads[w].Looping?
    requires if queue == Express then s.express != [] else s.regular != []
    ensures Unscanned(Taken(s, w, queue)) <= Unscanned(s)
  {
    hide Holds, ScansPlaced, NoDuplicates, ThreadsPlaced;
    HomeOfHead(s, queue);
  }

  lemma PickUnscanned(s: State, w: nat)
    requires Placed(s) && w in s.threads && s.threads[w].Looping?
    ensures Unscanned(PickNext(s, w)) <= Unscanned(s)
  {
    hide Holds, ScansPlaced, NoDuplicates, ThreadsPlaced, Taken;
    var s1 := Lowered(s, w);
    match Choose(s1) {
      case NothingToDo =>
      case LeaveToOthers =>
      case Take(queue) => TakenUnscanned(s1, w, queue);
    }
  }

  lemma FinishUnscanned(s: State, w: nat)
    requires Placed(s) && CanFinish(s, w)
    ensures Unscanned(Next(s, Finish(w))) <= Unscanned(s)
  {
    hide Holds, ScansPlaced;
  }

  lemma ScanPostUnscanned(s: State, k: Scanner)
    requires Inv(s) && Enabled(s, ScanPost(k))
    ensures Unscanned(Next(s, ScanPost(k))) <= Unscanned(s)
  {
    hide Holds, ScansPlaced, ThrottleOwned, Attended, NoDuplicates;
    ScansPop(s.scans, s.home, k, InRegular);
    PoppedIsBarrier(s, k);
    IdleFirst(s);
  }

  lemma IdleFirst(s: State)
    requires Workers(s)
    ensures s.idle != [] ==> s.idle[0] in s.threads && s.threads[s.idle[0]].Idle?
  {
    hide NoDuplicates;
    if s.idle != [] {
      assert s.idle[0] in s.idle;
    }
  }

  lemma PoppedIsBarrier(s: State, k: Scanner)
    requires Inv(s) && k in s.scans && s.scans[k] != []
    ensures s.scans[k][0] in s.fn && s.fn[s.scans[k][0]] == SetDone
  {
    hide Workers, ThrottleOwned, Attended, NoDuplicates, ThreadsPlaced;
    assert s.scans[k][0] in s.scans[k];
  }

  lemma ScanEndUnscanned(s: State, k: Scanner)
    requires Enabled(s, ScanEnd(k))
    ensures Unscanned(Next(s, ScanEnd(k))) <= Unscanned(s)
  {
  }

  /** When its scan begins, the item has had its turn. */
  lemma ScanBeginUnscanned(s: State, w: nat)
    requires Placed(s) && Enabled(s, ScanBegin(Worker(w)))
    ensures var item := s.threads[w].item;
            item in Unscanned(s) && Unscanned(Next(s, ScanBegin(Worker(w)))) <= Unscanned(s) - {item}
  {
    hide Holds, ScansPlaced;
  }

  lemma {:induction false} SameFnWeights(keys: set<nat>, threads: map<nat, Thread>, fn: map<nat, Function>, x: nat, f: Function)
    requires keys <= threads.Keys && forall w :: w in keys && threads[w].Running? ==> threads[w].item != x
    ensures Weights(keys, threads, fn[x := f]) == Weights(keys, threads, fn)
  {
    if keys != {} {
      var v :| v in keys;
      WeightsOf(keys, threads, fn, v);
      WeightsOf(keys, threads, fn[x := f], v);
      SameFnWeights(keys - {v}, threads, fn, x, f);
    }
  }

  /** The scan's own item adds the work of one item, and no scan. */
  lemma ScanWriteLeft(s: State, item: nat)
    requires Inv(s) && item !in s.home
    ensures var t := Next(s, Post(item, WriteBehind, Regular)); Left(t) <= Left(s) + 6 && Unscanned(t) <= Unscanned(s)
  {
    NewItemLeft(s, item);
    NewItemUnscanned(s, item);
  }

  lemma NewItemLeft(s: State, item: nat)
    requires Inv(s) && item !in s.home
    ensures Left(Next(s, Post(item, WriteBehind, Regular))) <= Left(s) + 6
  {
    var s1 := s.(fn := s.fn[item := WriteBehind]);
    SameWorkers(s, s1);
    NotRunning(s, item);
    SameFnWeights(s.threads.Keys, s.threads, s.fn, item, WriteBehind);
    hide Inv, Weights, InScans, Enqueue, Workers;
    EnqueueLeft(s1, item);
    SameInScans(s.home, item, InRegular);
  }

  lemma NotRunning(s: State, item: nat)
    requires Inv(s) && item !in s.home
    ensures forall w :: w in s.threads && s.threads[w].Running? ==> s.threads[w].item != item
  {
    hide Workers, ThrottleOwned, Attended, Holds, ScansPlaced, BarriersRegular;
  }

  lemma NewItemUnscanned(s: State, item: nat)
    requires Inv(s) && item !in s.home
    ensures Unscanned(Next(s, Post(item, WriteBehind, Regular))) <= Unscanned(s)
  {
    hide Placed, ThrottleOwned, Attended, BarriersRegular, NoDuplicates;
    IdleFirst(s);
  }

  /** The work left when `credit` scans that have begun may still post an item. */
  ghost function Owed(s: State, credit: nat): nat {
    Left(s) + 8 * |Unscanned(s)| + 7 * credit
  }

  lemma QuietOwed(s: State, step: Step, credit: nat)
    requires Inv(s) && Phases(s) && Enabled(s, step) && Quiet(step)
    ensures Owed(Next(s, step), credit + if step.ScanBegin? then 1 else 0) < Owed(s, credit)
  {
    assert Placed(s);
    hide Inv, Placed, Phases, Left, Unscanned, Next, Enabled, PickNext;
    QuietShrinks(s, step);
    UnscannedStep(s, step);
    Fewer(Unscanned(Next(s, step)), Unscanned(s));
    if step.ScanBegin? {
      ScanBeginUnscanned(s, step.scanner.w);
      Fewer(Unscanned(Next(s, step)), Unscanned(s) - {ScannedItem(s, step)});
    }
  }

  ghost function ScannedItem(s: State, step: Step): nat
    requires step.ScanBegin? && Quiet(step) && Enabled(s, step)
  {
    s.threads[step.scanner.w].item
  }

  lemma UnscannedStep(s: State, step: Step)
    requires Inv(s) && Enabled(s, step) && Quiet(step)
    ensures Unscanned(Next(s, step)) <= Unscanned(s)
  {
    assert Placed(s);
    hide Inv, Placed, Unscanned, PickNext, Enqueue, MarkPhase;
    match step {
      case Pick(w) => PickUnscanned(s, w);
      case Finish(w) => FinishUnscanned(s, w);
      case ScanBegin(k) => ScanBeginUnscanned(s, k.w);
      case ScanPost(k) => ScanPostUnscanned(s, k);
      case ScanEnd(k) => ScanEndUnscanned(s, k);
    }
  }

  // ----- Draining ----------------------------------------------------------------------

  /** A schedule that works off what is queued: quiet steps, and for every scan that has
      begun at most one WriteBehind item of its own. */
  ghost predicate Paid(steps: seq<Step>, credit: nat)
    decreases |steps|
  {
    || steps == []
    || (Quiet(steps[0]) && Paid(steps[1..], credit + if steps[0].ScanBegin? then 1 else 0))
    || (ScanWrite(steps[0]) && credit > 0 && Paid(steps[1..], credit - 1))
  }

  /** Such a schedule is no longer than the work left. */
  lemma {:induction false} PaidRunEnds(s: State, steps: seq<Step>, credit: nat)
    requires Inv(s) && Phases(s) && Runs(s, steps) && Paid(steps, credit)
    ensures |steps| <= Owed(s, credit)
    decreases |steps|
  {
    hide Inv, Phases, Next, Left, Unscanned, ScanWrite;
    if steps != [] {
      InvStep(s, steps[0]);
      PhasesStep(s, steps[0]);
      if Quiet(steps[0]) && Paid(steps[1..], credit + if steps[0].ScanBegin? then 1 else 0) {
        QuietOwed(s, steps[0], credit);
        PaidRunEnds(Next(s, steps[0]), steps[1..], credit + if steps[0].ScanBegin? then 1 else 0);
      } else {
        ScanWriteIs(steps[0]);
        ScanWriteLeft(s, steps[0].item);
        Fewer(Unscanned(Next(s, steps[0])), Unscanned(s));
        PaidRunEnds(Next(s, steps[0]), steps[1..], credit - 1);
      }
    }
  }

  lemma ScanWriteIs(step: Step)
    requires ScanWrite(step)
    ensures step.Post? && step == Post(step.item, WriteBehind, Regular)
  {
  }

  /** A worker that is not idle can always go on. */
  lemma BusyCanStep(s: State, w: nat) returns (step: Step)
    requires Inv(s) && Phases(s) && w in s.threads && !s.threads[w].Idle?
    ensures Quiet(step) && Enabled(s, step)
  {
    assert PhaseFits(s.threads[w], Worker(w) in s.scans, s.fn);
    assert s.threads[w].Running? ==> s.threads[w].item in s.fn;
    hide Inv, Phases;
    match s.threads[w] {
      case Looping(_) => step := Pick(w);
      case Running(item, phase) =>
        if s.fn[item] != LazyScan || phase == Handled {
          step := Finish(w);
        } else if phase == Fresh {
          step := ScanBegin(Worker(w));
        } else {
          step := if s.scans[Worker(w)] == [] then ScanEnd(Worker(w)) else ScanPost(Worker(w));
        }
    }
  }

  /** When no quiet step is possible any more, every posted item has been handled. */
  lemma DrainedIsDone(s: State, x: nat)
    requires Inv(s) && Phases(s) && s.threads != map[]
    requires forall step :: Quiet(step) ==> !Enabled(s, step)
    requires Posted(s, x)
    ensures s.home[x] == Finished
  {
    AllIdle(s);
    assert Busy(s) == {};
    hide NoDuplicates, ScansPlaced, Phases;
  }

  lemma AllIdle(s: State)
    requires Inv(s) && Phases(s)
    requires forall step :: Quiet(step) ==> !Enabled(s, step)
    ensures forall w :: w in s.threads ==> s.threads[w].Idle?
  {
    hide Inv, Phases, Enabled;
    forall w | w in s.threads ensures s.threads[w].Idle? {
      if !s.threads[w].Idle? {
        var step := BusyCanStep(s, w);
      }
    }
  }

  /** From any reachable state with a worker: work off what is queued until no more is
      possible, in any order, with every scan posting its WriteBehind item or not, and every
      posted item ends up handled. */
  lemma Drains(s: State, steps: seq<Step>, last: seq<Step>, x: nat)
    requires Initial(s) && s.idle != [] && Runs(s, steps) && Runs(After(s, steps), last)
    requires Paid(last, |After(s, steps).scans|) && Posted(After(s, steps), x)
    requires var t := After(After(s, steps), last); forall step :: Quiet(step) ==> !Enabled(t, step)
    ensures |last| <= Owed(After(s, steps), |After(s, steps).scans|)
    ensures var t := After(After(s, steps), last); x in t.home && t.home[x] == Finished
  {
    InitialInv(s);
    assert s.idle[0] in s.threads;
    hide Inv, Next, Enabled, Owed, Initial;
    InvRun(s, steps);
    PhasesRun(s, steps);
    var m := After(s, steps);
    PaidRunEnds(m, last, |m.scans|);
    InvRun(m, last);
    PhasesRun(m, last);
    PostedRun(m, last, x);
    DrainedIsDone(After(m, last), x);
  }

  lemma {:induction false} PhasesRun(s: State, steps: seq<Step>)
    requires Inv(s) && Phases(s) && Runs(s, steps)
    ensures Phases(After(s, steps))
    decreases steps
  {
    hide Inv, Phases, Next, Enabled;
    if steps != [] {
      InvStep(s, steps[0]);
      PhasesStep(s, steps[0]);
      PhasesRun(Next(s, steps[0]), steps[1..]);
    }
  }

  lemma {:induction false} PostedRun(s: State, steps: seq<Step>, x: nat)
    requires Inv(s) && Runs(s, steps) && Posted(s, x)
    ensures Posted(After(s, steps), x)
    decreases steps
  {
    hide Inv, Next, Enabled, Posted;
    if steps != [] {
      InvStep(s, steps[0]);
      PostedStep(s, steps[0], x);
      PostedRun(Next(s, steps[0]), steps[1..], x);
    }
  }

  /** A posted item never goes back. */
  lemma PostedStep(s: State, step: Step, x: nat)
    requires Inv(s) && Enabled(s, step) && Posted(s, x)
    ensures Posted(Next(s, step), x)
  {
    hide Inv, PickNext;
    match step {
      case Post(item, fn, queue) =>
      case Pick(w) => PickPosted(s, w, x);
      case Finish(w) =>
      case Wait(item) =>
      case ScanBegin(k) =>
      case ScanPost(k) =>
      case ScanEnd(k) =>
    }
  }

  lemma PickPosted(s: State, w: nat, x: nat)
    requires w in s.threads && s.threads[w].Looping? && Posted(s, x)
    ensures Posted(PickNext(s, w), x)
  {
    match Choose(Lowered(s, w)) {
      case NothingToDo =>
      case LeaveToOthers =>
      case Take(queue) =>
    }
  }
}
