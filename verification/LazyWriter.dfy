/** The cache manager's worker threads as a state machine.

    Each step is one critical section on the work-queue lock (or, for the post-tick
    queue, on the master lock) of CcPostWorkQueue, CcWorkerThread, CcLazyWriteScan or
    CcWaitForCurrentLazyWriterActivity, so a run is any interleaving of any number of
    posters, workers, scans and waiters. */
module LazyWriter {
  import opened Lists

  datatype Function = ReadAhead | WriteBehind | LazyScan | SetDone | Unknown

  datatype Queue = Express | Regular

  /** Whoever is inside CcLazyWriteScan: a worker handling a LazyScan item, or a thread
      that calls it after leaving the worker loop. */
  datatype Scanner = Worker(w: nat) | Detached(n: nat)

  datatype Phase = Fresh | Scanning | Handled

  /** A worker thread: on the idle list, about to take the lock, or handling an item. */
  datatype Thread = Idle | Looping(dropThrottle: bool) | Running(item: nat, phase: Phase)

  /** The one place a work item is in. */
  datatype Home = InExpress | InRegular | InTick | InScan(scanner: Scanner) | AtWorker(w: nat) | Finished

  /** `home` and `fn` are history: where each item ever queued is, and what it asks for. */
  datatype State = State(
    express: seq<nat>, regular: seq<nat>, idle: seq<nat>, active: nat, throttle: bool,
    postTick: seq<nat>, otherWork: bool,
    threads: map<nat, Thread>, scans: map<Scanner, seq<nat>>,
    home: map<nat, Home>, fn: map<nat, Function>)

  datatype Step =
    | Post(item: nat, fn: Function, queue: Queue)
    | Pick(w: nat)
    | Finish(w: nat)
    | Wait(item: nat)
    | ScanBegin(scanner: Scanner)
    | ScanPost(scanner: Scanner)
    | ScanEnd(scanner: Scanner)

  // ----- The steps ------------------------------------------------------------------

  /** CcPostWorkQueue: append, and wake an idle worker unless throttled. */
  function Enqueue(s: State, item: nat, queue: Queue): State {
    var s1 := match queue
      case Express => s.(express := s.express + [item], home := s.home[item := InExpress])
      case Regular => s.(regular := s.regular + [item], home := s.home[item := InRegular]);
    if !s.throttle && s.idle != [] then
      s1.(idle := s.idle[1..], active := s.active + 1, threads := s.threads[s.idle[0] := Looping(false)])
    else s1
  }

  /** The worker goes back to the idle list. */
  function Leave(s: State, w: nat): State {
    s.(idle := s.idle + [w], active := if s.active == 0 then 0 else s.active - 1, threads := s.threads[w := Idle])
  }

  /** What the worker finds under the lock: no work, a barrier it has to leave to the last
      worker, or an item to take. */
  datatype Choice = NothingToDo | LeaveToOthers | Take(queue: Queue)

  function Choose(s: State): Choice {
    if s.express == [] && s.regular == [] then NothingToDo
    else
      var queue := if s.express != [] then Express else Regular;
      var item := if s.express != [] then s.express[0] else s.regular[0];
      if item in s.fn && s.fn[item] == SetDone && s.active > 1 then LeaveToOthers else Take(queue)
  }

  function Taken(s: State, w: nat, queue: Queue): State
    requires if queue == Express then s.express != [] else s.regular != []
  {
    var item := if queue == Express then s.express[0] else s.regular[0];
    var s1 := if queue == Express then s.(express := s.express[1..]) else s.(regular := s.regular[1..]);
    s1.(threads := s.threads[w := Running(item, Fresh)], home := s.home[item := AtWorker(w)])
  }

  function Lowered(s: State, w: nat): State
    requires w in s.threads && s.threads[w].Looping?
  {
    if s.threads[w].dropThrottle then s.(throttle := false) else s
  }

  /** One turn of the worker loop, from taking the lock to releasing it. */
  function PickNext(s: State, w: nat): State
    requires w in s.threads && s.threads[w].Looping?
  {
    var s1 := Lowered(s, w);
    match Choose(s1)
    case NothingToDo => Leave(s1, w)
    case LeaveToOthers => Leave(s1.(throttle := true), w)
    case Take(queue) => Taken(s1, w, queue)
  }

  /** A LazyScan item is handled by a whole scan; every other item in one go. */
  predicate CanFinish(s: State, w: nat) {
    && w in s.threads && s.threads[w].Running?
    && var item := s.threads[w].item;
    && item in s.fn
    && (s.fn[item] == LazyScan ==> s.threads[w].phase == Handled)
  }

  predicate CanScan(s: State, scanner: Scanner) {
    && scanner !in s.scans
    && (scanner.Worker? ==>
          && scanner.w in s.threads && s.threads[scanner.w].Running? && s.threads[scanner.w].phase == Fresh
          && s.threads[scanner.w].item in s.fn && s.fn[s.threads[scanner.w].item] == LazyScan)
  }

  predicate Enabled(s: State, step: Step) {
    match step
    case Post(item, fn, _) => item !in s.home && fn != SetDone
    case Pick(w) => w in s.threads && s.threads[w].Looping?
    case Finish(w) => CanFinish(s, w)
    case Wait(item) => item !in s.home
    case ScanBegin(scanner) => CanScan(s, scanner)
    case ScanPost(scanner) => scanner in s.scans && s.scans[scanner] != []
    case ScanEnd(scanner) => scanner in s.scans && s.scans[scanner] == []
  }

  function MarkPhase(s: State, scanner: Scanner, phase: Phase): State {
    if scanner.Worker? && scanner.w in s.threads && s.threads[scanner.w].Running? then
      s.(threads := s.threads[scanner.w := s.threads[scanner.w].(phase := phase)])
    else s
  }

  function Next(s: State, step: Step): State
    requires Enabled(s, step)
  {
    match step
    case Post(item, fn, queue) => Enqueue(s.(fn := s.fn[item := fn]), item, queue)
    case Pick(w) => PickNext(s, w)
    case Finish(w) =>
      var item := s.threads[w].item;
      s.(threads := s.threads[w := Looping(s.fn[item] == SetDone)], home := s.home[item := Finished])
    case Wait(item) =>
      s.(postTick := s.postTick + [item], otherWork := true, fn := s.fn[item := SetDone], home := s.home[item := InTick])
    case ScanBegin(scanner) =>
      var s1 := MarkPhase(s, scanner, Scanning);
      if s.otherWork then
        s1.(scans := s.scans[scanner := s.postTick], postTick := [], otherWork := false,
            home := map x | x in s.home :: if s.home[x] == InTick then InScan(scanner) else s.home[x])
      else s1.(scans := s.scans[scanner := []])
    case ScanPost(scanner) =>
      var list := s.scans[scanner];
      Enqueue(s.(scans := s.scans[scanner := list[1..]]), list[0], Regular)
    case ScanEnd(scanner) =>
      MarkPhase(s.(scans := map k | k in s.scans && k != scanner :: s.scans[k]), scanner, Handled)
  }

  // ----- What every step keeps ---------------------------------------------------------

  function Busy(s: State): set<nat> {
    set w | w in s.threads && !s.threads[w].Idle?
  }

  /** The idle list and the active counter account for every worker. */
  ghost predicate Workers(s: State) {
    && NoDuplicates(s.idle)
    && (forall w :: w in s.idle <==> w in s.threads && s.threads[w].Idle?)
    && s.active == |Busy(s)|
  }

  /** A list holds exactly the items whose home it is, each once. */
  ghost predicate Holds(list: seq<nat>, home: map<nat, Home>, h: Home) {
    NoDuplicates(list) && forall x :: x in list <==> x in home && home[x] == h
  }

  ghost predicate ScansPlaced(scans: map<Scanner, seq<nat>>, home: map<nat, Home>) {
    && (forall k :: k in scans ==> Holds(scans[k], home, InScan(k)))
    && (forall x :: x in home && home[x].InScan? ==> home[x].scanner in scans)
  }

  ghost predicate ThreadsPlaced(threads: map<nat, Thread>, home: map<nat, Home>) {
    && (forall w :: w in threads && threads[w].Running? ==> threads[w].item in home && home[threads[w].item] == AtWorker(w))
    && (forall x :: x in home && home[x].AtWorker? ==>
          var w := home[x].w; w in threads && threads[w].Running? && threads[w].item == x)
  }

  /** Every item is in exactly the one place `home` names. */
  ghost predicate Placed(s: State) {
    && s.fn.Keys == s.home.Keys
    && Holds(s.express, s.home, InExpress)
    && Holds(s.regular, s.home, InRegular)
    && Holds(s.postTick, s.home, InTick)
    && ScansPlaced(s.scans, s.home)
    && ThreadsPlaced(s.threads, s.home)
  }

  /** Barrier items reach the regular queue only, through the post-tick queue. */
  ghost predicate BarrierHomes(fn: map<nat, Function>, home: map<nat, Home>)
    requires fn.Keys == home.Keys
  {
    && (forall x :: x in home && fn[x] == SetDone ==> home[x] != InExpress)
    && (forall x :: x in home && (home[x] == InTick || home[x].InScan?) ==> fn[x] == SetDone)
  }

  ghost predicate BarriersRegular(s: State)
    requires s.fn.Keys == s.home.Keys
  {
    BarrierHomes(s.fn, s.home) && (s.postTick != [] ==> s.otherWork)
  }

  predicate BarrierAhead(regular: seq<nat>, fn: map<nat, Function>) {
    regular != [] && regular[0] in fn && fn[regular[0]] == SetDone
  }

  /** A throttle is never left behind: the barrier that raised it is still at the head of
      the regular queue, or some worker is about to lower it. */
  ghost predicate ThrottleOwned(s: State) {
    s.throttle ==> BarrierAhead(s.regular, s.fn) || exists w :: w in s.threads && Lowering(s.threads[w], s.fn)
  }

  predicate Lowering(t: Thread, fn: map<nat, Function>) {
    match t
    case Idle => false
    case Looping(drop) => drop
    case Running(item, _) => item in fn && fn[item] == SetDone
  }

  /** With a worker at all, queued items always have an active worker. */
  ghost predicate Attended(s: State) {
    s.threads != map[] && (s.express != [] || s.regular != []) ==> Busy(s) != {}
  }

  ghost predicate Inv(s: State) {
    Workers(s) && Placed(s) && BarriersRegular(s) && ThrottleOwned(s) && Attended(s)
  }

  // ----- Lists and homes ------------------------------------------------------------------

  ghost predicate NotIn(home: map<nat, Home>, x: nat, h: Home) {
    x in home ==> home[x] != h
  }

  lemma HoldsAppend(list: seq<nat>, home: map<nat, Home>, h: Home, x: nat)
    requires Holds(list, home, h) && NotIn(home, x, h)
    ensures Holds(list + [x], home[x := h], h)
  {
    assert x !in list;
  }

  lemma HoldsPop(list: seq<nat>, home: map<nat, Home>, h: Home, h': Home)
    requires Holds(list, home, h) && list != [] && h' != h
    ensures Holds(list[1..], home[list[0] := h'], h)
  {
    assert list == [list[0]] + list[1..];
    assert list[0] !in list[1..];
  }

  lemma HoldsElsewhere(list: seq<nat>, home: map<nat, Home>, h: Home, x: nat, h': Home)
    requires Holds(list, home, h) && NotIn(home, x, h) && h' != h
    ensures Holds(list, home[x := h'], h)
  {
  }

  /** An item that is in no scan moves to a place that is no scan. */
  lemma ScansElsewhere(scans: map<Scanner, seq<nat>>, home: map<nat, Home>, x: nat, h': Home)
    requires ScansPlaced(scans, home) && (x in home ==> !home[x].InScan?) && !h'.InScan?
    ensures ScansPlaced(scans, home[x := h'])
  {
    hide Holds;
    forall k | k in scans ensures Holds(scans[k], home[x := h'], InScan(k)) {
      HoldsElsewhere(scans[k], home, InScan(k), x, h');
    }
  }

  /** The head of one scan's list moves to a place that is no scan. */
  lemma ScansPop(scans: map<Scanner, seq<nat>>, home: map<nat, Home>, k: Scanner, h': Home)
    requires ScansPlaced(scans, home) && k in scans && scans[k] != [] && !h'.InScan?
    ensures scans[k][0] in home && home[scans[k][0]] == InScan(k)
    ensures ScansPlaced(scans[k := scans[k][1..]], home[scans[k][0] := h'])
  {
    var x := scans[k][0];
    assert x in scans[k];
    assert Holds(scans[k], home, InScan(k));
    forall j | j in scans ensures Holds(scans[k := scans[k][1..]][j], home[x := h'], InScan(j)) {
      if j == k {
        HoldsPop(scans[k], home, InScan(k), h');
      } else {
        HoldsElsewhere(scans[j], home, InScan(j), x, h');
      }
    }
  }

  /** A thread that handles nothing changes into another such thread. */
  lemma ThreadsElsewhere(threads: map<nat, Thread>, home: map<nat, Home>, w: nat, t: Thread)
    requires ThreadsPlaced(threads, home) && !t.Running? && (w in threads ==> !threads[w].Running?)
    ensures ThreadsPlaced(threads[w := t], home)
  {
  }

  lemma ThreadsHome(threads: map<nat, Thread>, home: map<nat, Home>, x: nat, h': Home)
    requires ThreadsPlaced(threads, home) && (x in home ==> !home[x].AtWorker?) && !h'.AtWorker?
    ensures ThreadsPlaced(threads, home[x := h'])
  {
  }

  // ----- Placement is kept ------------------------------------------------------------------

  function QueueHome(queue: Queue): Home {
    match queue case Express => InExpress case Regular => InRegular
  }

  lemma EnqueuePlaced(s: State, item: nat, queue: Queue)
    requires s.fn.Keys == s.home.Keys + {item} && (item in s.home ==> s.home[item].InScan?)
    requires Holds(s.express, s.home, InExpress) && Holds(s.regular, s.home, InRegular) && Holds(s.postTick, s.home, InTick)
    requires ScansPlaced(s.scans, s.home[item := QueueHome(queue)])
    requires ThreadsPlaced(s.threads, s.home) && Workers(s)
    ensures Placed(Enqueue(s, item, queue))
  {
    hide Holds, ScansPlaced, ThreadsPlaced, NoDuplicates;
    var h := QueueHome(queue);
    HoldsElsewhere(s.postTick, s.home, InTick, item, h);
    ThreadsHome(s.threads, s.home, item, h);
    match queue {
      case Express =>
        HoldsAppend(s.express, s.home, InExpress, item);
        HoldsElsewhere(s.regular, s.home, InRegular, item, h);
      case Regular =>
        HoldsAppend(s.regular, s.home, InRegular, item);
        HoldsElsewhere(s.express, s.home, InExpress, item, h);
    }
    if !s.throttle && s.idle != [] {
      assert s.idle[0] in s.idle;
      ThreadsElsewhere(s.threads, s.home[item := h], s.idle[0], Looping(false));
    }
  }

  lemma PostPlaced(s: State, item: nat, fn: Function, queue: Queue)
    requires Placed(s) && Workers(s) && item !in s.home
    ensures Placed(Enqueue(s.(fn := s.fn[item := fn]), item, queue))
  {
    hide Holds, ScansPlaced, ThreadsPlaced, NoDuplicates;
    ScansElsewhere(s.scans, s.home, item, QueueHome(queue));
    EnqueuePlaced(s.(fn := s.fn[item := fn]), item, queue);
  }

  lemma ScanPostPlaced(s: State, k: Scanner)
    requires Placed(s) && Workers(s) && k in s.scans && s.scans[k] != []
    ensures Placed(Enqueue(s.(scans := s.scans[k := s.scans[k][1..]]), s.scans[k][0], Regular))
  {
    hide Holds, ScansPlaced, ThreadsPlaced, NoDuplicates;
    ScansPop(s.scans, s.home, k, InRegular);
    assert s.fn.Keys == s.home.Keys + {s.scans[k][0]};
    EnqueuePlaced(s.(scans := s.scans[k := s.scans[k][1..]]), s.scans[k][0], Regular);
  }

  /** An item leaves its queue for a worker that handled nothing. */
  lemma TakenPlaced(s: State, w: nat, queue: Queue)
    requires Placed(s) && w in s.threads && s.threads[w].Looping?
    requires if queue == Express then s.express != [] else s.regular != []
    ensures Placed(Taken(s, w, queue))
  {
    var list := if queue == Express then s.express else s.regular;
    var item := list[0];
    assert item in list && item in s.home && s.home[item] == QueueHome(queue);
    hide Holds, ScansPlaced, NoDuplicates;
    ScansElsewhere(s.scans, s.home, item, AtWorker(w));
    HoldsElsewhere(s.postTick, s.home, InTick, item, AtWorker(w));
    if queue == Express {
      HoldsPop(s.express, s.home, InExpress, AtWorker(w));
      HoldsElsewhere(s.regular, s.home, InRegular, item, AtWorker(w));
    } else {
      HoldsPop(s.regular, s.home, InRegular, AtWorker(w));
      HoldsElsewhere(s.express, s.home, InExpress, item, AtWorker(w));
    }
  }

  lemma PickPlaced(s: State, w: nat)
    requires Placed(s) && w in s.threads && s.threads[w].Looping?
    ensures Placed(PickNext(s, w))
  {
    hide Holds, ScansPlaced, ThreadsPlaced, NoDuplicates, Taken;
    ThreadsElsewhere(s.threads, s.home, w, Idle);
    match Choose(Lowered(s, w)) {
      case NothingToDo =>
      case LeaveToOthers =>
      case Take(queue) => TakenPlaced(Lowered(s, w), w, queue);
    }
  }

  lemma FinishPlaced(s: State, w: nat)
    requires Placed(s) && CanFinish(s, w)
    ensures Placed(Next(s, Finish(w)))
  {
    var item := s.threads[w].item;
    hide Holds, ScansPlaced;
    ScansElsewhere(s.scans, s.home, item, Finished);
    HoldsElsewhere(s.express, s.home, InExpress, item, Finished);
    HoldsElsewhere(s.regular, s.home, InRegular, item, Finished);
    HoldsElsewhere(s.postTick, s.home, InTick, item, Finished);
  }

  lemma WaitPlaced(s: State, item: nat)
    requires Placed(s) && item !in s.home
    ensures Placed(Next(s, Wait(item)))
  {
    hide Holds, ScansPlaced, ThreadsPlaced;
    ScansElsewhere(s.scans, s.home, item, InTick);
    HoldsElsewhere(s.express, s.home, InExpress, item, InTick);
    HoldsElsewhere(s.regular, s.home, InRegular, item, InTick);
    HoldsAppend(s.postTick, s.home, InTick, item);
    ThreadsHome(s.threads, s.home, item, InTick);
  }

  lemma MarkPhasePlaced(s: State, k: Scanner, phase: Phase)
    requires ThreadsPlaced(s.threads, s.home)
    ensures ThreadsPlaced(MarkPhase(s, k, phase).threads, s.home)
  {
  }

  lemma ScanBeginPlaced(s: State, k: Scanner)
    requires Placed(s) && CanScan(s, k) && (s.postTick != [] ==> s.otherWork)
    ensures Placed(Next(s, ScanBegin(k)))
  {
    MarkPhasePlaced(s, k, Scanning);
    if s.otherWork {
      DrainPlaced(s, k);
    } else {
      NewScanPlaced(s.scans, s.home, k);
    }
  }

  lemma NewScanPlaced(scans: map<Scanner, seq<nat>>, home: map<nat, Home>, k: Scanner)
    requires ScansPlaced(scans, home) && k !in scans
    ensures ScansPlaced(scans[k := []], home)
  {
  }

  /** The whole post-tick queue becomes the scan's own list. */
  lemma DrainPlaced(s: State, k: Scanner)
    requires Placed(s) && k !in s.scans
    ensures var home := map x | x in s.home :: if s.home[x] == InTick then InScan(k) else s.home[x];
            && Holds(s.express, home, InExpress) && Holds(s.regular, home, InRegular) && Holds([], home, InTick)
            && ScansPlaced(s.scans[k := s.postTick], home)
            && (forall t :: ThreadsPlaced(t, s.home) ==> ThreadsPlaced(t, home))
  {
    var home := map x | x in s.home :: if s.home[x] == InTick then InScan(k) else s.home[x];
    forall j | j in s.scans[k := s.postTick] ensures Holds(s.scans[k := s.postTick][j], home, InScan(j)) {
      if j != k { assert Holds(s.scans[j], s.home, InScan(j)); }
    }
  }

  lemma ScanEndPlaced(s: State, k: Scanner)
    requires Placed(s) && k in s.scans && s.scans[k] == []
    ensures Placed(Next(s, ScanEnd(k)))
  {
    MarkPhasePlaced(s, k, Handled);
    var rest := map j | j in s.scans && j != k :: s.scans[j];
    forall x | x in s.home && s.home[x].InScan? ensures s.home[x].scanner in rest {
      assert Holds(s.scans[k], s.home, InScan(k));
      assert x !in s.scans[k];
    }
  }

  lemma KeepsPlaced(s: State, step: Step)
    requires Enabled(s, step) && Placed(s) && Workers(s) && BarriersRegular(s)
    ensures Placed(Next(s, step))
  {
    hide Placed, Workers;
    match step {
      case Post(item, fn, queue) => PostPlaced(s, item, fn, queue);
      case Pick(w) => PickPlaced(s, w);
      case Finish(w) => FinishPlaced(s, w);
      case Wait(item) => WaitPlaced(s, item);
      case ScanBegin(k) => ScanBeginPlaced(s, k);
      case ScanPost(k) => ScanPostPlaced(s, k);
      case ScanEnd(k) => ScanEndPlaced(s, k);
    }
  }

  // ----- The worker accounts are kept ----------------------------------------------------------

  lemma WakeWorkers(s: State)
    requires Workers(s) && s.idle != []
    ensures var s1 := s.(idle := s.idle[1..], active := s.active + 1, threads := s.threads[s.idle[0] := Looping(false)]);
            Workers(s1) && Busy(s1) == Busy(s) + {s.idle[0]} && s1.threads.Keys == s.threads.Keys
  {
    var w := s.idle[0];
    var s1 := s.(idle := s.idle[1..], active := s.active + 1, threads := s.threads[w := Looping(false)]);
    assert w in s.idle;
    assert s.idle == [w] + s.idle[1..];
    assert Busy(s1) == Busy(s) + {w};
  }

  lemma LeaveWorkers(s: State, w: nat)
    requires Workers(s) && w in Busy(s)
    ensures Workers(Leave(s, w)) && Busy(Leave(s, w)) == Busy(s) - {w} && Leave(s, w).threads.Keys == s.threads.Keys
    ensures s.active > 0
  {
    assert w !in s.idle;
    assert Busy(Leave(s, w)) == Busy(s) - {w};
  }

  /** A busy thread that stays busy changes no account. */
  lemma BusyWorkers(s: State, w: nat, t: Thread)
    requires Workers(s) && w in Busy(s) && !t.Idle?
    ensures var s1 := s.(threads := s.threads[w := t]);
            Workers(s1) && Busy(s1) == Busy(s) && s1.threads.Keys == s.threads.Keys
  {
    assert Busy(s.(threads := s.threads[w := t])) == Busy(s);
  }

  /** Only the accounts matter to Workers and Busy. */
  lemma SameWorkers(s: State, t: State)
    requires Workers(s) && t.idle == s.idle && t.active == s.active && t.threads == s.threads
    ensures Workers(t) && Busy(t) == Busy(s)
  {
  }

  lemma EnqueueWorkers(s: State, item: nat, queue: Queue)
    requires Workers(s)
    ensures var t := Enqueue(s, item, queue);
            && Workers(t) && t.threads.Keys == s.threads.Keys && Busy(s) <= Busy(t)
            && (!s.throttle && s.threads != map[] ==> Busy(t) != {})
  {
    hide Workers, Busy;
    var t := Enqueue(s, item, queue);
    if !s.throttle && s.idle != [] {
      WakeWorkers(s);
      SameWorkers(s.(idle := s.idle[1..], active := s.active + 1, threads := s.threads[s.idle[0] := Looping(false)]), t);
      assert s.idle[0] in Busy(t);
    } else {
      SameWorkers(s, t);
      if !s.throttle && s.threads != map[] {
        AllBusy(s);
      }
    }
  }

  lemma AllBusy(s: State)
    requires Workers(s) && s.idle == [] && s.threads != map[]
    ensures Busy(s) != {}
  {
    var w :| w in s.threads;
    assert w !in s.idle;
    assert w in Busy(s);
  }

  lemma PickWorkers(s: State, w: nat)
    requires Workers(s) && w in s.threads && s.threads[w].Looping?
    ensures var t := PickNext(s, w);
            && Workers(t) && t.threads.Keys == s.threads.Keys
            && (Choose(Lowered(s, w)) != NothingToDo ==> Busy(t) != {})
  {
    hide Workers, Busy;
    InBusy(s, w);
    var s1 := Lowered(s, w);
    SameWorkers(s, s1);
    match Choose(s1) {
      case NothingToDo => LeaveWorkers(s1, w);
      case LeaveToOthers =>
        SameWorkers(s1, s1.(throttle := true));
        LeaveWorkers(s1.(throttle := true), w);
        SomeStillBusy(s1, w);
      case Take(queue) =>
        var item := if queue == Express then s.express[0] else s.regular[0];
        BusyWorkers(s1, w, Running(item, Fresh));
        SameWorkers(s1.(threads := s1.threads[w := Running(item, Fresh)]), Taken(s1, w, queue));
    }
  }

  lemma SomeStillBusy(s: State, w: nat)
    requires Workers(s) && s.active > 1 && w in Busy(s)
    ensures Busy(s) - {w} != {}
  {
    assert Busy(s) == (Busy(s) - {w}) + {w};
  }

  lemma MarkPhaseWorkers(s: State, k: Scanner, phase: Phase)
    requires Workers(s)
    ensures var t := MarkPhase(s, k, phase);
            Workers(t) && t.threads.Keys == s.threads.Keys && Busy(t) == Busy(s)
  {
    hide Workers;
    if k.Worker? && k.w in s.threads && s.threads[k.w].Running? {
      BusyWorkers(s, k.w, s.threads[k.w].(phase := phase));
    }
  }

  lemma KeepsWorkers(s: State, step: Step)
    requires Enabled(s, step) && Workers(s)
    ensures Workers(Next(s, step)) && Next(s, step).threads.Keys == s.threads.Keys
  {
    hide Workers, Busy;
    var t := Next(s, step);
    match step {
      case Post(item, fn, queue) =>
        SameWorkers(s, s.(fn := s.fn[item := fn]));
        EnqueueWorkers(s.(fn := s.fn[item := fn]), item, queue);
      case Pick(w) => PickWorkers(s, w);
      case Finish(w) =>
        var u := Looping(s.fn[s.threads[w].item] == SetDone);
        assert w in Busy(s) by { InBusy(s, w); }
        BusyWorkers(s, w, u);
        SameWorkers(s.(threads := s.threads[w := u]), t);
      case Wait(item) => SameWorkers(s, t);
      case ScanBegin(k) =>
        MarkPhaseWorkers(s, k, Scanning);
        SameWorkers(MarkPhase(s, k, Scanning), t);
      case ScanPost(k) =>
        var s1 := s.(scans := s.scans[k := s.scans[k][1..]]);
        SameWorkers(s, s1);
        EnqueueWorkers(s1, s.scans[k][0], Regular);
      case ScanEnd(k) =>
        var s1 := s.(scans := map j | j in s.scans && j != k :: s.scans[j]);
        SameWorkers(s, s1);
        MarkPhaseWorkers(s1, k, Handled);
    }
  }

  lemma InBusy(s: State, w: nat)
    requires w in s.threads && !s.threads[w].Idle?
    ensures w in Busy(s)
  {
  }

  // ----- Barriers and the throttle -----------------------------------------------------------------

  lemma MoveBarrier(fn: map<nat, Function>, home: map<nat, Home>, x: nat, h: Home)
    requires fn.Keys == home.Keys && BarrierHomes(fn, home) && x in fn
    requires fn[x] == SetDone ==> h != InExpress
    requires h == InTick || h.InScan? ==> fn[x] == SetDone
    ensures BarrierHomes(fn, home[x := h])
  {
  }

  lemma NewBarrier(fn: map<nat, Function>, home: map<nat, Home>, x: nat, f: Function, h: Home)
    requires fn.Keys == home.Keys && BarrierHomes(fn, home) && x !in home
    requires f == SetDone ==> h != InExpress
    requires h == InTick || h.InScan? ==> f == SetDone
    ensures BarrierHomes(fn[x := f], home[x := h])
  {
  }

  lemma DrainBarriers(s: State, k: Scanner)
    requires s.fn.Keys == s.home.Keys && BarrierHomes(s.fn, s.home)
    ensures var home := map x | x in s.home :: if s.home[x] == InTick then InScan(k) else s.home[x];
            BarrierHomes(s.fn, home)
  {
  }

  lemma KeepsBarriers(s: State, step: Step)
    requires Enabled(s, step) && Placed(s) && BarriersRegular(s)
    requires Placed(Next(s, step))
    ensures BarriersRegular(Next(s, step))
  {
    hide NoDuplicates, ThreadsPlaced, ScansPlaced, BarrierHomes;
    match step {
      case Post(item, fn, queue) => NewBarrier(s.fn, s.home, item, fn, QueueHome(queue));
      case Pick(w) => PickBarriers(s, w);
      case Finish(w) => MoveBarrier(s.fn, s.home, s.threads[w].item, Finished);
      case Wait(item) => NewBarrier(s.fn, s.home, item, SetDone, InTick);
      case ScanBegin(k) => DrainBarriers(s, k);
      case ScanPost(k) =>
        ScansPop(s.scans, s.home, k, InRegular);
        MoveBarrier(s.fn, s.home, s.scans[k][0], InRegular);
      case ScanEnd(k) =>
    }
  }

  lemma PickBarriers(s: State, w: nat)
    requires Placed(s) && BarriersRegular(s) && w in s.threads && s.threads[w].Looping?
    requires Placed(PickNext(s, w))
    ensures BarriersRegular(PickNext(s, w))
  {
    hide NoDuplicates, ThreadsPlaced, ScansPlaced, BarrierHomes;
    match Choose(Lowered(s, w)) {
      case NothingToDo =>
      case LeaveToOthers =>
      case Take(queue) =>
        var item := if queue == Express then s.express[0] else s.regular[0];
        assert item in if queue == Express then s.express else s.regular;
        MoveBarrier(s.fn, s.home, item, AtWorker(w));
    }
  }

  /** Under a throttle somebody is active. */
  lemma ThrottleHasWorker(s: State)
    requires ThrottleOwned(s) && Attended(s) && s.throttle && s.threads != map[]
    ensures Busy(s) != {}
  {
    if !BarrierAhead(s.regular, s.fn) {
      var w :| w in s.threads && Lowering(s.threads[w], s.fn);
      InBusy(s, w);
    }
  }

  /** Nothing the throttle depends on gets lost. */
  lemma ThrottleKept(s: State, t: State)
    requires ThrottleOwned(s) && t.throttle == s.throttle
    requires BarrierAhead(s.regular, s.fn) ==> BarrierAhead(t.regular, t.fn)
    requires forall w :: w in s.threads && Lowering(s.threads[w], s.fn) ==> w in t.threads && Lowering(t.threads[w], t.fn)
    ensures ThrottleOwned(t)
  {
  }

  lemma FinishThrottle(s: State, w: nat)
    requires CanFinish(s, w) && ThrottleOwned(s)
    ensures ThrottleOwned(Next(s, Finish(w)))
  {
    hide ThrottleOwned;
    ThrottleKept(s, Next(s, Finish(w)));
  }

  lemma WaitThrottle(s: State, item: nat)
    requires item !in s.home && s.fn.Keys == s.home.Keys && ThrottleOwned(s)
    ensures ThrottleOwned(Next(s, Wait(item)))
  {
    hide ThrottleOwned;
    ThrottleKept(s, Next(s, Wait(item)));
  }

  lemma ScanThrottle(s: State, k: Scanner, phase: Phase, t: State)
    requires ThrottleOwned(s) && t.threads == MarkPhase(s, k, phase).threads
    requires t.throttle == s.throttle && t.regular == s.regular && t.fn == s.fn
    ensures ThrottleOwned(t)
  {
    hide ThrottleOwned;
    ThrottleKept(s, t);
  }

  lemma KeepsThrottle(s: State, step: Step)
    requires Enabled(s, step) && Placed(s) && Workers(s) && BarriersRegular(s) && ThrottleOwned(s)
    ensures ThrottleOwned(Next(s, step))
  {
    assert s.fn.Keys == s.home.Keys;
    hide NoDuplicates, ThreadsPlaced, ScansPlaced, Placed, BarriersRegular, ThrottleOwned, Workers, Enqueue, PickNext;
    match step {
      case Post(item, fn, queue) => EnqueueThrottle(s, s.(fn := s.fn[item := fn]), item, queue);
      case Pick(w) => PickThrottle(s, w);
      case Finish(w) => FinishThrottle(s, w);
      case Wait(item) => WaitThrottle(s, item);
      case ScanBegin(k) => ScanThrottle(s, k, Scanning, Next(s, step));
      case ScanPost(k) => EnqueueThrottle(s, s.(scans := s.scans[k := s.scans[k][1..]]), s.scans[k][0], Regular);
      case ScanEnd(k) => ScanThrottle(s, k, Handled, Next(s, step));
    }
  }

  lemma EnqueueThrottle(s: State, s1: State, item: nat, queue: Queue)
    requires ThrottleOwned(s) && Workers(s)
    requires forall x :: x in s.fn ==> x in s1.fn && s1.fn[x] == s.fn[x]
    requires s1 == s.(fn := s1.fn, scans := s1.scans)
    ensures ThrottleOwned(Enqueue(s1, item, queue))
  {
    hide ThrottleOwned, NoDuplicates;
    var t := Enqueue(s1, item, queue);
    if s.idle != [] {
      assert s.idle[0] in s.idle;
      assert s.threads[s.idle[0]].Idle?;
    }
    ThrottleKept(s, t);
  }

  /** The item at the head of the express queue is no barrier. */
  lemma ExpressHead(s: State)
    requires Placed(s) && BarriersRegular(s) && s.express != []
    ensures s.express[0] in s.fn && s.fn[s.express[0]] != SetDone
  {
    assert s.express[0] in s.express;
  }

  lemma PickThrottle(s: State, w: nat)
    requires Placed(s) && BarriersRegular(s) && ThrottleOwned(s) && w in s.threads && s.threads[w].Looping?
    ensures ThrottleOwned(PickNext(s, w))
  {
    if s.express != [] {
      ExpressHead(s);
    }
    hide Placed, BarriersRegular;
    var s1, t := Lowered(s, w), PickNext(s, w);
    if s1.throttle && !Choose(s1).LeaveToOthers? && !BarrierAhead(t.regular, t.fn) {
      if Choose(s1) == Take(Regular) && BarrierAhead(s.regular, s.fn) {
        assert Lowering(t.threads[w], t.fn);
      } else {
        var v :| v in s.threads && Lowering(s.threads[v], s.fn);
        assert Lowering(t.threads[v], t.fn);
      }
    }
  }

  lemma KeepsAttended(s: State, step: Step)
    requires Enabled(s, step) && Inv(s)
    ensures Attended(Next(s, step))
  {
    KeepsWorkers(s, step);
    if s.throttle && s.threads != map[] {
      ThrottleHasWorker(s);
    }
    hide Workers, Placed, BarriersRegular, ThrottleOwned, Busy;
    var t := Next(s, step);
    match step {
      case Post(item, fn, queue) =>
        SameWorkers(s, s.(fn := s.fn[item := fn]));
        EnqueueWorkers(s.(fn := s.fn[item := fn]), item, queue);
      case Pick(w) => PickWorkers(s, w);
      case Finish(w) =>
        assert w in t.threads && !t.threads[w].Idle?;
        InBusy(t, w);
      case Wait(item) => SameWorkers(s, t);
      case ScanBegin(k) =>
        MarkPhaseWorkers(s, k, Scanning);
        SameWorkers(MarkPhase(s, k, Scanning), t);
      case ScanPost(k) =>
        var s1 := s.(scans := s.scans[k := s.scans[k][1..]]);
        SameWorkers(s, s1);
        EnqueueWorkers(s1, s.scans[k][0], Regular);
      case ScanEnd(k) =>
        var s1 := s.(scans := map j | j in s.scans && j != k :: s.scans[j]);
        SameWorkers(s, s1);
        MarkPhaseWorkers(s1, k, Handled);
    }
  }

  /** Every step keeps the invariant. */
  lemma InvStep(s: State, step: Step)
    requires Enabled(s, step) && Inv(s)
    ensures Inv(Next(s, step)) && Next(s, step).threads.Keys == s.threads.Keys
  {
    hide Workers, Placed, BarriersRegular, ThrottleOwned, Attended, Next, Enabled;
    KeepsWorkers(s, step);
    KeepsPlaced(s, step);
    KeepsBarriers(s, step);
    KeepsThrottle(s, step);
    KeepsAttended(s, step);
  }
}
