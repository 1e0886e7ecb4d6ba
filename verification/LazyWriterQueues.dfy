/** The global queues of lazywrite.c and the critical sections that change them.  Each is a
    step of the state machine and keeps its invariant, and says what its caller gets. */
module LazyWriterQueues {
  import opened Lists
  import opened LazyWriter
  import opened LazyWriterRuns
  import opened LazyWriterThrottle

  class WorkQueues {
    var express: seq<nat>
    var regular: seq<nat>
    var idle: seq<nat>
    var active: nat
    var throttle: bool
    var postTick: seq<nat>
    var otherWork: bool
    var fn: map<nat, Function>
    ghost var threads: map<nat, Thread>
    ghost var scans: map<Scanner, seq<nat>>
    ghost var home: map<nat, Home>

    ghost function View(): State
      reads this
    {
      State(express, regular, idle, active, throttle, postTick, otherWork, threads, scans, home, fn)
    }

    ghost predicate Valid()
      reads this
    {
      Inv(View())
    }

    /** CcInitializeCacheManager: the given workers, all idle. */
    constructor (workers: seq<nat>)
      requires NoDuplicates(workers)
      ensures Valid() && Initial(View()) && idle == workers
    {
      express, regular, postTick, idle, active := [], [], [], workers, 0;
      throttle, otherWork, fn := false, false, map[];
      threads, scans, home := map w | w in workers :: Idle, map[], map[];
      new;
      InitialInv(View());
    }

    /** CcPostWorkQueue, for a new item or for the next one of a scan's own list.  The worker
        to start is one that was idle; there is none only if all workers are at work or a
        barrier holds them back, and either way somebody is active who will see the item. */
    method PostWorkQueue(item: nat, f: Function, queue: Queue, ghost from: Option<Scanner>) returns (spawn: Option<nat>)
      requires Valid() && (from.None? ==> Enabled(View(), Post(item, f, queue)))
      requires from.Some? ==> Enabled(View(), ScanPost(from.value)) && scans[from.value][0] == item && queue == Regular
      requires from.Some? ==> item in fn && fn[item] == f
      modifies this
      ensures Valid()
      ensures View() == Next(old(View()), if from.None? then Post(item, f, queue) else ScanPost(from.value))
      ensures if queue == Express then express == old(express) + [item] && regular == old(regular)
              else express == old(express) && regular == old(regular) + [item]
      ensures spawn.None? <==> old(throttle) || old(idle) == []
      ensures spawn.Some? ==> spawn.value in old(threads) && old(threads)[spawn.value] == Idle
                              && spawn.value in threads && threads[spawn.value] == Looping(false)
      ensures if spawn.Some? then [spawn.value] + idle == old(idle) && active == old(active) + 1
              else idle == old(idle) && active == old(active)
      ensures threads != map[] ==> active > 0
    {
      hide Inv, Enqueue, Next, Enabled;
      ghost var s := View();
      ghost var step := if from.None? then Post(item, f, queue) else ScanPost(from.value);
      InvStep(s, step);
      PostIsEnqueue(s, item, f, queue, from);
      FirstIdle(s);
      ghost var s1 := PostReady(s, item, f, from);
      EnqueueFacts(s1, item, queue);
      fn, scans := fn[item := f], s1.scans;
      spawn := Insert(item, queue);
      SomebodyActive(View());
    }

    /** Under the lock: the item goes to the tail of the queue, and an idle worker is taken
        unless a throttle is in action. */
    method Insert(item: nat, queue: Queue) returns (spawn: Option<nat>)
      modifies `express, `regular, `idle, `active, `threads, `home
      ensures View() == Enqueue(old(View()), item, queue)
      ensures spawn == if !throttle && old(idle) != [] then Some(old(idle)[0]) else None
    {
      match queue {
        case Express => express := express + [item]; home := home[item := InExpress];
        case Regular => regular := regular + [item]; home := home[item := InRegular];
      }
      spawn := None;
      if !throttle && idle != [] {
        spawn := Some(idle[0]);
        threads := threads[idle[0] := Looping(false)];
        idle := idle[1..];
        active := active + 1;
      }
    }

    /** One turn of the loop of CcWorkerThread under the lock, for the worker `w` whose
        DropThrottle is `drop`.  A worker that takes a barrier is the only one at work and the
        express queue is empty; a worker that leaves the loop leaves nothing behind, or
        leaves it to somebody who is active, with the throttle up. */
    method WorkerTurn(w: nat, drop: bool) returns (work: Option<nat>)
      requires Valid() && w in threads && threads[w] == Looping(drop)
      modifies this
      ensures Valid() && View() == Next(old(View()), Pick(w)) && w in threads
      ensures if work.Some? then threads[w] == Running(work.value, Fresh) else threads[w] == Idle
      ensures work.Some? && work.value in fn && fn[work.value] == SetDone ==>
                active == 1 && express == [] && forall x :: x in home && x != work.value ==> !home[x].AtWorker?
      ensures work.None? ==> (express == [] && regular == []) || (active > 0 && throttle)
      ensures work.None? <==> (old(express) == [] && old(regular) == []) || old(BarrierMustWait(View()))
      ensures throttle <==> old(BarrierMustWait(View())) || (old(throttle) && !drop)
      ensures if work.None? then express == old(express) && regular == old(regular)
              else if old(express) != [] then [work.value] + express == old(express) && regular == old(regular)
              else express == [] && [work.value] + regular == old(regular)
      ensures if work.None? then idle == old(idle) + [w] && active == old(active) - 1 else idle == old(idle) && active == old(active)
    {
      hide Inv, PickNext;
      ghost var s := View();
      InvStep(s, Pick(w));
      assert Next(s, Pick(w)) == PickNext(s, w);
      BusyCounts(s, w);
      BarrierAlone(s, w);
      PickFacts(s, w);
      TurnThrottles(s, w);
      TurnQueues(s, w);
      work := Turn(w, drop);
      SomebodyActive(View());
    }

    /** The turn itself. */
    method Turn(w: nat, drop: bool) returns (work: Option<nat>)
      requires w in threads && threads[w] == Looping(drop) && active > 0
      modifies `express, `regular, `idle, `active, `throttle, `threads, `home
      ensures View() == PickNext(old(View()), w)
      ensures work == if threads[w].Running? then Some(threads[w].item) else None
    {
      hide Leave, Taken;
      if drop {
        throttle := false;
      }
      ghost var lowered := View();
      assert lowered == Lowered(old(View()), w);
      work := None;
      if express == [] && regular == [] {
        Quit(w);
        assert Choose(lowered) == NothingToDo;
      } else {
        var item := if express == [] then regular[0] else express[0];
        if item in fn && fn[item] == SetDone && active > 1 {
          throttle := true;
          assert View() == lowered.(throttle := true);
          Quit(w);
          assert Choose(lowered) == LeaveToOthers;
        } else {
          TakeHead(w);
          work := Some(item);
          assert Choose(lowered) == Take(if lowered.express != [] then Express else Regular);
        }
      }
    }

    method TakeHead(w: nat)
      requires w in threads && (express != [] || regular != [])
      modifies `express, `regular, `threads, `home
      ensures View() == Taken(old(View()), w, if old(express) != [] then Express else Regular)
      ensures threads == old(threads)[w := Running(if old(express) != [] then old(express)[0] else old(regular)[0], Fresh)]
    {
      var item;
      if express == [] {
        item, regular := regular[0], regular[1..];
      } else {
        item, express := express[0], express[1..];
      }
      threads, home := threads[w := Running(item, Fresh)], home[item := AtWorker(w)];
    }

    method Quit(w: nat)
      requires active > 0
      modifies `idle, `active, `threads
      ensures View() == Leave(old(View()), w) && threads == old(threads)[w := Idle]
    {
      idle := idle + [w];
      active := active - 1;
      threads := threads[w := Idle];
    }

    /** The item has been handled; a barrier's worker will lower the throttle. */
    method ItemDone(w: nat, item: nat) returns (drop: bool)
      requires Valid() && CanFinish(View(), w) && threads[w].item == item
      modifies `threads, `home
      ensures Valid() && View() == Next(old(View()), Finish(w))
      ensures w in threads && threads[w] == Looping(drop) && item in home && home[item] == Finished
      ensures drop <==> item in fn && fn[item] == SetDone
    {
      hide Inv;
      InvStep(View(), Finish(w));
      drop := fn[item] == SetDone;
      threads, home := threads[w := Looping(drop)], home[item := Finished];
    }

    /** The queueing part of CcWaitForCurrentLazyWriterActivity: from here on the item guards
        everything that is queued already. */
    method QueueWaiter(item: nat)
      requires Valid() && item !in home
      modifies `postTick, `otherWork, `fn, `home
      ensures Valid() && View() == Next(old(View()), Wait(item))
      ensures forall x :: old(Posted(View(), x)) ==> Guards(View(), x, item)
      ensures postTick == old(postTick) + [item] && otherWork && item in fn && fn[item] == SetDone
    {
      hide Inv, Guards;
      ghost var s := View();
      InvStep(s, Wait(item));
      postTick := postTick + [item];
      fn, home := fn[item := SetDone], home[item := InTick];
      otherWork := true;
      forall x | Posted(s, x) ensures Guards(View(), x, item) {
        UnpostedGuards(View(), x, item);
      }
    }

    /** The head of CcLazyWriteScan: takes the post-tick queue over entry by entry. */
    method TakePostTick(ghost scanner: Scanner) returns (toPost: seq<nat>)
      requires Valid() && Enabled(View(), ScanBegin(scanner))
      modifies `postTick, `otherWork, `scans, `threads, `home
      ensures Valid() && View() == Next(old(View()), ScanBegin(scanner))
      ensures scanner in scans && toPost == scans[scanner] == old(postTick) && postTick == []
    {
      hide Inv, MarkPhase, Next;
      ghost var s := View();
      InvStep(s, ScanBegin(scanner));
      TickIsFlagged(s);
      ScanBegun(s, scanner);
      toPost := [];
      if otherWork {
        toPost := MovePostTick();
        otherWork := false;
      }
      threads, scans, home := MarkPhase(s, scanner, Scanning).threads, scans[scanner := toPost], Next(s, ScanBegin(scanner)).home;
    }

    method MovePostTick() returns (toPost: seq<nat>)
      modifies this`postTick
      ensures toPost == old(postTick) && postTick == []
    {
      toPost := [];
      while postTick != []
        invariant toPost + postTick == old(postTick)
        decreases |postTick|
      {
        toPost := toPost + [postTick[0]];
        postTick := postTick[1..];
      }
    }

    /** The end of CcLazyWriteScan: posts the scan's own list, front to back.  The regular
        queue gets it in order, with nothing of it left. */
    method PostAll(toPost: seq<nat>, ghost scanner: Scanner)
      requires Valid() && scanner in scans && scans[scanner] == toPost
      modifies this
      ensures Valid() && scanner in scans && scans[scanner] == []
      ensures express == old(express) && regular == old(regular) + toPost && home.Keys == old(home).Keys
    {
      hide Inv, Next;
      var rest := toPost;
      while rest != []
        invariant Valid() && scanner in scans && scans[scanner] == rest && home.Keys == old(home).Keys
        invariant express == old(express) && regular + rest == old(regular) + toPost
        decreases |rest|
      {
        InScanIsBarrier(View(), scanner);
        AfterScanPost(View(), scanner);
        var spawn := PostWorkQueue(rest[0], SetDone, Regular, Some(scanner));
        rest := rest[1..];
      }
    }
  }

  /** The state in which the item is ready to go to its queue. */
  ghost function PostReady(s: State, item: nat, f: Function, from: Option<Scanner>): State
    requires from.Some? ==> from.value in s.scans && s.scans[from.value] != []
  {
    if from.None? then s.(fn := s.fn[item := f])
    else s.(fn := s.fn[item := f], scans := s.scans[from.value := s.scans[from.value][1..]])
  }

  lemma PostIsEnqueue(s: State, item: nat, f: Function, queue: Queue, from: Option<Scanner>)
    requires from.None? ==> Enabled(s, Post(item, f, queue))
    requires from.Some? ==> Enabled(s, ScanPost(from.value)) && s.scans[from.value][0] == item && queue == Regular
    requires from.Some? ==> item in s.fn && s.fn[item] == f
    ensures from.Some? ==> from.value in s.scans && s.scans[from.value] != []
    ensures Next(s, if from.None? then Post(item, f, queue) else ScanPost(from.value))
         == Enqueue(PostReady(s, item, f, from), item, queue)
  {
    if from.Some? {
      assert s.fn[item := f] == s.fn;
    }
  }

  lemma EnqueueFacts(s: State, item: nat, queue: Queue)
    ensures var t := Enqueue(s, item, queue);
            && (if queue == Express then t.express == s.express + [item] && t.regular == s.regular
                else t.express == s.express && t.regular == s.regular + [item])
            && t.threads == (if !s.throttle && s.idle != [] then s.threads[s.idle[0] := Looping(false)] else s.threads)
            && (if !s.throttle && s.idle != [] then [s.idle[0]] + t.idle == s.idle && t.active == s.active + 1
                else t.idle == s.idle && t.active == s.active)
  {
  }

  lemma PickFacts(s: State, w: nat)
    requires w in s.threads && s.threads[w].Looping?
    ensures var t := PickNext(s, w);
            w in t.threads && t.fn == s.fn && (t.threads[w] == Idle || (t.threads[w].Running? && t.threads[w].phase == Fresh))
  {
    match Choose(Lowered(s, w)) {
      case NothingToDo =>
      case LeaveToOthers =>
      case Take(queue) =>
    }
  }

  /** What a turn does to the queues and the workers. */
  lemma TurnQueues(s: State, w: nat)
    requires Inv(s) && w in s.threads && s.threads[w].Looping? && s.active > 0
    ensures var t := PickNext(s, w);
            var left := (s.express == [] && s.regular == []) || BarrierMustWait(s);
            && w in t.threads && (t.threads[w].Running? <==> !left)
            && (if left then t.express == s.express && t.regular == s.regular && t.idle == s.idle + [w] && t.active == s.active - 1
                else
                  && t.idle == s.idle && t.active == s.active
                  && (if s.express != [] then [t.threads[w].item] + t.express == s.express && t.regular == s.regular
                      else t.express == [] && [t.threads[w].item] + t.regular == s.regular))
  {
    var s1 := Lowered(s, w);
    assert s1 == s.(throttle := s1.throttle);
    WhatIsChosen(s, s1);
    hide Inv, Lowered, Choose, Leave, Taken, BarrierMustWait;
    match Choose(s1) {
      case NothingToDo => LeaveIs(s1, w);
      case LeaveToOthers => LeaveIs(s1.(throttle := true), w);
      case Take(queue) => TakenIs(s1, w, queue);
    }
  }

  lemma WhatIsChosen(s: State, s1: State)
    requires Inv(s) && s1 == s.(throttle := s1.throttle)
    ensures match Choose(s1)
            case NothingToDo => s.express == [] && s.regular == []
            case LeaveToOthers => BarrierMustWait(s)
            case Take(queue) =>
              && (s.express != [] || s.regular != []) && !BarrierMustWait(s)
              && queue == if s.express != [] then Express else Regular
  {
    hide Inv;
    if s.express != [] {
      ExpressHeadPlain(s);
    }
  }

  lemma LeaveIs(s: State, w: nat)
    requires s.active > 0
    ensures Leave(s, w) == s.(idle := s.idle + [w], active := s.active - 1, threads := s.threads[w := Idle])
  {
  }

  lemma TakenIs(s: State, w: nat, queue: Queue)
    requires if queue == Express then s.express != [] else s.regular != []
    ensures var t := Taken(s, w, queue);
            && w in t.threads && t.threads[w].Running? && t.idle == s.idle && t.active == s.active
            && (if queue == Express then [t.threads[w].item] + t.express == s.express && t.regular == s.regular
                else t.express == s.express && [t.threads[w].item] + t.regular == s.regular)
  {
  }

  lemma FirstIdle(s: State)
    requires Inv(s)
    ensures s.idle != [] ==> s.idle[0] in s.threads && s.threads[s.idle[0]] == Idle
  {
    hide Placed, BarriersRegular, ThrottleOwned, Attended, NoDuplicates;
    if s.idle != [] {
      assert s.idle[0] in s.idle;
    }
  }

  /** With a worker at all, queued work has an active one. */
  lemma SomebodyActive(s: State)
    requires Inv(s)
    ensures s.threads != map[] && (s.express != [] || s.regular != []) ==> s.active > 0
  {
    hide Placed, BarriersRegular, ThrottleOwned, NoDuplicates;
  }

  lemma BusyCounts(s: State, w: nat)
    requires Inv(s) && w in s.threads && s.threads[w].Looping?
    ensures s.active > 0
  {
    hide Placed, BarriersRegular, ThrottleOwned, Attended, NoDuplicates;
    InBusy(s, w);
  }

  /** A worker that may take a barrier is alone. */
  lemma BarrierAlone(s: State, w: nat)
    requires Inv(s) && w in s.threads && s.threads[w].Looping?
    ensures var t := PickNext(s, w);
            t.threads[w].Running? && t.threads[w].item in t.fn && t.fn[t.threads[w].item] == SetDone ==>
              t.active == 1 && t.express == [] && forall x :: x in t.home && x != t.threads[w].item ==> !t.home[x].AtWorker?
  {
    hide Inv;
    var s1 := Lowered(s, w);
    LoweredInv(s, w);
    BusyCounts(s1, w);
    BarrierHead(s1);
    if s1.express == [] && s1.active <= 1 {
      BarrierPick(s1, w);
    }
  }

  lemma BarrierHead(s: State)
    requires Inv(s)
    ensures s.express != [] ==> s.express[0] in s.fn && s.fn[s.express[0]] != SetDone
  {
    hide Workers, ThrottleOwned, Attended, NoDuplicates, ScansPlaced, ThreadsPlaced;
    if s.express != [] {
      assert s.express[0] in s.express;
    }
  }

  lemma TickIsFlagged(s: State)
    requires Inv(s)
    ensures s.postTick != [] ==> s.otherWork
  {
    hide Workers, ThrottleOwned, Attended, Holds, ScansPlaced, ThreadsPlaced;
  }

  /** What a scan takes over when it begins. */
  lemma ScanBegun(s: State, k: Scanner)
    requires CanScan(s, k) && (s.postTick != [] ==> s.otherWork)
    ensures var t := Next(s, ScanBegin(k));
            t == s.(postTick := [], otherWork := false, scans := s.scans[k := s.postTick],
                    threads := MarkPhase(s, k, Scanning).threads, home := t.home)
  {
  }

  lemma InScanIsBarrier(s: State, k: Scanner)
    requires Inv(s) && k in s.scans && s.scans[k] != []
    ensures s.scans[k][0] in s.fn && s.fn[s.scans[k][0]] == SetDone && s.scans[k][0] in s.home
  {
    hide Workers, ThrottleOwned, Attended, NoDuplicates, ThreadsPlaced;
    assert s.scans[k][0] in s.scans[k];
  }

  lemma AfterScanPost(s: State, k: Scanner)
    requires Enabled(s, ScanPost(k)) && s.scans[k][0] in s.home
    ensures var t := Next(s, ScanPost(k)); k in t.scans && t.scans[k] == s.scans[k][1..] && t.home.Keys == s.home.Keys
  {
  }
}
