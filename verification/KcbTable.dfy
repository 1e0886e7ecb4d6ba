/** The KCB cache as the kernel keeps it: global table, lists and counters updated in
    place, each routine proved to do what the value-level operation says. */
module KcbTable {
  import opened Lists
  import opened KcbCache
  import opened KcbRuns
  import opened KcbEffects

  class Cache {
    var kcbs: map<nat, Kcb>
    var table: map<nat, nat>
    var lru: seq<nat>
    var elements: int
    var deref: seq<nat>
    ghost var users: multiset<nat>
    ghost var converting: multiset<nat>
    ghost var leaked: multiset<nat>

    ghost function View(): State
      reads this
    {
      State(kcbs, table, lru, elements, deref, users, converting, leaked)
    }

    constructor ()
      ensures View() == Empty && Good(View())
    {
      kcbs, table, lru, elements, deref := map[], map[], [], 0, [];
      users, converting, leaked := multiset{}, multiset{}, multiset{};
    }

    /** CmpRemoveFromDelayedClose: exactly this KCB leaves the list, and the counter still
        counts it. */
    method TakeOffDelayedClose(k: nat)
      requires k in kcbs && k in lru && NoDuplicates(lru) && elements == |lru|
      modifies this`lru, this`elements, this`kcbs
      ensures View() == RemoveFromDelayedClose(old(View()), k)
      ensures NoDuplicates(lru) && elements == |lru| && forall j :: j in lru <==> j in old(lru) && j != k
    {
      hide NoDuplicates, Remove;
      RemoveMembers(lru, k);
      lru := Remove(lru, k);
      elements := elements - 1;
      kcbs := kcbs[k := kcbs[k].(inDelay := false, index := SIZE)];
    }

    /** CmpReferenceKeyControlBlock with the KCB locked exclusively, for one more user. */
    method AddReference(k: nat) returns (ok: bool)
      requires Good(View()) && k in kcbs
      modifies this
      ensures Good(View()) && View() == Opened(old(View()), k)
      ensures ok <==> old(kcbs[k]).refs < MAX_REFS
      ensures ok ==> k in kcbs && kcbs[k].refs == old(kcbs[k]).refs + 1 && users == old(users) + multiset{k}
    {
      hide Inv, NoDuplicates, Remove;
      OpenedGood(View(), k);
      if kcbs[k].refs >= MAX_REFS {
        return false;
      }
      OnTheList(View(), k);
      kcbs := kcbs[k := kcbs[k].(refs := kcbs[k].refs + 1)];
      if kcbs[k].index == 0 {
        TakeOffDelayedClose(k);
      }
      users := users + multiset{k};
      ok := true;
    }

    /** The first reference with the KCB locked shared: the count keeps the KCB while the
        lock is given up to get it exclusively. */
    method BeginReference(k: nat)
      requires Good(View()) && k in kcbs && kcbs[k].refs == 0
      modifies this`kcbs, this`converting
      ensures old(Enabled(View(), RefBegin(k))) && Good(View()) && View() == Next(old(View()), RefBegin(k))
      ensures k in kcbs && kcbs[k] == old(kcbs[k]).(refs := 1, index := 1) && converting == old(converting) + multiset{k}
    {
      hide Inv;
      Unreferenced(View(), k);
      RefBeginGood(View(), k);
      kcbs := kcbs[k := kcbs[k].(refs := 1, index := 1)];
      converting := converting + multiset{k};
    }

    /** With the lock held exclusively: whoever comes first takes the KCB off the list. */
    method EndReference(k: nat)
      requires Good(View()) && k in converting
      modifies this
      ensures old(Enabled(View(), RefEnd(k))) && Good(View()) && View() == Next(old(View()), RefEnd(k))
      ensures k in old(kcbs) && k in kcbs && kcbs[k].refs == old(kcbs[k]).refs > 0 && k !in lru
      ensures users == old(users) + multiset{k} && converting == old(converting) - multiset{k} && leaked == old(leaked)
    {
      hide Inv, NoDuplicates, Remove;
      Convertible(View(), k);
      RefEndGood(View(), k);
      ConvertedOff(View(), k);
      converting, users := converting - multiset{k}, users + multiset{k};
      if kcbs[k].index == 1 || kcbs[k].index == 0 {
        TakeOffDelayedClose(k);
      }
    }

    /** CmpDelayDerefKeyControlBlock for the reference in hand: the KCB is still there. */
    method QueueDereference(k: nat, env: Env)
      requires Inv(View(), multiset{k}, {})
      modifies this`kcbs, this`deref, this`leaked
      ensures k in old(kcbs) && View() == DelayDeref(old(View()), k, env)
      ensures Good(View()) && k in kcbs && kcbs[k].refs > 0 && kcbs.Keys == old(kcbs).Keys
      ensures if old(kcbs[k]).refs > 1 then kcbs[k].refs == old(kcbs[k]).refs - 1 && deref == old(deref) && leaked == old(leaked)
              else if env.alloc(k) then kcbs == old(kcbs) && deref == old(deref) + [k] && leaked == old(leaked)
              else kcbs == old(kcbs) && deref == old(deref) && leaked == old(leaked) + multiset{k}
    {
      hide Inv;
      InHand(View(), k);
      DelayDerefInv(View(), k, env);
      if kcbs[k].refs > 1 {
        kcbs := kcbs[k := kcbs[k].(refs := kcbs[k].refs - 1)];
      } else if env.alloc(k) {
        deref := deref + [k];
      } else {
        leaked := leaked + multiset{k};
      }
    }

    /** CmpCleanUpKcbCacheWithLock. */
    method CleanUpKcb(k: nat, exclusive: bool, env: Env)
      requires Inv(View(), multiset{}, {k}) && k in kcbs && kcbs[k].refs == 0 && !kcbs[k].inDelay
      modifies this
      ensures Good(View()) && View() == CleanUp(old(View()), k, exclusive, env)
      ensures k !in kcbs && users == old(users) && converting == old(converting)
      ensures leaked == old(leaked) + if exclusive then multiset{} else old(Lost(View(), k, env))
      ensures deref == old(deref) + if exclusive then [] else old(Queued(View(), k, env))
      decreases |kcbs|, 0
    {
      hide Inv, DerefLocked, DelayDeref, Lost, Queued;
      ghost var s := View();
      CleanUpLoses(s, k, exclusive, env);
      CleanUpFrees(s, k, exclusive, env);
      FreeInv(s, k);
      var parent := kcbs[k].parent;
      if !kcbs[k].deleted {
        table := map t | t in table && t != kcbs[k].key :: table[t];
      }
      kcbs := map j | j in kcbs && j != k :: kcbs[j];
      assert View() == KcbCache.Without(s, k);
      assert kcbs.Keys == s.kcbs.Keys - {k};
      if parent.Some? {
        InHand(View(), parent.value);
        if exclusive {
          DereferenceLocked(parent.value, exclusive, env);
        } else {
          QueueDereference(parent.value, env);
        }
      }
    }

    /** CmpDereferenceKeyControlBlockWithLock, with CmpAddToDelayedClose, for the reference in
        hand. */
    method DereferenceLocked(k: nat, exclusive: bool, env: Env)
      requires Inv(View(), multiset{k}, {})
      modifies this
      ensures Good(View()) && k in old(kcbs) && View() == DerefLocked(old(View()), k, exclusive, env)
      ensures GivenBack(old(View()), View(), k, exclusive, env)
      decreases |kcbs|, 1
    {
      hide Inv, CleanUp, GivenBack;
      ghost var s := View();
      InHand(s, k);
      GivenBackLocked(s, k, exclusive, env);
      DropRef(s, k);
      kcbs := kcbs[k := kcbs[k].(refs := kcbs[k].refs - 1)];
      assert kcbs.Keys == s.kcbs.Keys;
      assert |kcbs| == |s.kcbs|;
      if kcbs[k].refs == 0 {
        if env.hold(k) || kcbs[k].noDelay || kcbs[k].deleted || !env.alloc(k) {
          CleanUpKcb(k, exclusive, env);
        } else {
          AddDelayInv(View(), k);
          kcbs := kcbs[k := kcbs[k].(inDelay := true, index := 0)];
          elements := elements + 1;
          lru := [k] + lru;
        }
      }
    }

    /** CmpDereferenceKeyControlBlock for the reference in hand. */
    method DereferenceKcb(k: nat, env: Env)
      requires Inv(View(), multiset{k}, {})
      modifies this
      ensures Good(View()) && k in old(kcbs) && View() == Dereference(old(View()), k, env)
      ensures old(kcbs[k]).refs > 1 ==>
                && kcbs == old(kcbs)[k := old(kcbs[k]).(refs := old(kcbs[k]).refs - 1)]
                && table == old(table) && lru == old(lru) && deref == old(deref) && leaked == old(leaked)
      ensures old(kcbs[k]).refs == 1 ==>
                && (k in kcbs <==> !env.hold(k) && !old(kcbs[k]).noDelay && !old(kcbs[k]).deleted && env.alloc(k))
                && (k in kcbs ==> kcbs[k].refs == 0 && lru == [k] + old(lru) && leaked == old(leaked) && deref == old(deref))
                && (k !in kcbs ==> leaked == old(leaked) + old(Lost(View(), k, env)) && deref == old(deref) + old(Queued(View(), k, env)))
      ensures (forall j :: env.alloc(j)) ==> leaked == old(leaked)
      ensures users == old(users) && converting == old(converting)
    {
      hide Inv, DerefLocked, Lost, Queued;
      InHand(View(), k);
      GivenBackLocked(View(), k, false, env);
      if forall j :: env.alloc(j) {
        NothingLost(View(), k, false, env);
      }
      if kcbs[k].refs > 1 {
        DropRef(View(), k);
        kcbs := kcbs[k := kcbs[k].(refs := kcbs[k].refs - 1)];
      } else {
        DereferenceLocked(k, false, env);
      }
    }

    /** CmpDelayDerefKCBWorker.  Cleaning up a KCB may queue its parent while the worker
        runs; the worker still ends, with the queue empty. */
    method DerefWorker(env: Env)
      requires Good(View())
      modifies this
      ensures Good(View()) && deref == [] && users == old(users)
      ensures (forall j :: env.alloc(j)) ==> leaked == old(leaked)
    {
      hide Inv, Dereference;
      while deref != []
        invariant Good(View()) && users == old(users)
        invariant (forall j :: env.alloc(j)) ==> leaked == old(leaked)
        decreases 2 * |kcbs| + |deref|
      {
        ghost var s := View();
        QueuedAlive(s);
        DerefWorkerShrinks(s, env);
        QueuedInHand(s);
        var k := deref[0];
        deref := deref[1..];
        DereferenceKcb(k, env);
      }
    }

    /** CmpDelayCloseWorker with nobody in between: it turns at most a quarter of the table's
        size, stops when the list has its size again, and frees only KCBs without a
        reference.  If no reference is being taken it closes the oldest entries, as many as it
        turns. */
    method CloseWorker(env: Env) returns (done: bool)
      requires Good(View())
      modifies this
      ensures Good(View()) && users == old(users) && elements <= old(elements)
      ensures done <==> elements <= SIZE
      ensures forall k :: k in old(kcbs) && old(kcbs[k]).refs > 0 ==> k in kcbs
      ensures (forall j :: env.alloc(j)) ==> leaked == old(leaked)
      ensures old(converting) == multiset{} ==>
                var n := if old(elements) <= SIZE then 0 else if old(elements) - SIZE < 512 then old(elements) - SIZE else 512;
                elements == old(elements) - n && |old(lru)| >= n && lru == old(lru)[..|old(lru)| - n]
    {
      hide Inv, ClosedOldest, Lost;
      var i := 0;
      while i < SIZE / 4 && elements > SIZE
        invariant Good(View()) && users == old(users) && elements <= old(elements)
        invariant forall k :: k in old(kcbs) && old(kcbs[k]).refs > 0 ==> k in kcbs && kcbs[k].refs > 0
        invariant (forall j :: env.alloc(j)) ==> leaked == old(leaked)
        invariant 0 <= i <= SIZE / 4 && converting == old(converting)
        invariant converting == multiset{} ==>
                    elements == old(elements) - i && |lru| == |old(lru)| - i && lru == old(lru)[..|lru|] && (i > 0 ==> elements >= SIZE)
      {
        if converting == multiset{} {
          OldestUnused(View());
        }
        OldestAlive(View());
        ClosedOldestKeeps(View(), env);
        if forall j :: env.alloc(j) {
          LostNothing(View(), lru[|lru| - 1], env);
        }
        CloseOldest(env);
        i := i + 1;
      }
      done := elements <= SIZE;
    }

    /** One turn: the oldest entry is closed if it is still unused, else it goes to the head. */
    method CloseOldest(env: Env)
      requires Good(View()) && lru != [] && lru[|lru| - 1] in kcbs
      modifies this
      ensures Good(View()) && View() == ClosedOldest(old(View()), env)
      ensures var k := old(lru[|lru| - 1]);
              if old(kcbs[k].refs > 0 || kcbs[k].index != 0)
              then lru == [k] + old(lru[..|lru| - 1]) && kcbs == old(kcbs) && elements == old(elements) && leaked == old(leaked)
              else k !in kcbs && lru == old(lru[..|lru| - 1]) && elements == old(elements) - 1
                   && leaked == old(leaked) + old(Lost(View(), k, env)) && deref == old(deref) + old(Queued(View(), k, env))
    {
      hide Inv, CleanUp, Lost, Queued;
      ghost var s := View();
      OldestGoes(s, env);
      RotateGood(s);
      UnlistedInv(s);
      var k := lru[|lru| - 1];
      lru := lru[..|lru| - 1];
      if kcbs[k].refs > 0 || kcbs[k].index != 0 {
        lru := [k] + lru;
      } else {
        kcbs := kcbs[k := kcbs[k].(inDelay := false, index := SIZE)];
        elements := elements - 1;
        CleanUpKcb(k, false, env);
      }
    }
  }

  /** The reference in hand is given back: one less of several, or the last one, and then the
      KCB goes at once or is kept at the head of the delayed-close list. */
  ghost predicate GivenBack(s: State, t: State, k: nat, exclusive: bool, env: Env)
    requires k in s.kcbs
  {
    && (s.kcbs[k].refs > 1 ==> t == s.(kcbs := s.kcbs[k := s.kcbs[k].(refs := s.kcbs[k].refs - 1)]))
    && (s.kcbs[k].refs == 1 ==>
          && (k in t.kcbs <==> !GoesAtOnce(s.kcbs[k], k, env))
          && (k in t.kcbs ==> t.kcbs[k].refs == 0 && t.lru == [k] + s.lru && t.leaked == s.leaked && t.deref == s.deref)
          && (k !in t.kcbs ==>
                && t.leaked == s.leaked + (if exclusive then multiset{} else Lost(s, k, env))
                && t.deref == s.deref + (if exclusive then [] else Queued(s, k, env))))
    && t.users == s.users && t.converting == s.converting
  }

  lemma GivenBackLocked(s: State, k: nat, exclusive: bool, env: Env)
    requires k in s.kcbs && s.kcbs[k].refs > 0
    ensures GivenBack(s, DerefLocked(s, k, exclusive, env), k, exclusive, env)
  {
    hide CleanUp, Lost, Queued;
    DerefLockedLoses(s, k, exclusive, env);
    DerefLockedSurvivors(s, k, exclusive, env);
    if s.kcbs[k].refs > 1 {
      OthersRemain(s, k, exclusive, env);
    } else {
      LastReference(s, k, exclusive, env);
      if !GoesAtOnce(s.kcbs[k], k, env) {
        KeptCount(s, k, exclusive, env);
      }
    }
  }

  lemma KeptCount(s: State, k: nat, exclusive: bool, env: Env)
    requires k in s.kcbs && s.kcbs[k].refs == 1 && !GoesAtOnce(s.kcbs[k], k, env)
    ensures k in DerefLocked(s, k, exclusive, env).kcbs && DerefLocked(s, k, exclusive, env).kcbs[k].refs == 0
  {
    hide CleanUp;
  }

  /** The oldest entry of the delayed-close list goes exactly if it is still unused. */
  lemma OldestGoes(s: State, env: Env)
    requires s.lru != [] && s.lru[|s.lru| - 1] in s.kcbs
    ensures var k, rest := s.lru[|s.lru| - 1], s.lru[..|s.lru| - 1];
            var t := ClosedOldest(s, env);
            if s.kcbs[k].refs > 0 || s.kcbs[k].index != 0 then t == s.(lru := [k] + rest)
            else k !in t.kcbs && t.lru == rest && t.elements == s.elements - 1
                 && t.leaked == s.leaked + Lost(s, k, env) && t.deref == s.deref + Queued(s, k, env)
  {
    var k, rest := s.lru[|s.lru| - 1], s.lru[..|s.lru| - 1];
    var u := Unlisted(s);
    assert Lost(u, k, env) == Lost(s, k, env) && Queued(u, k, env) == Queued(s, k, env);
    hide Lost, Queued;
    CleanUpLoses(u, k, false, env);
    CleanUpLists(u, k, env);
    CleanUpSurvivors(u, k, false, env);
    hide CleanUp;
  }

  lemma CleanUpLists(s: State, k: nat, env: Env)
    requires k in s.kcbs
    ensures CleanUp(s, k, false, env).lru == s.lru && CleanUp(s, k, false, env).elements == s.elements
  {
  }

  /** A KCB whose index is zero is on the delayed-close list. */
  lemma OnTheList(s: State, k: nat)
    requires Good(s) && k in s.kcbs
    ensures NoDuplicates(s.lru) && s.elements == |s.lru| && (s.kcbs[k].index == 0 ==> k in s.lru)
  {
    hide Balanced, Rooted, Hashed, Owed, NoDuplicates;
  }

  lemma Unreferenced(s: State, k: nat)
    requires Good(s) && k in s.kcbs && s.kcbs[k].refs == 0
    ensures Enabled(s, RefBegin(k))
  {
    hide Balanced, Rooted, Hashed, Owed, NoDuplicates;
  }

  lemma Convertible(s: State, k: nat)
    requires Good(s) && k in s.converting
    ensures Enabled(s, RefEnd(k)) && NoDuplicates(s.lru) && s.elements == |s.lru|
    ensures s.kcbs[k].refs > 0 && ((s.kcbs[k].index == 1 || s.kcbs[k].index == 0) <==> k in s.lru)
  {
    hide Rooted, Hashed, NoDuplicates;
    assert Owed(s)[k] >= s.converting[k];
    assert k in Owed(s) + multiset{};
  }

  lemma ConvertedOff(s: State, k: nat)
    requires Enabled(s, RefEnd(k)) && NoDuplicates(s.lru)
    requires (s.kcbs[k].index == 1 || s.kcbs[k].index == 0) <==> k in s.lru
    ensures k !in Converted(s, k).lru
  {
    hide NoDuplicates, Remove;
    RemoveMembers(s.lru, k);
  }

  lemma QueuedInHand(s: State)
    requires Good(s) && s.deref != []
    ensures Inv(s.(deref := s.deref[1..]), multiset{s.deref[0]}, {})
  {
    hide Inv, Owed;
    QueuedAlive(s);
    QueueOwed(s);
    TakeInHand(s, s.(deref := s.deref[1..]), s.deref[0]);
  }

  lemma OldestAlive(s: State)
    requires Good(s) && s.elements > SIZE
    ensures s.lru != [] && s.lru[|s.lru| - 1] in s.kcbs
  {
    hide Balanced, Rooted, Hashed, Owed, NoDuplicates;
    assert s.lru[|s.lru| - 1] in s.lru;
  }

  /** Unless a reference is being taken, every entry of the list is unused. */
  lemma OldestUnused(s: State)
    requires Good(s) && s.elements > SIZE && s.converting == multiset{}
    ensures s.lru != [] && s.lru[|s.lru| - 1] in s.kcbs && s.elements == |s.lru|
    ensures s.kcbs[s.lru[|s.lru| - 1]].refs == 0 && s.kcbs[s.lru[|s.lru| - 1]].index == 0
  {
    hide Balanced, Rooted, Hashed, Owed, NoDuplicates;
    assert s.lru[|s.lru| - 1] in s.lru;
  }

  /** Closing the oldest entry frees at most that KCB: whoever is referenced stays so. */
  lemma ClosedOldestKeeps(s: State, env: Env)
    requires s.lru != [] && s.lru[|s.lru| - 1] in s.kcbs
    ensures var t := ClosedOldest(s, env);
            && t.users == s.users && t.converting == s.converting && t.elements <= s.elements
            && forall k :: k in s.kcbs && s.kcbs[k].refs > 0 ==> k in t.kcbs && t.kcbs[k].refs > 0
  {
  }

  lemma QueuedAlive(s: State)
    requires Good(s) && s.deref != []
    ensures s.deref[0] in s.kcbs
  {
    assert s.deref[0] in s.deref;
    assert s.deref[0] in Owed(s) + multiset{};
  }

  /** One queued dereference leaves less to do, even when it queues the parent. */
  lemma DerefWorkerShrinks(s: State, env: Env)
    requires Good(s) && s.deref != [] && s.deref[0] in s.kcbs
    ensures var t := Dereference(s.(deref := s.deref[1..]), s.deref[0], env);
            2 * |t.kcbs| + |t.deref| < 2 * |s.kcbs| + |s.deref| && t.users == s.users
  {
    var s1, k := s.(deref := s.deref[1..]), s.deref[0];
    DereferenceSize(s1, k, env);
  }

  /** A dereference without the exclusive lock frees at most one KCB, and queues at most
      that KCB's parent. */
  lemma DereferenceSize(s: State, k: nat, env: Env)
    requires k in s.kcbs
    ensures var t := Dereference(s, k, env);
            && 2 * |t.kcbs| + |t.deref| <= 2 * |s.kcbs| + |s.deref| && t.users == s.users
  {
    if s.kcbs[k].refs > 1 {
      assert WithRefs(s, k, s.kcbs[k].refs - 1).kcbs.Keys == s.kcbs.Keys;
    } else if s.kcbs[k].refs == 1 {
      LastSize(s, k, env);
    }
  }

  lemma LastSize(s: State, k: nat, env: Env)
    requires k in s.kcbs && s.kcbs[k].refs == 1
    ensures var t := DerefLocked(s, k, false, env);
            && 2 * |t.kcbs| + |t.deref| <= 2 * |s.kcbs| + |s.deref| && t.users == s.users
  {
    hide CleanUp;
    var s1 := WithRefs(s, k, 0);
    assert s1.kcbs.Keys == s.kcbs.Keys;
    assert |s1.kcbs| == |s.kcbs|;
    CleanUpSize(s1, k, env);
    AddDelaySize(s1, k);
  }

  lemma AddDelaySize(s: State, k: nat)
    requires k in s.kcbs
    ensures |s.kcbs[k := s.kcbs[k].(inDelay := true, index := 0)]| == |s.kcbs|
  {
    assert s.kcbs[k := s.kcbs[k].(inDelay := true, index := 0)].Keys == s.kcbs.Keys;
  }

  lemma CleanUpSize(s: State, k: nat, env: Env)
    requires k in s.kcbs
    ensures var t := CleanUp(s, k, false, env);
            2 * |t.kcbs| + |t.deref| < 2 * |s.kcbs| + |s.deref| && t.users == s.users
  {
    var s1 := Without(s, k);
    assert s1.kcbs.Keys == s.kcbs.Keys - {k};
    assert |s1.kcbs| == |s.kcbs| - 1;
    match s.kcbs[k].parent {
      case None =>
      case Some(p) =>
        if p in s1.kcbs {
          assert DelayDeref(s1, p, env).kcbs.Keys == s1.kcbs.Keys;
          assert |DelayDeref(s1, p, env).kcbs| == |s1.kcbs|;
        }
    }
  }
}
