/** What giving back a reference does to the KCBs: whose count falls, who goes, who is kept
    for a later open, and when a reference is lost for good. */
module KcbEffects {
  import opened Lists
  import opened KcbCache
  import opened KcbRuns

  /** A KCB that loses its last reference goes at once. */
  predicate GoesAtOnce(c: Kcb, k: nat, env: Env) {
    env.hold(k) || c.noDelay || c.deleted || !env.alloc(k)
  }

  /** The parent a KCB would give back. */
  predicate HasParent(s: State, k: nat) {
    && k in s.kcbs && s.kcbs[k].parent.Some? && s.kcbs[k].parent.value in s.kcbs
    && s.kcbs[k].parent.value != k
  }

  /** The reference on the parent that is lost when `k` goes without the exclusive lock: the
      parent has no other, and no delay item can be had for it. */
  ghost function Lost(s: State, k: nat, env: Env): multiset<nat>
    requires k in s.kcbs
  {
    if HasParent(s, k) && s.kcbs[s.kcbs[k].parent.value].refs <= 1 && !env.alloc(s.kcbs[k].parent.value)
    then multiset{s.kcbs[k].parent.value} else multiset{}
  }

  /** The dereference of the parent that is queued instead. */
  ghost function Queued(s: State, k: nat, env: Env): seq<nat>
    requires k in s.kcbs
  {
    if HasParent(s, k) && s.kcbs[s.kcbs[k].parent.value].refs <= 1 && env.alloc(s.kcbs[k].parent.value)
    then [s.kcbs[k].parent.value] else []
  }

  // ----- References that are lost -------------------------------------------------------------

  /** Queueing a dereference loses it exactly if it is the last and no item can be had. */
  lemma DelayDerefLoses(s: State, k: nat, env: Env)
    requires k in s.kcbs
    ensures var t := DelayDeref(s, k, env);
            && t.leaked == s.leaked + (if s.kcbs[k].refs <= 1 && !env.alloc(k) then multiset{k} else multiset{})
            && (s.kcbs[k].refs > 1 ==> t == s.(kcbs := s.kcbs[k := s.kcbs[k].(refs := s.kcbs[k].refs - 1)]))
            && (s.kcbs[k].refs <= 1 && env.alloc(k) ==> t == s.(deref := s.deref + [k]))
            && (s.kcbs[k].refs <= 1 && !env.alloc(k) ==> t == s.(leaked := s.leaked + multiset{k}))
  {
  }

  /** Cleaning up loses nothing but the reference on the parent, and under the exclusive lock
      not even that; then nothing is queued either. */
  lemma {:induction false} CleanUpLoses(s: State, k: nat, exclusive: bool, env: Env)
    requires k in s.kcbs
    ensures CleanUp(s, k, exclusive, env).leaked == s.leaked + (if exclusive then multiset{} else Lost(s, k, env))
    ensures CleanUp(s, k, exclusive, env).deref == s.deref + (if exclusive then [] else Queued(s, k, env))
    ensures !exclusive ==> CleanUp(s, k, exclusive, env).kcbs.Keys == s.kcbs.Keys - {k}
    decreases |s.kcbs|, 0
  {
    hide DerefLocked, DelayDeref, GoesAtOnce;
    var s1 := Without(s, k);
    assert s1.kcbs.Keys == s.kcbs.Keys - {k};
    if HasParent(s, k) {
      var p := s.kcbs[k].parent.value;
      if exclusive {
        DerefLockedLoses(s1, p, exclusive, env);
      } else {
        DelayDerefLoses(s1, p, env);
      }
    }
  }

  lemma SameLost(s: State, s1: State, k: nat, env: Env)
    requires k in s.kcbs && k in s1.kcbs && s1.kcbs == s.kcbs[k := s.kcbs[k].(refs := s1.kcbs[k].refs)]
    ensures Lost(s1, k, env) == Lost(s, k, env) && Queued(s1, k, env) == Queued(s, k, env)
  {
  }

  /** A dereference loses a reference exactly if the KCB goes at once without the exclusive
      lock and the reference on its parent is lost. */
  lemma {:induction false} DerefLockedLoses(s: State, k: nat, exclusive: bool, env: Env)
    requires k in s.kcbs
    ensures DerefLocked(s, k, exclusive, env).leaked
         == s.leaked + (if !exclusive && s.kcbs[k].refs == 1 && GoesAtOnce(s.kcbs[k], k, env) then Lost(s, k, env) else multiset{})
    ensures DerefLocked(s, k, exclusive, env).deref
         == s.deref + (if !exclusive && s.kcbs[k].refs == 1 && GoesAtOnce(s.kcbs[k], k, env) then Queued(s, k, env) else [])
    decreases |s.kcbs|, 2
  {
    hide CleanUp, Lost, Queued;
    if s.kcbs[k].refs > 0 {
      var s1 := WithRefs(s, k, s.kcbs[k].refs - 1);
      assert s1.kcbs.Keys == s.kcbs.Keys;
      assert |s1.kcbs| == |s.kcbs|;
      CleanUpLoses(s1, k, exclusive, env);
      SameLost(s, s1, k, env);
    }
  }

  lemma LostNothing(s: State, k: nat, env: Env)
    requires k in s.kcbs && forall j :: env.alloc(j)
    ensures Lost(s, k, env) == multiset{}
  {
  }

  lemma CleanUpFrees(s: State, k: nat, exclusive: bool, env: Env)
    requires k in s.kcbs
    ensures var t := CleanUp(s, k, exclusive, env);
            k !in t.kcbs && t.users == s.users && t.converting == s.converting
  {
    hide CleanUp;
    CleanUpSurvivors(s, k, exclusive, env);
  }

  /** With memory for delay items no dereference is ever lost. */
  lemma NothingLost(s: State, k: nat, exclusive: bool, env: Env)
    requires k in s.kcbs && forall j :: env.alloc(j)
    ensures DelayDeref(s, k, env).leaked == s.leaked
    ensures CleanUp(s, k, exclusive, env).leaked == s.leaked
    ensures DerefLocked(s, k, exclusive, env).leaked == s.leaked
    ensures Dereference(s, k, env).leaked == s.leaked
  {
    hide CleanUp, DerefLocked;
    CleanUpLoses(s, k, exclusive, env);
    DerefLockedLoses(s, k, exclusive, env);
    DerefLockedLoses(s, k, false, env);
  }

  // ----- Counts that fall, KCBs that go -----------------------------------------------------------

  /** While others remain a dereference takes one off the count and does nothing else. */
  lemma OthersRemain(s: State, k: nat, exclusive: bool, env: Env)
    requires k in s.kcbs && s.kcbs[k].refs > 1
    ensures Dereference(s, k, env) == DerefLocked(s, k, exclusive, env)
         == s.(kcbs := s.kcbs[k := s.kcbs[k].(refs := s.kcbs[k].refs - 1)])
  {
  }

  /** From `s` to `t` those that went, `k` aside, lost their last reference and were to go at
      once; those that lost it and stayed are kept for later. */
  ghost predicate RightOnesWent(s: State, t: State, env: Env, k: Option<nat>) {
    && (forall j :: j in s.kcbs && j !in t.kcbs ==> Some(j) == k || GoesAtOnce(s.kcbs[j], j, env))
    && (forall j :: j in t.kcbs && j in s.kcbs && t.kcbs[j].refs == 0 && s.kcbs[j].refs > 0 ==>
          !GoesAtOnce(s.kcbs[j], j, env) && j in t.lru)
    && (forall j :: j in s.lru ==> j in t.lru)
  }

  lemma WentTwice(s: State, k: nat, env: Env)
    requires k in s.kcbs && HasParent(s, k)
    ensures var s1, p := Without(s, k), s.kcbs[k].parent.value;
            forall t :: RightOnesWent(s1, t, env, None) && t.kcbs.Keys <= s1.kcbs.Keys ==> RightOnesWent(s, t, env, Some(k))
  {
  }

  /** Cleaning up under the exclusive lock, all the way up. */
  lemma {:induction false} CleanUpWent(s: State, k: nat, env: Env)
    requires k in s.kcbs
    ensures RightOnesWent(s, CleanUp(s, k, true, env), env, Some(k)) && k !in CleanUp(s, k, true, env).kcbs
    decreases |s.kcbs|, 0
  {
    hide DerefLocked, DelayDeref, GoesAtOnce;
    CleanUpSurvivors(s, k, true, env);
    var s1 := Without(s, k);
    assert s1.kcbs.Keys == s.kcbs.Keys - {k};
    if HasParent(s, k) {
      var p := s.kcbs[k].parent.value;
      DerefLockedWent(s1, p, env);
      DerefLockedSurvivors(s1, p, true, env);
      WentTwice(s, k, env);
    }
  }

  lemma {:induction false} DerefLockedWent(s: State, k: nat, env: Env)
    requires k in s.kcbs
    ensures RightOnesWent(s, DerefLocked(s, k, true, env), env, None)
    decreases |s.kcbs|, 2
  {
    hide CleanUp, RightOnesWent;
    if s.kcbs[k].refs == 1 {
      var s1 := WithRefs(s, k, 0);
      assert s1.kcbs.Keys == s.kcbs.Keys;
      assert |s1.kcbs| == |s.kcbs|;
      if GoesAtOnce(s.kcbs[k], k, env) {
        CleanUpWent(s1, k, env);
        CleanUpSurvivors(s1, k, true, env);
        WentFirst(s, s1, CleanUp(s1, k, true, env), env, k);
      } else {
        WentNone(s, k, env);
      }
    } else if s.kcbs[k].refs > 1 {
      WentFewer(s, k, env);
    } else {
      WentNobody(s, env);
    }
  }

  lemma WentNobody(s: State, env: Env)
    ensures RightOnesWent(s, s, env, None)
  {
  }

  lemma WentFewer(s: State, k: nat, env: Env)
    requires k in s.kcbs && s.kcbs[k].refs > 1
    ensures RightOnesWent(s, WithRefs(s, k, s.kcbs[k].refs - 1), env, None)
  {
  }

  lemma WentNone(s: State, k: nat, env: Env)
    requires k in s.kcbs && s.kcbs[k].refs == 1 && !GoesAtOnce(s.kcbs[k], k, env)
    ensures var s1 := WithRefs(s, k, 0);
            var t := s1.(kcbs := s1.kcbs[k := s1.kcbs[k].(inDelay := true, index := 0)], lru := [k] + s1.lru, elements := s1.elements + 1);
            RightOnesWent(s, t, env, None)
  {
  }

  lemma WentFirst(s: State, s1: State, t: State, env: Env, k: nat)
    requires k in s.kcbs && s1 == WithRefs(s, k, 0) && GoesAtOnce(s.kcbs[k], k, env)
    requires RightOnesWent(s1, t, env, Some(k)) && k !in t.kcbs
    ensures RightOnesWent(s, t, env, None)
  {
  }

  // ----- Creating --------------------------------------------------------------------------------------

  /** One more user of a KCB, or no change at the limit. */
  ghost predicate OneMoreUser(s: State, t: State, k: nat)
    requires k in s.kcbs
  {
    if s.kcbs[k].refs >= MAX_REFS then t == s
    else t.kcbs.Keys == s.kcbs.Keys && t.kcbs[k].refs == s.kcbs[k].refs + 1 && t.users == s.users + multiset{k} && t.table == s.table
  }

  lemma OpenedUser(s: State, k: nat)
    requires k in s.kcbs
    ensures OneMoreUser(s, Opened(s, k), k)
  {
    hide Remove;
  }

  /** A new KCB for the key, with one user. */
  ghost predicate NewUser(s: State, t: State, id: nat, key: nat, parent: Option<nat>, level: nat, noDelay: bool) {
    && t.kcbs.Keys == s.kcbs.Keys + {id} && t.kcbs[id] == Kcb(key, parent, level, 1, SIZE, false, noDelay, false)
    && t.table == s.table[key := id] && t.users == s.users + multiset{id}
  }

  /** What creating a KCB comes to: a KCB of the key is reused; a key too deep or below a
      parent at its limit changes nothing; otherwise the new KCB hangs below its parent, whose
      count goes up, or, if its name cannot be had, is gone again, and the parent is as if it
      had been opened and closed. */
  lemma CreatedOutcome(s: State, id: nat, key: nat, parent: Option<nat>, nameOk: bool, noDelay: bool, env: Env)
    requires Good(s) && id !in s.kcbs && (parent.Some? ==> parent.value in s.kcbs)
    ensures var t := Created(s, id, key, parent, nameOk, noDelay, env);
            if key in s.table then s.table[key] in s.kcbs && OneMoreUser(s, t, s.table[key])
            else if parent.None? then NewUser(s, t, id, key, None, 1, noDelay) && forall j :: j in s.kcbs ==> t.kcbs[j] == s.kcbs[j]
            else
              var p := parent.value;
              if s.kcbs[p].level + 1 >= MAX_LEVELS || s.kcbs[p].refs >= MAX_REFS then t == s
              else if nameOk then
                && NewUser(s, t, id, key, parent, s.kcbs[p].level + 1, noDelay) && t.kcbs[p].refs == s.kcbs[p].refs + 1
                && forall j :: j in s.kcbs && j != p ==> t.kcbs[j] == s.kcbs[j]
              else
                && t.users == s.users && id !in t.kcbs && key !in t.table
                && (s.kcbs[p].refs > 0 ==> p in t.kcbs && t.kcbs[p].refs == s.kcbs[p].refs)
                && (s.kcbs[p].refs == 0 ==> (p in t.kcbs <==> !GoesAtOnce(s.kcbs[p], p, env)))
  {
    hide Inv, Created, Opened, NewUser, OneMoreUser, GoesAtOnce;
    TableAlive(s, key);
    if key in s.table {
      OpenedUser(s, s.table[key]);
      CreatedReuses(s, id, key, parent, nameOk, noDelay, env);
    } else if parent.None? {
      CreatedRoot(s, id, key, nameOk, noDelay, env);
    } else {
      var p := parent.value;
      if s.kcbs[p].level + 1 >= MAX_LEVELS || s.kcbs[p].refs >= MAX_REFS {
        CreatedNothing(s, id, key, p, nameOk, noDelay, env);
      } else if nameOk {
        CreatedChild(s, id, key, p, noDelay, env);
      } else {
        BackedOut(s, id, key, p, noDelay, env);
      }
    }
  }

  lemma CreatedRoot(s: State, id: nat, key: nat, nameOk: bool, noDelay: bool, env: Env)
    requires id !in s.kcbs && key !in s.table
    ensures var t := Created(s, id, key, None, nameOk, noDelay, env);
            NewUser(s, t, id, key, None, 1, noDelay) && forall j :: j in s.kcbs ==> t.kcbs[j] == s.kcbs[j]
  {
  }

  lemma CreatedNothing(s: State, id: nat, key: nat, p: nat, nameOk: bool, noDelay: bool, env: Env)
    requires p in s.kcbs && key !in s.table && (s.kcbs[p].level + 1 >= MAX_LEVELS || s.kcbs[p].refs >= MAX_REFS)
    ensures Created(s, id, key, Some(p), nameOk, noDelay, env) == s
  {
  }

  lemma CreatedChild(s: State, id: nat, key: nat, p: nat, noDelay: bool, env: Env)
    requires p in s.kcbs && id !in s.kcbs && key !in s.table && s.kcbs[p].level + 1 < MAX_LEVELS && s.kcbs[p].refs < MAX_REFS
    ensures var t := Created(s, id, key, Some(p), true, noDelay, env);
            && NewUser(s, t, id, key, Some(p), s.kcbs[p].level + 1, noDelay) && t.kcbs[p].refs == s.kcbs[p].refs + 1
            && forall j :: j in s.kcbs && j != p ==> t.kcbs[j] == s.kcbs[j]
  {
    hide DerefLocked, Remove;
    var s1 := Reference(s, p).value;
    assert s1.kcbs == s.kcbs[p := s1.kcbs[p]] && s1.kcbs[p].refs == s.kcbs[p].refs + 1 && s1.table == s.table && s1.users == s.users;
    assert s1.kcbs.Keys == s.kcbs.Keys;
    hide Reference;
  }

  lemma CreatedReuses(s: State, id: nat, key: nat, parent: Option<nat>, nameOk: bool, noDelay: bool, env: Env)
    requires key in s.table && s.table[key] in s.kcbs && (parent.Some? ==> parent.value in s.kcbs)
    ensures Created(s, id, key, parent, nameOk, noDelay, env) == Opened(s, s.table[key])
  {
  }

  lemma BackedOut(s: State, id: nat, key: nat, p: nat, noDelay: bool, env: Env)
    requires p in s.kcbs && id !in s.kcbs && key !in s.table && s.kcbs[p].level + 1 < MAX_LEVELS && s.kcbs[p].refs < MAX_REFS
    ensures var t := Created(s, id, key, Some(p), false, noDelay, env);
            && t.users == s.users && id !in t.kcbs && key !in t.table
            && (s.kcbs[p].refs > 0 ==> p in t.kcbs && t.kcbs[p].refs == s.kcbs[p].refs)
            && (s.kcbs[p].refs == 0 ==> (p in t.kcbs <==> !GoesAtOnce(s.kcbs[p], p, env)))
  {
    hide CleanUp, Remove;
    var s1 := Reference(s, p).value;
    assert s1.kcbs.Keys == s.kcbs.Keys;
    DerefLockedSurvivors(s1, p, false, env);
    DerefTable(s1, p, false, env);
    if s.kcbs[p].refs > 0 {
      OthersRemain(s1, p, false, env);
    } else {
      LastReference(s1, p, false, env);
    }
  }

  /** Giving back references never adds to the table. */
  lemma {:induction false} CleanUpTable(s: State, k: nat, exclusive: bool, env: Env)
    requires k in s.kcbs
    ensures CleanUp(s, k, exclusive, env).table.Keys <= s.table.Keys
    decreases |s.kcbs|, 0
  {
    hide DerefLocked;
    var s1 := Without(s, k);
    assert s1.kcbs.Keys == s.kcbs.Keys - {k};
    if HasParent(s, k) && exclusive {
      DerefTable(s1, s.kcbs[k].parent.value, exclusive, env);
    }
  }

  lemma {:induction false} DerefTable(s: State, k: nat, exclusive: bool, env: Env)
    requires k in s.kcbs
    ensures DerefLocked(s, k, exclusive, env).table.Keys <= s.table.Keys
    decreases |s.kcbs|, 2
  {
    hide CleanUp;
    if s.kcbs[k].refs > 0 {
      var s1 := WithRefs(s, k, s.kcbs[k].refs - 1);
      assert s1.kcbs.Keys == s.kcbs.Keys;
      assert |s1.kcbs| == |s.kcbs|;
      CleanUpTable(s1, k, exclusive, env);
    }
  }

  // ----- Runs -------------------------------------------------------------------------------------------

  /** The step finds memory for every delay item it asks for. */
  ghost predicate HasMemory(step: Step) {
    match step
    case Create(_, _, _, _, _, env) => forall j :: env.alloc(j)
    case Close(_, env) => forall j :: env.alloc(j)
    case CloseLocked(_, _, env) => forall j :: env.alloc(j)
    case DerefWorker(env) => forall j :: env.alloc(j)
    case CloseWorker(env) => forall j :: env.alloc(j)
    case _ => true
  }

  lemma CreatedLoses(s: State, id: nat, key: nat, parent: Option<nat>, nameOk: bool, noDelay: bool, env: Env)
    requires (parent.Some? ==> parent.value in s.kcbs) && forall j :: env.alloc(j)
    ensures Created(s, id, key, parent, nameOk, noDelay, env).leaked == s.leaked
  {
    hide DerefLocked, CleanUp, Remove;
    if parent.Some? && Reference(s, parent.value).Some? {
      NothingLost(Reference(s, parent.value).value, parent.value, false, env);
    }
  }

  lemma OldestLoses(s: State, env: Env)
    requires s.lru != [] && s.lru[|s.lru| - 1] in s.kcbs && forall j :: env.alloc(j)
    ensures ClosedOldest(s, env).leaked == s.leaked
  {
    hide CleanUp;
    NothingLost(Unlisted(s), s.lru[|s.lru| - 1], false, env);
  }

  lemma LosesNothingStep(s: State, step: Step)
    requires Enabled(s, step) && HasMemory(step)
    ensures Next(s, step).leaked == s.leaked
  {
    hide DerefLocked, Dereference, Created, ClosedOldest, Remove;
    match step {
      case Create(id, key, parent, nameOk, noDelay, env) => CreatedLoses(s, id, key, parent, nameOk, noDelay, env);
      case Close(k, env) => NothingLost(s.(users := s.users - multiset{k}), k, false, env);
      case CloseLocked(k, exclusive, env) => NothingLost(s.(users := s.users - multiset{k}), k, exclusive, env);
      case DerefWorker(env) => NothingLost(s.(deref := s.deref[1..]), s.deref[0], false, env);
      case CloseWorker(env) => OldestLoses(s, env);
      case _ =>
    }
  }

  /** In every run that finds memory for its delay items no reference is ever lost: each count
      is children, users, conversions and queued dereferences, and nothing else. */
  lemma {:induction false} NoneLeaks(s: State, steps: seq<Step>)
    requires Runs(s, steps) && forall i :: 0 <= i < |steps| ==> HasMemory(steps[i])
    ensures After(s, steps).leaked == s.leaked
    decreases steps
  {
    hide Next, Enabled, HasMemory;
    if steps != [] {
      LosesNothingStep(s, steps[0]);
      forall i | 0 <= i < |steps[1..]| ensures HasMemory(steps[1..][i]) {
        assert HasMemory(steps[i + 1]);
      }
      NoneLeaks(Next(s, steps[0]), steps[1..]);
    }
  }
}
