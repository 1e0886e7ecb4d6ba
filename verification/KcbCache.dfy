/** Registry key control blocks: reference counts, the delayed-close list and the
    delayed-dereference queue.

    Each step is one operation under the KCB's lock.  `users`, `converting` and `leaked`
    are history: who still owes a dereference, who is between dropping the shared lock
    and holding the exclusive one, and which dereferences were lost to a failed
    allocation. */
module KcbCache {
  import opened Lists

  const MAX_REFS := 0xFFFF
  const MAX_LEVELS := 512
  /** CmpDelayedCloseSize, also the index of a KCB that is not on the delayed-close list. */
  const SIZE := 2048

  /** `index` is DelayedCloseIndex, `inDelay` InDelayClose, `noDelay` CM_KCB_NO_DELAY_CLOSE. */
  datatype Kcb = Kcb(key: nat, parent: Option<nat>, level: nat, refs: nat,
                     index: nat, inDelay: bool, noDelay: bool, deleted: bool)

  /** `lru` is head first; `elements` is CmpDelayedCloseElements. */
  datatype State = State(kcbs: map<nat, Kcb>, table: map<nat, nat>, lru: seq<nat>, elements: int, deref: seq<nat>,
                         users: multiset<nat>, converting: multiset<nat>, leaked: multiset<nat>)

  /** What the environment decides for each KCB an operation comes to: whether lazy flush
      is held (and the key is no link), and whether a delay item can be allocated. */
  datatype Env = Env(hold: nat -> bool, alloc: nat -> bool)

  // ----- The operations ----------------------------------------------------------------

  function WithRefs(s: State, k: nat, refs: nat): State
    requires k in s.kcbs
  {
    s.(kcbs := s.kcbs[k := s.kcbs[k].(refs := refs)])
  }

  /** CmpRemoveFromDelayedClose. */
  function RemoveFromDelayedClose(s: State, k: nat): State
    requires k in s.kcbs
  {
    s.(lru := Remove(s.lru, k), elements := s.elements - 1,
       kcbs := s.kcbs[k := s.kcbs[k].(inDelay := false, index := SIZE)])
  }

  /** CmpReferenceKeyControlBlock with the lock held exclusively; fails at the limit. */
  function Reference(s: State, k: nat): Option<State>
    requires k in s.kcbs
  {
    if s.kcbs[k].refs >= MAX_REFS then None
    else
      var s1 := WithRefs(s, k, s.kcbs[k].refs + 1);
      Some(if s.kcbs[k].index == 0 then RemoveFromDelayedClose(s1, k) else s1)
  }

  /** CmpDelayDerefKeyControlBlock. */
  function DelayDeref(s: State, k: nat, env: Env): State
    requires k in s.kcbs
  {
    if s.kcbs[k].refs > 1 then WithRefs(s, k, s.kcbs[k].refs - 1)
    else if env.alloc(k) then s.(deref := s.deref + [k])
    else s.(leaked := s.leaked + multiset{k})
  }

  function Without(s: State, k: nat): State
    requires k in s.kcbs
  {
    s.(kcbs := map j | j in s.kcbs && j != k :: s.kcbs[j],
       table := if s.kcbs[k].deleted then s.table else map t | t in s.table && t != s.kcbs[k].key :: s.table[t])
  }

  /** CmpCleanUpKcbCacheWithLock: frees the KCB and gives up its hold on the parent. */
  function CleanUp(s: State, k: nat, exclusive: bool, env: Env): State
    requires k in s.kcbs
    decreases |s.kcbs|, 0
  {
    var s1 := Without(s, k);
    assert s1.kcbs.Keys == s.kcbs.Keys - {k};
    match s.kcbs[k].parent
    case None => s1
    case Some(p) =>
      if p !in s1.kcbs then s1
      else if exclusive then DerefLocked(s1, p, exclusive, env)
      else DelayDeref(s1, p, env)
  }

  /** CmpAddToDelayedClose. */
  function AddToDelayedClose(s: State, k: nat, exclusive: bool, env: Env): State
    requires k in s.kcbs
    decreases |s.kcbs|, 1
  {
    if !env.alloc(k) then CleanUp(s, k, exclusive, env)
    else s.(kcbs := s.kcbs[k := s.kcbs[k].(inDelay := true, index := 0)], lru := [k] + s.lru, elements := s.elements + 1)
  }

  /** CmpDereferenceKeyControlBlockWithLock. */
  function DerefLocked(s: State, k: nat, exclusive: bool, env: Env): State
    requires k in s.kcbs
    decreases |s.kcbs|, 2
  {
    if s.kcbs[k].refs == 0 then s
    else
      var s1 := WithRefs(s, k, s.kcbs[k].refs - 1);
      assert s1.kcbs.Keys == s.kcbs.Keys;
      assert |s1.kcbs| == |s.kcbs|;
      if s1.kcbs[k].refs > 0 then s1
      else if env.hold(k) || s1.kcbs[k].noDelay || s1.kcbs[k].deleted then CleanUp(s1, k, exclusive, env)
      else AddToDelayedClose(s1, k, exclusive, env)
  }

  /** CmpDereferenceKeyControlBlock. */
  function Dereference(s: State, k: nat, env: Env): State
    requires k in s.kcbs
  {
    if s.kcbs[k].refs > 1 then WithRefs(s, k, s.kcbs[k].refs - 1) else DerefLocked(s, k, false, env)
  }

  // ----- What is kept --------------------------------------------------------------------

  function Children(kcbs: map<nat, Kcb>, k: nat): set<nat> {
    set c | c in kcbs && kcbs[c].parent == Some(k)
  }

  /** Every reference somebody will still give back. */
  function Owed(s: State): multiset<nat> {
    s.users + s.converting + s.leaked + multiset(s.deref)
  }

  /** Each count is the number of children plus the references owed, and nothing is owed on
      a dead KCB. */
  ghost predicate Balanced(kcbs: map<nat, Kcb>, owed: multiset<nat>) {
    && (forall k :: k in kcbs ==> kcbs[k].refs == |Children(kcbs, k)| + owed[k] <= MAX_REFS)
    && (forall k :: k in owed ==> k in kcbs)
  }

  /** Every parent is alive and one level up. */
  ghost predicate Rooted(kcbs: map<nat, Kcb>) {
    forall c :: c in kcbs && kcbs[c].parent.Some? ==>
      kcbs[c].parent.value in kcbs && kcbs[kcbs[c].parent.value].level + 1 == kcbs[c].level
  }

  /** How a KCB's place on the delayed-close list, its index and its count go together. */
  predicate DelayFits(c: Kcb, converting: nat) {
    if c.inDelay then (c.index == 0 && c.refs == 0) || (c.index == 1 && converting > 0) else c.index == SIZE
  }

  /** The delayed-close list holds the KCBs marked for it, and every unreferenced KCB is on
      it, except for those in `loose`, which an operation in progress is dealing with. */
  ghost predicate Delayed(s: State, loose: set<nat>) {
    && NoDuplicates(s.lru) && s.elements == |s.lru|
    && (forall k :: k in s.lru <==> k in s.kcbs && s.kcbs[k].inDelay)
    && (forall k :: k in s.kcbs ==> DelayFits(s.kcbs[k], s.converting[k]))
    && (forall k :: k in s.kcbs && s.kcbs[k].refs == 0 ==> s.kcbs[k].inDelay || k in loose)
  }

  /** The cache table finds exactly the undeleted KCBs, one for each key. */
  ghost predicate Hashed(kcbs: map<nat, Kcb>, table: map<nat, nat>) {
    && (forall t :: t in table ==> table[t] in kcbs && kcbs[table[t]].key == t && !kcbs[table[t]].deleted)
    && (forall k :: k in kcbs && !kcbs[k].deleted ==> kcbs[k].key in table && table[kcbs[k].key] == k)
  }

  /** `extra` are references an operation in progress is about to give back. */
  ghost predicate Inv(s: State, extra: multiset<nat>, loose: set<nat>) {
    Balanced(s.kcbs, Owed(s) + extra) && Rooted(s.kcbs) && Delayed(s, loose) && Hashed(s.kcbs, s.table)
  }

  // ----- Changing one KCB ------------------------------------------------------------------

  /** Children and levels do not depend on the fields an operation updates. */
  lemma SameChildren(kcbs: map<nat, Kcb>, k: nat, c: Kcb, j: nat)
    requires k in kcbs && c.parent == kcbs[k].parent
    ensures Children(kcbs[k := c], j) == Children(kcbs, j)
  {
  }

  lemma SameRoots(kcbs: map<nat, Kcb>, k: nat, c: Kcb)
    requires Rooted(kcbs) && k in kcbs && c.parent == kcbs[k].parent && c.level == kcbs[k].level
    ensures Rooted(kcbs[k := c])
  {
  }

  lemma SameHashes(kcbs: map<nat, Kcb>, table: map<nat, nat>, k: nat, c: Kcb)
    requires Hashed(kcbs, table) && k in kcbs && c.key == kcbs[k].key && c.deleted == kcbs[k].deleted
    ensures Hashed(kcbs[k := c], table)
  {
  }

  /** A changed count that matches the changed debt keeps the balance. */
  lemma Rebalance(kcbs: map<nat, Kcb>, owed: multiset<nat>, k: nat, c: Kcb, owed': multiset<nat>)
    requires Balanced(kcbs, owed) && k in kcbs && c.parent == kcbs[k].parent
    requires forall j :: j != k ==> owed'[j] == owed[j]
    requires c.refs + owed[k] == kcbs[k].refs + owed'[k] && (c.refs <= MAX_REFS || c.refs <= kcbs[k].refs)
    ensures Balanced(kcbs[k := c], owed')
  {
    hide Children;
    forall j | j in kcbs[k := c] ensures kcbs[k := c][j].refs == |Children(kcbs[k := c], j)| + owed'[j] <= MAX_REFS {
      SameChildren(kcbs, k, c, j);
    }
    forall j | j in owed' ensures j in kcbs[k := c] {
      assert j != k ==> j in owed;
    }
  }

  /** What a reference in hand says about the KCB. */
  lemma InHand(s: State, k: nat)
    requires Inv(s, multiset{k}, {})
    ensures k in s.kcbs && s.kcbs[k].refs > 0
    ensures s.kcbs[k].refs == 1 ==> !s.kcbs[k].inDelay && Children(s.kcbs, k) == {} && Owed(s)[k] == 0
  {
    assert k in Owed(s) + multiset{k};
    assert Owed(s)[k] >= s.converting[k];
    hide Rooted, Hashed, NoDuplicates;
  }

  lemma DelayedDrop(s: State, k: nat)
    requires Delayed(s, {}) && k in s.kcbs && s.kcbs[k].refs > 0 && (s.kcbs[k].refs == 1 ==> !s.kcbs[k].inDelay)
    ensures Delayed(WithRefs(s, k, s.kcbs[k].refs - 1), if s.kcbs[k].refs == 1 then {k} else {})
  {
    hide NoDuplicates;
  }

  /** Giving back the reference in hand. */
  lemma DropRef(s: State, k: nat)
    requires Inv(s, multiset{k}, {}) && k in s.kcbs && s.kcbs[k].refs > 0 && (s.kcbs[k].refs == 1 ==> !s.kcbs[k].inDelay)
    ensures Inv(WithRefs(s, k, s.kcbs[k].refs - 1), multiset{}, if s.kcbs[k].refs == 1 then {k} else {})
  {
    hide Balanced, Rooted, Hashed, Delayed, Owed;
    var c := s.kcbs[k].(refs := s.kcbs[k].refs - 1);
    SameRoots(s.kcbs, k, c);
    SameHashes(s.kcbs, s.table, k, c);
    DelayedDrop(s, k);
    Rebalance(s.kcbs, Owed(s) + multiset{k}, k, c, Owed(s) + multiset{});
    SameOwed(s, WithRefs(s, k, s.kcbs[k].refs - 1));
  }

  lemma SameOwed(s: State, t: State)
    requires s.users == t.users && s.converting == t.converting && s.leaked == t.leaked && s.deref == t.deref
    ensures Owed(s) == Owed(t)
  {
  }

  /** An unreferenced KCB goes on the delayed-close list. */
  lemma AddDelayInv(s: State, k: nat)
    requires Inv(s, multiset{}, {k}) && k in s.kcbs && s.kcbs[k].refs == 0 && !s.kcbs[k].inDelay
    ensures Inv(s.(kcbs := s.kcbs[k := s.kcbs[k].(inDelay := true, index := 0)], lru := [k] + s.lru,
                   elements := s.elements + 1), multiset{}, {})
  {
    var c := s.kcbs[k].(inDelay := true, index := 0);
    var t := s.(kcbs := s.kcbs[k := c], lru := [k] + s.lru, elements := s.elements + 1);
    SameRoots(s.kcbs, k, c);
    SameHashes(s.kcbs, s.table, k, c);
    Rebalance(s.kcbs, Owed(s) + multiset{}, k, c, Owed(s) + multiset{});
    SameOwed(s, t);
    AddDelayDelayed(s, k);
    hide Balanced, Rooted, Hashed, Delayed, Owed;
  }

  lemma AddDelayDelayed(s: State, k: nat)
    requires Delayed(s, {k}) && k in s.kcbs && s.kcbs[k].refs == 0 && !s.kcbs[k].inDelay
    ensures Delayed(s.(kcbs := s.kcbs[k := s.kcbs[k].(inDelay := true, index := 0)], lru := [k] + s.lru,
                       elements := s.elements + 1), {})
  {
    assert k !in s.lru;
  }

  /** Freeing an unreferenced KCB leaves its parent with one reference in hand. */
  lemma FreeInv(s: State, k: nat)
    requires Inv(s, multiset{}, {k}) && k in s.kcbs && s.kcbs[k].refs == 0 && !s.kcbs[k].inDelay
    ensures Inv(Without(s, k), match s.kcbs[k].parent case None => multiset{} case Some(p) => multiset{p}, {})
  {
    hide Balanced, Rooted, Hashed, Delayed, Owed;
    var owed := Owed(s) + multiset{};
    assert owed == Owed(s);
    FreeBalanced(s.kcbs, owed, k);
    FreeRooted(s.kcbs, owed, k);
    SameOwed(s, Without(s, k));
    FreeDelayed(s, k);
    FreeHashed(s, k);
  }

  function Dropped(kcbs: map<nat, Kcb>, k: nat): map<nat, Kcb> {
    map j | j in kcbs && j != k :: kcbs[j]
  }

  lemma NoChildren(kcbs: map<nat, Kcb>, owed: multiset<nat>, k: nat)
    requires Balanced(kcbs, owed) && k in kcbs && kcbs[k].refs == 0
    ensures Children(kcbs, k) == {} && k !in owed
  {
  }

  lemma FreeBalanced(kcbs: map<nat, Kcb>, owed: multiset<nat>, k: nat)
    requires Balanced(kcbs, owed) && Rooted(kcbs) && k in kcbs && kcbs[k].refs == 0
    ensures Balanced(Dropped(kcbs, k), owed + match kcbs[k].parent case None => multiset{} case Some(p) => multiset{p})
  {
    NoChildren(kcbs, owed, k);
    hide Children;
    var rest := Dropped(kcbs, k);
    var owed' := owed + match kcbs[k].parent case None => multiset{} case Some(p) => multiset{p};
    forall j | j in rest ensures rest[j].refs == |Children(rest, j)| + owed'[j] <= MAX_REFS {
      DroppedChildren(kcbs, k, j);
    }
    assert kcbs[k].parent != Some(k);
  }

  lemma DroppedChildren(kcbs: map<nat, Kcb>, k: nat, j: nat)
    requires k in kcbs
    ensures |Children(Dropped(kcbs, k), j)| == |Children(kcbs, j)| - if kcbs[k].parent == Some(j) then 1 else 0
  {
    if kcbs[k].parent == Some(j) {
      assert Children(Dropped(kcbs, k), j) == Children(kcbs, j) - {k} && k in Children(kcbs, j);
    } else {
      assert Children(Dropped(kcbs, k), j) == Children(kcbs, j);
    }
  }

  lemma FreeRooted(kcbs: map<nat, Kcb>, owed: multiset<nat>, k: nat)
    requires Balanced(kcbs, owed) && Rooted(kcbs) && k in kcbs && kcbs[k].refs == 0
    ensures Rooted(Dropped(kcbs, k))
  {
    NoChildren(kcbs, owed, k);
    hide Balanced;
    forall c | c in kcbs ensures kcbs[c].parent != Some(k) {
      assert c !in Children(kcbs, k);
    }
  }

  lemma FreeDelayed(s: State, k: nat)
    requires Delayed(s, {k}) && k in s.kcbs && !s.kcbs[k].inDelay
    ensures Delayed(Without(s, k), {})
  {
    hide NoDuplicates;
  }

  lemma FreeHashed(s: State, k: nat)
    requires Hashed(s.kcbs, s.table) && k in s.kcbs
    ensures Hashed(Without(s, k).kcbs, Without(s, k).table)
  {
  }

  /** The reference in hand becomes an entry of the queue, or is lost. */
  lemma QueueInv(s: State, k: nat, t: State)
    requires Inv(s, multiset{k}, {})
    requires t == s.(deref := s.deref + [k]) || t == s.(leaked := s.leaked + multiset{k})
    ensures Inv(t, multiset{}, {})
  {
    hide Balanced, Rooted, Hashed, NoDuplicates;
    assert multiset(s.deref + [k]) == multiset(s.deref) + multiset{k};
    assert Owed(t) + multiset{} == Owed(s) + multiset{k};
  }

  /** Queueing a dereference, or doing it at once while others remain. */
  lemma DelayDerefInv(s: State, k: nat, env: Env)
    requires Inv(s, multiset{k}, {})
    ensures k in s.kcbs && Inv(DelayDeref(s, k, env), multiset{}, {})
  {
    hide Inv;
    InHand(s, k);
    if s.kcbs[k].refs > 1 {
      DropRef(s, k);
    } else {
      QueueInv(s, k, DelayDeref(s, k, env));
    }
  }

  // ----- Dereferencing all the way up ------------------------------------------------------------

  /** Cleaning up keeps the books and ends, whichever way the parent is let go. */
  lemma {:induction false} CleanUpInv(s: State, k: nat, exclusive: bool, env: Env)
    requires Inv(s, multiset{}, {k}) && k in s.kcbs && s.kcbs[k].refs == 0 && !s.kcbs[k].inDelay
    ensures Inv(CleanUp(s, k, exclusive, env), multiset{}, {})
    decreases |s.kcbs|, 0
  {
    hide Inv, DerefLocked, DelayDeref;
    FreeInv(s, k);
    var s1 := Without(s, k);
    assert s1.kcbs.Keys == s.kcbs.Keys - {k};
    match s.kcbs[k].parent {
      case None =>
      case Some(p) =>
        InHand(s1, p);
        if exclusive {
          DerefLockedInv(s1, p, exclusive, env);
        } else {
          DelayDerefInv(s1, p, env);
        }
    }
  }

  lemma {:induction false} DerefLockedInv(s: State, k: nat, exclusive: bool, env: Env)
    requires Inv(s, multiset{k}, {})
    ensures k in s.kcbs && Inv(DerefLocked(s, k, exclusive, env), multiset{}, {})
    decreases |s.kcbs|, 2
  {
    hide Inv;
    InHand(s, k);
    DropRef(s, k);
    var s1 := WithRefs(s, k, s.kcbs[k].refs - 1);
    assert s1.kcbs.Keys == s.kcbs.Keys;
    assert |s1.kcbs| == |s.kcbs|;
    if s1.kcbs[k].refs == 0 {
      CleanUpInv(s1, k, exclusive, env);
      AddDelayInv(s1, k);
    }
  }

  lemma DereferenceInv(s: State, k: nat, env: Env)
    requires Inv(s, multiset{k}, {})
    ensures k in s.kcbs && Inv(Dereference(s, k, env), multiset{}, {})
  {
    hide Inv;
    InHand(s, k);
    DropRef(s, k);
    DerefLockedInv(s, k, false, env);
  }

  // ----- What a dereference frees --------------------------------------------------------------------

  /** Apart from counts and delayed close, surviving KCBs are as they were. */
  ghost predicate Survivors(s: State, t: State) {
    && t.kcbs.Keys <= s.kcbs.Keys
    && (forall j :: j in t.kcbs ==> t.kcbs[j] == s.kcbs[j].(refs := t.kcbs[j].refs, index := t.kcbs[j].index, inDelay := t.kcbs[j].inDelay))
    && t.users == s.users && t.converting == s.converting
  }

  lemma SurvivorsTwice(r: State, s: State, t: State)
    requires Survivors(r, s) && Survivors(s, t)
    ensures Survivors(r, t)
  {
  }

  lemma DelayDerefSurvivors(s: State, k: nat, env: Env)
    requires k in s.kcbs
    ensures Survivors(s, DelayDeref(s, k, env))
  {
  }

  lemma ChangedSurvivors(s: State, k: nat, t: State)
    requires k in s.kcbs && k in t.kcbs && t.kcbs == s.kcbs[k := t.kcbs[k]]
    requires t.kcbs[k] == s.kcbs[k].(refs := t.kcbs[k].refs, index := t.kcbs[k].index, inDelay := t.kcbs[k].inDelay)
    requires t.users == s.users && t.converting == s.converting
    ensures Survivors(s, t)
  {
  }

  lemma WithoutSurvivors(s: State, k: nat)
    requires k in s.kcbs
    ensures Survivors(s, Without(s, k)) && Without(s, k).kcbs.Keys == s.kcbs.Keys - {k}
  {
  }

  lemma {:induction false} CleanUpSurvivors(s: State, k: nat, exclusive: bool, env: Env)
    requires k in s.kcbs
    ensures Survivors(s, CleanUp(s, k, exclusive, env)) && k !in CleanUp(s, k, exclusive, env).kcbs
    decreases |s.kcbs|, 0
  {
    hide DerefLocked, DelayDeref, Without;
    WithoutSurvivors(s, k);
    var s1 := Without(s, k);
    match s.kcbs[k].parent {
      case None =>
      case Some(p) =>
        if p in s1.kcbs {
          DerefLockedSurvivors(s1, p, exclusive, env);
          DelayDerefSurvivors(s1, p, env);
          SurvivorsTwice(s, s1, CleanUp(s, k, exclusive, env));
        }
    }
  }

  lemma {:induction false} DerefLockedSurvivors(s: State, k: nat, exclusive: bool, env: Env)
    requires k in s.kcbs
    ensures Survivors(s, DerefLocked(s, k, exclusive, env))
    decreases |s.kcbs|, 2
  {
    if s.kcbs[k].refs == 1 {
      LastReference(s, k, exclusive, env);
    }
    hide CleanUp, AddToDelayedClose;
  }

  /** Losing the last reference: the KCB is freed at once if lazy flush is held, it is
      marked for that or deleted, or no delay item can be had; otherwise it stays cached at
      the head of the delayed-close list. */
  lemma {:induction false} LastReference(s: State, k: nat, exclusive: bool, env: Env)
    requires k in s.kcbs && s.kcbs[k].refs == 1
    ensures var t := DerefLocked(s, k, exclusive, env);
            && Survivors(s, t)
            && (k in t.kcbs <==> !env.hold(k) && !s.kcbs[k].noDelay && !s.kcbs[k].deleted && env.alloc(k))
            && (k in t.kcbs ==> t.lru == [k] + s.lru && t.kcbs[k].inDelay)
    decreases |s.kcbs|, 1
  {
    hide CleanUp, Survivors;
    var s1 := WithRefs(s, k, 0);
    assert s1.kcbs.Keys == s.kcbs.Keys;
    assert |s1.kcbs| == |s.kcbs|;
    ChangedSurvivors(s, k, s1);
    CleanUpSurvivors(s1, k, exclusive, env);
    SurvivorsTwice(s, s1, CleanUp(s1, k, exclusive, env));
    ChangedSurvivors(s, k, s1.(kcbs := s1.kcbs[k := s1.kcbs[k].(inDelay := true, index := 0)], lru := [k] + s.lru,
                               elements := s.elements + 1));
  }
}
