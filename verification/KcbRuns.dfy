/** Runs of the registry's KCB cache: creating, referencing, dereferencing, delayed close
    and delayed dereference in any order. */
module KcbRuns {
  import opened Lists
  import opened KcbCache

  datatype Step =
    | Create(id: nat, key: nat, parent: Option<nat>, nameOk: bool, noDelay: bool, env: Env)
    | Reopen(k: nat)
    | RefBegin(k: nat)
    | RefEnd(k: nat)
    | Close(k: nat, env: Env)
    | CloseLocked(k: nat, exclusive: bool, env: Env)
    | DerefWorker(env: Env)
    | CloseWorker(env: Env)
    | MarkDeleted(k: nat)
    | MarkNoDelay(k: nat)

  predicate Enabled(s: State, step: Step) {
    match step
    case Create(id, _, parent, nameOk, _, _) =>
      id !in s.kcbs && (parent.Some? ==> parent.value in s.kcbs) && (parent.None? ==> nameOk)
    case Reopen(k) => k in s.kcbs
    case RefBegin(k) => k in s.kcbs && s.kcbs[k].inDelay && s.kcbs[k].refs < MAX_REFS
    case RefEnd(k) => k in s.converting && k in s.kcbs
    case Close(k, _) => k in s.users && k in s.kcbs
    case CloseLocked(k, _, _) => k in s.users && k in s.kcbs
    case DerefWorker(_) => s.deref != [] && s.deref[0] in s.kcbs
    case CloseWorker(_) => s.elements > SIZE && s.lru != [] && s.lru[|s.lru| - 1] in s.kcbs
    case MarkDeleted(k) => k in s.users && k in s.kcbs && !s.kcbs[k].deleted
    case MarkNoDelay(k) => k in s.kcbs
  }

  /** CmpReferenceKeyControlBlock as a caller sees it: one more user, or no change. */
  function Opened(s: State, k: nat): State
    requires k in s.kcbs
  {
    match Reference(s, k)
    case None => s
    case Some(s1) => s1.(users := s1.users + multiset{k})
  }

  function NewKcb(s: State, id: nat, key: nat, parent: Option<nat>, level: nat, noDelay: bool): State {
    s.(kcbs := s.kcbs[id := Kcb(key, parent, level, 1, SIZE, false, noDelay, false)],
       table := s.table[key := id], users := s.users + multiset{id})
  }

  /** CmpCreateKeyControlBlock.  A KCB for the key is reused; otherwise a new one is linked
      to its parent, and backs out when the parent cannot be referenced, lies too deep, or
      the name block cannot be allocated. */
  function Created(s: State, id: nat, key: nat, parent: Option<nat>, nameOk: bool, noDelay: bool, env: Env): State
    requires parent.Some? ==> parent.value in s.kcbs
  {
    if key in s.table && s.table[key] in s.kcbs then Opened(s, s.table[key])
    else
      match parent
      case None => NewKcb(s, id, key, None, 1, noDelay)
      case Some(p) =>
        if s.kcbs[p].level + 1 >= MAX_LEVELS || Reference(s, p).None? then s
        else
          var s1 := Reference(s, p).value;
          if p !in s1.kcbs then s1
          else if nameOk then NewKcb(s1, id, key, parent, s.kcbs[p].level + 1, noDelay)
          else DerefLocked(s1, p, false, env)
  }

  /** The exclusive half of a shared-to-exclusive reference: the count goes down and up
      again, and the KCB comes off the delayed-close list unless another got there first. */
  function Converted(s: State, k: nat): State
    requires k in s.kcbs
  {
    var s1 := s.(converting := s.converting - multiset{k}, users := s.users + multiset{k});
    if s.kcbs[k].index == 1 || s.kcbs[k].index == 0 then RemoveFromDelayedClose(s1, k) else s1
  }

  /** One turn of CmpDelayCloseWorker: the oldest entry is closed if it is still unused, and
      otherwise goes to the front. */
  function ClosedOldest(s: State, env: Env): State
    requires s.lru != [] && s.lru[|s.lru| - 1] in s.kcbs
  {
    var k, rest := s.lru[|s.lru| - 1], s.lru[..|s.lru| - 1];
    if s.kcbs[k].refs > 0 || s.kcbs[k].index != 0 then s.(lru := [k] + rest)
    else
      CleanUp(s.(lru := rest, elements := s.elements - 1, kcbs := s.kcbs[k := s.kcbs[k].(inDelay := false, index := SIZE)]),
              k, false, env)
  }

  function Next(s: State, step: Step): State
    requires Enabled(s, step)
  {
    match step
    case Create(id, key, parent, nameOk, noDelay, env) => Created(s, id, key, parent, nameOk, noDelay, env)
    case Reopen(k) => Opened(s, k)
    case RefBegin(k) =>
      s.(kcbs := s.kcbs[k := s.kcbs[k].(refs := s.kcbs[k].refs + 1, index := 1)], converting := s.converting + multiset{k})
    case RefEnd(k) => Converted(s, k)
    case Close(k, env) => Dereference(s.(users := s.users - multiset{k}), k, env)
    case CloseLocked(k, exclusive, env) => DerefLocked(s.(users := s.users - multiset{k}), k, exclusive, env)
    case DerefWorker(env) => Dereference(s.(deref := s.deref[1..]), s.deref[0], env)
    case CloseWorker(env) => ClosedOldest(s, env)
    case MarkDeleted(k) =>
      s.(kcbs := s.kcbs[k := s.kcbs[k].(deleted := true)], table := map t | t in s.table && t != s.kcbs[k].key :: s.table[t])
    case MarkNoDelay(k) => s.(kcbs := s.kcbs[k := s.kcbs[k].(noDelay := true)])
  }

  ghost predicate Good(s: State) {
    Inv(s, multiset{}, {})
  }

  // ----- Referencing ----------------------------------------------------------------------

  /** Taking a KCB off the delayed-close list while its count goes up. */
  lemma UndelayDelayed(s: State, k: nat, t: State)
    requires Delayed(s, {}) && k in s.kcbs && s.kcbs[k].inDelay && k in t.kcbs && t.kcbs[k].refs > 0
    requires t.kcbs == s.kcbs[k := s.kcbs[k].(refs := t.kcbs[k].refs, inDelay := false, index := SIZE)]
    requires t.lru == Remove(s.lru, k) && t.elements == s.elements - 1
    requires forall j :: j != k ==> t.converting[j] == s.converting[j]
    ensures Delayed(t, {})
  {
    RemoveMembers(s.lru, k);
    hide NoDuplicates;
  }

  /** One KCB and the debts on it change together. */
  lemma UpdateGood(s: State, t: State, k: nat)
    requires Good(s) && k in s.kcbs && k in t.kcbs && t.kcbs == s.kcbs[k := t.kcbs[k]] && t.table == s.table
    requires t.kcbs[k].parent == s.kcbs[k].parent && t.kcbs[k].level == s.kcbs[k].level
    requires t.kcbs[k].key == s.kcbs[k].key && t.kcbs[k].deleted == s.kcbs[k].deleted
    requires forall j :: j != k ==> Owed(t)[j] == Owed(s)[j]
    requires t.kcbs[k].refs + Owed(s)[k] == s.kcbs[k].refs + Owed(t)[k] && t.kcbs[k].refs <= MAX_REFS
    requires Delayed(t, {})
    ensures Good(t)
  {
    hide Balanced, Rooted, Hashed, Delayed, Owed;
    assert Owed(s) + multiset{} == Owed(s) && Owed(t) + multiset{} == Owed(t);
    Rebalance(s.kcbs, Owed(s), k, t.kcbs[k], Owed(t));
    SameRoots(s.kcbs, k, t.kcbs[k]);
    SameHashes(s.kcbs, s.table, k, t.kcbs[k]);
  }

  lemma OpenedDelayed(s: State, k: nat)
    requires Delayed(s, {}) && k in s.kcbs && Reference(s, k).Some?
    ensures Delayed(Opened(s, k), {})
  {
    if s.kcbs[k].index == 0 {
      UndelayDelayed(s, k, Opened(s, k));
    }
    hide NoDuplicates;
  }

  lemma OpenedGood(s: State, k: nat)
    requires Good(s) && k in s.kcbs
    ensures Good(Opened(s, k)) && Opened(s, k).kcbs.Keys == s.kcbs.Keys && Opened(s, k).table == s.table
    ensures forall j :: j in s.kcbs ==> Opened(s, k).kcbs[j].level == s.kcbs[j].level
  {
    hide Balanced, Rooted, Hashed, Delayed, Owed;
    if Reference(s, k).Some? {
      OpenedDelayed(s, k);
      OpenedOwed(s, k);
      UpdateGood(s, Opened(s, k), k);
    }
  }

  lemma OpenedOwed(s: State, k: nat)
    requires k in s.kcbs && Reference(s, k).Some?
    ensures Owed(Opened(s, k)) == Owed(s) + multiset{k}
  {
  }

  // ----- The steps keep the books -------------------------------------------------------------

  lemma RefBeginGood(s: State, k: nat)
    requires Good(s) && Enabled(s, RefBegin(k))
    ensures Good(Next(s, RefBegin(k)))
  {
    hide Balanced, Rooted, Hashed, Delayed, Owed;
    RefBeginParts(s, k);
    UpdateGood(s, Next(s, RefBegin(k)), k);
  }

  lemma RefBeginParts(s: State, k: nat)
    requires Delayed(s, {}) && Enabled(s, RefBegin(k))
    ensures Owed(Next(s, RefBegin(k))) == Owed(s) + multiset{k} && Delayed(Next(s, RefBegin(k)), {})
  {
    hide NoDuplicates;
  }

  lemma RefEndGood(s: State, k: nat)
    requires Good(s) && Enabled(s, RefEnd(k))
    ensures Good(Next(s, RefEnd(k)))
  {
    hide Balanced, Rooted, Hashed, Delayed, Owed;
    ConvertingCounts(s, k);
    ConvertedOwed(s, k);
    ConvertedDelayed(s, k);
    UpdateGood(s, Converted(s, k), k);
  }

  lemma ConvertingCounts(s: State, k: nat)
    requires Good(s) && k in s.converting && k in s.kcbs
    ensures 0 < s.kcbs[k].refs <= MAX_REFS
  {
    hide Rooted, Hashed, Delayed;
    assert Owed(s)[k] >= s.converting[k];
  }

  lemma ConvertedOwed(s: State, k: nat)
    requires k in s.converting && k in s.kcbs
    ensures Owed(Converted(s, k)) == Owed(s)
  {
  }

  lemma ConvertedDelayed(s: State, k: nat)
    requires Delayed(s, {}) && k in s.kcbs && s.kcbs[k].refs > 0 && k in s.converting
    ensures Delayed(Converted(s, k), {})
  {
    if s.kcbs[k].inDelay {
      UndelayDelayed(s, k, Converted(s, k));
    }
    hide NoDuplicates;
  }

  /** A reference that is owed may be taken in hand. */
  lemma TakeInHand(s: State, t: State, k: nat)
    requires Good(s) && k in s.kcbs && t.kcbs == s.kcbs && t.table == s.table && t.lru == s.lru && t.elements == s.elements
    requires t.converting == s.converting && Owed(t) + multiset{k} == Owed(s)
    ensures Inv(t, multiset{k}, {})
  {
    hide Balanced, Rooted, Hashed, NoDuplicates, Owed;
    assert Owed(s) + multiset{} == Owed(s);
  }

  lemma CloseGood(s: State, k: nat, exclusive: bool, env: Env)
    requires Good(s) && k in s.users && k in s.kcbs
    ensures Good(Dereference(s.(users := s.users - multiset{k}), k, env))
    ensures Good(DerefLocked(s.(users := s.users - multiset{k}), k, exclusive, env))
  {
    hide Inv, Owed, Dereference, DerefLocked;
    var t := s.(users := s.users - multiset{k});
    UserOwed(s, k);
    TakeInHand(s, t, k);
    DereferenceInv(t, k, env);
    DerefLockedInv(t, k, exclusive, env);
  }

  lemma UserOwed(s: State, k: nat)
    requires k in s.users
    ensures Owed(s.(users := s.users - multiset{k})) + multiset{k} == Owed(s)
  {
  }

  lemma QueueOwed(s: State)
    requires s.deref != []
    ensures Owed(s.(deref := s.deref[1..])) + multiset{s.deref[0]} == Owed(s)
  {
    assert s.deref == [s.deref[0]] + s.deref[1..];
  }

  lemma DerefWorkerGood(s: State, env: Env)
    requires Good(s) && Enabled(s, DerefWorker(env))
    ensures Good(Next(s, DerefWorker(env)))
  {
    hide Inv, Owed, Dereference;
    QueueOwed(s);
    TakeInHand(s, s.(deref := s.deref[1..]), s.deref[0]);
    DereferenceInv(s.(deref := s.deref[1..]), s.deref[0], env);
  }

  lemma RotateDelayed(s: State)
    requires Delayed(s, {}) && s.lru != []
    ensures Delayed(s.(lru := [s.lru[|s.lru| - 1]] + s.lru[..|s.lru| - 1]), {})
  {
    var k, rest := s.lru[|s.lru| - 1], s.lru[..|s.lru| - 1];
    assert s.lru == rest + [k];
  }

  lemma RotateGood(s: State)
    requires Good(s) && s.lru != []
    ensures Good(s.(lru := [s.lru[|s.lru| - 1]] + s.lru[..|s.lru| - 1]))
  {
    hide Balanced, Rooted, Hashed, Owed, Delayed;
    SameOwed(s, s.(lru := [s.lru[|s.lru| - 1]] + s.lru[..|s.lru| - 1]));
    RotateDelayed(s);
  }

  /** The delayed-close list without its oldest entry, which is being dealt with. */
  function Unlisted(s: State): State
    requires s.lru != [] && s.lru[|s.lru| - 1] in s.kcbs
  {
    var k := s.lru[|s.lru| - 1];
    s.(lru := s.lru[..|s.lru| - 1], elements := s.elements - 1,
       kcbs := s.kcbs[k := s.kcbs[k].(inDelay := false, index := SIZE)])
  }

  lemma CloseWorkerGood(s: State, env: Env)
    requires Good(s) && Enabled(s, CloseWorker(env))
    ensures Good(Next(s, CloseWorker(env)))
  {
    hide Inv, CleanUp;
    var k := s.lru[|s.lru| - 1];
    RotateGood(s);
    if s.kcbs[k].refs == 0 && s.kcbs[k].index == 0 {
      UnlistedInv(s);
      CleanUpInv(Unlisted(s), k, false, env);
    }
  }

  lemma UnlistedDelayed(s: State)
    requires Delayed(s, {}) && s.lru != [] && s.lru[|s.lru| - 1] in s.kcbs
    ensures Delayed(Unlisted(s), {s.lru[|s.lru| - 1]})
  {
    var k, rest := s.lru[|s.lru| - 1], s.lru[..|s.lru| - 1];
    assert s.lru == rest + [k];
    assert k !in rest;
  }

  lemma UnlistedInv(s: State)
    requires Good(s) && s.lru != [] && s.lru[|s.lru| - 1] in s.kcbs
    ensures Inv(Unlisted(s), multiset{}, {s.lru[|s.lru| - 1]})
  {
    hide Balanced, Rooted, Hashed, Delayed, Owed;
    var k := s.lru[|s.lru| - 1];
    var c := s.kcbs[k].(inDelay := false, index := SIZE);
    SameOwed(s, Unlisted(s));
    UnlistedDelayed(s);
    Rebalance(s.kcbs, Owed(s) + multiset{}, k, c, Owed(s) + multiset{});
    SameRoots(s.kcbs, k, c);
    SameHashes(s.kcbs, s.table, k, c);
  }

  lemma MarkDelayed(s: State, k: nat, c: Kcb, table: map<nat, nat>)
    requires Delayed(s, {}) && k in s.kcbs && c.inDelay == s.kcbs[k].inDelay && c.index == s.kcbs[k].index && c.refs == s.kcbs[k].refs
    ensures Delayed(s.(kcbs := s.kcbs[k := c], table := table), {})
  {
    hide NoDuplicates;
  }

  lemma MarkDeletedGood(s: State, k: nat)
    requires Good(s) && Enabled(s, MarkDeleted(k))
    ensures Good(Next(s, MarkDeleted(k)))
  {
    hide Balanced, Rooted, Hashed, Delayed, Owed;
    var t, c := Next(s, MarkDeleted(k)), s.kcbs[k].(deleted := true);
    SameOwed(s, t);
    MarkDelayed(s, k, c, t.table);
    Unhash(s.kcbs, s.table, k);
    Rebalance(s.kcbs, Owed(s) + multiset{}, k, c, Owed(s) + multiset{});
    SameRoots(s.kcbs, k, c);
  }

  lemma Unhash(kcbs: map<nat, Kcb>, table: map<nat, nat>, k: nat)
    requires Hashed(kcbs, table) && k in kcbs && !kcbs[k].deleted
    ensures Hashed(kcbs[k := kcbs[k].(deleted := true)], map t | t in table && t != kcbs[k].key :: table[t])
  {
  }

  lemma MarkNoDelayGood(s: State, k: nat)
    requires Good(s) && Enabled(s, MarkNoDelay(k))
    ensures Good(Next(s, MarkNoDelay(k)))
  {
    hide Balanced, Rooted, Hashed, Delayed, Owed;
    var t, c := Next(s, MarkNoDelay(k)), s.kcbs[k].(noDelay := true);
    SameOwed(s, t);
    MarkDelayed(s, k, c, s.table);
    Rebalance(s.kcbs, Owed(s) + multiset{}, k, c, Owed(s) + multiset{});
    SameRoots(s.kcbs, k, c);
    SameHashes(s.kcbs, s.table, k, c);
  }

  // ----- Creating ---------------------------------------------------------------------------------

  lemma NewKcbRooted(kcbs: map<nat, Kcb>, id: nat, c: Kcb)
    requires Rooted(kcbs) && id !in kcbs
    requires c.parent.Some? ==> c.parent.value in kcbs && c.level == kcbs[c.parent.value].level + 1
    ensures Rooted(kcbs[id := c])
  {
  }

  lemma NewKcbHashed(kcbs: map<nat, Kcb>, table: map<nat, nat>, id: nat, c: Kcb)
    requires Hashed(kcbs, table) && id !in kcbs && c.key !in table && !c.deleted
    ensures Hashed(kcbs[id := c], table[c.key := id])
  {
  }

  lemma NewKcbChildren(kcbs: map<nat, Kcb>, id: nat, c: Kcb, j: nat)
    requires id !in kcbs
    ensures |Children(kcbs[id := c], j)| == |Children(kcbs, j)| + if c.parent == Some(j) then 1 else 0
  {
    if c.parent == Some(j) {
      assert Children(kcbs[id := c], j) == Children(kcbs, j) + {id};
    } else {
      assert Children(kcbs[id := c], j) == Children(kcbs, j);
    }
  }

  /** The reference taken on the parent becomes the child's hold on it. */
  lemma NewKcbBalanced(kcbs: map<nat, Kcb>, owed: multiset<nat>, id: nat, c: Kcb, owed': multiset<nat>)
    requires Balanced(kcbs, owed) && Rooted(kcbs) && id !in kcbs && c.refs == 1
    requires c.parent.Some? ==> c.parent.value in owed
    requires owed' == (match c.parent case None => owed case Some(p) => owed - multiset{p}) + multiset{id}
    ensures Balanced(kcbs[id := c], owed')
  {
    hide Children;
    var kcbs' := kcbs[id := c];
    assert id !in owed;
    assert |Children(kcbs, id)| == 0 by { NobodysChild(kcbs, id); }
    forall j | j in kcbs' ensures kcbs'[j].refs == |Children(kcbs', j)| + owed'[j] <= MAX_REFS {
      NewKcbChildren(kcbs, id, c, j);
    }
  }

  lemma NobodysChild(kcbs: map<nat, Kcb>, id: nat)
    requires Rooted(kcbs) && id !in kcbs
    ensures Children(kcbs, id) == {}
  {
  }

  lemma NewKcbDelayed(s: State, id: nat, key: nat, parent: Option<nat>, level: nat, noDelay: bool)
    requires Delayed(s, {}) && id !in s.kcbs
    ensures Delayed(NewKcb(s, id, key, parent, level, noDelay), {})
  {
    hide NoDuplicates;
  }

  lemma NewRootGood(s: State, id: nat, key: nat, noDelay: bool)
    requires Good(s) && id !in s.kcbs && key !in s.table
    ensures Good(NewKcb(s, id, key, None, 1, noDelay))
  {
    hide Balanced, Rooted, Hashed, Delayed, Owed;
    var c := Kcb(key, None, 1, 1, SIZE, false, noDelay, false);
    NewKcbDelayed(s, id, key, None, 1, noDelay);
    NewKcbRooted(s.kcbs, id, c);
    NewKcbHashed(s.kcbs, s.table, id, c);
    NewUserOwed(s, id, key, None, 1, noDelay);
    NewKcbBalanced(s.kcbs, Owed(s) + multiset{}, id, c, Owed(NewKcb(s, id, key, None, 1, noDelay)) + multiset{});
  }

  lemma NewUserOwed(s: State, id: nat, key: nat, parent: Option<nat>, level: nat, noDelay: bool)
    ensures Owed(NewKcb(s, id, key, parent, level, noDelay)) == Owed(s) + multiset{id}
  {
  }

  lemma NewChildGood(s: State, id: nat, key: nat, p: nat, noDelay: bool)
    requires Inv(s, multiset{p}, {}) && p in s.kcbs && id !in s.kcbs && key !in s.table
    ensures Good(NewKcb(s, id, key, Some(p), s.kcbs[p].level + 1, noDelay))
  {
    hide Balanced, Rooted, Hashed, Delayed, Owed;
    var level := s.kcbs[p].level + 1;
    var c := Kcb(key, Some(p), level, 1, SIZE, false, noDelay, false);
    NewKcbDelayed(s, id, key, Some(p), level, noDelay);
    NewKcbRooted(s.kcbs, id, c);
    NewKcbHashed(s.kcbs, s.table, id, c);
    NewUserOwed(s, id, key, Some(p), level, noDelay);
    NewKcbBalanced(s.kcbs, Owed(s) + multiset{p}, id, c, Owed(NewKcb(s, id, key, Some(p), level, noDelay)) + multiset{});
  }

  /** A successful reference leaves one reference in hand. */
  lemma ReferencedInHand(s: State, k: nat)
    requires Good(s) && k in s.kcbs && Reference(s, k).Some?
    ensures var s1 := Reference(s, k).value;
            && Inv(s1, multiset{k}, {}) && s1.kcbs.Keys == s.kcbs.Keys && s1.table == s.table
            && s1.kcbs[k].level == s.kcbs[k].level
  {
    hide Inv, Owed;
    OpenedGood(s, k);
    var s1, t := Reference(s, k).value, Opened(s, k);
    assert s1 == t.(users := t.users - multiset{k});
    UserOwed(t, k);
    TakeInHand(t, s1, k);
  }

  lemma CreateGood(s: State, id: nat, key: nat, parent: Option<nat>, nameOk: bool, noDelay: bool, env: Env)
    requires Good(s) && id !in s.kcbs && (parent.Some? ==> parent.value in s.kcbs)
    ensures Good(Created(s, id, key, parent, nameOk, noDelay, env))
  {
    hide Inv, Reference, DerefLocked, NewKcb, Opened;
    TableAlive(s, key);
    if key in s.table {
      OpenedGood(s, s.table[key]);
    } else {
      match parent {
        case None => NewRootGood(s, id, key, noDelay);
        case Some(p) =>
          if s.kcbs[p].level + 1 < MAX_LEVELS && Reference(s, p).Some? {
            ReferencedInHand(s, p);
            NewChildGood(Reference(s, p).value, id, key, p, noDelay);
            DerefLockedInv(Reference(s, p).value, p, false, env);
          }
      }
    }
  }

  lemma TableAlive(s: State, key: nat)
    requires Good(s)
    ensures key in s.table ==> s.table[key] in s.kcbs
  {
  }

  // ----- Runs ---------------------------------------------------------------------------------------

  /** Every step keeps the books. */
  lemma GoodStep(s: State, step: Step)
    requires Good(s) && Enabled(s, step)
    ensures Good(Next(s, step))
  {
    hide Inv, Created, Opened, Converted, Dereference, DerefLocked, ClosedOldest;
    match step {
      case Create(id, key, parent, nameOk, noDelay, env) => CreateGood(s, id, key, parent, nameOk, noDelay, env);
      case Reopen(k) => OpenedGood(s, k);
      case RefBegin(k) => RefBeginGood(s, k);
      case RefEnd(k) => RefEndGood(s, k);
      case Close(k, env) => CloseGood(s, k, false, env);
      case CloseLocked(k, exclusive, env) => CloseGood(s, k, exclusive, env);
      case DerefWorker(env) => DerefWorkerGood(s, env);
      case CloseWorker(env) => CloseWorkerGood(s, env);
      case MarkDeleted(k) => MarkDeletedGood(s, k);
      case MarkNoDelay(k) => MarkNoDelayGood(s, k);
    }
  }

  ghost predicate Runs(s: State, steps: seq<Step>)
    decreases steps
  {
    steps == [] || (Enabled(s, steps[0]) && Runs(Next(s, steps[0]), steps[1..]))
  }

  ghost function After(s: State, steps: seq<Step>): State
    requires Runs(s, steps)
    decreases steps
  {
    if steps == [] then s else After(Next(s, steps[0]), steps[1..])
  }

  /** A lookup can find the KCB. */
  predicate Found(s: State, k: nat) {
    k in s.kcbs && !s.kcbs[k].deleted
  }

  const Empty := State(map[], map[], [], 0, [], multiset{}, multiset{}, multiset{})

  lemma {:induction false} GoodRun(s: State, steps: seq<Step>)
    requires Good(s) && Runs(s, steps)
    ensures Good(After(s, steps))
    decreases steps
  {
    hide Good, Next, Enabled;
    if steps != [] {
      GoodStep(s, steps[0]);
      GoodRun(Next(s, steps[0]), steps[1..]);
    }
  }

  /** In every reachable state a KCB's count covers its children, its users and the
      dereferences queued for it; parents, users' KCBs and queued KCBs are alive; a KCB
      without any of these is on the delayed-close list; and no key has two KCBs. */
  lemma CountsCover(steps: seq<Step>)
    requires Runs(Empty, steps)
    ensures var s := After(Empty, steps);
            && (forall k :: k in s.kcbs ==>
                  s.kcbs[k].refs == |Children(s.kcbs, k)| + s.users[k] + s.converting[k] + s.leaked[k] + multiset(s.deref)[k])
            && (forall c :: c in s.kcbs && s.kcbs[c].parent.Some? ==> s.kcbs[c].parent.value in s.kcbs)
            && (forall k :: k in s.users || k in s.deref || k in s.converting ==> k in s.kcbs)
            && (forall k :: k in s.kcbs && s.kcbs[k].refs == 0 ==> k in s.lru)
            && (forall j, k :: Found(s, j) && Found(s, k) && s.kcbs[j].key == s.kcbs[k].key ==> j == k)
  {
    assert Good(Empty);
    GoodRun(Empty, steps);
    hide Runs, After, NoDuplicates;
    var s := After(Empty, steps);
    assert forall k :: k in s.users || k in s.deref || k in s.converting ==> k in Owed(s) + multiset{};
  }
}
