/** Registry callbacks: walkers that drop the list lock while a callback runs, against
    threads that unregister, wait for the rundown, unlink and free.

    A callback is named by its registration, so a freed block that the pool hands out
    again counts as a new callback. */
module RegistryCallbacks {
  import opened Lists

  /** A REGISTRY_CALLBACK block.  `rundown` says that ExWaitForRundownProtectionRelease has
      begun; `count` is the number of rundown references. */
  datatype Callback = Callback(pending: bool, rundown: bool, count: nat)

  /** A walker is running the function of `at`; `called` lists what it has called. */
  datatype Walker = Walker(at: nat, called: seq<nat>)

  datatype Phase = Marked | Waiting | Released | Unlinked

  /** A thread inside CmUnRegisterCallback that found its callback. */
  datatype Unregister = Unregister(c: nat, phase: Phase)

  datatype State = State(list: seq<nat>, cbs: map<nat, Callback>, walkers: map<nat, Walker>,
                         unregs: map<nat, Unregister>, used: set<nat>)

  datatype Step =
    | Register(c: nat)
    | WalkBegin(w: nat)
    | WalkOn(w: nat, success: bool)
    | Mark(u: nat, c: nat)
    | StartRundown(u: nat)
    | EndRundown(u: nat)
    | Unlink(u: nat)
    | Free(u: nat)

  // ----- The steps --------------------------------------------------------------------------

  predicate Callable(s: State, c: nat) {
    c in s.cbs && !s.cbs[c].pending && !s.cbs[c].rundown
  }

  /** The walk's loop: the first callable entry from position `i` on; the length if none. */
  function Scan(s: State, i: nat): (r: nat)
    requires i <= |s.list|
    ensures i <= r <= |s.list|
    ensures r < |s.list| ==> Callable(s, s.list[r])
    ensures forall k :: i <= k < r ==> !Callable(s, s.list[k])
    decreases |s.list| - i
  {
    if i == |s.list| || Callable(s, s.list[i]) then i else Scan(s, i + 1)
  }

  function SetCount(s: State, c: nat, count: nat): State
    requires c in s.cbs
  {
    s.(cbs := s.cbs[c := s.cbs[c].(count := count)])
  }

  /** From position `i` on: take rundown protection on the next callable entry and run it,
      or end the walk. */
  function Advance(s: State, w: nat, i: nat, called: seq<nat>): State
    requires i <= |s.list|
  {
    var r := Scan(s, i);
    if r == |s.list| then s.(walkers := map v | v in s.walkers && v != w :: s.walkers[v])
    else
      var c := s.list[r];
      SetCount(s, c, s.cbs[c].count + 1).(walkers := s.walkers[w := Walker(c, called + [c])])
  }

  function Dropped(walkers: map<nat, Walker>, w: nat): map<nat, Walker> {
    map v | v in walkers && v != w :: walkers[v]
  }

  /** Walker `w` is back from a call and drops the protection. */
  function Left(s: State, w: nat): (t: State)
    requires w in s.walkers && s.walkers[w].at in s.cbs && s.cbs[s.walkers[w].at].count > 0
    ensures t.list == s.list
  {
    SetCount(s, s.walkers[w].at, s.cbs[s.walkers[w].at].count - 1).(walkers := Dropped(s.walkers, w))
  }

  predicate Enabled(s: State, step: Step) {
    match step
    case Register(c) => c !in s.used
    case WalkBegin(w) => w !in s.walkers
    case WalkOn(w, _) => w in s.walkers && s.walkers[w].at in s.cbs && s.cbs[s.walkers[w].at].count > 0
                         && s.walkers[w].at in s.list
    case Mark(u, c) => u !in s.unregs && c in s.list && c in s.cbs && !s.cbs[c].pending
    case StartRundown(u) => u in s.unregs && s.unregs[u].phase == Marked && s.unregs[u].c in s.cbs
    case EndRundown(u) => u in s.unregs && s.unregs[u].phase == Waiting && s.unregs[u].c in s.cbs
                          && s.cbs[s.unregs[u].c].count == 0
    case Unlink(u) => u in s.unregs && s.unregs[u].phase == Released && s.unregs[u].c in s.list
    case Free(u) => u in s.unregs && s.unregs[u].phase == Unlinked
  }

  function Next(s: State, step: Step): State
    requires Enabled(s, step)
  {
    match step
    case Register(c) =>
      s.(list := s.list + [c], cbs := s.cbs[c := Callback(false, false, 0)], used := s.used + {c})
    case WalkBegin(w) => Advance(s, w, 0, [])
    case WalkOn(w, success) =>
      var wk := s.walkers[w];
      if success then Advance(Left(s, w), w, Place(s.list, wk.at) + 1, wk.called) else Left(s, w)
    case Mark(u, c) =>
      s.(cbs := s.cbs[c := s.cbs[c].(pending := true)], unregs := s.unregs[u := Unregister(c, Marked)])
    case StartRundown(u) =>
      var c := s.unregs[u].c;
      s.(cbs := s.cbs[c := s.cbs[c].(rundown := true)], unregs := s.unregs[u := Unregister(c, Waiting)])
    case EndRundown(u) => s.(unregs := s.unregs[u := Unregister(s.unregs[u].c, Released)])
    case Unlink(u) =>
      var k := Place(s.list, s.unregs[u].c);
      s.(list := Cut(s.list, k), unregs := s.unregs[u := Unregister(s.unregs[u].c, Unlinked)])
    case Free(u) =>
      s.(cbs := map d | d in s.cbs && d != s.unregs[u].c :: s.cbs[d],
         unregs := map v | v in s.unregs && v != u :: s.unregs[v])
  }

  // ----- What every step keeps --------------------------------------------------------------------

  function RunningAt(walkers: map<nat, Walker>, c: nat): set<nat> {
    set w | w in walkers && walkers[w].at == c
  }

  /** The list is made of live blocks; rundown counts count the walkers running there. */
  ghost predicate Blocks(s: State) {
    && NoDuplicates(s.list)
    && (forall c :: c in s.list ==> c in s.cbs)
    && (forall c :: c in s.cbs ==> c in s.used && s.cbs[c].count == |RunningAt(s.walkers, c)|)
    && (forall w :: w in s.walkers ==> s.walkers[w].at in s.cbs)
  }

  predicate PhaseFits(s: State, r: Unregister) {
    && r.c in s.cbs && s.cbs[r.c].pending
    && (r.phase == Marked <==> !s.cbs[r.c].rundown)
    && (r.phase == Released || r.phase == Unlinked ==> s.cbs[r.c].count == 0)
    && (r.phase == Unlinked <==> r.c !in s.list)
  }

  /** Every pending callback belongs to exactly one unregistering thread. */
  ghost predicate Owned(s: State) {
    && (forall u :: u in s.unregs ==> PhaseFits(s, s.unregs[u]))
    && (forall u, v :: u in s.unregs && v in s.unregs && u != v ==> s.unregs[u].c != s.unregs[v].c)
    && (forall c :: c in s.cbs && !s.cbs[c].pending ==> c in s.list && !s.cbs[c].rundown)
  }

  /** A walker has called, in list order and once each, everything callable behind it, and
      nothing in front of it. */
  ghost predicate WalkFits(s: State, wk: Walker) {
    && wk.at in s.list && NoDuplicates(wk.called) && wk.at in wk.called
    && (forall c :: c in wk.called ==> c in s.used)
    && (forall i :: 0 <= i < Place(s.list, wk.at) ==>
          s.list[i] in wk.called || (s.list[i] in s.cbs && s.cbs[s.list[i]].pending))
    && (forall i :: Place(s.list, wk.at) < i < |s.list| ==> s.list[i] !in wk.called)
  }

  ghost predicate Walks(s: State) {
    forall w :: w in s.walkers ==> WalkFits(s, s.walkers[w])
  }

  ghost predicate Inv(s: State) {
    Blocks(s) && Owned(s) && Walks(s)
  }

  // ----- Walking ------------------------------------------------------------------------------------

  lemma PosUnique(list: seq<nat>, k: nat)
    requires NoDuplicates(list) && k < |list|
    ensures Place(list, list[k]) == k
  {
    var p := Place(list, list[k]);
  }

  /** Counts and the set of walkers do not matter to where the others stand. */
  lemma WalksKept(s: State, t: State)
    requires Walks(s) && t.list == s.list && s.used <= t.used && s.cbs.Keys <= t.cbs.Keys
    requires forall w :: w in t.walkers ==> w in s.walkers && t.walkers[w] == s.walkers[w]
    requires forall c :: c in s.cbs && s.cbs[c].pending ==> t.cbs[c].pending
    ensures Walks(t)
  {
    hide NoDuplicates;
  }

  lemma OwnedCount(s: State, c: nat, count: nat, walkers: map<nat, Walker>)
    requires Owned(s) && c in s.cbs && (!s.cbs[c].pending || count <= s.cbs[c].count)
    ensures Owned(SetCount(s, c, count).(walkers := walkers))
  {
  }

  lemma EnterSize(walkers: map<nat, Walker>, w: nat, wk: Walker, d: nat)
    requires w !in walkers
    ensures |RunningAt(walkers[w := wk], d)| == |RunningAt(walkers, d)| + if wk.at == d then 1 else 0
  {
    if d == wk.at {
      assert RunningAt(walkers[w := wk], d) == RunningAt(walkers, d) + {w};
    } else {
      assert RunningAt(walkers[w := wk], d) == RunningAt(walkers, d);
    }
  }

  lemma BlocksEnter(s: State, w: nat, c: nat, wk: Walker)
    requires Blocks(s) && w !in s.walkers && c in s.cbs && wk.at == c
    ensures Blocks(SetCount(s, c, s.cbs[c].count + 1).(walkers := s.walkers[w := wk]))
  {
    hide RunningAt, NoDuplicates;
    forall d ensures |RunningAt(s.walkers[w := wk], d)| == |RunningAt(s.walkers, d)| + if wk.at == d then 1 else 0 {
      EnterSize(s.walkers, w, wk, d);
    }
  }

  lemma BlocksLeave(s: State, w: nat)
    requires Blocks(s) && w in s.walkers
    ensures var c := s.walkers[w].at;
            s.cbs[c].count > 0 && Blocks(SetCount(s, c, s.cbs[c].count - 1).(walkers := Dropped(s.walkers, w)))
  {
    var c := s.walkers[w].at;
    assert w in RunningAt(s.walkers, c);
    var t := SetCount(s, c, s.cbs[c].count - 1).(walkers := Dropped(s.walkers, w));
    forall d | d in t.cbs ensures t.cbs[d].count == |RunningAt(t.walkers, d)| {
      if d == c {
        assert RunningAt(t.walkers, d) == RunningAt(s.walkers, d) - {w};
      } else {
        assert RunningAt(t.walkers, d) == RunningAt(s.walkers, d);
      }
    }
  }

  /** What a walk has done when it stands in front of position `i`. */
  ghost predicate WalkedTo(s: State, i: nat, called: seq<nat>)
    requires i <= |s.list|
  {
    && NoDuplicates(called) && (forall c :: c in called ==> c in s.used)
    && (forall k :: 0 <= k < i ==> s.list[k] in called || (s.list[k] in s.cbs && s.cbs[s.list[k]].pending))
    && (forall k :: i <= k < |s.list| ==> s.list[k] !in called)
  }

  /** Entries a walk passes over are pending. */
  lemma SkippedPending(s: State, i: nat, k: nat)
    requires Blocks(s) && Owned(s) && i <= |s.list| && i <= k < Scan(s, i)
    ensures s.list[k] in s.cbs && s.cbs[s.list[k]].pending
  {
    assert s.list[k] in s.list;
  }

  lemma NewWalkFits(s: State, i: nat, called: seq<nat>)
    requires Blocks(s) && Owned(s) && i <= |s.list| && WalkedTo(s, i, called) && Scan(s, i) < |s.list|
    ensures WalkFits(s, Walker(s.list[Scan(s, i)], called + [s.list[Scan(s, i)]]))
  {
    var r := Scan(s, i);
    PosUnique(s.list, r);
    assert s.list[r] in s.list;
    forall k | 0 <= k < r ensures s.list[k] in called + [s.list[r]] || (s.list[k] in s.cbs && s.cbs[s.list[k]].pending) {
      if i <= k { SkippedPending(s, i, k); }
    }
    hide Owned;
  }

  lemma AdvanceInv(s: State, w: nat, i: nat, called: seq<nat>)
    requires Inv(s) && w !in s.walkers && i <= |s.list| && WalkedTo(s, i, called)
    ensures Inv(Advance(s, w, i, called))
  {
    hide Blocks, Owned, WalkedTo, WalkFits;
    var r, t := Scan(s, i), Advance(s, w, i, called);
    if r == |s.list| {
      assert t == s;
    } else {
      var c := s.list[r];
      var wk := Walker(c, called + [c]);
      BlocksEnter(s, w, c, wk);
      OwnedCount(s, c, s.cbs[c].count + 1, s.walkers[w := wk]);
      NewWalkFits(s, i, called);
      EnterWalks(s, w, c, wk);
    }
  }

  lemma EnterWalks(s: State, w: nat, c: nat, wk: Walker)
    requires Walks(s) && c in s.cbs && WalkFits(s, wk)
    ensures Walks(SetCount(s, c, s.cbs[c].count + 1).(walkers := s.walkers[w := wk]))
  {
    var s1 := s.(walkers := s.walkers[w := wk]);
    assert Walks(s1);
    WalksKept(s1, SetCount(s, c, s.cbs[c].count + 1).(walkers := s.walkers[w := wk]));
  }

  lemma WalkBeginInv(s: State, w: nat)
    requires Inv(s) && w !in s.walkers
    ensures Inv(Next(s, WalkBegin(w)))
  {
    hide Inv;
    assert WalkedTo(s, 0, []);
    AdvanceInv(s, w, 0, []);
  }

  lemma WalkOnInv(s: State, w: nat, success: bool)
    requires Inv(s) && Enabled(s, WalkOn(w, success))
    ensures Inv(Next(s, WalkOn(w, success)))
  {
    hide Blocks, Owned, WalkFits, WalkedTo;
    var wk := s.walkers[w];
    var s1 := SetCount(s, wk.at, s.cbs[wk.at].count - 1).(walkers := Dropped(s.walkers, w));
    BlocksLeave(s, w);
    OwnedCount(s, wk.at, s.cbs[wk.at].count - 1, Dropped(s.walkers, w));
    WalksKept(s, s1);
    if success {
      assert WalkFits(s, wk);
      PassedHere(s, s1, wk);
      AdvanceInv(s1, w, Place(s.list, wk.at) + 1, wk.called);
    }
  }

  lemma PassedHere(s: State, t: State, wk: Walker)
    requires WalkFits(s, wk) && t.list == s.list && t.used == s.used && s.cbs.Keys <= t.cbs.Keys
    requires forall c :: c in s.cbs && s.cbs[c].pending ==> t.cbs[c].pending
    ensures Place(s.list, wk.at) < |t.list| && WalkedTo(t, Place(s.list, wk.at) + 1, wk.called)
  {
    hide NoDuplicates;
  }

  // ----- Registering and unregistering -------------------------------------------------------------

  lemma PosAppend(list: seq<nat>, c: nat, d: nat)
    requires d in list
    ensures Place(list + [c], d) == Place(list, d)
  {
    if list[0] != d {
      assert (list + [c])[1..] == list[1..] + [c];
      PosAppend(list[1..], c, d);
    }
  }

  lemma RegisterInv(s: State, c: nat)
    requires Inv(s) && c !in s.used
    ensures Inv(Next(s, Register(c)))
  {
    RegisterBlocks(s, c);
    RegisterOwned(s, c);
    RegisterWalks(s, c);
  }

  lemma RegisterBlocks(s: State, c: nat)
    requires Blocks(s) && c !in s.used
    ensures Blocks(Next(s, Register(c)))
  {
    assert c !in s.list;
    assert RunningAt(s.walkers, c) == {};
  }

  lemma RegisterOwned(s: State, c: nat)
    requires Blocks(s) && Owned(s) && c !in s.used
    ensures Owned(Next(s, Register(c)))
  {
    var t := Next(s, Register(c));
    forall u | u in t.unregs ensures PhaseFits(t, t.unregs[u]) {
      assert PhaseFits(s, s.unregs[u]);
    }
  }

  lemma RegisterWalks(s: State, c: nat)
    requires Blocks(s) && Walks(s) && c !in s.used
    ensures Walks(Next(s, Register(c)))
  {
    var t := Next(s, Register(c));
    forall w | w in t.walkers ensures WalkFits(t, t.walkers[w]) {
      assert WalkFits(s, s.walkers[w]);
      PosAppend(s.list, c, s.walkers[w].at);
      assert c !in s.walkers[w].called;
    }
  }

  lemma MarkInv(s: State, u: nat, c: nat)
    requires Inv(s) && Enabled(s, Mark(u, c))
    ensures Inv(Next(s, Mark(u, c)))
  {
    WalksKept(s, Next(s, Mark(u, c)));
    MarkOwned(s, u, c);
    hide Owned, Walks, NoDuplicates;
  }

  lemma MarkOwned(s: State, u: nat, c: nat)
    requires Owned(s) && Enabled(s, Mark(u, c))
    ensures Owned(Next(s, Mark(u, c)))
  {
    var t := Next(s, Mark(u, c));
    forall v | v in t.unregs ensures PhaseFits(t, t.unregs[v]) {
      if v != u { assert PhaseFits(s, s.unregs[v]); }
    }
  }

  lemma StartRundownInv(s: State, u: nat)
    requires Inv(s) && Enabled(s, StartRundown(u))
    ensures Inv(Next(s, StartRundown(u)))
  {
    WalksKept(s, Next(s, StartRundown(u)));
    StartRundownOwned(s, u);
    hide Owned, Walks, NoDuplicates;
  }

  lemma StartRundownOwned(s: State, u: nat)
    requires Owned(s) && Enabled(s, StartRundown(u))
    ensures Owned(Next(s, StartRundown(u)))
  {
    var t := Next(s, StartRundown(u));
    forall v | v in t.unregs ensures PhaseFits(t, t.unregs[v]) {
      assert PhaseFits(s, s.unregs[v]);
    }
  }

  lemma EndRundownInv(s: State, u: nat)
    requires Inv(s) && Enabled(s, EndRundown(u))
    ensures Inv(Next(s, EndRundown(u)))
  {
    var t := Next(s, EndRundown(u));
    WalksKept(s, t);
    assert PhaseFits(s, s.unregs[u]);
    hide Walks, NoDuplicates;
  }

  lemma CutAt(list: seq<nat>, k: nat, i: nat)
    requires k < |list| && i < |list| - 1
    ensures Cut(list, k)[i] == list[if i < k then i else i + 1]
  {
  }

  lemma PosWithout(list: seq<nat>, k: nat, d: nat)
    requires NoDuplicates(list) && k < |list| && d in list && d != list[k]
    ensures d in Cut(list, k)
    ensures Place(Cut(list, k), d) == if Place(list, d) > k then Place(list, d) - 1 else Place(list, d)
  {
    var rest, p := Cut(list, k), Place(list, d);
    assert NoDuplicates(rest);
    var q := if p > k then p - 1 else p;
    assert rest[q] == d;
    PosUnique(rest, q);
  }

  /** Nobody is running a callback that is about to be unlinked. */
  lemma NobodyThere(s: State, c: nat, w: nat)
    requires Blocks(s) && c in s.cbs && s.cbs[c].count == 0 && w in s.walkers
    ensures s.walkers[w].at != c
  {
    hide NoDuplicates;
    assert RunningAt(s.walkers, c) == {};
    assert w !in RunningAt(s.walkers, c);
  }

  lemma UnlinkWalks(s: State, u: nat)
    requires Inv(s) && Enabled(s, Unlink(u))
    ensures Walks(Next(s, Unlink(u)))
  {
    var c := s.unregs[u].c;
    var k, t := Place(s.list, c), Next(s, Unlink(u));
    assert PhaseFits(s, s.unregs[u]);
    forall w | w in t.walkers ensures WalkFits(t, t.walkers[w]) {
      NobodyThere(s, c, w);
      assert WalkFits(s, s.walkers[w]);
      UnlinkWalkFits(s, t, k, s.walkers[w]);
    }
  }

  lemma UnlinkWalkFits(s: State, t: State, k: nat, wk: Walker)
    requires NoDuplicates(s.list) && k < |s.list| && WalkFits(s, wk) && wk.at != s.list[k]
    requires t.list == Cut(s.list, k) && t.cbs == s.cbs && t.used == s.used
    ensures WalkFits(t, wk)
  {
    PosWithout(s.list, k, wk.at);
    hide Place, NoDuplicates, Cut;
    var p, p' := Place(s.list, wk.at), Place(t.list, wk.at);
    forall i | 0 <= i < p' ensures t.list[i] in wk.called || (t.list[i] in t.cbs && t.cbs[t.list[i]].pending) {
      CutAt(s.list, k, i);
    }
    forall i | p' < i < |t.list| ensures t.list[i] !in wk.called {
      CutAt(s.list, k, i);
    }
  }

  lemma UnlinkInv(s: State, u: nat)
    requires Inv(s) && Enabled(s, Unlink(u))
    ensures Inv(Next(s, Unlink(u)))
  {
    UnlinkWalks(s, u);
    UnlinkBlocks(s, u);
    UnlinkOwned(s, u);
  }

  lemma UnlinkBlocks(s: State, u: nat)
    requires Blocks(s) && Enabled(s, Unlink(u))
    ensures Blocks(Next(s, Unlink(u)))
  {
  }

  lemma UnlinkOwned(s: State, u: nat)
    requires Blocks(s) && Owned(s) && Enabled(s, Unlink(u))
    ensures Owned(Next(s, Unlink(u)))
  {
    var c := s.unregs[u].c;
    var k, t := Place(s.list, c), Next(s, Unlink(u));
    forall d ensures d in t.list <==> d in s.list && d != c {
      if d in s.list && d != c { PosWithout(s.list, k, d); }
    }
    forall v | v in t.unregs ensures PhaseFits(t, t.unregs[v]) {
      assert PhaseFits(s, s.unregs[v]) && PhaseFits(s, s.unregs[u]);
    }
  }

  lemma FreeInv(s: State, u: nat)
    requires Inv(s) && Enabled(s, Free(u))
    ensures Inv(Next(s, Free(u)))
  {
    FreeBlocks(s, u);
    FreeOwned(s, u);
    FreeWalks(s, u);
  }

  lemma FreeBlocks(s: State, u: nat)
    requires Blocks(s) && Owned(s) && Enabled(s, Free(u))
    ensures Blocks(Next(s, Free(u)))
  {
    assert PhaseFits(s, s.unregs[u]);
    forall w | w in s.walkers ensures s.walkers[w].at != s.unregs[u].c {
      NobodyThere(s, s.unregs[u].c, w);
    }
    hide NoDuplicates;
  }

  lemma FreeOwned(s: State, u: nat)
    requires Owned(s) && Enabled(s, Free(u))
    ensures Owned(Next(s, Free(u)))
  {
    var t := Next(s, Free(u));
    forall v | v in t.unregs ensures PhaseFits(t, t.unregs[v]) {
      assert PhaseFits(s, s.unregs[v]) && s.unregs[v].c != s.unregs[u].c;
    }
  }

  lemma FreeWalks(s: State, u: nat)
    requires Owned(s) && Walks(s) && Enabled(s, Free(u))
    ensures Walks(Next(s, Free(u)))
  {
    var t := Next(s, Free(u));
    assert PhaseFits(s, s.unregs[u]);
    forall w | w in t.walkers ensures WalkFits(t, t.walkers[w]) {
      assert WalkFits(s, s.walkers[w]);
    }
  }

  /** Every step keeps the invariant. */
  lemma InvStep(s: State, step: Step)
    requires Inv(s) && Enabled(s, step)
    ensures Inv(Next(s, step))
  {
    hide Inv, Next;
    match step {
      case Register(c) => RegisterInv(s, c);
      case WalkBegin(w) => WalkBeginInv(s, w);
      case WalkOn(w, success) => WalkOnInv(s, w, success);
      case Mark(u, c) => MarkInv(s, u, c);
      case StartRundown(u) => StartRundownInv(s, u);
      case EndRundown(u) => EndRundownInv(s, u);
      case Unlink(u) => UnlinkInv(s, u);
      case Free(u) => FreeInv(s, u);
    }
  }

  // ----- Runs --------------------------------------------------------------------------------------------

  ghost predicate Runs(s: State, steps: seq<Step>)
    decreases steps
  {
    steps == [] || (Enabled(s, steps[0]) && Runs(Next(s, steps[0]), steps[1..]))
  }

  ghost function After(s: State, steps: seq<Step>): State
    requires Runs(s, steps)
    decreases steps
  {
    if steps == [] then s else After(Next(s, steps[0]), steps[1..])
  }

  const Empty := State([], map[], map[], map[], {})

  lemma {:induction false} InvRun(s: State, steps: seq<Step>)
    requires Inv(s) && Runs(s, steps)
    ensures Inv(After(s, steps))
    decreases steps
  {
    hide Inv, Next, Enabled;
    if steps != [] {
      InvStep(s, steps[0]);
      InvRun(Next(s, steps[0]), steps[1..]);
    }
  }

  lemma CanWalkOn(s: State, w: nat)
    requires Inv(s) && w in s.walkers
    ensures Enabled(s, WalkOn(w, true))
  {
    assert WalkFits(s, s.walkers[w]);
    BlocksLeave(s, w);
  }

  /** In every reachable state: a walker's entry is on the list and its block is live, so
      the walker can always go on; an unregistering thread's block is live, so it is freed
      once; and no two threads unregister the same callback. */
  lemma NeverDangling(steps: seq<Step>, w: nat, u: nat, v: nat)
    requires Runs(Empty, steps)
    ensures var s := After(Empty, steps);
            && (w in s.walkers ==> s.walkers[w].at in s.list && s.walkers[w].at in s.cbs && Enabled(s, WalkOn(w, true)))
            && (u in s.unregs ==> s.unregs[u].c in s.cbs)
            && (u in s.unregs && v in s.unregs && u != v ==> s.unregs[u].c != s.unregs[v].c)
  {
    assert Inv(Empty);
    InvRun(Empty, steps);
    var s := After(Empty, steps);
    if w in s.walkers {
      CanWalkOn(s, w);
    }
    if u in s.unregs {
      assert PhaseFits(s, s.unregs[u]);
    }
  }

  /** Every pending callback has its unregistering thread. */
  ghost predicate Attributed(s: State) {
    forall c :: c in s.cbs && s.cbs[c].pending ==> HasOwner(s.unregs, c)
  }

  ghost predicate HasOwner(unregs: map<nat, Unregister>, c: nat) {
    exists u :: u in unregs && unregs[u].c == c
  }

  lemma OwnerStays(x: map<nat, Unregister>, y: map<nat, Unregister>, c: nat)
    requires HasOwner(x, c) && forall u :: u in x && x[u].c == c ==> u in y && y[u].c == c
    ensures HasOwner(y, c)
  {
    var u :| u in x && x[u].c == c;
    assert u in y && y[u].c == c;
  }

  lemma AttributedStep(s: State, step: Step)
    requires Inv(s) && Attributed(s) && Enabled(s, step)
    ensures Attributed(Next(s, step))
  {
    hide Blocks, Walks, PhaseFits, HasOwner, Place, Cut;
    var t := Next(s, step);
    forall c | c in t.cbs && t.cbs[c].pending ensures HasOwner(t.unregs, c) {
      if step.Mark? && step.c == c {
        NewOwner(s.unregs, step.u, c);
      } else {
        assert c in s.cbs && s.cbs[c].pending;
        OwnerStays(s.unregs, t.unregs, c);
      }
    }
  }

  lemma NewOwner(unregs: map<nat, Unregister>, u: nat, c: nat)
    ensures HasOwner(unregs[u := Unregister(c, Marked)], c)
  {
    assert u in unregs[u := Unregister(c, Marked)];
  }

  /** In every reachable state a callback that walks pass over is being unregistered by some
      thread: nothing is ever pending for good. */
  lemma {:induction false} PendingIsOwned(s: State, steps: seq<Step>)
    requires Inv(s) && Attributed(s) && Runs(s, steps)
    ensures Attributed(After(s, steps))
    decreases steps
  {
    hide Inv, Next, Enabled, Attributed;
    if steps != [] {
      InvStep(s, steps[0]);
      AttributedStep(s, steps[0]);
      PendingIsOwned(Next(s, steps[0]), steps[1..]);
    }
  }

  /** From the end of the rundown wait on, the function is not running. */
  lemma NotRunning(s: State, u: nat, w: nat)
    requires Inv(s) && u in s.unregs && s.unregs[u].phase != Marked && s.unregs[u].phase != Waiting && w in s.walkers
    ensures s.walkers[w].at != s.unregs[u].c
  {
    assert PhaseFits(s, s.unregs[u]);
    NobodyThere(s, s.unregs[u].c, w);
  }

  /** Once freed, a callback stays gone. */
  lemma {:induction false} StaysGone(s: State, steps: seq<Step>, c: nat)
    requires Inv(s) && Runs(s, steps) && c in s.used && c !in s.cbs
    ensures c in After(s, steps).used && c !in After(s, steps).cbs
    decreases steps
  {
    hide Inv;
    if steps != [] {
      InvStep(s, steps[0]);
      GoneStep(s, steps[0], c);
      StaysGone(Next(s, steps[0]), steps[1..], c);
    }
  }

  lemma GoneStep(s: State, step: Step, c: nat)
    requires Enabled(s, step) && c in s.used && c !in s.cbs
    ensures c in Next(s, step).used && c !in Next(s, step).cbs
  {
  }

  /** After CmUnRegisterCallback has returned success for `c`, its function is neither
      running nor ever called again, in any continuation of the run. */
  lemma NeverCalledAgain(steps: seq<Step>, u: nat, later: seq<Step>, w: nat)
    requires Runs(Empty, steps) && Enabled(After(Empty, steps), Free(u))
    requires Runs(Next(After(Empty, steps), Free(u)), later)
    ensures var c := After(Empty, steps).unregs[u].c;
            var t := After(Next(After(Empty, steps), Free(u)), later);
            c !in t.cbs && c !in t.list && (w in t.walkers ==> t.walkers[w].at != c)
  {
    assert Inv(Empty);
    InvRun(Empty, steps);
    var s := After(Empty, steps);
    var c, s1 := s.unregs[u].c, Next(s, Free(u));
    InvStep(s, Free(u));
    assert PhaseFits(s, s.unregs[u]);
    assert c in s1.used && c !in s1.cbs;
    StaysGone(s1, later, c);
    InvRun(s1, later);
    hide Runs, After, Next, NoDuplicates;
  }

  /** A walk that ends without a failure has called, once each, every callback on the list
      that is not being unregistered - also those registered while it was under way. */
  lemma WalkComplete(s: State, w: nat, c: nat)
    requires Inv(s) && Enabled(s, WalkOn(w, true)) && w !in Next(s, WalkOn(w, true)).walkers
    requires c in s.list && !s.cbs[c].pending
    ensures c in s.walkers[w].called && NoDuplicates(s.walkers[w].called)
  {
    hide Next, NoDuplicates, RunningAt, Owned, WalkFits;
    assert WalkFits(s, s.walkers[w]);
    WalkEnds(s, w, c);
    BehindCalled(s, s.walkers[w], c);
  }

  /** A walk that ends before its first call found nothing but callbacks that are being
      unregistered. */
  lemma WalkNone(s: State, w: nat, c: nat)
    requires Inv(s) && Enabled(s, WalkBegin(w)) && w !in Next(s, WalkBegin(w)).walkers && c in s.list
    ensures s.cbs[c].pending
  {
    hide NoDuplicates, RunningAt, PhaseFits, Walks;
    AdvanceEnds(s, w, 0, []);
    var k := Place(s.list, c);
    assert !Callable(s, s.list[k]);
  }

  lemma BehindCalled(s: State, wk: Walker, c: nat)
    requires WalkFits(s, wk) && c in s.list && c in s.cbs && !s.cbs[c].pending
    requires Place(s.list, c) <= Place(s.list, wk.at)
    ensures c in wk.called && NoDuplicates(wk.called)
  {
    var k := Place(s.list, c);
  }

  /** Once a callback is marked its rundown count only falls, so the wait sees no new call. */
  lemma PendingOnlyDrains(s: State, step: Step, c: nat)
    requires Enabled(s, step) && c in s.cbs && c in s.used && s.cbs[c].pending && c in Next(s, step).cbs
    ensures Next(s, step).cbs[c].pending && Next(s, step).cbs[c].count <= s.cbs[c].count
  {
    hide Place, Cut;
  }

  /** Where a walk ends, nothing callable lies ahead. */
  lemma WalkEnds(s: State, w: nat, c: nat)
    requires Blocks(s) && Owned(s) && Enabled(s, WalkOn(w, true)) && w !in Next(s, WalkOn(w, true)).walkers
    requires c in s.list && !s.cbs[c].pending
    ensures Place(s.list, c) <= Place(s.list, s.walkers[w].at)
  {
    hide NoDuplicates, RunningAt, Cut, Next, Advance, Scan, PhaseFits;
    NextWalkOn(s, w, true);
    AdvanceEnds(Left(s, w), w, Place(s.list, s.walkers[w].at) + 1, s.walkers[w].called);
    assert Callable(Left(s, w), c);
  }

  lemma AdvanceEnds(s: State, w: nat, i: nat, called: seq<nat>)
    requires i <= |s.list| && w !in Advance(s, w, i, called).walkers
    ensures forall k :: i <= k < |s.list| ==> !Callable(s, s.list[k])
  {
  }

  lemma NextWalkOn(s: State, w: nat, success: bool)
    requires Enabled(s, WalkOn(w, success))
    ensures Next(s, WalkOn(w, success))
         == if success then Advance(Left(s, w), w, Place(s.list, s.walkers[w].at) + 1, s.walkers[w].called) else Left(s, w)
  {
  }

  /** The call a walk makes next from position `i` on: the first callback that nobody is
      unregistering, if there is one. */
  ghost predicate NextCall(list: seq<nat>, cbs: map<nat, Callback>, i: nat, found: bool, c: nat) {
    if found then
      exists k :: i <= k < |list| && list[k] == c && Available(cbs, c) && forall j :: i <= j < k ==> !Available(cbs, list[j])
    else NoCall(list, cbs, i)
  }

  ghost predicate NoCall(list: seq<nat>, cbs: map<nat, Callback>, i: nat) {
    forall j :: i <= j < |list| ==> !Available(cbs, list[j])
  }

  predicate Available(cbs: map<nat, Callback>, c: nat) {
    c in cbs && !cbs[c].pending
  }

  lemma NextCallIs(s: State, w: nat, i: nat, called: seq<nat>)
    requires Blocks(s) && Owned(s) && i <= |s.list|
    ensures var t := Advance(s, w, i, called);
            NextCall(s.list, s.cbs, i, w in t.walkers, if w in t.walkers then t.walkers[w].at else 0) && t.list == s.list
  {
    hide NoDuplicates, RunningAt, PhaseFits;
    var r := Scan(s, i);
    assert forall k :: i <= k < |s.list| ==> (Available(s.cbs, s.list[k]) <==> Callable(s, s.list[k]));
    if r < |s.list| {
      assert i <= r < |s.list| && s.list[r] == s.list[r] && Available(s.cbs, s.list[r]);
    }
  }

  lemma LeftInv(s: State, w: nat)
    requires Inv(s) && Enabled(s, WalkOn(w, true))
    ensures Blocks(Left(s, w)) && Owned(Left(s, w))
  {
    hide Blocks, Owned, WalkFits;
    BlocksLeave(s, w);
    OwnedCount(s, s.walkers[w].at, s.cbs[s.walkers[w].at].count - 1, Dropped(s.walkers, w));
  }

  /** Coming back from a call drops its protection, and then the next call is made, or none
      after a failure. */
  lemma Continued(s: State, w: nat, success: bool)
    requires Inv(s) && Enabled(s, WalkOn(w, success))
    ensures var t, at := Next(s, WalkOn(w, success)), s.walkers[w].at;
            && t.list == s.list && at in t.cbs && t.cbs[at].count == s.cbs[at].count - 1
            && (!success ==> w !in t.walkers)
            && (success && w in t.walkers ==> NextCall(s.list, s.cbs, Place(s.list, at) + 1, true, t.walkers[w].at))
            && (success && w !in t.walkers ==> NoCall(s.list, s.cbs, Place(s.list, at) + 1))
  {
    hide Inv, Next, Place, Advance;
    var at, l := s.walkers[w].at, Left(s, w);
    NextWalkOn(s, w, success);
    LeftInv(s, w);
    assert forall d :: Available(s.cbs, d) <==> Available(l.cbs, d);
    if success {
      NextCallIs(l, w, Place(s.list, at) + 1, s.walkers[w].called);
      Distinct(l);
      NotAhead(s.list, at);
      AdvanceCount(l, w, Place(s.list, at) + 1, s.walkers[w].called, at);
    }
  }

  lemma AdvanceCount(l: State, w: nat, i: nat, called: seq<nat>, at: nat)
    requires i <= |l.list| && at in l.cbs && forall k :: i <= k < |l.list| ==> l.list[k] != at
    ensures var t := Advance(l, w, i, called); at in t.cbs && t.cbs[at].count == l.cbs[at].count
  {
    hide Callable;
  }

  lemma NotAhead(list: seq<nat>, at: nat)
    requires NoDuplicates(list) && at in list
    ensures forall k :: Place(list, at) + 1 <= k < |list| ==> list[k] != at
  {
  }

  lemma Distinct(s: State)
    requires Blocks(s)
    ensures NoDuplicates(s.list)
  {
  }

  // ----- The code -----------------------------------------------------------------------------------

  /** The callback list and its blocks.  Threads keep their own place; `walkers` and
      `unregs` record it. */
  class Registry {
    var list: seq<nat>
    var cbs: map<nat, Callback>
    ghost var walkers: map<nat, Walker>
    ghost var unregs: map<nat, Unregister>
    ghost var used: set<nat>

    ghost function View(): State
      reads this
    {
      State(list, cbs, walkers, unregs, used)
    }

    constructor ()
      ensures View() == Empty && Inv(View())
    {
      list, cbs, walkers, unregs, used := [], map[], map[], map[], {};
    }

    method Add(c: nat)
      requires Inv(View()) && Enabled(View(), Register(c))
      modifies this
      ensures View() == Next(old(View()), Register(c)) && Inv(View())
      ensures list == old(list) + [c] && cbs == old(cbs)[c := Callback(false, false, 0)]
    {
      InvStep(View(), Register(c));
      cbs := cbs[c := Callback(false, false, 0)];
      list, used := list + [c], used + {c};
    }

    /** The loop from position `start` on, up to the call with the lock dropped. */
    method CallFrom(ghost w: nat, start: nat, ghost called: seq<nat>) returns (found: bool, c: nat)
      requires start <= |list| && forall d :: d in list ==> d in cbs
      modifies this
      ensures View() == Advance(old(View()), w, start, called)
      ensures found <==> w in walkers
      ensures found ==> c == walkers[w].at
    {
      hide Inv;
      var i := start;
      while i < |list| && (cbs[list[i]].pending || cbs[list[i]].rundown)
        invariant start <= i <= |list| && View() == old(View())
        invariant Scan(View(), start) == Scan(View(), i)
      {
        i := i + 1;
      }
      found, c := i < |list|, 0;
      if found {
        c := list[i];
        cbs := cbs[c := cbs[c].(count := cbs[c].count + 1)];
        walkers := walkers[w := Walker(c, called + [c])];
      } else {
        walkers := map v | v in walkers && v != w :: walkers[v];
      }
    }

    /** CmiCallRegisteredCallbacks up to its first call. */
    method BeginCalls(ghost w: nat) returns (found: bool, c: nat)
      requires Inv(View()) && Enabled(View(), WalkBegin(w))
      modifies this
      ensures View() == Next(old(View()), WalkBegin(w)) && Inv(View())
      ensures found <==> w in walkers
      ensures found ==> c == walkers[w].at
      ensures list == old(list) && NextCall(list, old(cbs), 0, found, c)
    {
      InvStep(View(), WalkBegin(w));
      NextCallIs(View(), w, 0, []);
      hide Advance, Scan, RunningAt, NoDuplicates, Owned, Walks;
      found, c := CallFrom(w, 0, []);
    }

    /** The function of `at` has returned: drop its protection under the lock and go on. */
    method ContinueCalls(ghost w: nat, at: nat, success: bool) returns (found: bool, c: nat)
      requires Inv(View()) && w in walkers && walkers[w].at == at
      modifies this
      ensures old(Enabled(View(), WalkOn(w, success)))
      ensures View() == Next(old(View()), WalkOn(w, success)) && Inv(View())
      ensures found <==> w in walkers
      ensures found ==> c == walkers[w].at
      ensures list == old(list) && at in list && if success then NextCall(list, old(cbs), Place(list, at) + 1, found, c) else !found
      ensures at in old(cbs) && at in cbs && cbs[at].count == old(cbs[at]).count - 1
    {
      hide Inv, Advance, Next, Left, Place, NoCall, Available;
      CanWalkOn(View(), w);
      NextWalkOn(View(), w, success);
      InvStep(View(), WalkOn(w, success));
      Continued(View(), w, success);
      ghost var called := walkers[w].called;
      var i := Place(list, at);
      Leave(w, at);
      found, c := false, 0;
      if success {
        found, c := CallFrom(w, i + 1, called);
      }
    }

    method Leave(ghost w: nat, at: nat)
      requires Inv(View()) && w in walkers && walkers[w].at == at && Enabled(View(), WalkOn(w, true))
      modifies this
      ensures View() == Left(old(View()), w) && w !in walkers && list == old(list)
      ensures forall d :: d in list ==> d in cbs
    {
      hide NoDuplicates, RunningAt, Owned, Walks;
      cbs := cbs[at := cbs[at].(count := cbs[at].count - 1)];
      walkers := Dropped(walkers, w);
    }

    /** CmUnRegisterCallback up to the rundown wait: succeeds exactly for a listed callback
        nobody is unregistering. */
    method MarkPending(ghost u: nat, cookie: nat) returns (ok: bool)
      requires Inv(View()) && u !in unregs
      modifies this
      ensures ok <==> old(Enabled(View(), Mark(u, cookie)))
      ensures ok <==> cookie in old(list) && cookie in old(cbs) && !old(cbs[cookie]).pending
      ensures ok ==> cbs == old(cbs)[cookie := old(cbs[cookie]).(pending := true)] && list == old(list)
      ensures View() == if ok then Next(old(View()), Mark(u, cookie)) else old(View())
      ensures Inv(View())
    {
      var i := 0;
      while i < |list| && list[i] != cookie
        invariant i <= |list| && cookie !in list[..i] && View() == old(View())
      {
        i := i + 1;
      }
      ok := i < |list| && !cbs[cookie].pending;
      if ok {
        InvStep(View(), Mark(u, cookie));
        cbs := cbs[cookie := cbs[cookie].(pending := true)];
        unregs := unregs[u := Unregister(cookie, Marked)];
      }
    }

    /** After the rundown wait: take the block off the list. */
    method RemoveEntry(ghost u: nat, c: nat)
      requires Inv(View()) && u in unregs && unregs[u] == Unregister(c, Released)
      modifies this
      ensures old(Enabled(View(), Unlink(u)))
      ensures View() == Next(old(View()), Unlink(u)) && Inv(View())
      ensures cbs == old(cbs) && exists k :: 0 <= k < |old(list)| && old(list)[k] == c && list == old(list)[..k] + old(list)[k + 1..]
    {
      hide NoDuplicates, Walks, RunningAt;
      assert PhaseFits(View(), unregs[u]);
      InvStep(View(), Unlink(u));
      var i := Place(list, c);
      list, unregs := list[..i] + list[i + 1..], unregs[u := Unregister(c, Unlinked)];
    }

    /** The block is freed, once. */
    method FreeBlock(ghost u: nat, c: nat)
      requires Inv(View()) && u in unregs && unregs[u] == Unregister(c, Unlinked)
      modifies this
      ensures c in old(cbs) && c !in cbs && c !in list
      ensures View() == Next(old(View()), Free(u)) && Inv(View())
    {
      hide NoDuplicates, Walks, RunningAt;
      assert PhaseFits(View(), unregs[u]);
      InvStep(View(), Free(u));
      cbs := map d | d in cbs && d != c :: cbs[d];
      unregs := map v | v in unregs && v != u :: unregs[v];
    }
  }
}
