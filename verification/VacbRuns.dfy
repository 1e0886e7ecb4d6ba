/** Every interleaving of threads that use views.  A step is one critical section, or one of
    the tests of the dirty flag that the code makes outside the locks: a thread that has
    made such a test acts on it later, whatever the flag says by then. */
module VacbRuns {
  import opened VacbCache
  import opened VacbTable

  /** What a thread is doing with the view it has referenced.  `SawClean` is
      CcRosReleaseVacb between its test and CcRosMarkDirtyVacb; `SawDirty` a flush between
      its test and CcRosUnmarkDirtyVacb; `Flushing` CcRosFlushVacb, which marks the view
      again, untested, if the flush fails. */
  datatype Use = Holding(v: nat) | SawClean(v: nat) | SawDirty(v: nat) | Flushing(v: nat)

  datatype Machine = Machine(s: State, uses: map<nat, Use>)

  datatype Step =
    | Reference(t: nat, v: nat)
    | Link(t: nat, v: nat, f: nat, off: nat)
    | Touch(t: nat)
    | Release(t: nat)
    | TestClean(t: nat, v: nat)
    | Mark(t: nat, v: nat)
    | TestDirty(t: nat, v: nat)
    | Unmark(t: nat, v: nat)
    | Flushed(t: nat, v: nat)
    | Remark(t: nat, v: nat)
    | Free(v: nat)
    | Purge(v: nat)

  function Users(uses: map<nat, Use>, v: nat): set<nat> {
    set t | t in uses && uses[t].v == v
  }

  /** The threads are the holders. */
  ghost predicate HeldByThreads(m: Machine) {
    forall v :: m.s.held[v] == |Users(m.uses, v)|
  }

  ghost predicate Good(m: Machine) {
    Inv(m.s) && HeldByThreads(m)
  }

  /** The view is there to be marked or unmarked; so it is for whoever holds it. */
  predicate There(s: State, v: nat) {
    v in s.vacbs && s.vacbs[v].refs > 0 && s.vacbs[v].file in s.lists && s.vacbs[v].file in s.pages
  }

  ghost predicate Enabled(m: Machine, step: Step) {
    match step
    case Reference(t, v) => t !in m.uses && v in m.s.vacbs
    case Link(t, v, f, off) => t !in m.uses && v !in m.s.vacbs && f in m.s.lists && !Mapped(m.s, f, off)
    case Touch(t) => t in m.uses && m.uses[t].Holding? && m.uses[t].v in m.s.vacbs
    case Release(t) => t in m.uses && m.uses[t].Holding? && There(m.s, m.uses[t].v)
    case TestClean(t, v) => t in m.uses && m.uses[t] == Holding(v) && v in m.s.vacbs && !m.s.vacbs[v].dirty
    case Mark(t, v) => t in m.uses && m.uses[t] == SawClean(v) && There(m.s, v)
    case TestDirty(t, v) => t in m.uses && m.uses[t] == Holding(v) && v in m.s.vacbs && m.s.vacbs[v].dirty
    case Unmark(t, v) => t in m.uses && m.uses[t] == SawDirty(v) && There(m.s, v)
    case Flushed(t, v) => t in m.uses && m.uses[t] == Flushing(v)
    case Remark(t, v) => t in m.uses && m.uses[t] == Flushing(v) && There(m.s, v)
    case Free(v) => There(m.s, v) && m.s.vacbs[v].refs < 2
    case Purge(v) => There(m.s, v) && !InUse(m.s.vacbs[v])
  }

  function Dropped(uses: map<nat, Use>, t: nat): map<nat, Use> {
    map u | u in uses && u != t :: uses[u]
  }

  ghost function Next(m: Machine, step: Step): Machine
    requires Enabled(m, step)
  {
    match step
    case Reference(t, v) => Machine(Referenced(m.s, v), m.uses[t := Holding(v)])
    case Link(t, v, f, off) => Machine(Inserted(m.s, v, f, off), m.uses[t := Holding(v)])
    case Touch(t) => m.(s := Touched(m.s, m.uses[t].v))
    case Release(t) => Machine(Released(m.s, m.uses[t].v), Dropped(m.uses, t))
    case TestClean(t, v) => m.(uses := m.uses[t := SawClean(v)])
    case Mark(t, v) => Machine(Dirtied(m.s, v), m.uses[t := Holding(v)])
    case TestDirty(t, v) => m.(uses := m.uses[t := SawDirty(v)])
    case Unmark(t, v) => Machine(Cleaned(m.s, v), m.uses[t := Flushing(v)])
    case Flushed(t, v) => m.(uses := m.uses[t := Holding(v)])
    case Remark(t, v) => Machine(Dirtied(m.s, v), m.uses[t := Holding(v)])
    case Free(v) => m.(s := Freed(m.s, v))
    case Purge(v) => m.(s := Purged(m.s, v))
  }

  // ----- Holders ------------------------------------------------------------------------------

  /** A thread's view is linked, and its reference is not the last. */
  lemma UserHolds(m: Machine, t: nat)
    requires Good(m) && t in m.uses
    ensures var v := m.uses[t].v;
            v in m.s.held && There(m.s, v) && m.s.vacbs[v].refs > 1
  {
    hide Placed, Ordered, LruFits, DirtyFits, Totals;
    var v := m.uses[t].v;
    assert t in Users(m.uses, v);
    ReleasedCounted(m.s, v);
    LinkedFile(m.s, v);
  }

  lemma JoinUsers(uses: map<nat, Use>, t: nat, u: Use, v: nat)
    requires t !in uses
    ensures |Users(uses[t := u], v)| == |Users(uses, v)| + if u.v == v then 1 else 0
  {
    assert Users(uses[t := u], v) == if u.v == v then Users(uses, v) + {t} else Users(uses, v);
  }

  lemma LeaveUsers(uses: map<nat, Use>, t: nat, v: nat)
    requires t in uses
    ensures |Users(Dropped(uses, t), v)| == |Users(uses, v)| - if uses[t].v == v then 1 else 0
  {
    if uses[t].v == v {
      assert t in Users(uses, v);
    }
    assert Users(Dropped(uses, t), v) == if uses[t].v == v then Users(uses, v) - {t} else Users(uses, v);
  }

  lemma SameUsers(uses: map<nat, Use>, t: nat, u: Use, v: nat)
    requires t in uses && u.v == uses[t].v
    ensures Users(uses[t := u], v) == Users(uses, v)
  {
  }

  /** Every step, orderly or not, leaves the threads the holders. */
  lemma HeldStep(m: Machine, step: Step)
    requires Good(m) && Enabled(m, step)
    ensures HeldByThreads(Next(m, step))
  {
    hide Inv, Users, Mapped, InsertAt, Slot;
    match step {
      case Reference(t, v) => Joins(m, t, v);
      case Link(t, v, f, off) => Joins(m, t, v);
      case Release(t) => Leaves(m, t);
      case TestClean(t, v) => Stays(m, t, SawClean(v));
      case Mark(t, v) => Stays(m, t, Holding(v));
      case TestDirty(t, v) => Stays(m, t, SawDirty(v));
      case Unmark(t, v) => Stays(m, t, Flushing(v));
      case Flushed(t, v) => Stays(m, t, Holding(v));
      case Remark(t, v) => Stays(m, t, Holding(v));
      case Touch(_) =>
      case Free(v) =>
      case Purge(v) =>
    }
  }

  lemma Joins(m: Machine, t: nat, v: nat)
    requires HeldByThreads(m) && t !in m.uses
    ensures forall w :: (m.s.held + multiset{v})[w] == |Users(m.uses[t := Holding(v)], w)|
  {
    hide Users;
    forall w ensures (m.s.held + multiset{v})[w] == |Users(m.uses[t := Holding(v)], w)| {
      JoinUsers(m.uses, t, Holding(v), w);
    }
  }

  lemma Leaves(m: Machine, t: nat)
    requires HeldByThreads(m) && t in m.uses
    ensures forall w :: (m.s.held - multiset{m.uses[t].v})[w] == |Users(Dropped(m.uses, t), w)|
  {
    hide Users, Dropped;
    forall w ensures (m.s.held - multiset{m.uses[t].v})[w] == |Users(Dropped(m.uses, t), w)| {
      LeaveUsers(m.uses, t, w);
    }
  }

  lemma Stays(m: Machine, t: nat, u: Use)
    requires HeldByThreads(m) && t in m.uses && u.v == m.uses[t].v
    ensures HeldByThreads(m.(uses := m.uses[t := u]))
  {
    forall w ensures Users(m.uses[t := u], w) == Users(m.uses, w) {
      SameUsers(m.uses, t, u, w);
    }
  }

  // ----- One step -------------------------------------------------------------------------------

  /** The flag is as it was when the thread that acts now tested it. */
  ghost predicate AsTested(m: Machine, step: Step)
    requires Enabled(m, step)
  {
    match step
    case Mark(t, v) => !m.s.vacbs[v].dirty
    case Remark(t, v) => !m.s.vacbs[v].dirty
    case Unmark(t, v) => m.s.vacbs[v].dirty
    case _ => true
  }

  /** Unmarking keeps the invariant exactly when the view is dirty. */
  lemma UnmarkingNeedsDirty(s: State, v: nat)
    requires Inv(s) && v in s.vacbs && s.vacbs[v].refs > 0 && s.vacbs[v].file in s.pages
    ensures Inv(Cleaned(s, v)) <==> s.vacbs[v].dirty
  {
    hide Placed, Ordered, LruFits, Totals, DirtyFits;
    if s.vacbs[v].dirty {
      CleanedInv(s, v);
    } else {
      var t := Cleaned(s, v);
      assert t.vacbs[v].refs != 1 + t.held[v];
      assert !Counted(t.vacbs, t.held);
    }
  }

  /** A step keeps the invariant if and only if the flag is as the thread has seen it. */
  lemma InvStep(m: Machine, step: Step)
    requires Good(m) && Enabled(m, step)
    ensures Inv(Next(m, step).s) <==> AsTested(m, step)
  {
    hide Inv, Mapped, Referenced, Released, Touched, Dirtied, Cleaned, Inserted, Freed, Purged, Users, HeldByThreads;
    match step {
      case Reference(t, v) => ReferencedInv(m.s, v);
      case Link(t, v, f, off) => InsertedInv(m.s, v, f, off);
      case Touch(t) => TouchedInv(m.s, m.uses[t].v);
      case Release(t) => UserHolds(m, t); ReleasedInv(m.s, m.uses[t].v);
      case Mark(t, v) => MarkingNeedsClean(m.s, v);
      case Remark(t, v) => MarkingNeedsClean(m.s, v);
      case Unmark(t, v) => UnmarkingNeedsDirty(m.s, v);
      case Free(v) => FreedInv(m.s, v);
      case Purge(v) => PurgedInv(m.s, v);
      case TestClean(_, _) =>
      case TestDirty(_, _) =>
      case Flushed(_, _) =>
    }
  }

  // ----- Runs ---------------------------------------------------------------------------------------

  ghost function Empty(files: set<nat>): (m: Machine)
    ensures Good(m)
  {
    var s := State(map[], map f | f in files :: [], [], [], 0, map f | f in files :: 0, multiset{});
    assert forall v :: Users(map[], v) == {};
    Machine(s, map[])
  }

  ghost function Last(steps: seq<Step>): Step
    requires steps != []
  {
    steps[|steps| - 1]
  }

  ghost function Before(steps: seq<Step>): seq<Step>
    requires steps != []
  {
    steps[..|steps| - 1]
  }

  /** Any sequence of steps of which each is possible where it is taken. */
  ghost predicate Runs(files: set<nat>, steps: seq<Step>)
    decreases |steps|, 0
  {
    steps == [] || (Runs(files, Before(steps)) && Enabled(After(files, Before(steps)), Last(steps)))
  }

  ghost function After(files: set<nat>, steps: seq<Step>): Machine
    requires Runs(files, steps)
    decreases |steps|, 1
  {
    if steps == [] then Empty(files) else Next(After(files, Before(steps)), Last(steps))
  }

  /** The invariant holds in every state of the run. */
  ghost predicate Throughout(files: set<nat>, steps: seq<Step>)
    requires Runs(files, steps)
    decreases |steps|
  {
    Inv(After(files, steps).s) && (steps != [] ==> Throughout(files, Before(steps)))
  }

  lemma {:induction false} GoodRun(files: set<nat>, steps: seq<Step>)
    requires Runs(files, steps) && Throughout(files, steps)
    ensures Good(After(files, steps))
    decreases |steps|
  {
    hide Inv, Next, Enabled, HeldByThreads;
    if steps != [] {
      GoodRun(files, Before(steps));
      HeldStep(After(files, Before(steps)), Last(steps));
    }
  }

  // ----- Interference -----------------------------------------------------------------------------------

  predicate Of(step: Step, t: nat) {
    !step.Free? && !step.Purge? && step.t == t
  }

  predicate Marks(step: Step, v: nat) {
    (step.Mark? || step.Remark?) && step.v == v
  }

  predicate Unmarks(step: Step, v: nat) {
    step.Unmark? && step.v == v
  }

  /** How many steps it took up to and with the last one of thread `t`. */
  ghost function Since(steps: seq<Step>, t: nat): (n: nat)
    ensures n <= |steps|
    decreases |steps|
  {
    if steps == [] then 0 else if Of(Last(steps), t) then |steps| else Since(Before(steps), t)
  }

  /** What the steps from `from` on make of the flag of `v`, if it was `seen` before them: the
      last of them to mark or unmark the view decides. */
  ghost function Made(steps: seq<Step>, from: nat, v: nat, seen: bool): bool
    decreases |steps|
  {
    if |steps| <= from || steps == [] then seen
    else if Marks(Last(steps), v) then true
    else if Unmarks(Last(steps), v) then false
    else Made(Before(steps), from, v, seen)
  }

  /** Nobody comes between the test of a thread and what it does about it, except in pairs
      that leave the flag as the thread saw it (or, for a flusher, as it left it). */
  ghost predicate Undisturbed(before: seq<Step>, step: Step) {
    match step
    case Mark(t, v) => !Made(before, Since(before, t), v, false)
    case Remark(t, v) => !Made(before, Since(before, t), v, false)
    case Unmark(t, v) => Made(before, Since(before, t), v, true)
    case _ => true
  }

  ghost predicate Orderly(steps: seq<Step>)
    decreases |steps|
  {
    steps == [] || (Orderly(Before(steps)) && Undisturbed(Before(steps), Last(steps)))
  }

  function Expects(u: Use): bool {
    u.SawDirty?
  }

  lemma TrackedStep(m: Machine, step: Step, t: nat)
    requires Good(m) && Enabled(m, step) && t in m.uses && !Of(step, t)
    ensures var n, v := Next(m, step), m.uses[t].v;
            && t in n.uses && n.uses[t] == m.uses[t] && v in m.s.vacbs && v in n.s.vacbs
            && n.s.vacbs[v].dirty == if Marks(step, v) then true else if Unmarks(step, v) then false else m.s.vacbs[v].dirty
  {
    hide Inv, HeldByThreads, Mapped, InsertAt, Slot;
    UserHolds(m, t);
    UnusedOrNot(m.s, m.uses[t].v);
  }

  /** A view somebody holds is neither free nor purged. */
  lemma UnusedOrNot(s: State, v: nat)
    requires Inv(s) && v in s.held && v in s.vacbs
    ensures s.vacbs[v].refs >= 2 && InUse(s.vacbs[v])
  {
    hide Inv;
    Unused(s, v);
    InUseIsHeld(s, v);
  }

  lemma OwnStep(m: Machine, step: Step, t: nat)
    requires Good(m) && Enabled(m, step) && Of(step, t) && t in Next(m, step).uses && !Next(m, step).uses[t].Holding?
    ensures var n := Next(m, step); n.uses[t].v in n.s.vacbs && n.s.vacbs[n.uses[t].v].dirty == Expects(n.uses[t])
  {
    hide Inv, HeldByThreads, Mapped;
  }

  /** The flag a thread will find is what the steps since its test have made of it. */
  lemma {:induction false} FlagIs(files: set<nat>, steps: seq<Step>, t: nat)
    requires Runs(files, steps) && Throughout(files, steps)
    requires t in After(files, steps).uses && !After(files, steps).uses[t].Holding?
    ensures var m := After(files, steps);
            var u := m.uses[t];
            u.v in m.s.vacbs && m.s.vacbs[u.v].dirty == Made(steps, Since(steps, t), u.v, Expects(u))
    decreases |steps|
  {
    hide Inv, Next, Enabled, Good, HeldByThreads;
    if steps != [] {
      var before, step := Before(steps), Last(steps);
      GoodRun(files, before);
      var m := After(files, before);
      if Of(step, t) {
        OwnStep(m, step, t);
      } else {
        KeptUse(m, step, t);
        TrackedStep(m, step, t);
        FlagIs(files, before, t);
      }
    } else {
      NoUses(files);
    }
  }

  lemma NoUses(files: set<nat>)
    ensures Empty(files).uses == map[]
  {
  }

  /** Only its own steps change what a thread is doing. */
  lemma KeptUse(m: Machine, step: Step, t: nat)
    requires Enabled(m, step) && !Of(step, t) && t in Next(m, step).uses
    ensures t in m.uses
  {
  }

  /** The invariant holds in every state of a run if and only if nobody came between a test
      and what was done about it: between the clean test of a release and its mark, between
      the dirty test of a flush and its unmark, or between a flush's unmark and its marking
      again. */
  lemma {:induction false} InvIffOrderly(files: set<nat>, steps: seq<Step>)
    requires Runs(files, steps)
    ensures Throughout(files, steps) <==> Orderly(steps)
    decreases |steps|
  {
    hide Inv, Next, Enabled, Good, HeldByThreads, AsTested, Undisturbed;
    if steps != [] {
      var before, step := Before(steps), Last(steps);
      InvIffOrderly(files, before);
      if Orderly(before) {
        GoodRun(files, before);
        InvStep(After(files, before), step);
        TestedIffUndisturbed(files, before, step);
      }
    } else {
      EmptyGood(files);
    }
  }

  lemma EmptyGood(files: set<nat>)
    ensures Inv(Empty(files).s)
  {
  }

  lemma TestedIffUndisturbed(files: set<nat>, before: seq<Step>, step: Step)
    requires Runs(files, before) && Throughout(files, before) && Enabled(After(files, before), step)
    ensures AsTested(After(files, before), step) <==> Undisturbed(before, step)
  {
    hide Runs, After, Throughout, Made, Since;
    match step {
      case Mark(t, v) => FlagIs(files, before, t);
      case Remark(t, v) => FlagIs(files, before, t);
      case Unmark(t, v) => FlagIs(files, before, t);
      case _ =>
    }
  }

  /** What holds in every run in which nobody was disturbed: the count equation, the dirty list and the
      totals, in all and by file; one view for a block; and a view can be freed if and only
      if it is clean and unheld, and is then on no list. */
  lemma EveryState(files: set<nat>, steps: seq<Step>, v: nat, w: nat, off: nat, f: nat)
    requires Runs(files, steps) && Orderly(steps)
    ensures var m := After(files, steps);
            var s := m.s;
            && s.total == VACB_PAGES * |s.dirty|
            && (f in s.pages ==> s.pages[f] == VACB_PAGES * |DirtyOf(s.vacbs, f)|)
            && (v in s.dirty <==> v in s.vacbs && s.vacbs[v].dirty)
            && (v in s.vacbs ==>
                  && s.vacbs[v].refs == 1 + (if s.vacbs[v].dirty then 1 else 0) + |Users(m.uses, v)|
                  && (Enabled(m, Free(v)) <==> !s.vacbs[v].dirty && v !in s.held)
                  && (Enabled(m, Free(v)) ==> Unlinked(Next(m, Free(v)).s, v))
                  && (w != v && w in s.vacbs && s.vacbs[w].file == s.vacbs[v].file ==>
                        !Covers(s.vacbs[v], off) || !Covers(s.vacbs[w], off)))
  {
    hide Runs, After, Throughout, Orderly, Unlinked, Freed, Placed, Ordered, LruFits, Users;
    InvIffOrderly(files, steps);
    GoodRun(files, steps);
    var m := After(files, steps);
    if v in m.s.vacbs {
      LinkedFile(m.s, v);
      Unused(m.s, v);
      if m.s.vacbs[v].refs < 2 {
        FreedInv(m.s, v);
      }
      if w in m.s.vacbs && m.s.vacbs[w].file == m.s.vacbs[v].file && Covers(m.s.vacbs[v], off) && Covers(m.s.vacbs[w], off) {
        OneView(m.s, v, w, off);
      }
    }
  }

  // ----- Runs that fail -----------------------------------------------------------------------------------

  lemma Extend(files: set<nat>, steps: seq<Step>, step: Step)
    requires Runs(files, steps) && Enabled(After(files, steps), step)
    ensures Runs(files, steps + [step]) && Before(steps + [step]) == steps
    ensures After(files, steps + [step]) == Next(After(files, steps), step)
  {
    hide Inv, Enabled, Next;
    assert Before(steps + [step]) == steps && Last(steps + [step]) == step;
  }

  /** Threads 0 and 2 use the view 1 of file 7, and all is well. */
  ghost predicate Both(steps: seq<Step>, dirty: bool, u0: Use, u2: Use) {
    && Runs({7}, steps) && Throughout({7}, steps) && Good(After({7}, steps))
    && var m := After({7}, steps);
    && m.uses == map[0 := u0, 2 := u2] && u0.v == 1 && u2.v == 1
    && There(m.s, 1) && m.s.vacbs[1].dirty == dirty
  }

  lemma BothStart()
    ensures Both([Link(0, 1, 7, 0), Reference(2, 1)], false, Holding(1), Holding(1))
  {
    hide Inv, HeldByThreads, InsertAt, Slot;
    var e := Empty({7});
    EmptyGood({7});
    assert Runs({7}, []) && After({7}, []) == e;
    var link := Link(0, 1, 7, 0);
    Extend({7}, [], link);
    assert [] + [link] == [link];
    HeldStep(e, link);
    InvStep(e, link);
    var m := After({7}, [link]);
    var join := Reference(2, 1);
    LinkedFile(m.s, 1);
    Extend({7}, [link], join);
    assert [link] + [join] == [link, join];
    HeldStep(m, join);
    InvStep(m, join);
    UserHolds(Next(m, join), 0);
  }

  lemma BothStep(steps: seq<Step>, dirty: bool, u0: Use, u2: Use, step: Step, dirty': bool, u0': Use, u2': Use)
    requires Both(steps, dirty, u0, u2) && Enabled(After({7}, steps), step) && AsTested(After({7}, steps), step)
    requires var n := Next(After({7}, steps), step);
             n.uses == map[0 := u0', 2 := u2'] && u0'.v == 1 && u2'.v == 1 && 1 in n.s.vacbs && n.s.vacbs[1].dirty == dirty'
    ensures Both(steps + [step], dirty', u0', u2')
  {
    hide Inv, HeldByThreads, Next, Enabled, AsTested, Runs, After;
    var m := After({7}, steps);
    Extend({7}, steps, step);
    HeldStep(m, step);
    InvStep(m, step);
    UserHolds(Next(m, step), 0);
  }

  lemma BothBreak(steps: seq<Step>, dirty: bool, u0: Use, u2: Use, step: Step)
    requires Both(steps, dirty, u0, u2) && Enabled(After({7}, steps), step) && !AsTested(After({7}, steps), step)
    ensures Runs({7}, steps + [step]) && !Inv(After({7}, steps + [step]).s) && !Orderly(steps + [step])
  {
    hide Inv, HeldByThreads, Next, Enabled, AsTested, Runs, After, Orderly;
    Extend({7}, steps, step);
    InvStep(After({7}, steps), step);
    assert !Throughout({7}, steps + [step]);
    InvIffOrderly({7}, steps + [step]);
  }

  /** Two holders release the view dirty, and both find it clean before either marks it. */
  lemma TwoReleases()
    ensures var steps := [Link(0, 1, 7, 0), Reference(2, 1), TestClean(0, 1), TestClean(2, 1), Mark(0, 1), Mark(2, 1)];
            Runs({7}, steps) && !Inv(After({7}, steps).s) && !Orderly(steps)
  {
    hide Inv, HeldByThreads, Throughout, Good, Runs, After, Orderly;
    BothStart();
    var s2 := [Link(0, 1, 7, 0), Reference(2, 1)];
    BothStep(s2, false, Holding(1), Holding(1), TestClean(0, 1), false, SawClean(1), Holding(1));
    var s3 := s2 + [TestClean(0, 1)];
    BothStep(s3, false, SawClean(1), Holding(1), TestClean(2, 1), false, SawClean(1), SawClean(1));
    var s4 := s3 + [TestClean(2, 1)];
    BothStep(s4, false, SawClean(1), SawClean(1), Mark(0, 1), true, Holding(1), SawClean(1));
    var s5 := s4 + [Mark(0, 1)];
    BothBreak(s5, true, Holding(1), SawClean(1), Mark(2, 1));
    assert s5 + [Mark(2, 1)]
        == [Link(0, 1, 7, 0), Reference(2, 1), TestClean(0, 1), TestClean(2, 1), Mark(0, 1), Mark(2, 1)];
  }

  /** A flush has unmarked the view, a holder marks it, and the flush fails and marks it
      again. */
  lemma FailedFlush()
    ensures var steps := [Link(0, 1, 7, 0), Reference(2, 1), TestClean(0, 1), Mark(0, 1), TestDirty(0, 1), Unmark(0, 1),
                          TestClean(2, 1), Mark(2, 1), Remark(0, 1)];
            Runs({7}, steps) && !Inv(After({7}, steps).s) && !Orderly(steps)
  {
    hide Inv, HeldByThreads, Throughout, Good, Runs, After, Orderly;
    var s5 := MarkedOnce();
    BothStep(s5, true, SawDirty(1), Holding(1), Unmark(0, 1), false, Flushing(1), Holding(1));
    var s6 := s5 + [Unmark(0, 1)];
    BothStep(s6, false, Flushing(1), Holding(1), TestClean(2, 1), false, Flushing(1), SawClean(1));
    var s7 := s6 + [TestClean(2, 1)];
    BothStep(s7, false, Flushing(1), SawClean(1), Mark(2, 1), true, Flushing(1), Holding(1));
    var s8 := s7 + [Mark(2, 1)];
    BothBreak(s8, true, Flushing(1), Holding(1), Remark(0, 1));
    assert s8 + [Remark(0, 1)] == [Link(0, 1, 7, 0), Reference(2, 1), TestClean(0, 1), Mark(0, 1), TestDirty(0, 1),
                                   Unmark(0, 1), TestClean(2, 1), Mark(2, 1), Remark(0, 1)];
  }

  lemma MarkedOnce() returns (steps: seq<Step>)
    ensures steps == [Link(0, 1, 7, 0), Reference(2, 1), TestClean(0, 1), Mark(0, 1), TestDirty(0, 1)]
    ensures Both(steps, true, SawDirty(1), Holding(1))
  {
    hide Inv, HeldByThreads, Throughout, Good, Runs, After, Orderly;
    BothStart();
    var s2 := [Link(0, 1, 7, 0), Reference(2, 1)];
    BothStep(s2, false, Holding(1), Holding(1), TestClean(0, 1), false, SawClean(1), Holding(1));
    var s3 := s2 + [TestClean(0, 1)];
    BothStep(s3, false, SawClean(1), Holding(1), Mark(0, 1), true, Holding(1), Holding(1));
    var s4 := s3 + [Mark(0, 1)];
    BothStep(s4, true, Holding(1), Holding(1), TestDirty(0, 1), true, SawDirty(1), Holding(1));
    steps := s4 + [TestDirty(0, 1)];
  }

  /** A flush of the file and the lazy writer's find the view dirty before either unmarks it.
      (Two flushes of the file would wait for each other.) */
  lemma TwoFlushes()
    ensures var steps := [Link(0, 1, 7, 0), Reference(2, 1), TestClean(0, 1), Mark(0, 1), TestDirty(0, 1), TestDirty(2, 1),
                          Unmark(0, 1), Unmark(2, 1)];
            Runs({7}, steps) && !Inv(After({7}, steps).s) && !Orderly(steps)
  {
    hide Inv, HeldByThreads, Throughout, Good, Runs, After, Orderly;
    var s5 := MarkedOnce();
    BothStep(s5, true, SawDirty(1), Holding(1), TestDirty(2, 1), true, SawDirty(1), SawDirty(1));
    var s6 := s5 + [TestDirty(2, 1)];
    BothStep(s6, true, SawDirty(1), SawDirty(1), Unmark(0, 1), false, Flushing(1), SawDirty(1));
    var s7 := s6 + [Unmark(0, 1)];
    BothBreak(s7, false, Flushing(1), SawDirty(1), Unmark(2, 1));
    assert s7 + [Unmark(2, 1)] == [Link(0, 1, 7, 0), Reference(2, 1), TestClean(0, 1), Mark(0, 1), TestDirty(0, 1),
                                   TestDirty(2, 1), Unmark(0, 1), Unmark(2, 1)];
  }
}
