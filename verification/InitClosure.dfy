/** Which resident functions of the kernel image could move to the discardable INIT
    section: the filters and the closure of tools/find-init-candidates.py. */
module InitClosure {

  type Name = string

  datatype Section = Text | Init | Other

  /** `fixed` is set for functions on the deny list, exported, or not relocatable; `taken`
      if the address occurs as an immediate or in data. */
  datatype Function = Function(section: Section, fixed: bool, hasRet: bool, taken: bool, callers: set<Name>)

  type Program = map<Name, Function>

  // ----- One scan -------------------------------------------------------------------------------

  predicate IsInit(p: Program, n: Name) {
    n in p && p[n].section == Init
  }

  /** Filters 1 to 3. */
  predicate Eligible(p: Program, n: Name) {
    && n in p && p[n].section == Text && !p[n].fixed && p[n].hasRet && !p[n].taken
    && p[n].callers != {}
  }

  function EligibleSet(p: Program): set<Name> {
    set n | n in p && Eligible(p, n)
  }

  /** Filter 4: every caller is in INIT or chosen. */
  predicate CallersInit(p: Program, callers: set<Name>, chosen: set<Name>) {
    forall c | c in callers :: IsInit(p, c) || c in chosen
  }

  /** What one scan picks when `chosen` counts as INIT already. */
  function Picks(p: Program, chosen: set<Name>): set<Name> {
    set n | n in p && Eligible(p, n) && CallersInit(p, p[n].callers, chosen)
  }

  /** The image relinked with `moved` in INIT: calls and address references stay. */
  function Relinked(p: Program, moved: set<Name>): Program {
    map n | n in p :: if n in moved then p[n].(section := Init) else p[n]
  }

  // ----- The least fixpoint ------------------------------------------------------------------------

  ghost predicate IsLeast(p: Program, chosen: set<Name>) {
    && Picks(p, chosen) == chosen
    && forall other :: Picks(p, other) <= other ==> chosen <= other
  }

  lemma PicksMonotone(p: Program, x: set<Name>, y: set<Name>)
    requires x <= y
    ensures Picks(p, x) <= Picks(p, y)
  {
  }

  /** There is only one least fixpoint, so no order of iteration matters. */
  lemma LeastUnique(p: Program, x: set<Name>, y: set<Name>)
    requires IsLeast(p, x) && IsLeast(p, y)
    ensures x == y
  {
    hide Picks;
  }

  /** Functions that only call each other in a circle outside INIT are never chosen. */
  lemma CyclesStay(p: Program, chosen: set<Name>, circle: set<Name>)
    requires IsLeast(p, chosen)
    requires forall n :: n in circle ==> n in p && exists c :: c in p[n].callers && c in circle && !IsInit(p, c)
    ensures chosen !! circle
  {
    hide Picks, IsInit;
    var rest := chosen - circle;
    PicksMonotone(p, rest, chosen);
    forall n | n in Picks(p, rest) ensures n !in circle {
      PickOutside(p, rest, circle, n);
    }
    assert Picks(p, rest) <= rest;
  }

  lemma PickOutside(p: Program, rest: set<Name>, circle: set<Name>, n: Name)
    requires rest !! circle && n in Picks(p, rest)
    requires n in circle ==> n in p && exists c :: c in p[n].callers && c in circle && !IsInit(p, c)
    ensures n !in circle
  {
    hide IsInit;
  }

  /** Every caller of a chosen function is in INIT or chosen, and the function has one. */
  lemma CallersCovered(p: Program, chosen: set<Name>, n: Name, c: Name)
    requires IsLeast(p, chosen) && n in chosen
    ensures n in p && p[n].callers != {} && p[n].section == Text
    ensures c in p[n].callers ==> IsInit(p, c) || c in chosen
  {
    assert n in Picks(p, chosen);
  }

  /** Who is chosen, flag by flag: a resident function that may be moved, returns, has its
      address taken nowhere, is called, and only from INIT or from chosen functions. */
  lemma ChosenIff(p: Program, chosen: set<Name>, n: Name)
    requires IsLeast(p, chosen)
    ensures n in chosen <==>
              && n in p && p[n].section == Text && !p[n].fixed && p[n].hasRet && !p[n].taken && p[n].callers != {}
              && forall c :: c in p[n].callers ==> (c in p && p[c].section == Init) || c in chosen
  {
    assert n in chosen <==> n in Picks(p, chosen);
  }

  /** And no set that is closed in the same way leaves one of them out. */
  lemma ChosenLeast(p: Program, chosen: set<Name>, other: set<Name>)
    requires IsLeast(p, chosen)
    requires forall n :: n in p && p[n].section == Text && !p[n].fixed && p[n].hasRet && !p[n].taken && p[n].callers != {} ==>
               (forall c :: c in p[n].callers ==> (c in p && p[c].section == Init) || c in other) ==> n in other
    ensures chosen <= other
  {
    assert Picks(p, other) <= other;
  }

  // ----- The closure loop ----------------------------------------------------------------------------

  /** Nothing is chosen without need: `chosen` is below every closed set. */
  ghost predicate Needed(p: Program, chosen: set<Name>) {
    chosen <= EligibleSet(p) && forall other :: Picks(p, other) <= other ==> chosen <= other
  }

  lemma PickNeeded(p: Program, chosen: set<Name>, n: Name)
    requires Needed(p, chosen) && n in Picks(p, chosen)
    ensures Needed(p, chosen + {n})
  {
    forall other | Picks(p, other) <= other ensures chosen + {n} <= other {
      PicksMonotone(p, chosen, other);
    }
  }

  lemma NeededClosed(p: Program, chosen: set<Name>)
    requires Needed(p, chosen) && Picks(p, chosen) <= chosen
    ensures IsLeast(p, chosen)
  {
    PicksMonotone(p, Picks(p, chosen), chosen);
    assert chosen <= Picks(p, chosen);
  }

  lemma FewerLeft(all: set<Name>, chosen: set<Name>, n: Name)
    requires n in all && n !in chosen
    ensures |all - (chosen + {n})| < |all - chosen|
  {
    assert all - (chosen + {n}) == all - chosen - {n};
    assert n in all - chosen;
  }

  /** One pass over the eligible functions, in place: what is chosen early helps later ones. */
  method Pass(p: Program, order: seq<Name>, before: set<Name>) returns (chosen: set<Name>, changed: bool)
    requires (forall n :: n in order <==> n in EligibleSet(p)) && Needed(p, before)
    ensures Needed(p, chosen) && before <= chosen
    ensures !changed ==> chosen == before && Picks(p, before) <= before
    ensures changed ==> |EligibleSet(p) - chosen| < |EligibleSet(p) - before|
  {
    hide Needed, CallersInit, Eligible;
    chosen, changed := before, false;
    for i := 0 to |order|
      invariant Needed(p, chosen) && before <= chosen
      invariant !changed ==> chosen == before && forall k :: 0 <= k < i && order[k] in Picks(p, before) ==> order[k] in before
      invariant changed ==> |EligibleSet(p) - chosen| < |EligibleSet(p) - before|
    {
      var n := order[i];
      EligibleIs(p, n);
      if n !in chosen && CallersInit(p, p[n].callers, chosen) {
        PickNeeded(p, chosen, n);
        FewerLeft(EligibleSet(p), chosen, n);
        chosen, changed := chosen + {n}, true;
      }
    }
    if !changed {
      forall n | n in Picks(p, before) ensures n in before {
        EligibleIs(p, n);
        assert n in order;
      }
    }
  }

  lemma EligibleIs(p: Program, n: Name)
    ensures n in EligibleSet(p) <==> Eligible(p, n)
    ensures Eligible(p, n) ==> n in p
  {
  }

  /** The --closure loop: it ends, with the least fixpoint, in whatever order the
      functions come. */
  method Closure(p: Program, order: seq<Name>) returns (chosen: set<Name>)
    requires forall n :: n in order <==> n in EligibleSet(p)
    ensures IsLeast(p, chosen)
  {
    hide Needed, Picks;
    NothingNeeded(p);
    chosen := {};
    var changed := true;
    while changed
      invariant Needed(p, chosen) && (changed || Picks(p, chosen) <= chosen)
      decreases |EligibleSet(p) - chosen|, changed
    {
      chosen, changed := Pass(p, order, chosen);
    }
    NeededClosed(p, chosen);
  }

  lemma NothingNeeded(p: Program)
    ensures Needed(p, {})
  {
  }

  // ----- Relinking and scanning again -------------------------------------------------------------------

  /** A scan of the relinked image picks what the closure would add, and nothing else. */
  lemma ScanAfterMove(p: Program, moved: set<Name>)
    requires moved <= EligibleSet(p)
    ensures Picks(Relinked(p, moved), {}) == Picks(p, moved) - moved
  {
    var q := Relinked(p, moved);
    forall c ensures IsInit(q, c) <==> IsInit(p, c) || c in moved {
    }
    forall n ensures Eligible(q, n) <==> Eligible(p, n) && n !in moved {
    }
  }

  lemma MoveMore(p: Program, x: set<Name>, y: set<Name>)
    ensures Relinked(Relinked(p, x), y) == Relinked(p, x + y)
  {
  }

  lemma PicksNeeded(p: Program, chosen: set<Name>)
    requires Needed(p, chosen)
    ensures Needed(p, chosen + Picks(p, chosen))
  {
    forall other | Picks(p, other) <= other ensures chosen + Picks(p, chosen) <= other {
      PicksMonotone(p, chosen, other);
    }
  }

  /** Scanning without --closure, moving what was found, relinking, and again until nothing
      is found: the same functions end up in INIT. */
  method RelinkUntilDone(p: Program) returns (moved: set<Name>)
    ensures IsLeast(p, moved) && Picks(Relinked(p, moved), {}) == {}
  {
    hide Needed, Picks, Relinked;
    moved := {};
    NothingNeeded(p);
    MoveNone(p);
    var q := p;
    var found := Picks(q, {});
    while found != {}
      invariant Needed(p, moved) && q == Relinked(p, moved) && found == Picks(q, {})
      decreases |EligibleSet(p) - moved|
    {
      NeededEligible(p, moved);
      ScanAfterMove(p, moved);
      PicksNeeded(p, moved);
      MoveMore(p, moved, found);
      assert moved + found == moved + Picks(p, moved);
      ghost var n :| n in found;
      LeftSmaller(EligibleSet(p), moved, found, n);
      moved := moved + found;
      q := Relinked(q, found);
      found := Picks(q, {});
    }
    NeededEligible(p, moved);
    ScanAfterMove(p, moved);
    NeededClosed(p, moved);
  }

  lemma MoveNone(p: Program)
    ensures Relinked(p, {}) == p
  {
  }

  lemma NeededEligible(p: Program, moved: set<Name>)
    requires Needed(p, moved)
    ensures moved <= EligibleSet(p) && Picks(p, moved) <= EligibleSet(p)
  {
  }

  lemma LeftSmaller(all: set<Name>, moved: set<Name>, found: set<Name>, n: Name)
    requires n in found && n in all && n !in moved
    ensures |all - (moved + found)| < |all - moved|
  {
    FewerLeft(all, moved, n);
    Shrinks(all - (moved + found), all - (moved + {n}));
  }

  lemma Shrinks(x: set<Name>, y: set<Name>)
    requires x <= y
    ensures |x| <= |y|
  {
    if x != {} {
      var n :| n in x;
      Shrinks(x - {n}, y - {n});
    }
  }

  /** The closure agrees with relinking and rescanning, for any two orders of iteration. */
  method ClosureAgrees(p: Program, order: seq<Name>, order': seq<Name>) returns (x: set<Name>, y: set<Name>, z: set<Name>)
    requires forall n :: n in order <==> n in EligibleSet(p)
    requires forall n :: n in order' <==> n in EligibleSet(p)
    ensures x == y == z
  {
    x := Closure(p, order);
    y := Closure(p, order');
    z := RelinkUntilDone(p);
    LeastUnique(p, x, y);
    LeastUnique(p, x, z);
  }
}
