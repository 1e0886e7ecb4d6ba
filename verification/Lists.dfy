/** What several of the kernel's lists have in common. */
module Lists {

  datatype Option<T> = None | Some(value: T)

  ghost predicate NoDuplicates(q: seq<nat>) {
    forall i, j :: 0 <= i < j < |q| ==> q[i] != q[j]
  }

  function Elements(q: seq<nat>): set<nat> {
    set x | x in q
  }

  /** `q` without its entry at `k`. */
  function Cut(q: seq<nat>, k: nat): (r: seq<nat>)
    requires k < |q|
    ensures |r| == |q| - 1
  {
    q[..k] + q[k + 1..]
  }

  /** RemoveEntryList: `q` without the first `a`. */
  function Remove(q: seq<nat>, a: nat): seq<nat> {
    if q == [] then [] else if q[0] == a then q[1..] else [q[0]] + Remove(q[1..], a)
  }

  lemma {:induction false} RemoveMembers(q: seq<nat>, a: nat)
    requires NoDuplicates(q)
    ensures NoDuplicates(Remove(q, a))
    ensures forall b :: b in Remove(q, a) <==> b in q && b != a
    ensures |Remove(q, a)| == |q| - if a in q then 1 else 0
  {
    if q != [] {
      assert q == [q[0]] + q[1..];
      if q[0] != a {
        RemoveMembers(q[1..], a);
        assert q[0] !in Remove(q[1..], a);
      }
    }
  }

  lemma AppendDistinct(q: seq<nat>, a: nat)
    requires NoDuplicates(q) && a !in q
    ensures NoDuplicates(q + [a])
  {
  }

  /** Where the first `a` stands; the length if nowhere. */
  function Place(q: seq<nat>, a: nat): (p: nat)
    ensures p <= |q| && (a in q <==> p < |q|) && (p < |q| ==> q[p] == a)
  {
    if q == [] || q[0] == a then 0 else 1 + Place(q[1..], a)
  }

  lemma {:induction false} RemoveIsCut(q: seq<nat>, k: nat)
    requires NoDuplicates(q) && k < |q|
    ensures Remove(q, q[k]) == Cut(q, k)
  {
    if k > 0 {
      RemoveIsCut(q[1..], k - 1);
      assert q[1..][k - 1] == q[k];
    }
  }

  lemma {:induction false} RemoveAt(q: seq<nat>, a: nat, i: nat)
    requires i < |Remove(q, a)|
    ensures |q| > i && (i >= Place(q, a) ==> |q| > i + 1)
    ensures Remove(q, a)[i] == q[if i < Place(q, a) then i else i + 1]
  {
    if q[0] != a && i > 0 {
      RemoveAt(q[1..], a, i - 1);
    }
  }
}
