/** The ascending vectors of (id, version) pairs that Serval, Serval_RC and Caracal search and insert into, and the map
    from ids to versions that each of them stands for. */
module SortedSlots {
  type VersionId = nat  // the address of a version

  datatype Slot = Slot(id: int, ver: VersionId)

  predicate Ascending(s: seq<Slot>) {
    forall i, j :: 0 <= i < j < |s| ==> s[i].id < s[j].id
  }

  // What the vector holds; an ascending vector holds one slot per id, so this is a map from ids to versions.
  function Contents(s: seq<Slot>): set<Slot> {
    set x | x in s
  }

  predicate HasId(m: set<Slot>, id: int) {
    exists x :: x in m && x.id == id
  }

  // Where std::upper_bound points in an ascending vector: behind every id up to the given one.
  predicate IsUpperBound(s: seq<Slot>, id: int, k: nat) {
    && k <= |s|
    && (forall i :: 0 <= i < k ==> s[i].id <= id)
    && forall i :: k <= i < |s| ==> id < s[i].id
  }

  // Where std::upper_bound points when it is given <= for <: behind every smaller id.
  predicate IsLowerBound(s: seq<Slot>, id: int, k: nat) {
    && k <= |s|
    && (forall i :: 0 <= i < k ==> s[i].id < id)
    && forall i :: k <= i < |s| ==> id <= s[i].id
  }

  function UpperBound(s: seq<Slot>, id: int): (k: nat)
    requires Ascending(s)
    ensures IsUpperBound(s, id, k)
  {
    if s == [] then 0
    else if s[|s| - 1].id <= id then |s|
    else
      var front := s[..|s| - 1];
      UpperBound(front, id)
  }

  function LowerBound(s: seq<Slot>, id: int): (k: nat)
    requires Ascending(s)
    ensures IsLowerBound(s, id, k)
  {
    if s == [] then 0
    else if s[|s| - 1].id < id then |s|
    else
      var front := s[..|s| - 1];
      LowerBound(front, id)
  }

  lemma UpperBoundIs(s: seq<Slot>, id: int, k: nat)
    requires Ascending(s) && IsUpperBound(s, id, k)
    ensures k == UpperBound(s, id)
  {
    var u := UpperBound(s, id);
    assert k < |s| ==> id < s[k].id;
    assert u < |s| ==> id < s[u].id;
  }

  lemma LowerBoundIs(s: seq<Slot>, id: int, k: nat)
    requires Ascending(s) && IsLowerBound(s, id, k)
    ensures k == LowerBound(s, id)
  {
    var u := LowerBound(s, id);
    assert k < |s| ==> id <= s[k].id;
    assert u < |s| ==> id <= s[u].id;
  }

  function Inserted(s: seq<Slot>, slot: Slot): seq<Slot>
    requires Ascending(s)
  {
    var k := UpperBound(s, slot.id);
    s[..k] + [slot] + s[k..]
  }

  // x is the slot with the greatest id below the bound.
  predicate GreatestBelow(m: set<Slot>, bound: int, x: Slot) {
    x in m && x.id < bound && forall y :: y in m && y.id < bound ==> y.id <= x.id
  }

  predicate NoneBelow(m: set<Slot>, bound: int) {
    forall y :: y in m ==> bound <= y.id
  }

  // Inserting at the upper bound adds the slot, and keeps the vector ascending exactly when the id is new.
  lemma InsertedOk(s: seq<Slot>, slot: Slot)
    requires Ascending(s)
    ensures Contents(Inserted(s, slot)) == Contents(s) + {slot}
    ensures Ascending(Inserted(s, slot)) <==> !HasId(Contents(s), slot.id)
  {
    var k, r := UpperBound(s, slot.id), Inserted(s, slot);
    if HasId(Contents(s), slot.id) {
      var x :| x in s && x.id == slot.id;
      var i :| 0 <= i < |s| && s[i] == x;
      assert r[i].id == slot.id == r[k].id && i < k;
    } else {
      forall i | 0 <= i < |s| ensures s[i].id != slot.id { assert s[i] in Contents(s); }
      forall i, j | 0 <= i < j < |r| ensures r[i].id < r[j].id {
        assert i < k ==> r[i] == s[i];
        assert j > k ==> r[j] == s[j - 1];
      }
    }
    InsertAnywhere(s, slot, k);
  }

  lemma InsertAnywhere(s: seq<Slot>, slot: Slot, k: nat)
    requires k <= |s|
    ensures Contents(s[..k] + [slot] + s[k..]) == Contents(s) + {slot}
  {
    assert s == s[..k] + s[k..];
  }

  // What lies before the lower bound has the greatest id below the bound; at the front there is none.
  lemma SearchIsGreatest(s: seq<Slot>, bound: int)
    requires Ascending(s)
    ensures var k := LowerBound(s, bound);
            if k == 0 then NoneBelow(Contents(s), bound) else GreatestBelow(Contents(s), bound, s[k - 1])
  {
  }

  lemma SearchHits(s: seq<Slot>, bound: int, o: Slot) returns (y: Slot)
    requires Ascending(s) && o in Contents(s) && o.id < bound
    ensures LowerBound(s, bound) > 0 && y == s[LowerBound(s, bound) - 1] && GreatestBelow(Contents(s), bound, y)
  {
    SearchIsGreatest(s, bound);
    y := s[LowerBound(s, bound) - 1];
  }

  // The search is exact.
  lemma SearchExact(s: seq<Slot>, bound: int, x: Slot)
    requires Ascending(s)
    ensures GreatestBelow(Contents(s), bound, x) ==> LowerBound(s, bound) > 0 && s[LowerBound(s, bound) - 1] == x
    ensures NoneBelow(Contents(s), bound) ==> LowerBound(s, bound) == 0
  {
    SearchIsGreatest(s, bound);
    var k := LowerBound(s, bound);
    if GreatestBelow(Contents(s), bound, x) {
      var i :| 0 <= i < |s| && s[i] == x;
    }
    assert k > 0 ==> s[k - 1] in Contents(s);
  }

  // A slot of the vector is found by its own id.
  lemma FoundById(s: seq<Slot>, x: Slot)
    requires Ascending(s) && x in s
    ensures LowerBound(s, x.id) < |s| && s[LowerBound(s, x.id)] == x
  {
    var i :| 0 <= i < |s| && s[i] == x;
    LowerBoundIs(s, x.id, i);
  }

  // The vector is determined by what it holds.
  lemma {:induction false} AscendingUnique(a: seq<Slot>, b: seq<Slot>)
    requires Ascending(a) && Ascending(b) && Contents(a) == Contents(b)
    ensures a == b
  {
    Emptiness(a);
    Emptiness(b);
    if a != [] {
      var x, y := a[|a| - 1], b[|b| - 1];
      assert x in Contents(b) && y in Contents(a);
      LastIsGreatest(a, y);
      LastIsGreatest(b, x);
      WithoutLast(a);
      WithoutLast(b);
      AscendingUnique(a[..|a| - 1], b[..|b| - 1]);
      assert a == a[..|a| - 1] + [x] && b == b[..|b| - 1] + [y];
    }
  }

  lemma Emptiness(a: seq<Slot>)
    ensures a == [] <==> Contents(a) == {}
  {
    if a != [] { assert a[0] in Contents(a); }
  }

  lemma LastIsGreatest(a: seq<Slot>, x: Slot)
    requires Ascending(a) && x in a
    ensures x.id <= a[|a| - 1].id && (x.id == a[|a| - 1].id ==> x == a[|a| - 1])
  {
  }

  lemma WithoutLast(a: seq<Slot>)
    requires Ascending(a) && a != []
    ensures Contents(a[..|a| - 1]) == Contents(a) - {a[|a| - 1]}
  {
    assert a == a[..|a| - 1] + [a[|a| - 1]];
  }
}
