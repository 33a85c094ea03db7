/** Version chains of `mvto.hpp` and `value.hpp`, newest version first: the lookup, the read timestamp and the pruning
    at a watermark. */
module MvtoChain {

  type TS = nat
  // A record pointer; 0 is the null pointer that a deleted version carries.
  type Rec = int

  datatype Version = Version(readTs: TS, writeTs: TS, rec: Rec, deleted: bool)

  // The place of the latest version with a write timestamp of at most ts, or |chain| if there is none.
  function Visible(chain: seq<Version>, ts: TS): (i: nat)
    ensures i <= |chain| && (forall j :: 0 <= j < i ==> ts < chain[j].writeTs)
    ensures (i < |chain| ==> chain[i].writeTs <= ts)
  {
    if chain == [] || chain[0].writeTs <= ts then 0 else 1 + Visible(chain[1..], ts)
  }

  lemma VisibleUnique(chain: seq<Version>, ts: TS, i: nat)
    requires i <= |chain| && (forall j :: 0 <= j < i ==> ts < chain[j].writeTs)
    requires (i < |chain| ==> chain[i].writeTs <= ts)
    ensures Visible(chain, ts) == i
  {
  }

  function WithReadTs(chain: seq<Version>, i: nat, ts: TS): seq<Version>
    requires i < |chain|
  {
    if ts < chain[i].readTs then chain else chain[i := chain[i].(readTs := ts)]
  }

  // The chain after pruning at watermark s: the version visible at s is kept, all older ones go.
  function Pruned(chain: seq<Version>, s: TS): seq<Version> {
    var i := Visible(chain, s);
    if i == |chain| then chain else chain[..i + 1]
  }

  datatype Lookup = Nothing | Found(version: Version)

  function LookupAt(chain: seq<Version>, ts: TS): Lookup {
    var i := Visible(chain, ts);
    if i == |chain| then Nothing else Found(chain[i])
  }

  // A prefix of a chain answers like the chain as long as it reaches far enough down.
  lemma VisibleInPrefix(chain: seq<Version>, n: nat, ts: TS)
    requires n <= |chain|
    ensures Visible(chain[..n], ts) == if Visible(chain, ts) < n then Visible(chain, ts) else n
  {
    var i := Visible(chain, ts);
    VisibleUnique(chain[..n], ts, if i < n then i else n);
  }

  // Pruning at s is invisible to every timestamp from s on; an older one finds the same version or none at all.
  lemma PruningIsInvisible(chain: seq<Version>, s: TS, ts: TS)
    ensures s <= ts ==> LookupAt(Pruned(chain, s), ts) == LookupAt(chain, ts)
    ensures LookupAt(Pruned(chain, s), ts) == LookupAt(chain, ts) || LookupAt(Pruned(chain, s), ts) == Nothing
  {
    var i := Visible(chain, s);
    if i < |chain| {
      VisibleInPrefix(chain, i + 1, ts);
      assert s <= ts ==> Visible(chain, ts) <= i;
    }
  }

  // Write timestamps fall strictly from the newest version to the oldest.
  predicate Falls(chain: seq<Version>) {
    forall i, j :: 0 <= i < j < |chain| ==> chain[i].writeTs > chain[j].writeTs
  }

  // The version found at ts is still in the chain after pruning at s, if and only if the watermark is not above ts or
  // no version was written after ts and up to the watermark.
  lemma FoundSurvivesIff(chain: seq<Version>, s: TS, ts: TS)
    requires Falls(chain) && Visible(chain, ts) < |chain|
    ensures Visible(chain, ts) < |Pruned(chain, s)| <==> s <= ts || forall v :: v in chain ==> !(ts < v.writeTs <= s)
  {
    var i, j := Visible(chain, s), Visible(chain, ts);
    if s <= ts {
      assert i < |chain| ==> chain[i].writeTs <= ts;
    } else if i < j {
      assert chain[i] in chain;
    } else {
      forall v | v in chain ensures !(ts < v.writeTs <= s) {
        var k :| 0 <= k < |chain| && chain[k] == v;
        assert k > j ==> chain[j].writeTs > chain[k].writeTs;
      }
    }
  }

  // Only a deletion is left.
  predicate IsRemoved(chain: seq<Version>)
    requires chain != []
  {
    chain[0].deleted && |chain| == 1
  }

  // A record's entry in the index: a lock and a version chain, updated in place.
  class Value {
    var locked: bool
    var chain: seq<Version>

    constructor (v: Version)
      ensures !locked && chain == [v]
    {
      locked, chain := false, [v];
    }

    method GetCorrectVersion(startTs: TS) returns (i: nat)
      ensures i == Visible(chain, startTs)
    {
      i := 0;
      while i < |chain| && startTs < chain[i].writeTs
        invariant i <= |chain| && forall j :: 0 <= j < i ==> startTs < chain[j].writeTs
      {
        i := i + 1;
      }
      VisibleUnique(chain, startTs, i);
    }

    method UpdateReadTs(i: nat, ts: TS)
      requires i < |chain|
      modifies this`chain
      ensures chain == WithReadTs(old(chain), i, ts)
    {
      var current := chain[i].readTs;
      if ts < current { return; }
      chain := chain[i := chain[i].(readTs := ts)];
    }

    // Returns the versions it frees: exactly the part of the chain that is cut off.
    method GcVersionChain(smallestTs: TS) returns (freed: seq<Version>)
      modifies this`chain
      ensures chain == Pruned(old(chain), smallestTs) && old(chain) == chain + freed
    {
      freed := [];
      var i := 0;
      while i < |chain| && smallestTs < chain[i].writeTs
        invariant i <= |chain| && forall j :: 0 <= j < i ==> smallestTs < chain[j].writeTs
      {
        i := i + 1;
      }
      VisibleUnique(chain, smallestTs, i);
      if i == |chain| { return; }
      var rest := chain[i + 1..];
      chain := chain[..i + 1];
      while rest != []
        invariant chain == Pruned(old(chain), smallestTs) && old(chain) == chain + freed + rest
      {
        freed := freed + [rest[0]];
        rest := rest[1..];
      }
    }
  }
}
