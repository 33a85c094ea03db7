/** The classes of `serval/include/row_region.hpp`, updated in place, each method tied to the functions on values. */
module ServalArrays {
  import opened SortedSlots
  import opened Bitmap
  import opened BitmapSearch
  import opened ServalRegion
  import Ops = ServalRowOps

  datatype SearchResult = NotFound | FoundAt(slot: Slot)

  class GlobalVersionArray {
    var slots: seq<Slot>

    constructor ()
      ensures slots == []
    {
      slots := [];
    }

    method SearchVisibleVersion(id: int) returns (r: SearchResult)
      requires Ascending(slots)
      ensures r.NotFound? <==> NoneBelow(Contents(slots), id)
      ensures r.FoundAt? ==> GreatestBelow(Contents(slots), id, r.slot)
    {
      SearchIsGreatest(slots, id);
      if |slots| == 0 || id <= slots[0].id {
        return NotFound;
      }
      var lo, hi := 0, |slots|;
      while lo < hi
        invariant lo <= hi <= |slots|
        invariant forall i :: 0 <= i < lo ==> slots[i].id < id
        invariant forall i :: hi <= i < |slots| ==> id <= slots[i].id
      {
        var mid := (lo + hi) / 2;
        if id <= slots[mid].id { hi := mid; } else { lo := mid + 1; }
      }
      LowerBoundIs(slots, id, lo);
      assert slots[lo - 1] in Contents(slots);
      r := FoundAt(slots[lo - 1]);
    }

    method Append(ver: VersionId, id: int)
      requires Ascending(slots) && !HasId(Contents(slots), id)
      modifies this
      ensures Ascending(slots) && Contents(slots) == old(Contents(slots)) + {Slot(id, ver)}
    {
      InsertedOk(slots, Slot(id, ver));
      var k := 0;
      while k < |slots| && slots[k].id <= id
        invariant k <= |slots| && forall i :: 0 <= i < k ==> slots[i].id <= id
      {
        k := k + 1;
      }
      UpperBoundIs(slots, id, k);
      slots := slots[..k] + [Slot(id, ver)] + slots[k..];
    }

    // Frees what is left, in order.
    method ClearMemory() returns (freed: seq<VersionId>)
      modifies this
      ensures slots == [] && freed == Ops.Vers(old(slots))
    {
      freed := [];
      var i := 0;
      while i < |slots|
        invariant i <= |slots| && slots == old(slots) && freed == Ops.Vers(slots[..i])
      {
        assert slots[..i + 1][..i] == slots[..i];
        freed := freed + [slots[i].ver];
        i := i + 1;
      }
      assert slots[..i] == slots;
      slots := [];
    }

    // Takes the last write out.
    method PopFinalState() returns (r: SearchResult)
      requires Ascending(slots)
      modifies this
      ensures Ascending(slots) && (r.NotFound? <==> old(slots) == [])
      ensures r.NotFound? ==> slots == []
      ensures r.FoundAt? ==> old(slots) == slots + [r.slot] && Ops.IsLast(old(Contents(slots)), r.slot)
    {
      if |slots| == 0 {
        return NotFound;
      }
      r := FoundAt(slots[|slots| - 1]);
      assert slots[|slots| - 1] in Contents(slots);
      slots := slots[..|slots| - 1];
    }
  }

  class PerCoreVersionArray {
    var bitmap: Word
    var slots: seq<VersionId>

    constructor ()
      ensures Value() == CoreArray(Zero(), [])
    {
      bitmap, slots := Zero(), [];
    }

    function Value(): CoreArray
      reads this
    {
      CoreArray(bitmap, slots)
    }

    method Append(ver: VersionId, tx: nat)
      requires CoreOk(Value()) && tx < WIDTH && !bitmap[tx]
      modifies this
      ensures Value() == CoreAppended(old(Value()), ver, tx) && CoreOk(Value())
    {
      CoreAppendedOk(Value(), ver, tx);
      var len := PopCount(bitmap);
      slots := slots[..len] + [ver] + slots[len..];
      bitmap := WithBit(bitmap, tx);
      assert slots == old(slots) + [ver];
    }

    // The last version; its bit stays set.
    method PopLatest() returns (tx: nat, ver: VersionId)
      requires CoreOk(Value()) && bitmap != Zero()
      modifies this
      ensures bitmap == old(bitmap) && old(slots) == slots + [ver]
      ensures tx < WIDTH && bitmap[tx] && ver == old(Get(Value(), tx)) && forall i :: tx < i < WIDTH ==> !bitmap[i]
    {
      NonEmptySlots(Value());
      tx := FindLargest(bitmap);
      ver := slots[|slots| - 1];
      GetIsRank(Value(), tx);
      RankGrows(bitmap, tx + 1, WIDTH);
      MaskedCount(bitmap, tx);
      slots := slots[..|slots| - 1];
    }

    method ClearMemory() returns (freed: seq<VersionId>)
      modifies this
      ensures Value() == CoreArray(Zero(), []) && freed == old(slots)
    {
      freed := slots;
      bitmap, slots := Zero(), [];
    }
  }

  class RowRegion {
    var cores: Word
    const arrays: seq<PerCoreVersionArray>

    ghost predicate Shape() {
      |arrays| == WIDTH && forall i, j :: 0 <= i < j < WIDTH ==> arrays[i] != arrays[j]
    }

    ghost function Value(): (g: Region)
      reads this, arrays
    {
      Region(cores, seq(|arrays|, c requires 0 <= c < |arrays| reads arrays => arrays[c].Value()))
    }

    constructor (arrays: seq<PerCoreVersionArray>)
      requires |arrays| == WIDTH && forall i, j :: 0 <= i < j < WIDTH ==> arrays[i] != arrays[j]
      ensures Shape() && this.arrays == arrays && cores == Zero()
    {
      this.arrays := arrays;
      cores := Zero();
    }

    method Identify(core: nat, tx: nat) returns (r: Found)
      requires Shape() && RegionOk(Value()) && cores != Zero() && core < WIDTH && tx < WIDTH
      ensures r == IdentifyVisible(Value(), core, tx)
    {
      var two := FindTwoLargestUpTo(cores, core);
      ghost var words := Words(Value());
      if two.first == -1 { return Nothing; }
      if two.first == core {
        assert words[core] == arrays[core].bitmap;
        var first := FindLargestBelow(arrays[core].bitmap, tx);
        if first != -1 { return At(core, first); }
        if two.second != -1 {
          assert words[two.second] == arrays[two.second].bitmap;
          return At(two.second, FindLargest(arrays[two.second].bitmap));
        }
        return Nothing;
      }
      assert words[two.first] == arrays[two.first].bitmap;
      return At(two.first, FindLargest(arrays[two.first].bitmap));
    }

    // The first write of a core clears its array; what it still held is freed.
    method Append(core: nat, ver: VersionId, tx: nat) returns (freed: seq<VersionId>)
      requires Shape() && RegionOk(Value()) && core < WIDTH && tx < WIDTH && Follows(Value(), core, tx)
      modifies this, arrays[core]
      ensures RegionOk(Value()) && Value() == RegionAppended(old(Value()), core, ver, tx)
      ensures freed == if old(cores[core]) then [] else old(arrays[core].slots)
    {
      RegionAppendedOk(Value(), core, ver, tx);
      ghost var g := Value();
      assert g.arrays[core] == arrays[core].Value();
      freed := [];
      if !IsSet(cores, core) {
        freed := arrays[core].ClearMemory();
        PopCountZero(Zero());
        cores := WithBit(cores, core);
      }
      assert cores == WithBit(old(cores), core);
      arrays[core].Append(ver, tx);
      forall c | 0 <= c < WIDTH && c != core ensures arrays[c].Value() == g.arrays[c] { }
      assert Value().arrays == RegionAppended(g, core, ver, tx).arrays;
    }

    method PopFinalState() returns (ver: VersionId)
      requires Shape() && RegionOk(Value()) && cores != Zero()
      modifies arrays
      ensures ver == FinalVersion(old(Value())) && cores == old(cores)
      ensures var c := LastCore(old(Value()));
              && old(arrays[c].slots) == arrays[c].slots + [ver] && arrays[c].bitmap == old(arrays[c].bitmap)
              && forall d :: 0 <= d < WIDTH && d != c ==> arrays[d].Value() == old(arrays[d].Value())
    {
      var core := FindLargest(cores);
      assert Value().arrays[core] == arrays[core].Value();
      var tx;
      tx, ver := arrays[core].PopLatest();
    }
  }

  // One round of the move: slots[..i] is in the region, slots[i..] is still to come.
  ghost predicate Moving(g: Region, slots: seq<Slot>, i: nat) {
    && i <= |slots| && Ascending(slots) && IdsOk(slots) && RegionOk(g) && Stands(g, Contents(slots[..i]))
    && Moved(g, slots[i..]) == Moved(FreshRegion(), slots)
  }

  lemma MoveStep(g: Region, slots: seq<Slot>, i: nat, g': Region)
    requires Moving(g, slots, i) && i < |slots|
    requires g' == RegionAppended(g, slots[i].id / WIDTH, slots[i].ver, slots[i].id % WIDTH)
    ensures Follows(g, slots[i].id / WIDTH, slots[i].id % WIDTH) && Moving(g', slots, i + 1)
  {
    var x, rest, m := slots[i], slots[i..], Contents(slots[..i]);
    assert rest[0] == x && rest[1..] == slots[i + 1..];
    AppendNext(g, m, x);
    assert slots[..i + 1] == slots[..i] + [x];
    assert Contents(slots[..i + 1]) == m + {x};
    assert Moved(g, rest) == Moved(g', rest[1..]);
  }

  // move_global_array_to_row_region
  method MoveGlobalArrayToRowRegion(source: GlobalVersionArray, region: RowRegion)
    requires region.Shape() && RegionOk(region.Value()) && region.Value() == FreshRegion()
    requires Ascending(source.slots) && IdsOk(source.slots)
    modifies source, region, region.arrays
    ensures source.slots == [] && region.Value() == Moved(FreshRegion(), old(source.slots))
    ensures RegionOk(region.Value()) && Stands(region.Value(), Contents(old(source.slots)))
  {
    ghost var slots := source.slots;
    var i := 0;
    assert slots[0..] == slots && slots[..0] == [] && Contents([]) == {};
    while i < |source.slots|
      invariant source.slots == slots && Moving(region.Value(), slots, i)
    {
      var x := source.slots[i];
      assert x in slots;
      MoveStep(region.Value(), slots, i, RegionAppended(region.Value(), x.id / WIDTH, x.ver, x.id % WIDTH));
      var freed := region.Append(x.id / WIDTH, x.ver, x.id % WIDTH);
      i := i + 1;
    }
    assert slots[i..] == [] && slots[..i] == slots;
    source.slots := [];
  }
}
