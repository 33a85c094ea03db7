/** Serval's row region (`serval/include/row_region.hpp`) on values: a bitmap of cores, and for every core a bitmap of
    transactions with one version slot per set bit. The version of transaction tx is found by counting the bits before
    it. */
module ServalRegion {
  import opened SortedSlots
  import opened Bitmap
  import opened BitmapSearch

  // The serial id of transaction tx of a core.
  function SerialId(core: nat, tx: nat): nat {
    core * WIDTH + tx
  }

  datatype CoreArray = CoreArray(bitmap: Word, slots: seq<VersionId>)

  predicate CoreOk(a: CoreArray) {
    |a.slots| == PopCount(a.bitmap)
  }

  // PerCoreVersionArray::get
  function Get(a: CoreArray, tx: nat): VersionId
    requires CoreOk(a) && tx < WIDTH && a.bitmap[tx]
  {
    MaskedCount(a.bitmap, tx);
    RankGrows(a.bitmap, tx + 1, WIDTH);
    a.slots[PopCount(And(a.bitmap, FillUntil(tx))) - 1]
  }

  lemma GetIsRank(a: CoreArray, tx: nat)
    requires CoreOk(a) && tx < WIDTH && a.bitmap[tx]
    ensures Rank(a.bitmap, tx) < |a.slots| && Get(a, tx) == a.slots[Rank(a.bitmap, tx)]
  {
    MaskedCount(a.bitmap, tx);
    RankGrows(a.bitmap, tx + 1, WIDTH);
  }

  // PerCoreVersionArray::append: always behind the last slot.
  function CoreAppended(a: CoreArray, ver: VersionId, tx: nat): CoreArray
    requires CoreOk(a) && tx < WIDTH
  {
    CoreArray(WithBit(a.bitmap, tx), a.slots + [ver])
  }

  predicate AllBefore(bitmap: Word, tx: nat) {
    forall i :: 0 <= i < WIDTH && bitmap[i] ==> i < tx
  }

  lemma CoreAppendedOk(a: CoreArray, ver: VersionId, tx: nat)
    requires CoreOk(a) && tx < WIDTH && !a.bitmap[tx]
    ensures CoreOk(CoreAppended(a, ver, tx))
  {
    RankWithBit(a.bitmap, tx, WIDTH);
    RankGrows(a.bitmap, 0, WIDTH);
    RankGrows(a.bitmap[tx := true], 0, WIDTH);
  }

  // Appending behind every transaction of the core gives it its version and moves no other.
  lemma AppendInOrder(a: CoreArray, ver: VersionId, tx: nat, i: nat)
    requires CoreOk(a) && tx < WIDTH && !a.bitmap[tx] && AllBefore(a.bitmap, tx) && i < WIDTH
    requires i == tx || a.bitmap[i]
    ensures CoreOk(CoreAppended(a, ver, tx)) && CoreAppended(a, ver, tx).bitmap[i]
    ensures Get(CoreAppended(a, ver, tx), i) == if i == tx then ver else Get(a, i)
  {
    var b := CoreAppended(a, ver, tx);
    CoreAppendedOk(a, ver, tx);
    GetIsRank(b, i);
    RankWithBit(a.bitmap, tx, i);
    RankGrows(a.bitmap, tx, WIDTH);
    if i != tx {
      GetIsRank(a, i);
    }
  }

  // Out of order it does not: the new transaction gets the version of another one.
  lemma AppendOutOfOrder(a: CoreArray, ver: VersionId, tx: nat)
    requires CoreOk(a) && tx < WIDTH && !a.bitmap[tx] && !AllBefore(a.bitmap, tx)
    ensures CoreOk(CoreAppended(a, ver, tx)) && Get(CoreAppended(a, ver, tx), tx) in a.slots
  {
    var b := CoreAppended(a, ver, tx);
    CoreAppendedOk(a, ver, tx);
    GetIsRank(b, tx);
    RankWithBit(a.bitmap, tx, tx);
    RankGrows(a.bitmap, tx, WIDTH);
    var i :| 0 <= i < WIDTH && a.bitmap[i] && tx <= i;
    assert Rank(a.bitmap, tx) < |a.slots|;
    assert b.slots[Rank(a.bitmap, tx)] == a.slots[Rank(a.bitmap, tx)];
  }

  // Exactly the ascending appends work.
  lemma AppendWorksIff(a: CoreArray, ver: VersionId, tx: nat)
    requires CoreOk(a) && tx < WIDTH && !a.bitmap[tx] && ver !in a.slots
    ensures CoreOk(CoreAppended(a, ver, tx))
    ensures Get(CoreAppended(a, ver, tx), tx) == ver <==> AllBefore(a.bitmap, tx)
  {
    CoreAppendedOk(a, ver, tx);
    if AllBefore(a.bitmap, tx) {
      AppendInOrder(a, ver, tx, tx);
    } else {
      AppendOutOfOrder(a, ver, tx);
    }
  }

  // ----- The region -----

  datatype Region = Region(cores: Word, arrays: seq<CoreArray>)

  // The arrays of the cores that have written in this epoch; the others are left over from earlier ones.
  predicate RegionOk(g: Region) {
    && |g.arrays| == WIDTH
    && forall c :: 0 <= c < WIDTH && g.cores[c] ==> CoreOk(g.arrays[c]) && g.arrays[c].bitmap != Zero()
  }

  predicate Shows(g: Region, x: Slot)
    requires RegionOk(g)
  {
    && 0 <= x.id < WIDTH * WIDTH
    && var c, t := x.id / WIDTH, x.id % WIDTH;
       g.cores[c] && g.arrays[c].bitmap[t] && Get(g.arrays[c], t) == x.ver
  }

  // The region stands for the map m.
  ghost predicate Stands(g: Region, m: set<Slot>)
    requires RegionOk(g)
  {
    forall x {:trigger x in m} {:trigger Shows(g, x)} :: x in m <==> Shows(g, x)
  }

  function Words(g: Region): (words: seq<Word>)
    ensures |words| == |g.arrays| && forall c :: 0 <= c < |words| ==> words[c] == g.arrays[c].bitmap
  {
    seq(|g.arrays|, c requires 0 <= c < |g.arrays| => g.arrays[c].bitmap)
  }

  // RowRegion::identify_visible_version
  function IdentifyVisible(g: Region, core: nat, tx: nat): (r: Found)
    requires RegionOk(g) && g.cores != Zero() && core < WIDTH && tx < WIDTH
    ensures r.At? ==> r.core < WIDTH && r.tx < WIDTH && g.cores[r.core] && g.arrays[r.core].bitmap[r.tx]
  {
    Identify(g.cores, Words(g), core, tx)
  }

  // The search through the bitmaps finds the version with the greatest serial id below the reader's, and nothing
  // exactly when there is none.
  lemma IdentifyIsGreatest(g: Region, m: set<Slot>, core: nat, tx: nat)
    requires RegionOk(g) && Stands(g, m) && g.cores != Zero() && core < WIDTH && tx < WIDTH
    ensures match IdentifyVisible(g, core, tx)
            case Nothing => NoneBelow(m, SerialId(core, tx))
            case At(c, t) => GreatestBelow(m, SerialId(core, tx), Slot(SerialId(c, t), Get(g.arrays[c], t)))
  {
    var r := IdentifyVisible(g, core, tx);
    forall y | y in m && y.id < SerialId(core, tx) ensures r.At? && y.id <= SerialId(r.core, r.tx) {
      ShownIsLast(g, core, tx, y);
    }
    if r.At? {
      IdentifyIsBefore(g.cores, Words(g), core, tx);
      ShowsAt(g, r.core, r.tx);
    }
  }

  lemma ShownIsLast(g: Region, core: nat, tx: nat, y: Slot)
    requires RegionOk(g) && g.cores != Zero() && core < WIDTH && tx < WIDTH && Shows(g, y) && y.id < SerialId(core, tx)
    ensures var r := IdentifyVisible(g, core, tx); r.At? && y.id <= SerialId(r.core, r.tx)
  {
    var c, t := y.id / WIDTH, y.id % WIDTH;
    assert y.id == SerialId(c, t);
    IdentifyIsLast(g.cores, Words(g), core, tx, c, t);
  }

  lemma ShowsAt(g: Region, c: nat, t: nat)
    requires RegionOk(g) && c < WIDTH && t < WIDTH && g.cores[c] && g.arrays[c].bitmap[t]
    ensures Shows(g, Slot(SerialId(c, t), Get(g.arrays[c], t)))
  {
    assert SerialId(c, t) / WIDTH == c && SerialId(c, t) % WIDTH == t;
  }

  // RowRegion::append: the first write of a core in an epoch clears its array.
  function Cleared(a: CoreArray): CoreArray {
    CoreArray(Zero(), [])
  }

  function RegionAppended(g: Region, core: nat, ver: VersionId, tx: nat): Region
    requires RegionOk(g) && core < WIDTH && tx < WIDTH
  {
    PopCountZero(Zero());
    var a := if g.cores[core] then g.arrays[core] else Cleared(g.arrays[core]);
    Region(WithBit(g.cores, core), g.arrays[core := CoreAppended(a, ver, tx)])
  }

  predicate Follows(g: Region, core: nat, tx: nat)
    requires RegionOk(g) && core < WIDTH && tx < WIDTH
  {
    g.cores[core] ==> AllBefore(g.arrays[core].bitmap, tx)
  }

  lemma RegionAppendedOk(g: Region, core: nat, ver: VersionId, tx: nat)
    requires RegionOk(g) && core < WIDTH && tx < WIDTH && Follows(g, core, tx)
    ensures RegionOk(RegionAppended(g, core, ver, tx))
  {
    PopCountZero(Zero());
    var a := if g.cores[core] then g.arrays[core] else Cleared(g.arrays[core]);
    CoreAppendedOk(a, ver, tx);
    NonZero(WithBit(a.bitmap, tx));
  }

  // Ascending appends add to what the region stands for, and change nothing else; stale arrays stay out of sight.
  lemma RegionAppendAdds(g: Region, m: set<Slot>, core: nat, ver: VersionId, tx: nat)
    requires RegionOk(g) && Stands(g, m) && core < WIDTH && tx < WIDTH && Follows(g, core, tx)
    ensures RegionOk(RegionAppended(g, core, ver, tx))
    ensures Stands(RegionAppended(g, core, ver, tx), m + {Slot(SerialId(core, tx), ver)})
  {
    RegionAppendedOk(g, core, ver, tx);
    var g', slot := RegionAppended(g, core, ver, tx), Slot(SerialId(core, tx), ver);
    assert slot.id / WIDTH == core && slot.id % WIDTH == tx;
    forall x ensures Shows(g', x) <==> x in m || x == slot {
      if 0 <= x.id < WIDTH * WIDTH {
        ShowsAfter(g, core, ver, tx, x);
      }
    }
  }

  lemma ShowsAfter(g: Region, core: nat, ver: VersionId, tx: nat, x: Slot)
    requires RegionOk(g) && core < WIDTH && tx < WIDTH && Follows(g, core, tx)
    requires RegionOk(RegionAppended(g, core, ver, tx))
    requires 0 <= x.id < WIDTH * WIDTH
    ensures Shows(RegionAppended(g, core, ver, tx), x) <==> Shows(g, x) || x == Slot(SerialId(core, tx), ver)
  {
    PopCountZero(Zero());
    var c, t := x.id / WIDTH, x.id % WIDTH;
    assert x.id == SerialId(c, t);
    if c == core {
      var a := if g.cores[core] then g.arrays[core] else Cleared(g.arrays[core]);
      if t == tx || a.bitmap[t] {
        AppendInOrder(a, ver, tx, t);
      }
    }
  }

  // ----- Moving the global array into a region -----

  predicate IdsOk(slots: seq<Slot>) {
    forall x :: x in slots ==> 0 <= x.id < WIDTH * WIDTH
  }

  // move_global_array_to_row_region, without the final clear
  function Moved(g: Region, slots: seq<Slot>): Region
    requires RegionOk(g) && IdsOk(slots)
    decreases |slots|
  {
    if slots == [] then g
    else
      var core, tx := slots[0].id / WIDTH, slots[0].id % WIDTH;
      if Follows(g, core, tx) then
        RegionAppendedOk(g, core, slots[0].ver, tx);
        Moved(RegionAppended(g, core, slots[0].ver, tx), slots[1..])
      else g
  }

  // Everything in the map comes before the id.
  predicate Below(m: set<Slot>, id: int) {
    forall x :: x in m ==> x.id < id
  }

  lemma BelowFollows(g: Region, m: set<Slot>, id: nat)
    requires RegionOk(g) && Stands(g, m) && id < WIDTH * WIDTH && Below(m, id)
    ensures Follows(g, id / WIDTH, id % WIDTH)
  {
    var core, tx := id / WIDTH, id % WIDTH;
    if g.cores[core] {
      forall i | 0 <= i < WIDTH && g.arrays[core].bitmap[i] ensures i < tx {
        ShowsAt(g, core, i);
      }
    }
  }

  // The move preserves what is visible: a region that holds only smaller ids afterwards shows the array as well.
  lemma {:induction false} MovedShows(g: Region, m: set<Slot>, slots: seq<Slot>)
    requires RegionOk(g) && Stands(g, m) && IdsOk(slots) && Ascending(slots) && (slots != [] ==> Below(m, slots[0].id))
    ensures RegionOk(Moved(g, slots)) && Stands(Moved(g, slots), m + Contents(slots))
    decreases |slots|
  {
    if slots == [] {
      assert m + Contents(slots) == m;
    } else {
      var x, rest := slots[0], slots[1..];
      AppendNext(g, m, x);
      MovedShows(RegionAppended(g, x.id / WIDTH, x.ver, x.id % WIDTH), m + {x}, rest);
      assert slots == [x] + rest;
      assert m + Contents(slots) == m + {x} + Contents(rest);
    }
  }

  lemma AppendNext(g: Region, m: set<Slot>, x: Slot)
    requires RegionOk(g) && Stands(g, m) && 0 <= x.id < WIDTH * WIDTH && Below(m, x.id)
    ensures Follows(g, x.id / WIDTH, x.id % WIDTH) && RegionOk(RegionAppended(g, x.id / WIDTH, x.ver, x.id % WIDTH))
    ensures Stands(RegionAppended(g, x.id / WIDTH, x.ver, x.id % WIDTH), m + {x})
  {
    BelowFollows(g, m, x.id);
    RegionAppendAdds(g, m, x.id / WIDTH, x.ver, x.id % WIDTH);
    assert SerialId(x.id / WIDTH, x.id % WIDTH) == x.id;
  }

  function FreshRegion(): Region {
    Region(Zero(), seq(WIDTH, _ => CoreArray(Zero(), [])))
  }

  lemma MovedFresh(slots: seq<Slot>)
    requires Ascending(slots) && IdsOk(slots)
    ensures var g := Moved(FreshRegion(), slots);
            RegionOk(g) && Stands(g, Contents(slots)) && (slots != [] ==> g.cores != Zero())
  {
    MovedShows(FreshRegion(), {}, slots);
    assert {} + Contents(slots) == Contents(slots);
    var g := Moved(FreshRegion(), slots);
    if slots != [] {
      assert slots[0] in Contents(slots);
      assert Shows(g, slots[0]);
      NonZero(g.cores);
    }
  }

  // A region and an array that stand for the same map answer every reader alike.
  lemma SameLookups(g: Region, slots: seq<Slot>, m: set<Slot>, core: nat, tx: nat)
    requires RegionOk(g) && g.cores != Zero() && Stands(g, m) && core < WIDTH && tx < WIDTH
    requires Ascending(slots) && Contents(slots) == m
    ensures var r, k := IdentifyVisible(g, core, tx), LowerBound(slots, SerialId(core, tx));
            if r.Nothing? then k == 0
            else k > 0 && slots[k - 1] == Slot(SerialId(r.core, r.tx), Get(g.arrays[r.core], r.tx))
  {
    IdentifyIsGreatest(g, m, core, tx);
    var r := IdentifyVisible(g, core, tx);
    SearchExact(slots, SerialId(core, tx),
                if r.At? then Slot(SerialId(r.core, r.tx), Get(g.arrays[r.core], r.tx)) else Slot(0, 0));
  }

  // ----- The end of an epoch -----

  // RowRegion::pop_final_state: the last slot of the last core
  function LastCore(g: Region): nat
    requires RegionOk(g) && g.cores != Zero()
    ensures LastCore(g) < WIDTH && g.cores[LastCore(g)]
  {
    FindLargest(g.cores)
  }

  function FinalVersion(g: Region): VersionId
    requires RegionOk(g) && g.cores != Zero()
  {
    var a := g.arrays[LastCore(g)];
    NonEmptySlots(a);
    a.slots[|a.slots| - 1]
  }

  lemma NonEmptySlots(a: CoreArray)
    requires CoreOk(a) && a.bitmap != Zero()
    ensures a.slots != []
  {
    NonZero(a.bitmap);
    PopCountZero(a.bitmap);
  }

  // It belongs to the greatest serial id.
  lemma FinalIsGreatest(g: Region, m: set<Slot>)
    requires RegionOk(g) && Stands(g, m) && g.cores != Zero()
    ensures var c := LastCore(g);
            var x := Slot(SerialId(c, FindLargest(g.arrays[c].bitmap)), FinalVersion(g));
            x in m && forall y :: y in m ==> y.id <= x.id
  {
    var c := LastCore(g);
    var a := g.arrays[c];
    var t := FindLargest(a.bitmap);
    GetIsRank(a, t);
    RankGrows(a.bitmap, t + 1, WIDTH);
    MaskedCount(a.bitmap, t);
    assert Get(a, t) == FinalVersion(g);
    ShowsAt(g, c, t);
    forall y | y in m ensures y.id <= SerialId(c, t) {
      var d, n := y.id / WIDTH, y.id % WIDTH;
      assert y.id == SerialId(d, n) && d <= c;
    }
  }
}
