/** What Serval does to one row (`serval/include/serval.hpp`, `serval/include/value.hpp`): appends to the row's global
    array or to its region, installs a region, and turns the row over to a new epoch. With every version that is freed.
    */
module ServalRowOps {
  import opened SortedSlots
  import opened Bitmap
  import opened ServalRegion

  datatype MaybeRegion = NoRegion | Installed(g: Region)

  // `freed`: the versions deleted so far, in order (a history variable).
  datatype Row = Row(epoch: nat, master: VersionId, global: seq<Slot>, region: MaybeRegion, freed: seq<VersionId>)

  function Vers(slots: seq<Slot>): seq<VersionId> {
    if slots == [] then [] else Vers(slots[..|slots| - 1]) + [slots[|slots| - 1].ver]
  }

  // append_to_unconted_row
  function GlobalAppended(row: Row, slot: Slot): Row
    requires Ascending(row.global)
  {
    row.(global := Inserted(row.global, slot))
  }

  // append_to_contented_row: the first write of a core frees what its array still holds from an earlier epoch.
  function RegionAdded(row: Row, core: nat, ver: VersionId, tx: nat): Row
    requires row.region.Installed? && RegionOk(row.region.g) && core < WIDTH && tx < WIDTH
  {
    var g := row.region.g;
    row.(region := Installed(RegionAppended(g, core, ver, tx)),
         freed := row.freed + if g.cores[core] then [] else g.arrays[core].slots)
  }

  // The installation in wait_region_installation, under the lock.
  function WithRegion(row: Row): Row
    requires IdsOk(row.global)
  {
    if row.region.NoRegion? then row.(region := Installed(Moved(FreshRegion(), row.global)), global := []) else row
  }

  // initialize_the_row
  function TurnedOver(row: Row, clock: nat): Row
    requires row.region.Installed? ==> RegionOk(row.region.g)
  {
    var n := |row.global|;
    if n > 0 then
      row.(epoch := clock, master := row.global[n - 1].ver, global := [],
           freed := row.freed + Vers(row.global[..n - 1]) + [row.master])
    else if row.region.Installed? && row.region.g.cores != Zero() then
      var g := row.region.g;
      var a := g.arrays[LastCore(g)];
      NonEmptySlots(a);
      row.(epoch := clock, master := FinalVersion(g), freed := row.freed + [row.master],
           region := Installed(Region(Zero(), g.arrays[LastCore(g) := CoreArray(a.bitmap, a.slots[..|a.slots| - 1])])))
    else row.(epoch := clock)
  }

  // The row stands for the map m; an installed region means an empty global array.
  ghost predicate RowOk(row: Row, m: set<Slot>) {
    && Ascending(row.global)
    && match row.region
       case NoRegion => Contents(row.global) == m
       case Installed(g) => row.global == [] && RegionOk(g) && Stands(g, m)
  }

  // ----- Versions are neither lost nor freed twice -----

  // How often v occurs.
  ghost function Count(vers: seq<VersionId>, v: VersionId): nat {
    if vers == [] then 0 else Count(vers[..|vers| - 1], v) + if vers[|vers| - 1] == v then 1 else 0
  }

  ghost function CountArrays(arrays: seq<CoreArray>, v: VersionId): nat {
    if arrays == [] then 0 else CountArrays(arrays[..|arrays| - 1], v) + Count(arrays[|arrays| - 1].slots, v)
  }

  // In how many places the row holds v, visible or not.
  ghost function HeldCount(row: Row, v: VersionId): nat {
    (if row.master == v then 1 else 0) + Count(Vers(row.global), v)
    + if row.region.Installed? then CountArrays(row.region.g.arrays, v) else 0
  }

  // Held or freed.
  ghost function Accounted(row: Row, v: VersionId): nat {
    HeldCount(row, v) + Count(row.freed, v)
  }

  lemma {:induction false} CountJoin(a: seq<VersionId>, b: seq<VersionId>, v: VersionId)
    ensures Count(a + b, v) == Count(a, v) + Count(b, v)
  {
    if b == [] {
      assert a + b == a;
    } else {
      CountJoin(a, b[..|b| - 1], v);
      assert (a + b)[..|a + b| - 1] == a + b[..|b| - 1];
    }
  }

  lemma CountOne(x: VersionId, v: VersionId)
    ensures Count([x], v) == if x == v then 1 else 0
  {
    assert [x][..0] == [];
  }

  lemma {:induction false} CountUpdate(arrays: seq<CoreArray>, c: nat, a: CoreArray, v: VersionId)
    requires c < |arrays|
    ensures CountArrays(arrays[c := a], v) + Count(arrays[c].slots, v) == CountArrays(arrays, v) + Count(a.slots, v)
  {
    var n := |arrays| - 1;
    if c < n {
      CountUpdate(arrays[..n], c, a, v);
      assert arrays[c := a][..n] == arrays[..n][c := a];
    } else {
      assert arrays[c := a][..n] == arrays[..n];
    }
  }

  lemma {:induction false} VersJoin(a: seq<Slot>, b: seq<Slot>)
    ensures Vers(a + b) == Vers(a) + Vers(b)
  {
    if b == [] {
      assert a + b == a;
    } else {
      VersJoin(a, b[..|b| - 1]);
      assert (a + b)[..|a + b| - 1] == a + b[..|b| - 1];
    }
  }

  lemma CountInserted(s: seq<Slot>, k: nat, slot: Slot, v: VersionId)
    requires k <= |s|
    ensures Count(Vers(s[..k] + [slot] + s[k..]), v) == Count(Vers(s), v) + if slot.ver == v then 1 else 0
  {
    assert s == s[..k] + s[k..];
    VersJoin(s[..k], s[k..]);
    VersJoin(s[..k] + [slot], s[k..]);
    VersJoin(s[..k], [slot]);
    assert Vers([slot]) == [slot.ver] by { assert [slot][..0] == []; }
    CountJoin(Vers(s[..k]), Vers(s[k..]), v);
    CountJoin(Vers(s[..k]) + [slot.ver], Vers(s[k..]), v);
    CountJoin(Vers(s[..k]), [slot.ver], v);
    CountOne(slot.ver, v);
  }

  // ----- Appending -----

  lemma GlobalAppendKeeps(row: Row, m: set<Slot>, slot: Slot)
    requires RowOk(row, m) && row.region.NoRegion? && !HasId(m, slot.id)
    ensures RowOk(GlobalAppended(row, slot), m + {slot})
  {
    InsertedOk(row.global, slot);
  }

  lemma GlobalAppendCount(row: Row, slot: Slot, v: VersionId)
    requires Ascending(row.global)
    ensures Accounted(GlobalAppended(row, slot), v) == Accounted(row, v) + if slot.ver == v then 1 else 0
  {
    CountInserted(row.global, UpperBound(row.global, slot.id), slot, v);
  }

  lemma RegionAddKeeps(row: Row, m: set<Slot>, core: nat, ver: VersionId, tx: nat)
    requires RowOk(row, m) && row.region.Installed? && core < WIDTH && tx < WIDTH && Follows(row.region.g, core, tx)
    ensures RowOk(RegionAdded(row, core, ver, tx), m + {Slot(SerialId(core, tx), ver)})
  {
    RegionAppendAdds(row.region.g, m, core, ver, tx);
  }

  lemma RegionAddCount(row: Row, core: nat, ver: VersionId, tx: nat, v: VersionId)
    requires row.region.Installed? && RegionOk(row.region.g) && core < WIDTH && tx < WIDTH
    ensures Accounted(RegionAdded(row, core, ver, tx), v) == Accounted(row, v) + if ver == v then 1 else 0
  {
    var g := row.region.g;
    CountAppended(g, core, ver, tx, v);
    CountJoin(row.freed, if g.cores[core] then [] else g.arrays[core].slots, v);
  }

  lemma CountAppended(g: Region, core: nat, ver: VersionId, tx: nat, v: VersionId)
    requires RegionOk(g) && core < WIDTH && tx < WIDTH
    ensures CountArrays(RegionAppended(g, core, ver, tx).arrays, v)
            + Count(if g.cores[core] then [] else g.arrays[core].slots, v)
            == CountArrays(g.arrays, v) + if ver == v then 1 else 0
  {
    var kept := if g.cores[core] then g.arrays[core].slots else [];
    var a := RegionAppended(g, core, ver, tx).arrays[core];
    assert a.slots == kept + [ver];
    CountJoin(kept, [ver], v);
    CountOne(ver, v);
    CountUpdate(g.arrays, core, a, v);
  }

  // ----- Installing a region -----

  // The cores without a write hold nothing.
  ghost predicate Clean(g: Region) {
    |g.arrays| == WIDTH && forall c :: 0 <= c < WIDTH && !g.cores[c] ==> g.arrays[c].slots == []
  }

  lemma {:induction false} CountMoved(g: Region, m: set<Slot>, slots: seq<Slot>, v: VersionId)
    requires RegionOk(g) && Stands(g, m) && IdsOk(slots) && Ascending(slots)
    requires (slots != [] ==> Below(m, slots[0].id)) && Clean(g)
    ensures CountArrays(Moved(g, slots).arrays, v) == CountArrays(g.arrays, v) + Count(Vers(slots), v)
    decreases |slots|
  {
    if slots != [] {
      var x, rest := slots[0], slots[1..];
      var g' := MoveOne(g, m, x, v);
      CountMoved(g', m + {x}, rest, v);
      CountFirst(slots, v);
    }
  }

  lemma MoveOne(g: Region, m: set<Slot>, x: Slot, v: VersionId) returns (g': Region)
    requires RegionOk(g) && Stands(g, m) && 0 <= x.id < WIDTH * WIDTH && Below(m, x.id) && Clean(g)
    ensures Follows(g, x.id / WIDTH, x.id % WIDTH) && g' == RegionAppended(g, x.id / WIDTH, x.ver, x.id % WIDTH)
    ensures RegionOk(g') && Stands(g', m + {x}) && Clean(g')
    ensures CountArrays(g'.arrays, v) == CountArrays(g.arrays, v) + if x.ver == v then 1 else 0
  {
    g' := RegionAppended(g, x.id / WIDTH, x.ver, x.id % WIDTH);
    AppendNext(g, m, x);
    CountAppended(g, x.id / WIDTH, x.ver, x.id % WIDTH, v);
    CleanAfter(g, x.id / WIDTH, x.ver, x.id % WIDTH, g');
  }

  lemma CountFirst(slots: seq<Slot>, v: VersionId)
    requires slots != []
    ensures Count(Vers(slots), v) == Count(Vers(slots[1..]), v) + if slots[0].ver == v then 1 else 0
  {
    CountInserted(slots[1..], 0, slots[0], v);
    assert slots[1..][..0] + [slots[0]] + slots[1..][0..] == slots;
  }

  lemma CleanAfter(g: Region, core: nat, ver: VersionId, tx: nat, g': Region)
    requires RegionOk(g) && Clean(g) && core < WIDTH && tx < WIDTH && g' == RegionAppended(g, core, ver, tx)
    ensures Clean(g')
  {
  }

  lemma {:induction false} CountFresh(n: nat, v: VersionId)
    ensures CountArrays(seq(n, _ => CoreArray(Zero(), [])), v) == 0
  {
    if n > 0 {
      CountFresh(n - 1, v);
      assert seq(n, _ => CoreArray(Zero(), []))[..n - 1] == seq(n - 1, _ => CoreArray(Zero(), []));
    }
  }

  // Installing a region changes nothing that a reader sees, and frees nothing.
  lemma InstallKeeps(row: Row, m: set<Slot>)
    requires RowOk(row, m) && IdsOk(row.global)
    ensures RowOk(WithRegion(row), m) && WithRegion(row).region.Installed?
  {
    if row.region.NoRegion? {
      MovedFresh(row.global);
    }
  }

  lemma InstallCount(row: Row, v: VersionId)
    requires Ascending(row.global) && IdsOk(row.global)
    ensures Accounted(WithRegion(row), v) == Accounted(row, v)
  {
    if row.region.NoRegion? {
      CountFresh(WIDTH, v);
      CountMoved(FreshRegion(), {}, row.global, v);
    }
  }

  // ----- The turn of the epoch -----

  // x is the last write of the map.
  predicate IsLast(m: set<Slot>, x: Slot) {
    x in m && forall y :: y in m ==> y.id <= x.id
  }

  // The master becomes the last write of the epoch before, and the row becomes empty.
  lemma TurnOverKeeps(row: Row, m: set<Slot>, clock: nat) returns (x: Slot)
    requires RowOk(row, m) && m != {}
    ensures IsLast(m, x) && TurnedOver(row, clock).master == x.ver
    ensures RowOk(TurnedOver(row, clock), {}) && TurnedOver(row, clock).epoch == clock
  {
    if row.region.NoRegion? {
      Emptiness(row.global);
      x := row.global[|row.global| - 1];
      assert x in Contents(row.global);
      assert Contents([]) == {};
    } else {
      var g := row.region.g;
      var y :| y in m;
      assert Shows(g, y);
      NonZero(g.cores);
      FinalIsGreatest(g, m);
      var c := LastCore(g);
      x := Slot(SerialId(c, FindLargest(g.arrays[c].bitmap)), FinalVersion(g));
    }
  }

  // It frees the old master and the versions of the global array but the last, each once.
  lemma TurnOverCount(row: Row, clock: nat, v: VersionId)
    requires (row.region.Installed? ==> RegionOk(row.region.g))
    ensures Accounted(TurnedOver(row, clock), v) == Accounted(row, v)
  {
    var n := |row.global|;
    CountOne(row.master, v);
    if n > 0 {
      var front := row.global[..n - 1];
      CountJoin(row.freed + Vers(front), [row.master], v);
      CountJoin(row.freed, Vers(front), v);
      CountOne(row.global[n - 1].ver, v);
      CountJoin(Vers(front), [row.global[n - 1].ver], v);
    } else if row.region.Installed? && row.region.g.cores != Zero() {
      var g := row.region.g;
      var c := LastCore(g);
      var a := g.arrays[c];
      NonEmptySlots(a);
      CountJoin(row.freed, [row.master], v);
      CountUpdate(g.arrays, c, CoreArray(a.bitmap, a.slots[..|a.slots| - 1]), v);
    }
  }
}
