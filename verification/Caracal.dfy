/** Caracal over any number of epochs: initialization and execution alternate, and every read returns what running all
    transactions of all epochs one by one, in the order of their global ids, returns. */
module Caracal {
  import opened SortedSlots
  import opened CaracalArray
  import opened CaracalDeal
  import I = CaracalInit
  import IE = CaracalInitEnds
  import IR = CaracalInitRuns
  import X = Execution
  import XP = ExecutionProof

  /** The database between two epochs: the version arrays of the rows, the records of the stable versions, the next
      version to be allocated; `epoch` is the number of the epoch to come. */
  datatype Db = Db(epoch: nat, arrs: seq<seq<Slot>>, vals: map<VersionId, X.Val>, next: VersionId)

  /** One epoch: its transactions and what they compute, the rows that have a row buffer already, and the schedules of
      its two phases. */
  datatype Run = Run(txs: seq<seq<X.Op>>, compute: (nat, nat, seq<X.Val>) -> X.Val, installed: seq<bool>,
                     init: seq<I.Step>, exec: seq<nat>)

  datatype Setup = Setup(width: X.Pos, maxSlots: I.Pos)

  // ----- The two phases -----

  // The record that the array's last version holds.
  function Record(arr: seq<Slot>, vals: map<VersionId, X.Val>): X.Val {
    if arr != [] && arr[|arr| - 1].ver in vals then vals[arr[|arr| - 1].ver] else 0
  }

  function Records(db: Db): (r: seq<X.Val>)
    ensures |r| == |db.arrs| && forall i :: 0 <= i < |r| ==> r[i] == Record(db.arrs[i], db.vals)
  {
    seq(|db.arrs|, i requires 0 <= i < |db.arrs| => Record(db.arrs[i], db.vals))
  }

  // The version that search_visible_version finds.
  function Search(arrs: seq<seq<Slot>>, epoch: nat, r: nat, t: nat): VersionId {
    if r < |arrs| && Ascending(arrs[r]) && LowerBound(arrs[r], GlobalId(epoch, t)) > 0
    then arrs[r][LowerBound(arrs[r], GlobalId(epoch, t)) - 1].ver
    else 0
  }

  // The version that transaction t appended to the row.
  function Pending(arrs: seq<seq<Slot>>, epoch: nat, r: nat, t: nat): VersionId {
    if r < |arrs| && Ascending(arrs[r]) && LowerBound(arrs[r], GlobalId(epoch, t)) < |arrs[r]|
    then arrs[r][LowerBound(arrs[r], GlobalId(epoch, t))].ver
    else 0
  }

  // The epoch's execution phase over the given arrays.
  function EpochOver(db: Db, u: Setup, run: Run, arrs: seq<seq<Slot>>): X.Epoch {
    X.Epoch(run.txs, u.width, Records(db), run.compute,
            (r, t) => Search(arrs, db.epoch, r, t), (r, t) => Pending(arrs, db.epoch, r, t))
  }

  function InitState(db: Db, u: Setup, run: Run): I.State {
    var e := EpochOver(db, u, run, db.arrs);
    I.State(db.epoch, u.maxSlots,
            seq(|db.arrs|, r requires 0 <= r < |db.arrs| =>
              I.Row(db.arrs[r], I.Free, r < |run.installed| && run.installed[r],
                    seq(u.width, _ => []), db.arrs[r], {})),
            seq(u.width, w requires 0 <= w < u.width => I.Worker(Todo(e, w), 0, I.Idle, {})),
            db.next, db.next)
  }

  predicate InitRuns(db: Db, u: Setup, run: Run) {
    I.IsRun(InitState(db, u, run), run.init) && I.Finished(I.Exec(InitState(db, u, run), run.init))
  }

  function AfterInit(db: Db, u: Setup, run: Run): I.State
    requires InitRuns(db, u, run)
  {
    I.Exec(InitState(db, u, run), run.init)
  }

  function Arrays(s: I.State): (arrs: seq<seq<Slot>>)
    ensures |arrs| == |s.rows| && forall r :: 0 <= r < |arrs| ==> arrs[r] == s.rows[r].arr
  {
    seq(|s.rows|, r requires 0 <= r < |s.rows| => s.rows[r].arr)
  }

  function EpochOf(db: Db, u: Setup, run: Run): X.Epoch
    requires InitRuns(db, u, run)
  {
    EpochOver(db, u, run, Arrays(AfterInit(db, u, run)))
  }

  function ExecState(db: Db, u: Setup): X.State {
    X.State(db.vals, seq(u.width, _ => X.Worker(0, 0, [])), map[])
  }

  // The transactions are well formed: they come in full rounds, touch loaded rows and have 32-bit serial ids.
  predicate TxsOk(txs: seq<seq<X.Op>>, rows: nat, width: X.Pos) {
    && |txs| % width == 0 && |txs| <= SERIALS
    && forall t, op :: 0 <= t < |txs| && op in txs[t] ==> op.row < rows
  }

  // A run of the epoch, its execution phase not necessarily finished.
  predicate EpochRuns(db: Db, u: Setup, run: Run) {
    && TxsOk(run.txs, |db.arrs|, u.width)
    && InitRuns(db, u, run) && X.IsRun(EpochOf(db, u, run), ExecState(db, u), run.exec)
  }

  function AfterExec(db: Db, u: Setup, run: Run): X.State
    requires EpochRuns(db, u, run)
  {
    X.Exec(EpochOf(db, u, run), ExecState(db, u), run.exec)
  }

  predicate EpochCompletes(db: Db, u: Setup, run: Run) {
    EpochRuns(db, u, run) && X.Finished(EpochOf(db, u, run), AfterExec(db, u, run))
  }

  function NextDb(db: Db, u: Setup, run: Run): Db
    requires EpochRuns(db, u, run)
  {
    Db(db.epoch + 1, Arrays(AfterInit(db, u, run)), AfterExec(db, u, run).vals, AfterInit(db, u, run).next)
  }

  // ----- Between epochs -----

  ghost predicate ArrStarts(db: Db, r: nat)
    requires r < |db.arrs|
  {
    var arr := db.arrs[r];
    && arr != [] && Ascending(arr) && (forall x :: x in arr ==> x.id < GlobalId(db.epoch, 0))
    && arr[|arr| - 1].ver in db.vals
  }

  ghost predicate DbOk(db: Db) {
    && (forall r {:trigger ArrStarts(db, r)} :: 0 <= r < |db.arrs| ==> ArrStarts(db, r))
    && (forall v :: v in db.vals ==> v < db.next)
  }

  // ----- The initialization phase starts well -----

  lemma ItemIsWrite(db: Db, u: Setup, run: Run, e: X.Epoch, w: nat, i: nat)
    requires e == EpochOver(db, u, run, db.arrs) && w < u.width && i < |Todo(e, w)|
    ensures var item := Todo(e, w)[i];
            X.Writes(e, item.serial, item.row) && item.serial % u.width == w
  {
    var item := Todo(e, w)[i];
    var k := TodoFrom(e, w, item);
    XP.SerialParts(e, k, w);
  }

  lemma InitStarts(db: Db, u: Setup, run: Run)
    requires DbOk(db) && TxsOk(run.txs, |db.arrs|, u.width)
    ensures I.Init(InitState(db, u, run))
  {
    var s, e := InitState(db, u, run), EpochOver(db, u, run, db.arrs);
    forall r | 0 <= r < |s.rows| ensures I.RowStarts(s.rows[r], I.First(s), |s.workers|) {
      assert ArrStarts(db, r);
    }
    forall w, i | 0 <= w < |s.workers| && 0 <= i < |s.workers[w].todo|
      ensures s.workers[w].todo[i].row < |s.rows| && s.workers[w].todo[i].serial < SERIALS
    {
      ItemIsWrite(db, u, run, e, w, i);
    }
    forall w, i, v, j | 0 <= w < |s.workers| && 0 <= i < |s.workers[w].todo| && 0 <= v < |s.workers|
      && 0 <= j < |s.workers[v].todo|
                        && s.workers[w].todo[i] == s.workers[v].todo[j]
      ensures w == v && i == j
    {
      ItemIsWrite(db, u, run, e, w, i);
      ItemIsWrite(db, u, run, e, v, j);
      TodoDistinct(e, w);
    }
  }

  // The global ids appended to a row are those of the transactions that write it.
  lemma WritersAre(db: Db, u: Setup, run: Run, r: nat, id: int)
    requires TxsOk(run.txs, |db.arrs|, u.width) && r < |db.arrs|
    ensures var e := EpochOver(db, u, run, db.arrs);
            IR.WritesRow(InitState(db, u, run), r, id) <==>
              exists t :: 0 <= t && X.Writes(e, t, r) && id == GlobalId(db.epoch, t)
  {
    var s, e := InitState(db, u, run), EpochOver(db, u, run, db.arrs);
    if IR.WritesRow(s, r, id) {
      var w, i :| IR.IsWrite(s, w, i, r, id);
      ItemIsWrite(db, u, run, e, w, i);
    }
    if t :| 0 <= t && X.Writes(e, t, r) && id == GlobalId(db.epoch, t) {
      var item, w := I.Item(r, t), t % u.width;
      XP.SerialOf(e, t);
      TodoGets(e, w, t / u.width, item);
      var i :| 0 <= i < |Todo(e, w)| && Todo(e, w)[i] == item;
      assert IR.IsWrite(s, w, i, r, id);
    }
  }

  // ----- What the execution phase finds -----

  // Row r after the initialization phase, in terms of the transactions that write it.
  ghost predicate Built(e: X.Epoch, epoch: nat, r: nat, arr0: seq<Slot>, arr: seq<Slot>, made: set<Slot>) {
    var cur := GlobalId(epoch, 0);
    && arr0 != [] && (forall x :: x in arr0 ==> x.id < cur) && Ascending(arr0) && Ascending(arr)
    && arr == (if made == {} then arr0 else Last(arr0) + Newer(arr, cur))
    && Contents(Newer(arr, cur)) == made
    && (forall x {:trigger IsWriter(e, epoch, r, x.id)} :: x in made ==> IsWriter(e, epoch, r, x.id))
    && (forall t {:trigger HasId(made, GlobalId(epoch, t))} :: 0 <= t && X.Writes(e, t, r) ==>
          HasId(made, GlobalId(epoch, t)))
  }

  ghost predicate IsWriter(e: X.Epoch, epoch: nat, r: nat, id: int) {
    exists t :: 0 <= t && X.Writes(e, t, r) && id == GlobalId(epoch, t)
  }

  // What is in the array: versions of the epoch, older ones, and in any case the newest of the older ones.
  ghost predicate Holds(m: set<Slot>, made: set<Slot>, o: Slot, cur: int) {
    && made <= m && o in m && o.id < cur
    && (forall x :: x in m && x !in made ==> x.id <= o.id && (x.id == o.id ==> x == o))
  }

  lemma BuiltHolds(e: X.Epoch, epoch: nat, r: nat, arr0: seq<Slot>, arr: seq<Slot>, made: set<Slot>)
    requires Built(e, epoch, r, arr0, arr, made)
    ensures Holds(Contents(arr), made, arr0[|arr0| - 1], GlobalId(epoch, 0))
  {
    var cur, o := GlobalId(epoch, 0), arr0[|arr0| - 1];
    assert o in arr0;
    forall x | x in arr0 ensures x.id <= o.id && (x.id == o.id ==> x == o) { LastIsGreatest(arr0, x); }
    var newer := Newer(arr, cur);
    if made == {} {
    } else {
      assert Last(arr0) == [o];
      JoinHolds(o, newer, arr);
    }
  }

  lemma JoinHolds(o: Slot, newer: seq<Slot>, arr: seq<Slot>)
    requires arr == [o] + newer
    ensures Contents(arr) == {o} + Contents(newer)
  {
  }

  lemma WriterIds(e: X.Epoch, epoch: nat, r: nat, id: int, t: nat) returns (u: nat)
    requires IsWriter(e, epoch, r, id) && id < GlobalId(epoch, t) && t <= |e.txs| <= SERIALS
    ensures u < t && X.Writes(e, u, r) && id == GlobalId(epoch, u)
  {
    u :| 0 <= u && X.Writes(e, u, r) && id == GlobalId(epoch, u);
  }

  lemma GreatestIs(e: X.Epoch, epoch: nat, r: nat, m: set<Slot>, made: set<Slot>, o: Slot, t: nat, y: Slot)
    requires Holds(m, made, o, GlobalId(epoch, 0)) && t <= |e.txs| <= SERIALS && GreatestBelow(m, GlobalId(epoch, t), y)
    requires forall x {:trigger IsWriter(e, epoch, r, x.id)} :: x in made ==> IsWriter(e, epoch, r, x.id)
    requires X.Visible(e, r, t) >= 0 ==> HasId(made, GlobalId(epoch, X.Visible(e, r, t)))
    ensures var v := X.Visible(e, r, t); if v < 0 then y == o else y in made && y.id == GlobalId(epoch, v)
  {
    var v := X.Visible(e, r, t);
    assert o.id <= y.id;
    if v >= 0 {
      var x :| x in made && x.id == GlobalId(epoch, v);
      assert x in m && x.id <= y.id;
    }
    if y in made {
      assert IsWriter(e, epoch, r, y.id);
      var n := WriterIds(e, epoch, r, y.id, t);
      assert n <= v;
    }
  }

  // The search finds the last writer's version, or the newest old one.
  lemma SearchFinds(e: X.Epoch, epoch: nat, r: nat, arr0: seq<Slot>, arr: seq<Slot>, made: set<Slot>, t: nat)
    requires Built(e, epoch, r, arr0, arr, made) && t <= |e.txs| <= SERIALS
    ensures var k, v := LowerBound(arr, GlobalId(epoch, t)), X.Visible(e, r, t);
            && k > 0
            && if v < 0 then arr[k - 1] == arr0[|arr0| - 1]
               else arr[k - 1] in made && arr[k - 1].id == GlobalId(epoch, v)
  {
    var o := arr0[|arr0| - 1];
    BuiltHolds(e, epoch, r, arr0, arr, made);
    var y := SearchHits(arr, GlobalId(epoch, t), o);
    if X.Visible(e, r, t) >= 0 {
      assert HasId(made, GlobalId(epoch, X.Visible(e, r, t)));
    }
    GreatestIs(e, epoch, r, Contents(arr), made, o, t, y);
  }

  lemma PendingFound(e: X.Epoch, epoch: nat, r: nat, arr0: seq<Slot>, arr: seq<Slot>, made: set<Slot>, x: Slot)
    requires Built(e, epoch, r, arr0, arr, made) && x in made
    ensures LowerBound(arr, x.id) < |arr| && arr[LowerBound(arr, x.id)] == x
  {
    BuiltHolds(e, epoch, r, arr0, arr, made);
    FoundById(arr, x);
  }

  // ----- From one phase to the next -----

  /** What the initialization phase hands over: arrays `arrs`, built from `arrs0` by adding the slots `mades`, whose
      versions were allocated from `lo` to `hi`; the execution phase searches these arrays. */
  datatype Handover = Handover(epoch: nat, arrs0: seq<seq<Slot>>, arrs: seq<seq<Slot>>, mades: seq<set<Slot>>,
                               lo: nat, hi: nat)

  ghost predicate RowFine(e: X.Epoch, h: Handover, r: nat)
    requires r < |h.arrs0| && r < |h.arrs| && r < |h.mades|
  {
    && Built(e, h.epoch, r, h.arrs0[r], h.arrs[r], h.mades[r])
    && (forall x :: x in h.mades[r] ==> h.lo <= x.ver < h.hi)
  }

  ghost predicate Apart(h: Handover, r: nat, q: nat)
    requires r < |h.mades| && q < |h.mades|
  {
    forall x, y :: x in h.mades[r] && y in h.mades[q] && x.ver == y.ver ==> r == q && x == y
  }

  ghost predicate Searches(e: X.Epoch, h: Handover, r: nat, t: nat) {
    e.look(r, t) == Search(h.arrs, h.epoch, r, t) && e.mine(r, t) == Pending(h.arrs, h.epoch, r, t)
  }

  ghost predicate HandedOver(e: X.Epoch, h: Handover) {
    && |e.base| == |h.arrs0| == |h.arrs| == |h.mades| && |e.txs| <= SERIALS && h.lo <= h.hi
    && (forall r {:trigger RowFine(e, h, r)} :: 0 <= r < |h.arrs| ==> RowFine(e, h, r))
    && (forall r, q {:trigger Apart(h, r, q)} :: 0 <= r < |h.arrs| && 0 <= q < |h.arrs| ==> Apart(h, r, q))
    && (forall r, t {:trigger Searches(e, h, r, t)} :: 0 <= r && 0 <= t ==> Searches(e, h, r, t))
  }

  // The pending version of a write is the one made for it.
  lemma MineIs(e: X.Epoch, h: Handover, r: nat, t: nat) returns (x: Slot)
    requires HandedOver(e, h) && r < |h.arrs| && X.Writes(e, t, r)
    ensures x in h.mades[r] && x.id == GlobalId(h.epoch, t) && e.mine(r, t) == x.ver
  {
    assert RowFine(e, h, r) && Searches(e, h, r, t);
    assert HasId(h.mades[r], GlobalId(h.epoch, t));
    x :| x in h.mades[r] && x.id == GlobalId(h.epoch, t);
    PendingFound(e, h.epoch, r, h.arrs0[r], h.arrs[r], h.mades[r], x);
  }

  // The version that a search finds, up to the search behind all transactions of the epoch.
  // The version that a search finds is the one that its writer finds as its own, or the newest old one.
  lemma SearchPending(e: X.Epoch, epoch: nat, r: nat, arr0: seq<Slot>, arr: seq<Slot>, made: set<Slot>, t: nat)
    requires Built(e, epoch, r, arr0, arr, made) && t <= |e.txs| <= SERIALS
    ensures var k, v := LowerBound(arr, GlobalId(epoch, t)), X.Visible(e, r, t);
            && k > 0
            && if v < 0 then arr[k - 1] == arr0[|arr0| - 1]
               else var i := LowerBound(arr, GlobalId(epoch, v)); i < |arr| && arr[k - 1] == arr[i]
  {
    SearchFinds(e, epoch, r, arr0, arr, made, t);
    if X.Visible(e, r, t) >= 0 {
      PendingFound(e, epoch, r, arr0, arr, made, arr[LowerBound(arr, GlobalId(epoch, t)) - 1]);
    }
  }

  lemma SearchVersion(e: X.Epoch, epoch: nat, r: nat, arr0: seq<Slot>, arrs: seq<seq<Slot>>, made: set<Slot>, t: nat)
    requires r < |arrs| && Built(e, epoch, r, arr0, arrs[r], made) && t <= |e.txs| <= SERIALS
    ensures var v := X.Visible(e, r, t);
            Search(arrs, epoch, r, t) == if v < 0 then arr0[|arr0| - 1].ver else Pending(arrs, epoch, r, v)
  {
    SearchPending(e, epoch, r, arr0, arrs[r], made, t);
  }

  lemma SearchIs(e: X.Epoch, h: Handover, r: nat, t: nat)
    requires HandedOver(e, h) && r < |h.arrs| && t <= |e.txs|
    ensures h.arrs0[r] != []
    ensures e.look(r, t) == var v := X.Visible(e, r, t);
            if v < 0 then h.arrs0[r][|h.arrs0[r]| - 1].ver else e.mine(r, v)
  {
    assert RowFine(e, h, r) && Searches(e, h, r, t);
    SearchVersion(e, h.epoch, r, h.arrs0[r], h.arrs, h.mades[r], t);
    var v := X.Visible(e, r, t);
    assert v >= 0 ==> Searches(e, h, r, v);
  }

  lemma MineApart(e: X.Epoch, h: Handover, r: nat, t: nat, q: nat, n: nat)
    requires HandedOver(e, h) && r < |h.arrs| && q < |h.arrs| && X.Writes(e, t, r) && X.Writes(e, n, q)
    ensures h.lo <= e.mine(r, t) < h.hi
    ensures e.mine(r, t) == e.mine(q, n) ==> r == q && t == n
  {
    var x := MineIs(e, h, r, t);
    var y := MineIs(e, h, q, n);
    assert RowFine(e, h, r) && Apart(h, r, q);
    GlobalIdParts(h.epoch, t, h.epoch, n);
    GlobalIdParts(h.epoch, n, h.epoch, t);
  }

  lemma BuiltLast(e: X.Epoch, epoch: nat, r: nat, arr0: seq<Slot>, arr: seq<Slot>, made: set<Slot>)
    requires Built(e, epoch, r, arr0, arr, made)
    ensures var gid := GlobalId(epoch, |e.txs|);
            arr != [] && LowerBound(arr, gid) == |arr| && forall x :: x in arr ==> x.id < gid
  {
    BuiltHolds(e, epoch, r, arr0, arr, made);
    AllBelow(e, epoch, r, Contents(arr), made, arr0[|arr0| - 1]);
    LastFound(arr, GlobalId(epoch, |e.txs|));
  }

  // The newest version of a row is what a search behind all transactions finds.
  lemma LastIs(e: X.Epoch, h: Handover, r: nat)
    requires HandedOver(e, h) && r < |h.arrs|
    ensures var arr := h.arrs[r];
            && Ascending(arr) && arr != [] && (forall x :: x in arr ==> x.id < GlobalId(h.epoch + 1, 0))
            && arr[|arr| - 1].ver == e.look(r, |e.txs|)
  {
    assert RowFine(e, h, r) && Searches(e, h, r, |e.txs|);
    assert GlobalId(h.epoch, |e.txs|) <= GlobalId(h.epoch + 1, 0);
    BuiltLast(e, h.epoch, r, h.arrs0[r], h.arrs[r], h.mades[r]);
  }

  lemma AllBelow(e: X.Epoch, epoch: nat, r: nat, m: set<Slot>, made: set<Slot>, o: Slot)
    requires Holds(m, made, o, GlobalId(epoch, 0))
    requires forall x {:trigger IsWriter(e, epoch, r, x.id)} :: x in made ==> IsWriter(e, epoch, r, x.id)
    ensures o in m && forall x :: x in m ==> x.id < GlobalId(epoch, |e.txs|)
  {
    forall x | x in m ensures x.id < GlobalId(epoch, |e.txs|) {
      if x in made {
        assert IsWriter(e, epoch, r, x.id);
        WriterBelow(e, epoch, r, x.id);
      }
    }
  }

  lemma LastFound(arr: seq<Slot>, bound: int)
    requires Ascending(arr) && forall x :: x in Contents(arr) ==> x.id < bound
    ensures LowerBound(arr, bound) == |arr| && forall x :: x in arr ==> x.id < bound
  {
    forall x | x in arr ensures x.id < bound { assert x in Contents(arr); }
    LowerBoundIs(arr, bound, |arr|);
  }

  lemma WriterBelow(e: X.Epoch, epoch: nat, r: nat, id: int)
    requires IsWriter(e, epoch, r, id)
    ensures id < GlobalId(epoch, |e.txs|)
  {
    var t :| 0 <= t && X.Writes(e, t, r) && id == GlobalId(epoch, t);
  }

  // ----- One epoch -----

  function HandoverOf(db: Db, s: I.State): (h: Handover)
    ensures |h.mades| == |s.rows| && forall r :: 0 <= r < |s.rows| ==> h.mades[r] == s.rows[r].made
  {
    Handover(db.epoch, db.arrs, Arrays(s), seq(|s.rows|, r requires 0 <= r < |s.rows| => s.rows[r].made),
             db.next, s.next)
  }

  lemma RowBuilt(db: Db, u: Setup, run: Run, r: nat)
    requires DbOk(db) && TxsOk(run.txs, |db.arrs|, u.width) && InitRuns(db, u, run) && r < |db.arrs|
    ensures |AfterInit(db, u, run).rows| == |db.arrs|
    ensures Built(EpochOf(db, u, run), db.epoch, r, db.arrs[r],
                  AfterInit(db, u, run).rows[r].arr, AfterInit(db, u, run).rows[r].made)
  {
    var s, e := InitState(db, u, run), EpochOf(db, u, run);
    InitStarts(db, u, run);
    IR.PhaseEnds(s, run.init, r);
    IR.PhaseAllocates(s, run.init, r, r);
    assert ArrStarts(db, r);
    var row := AfterInit(db, u, run).rows[r];
    assert IR.RowEnds(s, row, r);
    forall x | x in row.made ensures IsWriter(e, db.epoch, r, x.id) {
      WritersAre(db, u, run, r, x.id);
      assert HasId(row.made, x.id);
      var t :| 0 <= t && X.Writes(EpochOver(db, u, run, db.arrs), t, r) && x.id == GlobalId(db.epoch, t);
      assert X.Writes(e, t, r);
    }
    forall t | 0 <= t && X.Writes(e, t, r) ensures HasId(row.made, GlobalId(db.epoch, t)) {
      assert X.Writes(EpochOver(db, u, run, db.arrs), t, r);
      WritersAre(db, u, run, r, GlobalId(db.epoch, t));
    }
  }

  lemma InitHandsOver(db: Db, u: Setup, run: Run, s: I.State, e: X.Epoch)
    requires DbOk(db) && TxsOk(run.txs, |db.arrs|, u.width) && InitRuns(db, u, run)
    requires s == AfterInit(db, u, run) && e == EpochOf(db, u, run)
    ensures HandedOver(e, HandoverOf(db, s))
  {
    var h := HandoverOf(db, s);
    InitStarts(db, u, run);
    IR.StartInv(InitState(db, u, run));
    IR.RunKeeps(InitState(db, u, run), run.init);
    forall r | 0 <= r < |h.arrs| ensures RowFine(e, h, r) {
      RowBuilt(db, u, run, r);
      IR.PhaseAllocates(InitState(db, u, run), run.init, r, r);
    }
    forall r, q | 0 <= r < |h.arrs| && 0 <= q < |h.arrs| ensures Apart(h, r, q) {
      IR.PhaseAllocates(InitState(db, u, run), run.init, r, q);
    }
  }

  // The initialization phase delivers what the execution phase needs.
  lemma LinksFrom(db: Db, e: X.Epoch, h: Handover)
    requires DbOk(db) && HandedOver(e, h) && h.arrs0 == db.arrs && h.lo == db.next && e.base == Records(db)
    ensures X.LinksOk(e, db.vals)
  {
    forall r, t | 0 <= r < |e.base| && 0 <= t < |e.txs| ensures X.LookOk(e, db.vals, r, t) {
      SearchIs(e, h, r, t);
      assert ArrStarts(db, r);
    }
    forall r, t | 0 <= r < |e.base| && X.Writes(e, t, r) ensures e.mine(r, t) !in db.vals {
      MineApart(e, h, r, t, r, t);
    }
    forall r, t, q, n | 0 <= r < |e.base| && 0 <= q < |e.base| && X.Writes(e, t, r) && X.Writes(e, n, q)
      && e.mine(r, t) == e.mine(q, n)
      ensures r == q && t == n
    {
      MineApart(e, h, r, t, q, n);
    }
  }

  lemma ExecStarts(db: Db, u: Setup, run: Run)
    requires DbOk(db) && TxsOk(run.txs, |db.arrs|, u.width) && InitRuns(db, u, run)
    ensures X.Init(EpochOf(db, u, run), ExecState(db, u))
  {
    var s, e := AfterInit(db, u, run), EpochOf(db, u, run);
    InitHandsOver(db, u, run, s, e);
    LinksFrom(db, e, HandoverOf(db, s));
  }

  // Reads of an epoch, finished or not, are those of the serial execution from the records before the epoch.
  lemma EpochIsSerial(db: Db, u: Setup, run: Run, w: nat)
    requires DbOk(db) && EpochRuns(db, u, run) && w < u.width
    ensures var e, s := EpochOf(db, u, run), AfterExec(db, u, run);
            && X.EpochOk(e)
            && (forall t :: t in s.done && 0 <= t < |run.txs| ==>
                  s.done[t] == X.ReadsIn(X.SerialDb(e, t), run.txs[t], |run.txs[t]|))
            && (X.Running(e, s, w) ==>
                  var t := X.Current(e, s, w);
                  && s.workers[w].j <= |run.txs[t]|
                  && s.workers[w].got == X.ReadsIn(X.SerialDb(e, t), run.txs[t], s.workers[w].j))
  {
    ExecStarts(db, u, run);
    XP.ReadsAreSerial(EpochOf(db, u, run), ExecState(db, u), run.exec, w);
  }

  lemma RowEndsSerial(db: Db, e: X.Epoch, h: Handover, s: X.State, exec: seq<nat>, db': Db, r: nat)
    requires DbOk(db) && HandedOver(e, h) && h.arrs0 == db.arrs && h.lo == db.next && e.base == Records(db)
    requires X.Init(e, s) && s.vals == db.vals && X.IsRun(e, s, exec) && X.Finished(e, X.Exec(e, s, exec))
    requires db' == Db(db.epoch + 1, h.arrs, X.Exec(e, s, exec).vals, h.hi) && h.epoch == db.epoch && r < |h.arrs|
    ensures ArrStarts(db', r) && Records(db')[r] == X.SerialDb(e, |e.txs|)[r]
  {
    XP.EndIsSerial(e, s, exec, r);
    LastIs(e, h, r);
    SearchIs(e, h, r, |e.txs|);
    assert ArrStarts(db, r);
  }

  lemma ValsBelow(db: Db, e: X.Epoch, h: Handover, s: X.State, exec: seq<nat>, v: VersionId)
    requires DbOk(db) && HandedOver(e, h) && h.lo == db.next
    requires X.Init(e, s) && s.vals == db.vals && X.IsRun(e, s, exec) && v in X.Exec(e, s, exec).vals
    ensures v < h.hi
  {
    if v !in db.vals {
      XP.OnlyMine(e, s, exec, v);
      var r, t :| 0 <= r < |e.base| && 0 <= t && X.Writes(e, t, r) && e.mine(r, t) == v;
      MineApart(e, h, r, t, r, t);
    }
  }

  // A finished epoch leaves a database with the serial records, ready for the next epoch.
  lemma EpochEnds(db: Db, u: Setup, run: Run)
    requires DbOk(db) && EpochCompletes(db, u, run)
    ensures X.EpochOk(EpochOf(db, u, run)) && DbOk(NextDb(db, u, run)) && |NextDb(db, u, run).arrs| == |db.arrs|
    ensures Records(NextDb(db, u, run)) == X.SerialDb(EpochOf(db, u, run), |run.txs|)
  {
    var s, e, x, db' := AfterInit(db, u, run), EpochOf(db, u, run), ExecState(db, u), NextDb(db, u, run);
    var h := HandoverOf(db, s);
    InitHandsOver(db, u, run, s, e);
    ExecStarts(db, u, run);
    forall r | 0 <= r < |db'.arrs| ensures ArrStarts(db', r) && Records(db')[r] == X.SerialDb(e, |run.txs|)[r] {
      RowEndsSerial(db, e, h, x, run.exec, db', r);
    }
    forall v | v in db'.vals ensures v < db'.next {
      ValsBelow(db, e, h, x, run.exec, v);
    }
  }

  // ----- Any number of epochs -----

  predicate AllComplete(db: Db, u: Setup, runs: seq<Run>)
    decreases |runs|
  {
    runs == [] || (EpochCompletes(db, u, runs[0]) && AllComplete(NextDb(db, u, runs[0]), u, runs[1..]))
  }

  function After(db: Db, u: Setup, runs: seq<Run>): Db
    requires AllComplete(db, u, runs)
    decreases |runs|
  {
    if runs == [] then db else After(NextDb(db, u, runs[0]), u, runs[1..])
  }

  // The epoch without any engine: only its transactions and the records before it.
  function Plain(u: Setup, run: Run, base: seq<X.Val>): X.Epoch {
    X.PlainEpoch(run.txs, u.width, base, run.compute)
  }

  // The records after all transactions of the epochs, one by one in the order of their global ids.
  function SerialAfter(base: seq<X.Val>, u: Setup, runs: seq<Run>): (r: seq<X.Val>)
    requires forall i :: 0 <= i < |runs| ==> TxsOk(runs[i].txs, |base|, u.width)
    ensures |r| == |base|
    decreases |runs|
  {
    if runs == [] then base
    else
      assert TxsOk(runs[0].txs, |base|, u.width);
      SerialAfter(X.SerialDb(Plain(u, runs[0], base), |runs[0].txs|), u, runs[1..])
  }

  lemma {:induction false} SerialSame(e: X.Epoch, e': X.Epoch, t: nat)
    requires X.EpochOk(e) && X.EpochOk(e') && e.txs == e'.txs && e.base == e'.base && e.compute == e'.compute
    requires t <= |e.txs|
    ensures X.SerialDb(e, t) == X.SerialDb(e', t)
  {
    if t > 0 {
      SerialSame(e, e', t - 1);
      forall r | 0 <= r < |e.base| ensures X.SerialDb(e, t)[r] == X.SerialDb(e', t)[r] {
        assert X.Writes(e, t - 1, r) == X.Writes(e', t - 1, r);
      }
    }
  }

  lemma {:induction false} AllOk(db: Db, u: Setup, runs: seq<Run>)
    requires DbOk(db) && AllComplete(db, u, runs)
    ensures forall i :: 0 <= i < |runs| ==> TxsOk(runs[i].txs, |db.arrs|, u.width)
    decreases |runs|
  {
    if runs != [] {
      EpochEnds(db, u, runs[0]);
      AllOk(NextDb(db, u, runs[0]), u, runs[1..]);
      forall i | 0 <= i < |runs| ensures TxsOk(runs[i].txs, |db.arrs|, u.width) {
        if i > 0 { assert runs[i] == runs[1..][i - 1]; }
      }
    }
  }

  // The database after any number of epochs, under any schedules, holds the records of the serial execution.
  lemma {:induction false} RecordsAreSerial(db: Db, u: Setup, runs: seq<Run>)
    requires DbOk(db) && AllComplete(db, u, runs)
    ensures forall i :: 0 <= i < |runs| ==> TxsOk(runs[i].txs, |Records(db)|, u.width)
    ensures DbOk(After(db, u, runs)) && Records(After(db, u, runs)) == SerialAfter(Records(db), u, runs)
    decreases |runs|
  {
    AllOk(db, u, runs);
    if runs != [] {
      EpochEnds(db, u, runs[0]);
      SerialSame(EpochOf(db, u, runs[0]), Plain(u, runs[0], Records(db)), |runs[0].txs|);
      RecordsAreSerial(NextDb(db, u, runs[0]), u, runs[1..]);
    }
  }

  // After any number of finished epochs, every read of the epoch under way, finished or not, returns what the serial
  // execution of everything before it returns.
  lemma ReadsAreSerial(db: Db, u: Setup, runs: seq<Run>, last: Run, w: nat, t: nat)
    requires DbOk(db) && AllComplete(db, u, runs) && EpochRuns(After(db, u, runs), u, last) && w < u.width
    requires t < |last.txs|
    ensures forall i :: 0 <= i < |runs| ==> TxsOk(runs[i].txs, |Records(db)|, u.width)
    ensures var e, s := EpochOf(After(db, u, runs), u, last), AfterExec(After(db, u, runs), u, last);
            var p := Plain(u, last, SerialAfter(Records(db), u, runs));
            && X.EpochOk(p)
            && (t in s.done ==> s.done[t] == X.ReadsIn(X.SerialDb(p, t), last.txs[t], |last.txs[t]|))
            && (X.Running(e, s, w) && X.Current(e, s, w) == t ==>
                  && s.workers[w].j <= |last.txs[t]|
                  && s.workers[w].got == X.ReadsIn(X.SerialDb(p, t), last.txs[t], s.workers[w].j))
  {
    RecordsAreSerial(db, u, runs);
    var db' := After(db, u, runs);
    EpochIsSerial(db', u, last, w);
    SerialSame(EpochOf(db', u, last), Plain(u, last, Records(db')), t);
  }

  // Whatever came before, the initialization phase ends: within eight steps for each write, never stuck before.
  lemma InitNeverStuck(db: Db, u: Setup, runs: seq<Run>, last: Run)
    requires DbOk(db) && AllComplete(db, u, runs) && TxsOk(last.txs, |After(db, u, runs).arrs|, u.width)
    requires I.IsRun(InitState(After(db, u, runs), u, last), last.init)
    ensures var s := InitState(After(db, u, runs), u, last);
            && |last.init| <= 8 * IE.Writes(s.workers)
            && (InitRuns(After(db, u, runs), u, last) || exists step :: I.Enabled(I.Exec(s, last.init), step))
  {
    RecordsAreSerial(db, u, runs);
    InitStarts(After(db, u, runs), u, last);
    IE.RunsEnd(InitState(After(db, u, runs), u, last), last.init);
  }

  // And so does the execution phase: within one step for each operation and transaction, never stuck before.
  lemma NeverStuck(db: Db, u: Setup, runs: seq<Run>, last: Run)
    requires DbOk(db) && AllComplete(db, u, runs) && EpochRuns(After(db, u, runs), u, last)
    ensures |last.exec| <= XP.TotalLeft(EpochOf(After(db, u, runs), u, last), ExecState(After(db, u, runs), u).workers)
    ensures EpochCompletes(After(db, u, runs), u, last)
            || exists w :: X.Enabled(EpochOf(After(db, u, runs), u, last), AfterExec(After(db, u, runs), u, last), w)
  {
    RecordsAreSerial(db, u, runs);
    var db' := After(db, u, runs);
    ExecStarts(db', u, last);
    XP.RunsEnd(EpochOf(db', u, last), ExecState(db', u), last.exec);
    if !EpochCompletes(db', u, last) {
      XP.SomeoneCanStep(EpochOf(db', u, last), ExecState(db', u), last.exec);
    }
  }

  // The loaded database: one stable version per row, with global id 0; the first epoch is 1.
  function LoadedDb(base: seq<X.Val>): Db {
    Db(1, seq(|base|, r requires 0 <= r => [Slot(GlobalId(0, 0), r)]),
       map r: nat | 0 <= r < |base| :: r := base[r], |base|)
  }

  lemma LoadedOk(base: seq<X.Val>)
    ensures DbOk(LoadedDb(base)) && Records(LoadedDb(base)) == base
  {
    var db := LoadedDb(base);
    forall r | 0 <= r < |db.arrs| ensures ArrStarts(db, r) {
      assert GlobalId(0, 0) < GlobalId(1, 0) by { GlobalIdParts(0, 0, 1, 0); }
      assert db.arrs[r] == [Slot(GlobalId(0, 0), r)];
    }
  }
}
