/** Serval_RC's execution phase over any number of rows and epochs (`executables/ycsb_serval_rc.cpp`): 64 workers run
    4096 transactions dealt round robin, each in ascending order. */
module ServalRcExec {
  import opened SortedSlots
  import opened Bitmap
  import opened ServalRcOps
  import Rc = ServalRc
  import M = ServalRcMaster
  import P = ServalRcProof
  import X = Execution

  type Txs = seq<seq<X.Op>>

  // Worker w has run j operations of transaction i * 64 + w; `mid`: and the first half of the next.
  datatype Worker = Worker(i: nat, j: nat, mid: bool)

  datatype State = State(rows: seq<Rc.State>, workers: seq<Worker>)

  // A transaction reads no row twice and writes no row twice: for a second operation the source keeps no bitmap.
  predicate TxsOk(txs: Txs, n: nat) {
    && |txs| == TXS
    && (forall t, k :: 0 <= t < TXS && 0 <= k < |txs[t]| ==> txs[t][k].row < n)
    && (forall t, k, l :: 0 <= t < TXS && 0 <= k < l < |txs[t]| ==> txs[t][k] != txs[t][l])
  }

  // ----- Preparing a row -----

  // A row between two epochs.
  ghost predicate RowStarts(s: Rc.State) {
    Rc.Inv(s) && s.phase.Writing? && s.writers == map[]
  }

  function MarkSteps(ids: seq<nat>): seq<Rc.Step> {
    seq(|ids|, i requires 0 <= i < |ids| => Rc.MarkWriter(ids[i]))
  }

  function AnnounceSteps(ids: seq<nat>): seq<Rc.Step> {
    seq(|ids|, i requires 0 <= i < |ids| => Rc.AnnounceReader(ids[i]))
  }

  // The steps of the write phase and of the read phase on one row, for the given transactions.
  function Preparation(marks: seq<nat>, announced: seq<nat>): seq<Rc.Step> {
    MarkSteps(marks) + [Rc.StartReading] + AnnounceSteps(announced) + [Rc.StartExecuting]
  }

  // The row at the start of the execution phase, with exactly the writers and readers that the transactions say.
  ghost predicate RowReady(txs: Txs, s: Rc.State, r: nat) {
    && M.Starts(s)
    && (forall t: nat :: t in s.writers <==> t < |txs| && X.Update(r) in txs[t])
    && (forall t: nat :: t in s.readers <==> t < |txs| && X.Read(r) in txs[t])
  }

  lemma {:induction false} RunJoin(s: Rc.State, a: seq<Rc.Step>, b: seq<Rc.Step>)
    requires Rc.IsRun(s, a + b)
    ensures Rc.IsRun(s, a) && Rc.IsRun(Rc.Exec(s, a), b) && Rc.Exec(s, a + b) == Rc.Exec(Rc.Exec(s, a), b)
    decreases |a|
  {
    if a == [] {
      assert a + b == b;
    } else {
      assert (a + b)[1..] == a[1..] + b;
      RunJoin(Rc.Apply(s, a[0]), a[1..], b);
    }
  }

  lemma {:induction false} WritersAfter(s: Rc.State, steps: seq<Rc.Step>)
    requires Rc.IsRun(s, steps) && s.phase.Writing? && forall i :: 0 <= i < |steps| ==> steps[i].MarkWriter?
    ensures var t := Rc.Exec(s, steps); t.phase.Writing? && t.readers == s.readers && t.wb.master == s.wb.master
    ensures forall t: nat :: t in Rc.Exec(s, steps).writers <==> t in s.writers || Rc.MarkWriter(t) in steps
    decreases |steps|
  {
    if steps != [] {
      assert steps == [steps[0]] + steps[1..];
      WritersAfter(Rc.Apply(s, steps[0]), steps[1..]);
    }
  }

  lemma {:induction false} ReadersAfter(s: Rc.State, steps: seq<Rc.Step>)
    requires Rc.IsRun(s, steps) && s.phase.Reading? && forall i :: 0 <= i < |steps| ==> steps[i].AnnounceReader?
    ensures var t := Rc.Exec(s, steps); t.phase.Reading? && t.writers == s.writers && t.wb.master == s.wb.master
    ensures forall t: nat :: t in Rc.Exec(s, steps).readers <==> t in s.readers || Rc.AnnounceReader(t) in steps
    decreases |steps|
  {
    if steps != [] {
      assert steps == [steps[0]] + steps[1..];
      ReadersAfter(Rc.Apply(s, steps[0]), steps[1..]);
    }
  }

  lemma StepsOf(ids: seq<nat>, t: nat)
    ensures Rc.MarkWriter(t) in MarkSteps(ids) <==> t in ids
    ensures Rc.AnnounceReader(t) in AnnounceSteps(ids) <==> t in ids
  {
    if t in ids {
      var i :| 0 <= i < |ids| && ids[i] == t;
      assert MarkSteps(ids)[i] == Rc.MarkWriter(t) && AnnounceSteps(ids)[i] == Rc.AnnounceReader(t);
    }
  }

  // The row right before the execution phase.
  lemma PreparedIs(s: Rc.State, marks: seq<nat>, announced: seq<nat>) returns (s3: Rc.State)
    requires RowStarts(s) && Rc.IsRun(s, Preparation(marks, announced))
    ensures Rc.Inv(s3) && s3.phase.Reading? && s3.wb.master == s.wb.master
    ensures Rc.Exec(s, Preparation(marks, announced)) == Rc.Apply(s3, Rc.StartExecuting)
    ensures forall t: nat :: t in s3.writers <==> Rc.MarkWriter(t) in MarkSteps(marks)
    ensures forall t: nat :: t in s3.readers <==> Rc.AnnounceReader(t) in AnnounceSteps(announced)
  {
    var a, b := MarkSteps(marks), AnnounceSteps(announced);
    RunJoin(s, a + [Rc.StartReading] + b, [Rc.StartExecuting]);
    RunJoin(s, a + [Rc.StartReading], b);
    RunJoin(s, a, [Rc.StartReading]);
    var s2 := Rc.Apply(Rc.Exec(s, a), Rc.StartReading);
    assert s2 == Rc.Exec(s, a + [Rc.StartReading]);
    s3 := Rc.Exec(s2, b);
    WritersAfter(s, a);
    ReadersAfter(s2, b);
    P.RunKeeps(s, a + [Rc.StartReading] + b);
  }

  // The two phases deliver what the execution phase needs.
  lemma PreparedIsReady(txs: Txs, s: Rc.State, marks: seq<nat>, announced: seq<nat>, r: nat)
    requires RowStarts(s) && Rc.IsRun(s, Preparation(marks, announced))
    requires forall t: nat :: t in marks <==> t < |txs| && X.Update(r) in txs[t]
    requires forall t: nat :: t in announced <==> t < |txs| && X.Read(r) in txs[t]
    ensures RowReady(txs, Rc.Exec(s, Preparation(marks, announced)), r)
    ensures Rc.Exec(s, Preparation(marks, announced)).wb.master == s.wb.master
  {
    var s3 := PreparedIs(s, marks, announced);
    M.StartsHere(s3);
    forall t: nat ensures t in s3.writers <==> t < |txs| && X.Update(r) in txs[t] { StepsOf(marks, t); }
    forall t: nat ensures t in s3.readers <==> t < |txs| && X.Read(r) in txs[t] { StepsOf(announced, t); }
  }

  // ----- The phase -----

  function Serial(i: nat, w: nat): nat {
    i * WIDTH + w
  }

  predicate Running(txs: Txs, s: State, w: nat) {
    w < |s.workers| && s.workers[w].i < WIDTH && Serial(s.workers[w].i, w) < |txs|
  }

  // What the worker does next on the row.
  function RowStep(op: X.Op, t: nat, mid: bool): Rc.Step {
    if op.Read? then if mid then Rc.DropReader(t) else Rc.Observe(t)
    else if mid then Rc.Store(t) else Rc.AskWriter(t)
  }

  predicate Enabled(txs: Txs, s: State, w: nat) {
    && Running(txs, s, w)
    && var x, t := s.workers[w], Serial(s.workers[w].i, w);
       x.j < |txs[t]| ==>
         txs[t][x.j].row < |s.rows| && Rc.Enabled(s.rows[txs[t][x.j].row], RowStep(txs[t][x.j], t, x.mid))
  }

  // The first half leads to the second, unless the writer got no version.
  function Halfway(row: Rc.State, op: X.Op, t: nat, mid: bool): bool {
    !mid && (op.Update? ==> t in row.writers && row.writers[t].Storing?)
  }

  function Apply(txs: Txs, s: State, w: nat): State
    requires Enabled(txs, s, w)
  {
    var x, t := s.workers[w], Serial(s.workers[w].i, w);
    if x.j >= |txs[t]| then s.(workers := s.workers[w := Worker(x.i + 1, 0, false)])
    else
      var op := txs[t][x.j];
      var row := Rc.Apply(s.rows[op.row], RowStep(op, t, x.mid));
      State(s.rows[op.row := row],
            s.workers[w := if Halfway(row, op, t, x.mid) then x.(mid := true) else Worker(x.i, x.j + 1, false)])
  }

  ghost predicate Init(txs: Txs, s: State) {
    && TxsOk(txs, |s.rows|)
    && (forall r {:trigger RowReady(txs, s.rows[r], r)} :: 0 <= r < |s.rows| ==> RowReady(txs, s.rows[r], r))
    && |s.workers| == WIDTH && forall w :: 0 <= w < WIDTH ==> s.workers[w] == Worker(0, 0, false)
  }

  predicate IsRun(txs: Txs, s: State, steps: seq<nat>)
    decreases |steps|
  {
    steps == [] || (Enabled(txs, s, steps[0]) && IsRun(txs, Apply(txs, s, steps[0]), steps[1..]))
  }

  function Exec(txs: Txs, s: State, steps: seq<nat>): State
    requires IsRun(txs, s, steps)
    decreases |steps|
  {
    if steps == [] then s else Exec(txs, Apply(txs, s, steps[0]), steps[1..])
  }

  predicate Finished(s: State) {
    forall w :: 0 <= w < |s.workers| ==> s.workers[w].i == WIDTH
  }

  // ----- What holds throughout -----

  datatype Stage = Before | Middle | After

  // How far operation k of transaction t is.
  ghost function StageOf(s: State, t: nat, k: nat): Stage
    requires |s.workers| == WIDTH
  {
    var x := s.workers[t % WIDTH];
    if t / WIDTH < x.i || (t / WIDTH == x.i && k < x.j) then After
    else if t / WIDTH == x.i && k == x.j && x.mid then Middle
    else Before
  }

  // The row knows it.
  ghost predicate OpOk(row: Rc.State, op: X.Op, t: nat, stage: Stage) {
    if op.Read? then
      && t in row.readers
      && row.readers[t].pc == (match stage case Before => Rc.Waiting case Middle => Rc.Got case After => Rc.Gone)
    else
      && t in row.writers && (row.writers[t].Marked? <==> stage.Before?) && (row.writers[t].Storing? <==> stage.Middle?)
  }

  ghost predicate CellOk(txs: Txs, s: State, t: nat, k: nat)
    requires |s.workers| == WIDTH && t < |txs| && k < |txs[t]|
  {
    txs[t][k].row < |s.rows| && OpOk(s.rows[txs[t][k].row], txs[t][k], t, StageOf(s, t, k))
  }

  ghost predicate RowOk(txs: Txs, row: Rc.State, r: nat) {
    && Rc.Inv(row) && row.phase.Executing?
    && (forall t: nat :: t in row.writers <==> t < |txs| && X.Update(r) in txs[t])
    && (forall t: nat :: t in row.readers <==> t < |txs| && X.Read(r) in txs[t])
  }

  ghost predicate WorkerOk(txs: Txs, s: State, w: nat)
    requires w < |s.workers| && |txs| == TXS
  {
    var x := s.workers[w];
    && x.i <= WIDTH && (x.i == WIDTH ==> x.j == 0 && !x.mid)
    && (Running(txs, s, w) ==> x.j <= |txs[Serial(x.i, w)]| && (x.mid ==> x.j < |txs[Serial(x.i, w)]|))
  }

  ghost predicate Inv(txs: Txs, s: State) {
    && TxsOk(txs, |s.rows|) && |s.workers| == WIDTH
    && (forall r {:trigger RowOk(txs, s.rows[r], r)} :: 0 <= r < |s.rows| ==> RowOk(txs, s.rows[r], r))
    && (forall w {:trigger WorkerOk(txs, s, w)} :: 0 <= w < WIDTH ==> WorkerOk(txs, s, w))
    && (forall t, k {:trigger CellOk(txs, s, t, k)} :: 0 <= t < TXS && 0 <= k < |txs[t]| ==> CellOk(txs, s, t, k))
  }

  lemma SerialParts(i: nat, w: nat)
    requires w < WIDTH
    ensures Serial(i, w) / WIDTH == i && Serial(i, w) % WIDTH == w
  {
  }

  // A step on a row concerns one reader or one writer.
  lemma RowStepIs(row: Rc.State, op: X.Op, t: nat, mid: bool, row': Rc.State)
    requires Rc.Enabled(row, RowStep(op, t, mid)) && row' == Rc.Apply(row, RowStep(op, t, mid))
    requires OpOk(row, op, t, if mid then Middle else Before)
    ensures row'.phase == row.phase && row'.writers.Keys == row.writers.Keys && row'.readers.Keys == row.readers.Keys
    ensures OpOk(row', op, t, if Halfway(row', op, t, mid) then Middle else After)
    ensures forall u :: u in row.readers && (u != t || op.Update?) ==> row'.readers[u] == row.readers[u]
    ensures forall u :: u in row.writers && (u != t || op.Read?) ==> row'.writers[u] == row.writers[u]
  {
  }

  lemma RowsKeep(txs: Txs, s: State, w: nat, r: nat, s': State)
    requires Inv(txs, s) && Enabled(txs, s, w) && s' == Apply(txs, s, w) && r < |s.rows|
    ensures RowOk(txs, s'.rows[r], r)
  {
    assert RowOk(txs, s.rows[r], r);
    var x, t := s.workers[w], Serial(s.workers[w].i, w);
    if x.j < |txs[t]| && txs[t][x.j].row == r {
      var op := txs[t][x.j];
      SerialParts(x.i, w);
      assert CellOk(txs, s, t, x.j);
      P.StepKeeps(s.rows[r], RowStep(op, t, x.mid));
      RowStepIs(s.rows[r], op, t, x.mid, s'.rows[r]);
      forall u: nat ensures u in s'.rows[r].writers <==> u < |txs| && X.Update(r) in txs[u] {
        assert u in s'.rows[r].writers.Keys <==> u in s.rows[r].writers.Keys;
      }
      forall u: nat ensures u in s'.rows[r].readers <==> u < |txs| && X.Read(r) in txs[u] {
        assert u in s'.rows[r].readers.Keys <==> u in s.rows[r].readers.Keys;
      }
    }
  }

  // The stages of all other operations stay.
  lemma StageKeeps(txs: Txs, s: State, w: nat, t: nat, k: nat, s': State)
    requires Inv(txs, s) && Enabled(txs, s, w) && s' == Apply(txs, s, w) && t < TXS && k < |txs[t]|
    requires !(t == Serial(s.workers[w].i, w) && k == s.workers[w].j)
    ensures |s'.workers| == WIDTH && StageOf(s', t, k) == StageOf(s, t, k)
  {
    SerialParts(s.workers[w].i, w);
    assert WorkerOk(txs, s, w);
    assert t == Serial(t / WIDTH, t % WIDTH);
  }

  lemma CellsKeep(txs: Txs, s: State, w: nat, t: nat, k: nat, s': State)
    requires Inv(txs, s) && Enabled(txs, s, w) && s' == Apply(txs, s, w) && t < TXS && k < |txs[t]|
    ensures |s'.workers| == WIDTH && CellOk(txs, s', t, k)
  {
    assert CellOk(txs, s, t, k);
    var x, u := s.workers[w], Serial(s.workers[w].i, w);
    SerialParts(x.i, w);
    if x.j < |txs[u]| {
      var op := txs[u][x.j];
      assert CellOk(txs, s, u, x.j);
      RowStepIs(s.rows[op.row], op, u, x.mid, s'.rows[op.row]);
    }
    if t == u && k == x.j {
    } else {
      StageKeeps(txs, s, w, t, k, s');
    }
  }

  lemma StepKeeps(txs: Txs, s: State, w: nat)
    requires Inv(txs, s) && Enabled(txs, s, w)
    ensures Inv(txs, Apply(txs, s, w))
  {
    var s' := Apply(txs, s, w);
    forall r | 0 <= r < |s'.rows| ensures RowOk(txs, s'.rows[r], r) { RowsKeep(txs, s, w, r, s'); }
    forall v | 0 <= v < WIDTH ensures WorkerOk(txs, s', v) { assert WorkerOk(txs, s, v); }
    forall t, k | 0 <= t < TXS && 0 <= k < |txs[t]| ensures CellOk(txs, s', t, k) { CellsKeep(txs, s, w, t, k, s'); }
  }

  lemma {:induction false} RunKeeps(txs: Txs, s: State, steps: seq<nat>)
    requires Inv(txs, s) && IsRun(txs, s, steps)
    ensures Inv(txs, Exec(txs, s, steps))
    decreases |steps|
  {
    if steps != [] {
      StepKeeps(txs, s, steps[0]);
      RunKeeps(txs, Apply(txs, s, steps[0]), steps[1..]);
    }
  }

  lemma StartInv(txs: Txs, s: State)
    requires Init(txs, s)
    ensures Inv(txs, s)
  {
    forall r | 0 <= r < |s.rows| ensures RowOk(txs, s.rows[r], r) { assert RowReady(txs, s.rows[r], r); }
    forall w | 0 <= w < WIDTH ensures WorkerOk(txs, s, w) { }
    forall t, k | 0 <= t < TXS && 0 <= k < |txs[t]| ensures CellOk(txs, s, t, k) {
      assert RowReady(txs, s.rows[txs[t][k].row], txs[t][k].row);
      assert txs[t][k] in txs[t];
    }
  }

  // ----- Progress -----

  // A reader that has to wait waits for a writer with a smaller serial id that has not stored its version.
  lemma WaitsForWriter(row: Rc.State, t: nat) returns (u: nat)
    requires Rc.Inv(row) && row.phase.Executing? && t in row.readers && row.readers[t].pc.Waiting?
    requires !Rc.Enabled(row, Rc.Observe(t))
    ensures u < t && u in row.writers && !row.writers[u].Done?
  {
    assert Rc.ReaderOk(row, t);
    P.OutSome(row.readers, t);
    P.MasterStable(row, t);
    u := row.readers[t].from;
    assert Rc.PlaceOk(row, Slot(u, row.readers[t].ver));
  }

  // Every other operation can go on.
  lemma Blocked(txs: Txs, s: State, w: nat) returns (u: nat)
    requires Inv(txs, s) && Running(txs, s, w) && !Enabled(txs, s, w)
    ensures u < Serial(s.workers[w].i, w) && u / WIDTH >= s.workers[u % WIDTH].i
  {
    var x, t := s.workers[w], Serial(s.workers[w].i, w);
    assert WorkerOk(txs, s, w);
    SerialParts(x.i, w);
    var op := txs[t][x.j];
    var row := s.rows[op.row];
    assert CellOk(txs, s, t, x.j) && RowOk(txs, row, op.row);
    if op.Update? {
      P.AskFits(row, t);
    } else if x.mid {
      P.OutSome(row.readers, t);
    }
    u := WaitsForWriter(row, t);
    assert X.Update(op.row) in txs[u];
    var k :| 0 <= k < |txs[u]| && txs[u][k] == X.Update(op.row);
    assert CellOk(txs, s, u, k);
  }

  lemma {:induction false} Runnable(txs: Txs, s: State, w: nat) returns (v: nat)
    requires Inv(txs, s) && Running(txs, s, w)
    ensures Enabled(txs, s, v)
    decreases Serial(s.workers[w].i, w)
  {
    if Enabled(txs, s, w) {
      v := w;
    } else {
      var u := Blocked(txs, s, w);
      assert WorkerOk(txs, s, u % WIDTH);
      v := Runnable(txs, s, u % WIDTH);
    }
  }

  // Whatever the rows and the transactions, until all have finished some worker can step without waiting.
  lemma NeverStuck(txs: Txs, s: State, steps: seq<nat>)
    requires Init(txs, s) && IsRun(txs, s, steps) && !Finished(Exec(txs, s, steps))
    ensures exists w :: Enabled(txs, Exec(txs, s, steps), w)
  {
    StartInv(txs, s);
    RunKeeps(txs, s, steps);
    var s' := Exec(txs, s, steps);
    var w :| 0 <= w < |s'.workers| && s'.workers[w].i != WIDTH;
    assert WorkerOk(txs, s', w);
    var v := Runnable(txs, s', w);
  }

  // When all have finished every row can end the epoch, and is then ready for the next.
  lemma EpochEnds(txs: Txs, s: State, steps: seq<nat>, r: nat)
    requires Init(txs, s) && IsRun(txs, s, steps) && Finished(Exec(txs, s, steps)) && r < |s.rows|
    ensures |Exec(txs, s, steps).rows| == |s.rows|
    ensures var row := Exec(txs, s, steps).rows[r];
            Rc.Enabled(row, Rc.EndEpoch) && RowStarts(Rc.Apply(row, Rc.EndEpoch))
  {
    StartInv(txs, s);
    RunKeeps(txs, s, steps);
    SameRows(txs, s, steps);
    var s' := Exec(txs, s, steps);
    var row := s'.rows[r];
    assert RowOk(txs, row, r);
    forall t | t in row.writers ensures row.writers[t].Done? {
      var k :| 0 <= k < |txs[t]| && txs[t][k] == X.Update(r);
      assert CellOk(txs, s', t, k);
    }
    forall t | t in row.readers ensures row.readers[t].pc.Gone? {
      var k :| 0 <= k < |txs[t]| && txs[t][k] == X.Read(r);
      assert CellOk(txs, s', t, k);
    }
    P.StepKeeps(row, Rc.EndEpoch);
  }

  lemma {:induction false} SameRows(txs: Txs, s: State, steps: seq<nat>)
    requires IsRun(txs, s, steps)
    ensures |Exec(txs, s, steps).rows| == |s.rows|
    decreases |steps|
  {
    if steps != [] {
      SameRows(txs, Apply(txs, s, steps[0]), steps[1..]);
    }
  }

  // ----- The phase ends -----

  // The steps that worker w has left at most, from transaction i * 64 + w: two for each operation, one for the end.
  ghost function Later(txs: Txs, i: nat, w: nat): nat
    decreases WIDTH - i
  {
    if i >= WIDTH || Serial(i, w) >= |txs| then 0 else 2 * |txs[Serial(i, w)]| + 1 + Later(txs, i + 1, w)
  }

  ghost function Left(txs: Txs, x: Worker, w: nat): int {
    Later(txs, x.i, w) - 2 * x.j - if x.mid then 1 else 0
  }

  ghost function AllLeft(txs: Txs, workers: seq<Worker>): int {
    if workers == [] then 0
    else AllLeft(txs, workers[..|workers| - 1]) + Left(txs, workers[|workers| - 1], |workers| - 1)
  }

  lemma {:induction false} LeftUpdate(txs: Txs, workers: seq<Worker>, w: nat, x: Worker)
    requires w < |workers| && Left(txs, x, w) < Left(txs, workers[w], w)
    ensures AllLeft(txs, workers[w := x]) < AllLeft(txs, workers)
  {
    var n := |workers| - 1;
    if w < n {
      LeftUpdate(txs, workers[..n], w, x);
      assert workers[w := x][..n] == workers[..n][w := x];
    } else {
      assert workers[w := x][..n] == workers[..n];
    }
  }

  lemma WorkerLowers(txs: Txs, x: Worker, w: nat, x': Worker)
    requires x.i < WIDTH && Serial(x.i, w) < |txs|
    requires if x.j == |txs[Serial(x.i, w)]| then !x.mid && x' == Worker(x.i + 1, 0, false)
             else x' == Worker(x.i, x.j + 1, false) || (!x.mid && x' == Worker(x.i, x.j, true))
    ensures Left(txs, x', w) < Left(txs, x, w)
  {
  }

  lemma StepLowers(txs: Txs, s: State, w: nat)
    requires Inv(txs, s) && Enabled(txs, s, w)
    ensures AllLeft(txs, Apply(txs, s, w).workers) < AllLeft(txs, s.workers)
  {
    assert WorkerOk(txs, s, w);
    var workers' := Apply(txs, s, w).workers;
    assert workers' == s.workers[w := workers'[w]];
    WorkerLowers(txs, s.workers[w], w, workers'[w]);
    LeftUpdate(txs, s.workers, w, workers'[w]);
  }

  lemma {:induction false} AllLeftNotNegative(txs: Txs, s: State, n: nat)
    requires Inv(txs, s) && n <= WIDTH
    ensures AllLeft(txs, s.workers[..n]) >= 0
  {
    if n > 0 {
      AllLeftNotNegative(txs, s, n - 1);
      assert s.workers[..n][..n - 1] == s.workers[..n - 1];
      assert WorkerOk(txs, s, n - 1);
    }
  }

  lemma {:induction false} RunLength(txs: Txs, s: State, steps: seq<nat>)
    requires Inv(txs, s) && IsRun(txs, s, steps)
    ensures |steps| <= AllLeft(txs, s.workers)
    decreases |steps|
  {
    if steps == [] {
      AllLeftNotNegative(txs, s, WIDTH);
      assert s.workers[..WIDTH] == s.workers;
    } else {
      StepLowers(txs, s, steps[0]);
      StepKeeps(txs, s, steps[0]);
      RunLength(txs, Apply(txs, s, steps[0]), steps[1..]);
    }
  }

  // ----- Any number of epochs -----

  // One epoch: its transactions, who marks and announces itself on each row in which order, and the schedule of the
  // execution.
  datatype Epoch = Epoch(txs: Txs, marks: seq<seq<nat>>, announced: seq<seq<nat>>, exec: seq<nat>)

  ghost predicate RowPrepared(e: Epoch, s: Rc.State, r: nat)
    requires r < |e.marks| && r < |e.announced|
  {
    && Rc.IsRun(s, Preparation(e.marks[r], e.announced[r]))
    && (forall t: nat :: t in e.marks[r] <==> t < |e.txs| && X.Update(r) in e.txs[t])
    && (forall t: nat :: t in e.announced[r] <==> t < |e.txs| && X.Read(r) in e.txs[t])
  }

  ghost predicate Prepares(e: Epoch, rows: seq<Rc.State>) {
    && TxsOk(e.txs, |rows|) && |e.marks| == |e.announced| == |rows|
    && forall r {:trigger RowPrepared(e, rows[r], r)} :: 0 <= r < |rows| ==> RowPrepared(e, rows[r], r)
  }

  ghost function Start(e: Epoch, rows: seq<Rc.State>): State
    requires Prepares(e, rows)
  {
    State(seq(|rows|, r requires 0 <= r < |rows| =>
                assert RowPrepared(e, rows[r], r); Rc.Exec(rows[r], Preparation(e.marks[r], e.announced[r]))),
          seq(WIDTH, _ => Worker(0, 0, false)))
  }

  ghost predicate EpochRuns(e: Epoch, rows: seq<Rc.State>) {
    Prepares(e, rows) && IsRun(e.txs, Start(e, rows), e.exec)
  }

  ghost predicate CanEnd(rows: seq<Rc.State>) {
    forall r :: 0 <= r < |rows| ==> Rc.Enabled(rows[r], Rc.EndEpoch)
  }

  // The epochs run one after the other, each to its end.
  ghost predicate IsHistory(rows: seq<Rc.State>, epochs: seq<Epoch>)
    decreases |epochs|
  {
    epochs == [] || (
      && EpochRuns(epochs[0], rows) && Finished(Outcome(epochs[0], rows))
      && CanEnd(Outcome(epochs[0], rows).rows) && IsHistory(Next(Outcome(epochs[0], rows).rows), epochs[1..]))
  }

  ghost function Outcome(e: Epoch, rows: seq<Rc.State>): State
    requires EpochRuns(e, rows)
  {
    Exec(e.txs, Start(e, rows), e.exec)
  }

  ghost function Next(rows: seq<Rc.State>): seq<Rc.State>
    requires CanEnd(rows)
  {
    seq(|rows|, r requires 0 <= r < |rows| => Rc.Apply(rows[r], Rc.EndEpoch))
  }

  ghost function Final(rows: seq<Rc.State>, epochs: seq<Epoch>): seq<Rc.State>
    requires IsHistory(rows, epochs)
    decreases |epochs|
  {
    if epochs == [] then rows else Final(Next(Outcome(epochs[0], rows).rows), epochs[1..])
  }

  ghost predicate RowsStart(rows: seq<Rc.State>) {
    forall r {:trigger RowStarts(rows[r])} :: 0 <= r < |rows| ==> RowStarts(rows[r])
  }

  lemma StartIsInit(e: Epoch, rows: seq<Rc.State>)
    requires RowsStart(rows) && Prepares(e, rows)
    ensures Init(e.txs, Start(e, rows))
  {
    var s := Start(e, rows);
    forall r | 0 <= r < |s.rows| ensures RowReady(e.txs, s.rows[r], r) {
      assert RowStarts(rows[r]) && RowPrepared(e, rows[r], r);
      PreparedIsReady(e.txs, rows[r], e.marks[r], e.announced[r], r);
    }
  }

  // An epoch whose workers have all finished can end on every row.
  lemma EndsStart(e: Epoch, rows: seq<Rc.State>)
    requires RowsStart(rows) && EpochRuns(e, rows) && Finished(Outcome(e, rows))
    ensures CanEnd(Outcome(e, rows).rows) && RowsStart(Next(Outcome(e, rows).rows))
  {
    StartIsInit(e, rows);
    SameRows(e.txs, Start(e, rows), e.exec);
    forall r | 0 <= r < |rows|
      ensures Rc.Enabled(Outcome(e, rows).rows[r], Rc.EndEpoch)
      ensures RowStarts(Rc.Apply(Outcome(e, rows).rows[r], Rc.EndEpoch))
    {
      EpochEnds(e.txs, Start(e, rows), e.exec, r);
    }
  }

  lemma {:induction false} HistoryStarts(rows: seq<Rc.State>, epochs: seq<Epoch>)
    requires RowsStart(rows) && IsHistory(rows, epochs)
    ensures RowsStart(Final(rows, epochs))
    decreases |epochs|
  {
    if epochs != [] {
      EndsStart(epochs[0], rows);
      HistoryStarts(Next(Outcome(epochs[0], rows).rows), epochs[1..]);
    }
  }

  // From loaded rows, after any number of epochs and in any interleaving: the workers never all wait, the phase takes
  // at most two steps for an operation and one for a transaction, and when it is over every row can end the epoch.
  lemma EveryEpochEnds(rows: seq<Rc.State>, epochs: seq<Epoch>, e: Epoch)
    requires (forall r :: 0 <= r < |rows| ==> Rc.Init(rows[r])) && IsHistory(rows, epochs)
    requires EpochRuns(e, Final(rows, epochs))
    ensures var s := Outcome(e, Final(rows, epochs));
            if Finished(s) then CanEnd(s.rows) else exists w :: Enabled(e.txs, s, w)
    ensures |e.exec| <= AllLeft(e.txs, Start(e, Final(rows, epochs)).workers)
  {
    forall r | 0 <= r < |rows| ensures RowStarts(rows[r]) { P.Reachable(rows[r], []); }
    HistoryStarts(rows, epochs);
    var now := Final(rows, epochs);
    StartIsInit(e, now);
    StartInv(e.txs, Start(e, now));
    RunLength(e.txs, Start(e, now), e.exec);
    if Finished(Outcome(e, now)) {
      EndsStart(e, now);
    } else {
      NeverStuck(e.txs, Start(e, now), e.exec);
    }
  }
}
