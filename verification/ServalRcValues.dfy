/** Serval_RC with records: what the transactions of an epoch read and write on any number of rows, over any number of
    epochs, against running them one by one. */
module ServalRcValues {
  import opened SortedSlots
  import opened Bitmap
  import opened ServalRcOps
  import E = ServalRcExec
  import M = ServalRcMaster
  import P = ServalRcProof
  import Rc = ServalRc
  import X = Execution

  type Vals = map<VersionId, X.Val>

  // `vals`: the records of each row's versions; `got`: what each worker's transaction has read; `done`: what finished
  // transactions have read (a history variable).
  datatype State = State(s: E.State, vals: seq<Vals>, got: seq<seq<X.Val>>, done: map<nat, seq<X.Val>>)

  predicate Enabled(e: X.Epoch, d: State, w: nat) {
    && E.Enabled(e.txs, d.s, w) && w < |d.got| && |d.vals| == |d.s.rows|
    && var x, t := d.s.workers[w], E.Serial(d.s.workers[w].i, w);
       x.j < |e.txs[t]| ==> e.txs[t][x.j].row < |d.vals|
  }

  // A read returns the record of the version that the reader was given; a store writes what the transaction computes.
  function Apply(e: X.Epoch, d: State, w: nat): State
    requires Enabled(e, d, w)
  {
    var x, t := d.s.workers[w], E.Serial(d.s.workers[w].i, w);
    var d' := d.(s := E.Apply(e.txs, d.s, w));
    if x.j >= |e.txs[t]| then d'.(got := d.got[w := []], done := d.done[t := d.got[w]])
    else
      var op := e.txs[t][x.j];
      var row := d.s.rows[op.row];
      if op.Read? && !x.mid then d'.(got := d.got[w := d.got[w] + [X.ValueOf(d.vals[op.row], row.readers[t].ver)]])
      else if op.Update? && x.mid then
        d'.(vals := d.vals[op.row := d.vals[op.row][row.writers[t].ver := e.compute(t, x.j, d.got[w])]])
      else d'
  }

  predicate IsRun(e: X.Epoch, d: State, steps: seq<nat>)
    decreases |steps|
  {
    steps == [] || (Enabled(e, d, steps[0]) && IsRun(e, Apply(e, d, steps[0]), steps[1..]))
  }

  function Exec(e: X.Epoch, d: State, steps: seq<nat>): State
    requires IsRun(e, d, steps)
    decreases |steps|
  {
    if steps == [] then d else Exec(e, Apply(e, d, steps[0]), steps[1..])
  }

  // ----- What holds throughout -----

  // The versions stored in this epoch hold what their writers write serially; the old master holds the old record.
  ghost predicate RowVals(e: X.Epoch, row: Rc.State, vals: Vals, r: nat)
    requires X.EpochOk(e) && r < |e.base|
  {
    && row.start in row.stable && row.start !in row.maker && X.ValueOf(vals, row.start) == e.base[r]
    && (forall v :: v in row.maker ==> MadeSerially(e, row.maker[v], X.ValueOf(vals, v), r))
  }

  ghost predicate MadeSerially(e: X.Epoch, t: nat, val: X.Val, r: nat)
    requires X.EpochOk(e)
  {
    X.Writes(e, t, r) && val == X.SerialWrite(e, t, r)
  }

  // The operations whose reads the transaction has.
  function ReadSoFar(e: X.Epoch, t: nat, x: E.Worker): nat
    requires t < |e.txs|
  {
    if x.mid && x.j < |e.txs[t]| && e.txs[t][x.j].Read? then x.j + 1 else x.j
  }

  ghost predicate WorkerVals(e: X.Epoch, d: State, w: nat)
    requires X.EpochOk(e) && w < |d.s.workers| && w < |d.got|
  {
    E.Running(e.txs, d.s, w) ==>
      var x, t := d.s.workers[w], E.Serial(d.s.workers[w].i, w);
      ReadSoFar(e, t, x) <= |e.txs[t]| && d.got[w] == X.ReadsIn(X.SerialDb(e, t), e.txs[t], ReadSoFar(e, t, x))
  }

  ghost predicate DoneVals(e: X.Epoch, d: State, t: nat)
    requires X.EpochOk(e)
  {
    t < |e.txs| && t in d.done && d.done[t] == X.ReadsIn(X.SerialDb(e, t), e.txs[t], |e.txs[t]|)
  }

  ghost predicate Inv(e: X.Epoch, start: E.State, d: State) {
    && X.EpochOk(e) && E.Inv(e.txs, d.s) && |d.vals| == |d.s.rows| == |e.base| == |start.rows| && |d.got| == WIDTH
    && (forall r {:trigger M.Segment(start.rows[r], d.s.rows[r])} :: 0 <= r < |d.s.rows| ==>
          M.Segment(start.rows[r], d.s.rows[r]))
    && (forall r {:trigger RowVals(e, d.s.rows[r], d.vals[r], r)} :: 0 <= r < |d.s.rows| ==>
          RowVals(e, d.s.rows[r], d.vals[r], r))
    && (forall w {:trigger WorkerVals(e, d, w)} :: 0 <= w < WIDTH ==> WorkerVals(e, d, w))
    && (forall t {:trigger DoneVals(e, d, t)} :: t in d.done ==> DoneVals(e, d, t))
  }

  // The last writer before t is unique.
  lemma VisibleIs(e: X.Epoch, row: Rc.State, r: nat, t: nat, v: int)
    requires t < |e.txs| && IsVisible(row.writers.Keys, t, v) && v >= -1
    requires forall u: nat :: u in row.writers <==> u < |e.txs| && X.Update(r) in e.txs[u]
    ensures X.Visible(e, r, t) == v
  {
    var x := X.Visible(e, r, t);
    if v >= 0 { assert v in row.writers.Keys && X.Writes(e, v, r); }
    if x >= 0 { assert x in row.writers.Keys; }
  }

  // The record that a reader finds is the serial one.
  lemma FoundIsSerial(e: X.Epoch, row: Rc.State, vals: Vals, r: nat, t: nat)
    requires X.EpochOk(e) && |e.txs| == TXS && r < |e.base| && E.RowOk(e.txs, row, r) && RowVals(e, row, vals, r)
    requires t in row.readers && Rc.Enabled(row, Rc.Observe(t))
    ensures t < |e.txs| && X.ValueOf(vals, row.readers[t].ver) == X.SerialDb(e, t)[r]
  {
    var x := row.readers[t];
    assert Rc.ReaderOk(row, t);
    VisibleIs(e, row, r, t, x.from);
    X.SerialIsVisible(e, r, t);
    if x.from >= 0 {
      assert Rc.PlaceOk(row, Slot(x.from, x.ver));
      assert MadeSerially(e, row.maker[x.ver], X.ValueOf(vals, x.ver), r);
    }
  }

  // What a store writes is what the transaction writes serially.
  lemma StoredIsSerial(e: X.Epoch, d: State, start: E.State, w: nat)
    requires Inv(e, start, d) && E.Running(e.txs, d.s, w)
    requires var x, t := d.s.workers[w], E.Serial(d.s.workers[w].i, w); x.j < |e.txs[t]| && e.txs[t][x.j].Update?
    ensures var x, t := d.s.workers[w], E.Serial(d.s.workers[w].i, w);
            MadeSerially(e, t, e.compute(t, x.j, d.got[w]), e.txs[t][x.j].row)
  {
    var x, t := d.s.workers[w], E.Serial(d.s.workers[w].i, w);
    var r := e.txs[t][x.j].row;
    assert WorkerVals(e, d, w);
    assert e.txs[t][x.j] == X.Update(r);
    assert X.FirstUpdate(e.txs[t], r) == x.j;
  }

  lemma StepRowVals(e: X.Epoch, row: Rc.State, vals: Vals, r: nat, step: Rc.Step)
    requires X.EpochOk(e) && r < |e.base| && RowVals(e, row, vals, r) && M.ExecStep(step) && !step.Store?
    requires Rc.Enabled(row, step)
    ensures RowVals(e, Rc.Apply(row, step), vals, r)
  {
    var row' := Rc.Apply(row, step);
    assert row'.maker == row.maker && row'.stable == row.stable && row'.start == row.start;
  }

  lemma RowsKeep(e: X.Epoch, start: E.State, d: State, w: nat, d': State, r: nat)
    requires Inv(e, start, d) && Enabled(e, d, w) && d' == Apply(e, d, w) && r < |d.s.rows|
    ensures |d'.s.rows| == |d'.vals| == |d.s.rows|
    ensures M.Segment(start.rows[r], d'.s.rows[r]) && RowVals(e, d'.s.rows[r], d'.vals[r], r)
  {
    assert M.Segment(start.rows[r], d.s.rows[r]) && RowVals(e, d.s.rows[r], d.vals[r], r);
    var x, t := d.s.workers[w], E.Serial(d.s.workers[w].i, w);
    if x.j < |e.txs[t]| && e.txs[t][x.j].row == r {
      var step := E.RowStep(e.txs[t][x.j], t, x.mid);
      M.StepSegment(start.rows[r], d.s.rows[r], step);
      if step.Store? {
        StoredIsSerial(e, d, start, w);
        StoreVals(e, d.s.rows[r], d.vals[r], r, t, e.compute(t, x.j, d.got[w]));
      } else {
        StepRowVals(e, d.s.rows[r], d.vals[r], r, step);
      }
    }
  }

  lemma StoreVals(e: X.Epoch, row: Rc.State, vals: Vals, r: nat, t: nat, val: X.Val)
    requires X.EpochOk(e) && r < |e.base| && Rc.Inv(row) && Rc.Enabled(row, Rc.Store(t)) && RowVals(e, row, vals, r)
    requires MadeSerially(e, t, val, r)
    ensures RowVals(e, Rc.Apply(row, Rc.Store(t)), vals[row.writers[t].ver := val], r)
  {
    assert Rc.WriterOk(row, t);
    var v, row', vals' := row.writers[t].ver, Rc.Apply(row, Rc.Store(t)), vals[row.writers[t].ver := val];
    forall u | u in row'.maker ensures MadeSerially(e, row'.maker[u], X.ValueOf(vals', u), r) {
      if u != v { assert MadeSerially(e, row.maker[u], X.ValueOf(vals, u), r); }
    }
  }

  // What the worker's next read adds is serial.
  lemma NextRead(e: X.Epoch, start: E.State, d: State, w: nat)
    requires Inv(e, start, d) && Enabled(e, d, w)
    requires var x, t := d.s.workers[w], E.Serial(d.s.workers[w].i, w);
             x.j < |e.txs[t]| && e.txs[t][x.j].Read? && !x.mid
    ensures var x, t := d.s.workers[w], E.Serial(d.s.workers[w].i, w);
            Apply(e, d, w).got == d.got[w := X.ReadsIn(X.SerialDb(e, t), e.txs[t], x.j + 1)]
  {
    assert WorkerVals(e, d, w);
    var x, t := d.s.workers[w], E.Serial(d.s.workers[w].i, w);
    var r := e.txs[t][x.j].row;
    assert E.RowOk(e.txs, d.s.rows[r], r) && RowVals(e, d.s.rows[r], d.vals[r], r);
    FoundIsSerial(e, d.s.rows[r], d.vals[r], r, t);
  }

  // Every other step of an operation leaves the reads as they are.
  lemma SameReads(e: X.Epoch, t: nat, x: E.Worker, x': E.Worker)
    requires X.EpochOk(e) && t < |e.txs| && x.j < |e.txs[t]| && (e.txs[t][x.j].Read? ==> x.mid)
    requires x' == E.Worker(x.i, x.j + 1, false) || (x' == x.(mid := true) && e.txs[t][x.j].Update?)
    ensures ReadSoFar(e, t, x) <= |e.txs[t]| && ReadSoFar(e, t, x') <= |e.txs[t]|
    ensures X.ReadsIn(X.SerialDb(e, t), e.txs[t], ReadSoFar(e, t, x'))
            == X.ReadsIn(X.SerialDb(e, t), e.txs[t], ReadSoFar(e, t, x))
  {
  }

  lemma NextWorker(e: X.Epoch, d: State, w: nat)
    requires Enabled(e, d, w)
    requires var x, t := d.s.workers[w], E.Serial(d.s.workers[w].i, w); x.j < |e.txs[t]|
    ensures var x, t := d.s.workers[w], E.Serial(d.s.workers[w].i, w);
            var x' := Apply(e, d, w).s.workers[w];
            && (x' == E.Worker(x.i, x.j + 1, false) || (x' == x.(mid := true) && !x.mid))
            && (e.txs[t][x.j].Read? ==> x'.mid == !x.mid)
            && (!e.txs[t][x.j].Read? || x.mid ==> Apply(e, d, w).got == d.got)
  {
  }

  lemma WorkerKeeps(e: X.Epoch, start: E.State, d: State, w: nat, d': State)
    requires Inv(e, start, d) && Enabled(e, d, w) && d' == Apply(e, d, w)
    ensures WorkerVals(e, d', w)
  {
    assert WorkerVals(e, d, w) && E.WorkerOk(e.txs, d.s, w);
    var x, t := d.s.workers[w], E.Serial(d.s.workers[w].i, w);
    if x.j < |e.txs[t]| {
      NextWorker(e, d, w);
      if e.txs[t][x.j].Read? && !x.mid {
        NextRead(e, start, d, w);
      } else {
        SameReads(e, t, x, d'.s.workers[w]);
      }
    }
  }

  lemma WorkersKeep(e: X.Epoch, start: E.State, d: State, w: nat, d': State, v: nat)
    requires Inv(e, start, d) && Enabled(e, d, w) && d' == Apply(e, d, w) && v < WIDTH
    ensures |d'.got| == |d'.s.workers| == WIDTH && WorkerVals(e, d', v)
  {
    if v == w {
      WorkerKeeps(e, start, d, w, d');
    } else {
      assert WorkerVals(e, d, v);
      assert d'.s.workers[v] == d.s.workers[v] && d'.got[v] == d.got[v];
    }
  }

  lemma DonesKeep(e: X.Epoch, start: E.State, d: State, w: nat, d': State, t: nat)
    requires Inv(e, start, d) && Enabled(e, d, w) && d' == Apply(e, d, w) && t in d'.done
    ensures DoneVals(e, d', t)
  {
    if t in d.done { assert DoneVals(e, d, t); }
    assert WorkerVals(e, d, w) && E.WorkerOk(e.txs, d.s, w);
  }

  lemma StepKeeps(e: X.Epoch, start: E.State, d: State, w: nat)
    requires Inv(e, start, d) && Enabled(e, d, w)
    ensures Inv(e, start, Apply(e, d, w))
  {
    var d' := Apply(e, d, w);
    E.StepKeeps(e.txs, d.s, w);
    forall r | 0 <= r < |d'.s.rows|
      ensures M.Segment(start.rows[r], d'.s.rows[r]) && RowVals(e, d'.s.rows[r], d'.vals[r], r)
    {
      RowsKeep(e, start, d, w, d', r);
    }
    forall v | 0 <= v < WIDTH ensures WorkerVals(e, d', v) { WorkersKeep(e, start, d, w, d', v); }
    forall t | t in d'.done ensures DoneVals(e, d', t) { DonesKeep(e, start, d, w, d', t); }
  }

  lemma {:induction false} RunKeeps(e: X.Epoch, start: E.State, d: State, steps: seq<nat>)
    requires Inv(e, start, d) && IsRun(e, d, steps)
    ensures Inv(e, start, Exec(e, d, steps))
    decreases |steps|
  {
    if steps != [] {
      StepKeeps(e, start, d, steps[0]);
      RunKeeps(e, start, Apply(e, d, steps[0]), steps[1..]);
    }
  }

  // ----- One epoch -----

  // The rows between two epochs, with their records.
  datatype Db = Db(rows: seq<Rc.State>, vals: seq<Vals>)

  datatype Run = Run(epoch: E.Epoch, compute: (nat, nat, seq<X.Val>) -> X.Val)

  ghost predicate DbOk(db: Db) {
    E.RowsStart(db.rows) && |db.vals| == |db.rows|
  }

  // The records of the masters.
  function Records(db: Db): (recs: seq<X.Val>)
    requires |db.vals| == |db.rows|
    ensures |recs| == |db.rows|
  {
    seq(|db.rows|, r requires 0 <= r < |db.rows| => X.ValueOf(db.vals[r], db.rows[r].wb.master))
  }

  function EpochOn(run: Run, recs: seq<X.Val>): X.Epoch {
    X.PlainEpoch(run.epoch.txs, WIDTH, recs, run.compute)
  }

  lemma EpochIsOk(run: Run, recs: seq<X.Val>)
    requires E.TxsOk(run.epoch.txs, |recs|)
    ensures X.EpochOk(EpochOn(run, recs))
  {
    var txs := run.epoch.txs;
    forall t, op: X.Op | 0 <= t < |txs| && op in txs[t] ensures op.row < |recs| {
      var k :| 0 <= k < |txs[t]| && txs[t][k] == op;
    }
  }

  ghost function Start(db: Db, run: Run): State
    requires E.Prepares(run.epoch, db.rows)
  {
    State(E.Start(run.epoch, db.rows), db.vals, seq(WIDTH, _ => []), map[])
  }

  ghost predicate EpochRuns(db: Db, run: Run) {
    && |db.vals| == |db.rows| && E.Prepares(run.epoch, db.rows)
    && IsRun(EpochOn(run, Records(db)), Start(db, run), run.epoch.exec)
  }

  ghost function Outcome(db: Db, run: Run): State
    requires EpochRuns(db, run)
  {
    Exec(EpochOn(run, Records(db)), Start(db, run), run.epoch.exec)
  }

  lemma StartRow(db: Db, run: Run, r: nat)
    requires DbOk(db) && E.Prepares(run.epoch, db.rows) && r < |db.rows|
    ensures var row := E.Start(run.epoch, db.rows).rows[r];
            M.Starts(row) && row.start == row.wb.master == db.rows[r].wb.master
  {
    assert E.RowStarts(db.rows[r]) && E.RowPrepared(run.epoch, db.rows[r], r);
    E.PreparedIsReady(run.epoch.txs, db.rows[r], run.epoch.marks[r], run.epoch.announced[r], r);
  }

  lemma StartInv(db: Db, run: Run)
    requires DbOk(db) && E.Prepares(run.epoch, db.rows)
    ensures Inv(EpochOn(run, Records(db)), Start(db, run).s, Start(db, run))
  {
    var e, d := EpochOn(run, Records(db)), Start(db, run);
    EpochIsOk(run, Records(db));
    E.StartIsInit(run.epoch, db.rows);
    E.StartInv(e.txs, d.s);
    forall r | 0 <= r < |d.s.rows|
      ensures M.Segment(d.s.rows[r], d.s.rows[r]) && RowVals(e, d.s.rows[r], d.vals[r], r)
    {
      StartRow(db, run, r);
      M.StartSegment(d.s.rows[r]);
    }
    forall w | 0 <= w < WIDTH ensures WorkerVals(e, d, w) { }
  }

  lemma EpochInv(db: Db, run: Run)
    requires DbOk(db) && EpochRuns(db, run)
    ensures Inv(EpochOn(run, Records(db)), Start(db, run).s, Outcome(db, run))
  {
    StartInv(db, run);
    RunKeeps(EpochOn(run, Records(db)), Start(db, run).s, Start(db, run), run.epoch.exec);
  }

  // The machine without records takes the same steps.
  lemma {:induction false} Projects(e: X.Epoch, d: State, steps: seq<nat>)
    requires IsRun(e, d, steps)
    ensures E.IsRun(e.txs, d.s, steps) && Exec(e, d, steps).s == E.Exec(e.txs, d.s, steps)
    decreases |steps|
  {
    if steps != [] {
      Projects(e, Apply(e, d, steps[0]), steps[1..]);
    }
  }

  ghost predicate EpochEnds(db: Db, run: Run) {
    EpochRuns(db, run) && E.Finished(Outcome(db, run).s) && E.CanEnd(Outcome(db, run).s.rows)
  }

  ghost function Next(db: Db, run: Run): Db
    requires EpochEnds(db, run)
  {
    Db(E.Next(Outcome(db, run).s.rows), Outcome(db, run).vals)
  }

  lemma NextOk(db: Db, run: Run)
    requires DbOk(db) && EpochEnds(db, run)
    ensures DbOk(Next(db, run)) && |Next(db, run).rows| == |db.rows|
  {
    EpochInv(db, run);
    Projects(EpochOn(run, Records(db)), Start(db, run), run.epoch.exec);
    E.EndsStart(run.epoch, db.rows);
  }

  // ----- When the masters are the serial records -----

  predicate ReadsRow(txs: E.Txs, u: nat, r: nat) {
    u < |txs| && X.Read(r) in txs[u]
  }

  predicate WritesRow(txs: E.Txs, u: nat, r: nat) {
    u < |txs| && X.Update(r) in txs[u]
  }

  // If the row is written, somebody reads behind its last writer, or it has one writer and no reader.
  ghost predicate LastKnown(txs: E.Txs, r: nat) {
    forall m: nat {:trigger WritesRow(txs, m, r)} ::
      WritesRow(txs, m, r) && (forall u: nat {:trigger WritesRow(txs, u, r)} :: WritesRow(txs, u, r) ==> u <= m) ==>
        || (exists u: nat {:trigger ReadsRow(txs, u, r)} :: ReadsRow(txs, u, r) && m < u)
        || ((forall u: nat {:trigger ReadsRow(txs, u, r)} :: !ReadsRow(txs, u, r))
            && forall u: nat {:trigger WritesRow(txs, u, r)} :: WritesRow(txs, u, r) ==> u == m)
  }

  lemma LastKnownWins(txs: E.Txs, row: Rc.State, r: nat, m: nat)
    requires E.RowReady(txs, row, r) && LastKnown(txs, r) && WritesRow(txs, m, r)
    requires forall u: nat {:trigger WritesRow(txs, u, r)} :: WritesRow(txs, u, r) ==> u <= m
    ensures M.IsMax(row.writers.Keys, m) && M.LastWins(row, m)
  {
    forall u: nat
      ensures (u in row.writers <==> WritesRow(txs, u, r)) && (u in row.readers <==> ReadsRow(txs, u, r))
    {
    }
    if forall u: nat {:trigger ReadsRow(txs, u, r)} :: !ReadsRow(txs, u, r) {
      assert row.readers == map[];
      assert row.writers.Keys == {m};
    } else {
      var u: nat :| ReadsRow(txs, u, r) && m < u;
      assert u in row.readers;
    }
  }

  lemma WrittenIsSerial(db: Db, run: Run, r: nat, m: nat)
    requires DbOk(db) && EpochEnds(db, run) && r < |db.rows| && LastKnown(run.epoch.txs, r)
    requires X.EpochOk(EpochOn(run, Records(db))) && m == X.Visible(EpochOn(run, Records(db)), r, TXS)
    ensures r < |Outcome(db, run).vals| && r < |Outcome(db, run).s.rows|
    ensures X.ValueOf(Outcome(db, run).vals[r], Outcome(db, run).s.rows[r].wb.master)
            == X.SerialWrite(EpochOn(run, Records(db)), m, r)
  {
    var e, d, start := EpochOn(run, Records(db)), Outcome(db, run), Start(db, run).s;
    EpochInv(db, run);
    E.StartIsInit(run.epoch, db.rows);
    assert E.RowReady(e.txs, start.rows[r], r);
    forall u: nat | WritesRow(e.txs, u, r) ensures u <= m { assert X.Writes(e, u, r); }
    LastKnownWins(e.txs, start.rows[r], r, m);
    var row := d.s.rows[r];
    M.LastStays(start.rows[r], row, m);
    assert RowVals(e, row, d.vals[r], r);
    assert MadeSerially(e, row.maker[row.wb.master], X.ValueOf(d.vals[r], row.wb.master), r);
  }

  lemma UnwrittenIsSerial(db: Db, run: Run, r: nat)
    requires DbOk(db) && EpochEnds(db, run) && r < |db.rows|
    requires forall u: nat {:trigger WritesRow(run.epoch.txs, u, r)} :: !WritesRow(run.epoch.txs, u, r)
    ensures r < |Outcome(db, run).vals| && r < |Outcome(db, run).s.rows|
    ensures X.ValueOf(Outcome(db, run).vals[r], Outcome(db, run).s.rows[r].wb.master) == Records(db)[r]
  {
    var e, d, start := EpochOn(run, Records(db)), Outcome(db, run), Start(db, run).s;
    EpochInv(db, run);
    E.StartIsInit(run.epoch, db.rows);
    assert E.RowReady(e.txs, start.rows[r], r);
    forall u ensures u !in start.rows[r].writers { assert u >= 0 ==> !WritesRow(e.txs, u, r); }
    assert start.rows[r].writers == map[];
    M.UnwrittenStays(start.rows[r], d.s.rows[r]);
    assert RowVals(e, d.s.rows[r], d.vals[r], r);
  }

  // A row whose last writer is known to win ends the epoch with the record that the serial execution leaves.
  lemma RowIsSerial(db: Db, run: Run, r: nat)
    requires DbOk(db) && EpochEnds(db, run) && r < |db.rows| && LastKnown(run.epoch.txs, r)
    ensures var e := EpochOn(run, Records(db));
            X.EpochOk(e) && DbOk(Next(db, run)) && |Next(db, run).rows| == |db.rows|
              && Records(Next(db, run))[r] == X.SerialDb(e, TXS)[r]
  {
    var e := EpochOn(run, Records(db));
    NextOk(db, run);
    EpochIsOk(run, Records(db));
    X.SerialIsVisible(e, r, TXS);
    var m := X.Visible(e, r, TXS);
    if m >= 0 {
      WrittenIsSerial(db, run, r, m);
    } else {
      forall u: nat ensures !WritesRow(e.txs, u, r) { assert WritesRow(e.txs, u, r) ==> X.Writes(e, u, r); }
      UnwrittenIsSerial(db, run, r);
    }
  }

  // ----- Any number of epochs -----

  ghost predicate IsHistory(db: Db, runs: seq<Run>)
    decreases |runs|
  {
    runs == [] || (EpochEnds(db, runs[0]) && IsHistory(Next(db, runs[0]), runs[1..]))
  }

  ghost function Final(db: Db, runs: seq<Run>): Db
    requires IsHistory(db, runs)
    decreases |runs|
  {
    if runs == [] then db else Final(Next(db, runs[0]), runs[1..])
  }

  lemma {:induction false} HistoryOk(db: Db, runs: seq<Run>)
    requires DbOk(db) && IsHistory(db, runs)
    ensures DbOk(Final(db, runs)) && |Final(db, runs).rows| == |db.rows|
    ensures forall i :: 0 <= i < |runs| ==> E.TxsOk(runs[i].epoch.txs, |db.rows|)
    decreases |runs|
  {
    if runs != [] {
      NextOk(db, runs[0]);
      HistoryOk(Next(db, runs[0]), runs[1..]);
      forall i | 0 <= i < |runs| ensures E.TxsOk(runs[i].epoch.txs, |db.rows|) {
        assert i > 0 ==> runs[i] == runs[1..][i - 1];
      }
    }
  }

  // The loaded rows, with one stable version each.
  ghost predicate Loaded(db: Db) {
    (forall r :: 0 <= r < |db.rows| ==> Rc.Init(db.rows[r])) && |db.vals| == |db.rows|
  }

  lemma LoadedOk(db: Db)
    requires Loaded(db)
    ensures DbOk(db)
  {
    forall r | 0 <= r < |db.rows| ensures E.RowStarts(db.rows[r]) { P.Reachable(db.rows[r], []); }
  }

  // In every interleaving of every epoch each transaction reads what running the epoch's transactions one by one from
  // the masters gives.
  lemma ReadsAreSerial(db: Db, runs: seq<Run>, run: Run, t: nat)
    requires Loaded(db) && IsHistory(db, runs) && EpochRuns(Final(db, runs), run)
    requires t in Outcome(Final(db, runs), run).done
    ensures var e := EpochOn(run, Records(Final(db, runs)));
            && X.EpochOk(e) && t < |e.txs|
            && Outcome(Final(db, runs), run).done[t] == X.ReadsIn(X.SerialDb(e, t), e.txs[t], |e.txs[t]|)
  {
    LoadedOk(db);
    HistoryOk(db, runs);
    EpochInv(Final(db, runs), run);
    assert DoneVals(EpochOn(run, Records(Final(db, runs))), Outcome(Final(db, runs), run), t);
  }

  // The records after all the epochs, run serially.
  function SerialHistory(recs: seq<X.Val>, runs: seq<Run>): (recs': seq<X.Val>)
    requires forall i :: 0 <= i < |runs| ==> E.TxsOk(runs[i].epoch.txs, |recs|)
    ensures |recs'| == |recs|
    decreases |runs|
  {
    if runs == [] then recs
    else
      EpochIsOk(runs[0], recs);
      SerialHistory(X.SerialDb(EpochOn(runs[0], recs), TXS), runs[1..])
  }

  ghost predicate AllKnown(runs: seq<Run>) {
    forall i, r: nat {:trigger LastKnown(runs[i].epoch.txs, r)} :: 0 <= i < |runs| ==> LastKnown(runs[i].epoch.txs, r)
  }

  // If the last writers are known to win in all epochs, the masters hold what running all transactions one by one
  // leaves.
  lemma {:induction false} HistoryIsSerial(db: Db, runs: seq<Run>)
    requires DbOk(db) && IsHistory(db, runs) && AllKnown(runs)
    ensures forall i :: 0 <= i < |runs| ==> E.TxsOk(runs[i].epoch.txs, |db.rows|)
    ensures |Final(db, runs).vals| == |Final(db, runs).rows|
    ensures Records(Final(db, runs)) == SerialHistory(Records(db), runs)
    decreases |runs|
  {
    HistoryOk(db, runs);
    if runs != [] {
      var db' := Next(db, runs[0]);
      NextOk(db, runs[0]);
      EpochIsOk(runs[0], Records(db));
      forall i, r: nat | 0 <= i < |runs[1..]| ensures LastKnown(runs[1..][i].epoch.txs, r) {
        assert runs[1..][i] == runs[i + 1];
      }
      HistoryIsSerial(db', runs[1..]);
      forall r | 0 <= r < |db.rows| ensures Records(db')[r] == X.SerialDb(EpochOn(runs[0], Records(db)), TXS)[r] {
        RowIsSerial(db, runs[0], r);
      }
      assert Records(db') == X.SerialDb(EpochOn(runs[0], Records(db)), TXS);
    }
  }
}
