/** Serval's epochs one after the other against running all transactions of all epochs one by one. A row that an epoch
    does not write is read from its master, which is the record from before the epoch that wrote the row last; so the
    history is serial when, and a read finds the latest version only when, an epoch writes the rows that it reads. */
module ServalHistory {
  import opened SortedSlots
  import opened Bitmap
  import opened ServalRegion
  import opened ServalRowOps
  import opened ServalSegment
  import opened ServalEpochs
  import S = Serval
  import X = Execution
  import XP = ExecutionProof

  // The version of the last write.
  ghost function LastOf(m: set<Slot>): VersionId {
    if exists x :: IsLast(m, x) then var x :| IsLast(m, x); x.ver else 0
  }

  lemma LastIs(row: Row, m: set<Slot>, x: Slot)
    requires RowOk(row, m) && IsLast(m, x)
    ensures LastOf(m) == x.ver
  {
    var y :| y in m && IsLast(m, y) && LastOf(m) == y.ver;
    assert IsLast(m, x) && IsLast(m, y);
    assert x.id <= y.id && y.id <= x.id;
    SameIdSame(row, m, x, y);
  }

  // The latest record of every row.
  ghost function Latest(db: Db): (recs: seq<X.Val>)
    ensures |recs| == |db.rows|
  {
    seq(|db.rows|, r requires 0 <= r < |db.rows| => X.ValueOf(db.vals, Name(|db.rows|, r, LastOf(db.rows[r].made))))
  }

  // Every row that the epoch reads it also writes.
  ghost predicate Covered(work: Work) {
    forall t, r {:trigger X.Read(r) in work.txs[t]} :: 0 <= t < |work.txs| && 0 <= r && X.Read(r) in work.txs[t] ==>
      Written(work, r)
  }

  // The last write of a row that is between two epochs.
  lemma LastExists(s: S.State) returns (x: Slot)
    requires S.Inv(s) && s.row.epoch < s.clock
    ensures IsLast(s.made, x) && LastOf(s.made) == x.ver
  {
    S.StaleIsWritten(s);
    x := TurnOverKeeps(s.row, s.made, s.clock);
    LastIs(s.row, s.made, x);
  }

  // The master of the epoch is the latest version exactly of the rows that the epoch writes.
  lemma MasterIsLatestIff(db: Db, run: Run, r: nat)
    requires DbOk(db) && InitRuns(db, run) && r < |db.rows|
    ensures End(db, run, r).row.master == LastOf(db.rows[r].made) <==> Written(run.work, r)
  {
    assert RowHolds(db, r);
    MasterIs(db, run, r);
    var x := LastExists(db.rows[r]);
    if Written(run.work, r) {
      var y :| IsLast(db.rows[r].made, y) && End(db, run, r).row.master == y.ver;
      LastIs(db.rows[r].row, db.rows[r].made, y);
    }
  }

  // A reader before whom nobody writes the row finds the master.
  lemma LookMaster(db: Db, run: Run, r: nat, t: nat)
    requires DbOk(db) && InitRuns(db, run) && r < |db.rows| && t < TXS && X.Visible(EpochOf(db, run), r, t) < 0
    ensures EpochOf(db, run).look(r, t) == Name(|db.rows|, r, End(db, run, r).row.master)
  {
    RowEnds(db, run, r);
    var s := End(db, run, r);
    if Written(run.work, r) {
      S.ReadIs(s.row, s.made, t / WIDTH, t % WIDTH);
      assert SerialId(t / WIDTH, t % WIDTH) == t;
      forall x | GreatestBelow(s.made, t, x) ensures false { LastWriter(db, run, r, t, x); }
    }
  }

  // Transaction t reads row r and no transaction before it in the epoch writes it.
  ghost predicate ReadsOld(db: Db, run: Run, t: nat, r: nat)
    requires InitRuns(db, run)
  {
    t < TXS && X.Read(r) in run.work.txs[t] && X.Visible(EpochOf(db, run), r, t) < 0
  }

  ghost function LatestName(db: Db, r: nat): VersionId
    requires r < |db.rows|
  {
    Name(|db.rows|, r, LastOf(db.rows[r].made))
  }

  // All reads from before the epoch find the latest version if and only if the epoch writes all rows that it reads.
  lemma ReadsLatestIff(db: Db, run: Run)
    requires DbOk(db) && InitRuns(db, run)
    ensures (forall t, r {:trigger ReadsOld(db, run, t, r)} ::
            0 <= t && 0 <= r < |db.rows| && ReadsOld(db, run, t, r) ==>
               EpochOf(db, run).look(r, t) == LatestName(db, r))
            <==> Covered(run.work)
  {
    forall t, r | 0 <= t && 0 <= r < |db.rows| && ReadsOld(db, run, t, r)
      ensures EpochOf(db, run).look(r, t) == LatestName(db, r) <==> Written(run.work, r)
    {
      LookMaster(db, run, r, t);
      MasterIsLatestIff(db, run, r);
      if EpochOf(db, run).look(r, t) == LatestName(db, r) {
        NameUnique(|db.rows|, r, End(db, run, r).row.master, r, LastOf(db.rows[r].made));
      }
    }
    if !Covered(run.work) {
      var t, r :| 0 <= t < |run.work.txs| && 0 <= r && X.Read(r) in run.work.txs[t] && !Written(run.work, r);
      assert X.Read(r).row < |db.rows|;
      var v := X.Visible(EpochOf(db, run), r, t);
      assert v >= 0 ==> Wrote(run.work, v, r);
      assert ReadsOld(db, run, t, r);
    }
  }

  // A row that one epoch writes and the next only reads is read as it was before both.
  lemma StaleRead(db: Db, run: Run, run': Run, r: nat, t: nat)
    requires DbOk(db) && EpochEnds(db, run) && InitRuns(Next(db, run), run') && r < |db.rows| && t < TXS
    requires Written(run.work, r) && !Written(run'.work, r)
    ensures EpochOf(Next(db, run), run').look(r, t) == LatestName(db, r) != LatestName(Next(db, run), r)
  {
    var db', e' := Next(db, run), EpochOf(Next(db, run), run');
    NextOk(db, run);
    var v := X.Visible(e', r, t);
    assert v >= 0 ==> Wrote(run'.work, v, r);
    LookMaster(db', run', r, t);
    MasterIs(db', run', r);
    MasterIsLatestIff(db, run, r);
    MasterIsLatestIff(db', run', r);
    if LatestName(db, r) == LatestName(db', r) {
      NameUnique(|db.rows|, r, LastOf(db.rows[r].made), r, LastOf(db'.rows[r].made));
    }
  }

  // A run from the loaded database whose only operation reads row 0: it returns the second loaded record, not the
  // latest.
  lemma StaleFromLoad(db: Db, compute: (nat, nat, seq<X.Val>) -> X.Val) returns (run: Run)
    requires Loaded(db) && |db.rows| == 1 && db.vals == map[0 := 5, 1 := 7]
    ensures EpochRuns(db, run) && run.work.txs[0] == [X.Read(0)] && 0 in Outcome(db, run).done
    ensures Outcome(db, run).done[0] == [7] && Latest(db) == [5]
  {
    var work := Work(seq(TXS, t => if t == 0 then [X.Read(0)] else []), compute);
    run := Run(work, [[]], [0, 0]);
    LoadedOk(db);
    assert RowHolds(db, 0);
    assert S.Exec(db.rows[0], run.init[0]) == db.rows[0];
    assert RowInit(db.rows[0], run.init[0], work, 0);
    var e := EpochOf(db, run);
    assert e.look(0, 0) == 1;
    var s1 := X.Apply(e, Start(db), 0);
    assert X.Enabled(e, s1, 0) && s1.workers[0] == X.Worker(0, 1, [7]);
    assert run.exec[1..] == [0] && run.exec[1..][1..] == [];
    assert X.IsRun(e, s1, run.exec[1..]);
    var x := LastExists(db.rows[0]);
  }

  // ----- All epochs one after the other -----

  // The epoch's transactions on the given records.
  function SerialEpoch(work: Work, recs: seq<X.Val>): X.Epoch {
    X.PlainEpoch(work.txs, WIDTH, recs, work.compute)
  }

  function SerialRecords(work: Work, recs: seq<X.Val>): (recs': seq<X.Val>)
    requires TxsOk(work, |recs|)
    ensures |recs'| == |recs|
  {
    X.SerialDb(SerialEpoch(work, recs), TXS)
  }

  // Two epochs with the same transactions, whose records agree where the transactions write.
  ghost predicate Alike(work: Work, e: X.Epoch, e': X.Epoch) {
    && X.EpochOk(e) && X.EpochOk(e') && e.txs == work.txs == e'.txs && e.width == e'.width && e.compute == e'.compute
    && |e.base| == |e'.base| && forall r :: 0 <= r < |e.base| && Written(work, r) ==> e.base[r] == e'.base[r]
  }

  lemma {:induction false} SameReads(work: Work, db: seq<X.Val>, db': seq<X.Val>, t: nat, j: nat)
    requires Covered(work) && t < |work.txs| && j <= |work.txs[t]| && |db| == |db'|
    requires (forall op :: op in work.txs[t] ==> op.row < |db|)
    requires forall r :: 0 <= r < |db| && Written(work, r) ==> db[r] == db'[r]
    ensures X.ReadsIn(db, work.txs[t], j) == X.ReadsIn(db', work.txs[t], j)
  {
    if j > 0 {
      SameReads(work, db, db', t, j - 1);
      var op := work.txs[t][j - 1];
      assert op in work.txs[t];
      if op.Read? { assert X.Read(op.row) in work.txs[t]; }
    }
  }

  // Where the transactions write, they leave the same.
  lemma {:induction false} SameSerial(work: Work, e: X.Epoch, e': X.Epoch, t: nat)
    requires Covered(work) && Alike(work, e, e') && t <= |work.txs|
    ensures forall r :: 0 <= r < |e.base| && Written(work, r) ==> X.SerialDb(e, t)[r] == X.SerialDb(e', t)[r]
  {
    if t > 0 {
      SameSerial(work, e, e', t - 1);
      var u := t - 1;
      forall r | 0 <= r < |e.base| && Written(work, r) ensures X.SerialDb(e, t)[r] == X.SerialDb(e', t)[r] {
        if X.Writes(e, u, r) {
          SameReads(work, X.SerialDb(e, u), X.SerialDb(e', u), u, X.FirstUpdate(work.txs[u], r));
          assert X.SerialWrite(e, u, r) == X.SerialWrite(e', u, r);
        }
      }
    }
  }

  lemma EpochsAlike(db: Db, run: Run)
    requires DbOk(db) && InitRuns(db, run)
    ensures Alike(run.work, EpochOf(db, run), SerialEpoch(run.work, Latest(db)))
  {
    forall r | 0 <= r < |db.rows| && Written(run.work, r) ensures EpochOf(db, run).base[r] == Latest(db)[r] {
      MasterIsLatestIff(db, run, r);
    }
  }

  // In an epoch that writes what it reads, each transaction reads what it would read after all epochs and transactions
  // before it.
  lemma EpochReadsLatest(db: Db, run: Run, t: nat)
    requires DbOk(db) && EpochRuns(db, run) && Covered(run.work) && t < TXS && t in Outcome(db, run).done
    ensures var e := SerialEpoch(run.work, Latest(db));
            Outcome(db, run).done[t] == X.ReadsIn(X.SerialDb(e, t), e.txs[t], |e.txs[t]|)
  {
    InitDelivers(db, run);
    EpochsAlike(db, run);
    var e, e' := EpochOf(db, run), SerialEpoch(run.work, Latest(db));
    XP.ReadsAreSerial(e, Start(db), run.exec, 0);
    SameSerial(run.work, e, e', t);
    SameReads(run.work, X.SerialDb(e, t), X.SerialDb(e', t), t, |e.txs[t]|);
  }

  // The last version of a row that the epoch writes is that of its last writer.
  lemma LastOfEpoch(db: Db, run: Run, r: nat)
    requires DbOk(db) && InitRuns(db, run) && r < |db.rows| && Written(run.work, r)
    ensures var v := X.Visible(EpochOf(db, run), r, TXS);
            v >= 0 && LastOf(End(db, run, r).made) == VersionOf(End(db, run, r).made, v)
  {
    var s, v := End(db, run, r), X.Visible(EpochOf(db, run), r, TXS);
    var u: nat :| Wrote(run.work, u, r);
    assert X.Writes(EpochOf(db, run), u, r) && u <= v;
    assert Wrote(run.work, v, r);
    MineIs(db, run, r, v);
    RowEnds(db, run, r);
    var x := Slot(v, VersionOf(s.made, v));
    forall y | y in s.made ensures y.id <= v {
      assert SlotNew(db.rows[r], s, Begun(run.init[r]), y);
      assert Wrote(run.work, y.id, r) && X.Writes(EpochOf(db, run), y.id, r);
    }
    LastIs(s.row, s.made, x);
  }

  lemma {:induction false} Unwritten(e: X.Epoch, r: nat, t: nat)
    requires X.EpochOk(e) && t <= |e.txs| && r < |e.base| && forall u :: 0 <= u < t ==> !X.Writes(e, u, r)
    ensures X.SerialDb(e, t)[r] == e.base[r]
  {
    X.SerialIsVisible(e, r, t);
  }

  lemma WrittenIsSerial(db: Db, run: Run, r: nat)
    requires DbOk(db) && EpochEnds(db, run) && Covered(run.work) && r < |db.rows| && Written(run.work, r)
    ensures Latest(Next(db, run))[r] == SerialRecords(run.work, Latest(db))[r]
  {
    InitDelivers(db, run);
    var e, e' := EpochOf(db, run), SerialEpoch(run.work, Latest(db));
    XP.EndIsSerial(e, Start(db), run.exec, r);
    LastOfEpoch(db, run, r);
    EpochsAlike(db, run);
    SameSerial(run.work, e, e', TXS);
    var v := X.Visible(e, r, TXS);
    assert X.Writes(e, v, r);
  }

  lemma UnwrittenStays(db: Db, run: Run, r: nat)
    requires DbOk(db) && EpochEnds(db, run) && r < |db.rows| && !Written(run.work, r)
    ensures Latest(Next(db, run))[r] == Latest(db)[r] == SerialRecords(run.work, Latest(db))[r]
  {
    var e' := SerialEpoch(run.work, Latest(db));
    AllStable(db, run, r);
    RowEnds(db, run, r);
    forall u | 0 <= u < TXS ensures !X.Writes(e', u, r) { assert !Wrote(run.work, u, r); }
    Unwritten(e', r, TXS);
    assert RowHolds(db, r);
    var x := LastExists(db.rows[r]);
    assert LatestName(db, r) in db.vals;
  }

  // The latest record of each row after the epoch.
  lemma RowIsSerial(db: Db, run: Run, r: nat)
    requires DbOk(db) && EpochEnds(db, run) && Covered(run.work) && r < |db.rows|
    ensures Latest(Next(db, run))[r] == SerialRecords(run.work, Latest(db))[r]
  {
    if Written(run.work, r) {
      WrittenIsSerial(db, run, r);
    } else {
      UnwrittenStays(db, run, r);
    }
  }

  // The records after all the epochs, run serially.
  function SerialHistory(recs: seq<X.Val>, works: seq<Work>): seq<X.Val>
    requires forall i :: 0 <= i < |works| ==> TxsOk(works[i], |recs|)
    decreases |works|
  {
    if works == [] then recs else SerialHistory(SerialRecords(works[0], recs), works[1..])
  }

  ghost function Works(runs: seq<Run>): (works: seq<Work>)
    ensures |works| == |runs| && forall i :: 0 <= i < |runs| ==> works[i] == runs[i].work
  {
    seq(|runs|, i requires 0 <= i < |runs| => runs[i].work)
  }

  lemma {:induction false} HistoryTxs(db: Db, runs: seq<Run>)
    requires IsHistory(db, runs)
    ensures |Final(db, runs).rows| == |db.rows| && forall i :: 0 <= i < |runs| ==> TxsOk(runs[i].work, |db.rows|)
    decreases |runs|
  {
    if runs != [] {
      HistoryTxs(Next(db, runs[0]), runs[1..]);
      forall i | 0 <= i < |runs| ensures TxsOk(runs[i].work, |db.rows|) {
        assert i > 0 ==> runs[i] == runs[1..][i - 1];
      }
    }
  }

  // Any number of epochs in any interleaving leave the records that running all their transactions one by one leaves.
  lemma {:induction false} HistoryIsSerial(db: Db, runs: seq<Run>)
    requires DbOk(db) && IsHistory(db, runs) && forall i :: 0 <= i < |runs| ==> Covered(runs[i].work)
    ensures forall i :: 0 <= i < |runs| ==> TxsOk(runs[i].work, |db.rows|)
    ensures Latest(Final(db, runs)) == SerialHistory(Latest(db), Works(runs))
    decreases |runs|
  {
    HistoryTxs(db, runs);
    if runs != [] {
      var db' := Next(db, runs[0]);
      NextOk(db, runs[0]);
      HistoryIsSerial(db', runs[1..]);
      forall r | 0 <= r < |db.rows| ensures Latest(db')[r] == SerialRecords(runs[0].work, Latest(db))[r] {
        RowIsSerial(db, runs[0], r);
      }
      assert Latest(db') == SerialRecords(runs[0].work, Latest(db));
      assert Works(runs)[1..] == Works(runs[1..]);
    }
  }

  // And each transaction of each epoch reads what it would read then.
  lemma ReadsAreSerial(db: Db, runs: seq<Run>, run: Run, t: nat)
    requires Loaded(db) && IsHistory(db, runs) && (forall i :: 0 <= i < |runs| ==> Covered(runs[i].work))
    requires EpochRuns(Final(db, runs), run) && Covered(run.work) && t < TXS && t in Outcome(Final(db, runs), run).done
    ensures (forall i :: 0 <= i < |runs| ==> TxsOk(runs[i].work, |db.rows|)) && TxsOk(run.work, |db.rows|)
    ensures var e := SerialEpoch(run.work, SerialHistory(Latest(db), Works(runs)));
            && |e.base| == |db.rows|
            && Outcome(Final(db, runs), run).done[t] == X.ReadsIn(X.SerialDb(e, t), e.txs[t], |e.txs[t]|)
  {
    LoadedOk(db);
    HistoryOk(db, runs);
    HistoryTxs(db, runs);
    HistoryIsSerial(db, runs);
    EpochReadsLatest(Final(db, runs), run, t);
  }
}
