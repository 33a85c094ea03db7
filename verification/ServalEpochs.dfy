/** Serval over any number of rows and epochs: what the workers append in the initialization phase of an epoch is what
    its execution phase looks up, so its reads are serial and it never gets stuck; and the next epoch starts where it
    ends. */
module ServalEpochs {
  import opened DivMod
  import opened SortedSlots
  import opened Bitmap
  import opened ServalRegion
  import opened ServalRowOps
  import opened ServalSegment
  import S = Serval
  import X = Execution
  import XP = ExecutionProof

  const TXS := WIDTH * WIDTH

  // The transactions of an epoch.
  datatype Work = Work(txs: seq<seq<X.Op>>, compute: (nat, nat, seq<X.Val>) -> X.Val)

  // The rows before an epoch, with the records of all versions that are stable.
  datatype Db = Db(rows: seq<S.State>, vals: map<VersionId, X.Val>)

  // What happens in an epoch. Different rows share nothing in the initialization phase, so its schedule is one for each
  // row.
  datatype Run = Run(work: Work, init: seq<seq<S.Step>>, exec: seq<nat>)

  // Each row counts its own versions; this is one name for version v of row r among n rows.
  function Name(n: nat, r: nat, v: VersionId): VersionId {
    v * n + r
  }

  lemma NameUnique(n: nat, r: nat, v: VersionId, q: nat, u: VersionId)
    requires r < n && q < n && Name(n, r, v) == Name(n, q, u)
    ensures r == q && v == u
  {
    DivUnique(v * n + r, n, v, r);
    DivUnique(v * n + r, n, u, q);
  }

  predicate Wrote(work: Work, t: nat, r: nat) {
    t < |work.txs| && X.Update(r) in work.txs[t]
  }

  ghost predicate Written(work: Work, r: nat) {
    exists t :: Wrote(work, t, r)
  }

  // ----- A database between two epochs -----

  ghost predicate RowHolds(db: Db, r: nat)
    requires r < |db.rows|
  {
    var s, n := db.rows[r], |db.rows|;
    && EpochStarts(s) && |s.workers| == WIDTH && Name(n, r, s.row.master) in db.vals
    && (forall x :: x in s.made ==> Name(n, r, x.ver) in db.vals && x.ver != s.row.master)
  }

  ghost predicate DbOk(db: Db) {
    && (forall r {:trigger RowHolds(db, r)} :: 0 <= r < |db.rows| ==> RowHolds(db, r))
    && (forall r, v {:trigger Name(|db.rows|, r, v)} ::
          0 <= r < |db.rows| && 0 <= v && Name(|db.rows|, r, v) in db.vals ==>
          v < db.rows[r].next)
  }

  // The loaded database: two stable versions of every row.
  ghost predicate Loaded(db: Db) {
    && (forall r :: 0 <= r < |db.rows| ==> S.Init(db.rows[r]) && |db.rows[r].workers| == WIDTH)
    && (forall k :: k in db.vals <==>
          exists r, v :: 0 <= r < |db.rows| && 0 <= v < 2 && k == Name(|db.rows|, r, v))
  }

  lemma LoadedOk(db: Db)
    requires Loaded(db)
    ensures DbOk(db)
  {
    var n := |db.rows|;
    forall r | 0 <= r < n ensures RowHolds(db, r) {
      S.StartInv(db.rows[r]);
      assert Name(n, r, 0) in db.vals && Name(n, r, 1) in db.vals;
    }
    forall r, v | 0 <= r < n && 0 <= v && Name(n, r, v) in db.vals ensures v < db.rows[r].next {
      var q, u :| 0 <= q < n && 0 <= u < 2 && Name(n, r, v) == Name(n, q, u);
      NameUnique(n, r, v, q, u);
    }
  }

  // ----- The initialization phase -----

  predicate TxsOk(work: Work, n: nat) {
    |work.txs| == TXS && forall t, op :: 0 <= t < TXS && op in work.txs[t] ==> op.row < n
  }

  // Worker w appends to the row for those transactions w * 64 + tx that write it.
  ghost predicate RowInit(s: S.State, steps: seq<S.Step>, work: Work, r: nat) {
    && S.IsRun(s, steps) && SameEpoch(steps) && AllIdle(S.Exec(s, steps))
    && (forall t: nat {:trigger Wrote(work, t, r)} :: t in Begun(steps) <==> Wrote(work, t, r))
  }

  ghost predicate InitRuns(db: Db, run: Run) {
    && TxsOk(run.work, |db.rows|) && |run.init| == |db.rows|
    && forall r {:trigger RowInit(db.rows[r], run.init[r], run.work, r)} ::
         0 <= r < |db.rows| ==> RowInit(db.rows[r], run.init[r], run.work, r)
  }

  // The row at the end of the phase.
  ghost function End(db: Db, run: Run, r: nat): S.State
    requires InitRuns(db, run) && r < |db.rows|
  {
    assert RowInit(db.rows[r], run.init[r], run.work, r);
    S.Exec(db.rows[r], run.init[r])
  }

  lemma RowEnds(db: Db, run: Run, r: nat)
    requires DbOk(db) && InitRuns(db, run) && r < |db.rows|
    ensures RowInit(db.rows[r], run.init[r], run.work, r)
    ensures PhaseEnds(db.rows[r], End(db, run, r), Begun(run.init[r]))
    ensures Written(run.work, r) <==> Begun(run.init[r]) != {}
  {
    assert RowHolds(db, r) && RowInit(db.rows[r], run.init[r], run.work, r);
    PhaseRuns(db.rows[r], run.init[r]);
    if t: nat :| t in Begun(run.init[r]) {
      assert Wrote(run.work, t, r);
    }
  }

  // ----- The epoch that the execution phase sees -----

  ghost function VersionOf(m: set<Slot>, id: nat): VersionId {
    if HasId(m, id) then var x :| x in m && x.id == id; x.ver else 0
  }

  // The version that read finds: the master if the epoch did not write the row.
  ghost function Look(s: S.State, t: nat): VersionId {
    if s.row.epoch != s.clock || t >= TXS || !S.Workable(s.row) then s.row.master
    else S.Read(s.row, t / WIDTH, t % WIDTH)
  }

  ghost function EpochOf(db: Db, run: Run): X.Epoch
    requires InitRuns(db, run)
  {
    var n := |db.rows|;
    X.Epoch(run.work.txs, WIDTH,
            seq(n, r requires 0 <= r < n => X.ValueOf(db.vals, Name(n, r, End(db, run, r).row.master))),
            run.work.compute,
            (r: nat, t: nat) => if r < n then Name(n, r, Look(End(db, run, r), t)) else 0,
            (r: nat, t: nat) => if r < n then Name(n, r, VersionOf(End(db, run, r).made, t)) else 0)
  }

  ghost function Start(db: Db): X.State {
    X.State(db.vals, seq(WIDTH, _ => X.Worker(0, 0, [])), map[])
  }

  // The version of a write is new and shown under the writer's serial id.
  lemma MineIs(db: Db, run: Run, r: nat, t: nat)
    requires DbOk(db) && InitRuns(db, run) && r < |db.rows| && Wrote(run.work, t, r)
    ensures var s, v := End(db, run, r), VersionOf(End(db, run, r).made, t);
            Slot(t, v) in s.made && db.rows[r].next <= v < s.next && s.row.epoch == s.clock
  {
    RowEnds(db, run, r);
    var s := End(db, run, r);
    assert t in Begun(run.init[r]) && HasId(s.made, t);
    var x :| x in s.made && x.id == t && x.ver == VersionOf(s.made, t);
    assert x == Slot(t, x.ver) && SlotNew(db.rows[r], s, Begun(run.init[r]), x);
  }

  // Two writes have different versions.
  lemma MineUnique(db: Db, run: Run, r: nat, t: nat, q: nat, u: nat)
    requires DbOk(db) && InitRuns(db, run) && r < |db.rows| && q < |db.rows| && Wrote(run.work, t, r)
    requires Wrote(run.work, u, q)
    requires EpochOf(db, run).mine(r, t) == EpochOf(db, run).mine(q, u)
    ensures r == q && t == u
  {
    NameUnique(|db.rows|, r, VersionOf(End(db, run, r).made, t), q, VersionOf(End(db, run, q).made, u));
    MineIs(db, run, r, t);
    MineIs(db, run, q, u);
    RowEnds(db, run, r);
  }

  lemma MineNew(db: Db, run: Run, r: nat, t: nat)
    requires DbOk(db) && InitRuns(db, run) && r < |db.rows| && Wrote(run.work, t, r)
    ensures EpochOf(db, run).mine(r, t) !in db.vals
  {
    MineIs(db, run, r, t);
    assert EpochOf(db, run).mine(r, t) == Name(|db.rows|, r, VersionOf(End(db, run, r).made, t));
  }

  // The master is a stable version: that of before, or the last write of the epoch that wrote the row last.
  lemma MasterIs(db: Db, run: Run, r: nat)
    requires DbOk(db) && InitRuns(db, run) && r < |db.rows|
    ensures Name(|db.rows|, r, End(db, run, r).row.master) in db.vals
    ensures !Written(run.work, r) ==> End(db, run, r).row.master == db.rows[r].row.master
    ensures Written(run.work, r) ==> exists x :: IsLast(db.rows[r].made, x) && End(db, run, r).row.master == x.ver
  {
    RowEnds(db, run, r);
    assert RowHolds(db, r);
  }

  // The greatest slot below t is that of the last writer before t.
  lemma LastWriter(db: Db, run: Run, r: nat, t: nat, x: Slot)
    requires DbOk(db) && InitRuns(db, run) && r < |db.rows| && Written(run.work, r)
    requires GreatestBelow(End(db, run, r).made, t, x)
    ensures X.Visible(EpochOf(db, run), r, t) == x.id && x.id >= 0 && x.ver == VersionOf(End(db, run, r).made, x.id)
  {
    RowEnds(db, run, r);
    var e, s := EpochOf(db, run), End(db, run, r);
    assert SlotNew(db.rows[r], s, Begun(run.init[r]), x);
    assert Wrote(run.work, x.id, r) && X.Writes(e, x.id, r);
    MineIs(db, run, r, x.id);
    SameIdSame(s.row, s.made, x, Slot(x.id, VersionOf(s.made, x.id)));
    var v := X.Visible(e, r, t);
    assert x.id <= v;
    assert Wrote(run.work, v, r);
    MineIs(db, run, r, v);
  }

  lemma NoWriter(db: Db, run: Run, r: nat, t: nat)
    requires DbOk(db) && InitRuns(db, run) && r < |db.rows|
    requires (Written(run.work, r) ==> NoneBelow(End(db, run, r).made, t))
    ensures X.Visible(EpochOf(db, run), r, t) < 0
  {
    var v := X.Visible(EpochOf(db, run), r, t);
    if v >= 0 {
      assert Wrote(run.work, v, r);
      MineIs(db, run, r, v);
    }
  }

  lemma LookIs(db: Db, run: Run, r: nat, t: nat)
    requires DbOk(db) && InitRuns(db, run) && r < |db.rows| && t < TXS
    ensures X.LookOk(EpochOf(db, run), db.vals, r, t)
  {
    RowEnds(db, run, r);
    MasterIs(db, run, r);
    var s := End(db, run, r);
    if !Written(run.work, r) {
      NoWriter(db, run, r, t);
    } else {
      S.ReadIs(s.row, s.made, t / WIDTH, t % WIDTH);
      assert SerialId(t / WIDTH, t % WIDTH) == t;
      if NoneBelow(s.made, t) && Look(s, t) == s.row.master {
        NoWriter(db, run, r, t);
      } else {
        var x :| GreatestBelow(s.made, t, x) && Look(s, t) == x.ver;
        LastWriter(db, run, r, t, x);
      }
    }
  }

  // The initialization phase delivers what the execution phase needs.
  lemma InitDelivers(db: Db, run: Run)
    requires DbOk(db) && InitRuns(db, run)
    ensures X.Init(EpochOf(db, run), Start(db))
  {
    var e := EpochOf(db, run);
    forall r, t | 0 <= r < |e.base| && 0 <= t < |e.txs| ensures X.LookOk(e, db.vals, r, t) { LookIs(db, run, r, t); }
    forall r, t | 0 <= r < |e.base| && X.Writes(e, t, r) ensures e.mine(r, t) !in db.vals {
      assert Wrote(run.work, t, r);
      MineNew(db, run, r, t);
    }
    forall r, t, q, u | 0 <= r < |e.base| && 0 <= q < |e.base| && X.Writes(e, t, r) && X.Writes(e, u, q)
      && e.mine(r, t) == e.mine(q, u)
      ensures r == q && t == u
    {
      assert Wrote(run.work, t, r) && Wrote(run.work, u, q);
      MineUnique(db, run, r, t, q, u);
    }
  }

  // ----- The execution phase, and the next epoch -----

  ghost predicate EpochRuns(db: Db, run: Run) {
    InitRuns(db, run) && X.IsRun(EpochOf(db, run), Start(db), run.exec)
  }

  ghost function Outcome(db: Db, run: Run): X.State
    requires EpochRuns(db, run)
  {
    X.Exec(EpochOf(db, run), Start(db), run.exec)
  }

  ghost predicate EpochEnds(db: Db, run: Run) {
    EpochRuns(db, run) && X.Finished(EpochOf(db, run), Outcome(db, run))
  }

  // Behind the barrier every row sees the next epoch.
  ghost function Next(db: Db, run: Run): Db
    requires EpochEnds(db, run)
  {
    Db(seq(|db.rows|, r requires 0 <= r < |db.rows| => NextRow(db, run, r)), Outcome(db, run).vals)
  }

  ghost function NextRow(db: Db, run: Run, r: nat): S.State
    requires InitRuns(db, run) && r < |db.rows|
  {
    assert RowInit(db.rows[r], run.init[r], run.work, r);
    S.Apply(End(db, run, r), S.NextEpoch(0))
  }

  lemma AllStable(db: Db, run: Run, r: nat)
    requires DbOk(db) && EpochEnds(db, run) && r < |db.rows|
    ensures forall k :: k in db.vals ==> k in Outcome(db, run).vals && Outcome(db, run).vals[k] == db.vals[k]
    ensures forall t: nat {:trigger Wrote(run.work, t, r)} :: Wrote(run.work, t, r) ==>
              Name(|db.rows|, r, VersionOf(End(db, run, r).made, t)) in Outcome(db, run).vals
  {
    InitDelivers(db, run);
    var e := EpochOf(db, run);
    XP.EndIsSerial(e, Start(db), run.exec, r);
    forall t: nat | Wrote(run.work, t, r)
      ensures Name(|db.rows|, r, VersionOf(End(db, run, r).made, t)) in Outcome(db, run).vals
    {
      assert X.Writes(e, t, r) && e.mine(r, t) == Name(|db.rows|, r, VersionOf(End(db, run, r).made, t));
    }
  }

  // A version that the row shows is stable and is not the master.
  lemma SlotStable(db: Db, run: Run, r: nat, x: Slot)
    requires DbOk(db) && EpochEnds(db, run) && r < |db.rows| && x in End(db, run, r).made
    ensures Name(|db.rows|, r, x.ver) in Outcome(db, run).vals && x.ver != End(db, run, r).row.master
  {
    AllStable(db, run, r);
    RowEnds(db, run, r);
    MasterIs(db, run, r);
    assert RowHolds(db, r);
    var s := End(db, run, r);
    if Written(run.work, r) {
      assert SlotNew(db.rows[r], s, Begun(run.init[r]), x);
      assert Wrote(run.work, x.id, r);
      MineIs(db, run, r, x.id);
      SameIdSame(s.row, s.made, x, Slot(x.id, VersionOf(s.made, x.id)));
    }
  }

  lemma NextRowHolds(db: Db, run: Run, r: nat)
    requires DbOk(db) && EpochEnds(db, run) && r < |db.rows|
    ensures RowHolds(Next(db, run), r)
  {
    RowEnds(db, run, r);
    S.StepKeeps(End(db, run, r), S.NextEpoch(0));
    MasterIs(db, run, r);
    AllStable(db, run, r);
    assert RowHolds(db, r);
    forall x | x in NextRow(db, run, r).made
      ensures Name(|db.rows|, r, x.ver) in Outcome(db, run).vals && x.ver != NextRow(db, run, r).row.master
    {
      SlotStable(db, run, r, x);
    }
  }

  // What becomes stable in the epoch is the version of a write.
  lemma NewIsMine(db: Db, run: Run, k: VersionId) returns (q: nat, t: nat)
    requires EpochRuns(db, run) && k in Outcome(db, run).vals && k !in db.vals
    ensures q < |db.rows| && Wrote(run.work, t, q) && k == Name(|db.rows|, q, VersionOf(End(db, run, q).made, t))
  {
    var e := EpochOf(db, run);
    XP.OnlyMine(e, Start(db), run.exec, k);
    q, t :| 0 <= q < |e.base| && 0 <= t && X.Writes(e, t, q) && e.mine(q, t) == k;
  }

  lemma NextCounts(db: Db, run: Run, r: nat, v: VersionId)
    requires DbOk(db) && EpochEnds(db, run) && r < |db.rows| && Name(|db.rows|, r, v) in Outcome(db, run).vals
    ensures v < NextRow(db, run, r).next
  {
    RowEnds(db, run, r);
    if Name(|db.rows|, r, v) !in db.vals {
      var q, t := NewIsMine(db, run, Name(|db.rows|, r, v));
      NameUnique(|db.rows|, r, v, q, VersionOf(End(db, run, q).made, t));
      MineIs(db, run, q, t);
    }
  }

  // The database that an epoch leaves is one that the next epoch can start from.
  lemma NextOk(db: Db, run: Run)
    requires DbOk(db) && EpochEnds(db, run)
    ensures DbOk(Next(db, run))
  {
    var db' := Next(db, run);
    forall r | 0 <= r < |db'.rows| ensures RowHolds(db', r) { NextRowHolds(db, run, r); }
    forall r, v | 0 <= r < |db'.rows| && 0 <= v && Name(|db'.rows|, r, v) in db'.vals ensures v < db'.rows[r].next {
      NextCounts(db, run, r, v);
    }
  }

  // ----- Any number of epochs -----

  ghost predicate IsHistory(db: Db, runs: seq<Run>)
    decreases |runs|
  {
    runs == [] || (EpochEnds(db, runs[0]) && IsHistory(Next(db, runs[0]), runs[1..]))
  }

  ghost function Final(db: Db, runs: seq<Run>): Db
    requires IsHistory(db, runs)
    decreases |runs|
  {
    if runs == [] then db else Final(Next(db, runs[0]), runs[1..])
  }

  lemma {:induction false} HistoryOk(db: Db, runs: seq<Run>)
    requires DbOk(db) && IsHistory(db, runs)
    ensures DbOk(Final(db, runs))
    decreases |runs|
  {
    if runs != [] {
      NextOk(db, runs[0]);
      HistoryOk(Next(db, runs[0]), runs[1..]);
    }
  }

  // In every interleaving of every epoch each read returns what running the epoch's transactions one by one from the
  // masters returns.
  lemma ReadsAreSerial(db: Db, runs: seq<Run>, run: Run, t: nat)
    requires Loaded(db) && IsHistory(db, runs) && EpochRuns(Final(db, runs), run) && t < TXS
    requires t in Outcome(Final(db, runs), run).done
    ensures var e := EpochOf(Final(db, runs), run);
            Outcome(Final(db, runs), run).done[t] == X.ReadsIn(X.SerialDb(e, t), e.txs[t], |e.txs[t]|)
  {
    LoadedOk(db);
    HistoryOk(db, runs);
    var now := Final(db, runs);
    InitDelivers(now, run);
    XP.ReadsAreSerial(EpochOf(now, run), Start(now), run.exec, 0);
  }

  // And as long as a transaction is unfinished, some worker can step; the phase takes no more steps than there are
  // operations.
  lemma NeverStuck(db: Db, runs: seq<Run>, run: Run)
    requires Loaded(db) && IsHistory(db, runs) && EpochRuns(Final(db, runs), run)
    ensures var now := Final(db, runs);
            || X.Finished(EpochOf(now, run), Outcome(now, run))
            || exists w :: X.Enabled(EpochOf(now, run), Outcome(now, run), w)
    ensures |run.exec| <= XP.TotalLeft(EpochOf(Final(db, runs), run), Start(Final(db, runs)).workers)
  {
    LoadedOk(db);
    HistoryOk(db, runs);
    var now := Final(db, runs);
    InitDelivers(now, run);
    var e := EpochOf(now, run);
    XP.RunsEnd(e, Start(now), run.exec);
    if !X.Finished(e, Outcome(now, run)) {
      XP.SomeoneCanStep(e, Start(now), run.exec);
    }
  }
}
