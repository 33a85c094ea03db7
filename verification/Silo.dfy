/** What Silo promises: serializability at the serial point, reads that are never torn, tids that only rise, and
    a locking phase that cannot deadlock. Each statement is about every state of every run. */
module Silo {
  import opened SiloModel
  import opened SiloInvariant
  import P = SiloProof
  import C = SiloCommitProof
  import S = SiloSerialProof

  lemma StepKeeps(s: State, step: Step, s': State)
    requires Inv(s) && Enabled(s, step) && TidFits(s, step) && s' == Apply(s, step)
    ensures Inv(s')
  {
    match step
    case IncrementEpoch => P.IncrementEpochKeeps(s);
    case Begin(t) => P.BeginKeeps(s, t);
    case StartOp(t, op, key) => P.StartOpKeeps(s, t, op, key);
    case LoadWord(t) => P.LoadWordKeeps(s, t);
    case LoadRec(t) => P.LoadRecKeeps(s, t);
    case LoadAgain(t, blank) => P.LoadAgainKeeps(s, t, blank);
    case ModifyLocal(t, key, rec) => P.ModifyLocalKeeps(s, t, key, rec);
    case UserAbort(t) => P.UserAbortKeeps(s, t);
    case StartPrecommit(t, order) => P.StartPrecommitKeeps(s, t, order);
    case Lock(t) => C.LockKeeps(s, t, s');
    case SerialPoint(t) => S.SerialPointKeeps(s, t, s');
    case Validate(t, key) =>
      if s'.txs[t].pc.Validating? { S.ValidateOkKeeps(s, t, key, s'); } else { S.ValidateFailKeeps(s, t, key, s'); }
    case GenerateTid(t) => S.GenerateTidKeeps(s, t, s');
    case ExchangeRec(t) => C.ExchangeRecKeeps(s, t, s');
    case StoreWord(t) => C.StoreWordKeeps(s, t, s');
    case Unlock(t) => C.UnlockKeeps(s, t, s');
    case Finish(t) => P.FinishKeeps(s, t);
  }

  lemma {:induction false} RunKeeps(s: State, run: seq<Step>)
    requires Inv(s) && IsRun(s, run)
    ensures Inv(Exec(s, run)) && Exec(s, run).mem.init == s.mem.init
    decreases |run|
  {
    if run != [] {
      StepKeeps(s, run[0], Apply(s, run[0]));
      RunKeeps(Apply(s, run[0]), run[1..]);
    }
  }

  // Serial execution: each transaction reads the database the ones before it left behind.
  ghost predicate SerialFrom(db: map<Key, Rec>, txs: seq<Entry>)
    decreases |txs|
  {
    txs == [] ||
    (&& (forall k :: k in txs[0].read ==> k in db && db[k] == txs[0].read[k])
     && SerialFrom(db + txs[0].wrote, txs[1..]))
  }

  ghost function SerialResult(db: map<Key, Rec>, txs: seq<Entry>): map<Key, Rec>
    decreases |txs|
  {
    if txs == [] then db else SerialResult(db + txs[0].wrote, txs[1..])
  }

  ghost function CommittedOf(log: seq<Entry>): seq<Entry> {
    if log == [] then []
    else if log[0].status == Committed then [log[0]] + CommittedOf(log[1..]) else CommittedOf(log[1..])
  }

  ghost predicate EpochsRise(txs: seq<Entry>) {
    forall i, j :: 0 <= i < j < |txs| ==> txs[i].epoch <= txs[j].epoch
  }

  lemma {:induction false} SerialStep(init: map<Key, Rec>, log: seq<Entry>, p: nat, db: map<Key, Rec>)
    requires p <= |log| && init.Keys <= db.Keys
    requires forall k :: k in init ==> db[k] == Lookup(init, log, p, k)
    requires forall q: nat :: q < |log| ==> log[q].wrote.Keys <= init.Keys
    requires forall q: nat, k :: q < |log| && log[q].status == Committed && k in log[q].read ==>
             Settled(init, log, q, k)
    ensures SerialFrom(db, CommittedOf(log[p..]))
    ensures forall k :: k in init ==>
              var r := SerialResult(db, CommittedOf(log[p..])); k in r && r[k] == Lookup(init, log, |log|, k)
    decreases |log| - p
  {
    if p < |log| {
      assert log[p..][0] == log[p] && log[p..][1..] == log[p + 1..];
      if log[p].status == Committed {
        var rest := CommittedOf(log[p + 1..]);
        SerialStep(init, log, p + 1, db + log[p].wrote);
        assert ([log[p]] + rest)[1..] == rest;
        forall k | k in log[p].read ensures k in db && db[k] == log[p].read[k] { assert Settled(init, log, p, k); }
      } else {
        SerialStep(init, log, p + 1, db);
      }
    }
  }

  lemma {:induction false} CommittedEpochs(log: seq<Entry>)
    requires EpochsRise(log)
    ensures EpochsRise(CommittedOf(log))
    ensures forall j :: 0 <= j < |CommittedOf(log)| ==> CommittedOf(log)[j] in log
  {
    if log != [] {
      var rest := CommittedOf(log[1..]);
      CommittedEpochs(log[1..]);
      forall j | 0 <= j < |rest| ensures log[0].epoch <= rest[j].epoch {
        var i :| 0 <= i < |log[1..]| && log[1..][i] == rest[j];
        assert log[i + 1] == rest[j];
      }
    }
  }

  // No transaction is between its serial point and its end.
  predicate Quiet(s: State) {
    forall t :: t in s.txs ==> var pc := s.txs[t].pc; !pc.Validating? && !pc.Writing? && !pc.Storing?
  }

  // In every interleaving, the committed transactions, in the order of their serial points, are a serial execution
  // of the loaded database; their epochs never fall; and when the database is at rest its records are the result.
  lemma Serializable(s0: State, run: seq<Step>)
    requires Init(s0) && IsRun(s0, run)
    ensures var s := Exec(s0, run);
            && SerialFrom(s0.mem.init, CommittedOf(s.mem.log))
            && EpochsRise(CommittedOf(s.mem.log))
            && (Quiet(s) ==> forall k :: k in s.mem.vals ==>
                  k in SerialResult(s0.mem.init, CommittedOf(s.mem.log))
                  && s.mem.vals[k].rec == SerialResult(s0.mem.init, CommittedOf(s.mem.log))[k])
  {
    P.InitHolds(s0);
    RunKeeps(s0, run);
    var s := Exec(s0, run);
    InvSerial(s);
    if Quiet(s) {
      forall k | k in s.mem.vals ensures s.mem.vals[k].rec == Lookup(s.mem.init, s.mem.log, |s.mem.log|, k) {
        QuietRecord(s, k);
      }
    }
  }

  lemma InvSerial(s: State)
    requires Inv(s)
    ensures var txs := CommittedOf(s.mem.log);
            && SerialFrom(s.mem.init, txs) && EpochsRise(txs)
            && forall k :: k in s.mem.init ==>
                 k in SerialResult(s.mem.init, txs)
                   && SerialResult(s.mem.init, txs)[k] == Lookup(s.mem.init, s.mem.log, |s.mem.log|, k)
  {
    var log := s.mem.log;
    forall q: nat | q < |log|
      ensures EntryOk(s.mem.init, log, q, s.epoch, s.txs) && log[q].wrote.Keys <= s.mem.init.Keys
    {
      assert EntryOk(s.mem.init, log, q, s.epoch, s.txs);
      assert TxOk(s.mem, log[q].tx, s.txs[log[q].tx]);
      assert log[q].wrote == Writes(s.txs[log[q].tx]);
    }
    assert EpochsRise(log);
    CommittedEpochs(log);
    SerialStep(s.mem.init, log, 0, s.mem.init);
    assert log[0..] == log;
  }

  lemma QuietRecord(s: State, k: Key)
    requires Inv(s) && Quiet(s) && k in s.mem.vals
    ensures s.mem.vals[k].rec == Lookup(s.mem.init, s.mem.log, |s.mem.log|, k)
  {
    var m := s.mem;
    assert KeyOk(m, k);
    if k in m.mid { MidHolder(s, k); }
    forall q: nat | m.last[k] < q < |m.log| && k in m.log[q].wrote ensures m.log[q].status != Committed {
      assert WriterOk(m, q, k);
      assert EntryOk(m.init, m.log, q, s.epoch, s.txs);
      if m.log[q].status == Committed { CommittedHolder(s, m.log[q].tx, k); }
    }
    S.LookupLast(m.init, m.log, |m.log|, k, m.last[k]);
  }

  lemma MidHolder(s: State, k: Key)
    requires Inv(s) && k in s.mem.mid && k in s.mem.owner
    ensures s.mem.owner[k] in s.txs && s.txs[s.mem.owner[k]].pc.Storing?
  {
    assert OwnerOk(s.mem.owner, s.txs, k);
    var tx := s.txs[s.mem.owner[k]];
    assert TxOk(s.mem, s.mem.owner[k], tx);
    var j :| Lo(tx) <= j < Hi(tx) && j < |tx.ws| && tx.ws[j] == k;
    assert LockOk(s.mem, s.mem.owner[k], tx, j);
  }

  // A committed transaction that still holds a lock is in its write phase.
  lemma CommittedHolder(s: State, t: TxId, k: Key)
    requires Inv(s) && k in s.mem.owner && s.mem.owner[k] == t && t in s.txs && s.txs[t].serialized
    requires s.txs[t].pos < |s.mem.log| && s.mem.log[s.txs[t].pos].status == Committed
    ensures s.txs[t].pc.Writing? || s.txs[t].pc.Storing?
  {
    assert OwnerOk(s.mem.owner, s.txs, k);
    assert TxOk(s.mem, t, s.txs[t]);
  }

  // The loops of get_record_pointer and copy_record: at the load that ends the loop, memory holds exactly the record
  // and the word that are returned, and that record is the one committed together with that word.
  lemma ReadsAreNeverTorn(s0: State, run: seq<Step>, t: TxId)
    requires Init(s0) && IsRun(s0, run)
    requires var s := Exec(s0, run);
             t in s.txs && s.txs[t].pc.HaveRec? && s.txs[t].pc.key in s.mem.vals
             && s.mem.vals[s.txs[t].pc.key].tw == s.txs[t].pc.expected
    ensures var s := Exec(s0, run);
            var pc := s.txs[t].pc;
            && s.mem.vals[pc.key] == Val(pc.expected, pc.rec)
            && pc.key in s.mem.last && pc.key in s.mem.init && pc.rec == Published(s.mem, pc.key)
  {
    P.InitHolds(s0);
    RunKeeps(s0, run);
    var s := Exec(s0, run);
    assert TxOk(s.mem, t, s.txs[t]);
    assert KeyOk(s.mem, s.txs[t].pc.key);
    P.ReadTogether(s.mem, s.txs[t].pc);
  }

  // A commit writes a tid above the current one of the record and above every tid in its read and write sets.
  lemma CommitRaisesTid(s0: State, run: seq<Step>, t: TxId)
    requires Init(s0) && IsRun(s0, run) && Enabled(Exec(s0, run), StoreWord(t))
    ensures var s := Exec(s0, run);
            var tx := s.txs[t];
            var k := tx.ws[tx.pc.i];
            var s' := Apply(s, StoreWord(t));
            && s.mem.vals[k].tw.tid < s'.mem.vals[k].tw.tid
            && forall j :: j in tx.rws ==> tx.rws[j].tw.tid < s'.mem.vals[k].tw.tid
  {
    P.InitHolds(s0);
    RunKeeps(s0, run);
    var s := Exec(s0, run);
    assert TxOk(s.mem, t, s.txs[t]);
    assert LockOk(s.mem, t, s.txs[t], s.txs[t].pc.i);
  }

  // The increment of the 29-bit tid rises exactly when it does not run over.
  lemma TidRisesUnlessFull(s: State, t: TxId)
    requires Enabled(s, GenerateTid(t)) && s.txs[t].tid < TID_LIMIT
    ensures s.txs[t].tid < Apply(s, GenerateTid(t)).txs[t].tid <==> TidFits(s, GenerateTid(t))
  {
  }

  predicate InPrecommit(pc: Pc) {
    pc.Locking? || pc.Validating? || pc.Writing? || pc.Storing? || pc.Unlocking?
  }

  ghost predicate CanStep(s: State, t: TxId) {
    || Enabled(s, Lock(t)) || Enabled(s, SerialPoint(t)) || (exists k :: Enabled(s, Validate(t, k)))
    || Enabled(s, GenerateTid(t)) || Enabled(s, ExchangeRec(t)) || Enabled(s, StoreWord(t)) || Enabled(s, Unlock(t))
    || Enabled(s, Finish(t))
  }

  // A transaction in precommit can move on unless the next word it wants is held.
  lemma MovesUnlessLocked(s: State, t: TxId)
    requires MemOk(s.mem) && t in s.txs && TxOk(s.mem, t, s.txs[t]) && InPrecommit(s.txs[t].pc)
    requires var tx := s.txs[t]; tx.pc.Locking? && tx.pc.i < |tx.ws| ==> tx.ws[tx.pc.i] !in s.mem.owner
    ensures CanStep(s, t)
  {
    var tx := s.txs[t];
    match tx.pc
    case Locking(i) =>
      if i < |tx.ws| {
        assert KeyOk(s.mem, tx.ws[i]);
        assert Enabled(s, Lock(t));
      } else {
        assert Enabled(s, SerialPoint(t));
      }
    case Validating(todo) =>
      if todo == {} {
        assert Enabled(s, GenerateTid(t));
      } else {
        var k :| k in todo;
        assert k in Reads(tx);
        assert Enabled(s, Validate(t, k));
      }
    case Writing(i) => assert Enabled(s, if i < |tx.ws| then ExchangeRec(t) else Finish(t));
    case Storing(i) => assert Enabled(s, StoreWord(t));
    case Unlocking(i, n) => assert Enabled(s, if i < n then Unlock(t) else Finish(t));
  }

  lemma StuckAtLock(s: State, t: TxId)
    requires Inv(s) && t in s.txs && InPrecommit(s.txs[t].pc) && !CanStep(s, t)
    ensures var tx := s.txs[t];
            && tx.pc.Locking? && tx.pc.i < |tx.ws| && tx.ws[tx.pc.i] in s.mem.owner && Ascending(tx.ws)
  {
    assert TxOk(s.mem, t, s.txs[t]);
    var tx := s.txs[t];
    if !(tx.pc.Locking? && tx.pc.i < |tx.ws| && tx.ws[tx.pc.i] in s.mem.owner) { MovesUnlessLocked(s, t); }
  }

  function Above(keys: set<Key>, k: Key): set<Key> {
    set j | j in keys && k < j
  }

  // Locks are taken in ascending order, so following a stuck transaction to the holder of the word it waits for
  // climbs through the keys and ends at one that can move.
  lemma {:induction false} LockingNeverDeadlocks(s: State, t: TxId) returns (u: TxId)
    requires Inv(s) && t in s.txs && InPrecommit(s.txs[t].pc)
    ensures u in s.txs && InPrecommit(s.txs[u].pc) && CanStep(s, u)
    decreases if CanStep(s, t) then 0 else 1 + |Above(s.mem.vals.Keys, WaitsAt(s, t))|
  {
    if CanStep(s, t) { return t; }
    StuckAtLock(s, t);
    var k := WaitsAt(s, t);
    var v := s.mem.owner[k];
    HolderWaitsHigher(s, k);
    if CanStep(s, v) { return v; }
    var k' := WaitsAt(s, v);
    assert k' in Above(s.mem.vals.Keys, k) && Above(s.mem.vals.Keys, k') < Above(s.mem.vals.Keys, k);
    Smaller(Above(s.mem.vals.Keys, k'), Above(s.mem.vals.Keys, k));
    u := LockingNeverDeadlocks(s, v);
  }

  // In every run, as long as a transaction is in precommit, one that is can move on.
  lemma PrecommitNeverStuck(s0: State, run: seq<Step>, t: TxId)
    requires Init(s0) && IsRun(s0, run) && t in Exec(s0, run).txs && InPrecommit(Exec(s0, run).txs[t].pc)
    ensures exists u :: u in Exec(s0, run).txs && InPrecommit(Exec(s0, run).txs[u].pc) && CanStep(Exec(s0, run), u)
  {
    P.InitHolds(s0);
    RunKeeps(s0, run);
    var u := LockingNeverDeadlocks(Exec(s0, run), t);
  }

  lemma Smaller(a: set<Key>, b: set<Key>)
    requires a < b
    ensures |a| < |b|
  {
    assert |b| == |a| + |b - a| by { assert b == a + (b - a); }
  }

  ghost function WaitsAt(s: State, t: TxId): Key
    requires t in s.txs
  {
    var tx := s.txs[t];
    if tx.pc.Locking? && tx.pc.i < |tx.ws| then tx.ws[tx.pc.i] else 0
  }

  lemma HolderWaitsHigher(s: State, k: Key)
    requires Inv(s) && k in s.mem.owner
    ensures var v := s.mem.owner[k];
            && v in s.txs && InPrecommit(s.txs[v].pc)
            && (!CanStep(s, v) ==> k < WaitsAt(s, v) && WaitsAt(s, v) in s.mem.vals)
  {
    var v := s.mem.owner[k];
    assert OwnerOk(s.mem.owner, s.txs, k);
    assert TxOk(s.mem, v, s.txs[v]);
    if !CanStep(s, v) { StuckAtLock(s, v); }
  }
}
