/** Wait-die transactions on records (`waitdie/include/waitdie.hpp`): `read`, `update`, `upsert` and `remove` of
    existing keys under the locks, precommit and abort. Strict two-phase locking makes every run serial in the order of
    the commits. */
module WaitDieData {
  import opened WaitDieLock
  import L = WaitDie

  type Val = int

  // A record, or None when the value is detached from the tree.
  type Rec = Option<Val>

  // `seen`: the records that the transaction found under its locks; `writes`: what it has still to store, None for a
  // remove.
  datatype Data = Data(seen: map<L.LockId, Rec>, writes: map<L.LockId, Rec>, committed: bool)

  // A committed transaction (a history variable).
  datatype Entry = Entry(ts: TS, seen: map<L.LockId, Rec>, writes: map<L.LockId, Rec>)

  datatype State = State(s: L.State, db: map<L.LockId, Rec>, data: map<TS, Data>, log: seq<Entry>)

  datatype Step =
    | Locking(step: L.Step)                       // begin, lock, upgrade, finish
    | Look(ts: TS, l: L.LockId)                   // the check for a detached value, and the record
    | Write(ts: TS, l: L.LockId, rec: Rec)        // into the local copy; None is remove
    | Commit(ts: TS)                              // precommit starts
    | Abort(ts: TS)
    | Store(ts: TS, l: L.LockId)                  // precommit exchanges the record
    | Unlock(ts: TS, l: L.LockId)

  predicate Working(s: State, ts: TS) {
    L.Active(s.s, ts) && ts in s.data
  }

  predicate Enabled(s: State, step: Step) {
    match step
    case Locking(x) => !x.StartRelease? && !x.ReleaseOne? && L.Enabled(s.s, x)
    case Look(ts, l) => Working(s, ts) && l in s.s.txs[ts].held && l !in s.data[ts].seen && l in s.db
    case Write(ts, l, _) =>
      && Working(s, ts) && l in s.s.txs[ts].held && s.s.txs[ts].held[l] == E && l in s.data[ts].seen
    case Commit(ts) => Working(s, ts)
    case Abort(ts) => Working(s, ts)
    case Store(ts, l) => ts in s.data && s.data[ts].committed && l in s.data[ts].writes && l in s.db
    case Unlock(ts, l) =>
      && L.Enabled(s.s, L.ReleaseOne(ts, l)) && ts in s.data && (s.data[ts].committed ==> l !in s.data[ts].writes)
  }

  function Releases(s: State, ts: TS): L.State
    requires Working(s, ts)
  {
    L.Apply(s.s, L.StartRelease(ts))
  }

  function Apply(s: State, step: Step): State
    requires Enabled(s, step)
  {
    match step
    case Locking(x) =>
      s.(s := L.Apply(s.s, x),
         data := match x
           case Begin(ts) => s.data[ts := Data(map[], map[], false)]
           case Retire(ts) => s.data - {ts}
           case _ => s.data)
    case Look(ts, l) =>
      var s' := s.(data := s.data[ts := s.data[ts].(seen := s.data[ts].seen[l := s.db[l]])]);
      if s.db[l].None? then s'.(s := Releases(s, ts)) else s'
    case Write(ts, l, rec) => s.(data := s.data[ts := s.data[ts].(writes := s.data[ts].writes[l := rec])])
    case Commit(ts) =>
      s.(s := Releases(s, ts), data := s.data[ts := s.data[ts].(committed := true)],
         log := s.log + [Entry(ts, s.data[ts].seen, s.data[ts].writes)])
    case Abort(ts) => s.(s := Releases(s, ts))
    case Store(ts, l) =>
      s.(db := s.db[l := s.data[ts].writes[l]], data := s.data[ts := s.data[ts].(writes := s.data[ts].writes - {l})])
    case Unlock(ts, l) => s.(s := L.Apply(s.s, L.ReleaseOne(ts, l)))
  }

  predicate Init(s: State) {
    L.Init(s.s) && s.data == map[] && s.log == [] && s.db.Keys == s.s.locks.Keys
  }

  predicate IsRun(s: State, run: seq<Step>)
    decreases |run|
  {
    run == [] || (Enabled(s, run[0]) && IsRun(Apply(s, run[0]), run[1..]))
  }

  function Exec(s: State, run: seq<Step>): State
    requires IsRun(s, run)
    decreases |run|
  {
    if run == [] then s else Exec(Apply(s, run[0]), run[1..])
  }

  // The record after the committed transactions have run one by one.
  function Serial(db: map<L.LockId, Rec>, log: seq<Entry>, l: L.LockId): Rec
    requires l in db
  {
    if log == [] then db[l]
    else
      var last := log[|log| - 1];
      if l in last.writes then last.writes[l] else Serial(db, log[..|log| - 1], l)
  }

  // ----- What holds throughout -----

  // u has committed a write to l and not stored it yet.
  ghost predicate Pending(s: State, u: TS, l: L.LockId) {
    u in s.data && s.data[u].committed && l in s.data[u].writes
  }

  ghost predicate Holds(s: State, t: TS, l: L.LockId) {
    t in s.s.txs && l in s.s.txs[t].held
  }

  ghost predicate HoldsE(s: State, t: TS, l: L.LockId) {
    Holds(s, t, l) && s.s.txs[t].held[l] == E
  }

  ghost predicate TxOk(s: State, t: TS)
    requires t in s.data
  {
    var d := s.data[t];
    && t in s.s.txs && (d.committed ==> s.s.txs[t].releasing)
    && (!s.s.txs[t].releasing ==> forall l :: l in d.seen ==> Holds(s, t, l) && l in s.db && d.seen[l] == s.db[l])
    && (!s.s.txs[t].releasing || d.committed ==> forall l :: l in d.writes ==> HoldsE(s, t, l) && l in s.db)
  }

  // The committed history agrees with the database but for the writes that are still to be stored.
  ghost predicate KeyOk(db0: map<L.LockId, Rec>, s: State, l: L.LockId)
    requires l in db0 && l in s.db
  {
    && (forall u {:trigger Pending(s, u, l)} :: Pending(s, u, l) ==> Serial(db0, s.log, l) == s.data[u].writes[l])
    && ((forall u {:trigger Pending(s, u, l)} :: !Pending(s, u, l)) ==> Serial(db0, s.log, l) == s.db[l])
  }

  // Transaction i of the history found what running those before it one by one leaves.
  ghost predicate EntryOk(db0: map<L.LockId, Rec>, log: seq<Entry>, i: nat)
    requires i < |log|
  {
    forall l :: l in log[i].seen ==> l in db0 && log[i].seen[l] == Serial(db0, log[..i], l)
  }

  ghost predicate Inv(db0: map<L.LockId, Rec>, s: State) {
    && L.Inv(s.s) && s.db.Keys == db0.Keys == s.s.locks.Keys && s.data.Keys == s.s.txs.Keys
    && (forall t {:trigger TxOk(s, t)} :: t in s.data ==> TxOk(s, t))
    && (forall l {:trigger KeyOk(db0, s, l)} :: l in db0 ==> KeyOk(db0, s, l))
    && (forall i {:trigger EntryOk(db0, s.log, i)} :: 0 <= i < |s.log| ==> EntryOk(db0, s.log, i))
  }

  // Nobody else holds a lock that is held exclusively.
  lemma Alone(s: L.State, t: TS, u: TS, l: L.LockId)
    requires L.Inv(s) && t in s.txs && u in s.txs && l in s.txs[t].held && l in s.txs[u].held && s.txs[t].held[l] == E
    ensures t == u
  {
    assert L.TxOk(s, t);
    assert L.LockOk(s.locks[l], l, s.txs);
    assert t in s.locks[l].owners && u in s.locks[l].owners;
  }

  // A lock step takes nothing away from anybody but whom it is about.
  lemma LockStep(s: L.State, x: L.Step, s': L.State, t: TS)
    requires L.Inv(s) && L.Enabled(s, x) && s' == L.Apply(s, x) && t in s.txs && x != L.Retire(t)
    ensures t in s'.txs && s'.locks.Keys == s.locks.Keys && (s.txs[t].releasing ==> s'.txs[t].releasing)
    ensures forall l :: l in s.txs[t].held && x != L.ReleaseOne(t, l) ==>
              l in s'.txs[t].held && (s.txs[t].held[l] == E ==> s'.txs[t].held[l] == E)
  {
    assert L.TxOk(s, t);
    match x
    case LockShared(ts, j) => assert L.TxOk(s, ts);
    case ReleaseOne(ts, j) => assert L.TxOk(s, ts) && L.LockOk(s.locks[j], j, s.txs);
    case _ =>
  }

  // What a step on the locks leaves alone: the database, the history, and every transaction's data.
  lemma LocksKeep(db0: map<L.LockId, Rec>, s: State, x: L.Step, s': State, t: TS)
    requires Inv(db0, s) && L.Enabled(s.s, x) && s'.s == L.Apply(s.s, x) && s'.db == s.db && x != L.Retire(t)
    requires t in s.data && t in s'.data && s'.data[t] == s.data[t]
    requires forall l :: x == L.ReleaseOne(t, l) ==> s.data[t].committed ==> l !in s.data[t].writes
    ensures TxOk(s', t)
  {
    assert TxOk(s, t);
    LockStep(s.s, x, s'.s, t);
  }

  lemma KeySame(db0: map<L.LockId, Rec>, s: State, s': State, l: L.LockId)
    requires l in db0 && l in s.db && KeyOk(db0, s, l) && s'.db == s.db && s'.log == s.log
    requires forall u :: Pending(s', u, l) <==> Pending(s, u, l)
    requires forall u :: Pending(s, u, l) && Pending(s', u, l) ==> s'.data[u].writes[l] == s.data[u].writes[l]
    ensures KeyOk(db0, s', l)
  {
    if forall u {:trigger Pending(s', u, l)} :: !Pending(s', u, l) {
      forall u ensures !Pending(s, u, l) { assert !Pending(s', u, l); }
    }
  }

  lemma LockingTx(db0: map<L.LockId, Rec>, s: State, x: L.Step, s': State, t: TS)
    requires Inv(db0, s) && Enabled(s, Locking(x)) && s' == Apply(s, Locking(x)) && t in s'.data
    ensures TxOk(s', t)
  {
    if x == L.Begin(t) {
      assert s'.data[t] == Data(map[], map[], false);
    } else {
      assert t in s.data && s'.data[t] == s.data[t] && x != L.Retire(t);
      LocksKeep(db0, s, x, s', t);
    }
  }

  lemma LockingKey(db0: map<L.LockId, Rec>, s: State, x: L.Step, s': State, l: L.LockId)
    requires Inv(db0, s) && Enabled(s, Locking(x)) && s' == Apply(s, Locking(x)) && l in db0
    ensures KeyOk(db0, s', l)
  {
    assert KeyOk(db0, s, l);
    forall u ensures Pending(s', u, l) <==> Pending(s, u, l) {
      if x == L.Begin(u) {
        assert u in s.s.txs ==> L.TxOk(s.s, u);
      } else if x == L.Retire(u) {
        assert TxOk(s, u);
        assert Pending(s, u, l) ==> HoldsE(s, u, l);
      }
    }
    KeySame(db0, s, s', l);
  }

  lemma LockingKeys(db0: map<L.LockId, Rec>, s: State, x: L.Step, s': State)
    requires Inv(db0, s) && Enabled(s, Locking(x)) && s' == Apply(s, Locking(x))
    ensures L.Inv(s'.s) && s'.db.Keys == s'.s.locks.Keys && s'.data.Keys == s'.s.txs.Keys
  {
    L.StepKeeps(s.s, x);
    forall t ensures t in s'.data <==> t in s'.s.txs {
      assert t in s.data.Keys <==> t in s.s.txs.Keys;
    }
  }

  lemma LockingKeeps(db0: map<L.LockId, Rec>, s: State, x: L.Step, s': State)
    requires Inv(db0, s) && Enabled(s, Locking(x)) && s' == Apply(s, Locking(x))
    ensures Inv(db0, s')
  {
    LockingKeys(db0, s, x, s');
    forall t | t in s'.data ensures TxOk(s', t) { LockingTx(db0, s, x, s', t); }
    forall l | l in db0 ensures KeyOk(db0, s', l) { LockingKey(db0, s, x, s', l); }
  }

  lemma UnlockKeeps(db0: map<L.LockId, Rec>, s: State, ts: TS, l: L.LockId, s': State)
    requires Inv(db0, s) && Enabled(s, Unlock(ts, l)) && s' == Apply(s, Unlock(ts, l))
    ensures Inv(db0, s')
  {
    L.StepKeeps(s.s, L.ReleaseOne(ts, l));
    forall t | t in s'.data ensures TxOk(s', t) { LocksKeep(db0, s, L.ReleaseOne(ts, l), s', t); }
    forall j | j in db0 ensures KeyOk(db0, s', j) {
      assert KeyOk(db0, s, j);
      KeySame(db0, s, s', j);
    }
  }

  // A transaction at work on its own data.
  lemma LocalTx(db0: map<L.LockId, Rec>, s: State, step: Step, s': State, t: TS)
    requires Inv(db0, s) && Enabled(s, step) && (step.Look? || step.Write? || step.Abort?) && s' == Apply(s, step)
    requires t in s'.data
    ensures TxOk(s', t)
  {
    assert TxOk(s, t);
    assert s'.db == s.db && forall l :: Holds(s', t, l) == Holds(s, t, l) && HoldsE(s', t, l) == HoldsE(s, t, l);
  }

  lemma LocalKey(db0: map<L.LockId, Rec>, s: State, step: Step, s': State, l: L.LockId)
    requires Inv(db0, s) && Enabled(s, step) && (step.Look? || step.Write? || step.Abort?) && s' == Apply(s, step)
    requires l in db0
    ensures KeyOk(db0, s', l)
  {
    assert KeyOk(db0, s, l) && TxOk(s, step.ts);
    assert !s.data[step.ts].committed;
    forall u ensures Pending(s', u, l) <==> Pending(s, u, l) { }
    KeySame(db0, s, s', l);
  }

  lemma LocalKeeps(db0: map<L.LockId, Rec>, s: State, step: Step, s': State)
    requires Inv(db0, s) && Enabled(s, step) && (step.Look? || step.Write? || step.Abort?) && s' == Apply(s, step)
    ensures Inv(db0, s')
  {
    L.StepKeeps(s.s, L.StartRelease(step.ts));
    assert s'.log == s.log && s'.db == s.db && s'.data.Keys == s'.s.txs.Keys && s'.s.locks == s.s.locks;
    forall t | t in s'.data ensures TxOk(s', t) { LocalTx(db0, s, step, s', t); }
    forall l | l in db0 ensures KeyOk(db0, s', l) { LocalKey(db0, s, step, s', l); }
  }

  // Nobody has a write to store of what a working transaction has seen.
  lemma NonePending(db0: map<L.LockId, Rec>, s: State, t: TS, l: L.LockId)
    requires Inv(db0, s) && Working(s, t) && Holds(s, t, l) && l in db0
    ensures forall u :: !Pending(s, u, l)
    ensures Serial(db0, s.log, l) == s.db[l]
  {
    assert TxOk(s, t) && KeyOk(db0, s, l);
    forall u ensures !Pending(s, u, l) {
      if Pending(s, u, l) {
        assert TxOk(s, u);
        Alone(s.s, u, t, l);
      }
    }
  }

  lemma CommitKeys(db0: map<L.LockId, Rec>, s: State, ts: TS, s': State, l: L.LockId)
    requires Inv(db0, s) && Enabled(s, Commit(ts)) && s' == Apply(s, Commit(ts)) && l in db0
    ensures KeyOk(db0, s', l)
  {
    assert TxOk(s, ts) && KeyOk(db0, s, l);
    assert s'.log[..|s.log|] == s.log;
    assert forall u :: Pending(s', u, l) <==> Pending(s, u, l) || (u == ts && l in s.data[ts].writes);
    if l in s.data[ts].writes {
      NonePending(db0, s, ts, l);
      assert Pending(s', ts, l);
    } else if forall u {:trigger Pending(s', u, l)} :: !Pending(s', u, l) {
      forall u ensures !Pending(s, u, l) { assert !Pending(s', u, l); }
    }
  }

  lemma CommitKeeps(db0: map<L.LockId, Rec>, s: State, ts: TS, s': State)
    requires Inv(db0, s) && Enabled(s, Commit(ts)) && s' == Apply(s, Commit(ts))
    ensures Inv(db0, s')
  {
    L.StepKeeps(s.s, L.StartRelease(ts));
    assert TxOk(s, ts);
    forall t | t in s'.data ensures TxOk(s', t) { assert TxOk(s, t); }
    forall l | l in db0 ensures KeyOk(db0, s', l) { CommitKeys(db0, s, ts, s', l); }
    forall i | 0 <= i < |s'.log| ensures EntryOk(db0, s'.log, i) {
      assert s'.log[..i] == s.log[..i];
      if i < |s.log| {
        assert EntryOk(db0, s.log, i);
      } else {
        assert s.log[..i] == s.log;
        forall l | l in s.data[ts].seen ensures s.data[ts].seen[l] == Serial(db0, s.log, l) {
          NonePending(db0, s, ts, l);
        }
      }
    }
  }

  lemma StoreKey(db0: map<L.LockId, Rec>, s: State, ts: TS, l: L.LockId, s': State, j: L.LockId)
    requires Inv(db0, s) && Enabled(s, Store(ts, l)) && s' == Apply(s, Store(ts, l)) && j in db0
    ensures KeyOk(db0, s', j)
  {
    assert TxOk(s, ts) && KeyOk(db0, s, j);
    if j == l {
      assert Pending(s, ts, l);
      forall u ensures !Pending(s', u, l) {
        if Pending(s', u, l) {
          assert Pending(s, u, l) && TxOk(s, u);
          Alone(s.s, ts, u, l);
        }
      }
    } else {
      assert forall u :: Pending(s', u, j) <==> Pending(s, u, j);
      if forall u {:trigger Pending(s', u, j)} :: !Pending(s', u, j) {
        forall u ensures !Pending(s, u, j) { assert !Pending(s', u, j); }
      }
    }
  }

  lemma StoreTx(db0: map<L.LockId, Rec>, s: State, ts: TS, l: L.LockId, s': State, t: TS)
    requires Inv(db0, s) && Enabled(s, Store(ts, l)) && s' == Apply(s, Store(ts, l)) && t in s.data
    ensures TxOk(s', t)
  {
    assert TxOk(s, ts) && TxOk(s, t);
    if t != ts && Holds(s, t, l) { Alone(s.s, ts, t, l); }
  }

  lemma StoreKeeps(db0: map<L.LockId, Rec>, s: State, ts: TS, l: L.LockId, s': State)
    requires Inv(db0, s) && Enabled(s, Store(ts, l)) && s' == Apply(s, Store(ts, l))
    ensures Inv(db0, s')
  {
    assert s'.s == s.s && s'.log == s.log && s'.data.Keys == s.data.Keys && s'.db.Keys == s.db.Keys;
    forall t | t in s'.data ensures TxOk(s', t) { StoreTx(db0, s, ts, l, s', t); }
    forall j | j in db0 ensures KeyOk(db0, s', j) { StoreKey(db0, s, ts, l, s', j); }
  }

  lemma StepKeeps(db0: map<L.LockId, Rec>, s: State, step: Step)
    requires Inv(db0, s) && Enabled(s, step)
    ensures Inv(db0, Apply(s, step))
  {
    match step
    case Locking(x) => LockingKeeps(db0, s, x, Apply(s, step));
    case Commit(ts) => CommitKeeps(db0, s, ts, Apply(s, step));
    case Store(ts, l) => StoreKeeps(db0, s, ts, l, Apply(s, step));
    case Unlock(ts, l) => UnlockKeeps(db0, s, ts, l, Apply(s, step));
    case _ => LocalKeeps(db0, s, step, Apply(s, step));
  }

  lemma {:induction false} RunKeeps(db0: map<L.LockId, Rec>, s: State, run: seq<Step>)
    requires Inv(db0, s) && IsRun(s, run)
    ensures Inv(db0, Exec(s, run))
    decreases |run|
  {
    if run != [] {
      StepKeeps(db0, s, run[0]);
      RunKeeps(db0, Apply(s, run[0]), run[1..]);
    }
  }

  lemma StartInv(s: State)
    requires Init(s)
    ensures Inv(s.db, s)
  {
    L.RunKeeps(s.s, []);
    forall l | l in s.db ensures KeyOk(s.db, s, l) { }
  }

  // ----- The theorems -----

  // In every run the committed transactions have read what running them one by one in the order of their commits gives.
  lemma Serializable(s0: State, run: seq<Step>, i: nat, l: L.LockId)
    requires Init(s0) && IsRun(s0, run) && i < |Exec(s0, run).log| && l in Exec(s0, run).log[i].seen
    ensures var log := Exec(s0, run).log; l in s0.db && log[i].seen[l] == Serial(s0.db, log[..i], l)
  {
    StartInv(s0);
    RunKeeps(s0.db, s0, run);
    assert EntryOk(s0.db, Exec(s0, run).log, i);
  }

  // And the database is what that leaves, but for the writes that committed transactions have still to store under
  // their locks; aborted transactions leave nothing.
  lemma DatabaseIsSerial(s0: State, run: seq<Step>, l: L.LockId)
    requires Init(s0) && IsRun(s0, run) && l in s0.db
    ensures var s := Exec(s0, run);
            && l in s.db
            && (forall u {:trigger Pending(s, u, l)} :: Pending(s, u, l) ==>
                  HoldsE(s, u, l) && Serial(s0.db, s.log, l) == s.data[u].writes[l])
            && ((forall u {:trigger Pending(s, u, l)} :: !Pending(s, u, l)) ==> s.db[l] == Serial(s0.db, s.log, l))
  {
    StartInv(s0);
    RunKeeps(s0.db, s0, run);
    var s := Exec(s0, run);
    assert KeyOk(s0.db, s, l);
    forall u | Pending(s, u, l) ensures HoldsE(s, u, l) { assert TxOk(s, u); }
  }

  // Until it commits or aborts, what a transaction has read stays as it is.
  lemma ReadsRepeat(s0: State, run: seq<Step>, t: TS, l: L.LockId)
    requires Init(s0) && IsRun(s0, run)
    requires var s := Exec(s0, run); t in s.data && t in s.s.txs && !s.s.txs[t].releasing && l in s.data[t].seen
    ensures var s := Exec(s0, run); l in s.db && l in s0.db && s.data[t].seen[l] == s.db[l] == Serial(s0.db, s.log, l)
  {
    StartInv(s0);
    RunKeeps(s0.db, s0, run);
    var s := Exec(s0, run);
    assert TxOk(s, t) && KeyOk(s0.db, s, l);
    forall u ensures !Pending(s, u, l) {
      if Pending(s, u, l) {
        assert TxOk(s, u);
        Alone(s.s, u, t, l);
      }
    }
  }
}
