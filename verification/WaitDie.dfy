/** Any number of transactions over any number of wait-die locks. A transaction takes locks as `read`, `update` and
    `remove` of `waitdie.hpp` do, releases them all in precommit or abort, and only then takes a new timestamp. */
module WaitDie {
  import opened WaitDieLock
  import opened WaitDieLockProof

  type LockId = nat

  // `held` is the mode of each lock taken; `waiting` the request the transaction is spinning on.
  datatype Tx = Tx(held: map<LockId, Operation>, waiting: Option<(LockId, Operation)>, releasing: bool)

  // Transactions are named by their timestamps; `used` holds every timestamp ever given out.
  datatype State = State(locks: map<LockId, LockState>, txs: map<TS, Tx>, used: set<TS>, threw: bool)

  datatype Step =
    | Begin(ts: TS)
    | LockShared(ts: TS, l: LockId)
    | LockExclusive(ts: TS, l: LockId)
    | Upgrade(ts: TS, l: LockId)
    | StartRelease(ts: TS)
    | ReleaseOne(ts: TS, l: LockId)
    | Retire(ts: TS)

  predicate Active(s: State, ts: TS) {
    ts in s.txs && s.txs[ts].waiting.None? && !s.txs[ts].releasing
  }

  predicate Enabled(s: State, step: Step) {
    match step
    case Begin(ts) => ts !in s.used
    case LockShared(ts, l) => Active(s, ts) && l in s.locks && Proper(s.locks[l]) && l !in s.txs[ts].held
    case LockExclusive(ts, l) => Active(s, ts) && l in s.locks && Proper(s.locks[l]) && l !in s.txs[ts].held
    case Upgrade(ts, l) =>
      Active(s, ts) && l in s.locks && Proper(s.locks[l]) && l in s.txs[ts].held && s.txs[ts].held[l] == S
    case StartRelease(ts) => Active(s, ts)
    case ReleaseOne(ts, l) => ts in s.txs && s.txs[ts].releasing && l in s.txs[ts].held && l in s.locks
    case Retire(ts) => ts in s.txs && s.txs[ts].releasing && s.txs[ts].held == map[]
  }

  // What the caller makes of the answer: it has the lock, it spins, or it aborts.
  function Answered(s: State, ts: TS, l: LockId, l': LockState, r: Outcome, req: Operation): State
    requires ts in s.txs
  {
    var tx := s.txs[ts];
    var tx' := match r
      case Granted => tx.(held := tx.held[l := ModeOf(req)])
      case Queued => tx.(waiting := Some((l, req)))
      case Denied => tx.(releasing := true)
      case Threw => tx;
    State(s.locks[l := l'], s.txs[ts := tx'], s.used, s.threw || r == Threw)
  }

  // Promoted waiters leave their spin loops with the lock.
  function Woken(tx: Tx, ts: TS, l: LockId, l': LockState): Tx {
    if tx.waiting.Some? && tx.waiting.value.0 == l && Waiter(ts, tx.waiting.value.1) !in l'.waiters
    then tx.(waiting := None, held := tx.held[l := ModeOf(tx.waiting.value.1)])
    else tx
  }

  function Released(s: State, ts: TS, l: LockId): State
    requires Enabled(s, ReleaseOne(ts, l))
  {
    var (l', r) := Release(s.locks[l], ts, s.txs[ts].held[l]);
    var txs := s.txs[ts := s.txs[ts].(held := s.txs[ts].held - {l})];
    State(s.locks[l := l'], map t | t in txs :: Woken(txs[t], t, l, l'), s.used, s.threw || r == Threw)
  }

  function Apply(s: State, step: Step): State
    requires Enabled(s, step)
  {
    match step
    case Begin(ts) => s.(txs := s.txs[ts := Tx(map[], None, false)], used := s.used + {ts})
    case LockShared(ts, l) => var (l', r) := SharedCall(s.locks[l], ts); Answered(s, ts, l, l', r, S)
    case LockExclusive(ts, l) => var (l', r) := ExclusiveCall(s.locks[l], ts); Answered(s, ts, l, l', r, E)
    case Upgrade(ts, l) => var (l', r) := UpgradeCall(s.locks[l], ts); Answered(s, ts, l, l', r, U)
    case StartRelease(ts) => s.(txs := s.txs[ts := s.txs[ts].(releasing := true)])
    case ReleaseOne(ts, l) => Released(s, ts, l)
    case Retire(ts) => s.(txs := s.txs - {ts})
  }

  predicate Init(s: State) {
    s.txs == map[] && s.used == {} && !s.threw && forall l :: l in s.locks ==> s.locks[l] == LockState(I, [], [])
  }

  predicate IsRun(s: State, run: seq<Step>)
    decreases |run|
  {
    run == [] || (Enabled(s, run[0]) && IsRun(Apply(s, run[0]), run[1..]))
  }

  function Exec(s: State, run: seq<Step>): State
    requires IsRun(s, run)
    decreases |run|
  {
    if run == [] then s else Exec(Apply(s, run[0]), run[1..])
  }

  // ---- Invariant: the lists of the locks and the private sets of the transactions mirror each other ----

  ghost predicate OwnersLinked(lk: LockState, l: LockId, txs: map<TS, Tx>) {
    forall t :: t in lk.owners <==> t in txs && l in txs[t].held
  }

  ghost predicate ModesLinked(lk: LockState, l: LockId, txs: map<TS, Tx>) {
    forall t :: t in txs && l in txs[t].held ==> txs[t].held[l] == lk.op
  }

  ghost predicate WaitersLinked(lk: LockState, l: LockId, txs: map<TS, Tx>) {
    forall w :: w in lk.waiters <==> w.ts in txs && txs[w.ts].waiting == Some((l, w.op))
  }

  ghost predicate LockOk(lk: LockState, l: LockId, txs: map<TS, Tx>) {
    Valid(lk) && OwnersLinked(lk, l, txs) && ModesLinked(lk, l, txs) && WaitersLinked(lk, l, txs)
  }

  ghost predicate TxOk(s: State, t: TS) {
    && t in s.txs && t in s.used
    && s.txs[t].held.Keys <= s.locks.Keys
    && (s.txs[t].waiting.Some? ==> s.txs[t].waiting.value.0 in s.locks && !s.txs[t].releasing)
  }

  ghost predicate Inv(s: State) {
    && !s.threw
    && (forall l {:trigger LockOk(s.locks[l], l, s.txs)} :: l in s.locks ==> LockOk(s.locks[l], l, s.txs))
    && (forall t {:trigger TxOk(s, t)} :: t in s.txs ==> TxOk(s, t))
  }

  lemma NotListed(s: State, t: TS, l: LockId)
    requires Inv(s) && l in s.locks && (t in s.txs ==> s.txs[t].waiting.None?)
    ensures forall i :: 0 <= i < |s.locks[l].waiters| ==> s.locks[l].waiters[i].ts != t
  {
    var lk := s.locks[l];
    assert LockOk(lk, l, s.txs);
    forall i | 0 <= i < |lk.waiters| ensures lk.waiters[i].ts != t { assert lk.waiters[i] in lk.waiters; }
  }

  // One transaction changed, and only what concerns lock l.
  lemma OtherLock(lk: LockState, j: LockId, txs: map<TS, Tx>, txs': map<TS, Tx>, l: LockId)
    requires LockOk(lk, j, txs) && j != l && txs'.Keys == txs.Keys
    requires forall t :: t in txs ==>
               && (j in txs'[t].held <==> j in txs[t].held) && (j in txs[t].held ==> txs'[t].held[j] == txs[t].held[j])
               && (txs'[t].waiting == txs[t].waiting
                   || ((txs[t].waiting.Some? ==> txs[t].waiting.value.0 != j)
                         && (txs'[t].waiting.Some? ==> txs'[t].waiting.value.0 != j)))
    ensures LockOk(lk, j, txs')
  {
  }

  lemma AnsweredKeeps(s: State, ts: TS, l: LockId, l': LockState, r: Outcome, req: Operation)
    requires Inv(s) && Active(s, ts) && l in s.locks && req in {S, E, U} && r != Threw && Valid(l')
    requires var lk := s.locks[l];
             && (r == Granted ==>
                   && l'.waiters == lk.waiters && l'.op == ModeOf(req)
                   && (forall t :: t in l'.owners <==> t in lk.owners || t == ts)
                   && (forall t :: t in lk.owners && t != ts ==> l'.op == lk.op))
             && (r == Queued ==>
                   && l'.op == lk.op && l'.owners == lk.owners
                   && forall w :: w in l'.waiters <==> w in lk.waiters || w == Waiter(ts, req))
             && (r == Denied ==> l' == lk)
    ensures Inv(Answered(s, ts, l, l', r, req))
  {
    var s' := Answered(s, ts, l, l', r, req);
    assert LockOk(s.locks[l], l, s.txs) && TxOk(s, ts);
    NotListed(s, ts, l);
    forall j | j in s'.locks ensures LockOk(s'.locks[j], j, s'.txs) {
      if j != l {
        assert LockOk(s.locks[j], j, s.txs);
        OtherLock(s.locks[j], j, s.txs, s'.txs, l);
      }
    }
    forall t | t in s'.txs ensures TxOk(s', t) { assert TxOk(s, t); }
  }

  lemma AbsentFrom(s: State, ts: TS, l: LockId)
    requires Inv(s) && Active(s, ts) && l in s.locks && l !in s.txs[ts].held
    ensures Valid(s.locks[l]) && Absent(s.locks[l], ts)
  {
    assert LockOk(s.locks[l], l, s.txs);
    NotListed(s, ts, l);
  }

  lemma LockSharedKeeps(s: State, ts: TS, l: LockId)
    requires Inv(s) && Enabled(s, LockShared(ts, l))
    ensures Inv(Apply(s, LockShared(ts, l)))
  {
    AbsentFrom(s, ts, l);
    SharedKeeps(s.locks[l], ts);
    var (l', r) := SharedCall(s.locks[l], ts);
    AnsweredKeeps(s, ts, l, l', r, S);
  }

  lemma LockExclusiveKeeps(s: State, ts: TS, l: LockId)
    requires Inv(s) && Enabled(s, LockExclusive(ts, l))
    ensures Inv(Apply(s, LockExclusive(ts, l)))
  {
    AbsentFrom(s, ts, l);
    ExclusiveKeeps(s.locks[l], ts);
    var (l', r) := ExclusiveCall(s.locks[l], ts);
    AnsweredKeeps(s, ts, l, l', r, E);
  }

  lemma UpgradeStepKeeps(s: State, ts: TS, l: LockId)
    requires Inv(s) && Enabled(s, Upgrade(ts, l))
    ensures Inv(Apply(s, Upgrade(ts, l)))
  {
    assert LockOk(s.locks[l], l, s.txs);
    NotListed(s, ts, l);
    UpgradeKeeps(s.locks[l], ts);
    var (l', r) := UpgradeCall(s.locks[l], ts);
    AnsweredKeeps(s, ts, l, l', r, U);
  }

  // A transaction leaves its spin loop exactly when its request is in the promoted prefix.
  lemma WokenIff(lk: LockState, l: LockId, lk': LockState, n: nat, t: TS, tx: Tx, txs: map<TS, Tx>)
    requires LockOk(lk, l, txs) && t in txs && tx.waiting == txs[t].waiting && n <= |lk.waiters|
    requires lk'.waiters == lk.waiters[n..]
    ensures var woken := tx.waiting.Some? && tx.waiting.value.0 == l && Waiter(t, tx.waiting.value.1) !in lk'.waiters;
            && (woken <==> exists i :: 0 <= i < n && lk.waiters[i].ts == t)
            && (woken ==> exists i :: 0 <= i < n && lk.waiters[i] == Waiter(t, tx.waiting.value.1))
  {
    var woken := tx.waiting.Some? && tx.waiting.value.0 == l && Waiter(t, tx.waiting.value.1) !in lk'.waiters;
    assert lk.waiters == lk.waiters[..n] + lk'.waiters;
    if woken { assert Waiter(t, tx.waiting.value.1) in lk.waiters; }
    if i :| 0 <= i < n && lk.waiters[i].ts == t {
      assert lk.waiters[i] in lk.waiters;
      forall j | 0 <= j < |lk'.waiters| ensures lk'.waiters[j].ts != t {
        assert Times(lk.waiters)[i] > Times(lk.waiters)[n + j];
      }
    }
  }

  lemma ReleasedLock(s: State, ts: TS, l: LockId)
    requires Inv(s) && Enabled(s, ReleaseOne(ts, l))
    ensures var s' := Released(s, ts, l); !s'.threw && LockOk(s'.locks[l], l, s'.txs)
  {
    var lk, s' := s.locks[l], Released(s, ts, l);
    var lk', txs := s'.locks[l], s.txs[ts := s.txs[ts].(held := s.txs[ts].held - {l})];
    assert LockOk(lk, l, s.txs) && TxOk(s, ts);
    NotListed(s, ts, l);
    var n := ReleaseKeeps(lk, ts);
    forall t | t in s'.txs
      ensures t in lk'.owners <==> l in s'.txs[t].held
      ensures l in s'.txs[t].held ==> s'.txs[t].held[l] == lk'.op
    {
      WokenIff(lk, l, lk', n, t, txs[t], s.txs);
    }
    forall t | t in lk'.owners ensures t in s'.txs {
      if i :| 0 <= i < n && lk.waiters[i].ts == t { assert lk.waiters[i] in lk.waiters; }
    }
    forall w ensures w in lk'.waiters <==> w.ts in s'.txs && s'.txs[w.ts].waiting == Some((l, w.op)) {
      if w in lk'.waiters { assert w in lk.waiters; }
    }
  }

  lemma ReleasedOther(s: State, ts: TS, l: LockId, j: LockId, txs': map<TS, Tx>)
    requires Inv(s) && Enabled(s, ReleaseOne(ts, l)) && j in s.locks && j != l && txs' == Released(s, ts, l).txs
    ensures LockOk(s.locks[j], j, txs')
  {
    assert LockOk(s.locks[j], j, s.txs);
    forall t | t in s.txs
      ensures (j in txs'[t].held <==> j in s.txs[t].held)
      ensures (j in s.txs[t].held ==> txs'[t].held[j] == s.txs[t].held[j])
      ensures txs'[t].waiting == s.txs[t].waiting
              || (s.txs[t].waiting.Some? && s.txs[t].waiting.value.0 == l && txs'[t].waiting.None?)
    {
    }
    OtherLock(s.locks[j], j, s.txs, txs', l);
  }

  lemma ReleaseOneKeeps(s: State, ts: TS, l: LockId)
    requires Inv(s) && Enabled(s, ReleaseOne(ts, l))
    ensures Inv(Apply(s, ReleaseOne(ts, l)))
  {
    var s' := Released(s, ts, l);
    ReleasedLock(s, ts, l);
    forall j | j in s'.locks ensures LockOk(s'.locks[j], j, s'.txs) {
      if j != l { ReleasedOther(s, ts, l, j, s'.txs); }
    }
    forall t | t in s'.txs ensures TxOk(s', t) { assert TxOk(s, t); }
  }

  lemma StepKeeps(s: State, step: Step)
    requires Inv(s) && Enabled(s, step)
    ensures Inv(Apply(s, step))
  {
    match step
    case LockShared(ts, l) => LockSharedKeeps(s, ts, l);
    case LockExclusive(ts, l) => LockExclusiveKeeps(s, ts, l);
    case Upgrade(ts, l) => UpgradeStepKeeps(s, ts, l);
    case ReleaseOne(ts, l) => ReleaseOneKeeps(s, ts, l);
    case _ => QuietKeeps(s, step);
  }

  // Steps that touch no lock.
  lemma QuietKeeps(s: State, step: Step)
    requires Inv(s) && Enabled(s, step) && (step.Begin? || step.StartRelease? || step.Retire?)
    ensures Inv(Apply(s, step))
  {
    var s' := Apply(s, step);
    forall t | t in s.txs ensures TxOk(s, t) && t in s.used { }
    forall t | t in s'.txs ensures TxOk(s', t) { }
    forall j | j in s'.locks ensures LockOk(s'.locks[j], j, s'.txs) { assert LockOk(s.locks[j], j, s.txs); }
  }

  lemma {:induction false} RunKeeps(s: State, run: seq<Step>)
    requires Inv(s) && IsRun(s, run)
    ensures Inv(Exec(s, run))
    decreases |run|
  {
    if run != [] {
      StepKeeps(s, run[0]);
      RunKeeps(Apply(s, run[0]), run[1..]);
    }
  }

  // ---- What the protocol promises ----

  // No call of any run ends in an exception.
  lemma NothingThrows(s0: State, run: seq<Step>)
    requires Init(s0) && IsRun(s0, run)
    ensures !Exec(s0, run).threw && forall l :: l in Exec(s0, run).locks ==> Valid(Exec(s0, run).locks[l])
  {
    RunKeeps(s0, run);
    var s := Exec(s0, run);
    forall l | l in s.locks ensures Valid(s.locks[l]) { assert LockOk(s.locks[l], l, s.txs); }
  }

  // A lock held exclusively is held by nobody else.
  lemma MutualExclusion(s0: State, run: seq<Step>, t: TS, u: TS, l: LockId)
    requires Init(s0) && IsRun(s0, run)
    requires var s := Exec(s0, run);
             t in s.txs && u in s.txs && l in s.txs[t].held && l in s.txs[u].held && s.txs[t].held[l] == E
    ensures t == u
  {
    RunKeeps(s0, run);
    var s := Exec(s0, run);
    assert TxOk(s, t);
    assert LockOk(s.locks[l], l, s.txs);
    assert t in s.locks[l].owners && u in s.locks[l].owners;
  }

  // t spins on a lock and cannot get it before u lets go: u owns it, or u is ahead of t in the waiter list.
  ghost predicate WaitsFor(s: State, t: TS, u: TS) {
    && t in s.txs && s.txs[t].waiting.Some? && s.txs[t].waiting.value.0 in s.locks && u != t
    && var lk := s.locks[s.txs[t].waiting.value.0];
    || u in lk.owners
    || exists i, j :: 0 <= i < j < |lk.waiters| && lk.waiters[i].ts == u && lk.waiters[j].ts == t
  }

  // Every wait is from a smaller to a larger timestamp.
  lemma WaitsGoUp(s: State, t: TS, u: TS)
    requires Inv(s) && WaitsFor(s, t, u)
    ensures t < u && u in s.txs
  {
    var l := s.txs[t].waiting.value.0;
    var lk := s.locks[l];
    assert LockOk(lk, l, s.txs);
    if u in lk.owners {
      assert Waiter(t, s.txs[t].waiting.value.1) in lk.waiters;
      var j :| 0 <= j < |lk.waiters| && lk.waiters[j] == Waiter(t, s.txs[t].waiting.value.1);
      assert WaiterOk(lk, j, 2);
    } else {
      var i, j :| 0 <= i < j < |lk.waiters| && lk.waiters[i].ts == u && lk.waiters[j].ts == t;
      assert Times(lk.waiters)[i] > Times(lk.waiters)[j];
      assert lk.waiters[i] in lk.waiters;
    }
  }

  // Every waiter waits for somebody: no wake-up is ever lost.
  lemma EveryWaitHasReason(s: State, t: TS) returns (u: TS)
    requires Inv(s) && t in s.txs && s.txs[t].waiting.Some?
    ensures WaitsFor(s, t, u)
  {
    assert TxOk(s, t);
    var l, op := s.txs[t].waiting.value.0, s.txs[t].waiting.value.1;
    var lk := s.locks[l];
    assert LockOk(lk, l, s.txs);
    assert Waiter(t, op) in lk.waiters;
    var j :| 0 <= j < |lk.waiters| && lk.waiters[j] == Waiter(t, op);
    assert WaiterOk(lk, j, 2);
    u := lk.owners[0];
    if op == U { assert lk.owners[0] > lk.owners[|lk.owners| - 1]; }
  }

  // A chain of waits, each transaction waiting for the next.
  ghost predicate WaitChain(s: State, chain: seq<TS>) {
    forall i :: 0 <= i < |chain| - 1 ==> WaitsFor(s, chain[i], chain[i + 1])
  }

  lemma {:induction false} ChainRises(s: State, chain: seq<TS>)
    requires Inv(s) && WaitChain(s, chain) && |chain| >= 2
    ensures chain[0] < chain[|chain| - 1]
  {
    WaitsGoUp(s, chain[0], chain[1]);
    if |chain| > 2 {
      var rest := chain[1..];
      forall i | 0 <= i < |rest| - 1 ensures WaitsFor(s, rest[i], rest[i + 1]) {
        assert WaitsFor(s, chain[i + 1], chain[i + 2]);
      }
      ChainRises(s, rest);
    }
  }

  // Deadlock freedom: no chain of waits closes, and the largest live timestamp is never waiting.
  lemma NoDeadlock(s0: State, run: seq<Step>)
    requires Init(s0) && IsRun(s0, run)
    ensures var s := Exec(s0, run);
            && (forall chain :: |chain| >= 2 && WaitChain(s, chain) ==> chain[0] != chain[|chain| - 1])
            && (forall t :: t in s.txs && (forall u :: u in s.txs ==> u <= t) ==> s.txs[t].waiting.None?)
  {
    RunKeeps(s0, run);
    var s := Exec(s0, run);
    forall chain | |chain| >= 2 && WaitChain(s, chain) ensures chain[0] != chain[|chain| - 1] { ChainRises(s, chain); }
    forall t | t in s.txs && (forall u :: u in s.txs ==> u <= t) ensures s.txs[t].waiting.None? {
      if s.txs[t].waiting.Some? {
        var u := EveryWaitHasReason(s, t);
        WaitsGoUp(s, t, u);
      }
    }
  }
}
