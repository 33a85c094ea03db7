/** Silo's optimistic protocol as a machine of interleaved steps.

    Every access that `silo.hpp` makes to a shared word is one step of some transaction, so a run is an arbitrary
    interleaving of any number of transactions with the epoch thread. The fields `init`,
    `owner`, `mid`, `last` and `log` are history variables: no step reads them to decide anything, they only record
    what happened.
 */
module SiloModel {

  // A (table id, key) pair, numbered in the order in which precommit locks them.
  type Key = nat
  type TxId = nat
  // A published record. Records are never changed after publication (copy on write); 0 is the null pointer.
  type Rec = int

  const NULL_REC: Rec := 0
  const TID_LIMIT: nat := 0x2000_0000  // the word has 29 bits for the tid

  datatype TidWord = TidWord(lock: bool, latest: bool, absent: bool, tid: nat, epoch: nat)

  predicate IsReadable(tw: TidWord) {
    !tw.absent && tw.latest
  }

  predicate IsValid(current: TidWord, expected: TidWord) {
    current.epoch == expected.epoch && current.tid == expected.tid && IsReadable(current)
  }

  datatype Kind = READ | UPDATE | INSERT | DELETE

  datatype Op = Read | Update | Write | Remove

  // One element of the read/write set: `seen` is the record that came with the word `tw`, `rec` the local copy.
  datatype Elem = Elem(kind: Kind, tw: TidWord, seen: Rec, rec: Rec)

  datatype Pc =
    | Idle                                                    // between two operations
    | Spin(op: Op, key: Key)                                  // about to load the word
    | HaveWord(op: Op, key: Key, expected: TidWord)           // an unlocked word in hand, about to load the record
    | HaveRec(op: Op, key: Key, expected: TidWord, rec: Rec)  // about to load the word again
    | Locking(i: nat)                                         // phase 1, ws[..i] is locked
    | Validating(todo: set<Key>)                              // phase 2.1, `todo` is not checked yet
    | Writing(i: nat)                                         // phase 3, about to exchange the record of ws[i]
    | Storing(i: nat)                                         // phase 3, about to store the word of ws[i]
    | Unlocking(i: nat, n: nat)                               // releasing ws[i..n] after a failure
    | Done

  // `tid` and `epoch` are the fields of commit_tw; `pos` is the place in the log once the serial point is passed.
  datatype Tx = Tx(pc: Pc, rws: map<Key, Elem>, ws: seq<Key>, tid: nat, epoch: nat, serialized: bool, pos: nat)

  datatype Val = Val(tw: TidWord, rec: Rec)

  datatype Status = Pending | Committed | Aborted

  // What a transaction read and is about to write, written down at its serial point.
  datatype Entry = Entry(tx: TxId, epoch: nat, read: map<Key, Rec>, wrote: map<Key, Rec>, status: Status)

  datatype Mem = Mem(
    vals: map<Key, Val>,
    init: map<Key, Rec>,    // the records as loaded
    owner: map<Key, TxId>,  // who holds each locked word
    mid: set<Key>,          // record exchanged, word not stored yet
    last: map<Key, int>,    // log position of the writer of the current record, -1 for the loaded one
    log: seq<Entry>         // in serial point order
  )

  datatype State = State(epoch: nat, mem: Mem, txs: map<TxId, Tx>)

  datatype Step =
    | IncrementEpoch
    | Begin(t: TxId)
    | StartOp(t: TxId, op: Op, key: Key)
    | LoadWord(t: TxId)
    | LoadRec(t: TxId)
    | LoadAgain(t: TxId, blank: Rec)  // `blank`: contents of a newly allocated, uninitialized record
    | ModifyLocal(t: TxId, key: Key, rec: Rec)
    | UserAbort(t: TxId)
    | StartPrecommit(t: TxId, order: seq<Key>)
    | Lock(t: TxId)
    | SerialPoint(t: TxId)
    | Validate(t: TxId, key: Key)
    | GenerateTid(t: TxId)
    | ExchangeRec(t: TxId)
    | StoreWord(t: TxId)
    | Unlock(t: TxId)
    | Finish(t: TxId)

  predicate Ascending(ks: seq<Key>) {
    forall i, j :: 0 <= i < j < |ks| ==> ks[i] < ks[j]
  }

  function Max(a: nat, b: nat): nat {
    if a < b then b else a
  }

  predicate Enabled(s: State, step: Step) {
    match step
    case IncrementEpoch => true
    case Begin(t) => t !in s.txs
    case StartOp(t, op, key) => t in s.txs && s.txs[t].pc.Idle? && key in s.mem.vals
    case LoadWord(t) => t in s.txs && s.txs[t].pc.Spin? && s.txs[t].pc.key in s.mem.vals
    case LoadRec(t) => t in s.txs && s.txs[t].pc.HaveWord? && s.txs[t].pc.key in s.mem.vals
    case LoadAgain(t, blank) => t in s.txs && s.txs[t].pc.HaveRec? && s.txs[t].pc.key in s.mem.vals
    case ModifyLocal(t, key, rec) =>
      t in s.txs && s.txs[t].pc.Idle? && key in s.txs[t].rws && s.txs[t].rws[key].kind in {UPDATE, INSERT}
    case UserAbort(t) => t in s.txs && s.txs[t].pc.Idle?
    case StartPrecommit(t, order) =>
      && t in s.txs && s.txs[t].pc.Idle?
      && Ascending(order) && (forall k :: k in order ==> k in s.txs[t].ws)
      && (forall k :: k in s.txs[t].ws ==> k in order)
    case Lock(t) =>
      && t in s.txs && s.txs[t].pc.Locking? && s.txs[t].pc.i < |s.txs[t].ws|
      && var k := s.txs[t].ws[s.txs[t].pc.i]; k in s.mem.vals && !s.mem.vals[k].tw.lock
    case SerialPoint(t) => t in s.txs && s.txs[t].pc.Locking? && s.txs[t].pc.i == |s.txs[t].ws|
    case Validate(t, key) =>
      && t in s.txs && s.txs[t].pc.Validating? && key in s.txs[t].pc.todo && key in s.txs[t].rws && key in s.mem.vals
      && s.txs[t].pos < |s.mem.log|
    case GenerateTid(t) => t in s.txs && s.txs[t].pc.Validating? && s.txs[t].pc.todo == {} && s.txs[t].pos < |s.mem.log|
    case ExchangeRec(t) =>
      && t in s.txs && s.txs[t].pc.Writing? && s.txs[t].pc.i < |s.txs[t].ws|
      && var k := s.txs[t].ws[s.txs[t].pc.i]; k in s.mem.vals && k in s.txs[t].rws
    case StoreWord(t) =>
      && t in s.txs && s.txs[t].pc.Storing? && s.txs[t].pc.i < |s.txs[t].ws|
      && var k := s.txs[t].ws[s.txs[t].pc.i]; k in s.mem.vals && k in s.txs[t].rws
    case Unlock(t) =>
      && t in s.txs && s.txs[t].pc.Unlocking? && s.txs[t].pc.i < s.txs[t].pc.n <= |s.txs[t].ws|
      && s.txs[t].ws[s.txs[t].pc.i] in s.mem.vals
    case Finish(t) =>
      && t in s.txs
      && ((s.txs[t].pc.Writing? && s.txs[t].pc.i == |s.txs[t].ws|)
          || (s.txs[t].pc.Unlocking? && s.txs[t].pc.i == s.txs[t].pc.n))
  }

  function Apply(s: State, step: Step): State
    requires Enabled(s, step)
  {
    match step
    case IncrementEpoch => s.(epoch := s.epoch + 1)
    case Begin(t) => SetTx(s, t, Tx(Idle, map[], [], 0, 0, false, 0))
    case StartOp(t, op, key) => SetTx(s, t, StartedOp(s.txs[t], op, key))
    case LoadWord(t) => SetTx(s, t, LoopWith(s.txs[t], s.txs[t].pc.op, s.txs[t].pc.key, s.mem.vals[s.txs[t].pc.key].tw))
    case LoadRec(t) =>
      var pc := s.txs[t].pc;
      SetTx(s, t, s.txs[t].(pc := HaveRec(pc.op, pc.key, pc.expected, s.mem.vals[pc.key].rec)))
    case LoadAgain(t, blank) =>
      var pc, tw := s.txs[t].pc, s.mem.vals[s.txs[t].pc.key].tw;
      SetTx(s, t, if tw == pc.expected
                  then Perform(s.txs[t], pc.key, EffectOf(s.txs[t], pc.op, pc.key, pc.rec, tw, blank))
                  else LoopWith(s.txs[t], pc.op, pc.key, tw))
    case ModifyLocal(t, key, rec) =>
      SetTx(s, t, s.txs[t].(rws := s.txs[t].rws[key := s.txs[t].rws[key].(rec := rec)]))
    case UserAbort(t) => SetTx(s, t, s.txs[t].(pc := Done))
    case StartPrecommit(t, order) => SetTx(s, t, s.txs[t].(pc := Locking(0), ws := order, tid := 0))
    case Lock(t) => Locked(s, t)
    case SerialPoint(t) => Serialized(s, t)
    case Validate(t, key) => Validated(s, t, key)
    case GenerateTid(t) =>
      var tx := s.txs[t];
      SetTx(s, t, tx.(pc := Writing(0), tid := (tx.tid + 1) % TID_LIMIT)).(mem := Decide(s.mem, tx.pos, Committed))
    case ExchangeRec(t) =>
      var tx := s.txs[t];
      var k := tx.ws[tx.pc.i];
      SetTx(s, t, tx.(pc := Storing(tx.pc.i))).(mem := SwapRec(s.mem, k, tx.rws[k].rec))
    case StoreWord(t) => Stored(s, t)
    case Unlock(t) =>
      var tx := s.txs[t];
      SetTx(s, t, tx.(pc := Unlocking(tx.pc.i + 1, tx.pc.n))).(mem := ReleaseWord(s.mem, tx.ws[tx.pc.i]))
    case Finish(t) => SetTx(s, t, s.txs[t].(pc := Done))
  }

  function SetTx(s: State, t: TxId, tx: Tx): State {
    s.(txs := s.txs[t := tx])
  }

  function TakeWord(m: Mem, k: Key, t: TxId): Mem
    requires k in m.vals
  {
    m.(vals := m.vals[k := m.vals[k].(tw := m.vals[k].tw.(lock := true))], owner := m.owner[k := t])
  }

  function ReleaseWord(m: Mem, k: Key): Mem
    requires k in m.vals
  {
    m.(vals := m.vals[k := m.vals[k].(tw := m.vals[k].tw.(lock := false))], owner := m.owner - {k})
  }

  function SwapRec(m: Mem, k: Key, rec: Rec): Mem
    requires k in m.vals
  {
    m.(vals := m.vals[k := m.vals[k].(rec := rec)], mid := m.mid + {k})
  }

  function PublishWord(m: Mem, k: Key, tw: TidWord, pos: nat): Mem
    requires k in m.vals
  {
    m.(vals := m.vals[k := m.vals[k].(tw := tw)], owner := m.owner - {k}, mid := m.mid - {k}, last := m.last[k := pos])
  }

  function Decide(m: Mem, p: nat, status: Status): Mem
    requires p < |m.log|
  {
    m.(log := m.log[p := m.log[p].(status := status)])
  }

  // An operation on a key that this transaction deleted fails at once, unless it writes the key anew.
  function StartedOp(tx: Tx, op: Op, key: Key): Tx {
    if key in tx.rws && tx.rws[key].kind == DELETE && op != Write then tx.(pc := Done) else tx.(pc := Spin(op, key))
  }

  // The test at the head of the loops of get_record_pointer and copy_record.
  function LoopWith(tx: Tx, op: Op, key: Key, expected: TidWord): Tx {
    tx.(pc := if expected.lock then Spin(op, key) else HaveWord(op, key, expected))
  }

  // What an operation does to the element of its key.
  datatype Effect = Fail | Keep | Put(e: Elem, added: bool)

  // What read, update, write and remove do once a record and its word are in hand.
  function EffectOf(tx: Tx, op: Op, key: Key, rec: Rec, tw: TidWord, blank: Rec): Effect {
    if key !in tx.rws then
      if !IsReadable(tw) then Fail
      else match op
        case Read => Put(Elem(READ, tw, rec, NULL_REC), false)
        case Update => Put(Elem(UPDATE, tw, rec, rec), true)
        case Write => Put(Elem(INSERT, tw, rec, rec), true)
        case Remove => Put(Elem(DELETE, tw, rec, NULL_REC), true)
    else
      var e := tx.rws[key];
      if tw != e.tw then Fail
      else match e.kind
        case READ =>
          (match op
           case Read => Keep
           case Update => Put(e.(kind := UPDATE, rec := rec), true)
           case Write => Put(e.(kind := UPDATE, rec := rec), true)
           case Remove => Put(e.(kind := DELETE), true))
        case UPDATE => if op == Remove then Put(e.(kind := DELETE, rec := NULL_REC), false) else Keep
        case INSERT => if op == Remove then Put(e.(kind := DELETE, rec := NULL_REC), false) else Keep
        case DELETE => Put(e.(kind := UPDATE, rec := blank), false)
  }

  function Perform(tx: Tx, key: Key, effect: Effect): Tx {
    match effect
    case Fail => tx.(pc := Done)
    case Keep => tx.(pc := Idle)
    case Put(e, added) => tx.(pc := Idle, rws := tx.rws[key := e], ws := if added then tx.ws + [key] else tx.ws)
  }

  // Phase 1, one key: set the lock bit and, while nobody else may touch the word, look at the rest of it.
  function Locked(s: State, t: TxId): State
    requires Enabled(s, Lock(t))
  {
    var tx := s.txs[t];
    var i, k := tx.pc.i, tx.ws[tx.pc.i];
    var tw := s.mem.vals[k].tw;
    SetTx(s, t, if IsReadable(tw) then tx.(pc := Locking(i + 1), tid := Max(tx.tid, tw.tid))
                else tx.(pc := Unlocking(0, i + 1))).(mem := TakeWord(s.mem, k, t))
  }

  function Reads(tx: Tx): map<Key, Rec> {
    map k | k in tx.rws && tx.rws[k].kind != INSERT :: tx.rws[k].seen
  }

  function Writes(tx: Tx): map<Key, Rec> {
    map k | k in tx.rws && tx.rws[k].kind != READ :: tx.rws[k].rec
  }

  function Serialized(s: State, t: TxId): State
    requires t in s.txs
  {
    var tx := s.txs[t];
    SetTx(s, t, tx.(pc := Validating(Reads(tx).Keys), epoch := s.epoch, serialized := true, pos := |s.mem.log|))
    .(mem := s.mem.(log := s.mem.log + [Entry(t, s.epoch, Reads(tx), Writes(tx), Pending)]))
  }

  function Validated(s: State, t: TxId, key: Key): State
    requires Enabled(s, Validate(t, key))
  {
    var tx := s.txs[t];
    var e, current := tx.rws[key], s.mem.vals[key].tw;
    if !IsValid(current, e.tw) || (current.lock && e.kind == READ) then
      SetTx(s, t, tx.(pc := Unlocking(0, |tx.ws|))).(mem := Decide(s.mem, tx.pos, Aborted))
    else
      SetTx(s, t, tx.(pc := Validating(tx.pc.todo - {key}), tid := Max(tx.tid, current.tid)))
  }

  // The new word carries the commit tid and epoch and a clear lock bit.
  function NewWord(tx: Tx, k: Key): TidWord
    requires k in tx.rws
  {
    var deleted := tx.rws[k].kind == DELETE;
    TidWord(false, !deleted, deleted, tx.tid, tx.epoch)
  }

  // Phase 3, second half for one key.
  function Stored(s: State, t: TxId): State
    requires Enabled(s, StoreWord(t))
  {
    var tx := s.txs[t];
    var k := tx.ws[tx.pc.i];
    SetTx(s, t, tx.(pc := Writing(tx.pc.i + 1))).(mem := PublishWord(s.mem, k, NewWord(tx, k), tx.pos))
  }

  // The database as loaded: every word unlocked, no transaction yet.
  predicate Init(s: State) {
    && s.txs == map[] && s.mem.owner == map[] && s.mem.mid == {} && s.mem.log == []
    && s.mem.init.Keys == s.mem.vals.Keys && s.mem.last.Keys == s.mem.vals.Keys
    && forall k :: k in s.mem.vals ==>
       !s.mem.vals[k].tw.lock && s.mem.vals[k].rec == s.mem.init[k] && s.mem.last[k] == -1
  }

  // The one place where the code may lose information: the generated tid must still fit its 29 bits.
  predicate TidFits(s: State, step: Step) {
    step.GenerateTid? && step.t in s.txs ==> s.txs[step.t].tid + 1 < TID_LIMIT
  }

  // `run` can be taken from s, step by step, without running out of tids.
  predicate IsRun(s: State, run: seq<Step>)
    decreases |run|
  {
    run == [] || (Enabled(s, run[0]) && TidFits(s, run[0]) && IsRun(Apply(s, run[0]), run[1..]))
  }

  function Exec(s: State, run: seq<Step>): State
    requires IsRun(s, run)
    decreases |run|
  {
    if run == [] then s else Exec(Apply(s, run[0]), run[1..])
  }
}
