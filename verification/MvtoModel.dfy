/** Multi-version timestamp ordering over a fixed set of index entries, as a machine of interleaved steps. Every access
    to a chain in `mvto.hpp` happens under the lock of its entry, so a lock-to-unlock section on one entry is a step. */
module MvtoModel {
  import opened MvtoChain

  type Key = nat  // (table id, key), numbered in lock order

  const NULL_REC: Rec := 0

  datatype Kind = READ | UPDATE | INSERT | DELETE

  datatype Op = Read | Insert | Update | Upsert | Remove

  // `seen` is the record of the version read, `from` its write timestamp (a history variable), `rec` the local copy.
  datatype Elem = Elem(kind: Kind, seen: Rec, from: TS, rec: Rec)

  datatype Pc =
    | Running
    | Locking(i: nat)            // ws[..i] is locked and checked
    | Applying(i: nat)           // decided to commit, ws[..i] is installed and unlocked
    | Unlocking(i: nat, n: nat)  // releasing ws[i..n] after a failed check
    | Done

  // Named by its timestamp; `smallest` is the watermark it prunes with.
  datatype Tx = Tx(pc: Pc, rws: map<Key, Elem>, ws: seq<Key>, smallest: TS)

  // `chain` is the chain in memory; `hist` is the same chain with nothing ever pruned (a history variable).
  datatype Row = Row(chain: seq<Version>, hist: seq<Version>, owner: Owner)

  datatype Owner = Free | HeldBy(ts: TS)

  // What a committed transaction read and wrote (a history variable).
  datatype Entry = Entry(read: map<Key, Rec>, wrote: map<Key, Rec>)

  datatype State = State(init: map<Key, Rec>, rows: map<Key, Row>, txs: map<TS, Tx>, commits: map<TS, Entry>)

  datatype Step =
    | Begin(ts: TS, smallest: TS)
    | Access(ts: TS, op: Op, key: Key, blank: Rec)  // first operation on the key; `blank`: an uninitialized record
    | Local(ts: TS, op: Op, key: Key)               // operation on a key of the read/write set
    | Modify(ts: TS, key: Key, rec: Rec)            // the application writes its local record
    | UserAbort(ts: TS)
    | StartPrecommit(ts: TS, order: seq<Key>)
    | LockAndCheck(ts: TS)
    | Decide(ts: TS)
    | Install(ts: TS)
    | Unlock(ts: TS)
    | Finish(ts: TS)

  predicate Ascending(ks: seq<Key>) {
    forall i, j :: 0 <= i < j < |ks| ==> ks[i] < ks[j]
  }

  predicate Enabled(s: State, step: Step) {
    match step
    case Begin(ts, smallest) => ts > 0 && ts !in s.txs
    case Access(ts, op, key, blank) =>
      ts in s.txs && s.txs[ts].pc.Running? && key in s.rows && key !in s.txs[ts].rws && s.rows[key].owner.Free?
    case Local(ts, op, key) => ts in s.txs && s.txs[ts].pc.Running? && key in s.txs[ts].rws
    case Modify(ts, key, rec) =>
      ts in s.txs && s.txs[ts].pc.Running? && key in s.txs[ts].rws && s.txs[ts].rws[key].kind in {UPDATE, INSERT}
    case UserAbort(ts) => ts in s.txs && s.txs[ts].pc.Running?
    case StartPrecommit(ts, order) =>
      && ts in s.txs && s.txs[ts].pc.Running? && Ascending(order)
      && (forall k :: k in order ==> k in s.txs[ts].ws) && (forall k :: k in s.txs[ts].ws ==> k in order)
    case LockAndCheck(ts) =>
      && ts in s.txs && s.txs[ts].pc.Locking? && s.txs[ts].pc.i < |s.txs[ts].ws|
      && var k := s.txs[ts].ws[s.txs[ts].pc.i]; k in s.rows && k in s.txs[ts].rws && s.rows[k].owner.Free?
    case Decide(ts) => ts in s.txs && s.txs[ts].pc.Locking? && s.txs[ts].pc.i == |s.txs[ts].ws|
    case Install(ts) =>
      && ts in s.txs && s.txs[ts].pc.Applying? && s.txs[ts].pc.i < |s.txs[ts].ws|
      && var k := s.txs[ts].ws[s.txs[ts].pc.i]; k in s.rows && k in s.txs[ts].rws
    case Unlock(ts) =>
      && ts in s.txs && s.txs[ts].pc.Unlocking? && s.txs[ts].pc.i < s.txs[ts].pc.n <= |s.txs[ts].ws|
      && s.txs[ts].ws[s.txs[ts].pc.i] in s.rows
    case Finish(ts) =>
      && ts in s.txs
      && ((s.txs[ts].pc.Applying? && s.txs[ts].pc.i == |s.txs[ts].ws|)
          || (s.txs[ts].pc.Unlocking? && s.txs[ts].pc.i == s.txs[ts].pc.n))
  }

  function SetTx(s: State, ts: TS, tx: Tx): State {
    s.(txs := s.txs[ts := tx])
  }

  function SetBoth(s: State, ts: TS, tx: Tx, k: Key, row: Row): State {
    s.(txs := s.txs[ts := tx], rows := s.rows[k := row])
  }

  // The shared half of an access: look up, prune, raise the read timestamp; or detach an entry that is only deleted.
  // The pruning comes first, so the version found may be cut off before its read timestamp is raised.
  function Touched(row: Row, ts: TS, smallest: TS): Row {
    if row.chain == [] then row
    else if IsRemoved(row.chain) then row.(chain := [])
    else
      var i := Visible(row.chain, ts);
      var pruned := Pruned(row.chain, smallest);
      if i == |row.chain| then row.(chain := pruned)
      else row.(chain := if i < |pruned| then WithReadTs(pruned, i, ts) else pruned,
                hist := if i < |row.hist| then WithReadTs(row.hist, i, ts) else row.hist)
  }

  // The private half: what the operation makes of the version it found.
  function Accessed(tx: Tx, ts: TS, op: Op, key: Key, chain: seq<Version>, blank: Rec): Tx {
    var i := Visible(chain, ts);
    if chain == [] || IsRemoved(chain) || i == |chain| then tx.(pc := Done)
    else
      var v := chain[i];
      match op
      case Read =>
        if v.deleted then tx.(pc := Done)
        else tx.(rws := tx.rws[key := Elem(READ, v.rec, v.writeTs, NULL_REC)])
      case Update => if v.deleted then tx.(pc := Done) else Added(tx, key, Elem(UPDATE, v.rec, v.writeTs, v.rec))
      case Remove => if v.deleted then tx.(pc := Done) else Added(tx, key, Elem(DELETE, v.rec, v.writeTs, NULL_REC))
      case Insert =>
        if i == 0 && v.deleted then Added(tx, key, Elem(INSERT, v.rec, v.writeTs, blank))
        else tx.(pc := Done)
      case Upsert =>
        if i == 0 && v.deleted then Added(tx, key, Elem(INSERT, v.rec, v.writeTs, blank))
        else if v.deleted then tx.(pc := Done)
        else Added(tx, key, Elem(UPDATE, v.rec, v.writeTs, v.rec))
  }

  function Added(tx: Tx, key: Key, e: Elem): Tx {
    tx.(rws := tx.rws[key := e], ws := tx.ws + [key])
  }

  // Operations on a key that the transaction has used before stay in its own sets.
  function AfterLocal(tx: Tx, op: Op, key: Key): Tx
    requires key in tx.rws
  {
    var e := tx.rws[key];
    match e.kind
    case READ =>
      (match op
       case Read => tx
       case Update => Added(tx, key, e.(kind := UPDATE, rec := e.seen))
       case Upsert => Added(tx, key, e.(kind := UPDATE, rec := e.seen))
       case Remove => Added(tx, key, e.(kind := DELETE))
       case Insert => tx.(pc := Done))
    case UPDATE =>
      (match op
       case Insert => tx.(pc := Done)
       case Remove => tx.(rws := tx.rws[key := e.(rec := NULL_REC)])  // stays an update, of a null record
       case _ => tx)
    case DELETE => tx.(pc := Done)
    case INSERT => if op in {Insert, Remove} then tx.(pc := Done) else tx
  }

  // The test of precommit on the head of a locked chain.
  predicate Admits(chain: seq<Version>, kind: Kind, ts: TS) {
    && chain != []
    && chain[0].readTs <= ts && chain[0].writeTs <= ts
    && (kind == INSERT ==> chain[0].deleted) && (kind in {UPDATE, DELETE} ==> !chain[0].deleted)
  }

  function Reads(tx: Tx): map<Key, Rec> {
    map k | k in tx.rws :: tx.rws[k].seen
  }

  function WriteOf(e: Elem): Rec {
    if e.kind == DELETE then NULL_REC else e.rec
  }

  function Writes(tx: Tx): map<Key, Rec> {
    map k | k in tx.rws && tx.rws[k].kind != READ :: WriteOf(tx.rws[k])
  }

  function NewVersion(tx: Tx, ts: TS, k: Key): Version
    requires k in tx.rws
  {
    Version(ts, ts, WriteOf(tx.rws[k]), tx.rws[k].kind == DELETE)
  }

  function Installed(row: Row, v: Version, smallest: TS): Row {
    Row(Pruned([v] + row.chain, smallest), [v] + row.hist, Free)
  }

  function Apply(s: State, step: Step): State
    requires Enabled(s, step)
  {
    match step
    case Begin(ts, smallest) => SetTx(s, ts, Tx(Running, map[], [], smallest))
    case Access(ts, op, key, blank) =>
      var tx, row := s.txs[ts], s.rows[key];
      SetBoth(s, ts, Accessed(tx, ts, op, key, row.chain, blank), key, Touched(row, ts, tx.smallest))
    case Local(ts, op, key) => SetTx(s, ts, AfterLocal(s.txs[ts], op, key))
    case Modify(ts, key, rec) =>
      SetTx(s, ts, s.txs[ts].(rws := s.txs[ts].rws[key := s.txs[ts].rws[key].(rec := rec)]))
    case UserAbort(ts) => SetTx(s, ts, s.txs[ts].(pc := Done))
    case StartPrecommit(ts, order) => SetTx(s, ts, s.txs[ts].(pc := Locking(0), ws := order))
    case LockAndCheck(ts) =>
      var tx := s.txs[ts];
      var k := tx.ws[tx.pc.i];
      SetBoth(s, ts, tx.(pc := if Admits(s.rows[k].chain, tx.rws[k].kind, ts) then Locking(tx.pc.i + 1)
                               else Unlocking(0, tx.pc.i + 1)),
              k, s.rows[k].(owner := HeldBy(ts)))
    case Decide(ts) =>
      SetTx(s, ts, s.txs[ts].(pc := Applying(0)))
        .(commits := s.commits[ts := Entry(Reads(s.txs[ts]), Writes(s.txs[ts]))])
    case Install(ts) =>
      var tx := s.txs[ts];
      var k := tx.ws[tx.pc.i];
      SetBoth(s, ts, tx.(pc := Applying(tx.pc.i + 1)), k, Installed(s.rows[k], NewVersion(tx, ts, k), tx.smallest))
    case Unlock(ts) =>
      var tx := s.txs[ts];
      var k := tx.ws[tx.pc.i];
      SetBoth(s, ts, tx.(pc := Unlocking(tx.pc.i + 1, tx.pc.n)), k, s.rows[k].(owner := Free))
    case Finish(ts) => SetTx(s, ts, s.txs[ts].(pc := Done))
  }

  // The database as loaded: one version per entry, written and read at time 0.
  predicate Init(s: State) {
    && s.txs == map[] && s.commits == map[] && s.init.Keys == s.rows.Keys
    && forall k :: k in s.rows ==> var v := Version(0, 0, s.init[k], false); s.rows[k] == Row([v], [v], Free)
  }

  predicate IsRun(s: State, run: seq<Step>)
    decreases |run|
  {
    run == [] || (Enabled(s, run[0]) && IsRun(Apply(s, run[0]), run[1..]))
  }

  function Exec(s: State, run: seq<Step>): State
    requires IsRun(s, run)
    decreases |run|
  {
    if run == [] then s else Exec(Apply(s, run[0]), run[1..])
  }
}
