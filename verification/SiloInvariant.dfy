/** The inductive invariant of the Silo machine. */
module SiloInvariant {
  import opened SiloModel

  // The value that a serial execution of the committed entries of log[..p] leaves in k.
  ghost function Lookup(init: map<Key, Rec>, log: seq<Entry>, p: nat, k: Key): Rec
    requires k in init && p <= |log|
  {
    if p == 0 then init[k]
    else if log[p - 1].status == Committed && k in log[p - 1].wrote then log[p - 1].wrote[k]
    else Lookup(init, log, p - 1, k)
  }

  // The part of the write set that a transaction has locked at each point is ws[Lo..Hi].
  function Lo(tx: Tx): nat {
    match tx.pc
    case Writing(i) => i
    case Storing(i) => i
    case Unlocking(i, _) => i
    case _ => 0
  }

  function Hi(tx: Tx): nat {
    match tx.pc
    case Locking(i) => i
    case Unlocking(_, n) => n
    case Validating(_) => |tx.ws|
    case Writing(_) => |tx.ws|
    case Storing(_) => |tx.ws|
    case _ => 0
  }

  ghost predicate Holds(tx: Tx, k: Key) {
    exists j :: Lo(tx) <= j < Hi(tx) && j < |tx.ws| && tx.ws[j] == k
  }

  // The record that belongs to the current word of k.
  ghost function Published(m: Mem, k: Key): Rec
    requires k in m.last && k in m.init
  {
    if 0 <= m.last[k] < |m.log| && k in m.log[m.last[k]].wrote then m.log[m.last[k]].wrote[k] else m.init[k]
  }

  ghost predicate KeyOk(m: Mem, k: Key) {
    && k in m.vals && k in m.init && k in m.last
    && -1 <= m.last[k] < |m.log|
    && (m.last[k] >= 0 ==> m.log[m.last[k]].status == Committed && k in m.log[m.last[k]].wrote)
    && (m.vals[k].tw.lock <==> k in m.owner)
    && (k in m.mid ==> k in m.owner)
    && (k !in m.mid ==> m.vals[k].rec == Published(m, k))
  }

  // Only a lock holder can be ahead of the last published writer of k.
  ghost predicate WriterOk(m: Mem, p: nat, k: Key) {
    p < |m.log| && k in m.last && k in m.log[p].wrote && m.log[p].status != Aborted && p > m.last[k]
    ==> k in m.owner && m.owner[k] == m.log[p].tx
  }

  ghost predicate MemOk(m: Mem) {
    && m.init.Keys == m.vals.Keys && m.last.Keys == m.vals.Keys && m.owner.Keys <= m.vals.Keys
    && (forall k :: k in m.vals ==> KeyOk(m, k))
    && (forall p: nat, k :: p < |m.log| && k in m.log[p].wrote ==> WriterOk(m, p, k))
  }

  // The read/write set and the write set of a transaction agree.
  ghost predicate SetsOk(keys: set<Key>, rws: map<Key, Elem>, ws: seq<Key>) {
    && (forall i, j :: 0 <= i < j < |ws| ==> ws[i] != ws[j])
    && (forall j :: 0 <= j < |ws| ==> ws[j] in rws && rws[ws[j]].kind != READ)
    && (forall k :: k in rws ==> k in keys && (rws[k].kind != READ ==> k in ws))
  }

  ghost predicate PcOk(tx: Tx) {
    && Lo(tx) <= Hi(tx) <= |tx.ws|
    && (tx.pc.Locking? ==> Ascending(tx.ws))
    && (tx.pc.Storing? ==> tx.pc.i < |tx.ws|)
    && (tx.pc.Validating? ==> tx.pc.todo <= Reads(tx).Keys)
    && (tx.pc.Validating? || tx.pc.Writing? || tx.pc.Storing? ==> tx.serialized)
    && (tx.pc.Idle? || tx.pc.Spin? || tx.pc.HaveWord? || tx.pc.HaveRec? || tx.pc.Locking? ==> !tx.serialized)
  }

  ghost predicate Shape(keys: set<Key>, tx: Tx) {
    SetsOk(keys, tx.rws, tx.ws) && PcOk(tx)
  }

  // The log entry of a transaction that has passed its serial point.
  ghost predicate Linked(log: seq<Entry>, t: TxId, tx: Tx) {
    tx.serialized ==>
      && tx.pos < |log|
      && var e := log[tx.pos];
      && e.tx == t && e.epoch == tx.epoch && e.read == Reads(tx) && e.wrote == Writes(tx)
      && (e.status == Pending <==> tx.pc.Validating?)
      && (tx.pc.Writing? || tx.pc.Storing? ==> e.status == Committed)
      && (tx.pc.Unlocking? ==> e.status == Aborted)
  }

  // What a lock holder knows of a key it holds.
  ghost predicate LockOk(m: Mem, t: TxId, tx: Tx, j: nat) {
    Lo(tx) <= j < Hi(tx) && j < |tx.ws| ==>
      var k := tx.ws[j];
      && k in m.owner && k in m.vals && k in m.last && m.owner[k] == t
      && (k in m.mid <==> tx.pc.Storing? && j == tx.pc.i)
      && (k in m.mid ==> k in tx.rws && m.vals[k].rec == tx.rws[k].rec)
      && (tx.serialized ==> m.last[k] < tx.pos)
      && (tx.pc.Locking? || tx.pc.Validating? ==> m.vals[k].tw.tid <= tx.tid)
      && (tx.pc.Writing? || tx.pc.Storing? ==> m.vals[k].tw.tid < tx.tid)
  }

  // What was read is still current, or the tid has moved on.
  ghost predicate ElemOk(m: Mem, e: Elem, k: Key, serialized: bool, pos: nat) {
    && k in m.vals && k in m.last && k in m.init
    && e.tw.tid <= m.vals[k].tw.tid
    && (e.tw.tid == m.vals[k].tw.tid ==> e.seen == Published(m, k) && (serialized ==> m.last[k] < pos))
  }

  // The same for the words and records that the read loop holds in its registers.
  ghost predicate LoopOk(m: Mem, pc: Pc) {
    match pc
    case Spin(_, k) => k in m.vals
    case HaveWord(_, k, w) => k in m.vals && !w.lock && w.tid <= m.vals[k].tw.tid
    case HaveRec(_, k, w, r) =>
      && k in m.vals && k in m.last && k in m.init && !w.lock && w.tid <= m.vals[k].tw.tid
      && (w.tid == m.vals[k].tw.tid ==> r == Published(m, k) || k in m.mid)
    case _ => true
  }

  // The commit tid covers what was validated so far, and in the end exceeds every tid that was read.
  ghost predicate TidsOk(tx: Tx) {
    && (tx.pc.Validating? ==>
          forall k :: k in tx.rws && tx.rws[k].kind != INSERT && k !in tx.pc.todo ==> tx.rws[k].tw.tid <= tx.tid)
    && (tx.pc.Writing? || tx.pc.Storing? ==> forall k :: k in tx.rws ==> tx.rws[k].tw.tid < tx.tid)
  }

  ghost predicate TxOk(m: Mem, t: TxId, tx: Tx) {
    && Shape(m.vals.Keys, tx) && Linked(m.log, t, tx) && LoopOk(m, tx.pc) && TidsOk(tx)
    && (forall j: nat :: j < |tx.ws| ==> LockOk(m, t, tx, j))
    && (forall k :: k in tx.rws ==> ElemOk(m, tx.rws[k], k, tx.serialized, tx.pos))
  }

  // The read of k by the entry at p agrees with serial execution, and no undecided earlier entry can change that.
  ghost predicate Settled(init: map<Key, Rec>, log: seq<Entry>, p: nat, k: Key) {
    && p < |log| && k in init && k in log[p].read
    && log[p].read[k] == Lookup(init, log, p, k)
    && forall q: nat :: q < p && log[q].status == Pending ==> k !in log[q].wrote
  }

  ghost predicate EntryOk(init: map<Key, Rec>, log: seq<Entry>, p: nat, epoch: nat, txs: map<TxId, Tx>) {
    && p < |log|
    && var e := log[p];
    && e.tx in txs && txs[e.tx].serialized && txs[e.tx].pos == p
    && (forall q: nat :: q < p ==> log[q].epoch <= e.epoch) && e.epoch <= epoch
    && forall k :: k in e.read && (e.status == Committed || (txs[e.tx].pc.Validating? && k !in txs[e.tx].pc.todo)) ==>
                     Settled(init, log, p, k)
  }

  ghost predicate OwnerOk(owner: map<Key, TxId>, txs: map<TxId, Tx>, k: Key) {
    k in owner ==> owner[k] in txs && Holds(txs[owner[k]], k)
  }

  ghost predicate Inv(s: State) {
    && MemOk(s.mem)
    && (forall k {:trigger OwnerOk(s.mem.owner, s.txs, k)} :: k in s.mem.owner ==> OwnerOk(s.mem.owner, s.txs, k))
    && (forall t {:trigger TxOk(s.mem, t, s.txs[t])} :: t in s.txs ==> TxOk(s.mem, t, s.txs[t]))
    && (forall p: nat :: p < |s.mem.log| ==> EntryOk(s.mem.init, s.mem.log, p, s.epoch, s.txs))
  }
}
