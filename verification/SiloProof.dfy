/** Every step of the Silo machine keeps the invariant. */
module SiloProof {
  import opened SiloModel
  import opened SiloInvariant

  lemma InitHolds(s: State)
    requires Init(s)
    ensures Inv(s)
  {
  }

  lemma IncrementEpochKeeps(s: State)
    requires Inv(s)
    ensures Inv(Apply(s, IncrementEpoch))
  {
    var s' := Apply(s, IncrementEpoch);
    forall p: nat | p < |s'.mem.log| ensures EntryOk(s'.mem.init, s'.mem.log, p, s'.epoch, s'.txs) {
      assert EntryOk(s.mem.init, s.mem.log, p, s.epoch, s.txs);
    }
  }

  ghost predicate HoldsNothing(tx: Tx) {
    Hi(tx) <= Lo(tx)
  }

  // A step that changes only the private state of a transaction that holds no lock.
  lemma PrivateKeeps(s: State, t: TxId, tx': Tx)
    requires Inv(s) && TxOk(s.mem, t, tx')
    requires HoldsNothing(tx') && !tx'.pc.Validating?
    requires t in s.txs ==> var tx := s.txs[t];
                            HoldsNothing(tx) && !tx.pc.Validating? && tx.serialized == tx'.serialized
                              && tx.pos == tx'.pos
    requires t !in s.txs ==> !tx'.serialized
    ensures Inv(SetTx(s, t, tx'))
  {
    var s' := SetTx(s, t, tx');
    forall k | k in s.mem.owner ensures OwnerOk(s'.mem.owner, s'.txs, k) { assert OwnerOk(s.mem.owner, s.txs, k); }
    forall p: nat | p < |s'.mem.log| ensures EntryOk(s'.mem.init, s'.mem.log, p, s'.epoch, s'.txs) {
      assert EntryOk(s.mem.init, s.mem.log, p, s.epoch, s.txs);
    }
  }

  // Moving the program counter to a point where no lock is held and no register is live.
  lemma MovePc(m: Mem, t: TxId, tx: Tx, pc: Pc)
    requires TxOk(m, t, tx) && HoldsNothing(tx) && LoopOk(m, pc)
    requires (pc.Done? && !tx.pc.Validating?) || (!tx.serialized && (pc.Spin? || pc.HaveWord? || pc.HaveRec?))
    ensures TxOk(m, t, tx.(pc := pc)) && HoldsNothing(tx.(pc := pc))
  {
  }

  lemma LoadRecLoop(m: Mem, pc: Pc)
    requires LoopOk(m, pc) && pc.HaveWord? && KeyOk(m, pc.key)
    ensures LoopOk(m, HaveRec(pc.op, pc.key, pc.expected, m.vals[pc.key].rec))
  {
  }

  // The record and the word in the registers of the read loop belong together when the loop ends.
  lemma ReadTogether(m: Mem, pc: Pc)
    requires LoopOk(m, pc) && pc.HaveRec? && KeyOk(m, pc.key) && m.vals[pc.key].tw == pc.expected
    ensures pc.rec == m.vals[pc.key].rec == Published(m, pc.key)
  {
  }

  // A new element carries the word just read and the record seen with it, and joins the write set exactly once.
  lemma EffectFacts(tx: Tx, op: Op, key: Key, rec: Rec, tw: TidWord, blank: Rec)
    ensures var f := EffectOf(tx, op, key, rec, tw, blank);
            f.Put? ==>
              && f.e.tw == tw && f.e.seen == (if key in tx.rws then tx.rws[key].seen else rec)
              && (f.added <==> f.e.kind != READ && (key !in tx.rws || tx.rws[key].kind == READ))
              && (f.e.kind == READ ==> key !in tx.rws)
  {
  }

  lemma PutSets(keys: set<Key>, rws: map<Key, Elem>, ws: seq<Key>, key: Key, e: Elem, added: bool)
    requires SetsOk(keys, rws, ws) && key in keys
    requires added <==> e.kind != READ && (key !in rws || rws[key].kind == READ)
    requires e.kind == READ ==> key !in rws
    ensures SetsOk(keys, rws[key := e], if added then ws + [key] else ws)
  {
  }

  lemma PerformedTx(m: Mem, t: TxId, tx: Tx, op: Op, key: Key, rec: Rec, tw: TidWord, blank: Rec)
    requires TxOk(m, t, tx) && tx.pc.HaveRec? && KeyOk(m, key) && m.vals[key].tw == tw && rec == Published(m, key)
    ensures TxOk(m, t, Perform(tx, key, EffectOf(tx, op, key, rec, tw, blank)))
  {
    var f := EffectOf(tx, op, key, rec, tw, blank);
    EffectFacts(tx, op, key, rec, tw, blank);
    match f
    case Fail => MovePc(m, t, tx, Done);
    case Keep =>
    case Put(e, added) => PutTx(m, t, tx, key, e, added);
  }

  lemma PutTx(m: Mem, t: TxId, tx: Tx, key: Key, e: Elem, added: bool)
    requires TxOk(m, t, tx) && tx.pc.HaveRec? && key in m.vals
    requires ElemOk(m, e, key, false, 0)
    requires added <==> e.kind != READ && (key !in tx.rws || tx.rws[key].kind == READ)
    requires e.kind == READ ==> key !in tx.rws
    ensures TxOk(m, t, Perform(tx, key, Put(e, added)))
  {
    PutSets(m.vals.Keys, tx.rws, tx.ws, key, e, added);
  }

  lemma ModifiedTx(m: Mem, t: TxId, tx: Tx, key: Key, rec: Rec)
    requires TxOk(m, t, tx) && tx.pc.Idle? && key in tx.rws
    ensures TxOk(m, t, tx.(rws := tx.rws[key := tx.rws[key].(rec := rec)]))
  {
    var tx' := tx.(rws := tx.rws[key := tx.rws[key].(rec := rec)]);
    forall k | k in tx'.rws ensures ElemOk(m, tx'.rws[k], k, tx'.serialized, tx'.pos) {
      assert ElemOk(m, tx.rws[k], k, tx.serialized, tx.pos);
    }
  }

  lemma ReorderedTx(m: Mem, t: TxId, tx: Tx, order: seq<Key>)
    requires TxOk(m, t, tx) && tx.pc.Idle? && Ascending(order)
    requires (forall k :: k in order ==> k in tx.ws) && (forall k :: k in tx.ws ==> k in order)
    ensures TxOk(m, t, tx.(pc := Locking(0), ws := order, tid := 0))
  {
    forall j | 0 <= j < |order| ensures order[j] in tx.rws && tx.rws[order[j]].kind != READ {
      assert order[j] in order;
    }
  }

  lemma BeginKeeps(s: State, t: TxId)
    requires Inv(s) && Enabled(s, Begin(t))
    ensures Inv(Apply(s, Begin(t)))
  {
    PrivateKeeps(s, t, Tx(Idle, map[], [], 0, 0, false, 0));
  }

  lemma StartOpKeeps(s: State, t: TxId, op: Op, key: Key)
    requires Inv(s) && Enabled(s, StartOp(t, op, key))
    ensures Inv(Apply(s, StartOp(t, op, key)))
  {
    var m, tx := s.mem, s.txs[t];
    assert TxOk(m, t, tx);
    MovePc(m, t, tx, StartedOp(tx, op, key).pc);
    PrivateKeeps(s, t, StartedOp(tx, op, key));
  }

  lemma LoadWordKeeps(s: State, t: TxId)
    requires Inv(s) && Enabled(s, LoadWord(t))
    ensures Inv(Apply(s, LoadWord(t)))
  {
    var m, tx := s.mem, s.txs[t];
    assert TxOk(m, t, tx);
    var tx' := LoopWith(tx, tx.pc.op, tx.pc.key, m.vals[tx.pc.key].tw);
    MovePc(m, t, tx, tx'.pc);
    PrivateKeeps(s, t, tx');
  }

  lemma LoadRecKeeps(s: State, t: TxId)
    requires Inv(s) && Enabled(s, LoadRec(t))
    ensures Inv(Apply(s, LoadRec(t)))
  {
    var m, tx := s.mem, s.txs[t];
    assert TxOk(m, t, tx);
    var pc' := HaveRec(tx.pc.op, tx.pc.key, tx.pc.expected, m.vals[tx.pc.key].rec);
    LoadRecLoop(m, tx.pc);
    MovePc(m, t, tx, pc');
    PrivateKeeps(s, t, tx.(pc := pc'));
  }

  lemma LoadAgainKeeps(s: State, t: TxId, blank: Rec)
    requires Inv(s) && Enabled(s, LoadAgain(t, blank))
    ensures Inv(Apply(s, LoadAgain(t, blank)))
  {
    var m, tx, pc := s.mem, s.txs[t], s.txs[t].pc;
    var tw := m.vals[pc.key].tw;
    assert TxOk(m, t, tx);
    if tw == pc.expected {
      ReadTogether(m, pc);
      PerformedTx(m, t, tx, pc.op, pc.key, pc.rec, tw, blank);
      PrivateKeeps(s, t, Perform(tx, pc.key, EffectOf(tx, pc.op, pc.key, pc.rec, tw, blank)));
    } else {
      MovePc(m, t, tx, LoopWith(tx, pc.op, pc.key, tw).pc);
      PrivateKeeps(s, t, LoopWith(tx, pc.op, pc.key, tw));
    }
  }

  lemma ModifyLocalKeeps(s: State, t: TxId, key: Key, rec: Rec)
    requires Inv(s) && Enabled(s, ModifyLocal(t, key, rec))
    ensures Inv(Apply(s, ModifyLocal(t, key, rec)))
  {
    var m, tx := s.mem, s.txs[t];
    assert TxOk(m, t, tx);
    ModifiedTx(m, t, tx, key, rec);
    PrivateKeeps(s, t, tx.(rws := tx.rws[key := tx.rws[key].(rec := rec)]));
  }

  lemma UserAbortKeeps(s: State, t: TxId)
    requires Inv(s) && Enabled(s, UserAbort(t))
    ensures Inv(Apply(s, UserAbort(t)))
  {
    var m, tx := s.mem, s.txs[t];
    assert TxOk(m, t, tx);
    MovePc(m, t, tx, Done);
    PrivateKeeps(s, t, tx.(pc := Done));
  }

  lemma FinishKeeps(s: State, t: TxId)
    requires Inv(s) && Enabled(s, Finish(t))
    ensures Inv(Apply(s, Finish(t)))
  {
    var m, tx := s.mem, s.txs[t];
    assert TxOk(m, t, tx);
    MovePc(m, t, tx, Done);
    PrivateKeeps(s, t, tx.(pc := Done));
  }

  lemma StartPrecommitKeeps(s: State, t: TxId, order: seq<Key>)
    requires Inv(s) && Enabled(s, StartPrecommit(t, order))
    ensures Inv(Apply(s, StartPrecommit(t, order)))
  {
    var m, tx := s.mem, s.txs[t];
    assert TxOk(m, t, tx);
    ReorderedTx(m, t, tx, order);
    PrivateKeeps(s, t, tx.(pc := Locking(0), ws := order, tid := 0));
  }

}
