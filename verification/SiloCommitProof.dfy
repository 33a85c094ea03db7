/** The steps of precommit keep the invariant. */
module SiloCommitProof {
  import opened SiloModel
  import opened SiloInvariant

  // m' is m with another word, record, owner or writer at k, none of which moves the tid of k back.
  ghost predicate OnlyAt(m: Mem, m': Mem, k: Key) {
    && m'.init == m.init && m'.log == m.log && m'.vals.Keys == m.vals.Keys && m'.last.Keys == m.last.Keys
    && k in m.vals && k in m.last
    && (forall j :: j != k ==> (j in m'.owner <==> j in m.owner) && (j in m'.mid <==> j in m.mid))
    && (forall j :: j != k && j in m.vals ==> m'.vals[j] == m.vals[j])
    && (forall j :: j != k && j in m.last ==> m'.last[j] == m.last[j])
    && (forall j :: j != k && j in m.owner ==> m'.owner[j] == m.owner[j])
    && m.vals[k].tw.tid <= m'.vals[k].tw.tid
    && (m.vals[k].tw.tid == m'.vals[k].tw.tid ==> m'.last[k] == m.last[k] && (k in m.mid ==> k in m'.mid))
  }

  // What was read elsewhere, or is in the registers of a read loop, survives a step on k.
  lemma ReadsAt(m: Mem, m': Mem, k: Key, t: TxId, tx: Tx)
    requires TxOk(m, t, tx) && OnlyAt(m, m', k)
    ensures forall j :: j in tx.rws ==> ElemOk(m', tx.rws[j], j, tx.serialized, tx.pos)
    ensures LoopOk(m', tx.pc)
  {
    forall j | j in tx.rws ensures ElemOk(m', tx.rws[j], j, tx.serialized, tx.pos) {
      assert ElemOk(m, tx.rws[j], j, tx.serialized, tx.pos);
    }
  }

  lemma OtherTx(m: Mem, m': Mem, k: Key, u: TxId, tx: Tx)
    requires TxOk(m, u, tx) && OnlyAt(m, m', k) && !Holds(tx, k)
    ensures TxOk(m', u, tx)
  {
    ReadsAt(m, m', k, u, tx);
    forall j: nat | j < |tx.ws| ensures LockOk(m', u, tx, j) {
      assert LockOk(m, u, tx, j);
      assert Lo(tx) <= j < Hi(tx) ==> tx.ws[j] != k;
    }
  }

  lemma OtherKey(m: Mem, m': Mem, k: Key, j: Key)
    requires KeyOk(m, j) && OnlyAt(m, m', k) && j != k
    ensures KeyOk(m', j)
  {
  }

  lemma MemAt(m: Mem, m': Mem, k: Key)
    requires MemOk(m) && OnlyAt(m, m', k) && KeyOk(m', k)
    requires forall p: nat :: p < |m.log| && k in m.log[p].wrote ==> WriterOk(m', p, k)
    ensures MemOk(m')
  {
    forall j | j in m'.vals ensures KeyOk(m', j) {
      if j != k { OtherKey(m, m', k, j); }
    }
    forall p: nat, j | p < |m'.log| && j in m'.log[p].wrote ensures WriterOk(m', p, j) {
      assert WriterOk(m, p, j);
    }
  }

  ghost predicate TxsOk(m: Mem, txs: map<TxId, Tx>) {
    forall u :: u in txs ==> TxOk(m, u, txs[u])
  }

  ghost predicate OwnersOk(owner: map<Key, TxId>, txs: map<TxId, Tx>) {
    forall k :: k in owner ==> OwnerOk(owner, txs, k)
  }

  ghost predicate EntriesOk(m: Mem, epoch: nat, txs: map<TxId, Tx>) {
    forall p: nat :: p < |m.log| ==> EntryOk(m.init, m.log, p, epoch, txs)
  }

  lemma InvParts(s: State)
    ensures Inv(s) <==>
              MemOk(s.mem) && OwnersOk(s.mem.owner, s.txs) && TxsOk(s.mem, s.txs) && EntriesOk(s.mem, s.epoch, s.txs)
  {
  }

  lemma OwnersAt(m: Mem, m': Mem, k: Key, txs: map<TxId, Tx>, t: TxId, tx': Tx)
    requires t in txs && OnlyAt(m, m', k) && OwnersOk(m.owner, txs)
    requires k in m'.owner ==> m'.owner[k] == t && Holds(tx', k)
    requires forall j :: j != k ==> (Holds(tx', j) <==> Holds(txs[t], j))
    ensures OwnersOk(m'.owner, txs[t := tx'])
  {
    var txs' := txs[t := tx'];
    forall j | j in m'.owner ensures OwnerOk(m'.owner, txs', j) {
      if j != k { assert OwnerOk(m.owner, txs, j); }
    }
  }

  lemma TxsAt(m: Mem, m': Mem, k: Key, txs: map<TxId, Tx>, t: TxId, tx': Tx)
    requires t in txs && OnlyAt(m, m', k) && TxsOk(m, txs) && TxOk(m', t, tx')
    requires k in m.owner ==> m.owner[k] == t
    ensures TxsOk(m', txs[t := tx'])
  {
    var txs' := txs[t := tx'];
    forall u | u in txs' ensures TxOk(m', u, txs'[u]) {
      if u != t {
        assert TxOk(m, u, txs[u]);
        OwnerHolds(m, u, txs[u], k);
        OtherTx(m, m', k, u, txs[u]);
      }
    }
  }

  lemma EntriesSame(m: Mem, m': Mem, epoch: nat, txs: map<TxId, Tx>, t: TxId, tx': Tx)
    requires m'.init == m.init && m'.log == m.log && EntriesOk(m, epoch, txs) && t in txs
    requires var tx := txs[t];
             !tx.pc.Validating? && !tx'.pc.Validating? && tx.serialized == tx'.serialized && tx.pos == tx'.pos
    ensures EntriesOk(m', epoch, txs[t := tx'])
  {
    var txs' := txs[t := tx'];
    forall p: nat | p < |m'.log| ensures EntryOk(m'.init, m'.log, p, epoch, txs') {
      assert EntryOk(m.init, m.log, p, epoch, txs);
    }
  }

  // All that StepAt asks of a step by t on k, apart from the invariant itself.
  ghost predicate GoodStepAt(m: Mem, m': Mem, t: TxId, tx: Tx, tx': Tx, k: Key) {
    && OnlyAt(m, m', k) && MemOk(m') && TxOk(m', t, tx')
    && (k in m.owner ==> m.owner[k] == t) && (k in m'.owner ==> m'.owner[k] == t && Holds(tx', k))
    && (forall j :: j != k ==> (Holds(tx', j) <==> Holds(tx, j)))
    && !tx.pc.Validating? && !tx'.pc.Validating? && tx.serialized == tx'.serialized && tx.pos == tx'.pos
  }

  // A step by t on the word or record of k, outside validation.
  lemma StepAt(s: State, s': State, t: TxId, k: Key)
    requires Inv(s) && t in s.txs && t in s'.txs && s' == SetTx(s, t, s'.txs[t]).(mem := s'.mem)
    requires GoodStepAt(s.mem, s'.mem, t, s.txs[t], s'.txs[t], k)
    ensures Inv(s')
  {
    InvParts(s);
    OwnersAt(s.mem, s'.mem, k, s.txs, t, s'.txs[t]);
    TxsAt(s.mem, s'.mem, k, s.txs, t, s'.txs[t]);
    EntriesSame(s.mem, s'.mem, s.epoch, s.txs, t, s'.txs[t]);
    InvParts(s');
  }

  lemma OwnerHolds(m: Mem, u: TxId, tx: Tx, k: Key)
    requires TxOk(m, u, tx)
    ensures Holds(tx, k) ==> k in m.owner && m.owner[k] == u
  {
    if j :| Lo(tx) <= j < Hi(tx) && j < |tx.ws| && tx.ws[j] == k { assert LockOk(m, u, tx, j); }
  }

  lemma TakeMem(m: Mem, k: Key, t: TxId)
    requires MemOk(m) && k in m.vals && !m.vals[k].tw.lock
    ensures OnlyAt(m, TakeWord(m, k, t), k) && MemOk(TakeWord(m, k, t)) && k !in m.owner
  {
    var m' := TakeWord(m, k, t);
    assert KeyOk(m, k);
    assert KeyOk(m', k);
    forall p: nat | p < |m.log| && k in m.log[p].wrote ensures WriterOk(m', p, k) { assert WriterOk(m, p, k); }
    MemAt(m, m', k);
  }

  lemma LockKeeps(s: State, t: TxId, s': State)
    requires Inv(s) && Enabled(s, Lock(t)) && s' == Apply(s, Lock(t))
    ensures Inv(s')
  {
    var tx, tx' := s.txs[t], s'.txs[t];
    var k := tx.ws[tx.pc.i];
    assert TxOk(s.mem, t, tx);
    assert KeyOk(s.mem, k);
    TakeMem(s.mem, k, t);
    LockedTx(s.mem, t, tx, tx');
    LockedHolds(tx, tx', k);
    StepAt(s, s', t, k);
  }

  lemma LockedHolds(tx: Tx, tx': Tx, k: Key)
    requires tx.pc.Locking? && tx.pc.i < |tx.ws| && tx.ws[tx.pc.i] == k && tx'.ws == tx.ws
    requires tx'.pc == Locking(tx.pc.i + 1) || tx'.pc == Unlocking(0, tx.pc.i + 1)
    ensures Holds(tx', k) && forall j :: j != k ==> (Holds(tx', j) <==> Holds(tx, j))
  {
    assert tx'.ws[tx.pc.i] == k;
  }

  // The two outcomes of one round of phase 1.
  lemma LockedTx(m: Mem, t: TxId, tx: Tx, tx': Tx)
    requires TxOk(m, t, tx) && tx.pc.Locking? && tx.pc.i < |tx.ws| && KeyOk(m, tx.ws[tx.pc.i])
    requires tx.ws[tx.pc.i] !in m.owner
    requires OnlyAt(m, TakeWord(m, tx.ws[tx.pc.i], t), tx.ws[tx.pc.i])
    requires tx' == tx.(pc := Locking(tx.pc.i + 1), tid := Max(tx.tid, m.vals[tx.ws[tx.pc.i]].tw.tid))
             || tx' == tx.(pc := Unlocking(0, tx.pc.i + 1))
    ensures TxOk(TakeWord(m, tx.ws[tx.pc.i], t), t, tx')
  {
    var k := tx.ws[tx.pc.i];
    var m' := TakeWord(m, k, t);
    ReadsAt(m, m', k, t, tx);
    forall j: nat | j < |tx.ws| ensures LockOk(m', t, tx', j) { assert LockOk(m, t, tx, j); }
  }

  // A key leaves the held range from its front: by Unlock, and by StoreWord.
  lemma DroppedHolds(tx: Tx, tx': Tx, k: Key)
    requires tx'.ws == tx.ws && Lo(tx) < Hi(tx) <= |tx.ws| && tx.ws[Lo(tx)] == k
    requires Lo(tx') == Lo(tx) + 1 && Hi(tx') == Hi(tx)
    ensures forall j :: j != k ==> (Holds(tx', j) <==> Holds(tx, j))
  {
    forall j | j != k && Holds(tx, j) ensures Holds(tx', j) {
      var i :| Lo(tx) <= i < Hi(tx) && i < |tx.ws| && tx.ws[i] == j;
      assert tx'.ws[i] == j;
    }
  }

  // No undecided or committed entry is ahead of the last writer of k, except perhaps the one at `own`.
  ghost predicate NobodyAhead(m: Mem, k: Key, own: int) {
    forall p: nat :: p < |m.log| && p != own && k in m.last && k in m.log[p].wrote && m.log[p].status != Aborted ==>
                       p <= m.last[k]
  }

  lemma OnlyOwnerAhead(s: State, t: TxId, k: Key)
    requires Inv(s) && t in s.txs && (k in s.mem.owner ==> s.mem.owner[k] == t)
    ensures NobodyAhead(s.mem, k, if s.txs[t].serialized then s.txs[t].pos else -1)
  {
    forall p: nat | p < |s.mem.log| && k in s.mem.last && k in s.mem.log[p].wrote && p > s.mem.last[k]
                    && s.mem.log[p].status != Aborted
      ensures s.txs[t].serialized && p == s.txs[t].pos
    {
      assert WriterOk(s.mem, p, k);
      assert EntryOk(s.mem.init, s.mem.log, p, s.epoch, s.txs);
    }
  }

  lemma ReleasedTx(m: Mem, t: TxId, tx: Tx)
    requires TxOk(m, t, tx) && tx.pc.Unlocking? && tx.pc.i < tx.pc.n && tx.ws[tx.pc.i] in m.vals
    requires OnlyAt(m, ReleaseWord(m, tx.ws[tx.pc.i]), tx.ws[tx.pc.i])
    ensures TxOk(ReleaseWord(m, tx.ws[tx.pc.i]), t, tx.(pc := Unlocking(tx.pc.i + 1, tx.pc.n)))
  {
    var k := tx.ws[tx.pc.i];
    var m', tx' := ReleaseWord(m, k), tx.(pc := Unlocking(tx.pc.i + 1, tx.pc.n));
    ReadsAt(m, m', k, t, tx);
    forall j: nat | j < |tx.ws| ensures LockOk(m', t, tx', j) { assert LockOk(m, t, tx, j); }
  }

  lemma ReleaseMem(m: Mem, k: Key)
    requires MemOk(m) && k in m.vals && k !in m.mid && NobodyAhead(m, k, -1)
    ensures OnlyAt(m, ReleaseWord(m, k), k) && MemOk(ReleaseWord(m, k))
  {
    var m' := ReleaseWord(m, k);
    assert KeyOk(m, k);
    assert KeyOk(m', k);
    MemAt(m, m', k);
  }

  lemma UnlockMem(s: State, t: TxId)
    requires Inv(s) && t in s.txs && TxOk(s.mem, t, s.txs[t]) && s.txs[t].pc.Unlocking? && s.txs[t].pc.i < s.txs[t].pc.n
    ensures var k := s.txs[t].ws[s.txs[t].pc.i];
            k in s.mem.vals && OnlyAt(s.mem, ReleaseWord(s.mem, k), k) && MemOk(ReleaseWord(s.mem, k))
  {
    var k := s.txs[t].ws[s.txs[t].pc.i];
    assert LockOk(s.mem, t, s.txs[t], s.txs[t].pc.i);
    OnlyOwnerAhead(s, t, k);
    assert NobodyAhead(s.mem, k, -1);
    ReleaseMem(s.mem, k);
  }

  lemma UnlockGood(m: Mem, t: TxId, tx: Tx)
    requires TxOk(m, t, tx) && tx.pc.Unlocking? && tx.pc.i < tx.pc.n && tx.ws[tx.pc.i] in m.vals
    requires var m' := ReleaseWord(m, tx.ws[tx.pc.i]); OnlyAt(m, m', tx.ws[tx.pc.i]) && MemOk(m')
    ensures GoodStepAt(m, ReleaseWord(m, tx.ws[tx.pc.i]), t, tx,
                       tx.(pc := Unlocking(tx.pc.i + 1, tx.pc.n)), tx.ws[tx.pc.i])
  {
    var k, tx' := tx.ws[tx.pc.i], tx.(pc := Unlocking(tx.pc.i + 1, tx.pc.n));
    assert LockOk(m, t, tx, tx.pc.i);
    ReleasedTx(m, t, tx);
    DroppedHolds(tx, tx', k);
  }

  lemma UnlockIsGood(s: State, t: TxId, s': State)
    requires Inv(s) && Enabled(s, Unlock(t)) && s' == Apply(s, Unlock(t))
    ensures t in s'.txs && s' == SetTx(s, t, s'.txs[t]).(mem := s'.mem)
    ensures GoodStepAt(s.mem, s'.mem, t, s.txs[t], s'.txs[t], s.txs[t].ws[s.txs[t].pc.i])
  {
    assert TxOk(s.mem, t, s.txs[t]);
    var tx := s.txs[t];
    assert s'.mem == ReleaseWord(s.mem, tx.ws[tx.pc.i]) && s'.txs[t] == tx.(pc := Unlocking(tx.pc.i + 1, tx.pc.n));
    UnlockMem(s, t);
    UnlockGood(s.mem, t, tx);
  }

  lemma UnlockKeeps(s: State, t: TxId, s': State)
    requires Inv(s) && Enabled(s, Unlock(t)) && s' == Apply(s, Unlock(t))
    ensures Inv(s')
  {
    UnlockIsGood(s, t, s');
    StepAt(s, s', t, s.txs[t].ws[s.txs[t].pc.i]);
  }

  lemma SwappedTx(m: Mem, t: TxId, tx: Tx)
    requires TxOk(m, t, tx) && tx.pc.Writing? && tx.pc.i < |tx.ws| && tx.ws[tx.pc.i] in m.vals
    requires tx.ws[tx.pc.i] in tx.rws
    requires OnlyAt(m, SwapRec(m, tx.ws[tx.pc.i], tx.rws[tx.ws[tx.pc.i]].rec), tx.ws[tx.pc.i])
    ensures TxOk(SwapRec(m, tx.ws[tx.pc.i], tx.rws[tx.ws[tx.pc.i]].rec), t, tx.(pc := Storing(tx.pc.i)))
  {
    var k := tx.ws[tx.pc.i];
    var m', tx' := SwapRec(m, k, tx.rws[k].rec), tx.(pc := Storing(tx.pc.i));
    ReadsAt(m, m', k, t, tx);
    forall j: nat | j < |tx.ws| ensures LockOk(m', t, tx', j) { assert LockOk(m, t, tx, j); }
  }

  lemma SwapMem(m: Mem, k: Key, rec: Rec)
    requires MemOk(m) && k in m.vals && k in m.owner
    ensures OnlyAt(m, SwapRec(m, k, rec), k) && MemOk(SwapRec(m, k, rec))
  {
    var m' := SwapRec(m, k, rec);
    assert KeyOk(m, k);
    assert KeyOk(m', k);
    forall p: nat | p < |m.log| && k in m.log[p].wrote ensures WriterOk(m', p, k) { assert WriterOk(m, p, k); }
    MemAt(m, m', k);
  }

  lemma SameHolds(tx: Tx, tx': Tx)
    requires tx'.ws == tx.ws && Lo(tx) == Lo(tx') && Hi(tx) == Hi(tx')
    ensures forall j :: Holds(tx', j) <==> Holds(tx, j)
  {
  }

  lemma ExchangeGood(m: Mem, t: TxId, tx: Tx)
    requires MemOk(m) && TxOk(m, t, tx) && tx.pc.Writing? && tx.pc.i < |tx.ws| && tx.ws[tx.pc.i] in m.vals
    requires tx.ws[tx.pc.i] in tx.rws
    ensures var k := tx.ws[tx.pc.i];
            GoodStepAt(m, SwapRec(m, k, tx.rws[k].rec), t, tx, tx.(pc := Storing(tx.pc.i)), k)
  {
    var k, tx' := tx.ws[tx.pc.i], tx.(pc := Storing(tx.pc.i));
    assert LockOk(m, t, tx, tx.pc.i);
    SwapMem(m, k, tx.rws[k].rec);
    SwappedTx(m, t, tx);
    assert tx'.ws[tx.pc.i] == k;
    SameHolds(tx, tx');
  }

  lemma ExchangeRecIsGood(s: State, t: TxId, s': State)
    requires Inv(s) && Enabled(s, ExchangeRec(t)) && s' == Apply(s, ExchangeRec(t))
    ensures t in s'.txs && s' == SetTx(s, t, s'.txs[t]).(mem := s'.mem)
    ensures GoodStepAt(s.mem, s'.mem, t, s.txs[t], s'.txs[t], s.txs[t].ws[s.txs[t].pc.i])
  {
    assert TxOk(s.mem, t, s.txs[t]);
    ExchangeGood(s.mem, t, s.txs[t]);
  }

  lemma ExchangeRecKeeps(s: State, t: TxId, s': State)
    requires Inv(s) && Enabled(s, ExchangeRec(t)) && s' == Apply(s, ExchangeRec(t))
    ensures Inv(s')
  {
    ExchangeRecIsGood(s, t, s');
    StepAt(s, s', t, s.txs[t].ws[s.txs[t].pc.i]);
  }

  lemma StoredTx(m: Mem, t: TxId, tx: Tx)
    requires TxOk(m, t, tx) && tx.pc.Storing? && tx.ws[tx.pc.i] in m.vals && tx.ws[tx.pc.i] in tx.rws
    ensures TxOk(PublishWord(m, tx.ws[tx.pc.i], NewWord(tx, tx.ws[tx.pc.i]), tx.pos), t,
                 tx.(pc := Writing(tx.pc.i + 1)))
  {
    var k := tx.ws[tx.pc.i];
    var m', tx' := PublishWord(m, k, NewWord(tx, k), tx.pos), tx.(pc := Writing(tx.pc.i + 1));
    assert LockOk(m, t, tx, tx.pc.i);
    forall j | j in tx.rws ensures ElemOk(m', tx.rws[j], j, tx.serialized, tx.pos) {
      assert ElemOk(m, tx.rws[j], j, tx.serialized, tx.pos);
    }
    forall j: nat | j < |tx.ws| ensures LockOk(m', t, tx', j) { assert LockOk(m, t, tx, j); }
  }

  lemma StoredKey(m: Mem, t: TxId, tx: Tx)
    requires TxOk(m, t, tx) && tx.pc.Storing? && KeyOk(m, tx.ws[tx.pc.i]) && tx.ws[tx.pc.i] in tx.rws
    ensures KeyOk(PublishWord(m, tx.ws[tx.pc.i], NewWord(tx, tx.ws[tx.pc.i]), tx.pos), tx.ws[tx.pc.i])
  {
    assert LockOk(m, t, tx, tx.pc.i);
    assert m.log[tx.pos].wrote == Writes(tx);
  }

  lemma PublishMem(m: Mem, k: Key, tw: TidWord, pos: nat)
    requires MemOk(m) && k in m.vals && NobodyAhead(m, k, pos) && m.last[k] < pos && m.vals[k].tw.tid < tw.tid
    requires KeyOk(PublishWord(m, k, tw, pos), k)
    ensures OnlyAt(m, PublishWord(m, k, tw, pos), k) && MemOk(PublishWord(m, k, tw, pos))
  {
    MemAt(m, PublishWord(m, k, tw, pos), k);
  }

  lemma StoreMem(s: State, t: TxId)
    requires Inv(s) && t in s.txs && s.txs[t].pc.Storing? && TxOk(s.mem, t, s.txs[t])
    ensures var k := s.txs[t].ws[s.txs[t].pc.i];
            && k in s.mem.vals && k in s.txs[t].rws
            && var m' := PublishWord(s.mem, k, NewWord(s.txs[t], k), s.txs[t].pos);
            OnlyAt(s.mem, m', k) && MemOk(m')
  {
    var tx := s.txs[t];
    var k := tx.ws[tx.pc.i];
    assert LockOk(s.mem, t, tx, tx.pc.i);
    OnlyOwnerAhead(s, t, k);
    assert KeyOk(s.mem, k);
    StoredKey(s.mem, t, tx);
    PublishMem(s.mem, k, NewWord(tx, k), tx.pos);
  }

  lemma StoreGood(m: Mem, t: TxId, tx: Tx)
    requires TxOk(m, t, tx) && tx.pc.Storing? && tx.ws[tx.pc.i] in m.vals && tx.ws[tx.pc.i] in tx.rws
    requires var k := tx.ws[tx.pc.i];
             var m' := PublishWord(m, k, NewWord(tx, k), tx.pos); OnlyAt(m, m', k) && MemOk(m')
    ensures var k := tx.ws[tx.pc.i];
            GoodStepAt(m, PublishWord(m, k, NewWord(tx, k), tx.pos), t, tx, tx.(pc := Writing(tx.pc.i + 1)), k)
  {
    var k, tx' := tx.ws[tx.pc.i], tx.(pc := Writing(tx.pc.i + 1));
    assert LockOk(m, t, tx, tx.pc.i);
    StoredTx(m, t, tx);
    DroppedHolds(tx, tx', k);
  }

  lemma StoreWordIsGood(s: State, t: TxId, s': State)
    requires Inv(s) && Enabled(s, StoreWord(t)) && s' == Apply(s, StoreWord(t))
    ensures t in s'.txs && s' == SetTx(s, t, s'.txs[t]).(mem := s'.mem)
    ensures GoodStepAt(s.mem, s'.mem, t, s.txs[t], s'.txs[t], s.txs[t].ws[s.txs[t].pc.i])
  {
    assert TxOk(s.mem, t, s.txs[t]);
    var tx := s.txs[t];
    var k := tx.ws[tx.pc.i];
    assert s'.mem == PublishWord(s.mem, k, NewWord(tx, k), tx.pos) && s'.txs[t] == tx.(pc := Writing(tx.pc.i + 1));
    StoreMem(s, t);
    StoreGood(s.mem, t, tx);
  }

  lemma StoreWordKeeps(s: State, t: TxId, s': State)
    requires Inv(s) && Enabled(s, StoreWord(t)) && s' == Apply(s, StoreWord(t))
    ensures Inv(s')
  {
    StoreWordIsGood(s, t, s');
    StepAt(s, s', t, s.txs[t].ws[s.txs[t].pc.i]);
  }
}
