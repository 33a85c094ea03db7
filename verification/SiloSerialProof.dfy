/** The serial point, validation and the commit decision keep the invariant. */
module SiloSerialProof {
  import opened SiloModel
  import opened SiloInvariant
  import opened SiloCommitProof

  // Lookup depends only on the committed writers of k.
  lemma {:induction false} LookupSame(init: map<Key, Rec>, log: seq<Entry>, log': seq<Entry>, p: nat, k: Key)
    requires k in init && p <= |log| && p <= |log'|
    requires forall q: nat :: q < p && k in log[q].wrote ==>
             log[q] == log'[q] || (log[q].status != Committed && log'[q].status != Committed)
    requires forall q: nat :: q < p ==> log[q].wrote == log'[q].wrote
    ensures Lookup(init, log, p, k) == Lookup(init, log', p, k)
  {
    if p > 0 { LookupSame(init, log, log', p - 1, k); }
  }

  // With w the last committed writer of k before p, the lookup is what w wrote.
  lemma {:induction false} LookupLast(init: map<Key, Rec>, log: seq<Entry>, p: nat, k: Key, w: int)
    requires k in init && -1 <= w < p <= |log|
    requires w >= 0 ==> log[w].status == Committed && k in log[w].wrote
    requires forall q: nat :: w < q < p && k in log[q].wrote ==> log[q].status != Committed
    ensures Lookup(init, log, p, k) == if w >= 0 then log[w].wrote[k] else init[k]
  {
    if w == -1 && p == 1 {
    } else if w < p - 1 {
      LookupLast(init, log, p - 1, k, w);
    }
  }

  // The log grew, or the status of one entry was decided; no word or record changed.
  ghost predicate LogOnly(m: Mem, m': Mem) {
    && m' == m.(log := m'.log) && |m.log| <= |m'.log|
    && (forall p: nat :: p < |m.log| ==> m'.log[p] == m.log[p].(status := m'.log[p].status))
    && (forall p: nat :: p < |m.log| && m.log[p].status != Pending ==> m'.log[p].status == m.log[p].status)
  }

  lemma SamePublished(m: Mem, m': Mem, k: Key)
    requires LogOnly(m, m') && KeyOk(m, k)
    ensures Published(m', k) == Published(m, k)
  {
  }

  lemma LogTx(m: Mem, m': Mem, u: TxId, tx: Tx)
    requires LogOnly(m, m') && MemOk(m) && TxOk(m, u, tx)
    requires tx.serialized ==> m'.log[tx.pos] == m.log[tx.pos]
    ensures TxOk(m', u, tx)
  {
    forall j | j in tx.rws ensures ElemOk(m', tx.rws[j], j, tx.serialized, tx.pos) {
      assert ElemOk(m, tx.rws[j], j, tx.serialized, tx.pos);
      assert KeyOk(m, j);
      SamePublished(m, m', j);
    }
    forall j: nat | j < |tx.ws| ensures LockOk(m', u, tx, j) { assert LockOk(m, u, tx, j); }
    LogLoop(m, m', tx.pc);
  }

  lemma LogLoop(m: Mem, m': Mem, pc: Pc)
    requires LogOnly(m, m') && MemOk(m) && LoopOk(m, pc)
    ensures LoopOk(m', pc)
  {
    if pc.HaveRec? {
      assert KeyOk(m, pc.key);
      SamePublished(m, m', pc.key);
    }
  }

  lemma LogMem(m: Mem, m': Mem)
    requires LogOnly(m, m') && MemOk(m)
    requires forall p: nat, k :: |m.log| <= p < |m'.log| && k in m'.log[p].wrote ==> WriterOk(m', p, k)
    ensures MemOk(m')
  {
    forall k | k in m'.vals ensures KeyOk(m', k) {
      assert KeyOk(m, k);
      SamePublished(m, m', k);
    }
    forall p: nat, k | p < |m'.log| && k in m'.log[p].wrote ensures WriterOk(m', p, k) {
      if p < |m.log| { assert WriterOk(m, p, k); }
    }
  }

  // Everything but the entries, for a step that writes only the log.
  lemma LogStep(s: State, s': State, t: TxId)
    requires Inv(s) && t in s.txs && t in s'.txs && s' == SetTx(s, t, s'.txs[t]).(mem := s'.mem)
    requires LogOnly(s.mem, s'.mem) && MemOk(s'.mem) && TxOk(s'.mem, t, s'.txs[t])
    requires forall p: nat :: p < |s.mem.log| && s.mem.log[p].tx != t ==> s'.mem.log[p] == s.mem.log[p]
    requires s'.txs[t].ws == s.txs[t].ws && Lo(s'.txs[t]) == Lo(s.txs[t]) && Hi(s'.txs[t]) == Hi(s.txs[t])
    requires EntriesOk(s'.mem, s'.epoch, s'.txs)
    ensures Inv(s')
  {
    SameHolds(s.txs[t], s'.txs[t]);
    assert OwnersOk(s'.mem.owner, s'.txs) by {
      forall k | k in s'.mem.owner ensures OwnerOk(s'.mem.owner, s'.txs, k) { assert OwnerOk(s.mem.owner, s.txs, k); }
    }
    assert TxsOk(s'.mem, s'.txs) by {
      forall u | u in s'.txs ensures TxOk(s'.mem, u, s'.txs[u]) {
        if u != t {
          assert TxOk(s.mem, u, s.txs[u]);
          LogTx(s.mem, s'.mem, u, s.txs[u]);
        }
      }
    }
    InvParts(s');
  }

  lemma SettledSame(m: Mem, m': Mem, p: nat, k: Key)
    requires LogOnly(m, m') && Settled(m.init, m.log, p, k)
    ensures Settled(m'.init, m'.log, p, k)
  {
    LookupSame(m.init, m.log, m'.log, p, k);
  }

  lemma OldEntry(s: State, s': State, t: TxId, p: nat)
    requires s.epoch == s'.epoch && LogOnly(s.mem, s'.mem)
    requires EntryOk(s.mem.init, s.mem.log, p, s.epoch, s.txs)
    requires t in s.txs && s.mem.log[p].tx != t && s'.mem.log[p] == s.mem.log[p]
    requires t in s'.txs && s'.txs == s.txs[t := s'.txs[t]]
    ensures EntryOk(s'.mem.init, s'.mem.log, p, s'.epoch, s'.txs)
  {
    var e := s.mem.log[p];
    forall k | k in e.read && (e.status == Committed || (s.txs[e.tx].pc.Validating? && k !in s.txs[e.tx].pc.todo))
      ensures Settled(s'.mem.init, s'.mem.log, p, k)
    {
      SettledSame(s.mem, s'.mem, p, k);
    }
  }

  lemma SerialTx(m: Mem, t: TxId, tx: Tx, epoch: nat)
    requires MemOk(m) && TxOk(m, t, tx) && tx.pc == Locking(|tx.ws|)
    ensures var tx' := tx.(pc := Validating(Reads(tx).Keys), epoch := epoch, serialized := true, pos := |m.log|);
            TxOk(m.(log := m.log + [Entry(t, epoch, Reads(tx), Writes(tx), Pending)]), t, tx')
  {
    var tx' := tx.(pc := Validating(Reads(tx).Keys), epoch := epoch, serialized := true, pos := |m.log|);
    var m' := m.(log := m.log + [Entry(t, epoch, Reads(tx), Writes(tx), Pending)]);
    assert LogOnly(m, m');
    forall j | j in tx.rws ensures ElemOk(m', tx.rws[j], j, true, |m.log|) {
      assert ElemOk(m, tx.rws[j], j, tx.serialized, tx.pos);
      assert KeyOk(m, j);
      SamePublished(m, m', j);
    }
    forall j: nat | j < |tx.ws| ensures LockOk(m', t, tx', j) {
      assert LockOk(m, t, tx, j);
      assert KeyOk(m, tx.ws[j]);
    }
    assert Reads(tx') == Reads(tx) && Writes(tx') == Writes(tx);
  }

  lemma SerialWriters(m: Mem, t: TxId, tx: Tx, k: Key)
    requires TxOk(m, t, tx) && tx.pc == Locking(|tx.ws|) && k in Writes(tx)
    ensures k in m.owner && m.owner[k] == t
  {
    var j :| 0 <= j < |tx.ws| && tx.ws[j] == k;
    assert LockOk(m, t, tx, j);
  }

  lemma SerialPointKeeps(s: State, t: TxId, s': State)
    requires Inv(s) && Enabled(s, SerialPoint(t)) && s' == Apply(s, SerialPoint(t))
    ensures Inv(s')
  {
    var m, m', tx := s.mem, s'.mem, s.txs[t];
    assert TxOk(m, t, tx);
    assert LogOnly(m, m');
    SerialTx(m, t, tx, s.epoch);
    forall p: nat, k | |m.log| <= p < |m'.log| && k in m'.log[p].wrote ensures WriterOk(m', p, k) {
      SerialWriters(m, t, tx, k);
    }
    LogMem(m, m');
    SerialEntries(s, t, s');
    LogStep(s, s', t);
  }

  lemma SerialEntries(s: State, t: TxId, s': State)
    requires Inv(s) && t in s.txs && !s.txs[t].serialized && s' == Serialized(s, t)
    ensures EntriesOk(s'.mem, s'.epoch, s'.txs)
  {
    assert LogOnly(s.mem, s'.mem);
    forall p: nat | p < |s'.mem.log| ensures EntryOk(s'.mem.init, s'.mem.log, p, s'.epoch, s'.txs) {
      if p < |s.mem.log| {
        assert EntryOk(s.mem.init, s.mem.log, p, s.epoch, s.txs);
        OldEntry(s, s', t, p);
      } else {
        forall q: nat | q < p ensures s.mem.log[q].epoch <= s.epoch {
          assert EntryOk(s.mem.init, s.mem.log, q, s.epoch, s.txs);
        }
      }
    }
  }

  // The heart of Silo: a read that validates is what serial execution up to this transaction returns. No writer of
  // the key can be pending or half done, because it would hold the lock, and none after us can have come and gone,
  // because it would have raised the tid.
  lemma ValidReadSettled(s: State, t: TxId, key: Key)
    requires Inv(s) && Enabled(s, Validate(t, key))
    requires s.mem.vals[key].tw.tid == s.txs[t].rws[key].tw.tid
    requires s.mem.vals[key].tw.lock ==> s.txs[t].rws[key].kind != READ
    ensures Settled(s.mem.init, s.mem.log, s.txs[t].pos, key)
  {
    var m, tx := s.mem, s.txs[t];
    assert TxOk(m, t, tx);
    assert KeyOk(m, key);
    ValidKey(m, t, tx, key);
    OnlyOwnerAhead(s, t, key);
    LookupLast(m.init, m.log, tx.pos, key, m.last[key]);
    forall q: nat | q < tx.pos && m.log[q].status == Pending ensures key !in m.log[q].wrote {
      if key in m.log[q].wrote { PendingIsAhead(s, q, key); }
    }
  }

  lemma ValidKey(m: Mem, t: TxId, tx: Tx, key: Key)
    requires TxOk(m, t, tx) && tx.pc.Validating? && key in tx.pc.todo && key in tx.rws && KeyOk(m, key)
    requires m.vals[key].tw.tid == tx.rws[key].tw.tid && (m.vals[key].tw.lock ==> tx.rws[key].kind != READ)
    ensures key in m.owner ==> m.owner[key] == t
    ensures tx.pos < |m.log| && key in m.log[tx.pos].read && m.log[tx.pos].read[key] == Published(m, key)
    ensures m.last[key] < tx.pos
  {
    assert ElemOk(m, tx.rws[key], key, tx.serialized, tx.pos);
    assert key in Reads(tx);
    if m.vals[key].tw.lock {
      var j :| 0 <= j < |tx.ws| && tx.ws[j] == key;
      assert LockOk(m, t, tx, j);
    }
  }

  // A pending writer of k holds its lock since before its serial point, so it is ahead of the last writer of k.
  lemma PendingIsAhead(s: State, q: nat, k: Key)
    requires Inv(s) && q < |s.mem.log| && s.mem.log[q].status == Pending && k in s.mem.log[q].wrote
    ensures k in s.mem.last && s.mem.last[k] < q
  {
    assert EntryOk(s.mem.init, s.mem.log, q, s.epoch, s.txs);
    var u := s.mem.log[q].tx;
    var tx := s.txs[u];
    assert TxOk(s.mem, u, tx);
    assert k in Writes(tx);
    var j :| 0 <= j < |tx.ws| && tx.ws[j] == k;
    assert LockOk(s.mem, u, tx, j);
  }

  lemma ValidatedTx(m: Mem, t: TxId, tx: Tx, key: Key, tid: nat)
    requires TxOk(m, t, tx) && tx.pc.Validating? && key in tx.rws && tx.tid <= tid && tx.rws[key].tw.tid <= tid
    ensures TxOk(m, t, tx.(pc := Validating(tx.pc.todo - {key}), tid := tid))
  {
    var tx' := tx.(pc := Validating(tx.pc.todo - {key}), tid := tid);
    forall j: nat | j < |tx.ws| ensures LockOk(m, t, tx', j) { assert LockOk(m, t, tx, j); }
    assert Reads(tx') == Reads(tx) && Writes(tx') == Writes(tx);
  }

  // Deciding the entry of t, with a program counter to match.
  lemma DecidedTx(m: Mem, t: TxId, tx: Tx, status: Status, tx': Tx)
    requires MemOk(m) && TxOk(m, t, tx) && tx.pc.Validating?
    requires (status == Aborted && tx' == tx.(pc := Unlocking(0, |tx.ws|)))
             || (status == Committed && tx.pc.todo == {} && tx.tid < tx'.tid
                   && tx' == tx.(pc := Writing(0), tid := tx'.tid))
    ensures LogOnly(m, Decide(m, tx.pos, status)) && TxOk(Decide(m, tx.pos, status), t, tx')
  {
    var m' := Decide(m, tx.pos, status);
    forall j | j in tx.rws ensures ElemOk(m', tx.rws[j], j, tx.serialized, tx.pos) {
      assert ElemOk(m, tx.rws[j], j, tx.serialized, tx.pos);
      assert KeyOk(m, j);
      SamePublished(m, m', j);
    }
    forall j: nat | j < |tx.ws| ensures LockOk(m', t, tx', j) { assert LockOk(m, t, tx, j); }
    assert Reads(tx') == Reads(tx) && Writes(tx') == Writes(tx);
    forall k | k in tx.rws && tx.rws[k].kind == INSERT ensures tx.rws[k].tw.tid <= tx.tid { InsertTid(m, t, tx, k); }
  }

  lemma InsertTid(m: Mem, t: TxId, tx: Tx, k: Key)
    requires TxOk(m, t, tx) && tx.pc.Validating? && k in tx.rws && tx.rws[k].kind == INSERT
    ensures tx.rws[k].tw.tid <= tx.tid
  {
    var j :| 0 <= j < |tx.ws| && tx.ws[j] == k;
    assert LockOk(m, t, tx, j);
    assert ElemOk(m, tx.rws[k], k, tx.serialized, tx.pos);
  }

  // The entries after a step of t that may settle more reads or decide the entry of t.
  lemma EntriesAfter(s: State, t: TxId, s': State)
    requires Inv(s) && t in s.txs && s.txs[t].pc.Validating? && t in s'.txs
    requires s' == SetTx(s, t, s'.txs[t]).(mem := s'.mem)
    requires s.txs[t].pos < |s.mem.log| && LogOnly(s.mem, s'.mem) && |s'.mem.log| == |s.mem.log|
    requires forall p: nat :: p < |s.mem.log| && p != s.txs[t].pos ==> s'.mem.log[p] == s.mem.log[p]
    requires s'.txs[t].serialized && s'.txs[t].pos == s.txs[t].pos
    requires var tx', e' := s'.txs[t], s'.mem.log[s.txs[t].pos];
             forall k :: k in e'.read && (e'.status == Committed || (tx'.pc.Validating? && k !in tx'.pc.todo)) ==>
                           Settled(s'.mem.init, s'.mem.log, tx'.pos, k)
    ensures EntriesOk(s'.mem, s'.epoch, s'.txs)
  {
    assert TxOk(s.mem, t, s.txs[t]);
    forall p: nat | p < |s'.mem.log| ensures EntryOk(s'.mem.init, s'.mem.log, p, s'.epoch, s'.txs) {
      assert EntryOk(s.mem.init, s.mem.log, p, s.epoch, s.txs);
      if s.mem.log[p].tx != t {
        OldEntry(s, s', t, p);
      }
    }
  }

  lemma OwnSettled(s: State, t: TxId, k: Key)
    requires Inv(s) && t in s.txs && s.txs[t].pc.Validating? && k in Reads(s.txs[t]) && k !in s.txs[t].pc.todo
    ensures Settled(s.mem.init, s.mem.log, s.txs[t].pos, k)
  {
    assert TxOk(s.mem, t, s.txs[t]);
    assert EntryOk(s.mem.init, s.mem.log, s.txs[t].pos, s.epoch, s.txs);
  }

  lemma ValidateOkKeeps(s: State, t: TxId, key: Key, s': State)
    requires Inv(s) && Enabled(s, Validate(t, key)) && s' == Validated(s, t, key) && s'.txs[t].pc.Validating?
    ensures Inv(s')
  {
    var m, tx := s.mem, s.txs[t];
    assert TxOk(m, t, tx);
    ValidReadSettled(s, t, key);
    ValidatedTx(m, t, tx, key, s'.txs[t].tid);
    assert EntriesOk(s'.mem, s'.epoch, s'.txs) by {
      forall k | k in m.log[tx.pos].read && k !in s'.txs[t].pc.todo ensures Settled(m.init, m.log, tx.pos, k) {
        if k != key { OwnSettled(s, t, k); }
      }
      EntriesAfter(s, t, s');
    }
    LogStep(s, s', t);
  }

  lemma ValidateFailKeeps(s: State, t: TxId, key: Key, s': State)
    requires Inv(s) && Enabled(s, Validate(t, key)) && s' == Validated(s, t, key) && !s'.txs[t].pc.Validating?
    ensures Inv(s')
  {
    assert TxOk(s.mem, t, s.txs[t]);
    DecidedTx(s.mem, t, s.txs[t], Aborted, s'.txs[t]);
    LogMem(s.mem, s'.mem);
    EntriesAfter(s, t, s');
    LogStep(s, s', t);
  }

  lemma GenerateTidKeeps(s: State, t: TxId, s': State)
    requires Inv(s) && Enabled(s, GenerateTid(t)) && TidFits(s, GenerateTid(t)) && s' == Apply(s, GenerateTid(t))
    ensures Inv(s')
  {
    var m, tx := s.mem, s.txs[t];
    assert TxOk(m, t, tx);
    DecidedTx(m, t, tx, Committed, s'.txs[t]);
    LogMem(m, s'.mem);
    assert EntriesOk(s'.mem, s'.epoch, s'.txs) by {
      forall k | k in m.log[tx.pos].read ensures Settled(s'.mem.init, s'.mem.log, tx.pos, k) {
        OwnSettled(s, t, k);
        SettledSame(m, s'.mem, tx.pos, k);
      }
      EntriesAfter(s, t, s');
    }
    LogStep(s, s', t);
  }
}
