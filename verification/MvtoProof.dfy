/** Every step of the MVTO machine keeps the invariant. */
module MvtoProof {
  import opened MvtoChain
  import opened MvtoModel
  import opened MvtoInvariant

  lemma InitHolds(s: State)
    requires Init(s)
    ensures Inv(s)
  {
  }

  ghost predicate HoldsNothing(tx: Tx) {
    Hi(tx) <= Lo(tx)
  }

  lemma PrivateKeeps(s: State, ts: TS, tx': Tx, s': State)
    requires Inv(s) && s' == SetTx(s, ts, tx') && TxOk(s.rows, s.commits, ts, tx') && HoldsNothing(tx')
    requires ts in s.txs ==> HoldsNothing(s.txs[ts])
    ensures Inv(s')
  {
    forall k | k in s'.rows ensures OwnerOk(s'.rows[k], k, s'.txs) { assert OwnerOk(s.rows[k], k, s.txs); }
  }

  lemma MovePc(rows: map<Key, Row>, commits: map<TS, Entry>, ts: TS, tx: Tx, pc: Pc)
    requires TxOk(rows, commits, ts, tx) && HoldsNothing(tx) && pc.Done?
    ensures TxOk(rows, commits, ts, tx.(pc := pc))
  {
    assert Reads(tx.(pc := pc)) == Reads(tx) && Writes(tx.(pc := pc)) == Writes(tx);
  }

  lemma PutSets(keys: set<Key>, rws: map<Key, Elem>, ws: seq<Key>, key: Key, e: Elem, ws': seq<Key>)
    requires SetsOk(keys, rws, ws) && key in keys
    requires ws' == if e.kind != READ && (key !in rws || rws[key].kind == READ) then ws + [key] else ws
    requires key in rws && rws[key].kind != READ ==> e.kind != READ
    ensures SetsOk(keys, rws[key := e], ws')
  {
  }

  lemma PutTx(rows: map<Key, Row>, commits: map<TS, Entry>, ts: TS, tx: Tx, key: Key, e: Elem, ws: seq<Key>)
    requires TxOk(rows, commits, ts, tx) && tx.pc.Running? && key in rows && ReadOk(rows[key].hist, ts, e)
    requires ws == if e.kind != READ && (key !in tx.rws || tx.rws[key].kind == READ) then tx.ws + [key] else tx.ws
    requires key in tx.rws && tx.rws[key].kind != READ ==> e.kind != READ
    ensures TxOk(rows, commits, ts, tx.(rws := tx.rws[key := e], ws := ws))
  {
    var tx' := tx.(rws := tx.rws[key := e], ws := ws);
    PutSets(rows.Keys, tx.rws, tx.ws, key, e, ws);
    forall k | k in tx'.rws ensures k in rows && ReadOk(rows[k].hist, ts, tx'.rws[k]) { }
    forall j: nat | j < |ws| ensures HeldOk(rows, ts, tx', j) { }
  }

  lemma AfterLocalTx(rows: map<Key, Row>, commits: map<TS, Entry>, ts: TS, tx: Tx, op: Op, key: Key)
    requires TxOk(rows, commits, ts, tx) && tx.pc.Running? && key in tx.rws
    ensures TxOk(rows, commits, ts, AfterLocal(tx, op, key)) && HoldsNothing(AfterLocal(tx, op, key))
  {
    var e := tx.rws[key];
    if AfterLocal(tx, op, key).pc.Done? {
      MovePc(rows, commits, ts, tx, Done);
    } else if e.kind == READ {
      PutTx(rows, commits, ts, tx, key, e.(kind := UPDATE, rec := e.seen), tx.ws + [key]);
      PutTx(rows, commits, ts, tx, key, e.(kind := DELETE), tx.ws + [key]);
    }
  }

  lemma ReorderedTx(rows: map<Key, Row>, commits: map<TS, Entry>, ts: TS, tx: Tx, order: seq<Key>)
    requires TxOk(rows, commits, ts, tx) && tx.pc.Running? && Ascending(order)
    requires (forall k :: k in order ==> k in tx.ws) && (forall k :: k in tx.ws ==> k in order)
    ensures TxOk(rows, commits, ts, tx.(pc := Locking(0), ws := order))
  {
    forall j | 0 <= j < |order| ensures order[j] in tx.rws && tx.rws[order[j]].kind != READ {
      assert order[j] in order;
    }
  }

  lemma BeginKeeps(s: State, ts: TS, smallest: TS, s': State)
    requires Inv(s) && Enabled(s, Begin(ts, smallest)) && s' == Apply(s, Begin(ts, smallest))
    ensures Inv(s')
  {
    PrivateKeeps(s, ts, s'.txs[ts], s');
  }

  lemma LocalKeeps(s: State, ts: TS, op: Op, key: Key, s': State)
    requires Inv(s) && Enabled(s, Local(ts, op, key)) && s' == Apply(s, Local(ts, op, key))
    ensures Inv(s')
  {
    assert TxOk(s.rows, s.commits, ts, s.txs[ts]);
    AfterLocalTx(s.rows, s.commits, ts, s.txs[ts], op, key);
    PrivateKeeps(s, ts, s'.txs[ts], s');
  }

  lemma ModifyKeeps(s: State, ts: TS, key: Key, rec: Rec, s': State)
    requires Inv(s) && Enabled(s, Modify(ts, key, rec)) && s' == Apply(s, Modify(ts, key, rec))
    ensures Inv(s')
  {
    assert TxOk(s.rows, s.commits, ts, s.txs[ts]);
    PutTx(s.rows, s.commits, ts, s.txs[ts], key, s.txs[ts].rws[key].(rec := rec), s.txs[ts].ws);
    PrivateKeeps(s, ts, s'.txs[ts], s');
  }

  lemma UserAbortKeeps(s: State, ts: TS, s': State)
    requires Inv(s) && Enabled(s, UserAbort(ts)) && s' == Apply(s, UserAbort(ts))
    ensures Inv(s')
  {
    assert TxOk(s.rows, s.commits, ts, s.txs[ts]);
    MovePc(s.rows, s.commits, ts, s.txs[ts], Done);
    PrivateKeeps(s, ts, s'.txs[ts], s');
  }

  lemma StartPrecommitKeeps(s: State, ts: TS, order: seq<Key>, s': State)
    requires Inv(s) && Enabled(s, StartPrecommit(ts, order)) && s' == Apply(s, StartPrecommit(ts, order))
    ensures Inv(s')
  {
    assert TxOk(s.rows, s.commits, ts, s.txs[ts]);
    ReorderedTx(s.rows, s.commits, ts, s.txs[ts], order);
    PrivateKeeps(s, ts, s'.txs[ts], s');
  }

  lemma FinishKeeps(s: State, ts: TS, s': State)
    requires Inv(s) && Enabled(s, Finish(ts)) && s' == Apply(s, Finish(ts))
    ensures Inv(s')
  {
    assert TxOk(s.rows, s.commits, ts, s.txs[ts]);
    MovePc(s.rows, s.commits, ts, s.txs[ts], Done);
    PrivateKeeps(s, ts, s'.txs[ts], s');
  }

  // ---- Steps on one entry ----

  // hist' is hist with some read timestamps raised.
  ghost predicate OnlyReadTs(hist: seq<Version>, hist': seq<Version>) {
    && |hist'| == |hist|
    && forall i :: 0 <= i < |hist| ==>
       hist'[i] == hist[i].(readTs := hist'[i].readTs) && hist[i].readTs <= hist'[i].readTs
  }

  lemma RaisedRead(hist: seq<Version>, hist': seq<Version>, ts: TS, e: Elem)
    requires OnlyReadTs(hist, hist') && ReadOk(hist, ts, e)
    ensures ReadOk(hist', ts, e)
  {
    VisibleUnique(hist', ts - 1, Visible(hist, ts - 1));
  }

  // A new head version takes nothing away from a reader unless it slips in below the reader, which the head forbids.
  lemma PushedRead(hist: seq<Version>, v: Version, ts: TS, e: Elem)
    requires ReadOk(hist, ts, e) && hist[0].readTs <= v.writeTs && hist[0].writeTs < v.writeTs
    ensures ReadOk([v] + hist, ts, e)
  {
    var i := Visible(hist, ts - 1);
    assert i > 0 ==> ts - 1 < hist[0].writeTs;
    VisibleUnique([v] + hist, ts - 1, i + 1);
  }

  // Transactions other than t, when only the entry k changed and they do not hold it.
  lemma OtherTx(rows: map<Key, Row>, commits: map<TS, Entry>, k: Key, row': Row, u: TS, tx: Tx)
    requires TxOk(rows, commits, u, tx) && k in rows && !Holds(tx, k)
    requires k in tx.rws ==> ReadOk(row'.hist, u, tx.rws[k])
    ensures TxOk(rows[k := row'], commits, u, tx)
  {
    var rows' := rows[k := row'];
    assert rows'.Keys == rows.Keys;
    forall j: nat | j < |tx.ws| ensures HeldOk(rows', u, tx, j) {
      assert HeldOk(rows, u, tx, j);
      assert Lo(tx) <= j < Hi(tx) ==> tx.ws[j] != k;
    }
  }

  lemma HoldsOwns(rows: map<Key, Row>, commits: map<TS, Entry>, u: TS, tx: Tx, k: Key)
    requires TxOk(rows, commits, u, tx) && k in rows
    ensures Holds(tx, k) ==> rows[k].owner == HeldBy(u)
  {
    if j :| Lo(tx) <= j < Hi(tx) && j < |tx.ws| && tx.ws[j] == k { assert HeldOk(rows, u, tx, j); }
  }

  ghost predicate TxsOk(rows: map<Key, Row>, commits: map<TS, Entry>, txs: map<TS, Tx>) {
    forall t {:trigger TxOk(rows, commits, t, txs[t])} :: t in txs ==> TxOk(rows, commits, t, txs[t])
  }

  ghost predicate OwnersOk(rows: map<Key, Row>, txs: map<TS, Tx>) {
    forall k {:trigger OwnerOk(rows[k], k, txs)} :: k in rows ==> OwnerOk(rows[k], k, txs)
  }

  ghost predicate KeysOk(init: map<Key, Rec>, rows: map<Key, Row>, commits: map<TS, Entry>) {
    forall k {:trigger KeyOk(init, rows[k], k, commits)} :: k in rows ==> KeyOk(init, rows[k], k, commits)
  }

  lemma InvParts(s: State)
    ensures Inv(s) <==> s.init.Keys == s.rows.Keys && s.commits.Keys <= s.txs.Keys && KeysOk(s.init, s.rows, s.commits)
                        && OwnersOk(s.rows, s.txs) && TxsOk(s.rows, s.commits, s.txs)
  {
  }

  // The entry k is free or held by ts, before and after.
  ghost predicate OwnedBy(row: Row, ts: TS) {
    row.owner.HeldBy? ==> row.owner.ts == ts
  }

  ghost predicate ReadsKept(txs: map<TS, Tx>, k: Key, hist': seq<Version>) {
    forall u :: u in txs && k in txs[u].rws ==> ReadOk(hist', u, txs[u].rws[k])
  }

  lemma TxsAt(rows: map<Key, Row>, commits: map<TS, Entry>, txs: map<TS, Tx>, ts: TS, k: Key, tx': Tx, row': Row)
    requires TxsOk(rows, commits, txs) && k in rows && OwnedBy(rows[k], ts) && ReadsKept(txs, k, row'.hist)
    requires TxOk(rows[k := row'], commits, ts, tx')
    ensures TxsOk(rows[k := row'], commits, txs[ts := tx'])
  {
    var txs' := txs[ts := tx'];
    forall u | u in txs' ensures TxOk(rows[k := row'], commits, u, txs'[u]) {
      if u != ts {
        assert TxOk(rows, commits, u, txs[u]);
        HoldsOwns(rows, commits, u, txs[u], k);
        OtherTx(rows, commits, k, row', u, txs[u]);
      }
    }
  }

  lemma OwnersAt(rows: map<Key, Row>, txs: map<TS, Tx>, ts: TS, k: Key, tx': Tx, row': Row)
    requires OwnersOk(rows, txs) && ts in txs && k in rows && OwnedBy(row', ts)
    requires (row'.owner.HeldBy? ==> Holds(tx', k))
    requires forall i :: i != k ==> (Holds(tx', i) <==> Holds(txs[ts], i))
    ensures OwnersOk(rows[k := row'], txs[ts := tx'])
  {
    var rows' := rows[k := row'];
    forall j | j in rows' ensures OwnerOk(rows'[j], j, txs[ts := tx']) { assert OwnerOk(rows[j], j, txs); }
  }

  // All that a step of ts on the entry k has to show.
  ghost predicate GoodStepAt(s: State, ts: TS, k: Key, tx': Tx, row': Row) {
    && ts in s.txs && k in s.rows && OwnedBy(s.rows[k], ts) && OwnedBy(row', ts)
    && (row'.owner.HeldBy? ==> Holds(tx', k))
    && (forall j :: j != k ==> (Holds(tx', j) <==> Holds(s.txs[ts], j)))
    && KeyOk(s.init, row', k, s.commits) && TxOk(s.rows[k := row'], s.commits, ts, tx')
    && ReadsKept(s.txs, k, row'.hist)
  }

  lemma StepAt(s: State, ts: TS, k: Key, s': State)
    requires Inv(s) && ts in s'.txs && k in s'.rows && s' == SetBoth(s, ts, s'.txs[ts], k, s'.rows[k])
    requires GoodStepAt(s, ts, k, s'.txs[ts], s'.rows[k])
    ensures Inv(s')
  {
    InvParts(s);
    OwnersAt(s.rows, s.txs, ts, k, s'.txs[ts], s'.rows[k]);
    TxsAt(s.rows, s.commits, s.txs, ts, k, s'.txs[ts], s'.rows[k]);
    assert KeysOk(s'.init, s'.rows, s'.commits);
    InvParts(s');
  }

  lemma SameReads(s: State, k: Key, row': Row)
    requires Inv(s) && k in s.rows && OnlyReadTs(s.rows[k].hist, row'.hist)
    ensures ReadsKept(s.txs, k, row'.hist)
  {
    forall u | u in s.txs && k in s.txs[u].rws ensures ReadOk(row'.hist, u, s.txs[u].rws[k]) {
      ReadsOf(s, u, k);
      RaisedRead(s.rows[k].hist, row'.hist, u, s.txs[u].rws[k]);
    }
  }

  lemma ReadsOf(s: State, u: TS, k: Key)
    requires Inv(s) && u in s.txs && k in s.txs[u].rws
    ensures k in s.rows && ReadOk(s.rows[k].hist, u, s.txs[u].rws[k])
  {
    assert TxOk(s.rows, s.commits, u, s.txs[u]);
  }

  // ---- Access ----

  // Raising the read timestamp of the version visible at ts keeps the chain in order.
  lemma RaisedChain(hist: seq<Version>, i: nat, ts: TS)
    requires ChainOk(hist) && i < |hist| && i == Visible(hist, ts)
    ensures ChainOk(WithReadTs(hist, i, ts)) && OnlyReadTs(hist, WithReadTs(hist, i, ts))
  {
    var hist' := WithReadTs(hist, i, ts);
    forall j | 0 < j < |hist'| ensures hist'[j].readTs <= hist'[j - 1].writeTs {
      assert hist[j].readTs <= hist[j - 1].writeTs;
    }
  }

  lemma RaisedPrefix(hist: seq<Version>, chain: seq<Version>, i: nat, ts: TS)
    requires |chain| <= |hist| && chain == hist[..|chain|] && i < |chain|
    ensures WithReadTs(chain, i, ts) == WithReadTs(hist, i, ts)[..|chain|]
  {
  }

  lemma TouchedRow(row: Row, ts: TS, smallest: TS)
    requires RowOk(row)
    ensures var row' := Touched(row, ts, smallest);
            RowOk(row') && OnlyReadTs(row.hist, row'.hist) && row'.owner == row.owner
  {
    if row.chain != [] && !IsRemoved(row.chain) {
      var i, pruned := Visible(row.chain, ts), Pruned(row.chain, smallest);
      assert pruned == row.hist[..|pruned|];
      if i < |row.chain| {
        VisibleInPrefix(row.hist, |row.chain|, ts);
        RaisedChain(row.hist, i, ts);
        if i < |pruned| {
          RaisedPrefix(row.hist, pruned, i, ts);
        } else {
          assert WithReadTs(row.hist, i, ts)[..|pruned|] == row.hist[..|pruned|];
        }
      }
    }
  }

  lemma TouchedKey(init: map<Key, Rec>, row: Row, k: Key, commits: map<TS, Entry>, ts: TS, smallest: TS)
    requires KeyOk(init, row, k, commits)
    ensures KeyOk(init, Touched(row, ts, smallest), k, commits)
  {
    var row' := Touched(row, ts, smallest);
    TouchedRow(row, ts, smallest);
    forall w | w in commits ensures WriterOk(row', k, w, commits) {
      assert WriterOk(row, k, w, commits);
      if i :| 0 <= i < |row.hist| && row.hist[i].writeTs == w { assert row'.hist[i].writeTs == w; }
    }
  }

  // The version that an access finds in the pruned chain is the last one before ts, and now remembers ts.
  lemma TouchedRead(init: map<Key, Rec>, row: Row, k: Key, commits: map<TS, Entry>, ts: TS, smallest: TS)
    requires KeyOk(init, row, k, commits) && ts > 0 && ts !in commits
    requires row.chain != [] && !IsRemoved(row.chain) && Visible(row.chain, ts) < |row.chain|
    ensures var v := row.chain[Visible(row.chain, ts)];
            forall e: Elem :: e.seen == v.rec && e.from == v.writeTs ==> ReadOk(Touched(row, ts, smallest).hist, ts, e)
  {
    var i := Visible(row.chain, ts);
    VisibleInPrefix(row.hist, |row.chain|, ts);
    assert row.hist[i].writeTs != ts;
    RaisedIsRead(row.hist, i, ts);
  }

  lemma RaisedIsRead(hist: seq<Version>, i: nat, ts: TS)
    requires i < |hist| && i == Visible(hist, ts) && ts > 0 && hist[i].writeTs != ts
    ensures forall e: Elem :: e.seen == hist[i].rec && e.from == hist[i].writeTs ==>
            ReadOk(WithReadTs(hist, i, ts), ts, e)
  {
    VisibleUnique(WithReadTs(hist, i, ts), ts - 1, i);
  }

  lemma AccessedTx(rows: map<Key, Row>, commits: map<TS, Entry>, ts: TS, tx: Tx, op: Op, key: Key, chain: seq<Version>,
                   blank: Rec)
    requires TxOk(rows, commits, ts, tx) && tx.pc.Running? && key in rows && key !in tx.rws
    requires chain != [] && !IsRemoved(chain) && Visible(chain, ts) < |chain| ==>
               var v := chain[Visible(chain, ts)];
               forall e: Elem :: e.seen == v.rec && e.from == v.writeTs ==> ReadOk(rows[key].hist, ts, e)
    ensures var tx' := Accessed(tx, ts, op, key, chain, blank); TxOk(rows, commits, ts, tx') && HoldsNothing(tx')
  {
    var i, tx' := Visible(chain, ts), Accessed(tx, ts, op, key, chain, blank);
    if tx'.pc.Done? {
      MovePc(rows, commits, ts, tx, Done);
    } else {
      PutTx(rows, commits, ts, tx, key, tx'.rws[key], tx'.ws);
    }
  }

  lemma AccessTx(s: State, ts: TS, op: Op, key: Key, blank: Rec, s': State)
    requires Inv(s) && Enabled(s, Access(ts, op, key, blank)) && s' == Apply(s, Access(ts, op, key, blank))
    ensures TxOk(s'.rows, s.commits, ts, s'.txs[ts]) && OnlyReadTs(s.rows[key].hist, s'.rows[key].hist)
    ensures KeyOk(s.init, s'.rows[key], key, s.commits)
  {
    var tx, row := s.txs[ts], s.rows[key];
    assert TxOk(s.rows, s.commits, ts, tx);
    assert KeyOk(s.init, row, key, s.commits);
    TouchedKey(s.init, row, key, s.commits, ts, tx.smallest);
    TouchedRow(row, ts, tx.smallest);
    if row.chain != [] && !IsRemoved(row.chain) && Visible(row.chain, ts) < |row.chain| {
      TouchedRead(s.init, row, key, s.commits, ts, tx.smallest);
    }
    OtherTx(s.rows, s.commits, key, s'.rows[key], ts, tx);
    AccessedTx(s'.rows, s.commits, ts, tx, op, key, row.chain, blank);
  }

  lemma AccessKeeps(s: State, ts: TS, op: Op, key: Key, blank: Rec, s': State)
    requires Inv(s) && Enabled(s, Access(ts, op, key, blank)) && s' == Apply(s, Access(ts, op, key, blank))
    ensures Inv(s')
  {
    AccessTx(s, ts, op, key, blank, s');
    SameReads(s, key, s'.rows[key]);
    StepAt(s, ts, key, s');
  }

  // ---- Precommit ----

  // Only the owner of an entry changed, and not away from a committed writer.
  lemma OwnerChanged(init: map<Key, Rec>, row: Row, k: Key, commits: map<TS, Entry>, owner: Owner)
    requires KeyOk(init, row, k, commits) && (row.owner.HeldBy? ==> row.owner.ts !in commits)
    ensures KeyOk(init, row.(owner := owner), k, commits)
  {
    forall w | w in commits ensures WriterOk(row.(owner := owner), k, w, commits) {
      assert WriterOk(row, k, w, commits);
    }
  }

  lemma LockedTx(rows: map<Key, Row>, commits: map<TS, Entry>, ts: TS, tx: Tx, k: Key, tx': Tx)
    requires TxOk(rows, commits, ts, tx) && tx.pc.Locking? && tx.pc.i < |tx.ws| && tx.ws[tx.pc.i] == k && k in rows
    requires RowOk(rows[k]) && rows[k].hist[0].writeTs != ts && k in tx.rws
    requires tx' == tx.(pc := if Admits(rows[k].chain, tx.rws[k].kind, ts) then Locking(tx.pc.i + 1)
                              else Unlocking(0, tx.pc.i + 1))
    ensures TxOk(rows[k := rows[k].(owner := HeldBy(ts))], commits, ts, tx')
  {
    var rows' := rows[k := rows[k].(owner := HeldBy(ts))];
    assert rows'.Keys == rows.Keys;
    forall j: nat | j < |tx.ws| ensures HeldOk(rows', ts, tx', j) { assert HeldOk(rows, ts, tx, j); }
  }

  lemma LockedHolds(tx: Tx, tx': Tx, k: Key)
    requires tx.pc.Locking? && tx.pc.i < |tx.ws| && tx.ws[tx.pc.i] == k && tx'.ws == tx.ws
    requires tx'.pc == Locking(tx.pc.i + 1) || tx'.pc == Unlocking(0, tx.pc.i + 1)
    ensures Holds(tx', k) && forall j :: j != k ==> (Holds(tx', j) <==> Holds(tx, j))
  {
    assert tx'.ws[tx.pc.i] == k;
  }

  lemma LockAndCheckKeeps(s: State, ts: TS, s': State)
    requires Inv(s) && Enabled(s, LockAndCheck(ts)) && s' == Apply(s, LockAndCheck(ts))
    ensures Inv(s')
  {
    var tx := s.txs[ts];
    var k := tx.ws[tx.pc.i];
    assert TxOk(s.rows, s.commits, ts, tx);
    assert KeyOk(s.init, s.rows[k], k, s.commits);
    LockedTx(s.rows, s.commits, ts, tx, k, s'.txs[ts]);
    LockedHolds(tx, s'.txs[ts], k);
    OwnerChanged(s.init, s.rows[k], k, s.commits, HeldBy(ts));
    SameReads(s, k, s'.rows[k]);
    StepAt(s, ts, k, s');
  }

  // A key leaves the held range from its front.
  lemma DroppedHolds(tx: Tx, tx': Tx, k: Key)
    requires tx'.ws == tx.ws && Lo(tx) < Hi(tx) <= |tx.ws| && tx.ws[Lo(tx)] == k
    requires Lo(tx') == Lo(tx) + 1 && Hi(tx') == Hi(tx)
    ensures forall j :: j != k ==> (Holds(tx', j) <==> Holds(tx, j))
  {
    forall j | j != k && Holds(tx, j) ensures Holds(tx', j) {
      var i :| Lo(tx) <= i < Hi(tx) && i < |tx.ws| && tx.ws[i] == j;
      assert tx'.ws[i] == j;
    }
  }

  lemma ReleasedTx(rows: map<Key, Row>, commits: map<TS, Entry>, ts: TS, tx: Tx, tx': Tx, row': Row)
    requires TxOk(rows, commits, ts, tx) && tx'.ws == tx.ws && tx'.rws == tx.rws && Lo(tx) < Hi(tx)
    requires (tx.pc.Unlocking? && tx' == tx.(pc := Unlocking(tx.pc.i + 1, tx.pc.n)))
             || (tx.pc.Applying? && tx' == tx.(pc := Applying(tx.pc.i + 1)))
    requires forall k :: k in tx.rws && k == tx.ws[Lo(tx)] ==> ReadOk(row'.hist, ts, tx.rws[k])
    ensures TxOk(rows[tx.ws[Lo(tx)] := row'], commits, ts, tx')
  {
    var k := tx.ws[Lo(tx)];
    var rows' := rows[k := row'];
    assert HeldOk(rows, ts, tx, Lo(tx));
    assert rows'.Keys == rows.Keys;
    assert Reads(tx') == Reads(tx) && Writes(tx') == Writes(tx);
    forall j: nat | j < |tx.ws| ensures HeldOk(rows', ts, tx', j) { assert HeldOk(rows, ts, tx, j); }
  }

  lemma UnlockKeeps(s: State, ts: TS, s': State)
    requires Inv(s) && Enabled(s, Unlock(ts)) && s' == Apply(s, Unlock(ts))
    ensures Inv(s')
  {
    var tx, tx' := s.txs[ts], s'.txs[ts];
    var k := tx.ws[tx.pc.i];
    assert TxOk(s.rows, s.commits, ts, tx) && HeldOk(s.rows, ts, tx, tx.pc.i);
    assert KeyOk(s.init, s.rows[k], k, s.commits);
    OwnerChanged(s.init, s.rows[k], k, s.commits, Free);
    ReleasedTx(s.rows, s.commits, ts, tx, tx', s'.rows[k]);
    DroppedHolds(tx, tx', k);
    SameReads(s, k, s'.rows[k]);
    StepAt(s, ts, k, s');
  }

  lemma InstalledKey(init: map<Key, Rec>, row: Row, k: Key, commits: map<TS, Entry>, v: Version, smallest: TS)
    requires KeyOk(init, row, k, commits) && row.chain != [] && row.owner == HeldBy(v.writeTs)
    requires row.hist[0].readTs <= v.writeTs && row.hist[0].writeTs < v.writeTs && v.readTs == v.writeTs
    requires v.writeTs in commits && k in commits[v.writeTs].wrote && commits[v.writeTs].wrote[k] == v.rec
    ensures KeyOk(init, Installed(row, v, smallest), k, commits)
  {
    var row' := Installed(row, v, smallest);
    InstalledRow(row, v, smallest);
    forall w | w in commits ensures WriterOk(row', k, w, commits) {
      assert WriterOk(row, k, w, commits);
      InstalledWriter(row, k, w, commits, v, row');
    }
  }

  lemma InstalledWriter(row: Row, k: Key, w: TS, commits: map<TS, Entry>, v: Version, row': Row)
    requires WriterOk(row, k, w, commits) && row.owner == HeldBy(v.writeTs) && row'.hist == [v] + row.hist
    ensures WriterOk(row', k, w, commits)
  {
    if i :| 0 <= i < |row.hist| && row.hist[i].writeTs == w { assert row'.hist[i + 1].writeTs == w; }
    assert row'.hist[0].writeTs == v.writeTs;
  }

  lemma InstalledRow(row: Row, v: Version, smallest: TS)
    requires RowOk(row) && row.hist[0].readTs <= v.writeTs && row.hist[0].writeTs < v.writeTs && v.readTs == v.writeTs
    ensures RowOk(Installed(row, v, smallest))
  {
    var row' := Installed(row, v, smallest);
    assert ([v] + row.hist)[..1 + |row.chain|] == [v] + row.chain;
    forall i | 0 < i < |row'.hist| ensures row'.hist[i].readTs <= row'.hist[i - 1].writeTs { }
  }

  lemma InstallReads(s: State, k: Key, v: Version)
    requires Inv(s) && k in s.rows && s.rows[k].hist != []
    requires s.rows[k].hist[0].readTs <= v.writeTs && s.rows[k].hist[0].writeTs < v.writeTs
    ensures ReadsKept(s.txs, k, [v] + s.rows[k].hist)
  {
    forall u | u in s.txs && k in s.txs[u].rws ensures ReadOk([v] + s.rows[k].hist, u, s.txs[u].rws[k]) {
      ReadsOf(s, u, k);
      PushedRead(s.rows[k].hist, v, u, s.txs[u].rws[k]);
    }
  }

  lemma InstallKeeps(s: State, ts: TS, s': State)
    requires Inv(s) && Enabled(s, Install(ts)) && s' == Apply(s, Install(ts))
    ensures Inv(s')
  {
    InstallGood(s, ts, s');
    StepAt(s, ts, s.txs[ts].ws[s.txs[ts].pc.i], s');
  }

  lemma InstallKey(s: State, ts: TS, k: Key)
    requires Inv(s) && ts in s.txs && s.txs[ts].pc.Applying? && k in s.rows && TxOk(s.rows, s.commits, ts, s.txs[ts])
    requires k in s.txs[ts].rws && s.txs[ts].rws[k].kind != READ && s.rows[k].owner == HeldBy(ts)
    requires s.rows[k].chain != [] && s.rows[k].hist != [] && s.rows[k].hist[0].readTs <= ts
    requires s.rows[k].hist[0].writeTs < ts
    ensures KeyOk(s.init, Installed(s.rows[k], NewVersion(s.txs[ts], ts, k), s.txs[ts].smallest), k, s.commits)
  {
    assert k in Writes(s.txs[ts]);
    assert KeyOk(s.init, s.rows[k], k, s.commits);
    InstalledKey(s.init, s.rows[k], k, s.commits, NewVersion(s.txs[ts], ts, k), s.txs[ts].smallest);
  }

  lemma InstallGood(s: State, ts: TS, s': State)
    requires Inv(s) && Enabled(s, Install(ts)) && s' == Apply(s, Install(ts))
    ensures var k := s.txs[ts].ws[s.txs[ts].pc.i]; GoodStepAt(s, ts, k, s'.txs[ts], s'.rows[k])
  {
    var tx, tx' := s.txs[ts], s'.txs[ts];
    var k := tx.ws[tx.pc.i];
    assert TxOk(s.rows, s.commits, ts, tx) && HeldOk(s.rows, ts, tx, tx.pc.i);
    InstallReads(s, k, NewVersion(tx, ts, k));
    InstallKey(s, ts, k);
    ReleasedTx(s.rows, s.commits, ts, tx, tx', s'.rows[k]);
    DroppedHolds(tx, tx', k);
  }

  // The decision to commit: all entries of the write set are held.
  lemma DecideKeeps(s: State, ts: TS, s': State)
    requires Inv(s) && Enabled(s, Decide(ts)) && s' == Apply(s, Decide(ts))
    ensures Inv(s')
  {
    InvParts(s);
    assert TxOk(s.rows, s.commits, ts, s.txs[ts]);
    assert KeysOk(s'.init, s'.rows, s'.commits) by {
      forall k | k in s.rows ensures KeyOk(s.init, s.rows[k], k, s'.commits) { DecidedKey(s, ts, k, s'.commits); }
    }
    assert OwnersOk(s'.rows, s'.txs) by {
      forall k | k in s.rows ensures OwnerOk(s.rows[k], k, s'.txs) { assert OwnerOk(s.rows[k], k, s.txs); }
    }
    DecidedTxs(s.rows, s.commits, s.txs, ts);
    InvParts(s');
  }

  lemma DecidedTxs(rows: map<Key, Row>, commits: map<TS, Entry>, txs: map<TS, Tx>, ts: TS)
    requires TxsOk(rows, commits, txs) && ts in txs && txs[ts].pc == Locking(|txs[ts].ws|)
    ensures TxsOk(rows, commits[ts := Entry(Reads(txs[ts]), Writes(txs[ts]))], txs[ts := txs[ts].(pc := Applying(0))])
  {
    var tx := txs[ts];
    var tx' := tx.(pc := Applying(0));
    var txs', commits' := txs[ts := tx'], commits[ts := Entry(Reads(tx), Writes(tx))];
    forall u | u in txs' ensures TxOk(rows, commits', u, txs'[u]) {
      assert TxOk(rows, commits, u, txs[u]);
      if u == ts {
        forall j: nat | j < |tx.ws| ensures HeldOk(rows, ts, tx', j) { assert HeldOk(rows, ts, tx, j); }
        assert Reads(tx') == Reads(tx) && Writes(tx') == Writes(tx);
      }
    }
  }

  lemma DecidedKey(s: State, ts: TS, k: Key, commits': map<TS, Entry>)
    requires Inv(s) && Enabled(s, Decide(ts)) && k in s.rows && TxOk(s.rows, s.commits, ts, s.txs[ts])
    requires commits' == s.commits[ts := Entry(Reads(s.txs[ts]), Writes(s.txs[ts]))]
    ensures KeyOk(s.init, s.rows[k], k, commits')
  {
    var tx := s.txs[ts];
    assert KeyOk(s.init, s.rows[k], k, s.commits);
    forall w | w in commits' ensures WriterOk(s.rows[k], k, w, commits') {
      if w != ts {
        assert WriterOk(s.rows[k], k, w, s.commits);
      } else if k in Writes(tx) {
        var j :| 0 <= j < |tx.ws| && tx.ws[j] == k;
        assert HeldOk(s.rows, ts, tx, j);
      }
    }
  }
}
