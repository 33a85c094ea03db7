/** The inductive invariant of the MVTO machine. */
module MvtoInvariant {
  import opened MvtoChain
  import opened MvtoModel

  // Write timestamps fall strictly along the chain; an older version was never read past the next newer one.
  ghost predicate ChainOk(hist: seq<Version>) {
    && (forall i, j :: 0 <= i < j < |hist| ==> hist[i].writeTs > hist[j].writeTs)
    && (forall i :: 0 <= i < |hist| ==> hist[i].writeTs <= hist[i].readTs)
    && (forall i :: 0 < i < |hist| ==> hist[i].readTs <= hist[i - 1].writeTs)
  }

  ghost predicate RowOk(row: Row) {
    && row.hist != [] && |row.chain| <= |row.hist| && row.chain == row.hist[..|row.chain|]
    && ChainOk(row.hist)
  }

  // Every version but the loaded one is the write of a committed transaction.
  ghost predicate HistOk(hist: seq<Version>, k: Key, init: map<Key, Rec>, commits: map<TS, Entry>) {
    && hist != [] && k in init && hist[|hist| - 1].writeTs == 0 && hist[|hist| - 1].rec == init[k]
    && forall i :: 0 <= i < |hist| - 1 ==>
         var w := hist[i].writeTs; w in commits && k in commits[w].wrote && commits[w].wrote[k] == hist[i].rec
  }

  ghost predicate Has(hist: seq<Version>, w: TS) {
    exists i :: 0 <= i < |hist| && hist[i].writeTs == w
  }

  // A committed write is in the chain, or its transaction still holds the entry.
  ghost predicate WriterOk(row: Row, k: Key, w: TS, commits: map<TS, Entry>) {
    w in commits && k in commits[w].wrote ==> Has(row.hist, w) || row.owner == HeldBy(w)
  }

  // The last version before ts has the record that ts saw, and remembers having been read at ts.
  ghost predicate ReadOk(hist: seq<Version>, ts: TS, e: Elem) {
    && ts > 0
    && var i := Visible(hist, ts - 1);
    i < |hist| && hist[i].rec == e.seen && hist[i].writeTs == e.from && hist[i].readTs >= ts
  }

  function Lo(tx: Tx): nat {
    match tx.pc
    case Applying(i) => i
    case Unlocking(i, _) => i
    case _ => 0
  }

  function Hi(tx: Tx): nat {
    match tx.pc
    case Locking(i) => i
    case Applying(_) => |tx.ws|
    case Unlocking(_, n) => n
    case _ => 0
  }

  ghost predicate Holds(tx: Tx, k: Key) {
    exists j :: Lo(tx) <= j < Hi(tx) && j < |tx.ws| && tx.ws[j] == k
  }

  ghost predicate SetsOk(keys: set<Key>, rws: map<Key, Elem>, ws: seq<Key>) {
    && (forall i, j :: 0 <= i < j < |ws| ==> ws[i] != ws[j])
    && (forall j :: 0 <= j < |ws| ==> ws[j] in rws && rws[ws[j]].kind != READ)
    && (forall k :: k in rws ==> k in keys && (rws[k].kind != READ ==> k in ws))
  }

  // What the holder of an entry knows: it is admitted, and stays so while it holds the lock.
  ghost predicate HeldOk(rows: map<Key, Row>, ts: TS, tx: Tx, j: nat) {
    Lo(tx) <= j < Hi(tx) && j < |tx.ws| ==>
      && tx.ws[j] in rows && rows[tx.ws[j]].owner == HeldBy(ts)
      && (tx.pc.Locking? || tx.pc.Applying? ==>
            var row := rows[tx.ws[j]];
            row.chain != [] && row.hist != [] && row.hist[0].readTs <= ts && row.hist[0].writeTs < ts)
  }

  ghost predicate Decided(commits: map<TS, Entry>, ts: TS, tx: Tx) {
    && (tx.pc.Applying? ==> ts in commits)
    && (tx.pc.Running? || tx.pc.Locking? || tx.pc.Unlocking? ==> ts !in commits)
    && (ts in commits ==> commits[ts] == Entry(Reads(tx), Writes(tx)))
  }

  ghost predicate TxOk(rows: map<Key, Row>, commits: map<TS, Entry>, ts: TS, tx: Tx) {
    && ts > 0 && SetsOk(rows.Keys, tx.rws, tx.ws) && Lo(tx) <= Hi(tx) <= |tx.ws| && Decided(commits, ts, tx)
    && (forall k :: k in tx.rws ==> k in rows && ReadOk(rows[k].hist, ts, tx.rws[k]))
    && (forall j: nat {:trigger HeldOk(rows, ts, tx, j)} :: j < |tx.ws| ==> HeldOk(rows, ts, tx, j))
  }

  ghost predicate KeyOk(init: map<Key, Rec>, row: Row, k: Key, commits: map<TS, Entry>) {
    RowOk(row) && HistOk(row.hist, k, init, commits)
      && forall w {:trigger WriterOk(row, k, w, commits)} :: w in commits ==> WriterOk(row, k, w, commits)
  }

  ghost predicate OwnerOk(row: Row, k: Key, txs: map<TS, Tx>) {
    row.owner.HeldBy? ==> row.owner.ts in txs && Holds(txs[row.owner.ts], k)
  }

  ghost predicate Inv(s: State) {
    && s.init.Keys == s.rows.Keys && s.commits.Keys <= s.txs.Keys
    && (forall k {:trigger KeyOk(s.init, s.rows[k], k, s.commits)} :: k in s.rows ==>
          KeyOk(s.init, s.rows[k], k, s.commits))
    && (forall k {:trigger OwnerOk(s.rows[k], k, s.txs)} :: k in s.rows ==> OwnerOk(s.rows[k], k, s.txs))
    && (forall t {:trigger TxOk(s.rows, s.commits, t, s.txs[t])} :: t in s.txs ==> TxOk(s.rows, s.commits, t, s.txs[t]))
  }
}
