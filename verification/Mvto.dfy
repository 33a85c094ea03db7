/** What MVTO promises in every run: no version ever slips in between a reader and the version it read, and every
    committed transaction saw what a serial execution in timestamp order would have shown it. */
module Mvto {
  import opened MvtoChain
  import opened MvtoModel
  import opened MvtoInvariant
  import P = MvtoProof

  lemma StepKeeps(s: State, step: Step, s': State)
    requires Inv(s) && Enabled(s, step) && s' == Apply(s, step)
    ensures Inv(s')
  {
    match step
    case Begin(ts, smallest) => P.BeginKeeps(s, ts, smallest, s');
    case Access(ts, op, key, blank) => P.AccessKeeps(s, ts, op, key, blank, s');
    case Local(ts, op, key) => P.LocalKeeps(s, ts, op, key, s');
    case Modify(ts, key, rec) => P.ModifyKeeps(s, ts, key, rec, s');
    case UserAbort(ts) => P.UserAbortKeeps(s, ts, s');
    case StartPrecommit(ts, order) => P.StartPrecommitKeeps(s, ts, order, s');
    case LockAndCheck(ts) => P.LockAndCheckKeeps(s, ts, s');
    case Decide(ts) => P.DecideKeeps(s, ts, s');
    case Install(ts) => P.InstallKeeps(s, ts, s');
    case Unlock(ts) => P.UnlockKeeps(s, ts, s');
    case Finish(ts) => P.FinishKeeps(s, ts, s');
  }

  lemma {:induction false} RunKeeps(s: State, run: seq<Step>)
    requires Inv(s) && IsRun(s, run)
    ensures Inv(Exec(s, run)) && Exec(s, run).init == s.init
    decreases |run|
  {
    if run != [] {
      StepKeeps(s, run[0], Apply(s, run[0]));
      RunKeeps(Apply(s, run[0]), run[1..]);
    }
  }

  lemma Reachable(s0: State, run: seq<Step>)
    requires Init(s0) && IsRun(s0, run)
    ensures Inv(Exec(s0, run)) && Exec(s0, run).init == s0.init
  {
    P.InitHolds(s0);
    RunKeeps(s0, run);
  }

  // Along every chain in memory the write timestamps fall strictly and no read reached past the next newer version.
  lemma ChainsStayOrdered(s0: State, run: seq<Step>, k: Key)
    requires Init(s0) && IsRun(s0, run) && k in Exec(s0, run).rows
    ensures ChainOk(Exec(s0, run).rows[k].chain)
  {
    Reachable(s0, run);
    var s := Exec(s0, run);
    assert KeyOk(s.init, s.rows[k], k, s.commits);
  }

  // Once ts has read version `from` of k, no version with a write timestamp strictly between exists, now or ever: the
  // element stays in the read set, and this holds in every later state as well.
  lemma NothingBetween(s0: State, run: seq<Step>, ts: TS, k: Key)
    requires Init(s0) && IsRun(s0, run)
    requires ts in Exec(s0, run).txs && k in Exec(s0, run).txs[ts].rws
    ensures var s := Exec(s0, run);
            && k in s.rows
            && (exists v :: v in s.rows[k].hist && v.writeTs == s.txs[ts].rws[k].from && v.rec == s.txs[ts].rws[k].seen)
            && (forall v :: v in s.rows[k].hist ==> !(s.txs[ts].rws[k].from < v.writeTs < ts))
  {
    Reachable(s0, run);
    var s := Exec(s0, run);
    assert TxOk(s.rows, s.commits, ts, s.txs[ts]);
    var e, hist := s.txs[ts].rws[k], s.rows[k].hist;
    assert KeyOk(s.init, s.rows[k], k, s.commits);
    var i := Visible(hist, ts - 1);
    assert hist[i] in hist;
    forall v | v in hist ensures !(e.from < v.writeTs < ts) {
      var j :| 0 <= j < |hist| && hist[j] == v;
    }
  }

  // ---- Serial execution in timestamp order ----

  // The committed transactions, each once, from the smallest timestamp to the largest.
  ghost predicate InTimestampOrder(order: seq<TS>, commits: map<TS, Entry>) {
    && (forall i, j :: 0 <= i < j < |order| ==> order[i] < order[j])
    && (forall t :: t in commits <==> t in order)
  }

  ghost predicate SerialFrom(db: map<Key, Rec>, order: seq<TS>, commits: map<TS, Entry>)
    decreases |order|
  {
    order == [] ||
    (&& order[0] in commits
     && (forall k :: k in commits[order[0]].read ==> k in db && db[k] == commits[order[0]].read[k])
     && SerialFrom(db + commits[order[0]].wrote, order[1..], commits))
  }

  ghost function SerialResult(db: map<Key, Rec>, order: seq<TS>, commits: map<TS, Entry>): map<Key, Rec>
    decreases |order|
  {
    if order == [] || order[0] !in commits then db
    else SerialResult(db + commits[order[0]].wrote, order[1..], commits)
  }

  // `x` is what the committed writers of k below t leave in k.
  ghost predicate IsValueBelow(s: State, k: Key, t: TS, x: Rec) {
    || (k in s.init && x == s.init[k] && forall w :: w in s.commits && k in s.commits[w].wrote ==> t <= w)
    || exists w :: LastWriter(s, k, t, w) && s.commits[w].wrote[k] == x
  }

  ghost predicate LastWriter(s: State, k: Key, t: TS, w: TS) {
    && w in s.commits && k in s.commits[w].wrote && w < t
    && forall w' :: w' in s.commits && k in s.commits[w'].wrote ==> w' <= w || t <= w'
  }

  // A committed writer that has not installed k yet is above everything that was read or written there.
  lemma UninstalledIsAbove(s: State, k: Key, w: TS)
    requires Inv(s) && k in s.rows && w in s.commits && k in s.commits[w].wrote && !Has(s.rows[k].hist, w)
    ensures s.rows[k].hist != [] && s.rows[k].hist[0].readTs <= w && s.rows[k].hist[0].writeTs < w
  {
    assert KeyOk(s.init, s.rows[k], k, s.commits);
    assert WriterOk(s.rows[k], k, w, s.commits);
    assert OwnerOk(s.rows[k], k, s.txs);
    var tx := s.txs[w];
    assert TxOk(s.rows, s.commits, w, tx);
    var j :| Lo(tx) <= j < Hi(tx) && j < |tx.ws| && tx.ws[j] == k;
    assert HeldOk(s.rows, w, tx, j);
  }

  // The version visible below t, if t read it or if everything is installed, is the value below t.
  lemma VisibleIsValueBelow(s: State, k: Key, t: TS)
    requires Inv(s) && k in s.rows && t > 0
    requires Visible(s.rows[k].hist, t - 1) < |s.rows[k].hist|
    requires s.rows[k].hist[Visible(s.rows[k].hist, t - 1)].readTs >= t
             || forall w :: w in s.commits && k in s.commits[w].wrote ==> Has(s.rows[k].hist, w)
    ensures IsValueBelow(s, k, t, s.rows[k].hist[Visible(s.rows[k].hist, t - 1)].rec)
  {
    var hist := s.rows[k].hist;
    var i := Visible(hist, t - 1);
    var from := hist[i].writeTs;
    assert KeyOk(s.init, s.rows[k], k, s.commits);
    forall w | w in s.commits && k in s.commits[w].wrote ensures 0 < w && (w <= from || t <= w) {
      assert TxOk(s.rows, s.commits, w, s.txs[w]);
      if !Has(hist, w) {
        UninstalledIsAbove(s, k, w);
      }
    }
    if i < |hist| - 1 { assert LastWriter(s, k, t, from); }
  }

  lemma ValueBelowUnique(s: State, k: Key, t: TS, x: Rec, y: Rec)
    requires IsValueBelow(s, k, t, x) && IsValueBelow(s, k, t, y)
    ensures x == y
  {
  }

  lemma CommittedRead(s: State, t: TS, k: Key)
    requires Inv(s) && t in s.commits && k in s.commits[t].read
    ensures IsValueBelow(s, k, t, s.commits[t].read[k])
  {
    assert TxOk(s.rows, s.commits, t, s.txs[t]);
    VisibleIsValueBelow(s, k, t);
  }

  // Running the committed transactions from place p of the order on, with the values below order[p] in db.
  lemma {:induction false} SerialTail(s: State, order: seq<TS>, p: nat, db: map<Key, Rec>, horizon: TS)
    requires Inv(s) && InTimestampOrder(order, s.commits) && p <= |order|
    requires p < |order| ==> horizon == order[p]
    requires p == |order| ==> forall t :: t in s.commits ==> t < horizon
    requires forall k :: k in s.init ==> k in db && IsValueBelow(s, k, horizon, db[k])
    ensures SerialFrom(db, order[p..], s.commits)
    ensures forall k :: k in s.init ==>
              var r := SerialResult(db, order[p..], s.commits);
              k in r && forall t: TS :: (forall u :: u in s.commits ==> u < t) ==> IsValueBelow(s, k, t, r[k])
    decreases |order| - p
  {
    if p < |order| {
      var t := order[p];
      assert order[p..][1..] == order[p + 1..];
      forall k | k in s.commits[t].read ensures k in db && db[k] == s.commits[t].read[k] {
        assert TxOk(s.rows, s.commits, t, s.txs[t]);
        CommittedRead(s, t, k);
        ValueBelowUnique(s, k, t, db[k], s.commits[t].read[k]);
      }
      var db' := db + s.commits[t].wrote;
      var next := if p + 1 < |order| then order[p + 1] else t + 1;
      forall k | k in s.init ensures k in db' && IsValueBelow(s, k, next, db'[k]) {
        ValueAfter(s, order, p, k, next, db[k]);
      }
      forall u | u in s.commits && p + 1 == |order| ensures u < next { assert u in order; }
      SerialTail(s, order, p + 1, db', next);
    } else {
      assert order[p..] == [];
      forall k, t: TS | k in s.init && (forall u :: u in s.commits ==> u < t) ensures IsValueBelow(s, k, t, db[k]) {
        if w :| LastWriter(s, k, horizon, w) && s.commits[w].wrote[k] == db[k] { assert LastWriter(s, k, t, w); }
      }
    }
  }

  lemma ValueAfter(s: State, order: seq<TS>, p: nat, k: Key, next: TS, x: Rec)
    requires InTimestampOrder(order, s.commits) && p < |order| && order[p] < next
    requires p + 1 < |order| ==> next == order[p + 1]
    requires p + 1 == |order| ==> next == order[p] + 1
    requires IsValueBelow(s, k, order[p], x)
    ensures IsValueBelow(s, k, next, if k in s.commits[order[p]].wrote then s.commits[order[p]].wrote[k] else x)
  {
    var t := order[p];
    forall w | w in s.commits ensures w <= t || next <= w {
      var i :| 0 <= i < |order| && order[i] == w;
      assert i <= p || i == p + 1 || order[p + 1] < order[i];
    }
    if k in s.commits[t].wrote {
      assert LastWriter(s, k, next, t);
    } else if w :| LastWriter(s, k, t, w) && s.commits[w].wrote[k] == x {
      assert LastWriter(s, k, next, w);
    }
  }

  predicate Quiet(s: State) {
    forall t :: t in s.txs ==> !s.txs[t].pc.Applying?
  }

  // In every run, the committed transactions in timestamp order are a serial execution of the loaded database, and
  // when no transaction is installing its writes, the newest version of every entry is the result.
  lemma Serializable(s0: State, run: seq<Step>, order: seq<TS>)
    requires Init(s0) && IsRun(s0, run) && InTimestampOrder(order, Exec(s0, run).commits)
    ensures var s := Exec(s0, run);
            && SerialFrom(s0.init, order, s.commits)
            && (Quiet(s) ==> forall k :: k in s.rows ==>
                  && s.rows[k].hist != [] && k in SerialResult(s0.init, order, s.commits)
                  && s.rows[k].hist[0].rec == SerialResult(s0.init, order, s.commits)[k])
  {
    Reachable(s0, run);
    var s := Exec(s0, run);
    var horizon := if order == [] then 1 else order[0];
    assert order[0..] == order;
    forall k | k in s.init ensures IsValueBelow(s, k, horizon, s.init[k]) {
      forall w | w in s.commits ensures horizon <= w { assert w in order; }
    }
    SerialTail(s, order, 0, s.init, horizon);
    if Quiet(s) {
      forall k | k in s.rows
        ensures s.rows[k].hist != [] && s.rows[k].hist[0].rec == SerialResult(s0.init, order, s.commits)[k]
      {
        QuietHead(s, k, order, SerialResult(s0.init, order, s.commits)[k]);
      }
    }
  }

  lemma QuietHead(s: State, k: Key, order: seq<TS>, x: Rec)
    requires Inv(s) && Quiet(s) && k in s.rows && InTimestampOrder(order, s.commits)
    requires forall t: TS :: (forall u :: u in s.commits ==> u < t) ==> IsValueBelow(s, k, t, x)
    ensures s.rows[k].hist != [] && s.rows[k].hist[0].rec == x
  {
    var hist := s.rows[k].hist;
    assert KeyOk(s.init, s.rows[k], k, s.commits);
    forall w | w in s.commits && k in s.commits[w].wrote ensures Has(hist, w) {
      assert WriterOk(s.rows[k], k, w, s.commits);
      assert OwnerOk(s.rows[k], k, s.txs);
      assert TxOk(s.rows, s.commits, w, s.txs[w]);
    }
    var t := 1 + (if order == [] then 0 else order[|order| - 1]);
    forall u | u in s.commits ensures u < t { assert u in order; }
    assert Visible(hist, t - 1) == 0;
    VisibleIsValueBelow(s, k, t);
    ValueBelowUnique(s, k, t, hist[0].rec, x);
  }
}
