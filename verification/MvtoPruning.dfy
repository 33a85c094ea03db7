/** When an access of MVTO frees the very version that it found: `mvto.hpp` prunes the chain between the lookup and the
    raise of the read timestamp. */
module MvtoPruning {
  import opened MvtoChain
  import opened MvtoModel
  import T = Mvto

  // The access of ts to the key finds a version and cuts it off.
  predicate FreesFound(s: State, ts: TS, key: Key) {
    && ts in s.txs && key in s.rows
    && var chain := s.rows[key].chain;
       chain != [] && !IsRemoved(chain) && |Pruned(chain, s.txs[ts].smallest)| <= Visible(chain, ts) < |chain|
  }

  // After the run, ts, which prunes at `smallest`, is about to access the key.
  ghost predicate AboutToAccess(s0: State, run: seq<Step>, ts: TS, smallest: TS, key: Key) {
    && Init(s0) && IsRun(s0, run)
    && Enabled(Exec(s0, run), Access(ts, Op.Read, key, NULL_REC)) && Exec(s0, run).txs[ts].smallest == smallest
  }

  // In every run the access frees what it found, exactly when its watermark is above its timestamp and somebody wrote
  // the entry in between.
  lemma FreesIff(s0: State, run: seq<Step>, ts: TS, smallest: TS, key: Key)
    requires AboutToAccess(s0, run, ts, smallest, key)
    ensures var s := Exec(s0, run);
            var chain := s.rows[key].chain;
            FreesFound(s, ts, key) <==>
              && chain != [] && !IsRemoved(chain) && Visible(chain, ts) < |chain|
              && ts < smallest && exists v :: v in chain && ts < v.writeTs <= smallest
  {
    T.ChainsStayOrdered(s0, run, key);
    var chain := Exec(s0, run).rows[key].chain;
    assert Falls(chain);
    if Visible(chain, ts) < |chain| {
      FoundSurvivesIff(chain, smallest, ts);
    }
  }

  // A transaction never frees what it finds, in any run, if and only if its watermark is not above its timestamp.
  lemma AccessesAreSafeIff(ts: TS, smallest: TS)
    requires ts > 0
    ensures (forall s0, run, key :: AboutToAccess(s0, run, ts, smallest, key) ==> !FreesFound(Exec(s0, run), ts, key))
            <==> smallest <= ts
  {
    if smallest <= ts {
      forall s0, run, key | AboutToAccess(s0, run, ts, smallest, key) ensures !FreesFound(Exec(s0, run), ts, key) {
        FreesIff(s0, run, ts, smallest, key);
      }
    } else {
      var s0, run := WriterInBetween(ts, smallest);
    }
  }

  // The run that starts with one more step.
  ghost predicate Runs(s: State, run: seq<Step>, t: State) {
    IsRun(s, run) && Exec(s, run) == t
  }

  lemma Prepend(s: State, step: Step, s': State, t: State, run: seq<Step>) returns (run': seq<Step>)
    requires Enabled(s, step) && s' == Apply(s, step) && Runs(s', run, t)
    ensures Runs(s, run', t)
  {
    run' := [step] + run;
    assert run'[1..] == run;
  }

  function OneRow(chain: seq<Version>, owner: Owner): map<Key, Row> {
    map[0 := Row(chain, chain, owner)]
  }

  function Elems(): map<Key, Elem> {
    map[0 := Elem(UPDATE, 7, 0, 7)]
  }

  // One entry, one writer w with the given program counter, and what it has committed.
  function Writing(w: TS, chain: seq<Version>, owner: Owner, tx: Tx, commits: map<TS, Entry>): State {
    State(map[0 := 7], OneRow(chain, owner), map[w := tx], commits)
  }

  function Loaded(): Version { Version(0, 0, 7, false) }

  function Seen(w: TS): Version { Version(w, 0, 7, false) }

  function Newer(w: TS): Version { Version(w, w, 7, false) }

  function Committed(w: TS): map<TS, Entry> { map[w := Entry(map[0 := 7], map[0 := 7])] }

  // A writer w between ts and the watermark commits before ts begins; ts then finds the loaded version and frees it.
  lemma WriterInBetween(ts: TS, w: TS) returns (s0: State, run: seq<Step>)
    requires 0 < ts < w
    ensures AboutToAccess(s0, run, ts, w, 0) && FreesFound(Exec(s0, run), ts, 0)
  {
    var t, tail := BeginReader(ts, w);
    run := Commit(w, t, tail);
    s0, run := Update(w, t, run);
    var chain := [Newer(w), Seen(w)];
    assert t.rows[0].chain == chain;
    VisibleUnique(chain, ts, 1);
    VisibleUnique(chain, w, 0);
  }

  lemma BeginReader(ts: TS, w: TS) returns (t: State, run: seq<Step>)
    requires 0 < ts < w
    ensures Runs(Writing(w, [Newer(w), Seen(w)], Free, Tx(Applying(1), Elems(), [0], 0), Committed(w)), run, t)
    ensures t.rows == OneRow([Newer(w), Seen(w)], Free) && ts in t.txs && t.txs[ts] == Tx(Running, map[], [], w)
  {
    var s := Writing(w, [Newer(w), Seen(w)], Free, Tx(Applying(1), Elems(), [0], 0), Committed(w));
    t := Apply(s, Begin(ts, w));
    assert Runs(t, [], t);
    run := Prepend(s, Begin(ts, w), t, t, []);
  }

  // The precommit of w.
  lemma Commit(w: TS, t: State, tail: seq<Step>) returns (run: seq<Step>)
    requires w > 0
    requires Runs(Writing(w, [Newer(w), Seen(w)], Free, Tx(Applying(1), Elems(), [0], 0), Committed(w)), tail, t)
    ensures Runs(Writing(w, [Seen(w)], Free, Tx(Running, Elems(), [0], 0), map[]), run, t)
  {
    run := InstallStep(w, t, tail);
    run := DecideStep(w, t, run);
    run := LockStep(w, t, run);
    run := StartStep(w, t, run);
  }

  lemma InstallStep(w: TS, t: State, tail: seq<Step>) returns (run: seq<Step>)
    requires w > 0
    requires Runs(Writing(w, [Newer(w), Seen(w)], Free, Tx(Applying(1), Elems(), [0], 0), Committed(w)), tail, t)
    ensures Runs(Writing(w, [Seen(w)], HeldBy(w), Tx(Applying(0), Elems(), [0], 0), Committed(w)), run, t)
  {
    var s := Writing(w, [Seen(w)], HeldBy(w), Tx(Applying(0), Elems(), [0], 0), Committed(w));
    var s' := Writing(w, [Newer(w), Seen(w)], Free, Tx(Applying(1), Elems(), [0], 0), Committed(w));
    var chain := [Newer(w), Seen(w)];
    assert [Newer(w)] + [Seen(w)] == chain;
    VisibleUnique(chain, 0, 1);
    assert Pruned(chain, 0) == chain;
    assert Apply(s, Install(w)).rows == s'.rows && Apply(s, Install(w)).txs == s'.txs;
    run := Prepend(s, Install(w), s', t, tail);
  }

  lemma DecideStep(w: TS, t: State, tail: seq<Step>) returns (run: seq<Step>)
    requires Runs(Writing(w, [Seen(w)], HeldBy(w), Tx(Applying(0), Elems(), [0], 0), Committed(w)), tail, t)
    ensures Runs(Writing(w, [Seen(w)], HeldBy(w), Tx(Locking(1), Elems(), [0], 0), map[]), run, t)
  {
    var s := Writing(w, [Seen(w)], HeldBy(w), Tx(Locking(1), Elems(), [0], 0), map[]);
    var s' := Writing(w, [Seen(w)], HeldBy(w), Tx(Applying(0), Elems(), [0], 0), Committed(w));
    assert Reads(s.txs[w]) == map[0 := 7];
    assert Writes(s.txs[w]) == map[0 := 7];
    assert Apply(s, Decide(w)).txs == s'.txs && Apply(s, Decide(w)).commits == s'.commits;
    run := Prepend(s, Decide(w), s', t, tail);
  }

  lemma LockStep(w: TS, t: State, tail: seq<Step>) returns (run: seq<Step>)
    requires Runs(Writing(w, [Seen(w)], HeldBy(w), Tx(Locking(1), Elems(), [0], 0), map[]), tail, t)
    ensures Runs(Writing(w, [Seen(w)], Free, Tx(Locking(0), Elems(), [0], 0), map[]), run, t)
  {
    var s := Writing(w, [Seen(w)], Free, Tx(Locking(0), Elems(), [0], 0), map[]);
    var s' := Writing(w, [Seen(w)], HeldBy(w), Tx(Locking(1), Elems(), [0], 0), map[]);
    assert Admits([Seen(w)], UPDATE, w);
    assert Apply(s, LockAndCheck(w)).rows == s'.rows && Apply(s, LockAndCheck(w)).txs == s'.txs;
    run := Prepend(s, LockAndCheck(w), s', t, tail);
  }

  lemma StartStep(w: TS, t: State, tail: seq<Step>) returns (run: seq<Step>)
    requires Runs(Writing(w, [Seen(w)], Free, Tx(Locking(0), Elems(), [0], 0), map[]), tail, t)
    ensures Runs(Writing(w, [Seen(w)], Free, Tx(Running, Elems(), [0], 0), map[]), run, t)
  {
    var s := Writing(w, [Seen(w)], Free, Tx(Running, Elems(), [0], 0), map[]);
    var s' := Writing(w, [Seen(w)], Free, Tx(Locking(0), Elems(), [0], 0), map[]);
    assert Apply(s, StartPrecommit(w, [0])).txs == s'.txs;
    run := Prepend(s, StartPrecommit(w, [0]), s', t, tail);
  }

  // w begins and updates the entry.
  lemma Update(w: TS, t: State, tail: seq<Step>) returns (s0: State, run: seq<Step>)
    requires w > 0 && Runs(Writing(w, [Seen(w)], Free, Tx(Running, Elems(), [0], 0), map[]), tail, t)
    ensures Init(s0) && Runs(s0, run, t)
  {
    s0 := State(map[0 := 7], OneRow([Loaded()], Free), map[], map[]);
    var s1 := Writing(w, [Loaded()], Free, Tx(Running, map[], [], 0), map[]);
    run := AccessStep(w, t, tail);
    run := Prepend(s0, Begin(w, 0), s1, t, run);
  }

  lemma AccessStep(w: TS, t: State, tail: seq<Step>) returns (run: seq<Step>)
    requires w > 0 && Runs(Writing(w, [Seen(w)], Free, Tx(Running, Elems(), [0], 0), map[]), tail, t)
    ensures Runs(Writing(w, [Loaded()], Free, Tx(Running, map[], [], 0), map[]), run, t)
  {
    var s := Writing(w, [Loaded()], Free, Tx(Running, map[], [], 0), map[]);
    var s' := Writing(w, [Seen(w)], Free, Tx(Running, Elems(), [0], 0), map[]);
    var step := Access(w, Op.Update, 0, 0);
    var chain := [Loaded()];
    VisibleUnique(chain, w, 0);
    VisibleUnique(chain, 0, 0);
    assert Pruned(chain, 0) == chain;
    assert WithReadTs(chain, 0, w) == [Seen(w)];
    assert Touched(s.rows[0], w, 0) == Row([Seen(w)], [Seen(w)], Free);
    assert Accessed(s.txs[w], w, Op.Update, 0, chain, 0) == Tx(Running, Elems(), [0], 0);
    assert Apply(s, step).rows == s'.rows && Apply(s, step).txs == s'.txs;
    run := Prepend(s, step, s', t, tail);
  }
}
