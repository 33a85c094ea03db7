/** Every run of an execution phase reads and writes what running the transactions one by one would, never gets stuck
    and ends. */
module ExecutionProof {
  import opened DivMod
  import opened SortedSlots
  import opened Execution

  // ----- Dealing out the transactions -----

  ghost function OwnerOf(e: Epoch, t: nat): nat {
    t % e.width
  }

  ghost function RoundOf(e: Epoch, t: nat): nat {
    t / e.width
  }

  lemma SerialParts(e: Epoch, i: nat, w: nat)
    requires w < e.width
    ensures OwnerOf(e, Serial(e, i, w)) == w && RoundOf(e, Serial(e, i, w)) == i
  {
    DivUnique(i * e.width + w, e.width, i, w);
  }

  lemma SerialOf(e: Epoch, t: nat)
    requires EpochOk(e) && t < |e.txs|
    ensures OwnerOf(e, t) < e.width && RoundOf(e, t) < Rounds(e) && Serial(e, RoundOf(e, t), OwnerOf(e, t)) == t
  {
    var n, d := |e.txs|, e.width;
    assert n == (n / d) * d;
    if t / d >= n / d {
      assert (t / d) * d >= (n / d) * d;
    }
  }

  // ----- The invariant -----

  ghost predicate Executed(e: Epoch, s: State, t: nat, r: nat)
    requires t < |e.txs| && |s.workers| == e.width
  {
    var x := s.workers[OwnerOf(e, t)];
    RoundOf(e, t) < x.i || (RoundOf(e, t) == x.i && FirstUpdate(e.txs[t], r) < x.j)
  }

  ghost predicate WorkerOk(e: Epoch, s: State, w: nat)
    requires EpochOk(e) && w < |s.workers|
  {
    var x := s.workers[w];
    && x.i <= Rounds(e)
    && (x.i == Rounds(e) ==> x.j == 0)
    && (Running(e, s, w) ==>
          var t := Current(e, s, w); x.j <= |e.txs[t]| && x.got == ReadsIn(SerialDb(e, t), e.txs[t], x.j))
  }

  ghost predicate CellOk(e: Epoch, s: State, r: nat, t: nat)
    requires EpochOk(e) && |s.workers| == e.width && Writes(e, t, r)
  {
    && (e.mine(r, t) in s.vals <==> Executed(e, s, t, r))
    && (e.mine(r, t) in s.vals ==> s.vals[e.mine(r, t)] == SerialWrite(e, t, r))
  }

  ghost predicate DoneOk(e: Epoch, s: State, t: nat)
    requires EpochOk(e) && t < |e.txs| && |s.workers| == e.width
  {
    && (t in s.done <==> RoundOf(e, t) < s.workers[OwnerOf(e, t)].i)
    && (t in s.done ==> s.done[t] == ReadsIn(SerialDb(e, t), e.txs[t], |e.txs[t]|))
  }

  ghost predicate Inv(e: Epoch, s: State, vals0: map<VersionId, Val>) {
    && EpochOk(e) && LinksOk(e, vals0) && |s.workers| == e.width
    && (forall w {:trigger WorkerOk(e, s, w)} :: 0 <= w < |s.workers| ==> WorkerOk(e, s, w))
    && (forall r, t {:trigger CellOk(e, s, r, t)} :: 0 <= r < |e.base| && 0 <= t && Writes(e, t, r) ==>
          CellOk(e, s, r, t))
    && (forall t {:trigger DoneOk(e, s, t)} :: 0 <= t < |e.txs| ==> DoneOk(e, s, t))
    && (forall v :: v in vals0 ==> v in s.vals && s.vals[v] == vals0[v])
  }

  // The value that a read finds is the serial one.
  lemma ReadIsSerial(e: Epoch, s: State, vals0: map<VersionId, Val>, r: nat, t: nat)
    requires Inv(e, s, vals0) && r < |e.base| && t < |e.txs| && e.look(r, t) in s.vals
    ensures s.vals[e.look(r, t)] == SerialDb(e, t)[r]
  {
    SerialIsVisible(e, r, t);
    assert LookOk(e, vals0, r, t);
    var v := Visible(e, r, t);
    if v >= 0 {
      assert CellOk(e, s, r, v);
    }
  }

  lemma OpRow(e: Epoch, t: nat, j: nat)
    requires EpochOk(e) && t < |e.txs| && j < |e.txs[t]|
    ensures e.txs[t][j].row < |e.base|
  {
    assert e.txs[t][j] in e.txs[t];
  }

  lemma WorkersKeep(e: Epoch, s: State, vals0: map<VersionId, Val>, w: nat, v: nat, s': State)
    requires Inv(e, s, vals0) && Enabled(e, s, w) && v < |s.workers| && s' == Apply(e, s, w)
    ensures WorkerOk(e, s', v)
  {
    assert WorkerOk(e, s, v);
    if v == w {
      var x, t := s.workers[w], Current(e, s, w);
      if x.j < |e.txs[t]| {
        OpRow(e, t, x.j);
        if e.txs[t][x.j].Read? {
          ReadIsSerial(e, s, vals0, e.txs[t][x.j].row, t);
        }
      }
    }
  }

  lemma CellsKeep(e: Epoch, s: State, vals0: map<VersionId, Val>, w: nat, r: nat, t: nat, s': State)
    requires Inv(e, s, vals0) && Enabled(e, s, w) && r < |e.base| && Writes(e, t, r) && s' == Apply(e, s, w)
    ensures CellOk(e, s', r, t)
  {
    assert CellOk(e, s, r, t) && WorkerOk(e, s, w);
    var x, c := s.workers[w], Current(e, s, w);
    SerialParts(e, x.i, w);
    SerialOf(e, t);
    if x.j < |e.txs[c]| && e.txs[c][x.j].Update? {
      var q := e.txs[c][x.j].row;
      OpRow(e, c, x.j);
      assert Writes(e, c, q);
      assert e.mine(r, t) == e.mine(q, c) ==> r == q && t == c;
    }
  }

  lemma DonesKeep(e: Epoch, s: State, vals0: map<VersionId, Val>, w: nat, t: nat, s': State)
    requires Inv(e, s, vals0) && Enabled(e, s, w) && t < |e.txs| && s' == Apply(e, s, w)
    ensures DoneOk(e, s', t)
  {
    assert DoneOk(e, s, t) && WorkerOk(e, s, w);
    SerialParts(e, s.workers[w].i, w);
    SerialOf(e, t);
  }

  lemma BaseKeeps(e: Epoch, s: State, vals0: map<VersionId, Val>, w: nat, v: VersionId, s': State)
    requires Inv(e, s, vals0) && Enabled(e, s, w) && v in vals0 && s' == Apply(e, s, w)
    ensures v in s'.vals && s'.vals[v] == vals0[v]
  {
    var x, c := s.workers[w], Current(e, s, w);
    if x.j < |e.txs[c]| && e.txs[c][x.j].Update? {
      OpRow(e, c, x.j);
      assert Writes(e, c, e.txs[c][x.j].row);
    }
  }

  lemma StepKeeps(e: Epoch, s: State, vals0: map<VersionId, Val>, w: nat)
    requires Inv(e, s, vals0) && Enabled(e, s, w)
    ensures Inv(e, Apply(e, s, w), vals0)
  {
    var s' := Apply(e, s, w);
    forall v | 0 <= v < |s'.workers| ensures WorkerOk(e, s', v) { WorkersKeep(e, s, vals0, w, v, s'); }
    forall r, t | 0 <= r < |e.base| && 0 <= t && Writes(e, t, r) ensures CellOk(e, s', r, t) {
      CellsKeep(e, s, vals0, w, r, t, s');
    }
    forall t | 0 <= t < |e.txs| ensures DoneOk(e, s', t) { DonesKeep(e, s, vals0, w, t, s'); }
    forall v | v in vals0 ensures v in s'.vals && s'.vals[v] == vals0[v] { BaseKeeps(e, s, vals0, w, v, s'); }
  }

  lemma {:induction false} RunKeeps(e: Epoch, s: State, vals0: map<VersionId, Val>, steps: seq<nat>)
    requires Inv(e, s, vals0) && IsRun(e, s, steps)
    ensures Inv(e, Exec(e, s, steps), vals0)
    decreases |steps|
  {
    if steps != [] {
      StepKeeps(e, s, vals0, steps[0]);
      RunKeeps(e, Apply(e, s, steps[0]), vals0, steps[1..]);
    }
  }

  lemma StartInv(e: Epoch, s: State)
    requires Init(e, s)
    ensures Inv(e, s, s.vals)
  {
    forall w | 0 <= w < |s.workers| ensures WorkerOk(e, s, w) { }
    forall r, t | 0 <= r < |e.base| && 0 <= t && Writes(e, t, r) ensures CellOk(e, s, r, t) { SerialOf(e, t); }
    forall t | 0 <= t < |e.txs| ensures DoneOk(e, s, t) { SerialOf(e, t); }
  }

  // ----- The theorems -----

  // In every interleaving, what any transaction has read so far is what it reads when the transactions run one by one.
  lemma ReadsAreSerial(e: Epoch, s: State, steps: seq<nat>, w: nat)
    requires Init(e, s) && IsRun(e, s, steps) && w < e.width
    ensures var s' := Exec(e, s, steps);
            && (forall t :: t in s'.done && 0 <= t < |e.txs| ==>
                  s'.done[t] == ReadsIn(SerialDb(e, t), e.txs[t], |e.txs[t]|))
            && (Running(e, s', w) ==>
                  var t := Current(e, s', w);
                  s'.workers[w].j <= |e.txs[t]|
                    && s'.workers[w].got == ReadsIn(SerialDb(e, t), e.txs[t], s'.workers[w].j))
  {
    StartInv(e, s);
    RunKeeps(e, s, s.vals, steps);
    var s' := Exec(e, s, steps);
    assert WorkerOk(e, s', w);
    forall t | t in s'.done && 0 <= t < |e.txs| ensures s'.done[t] == ReadsIn(SerialDb(e, t), e.txs[t], |e.txs[t]|) {
      assert DoneOk(e, s', t);
    }
  }

  // When all are done, every transaction has run, and the last version of every row is the record that running the
  // transactions one by one leaves.
  lemma EndIsSerial(e: Epoch, s: State, steps: seq<nat>, r: nat)
    requires Init(e, s) && IsRun(e, s, steps) && Finished(e, Exec(e, s, steps)) && r < |e.base|
    ensures forall t :: 0 <= t < |e.txs| ==> t in Exec(e, s, steps).done
    ensures var s', v := Exec(e, s, steps), Visible(e, r, |e.txs|);
            SerialDb(e, |e.txs|)[r] == if v < 0 then e.base[r]
              else if e.mine(r, v) in s'.vals then s'.vals[e.mine(r, v)] else 0
    ensures forall t :: 0 <= t && Writes(e, t, r) ==> e.mine(r, t) in Exec(e, s, steps).vals
    ensures forall v :: v in s.vals ==> v in Exec(e, s, steps).vals && Exec(e, s, steps).vals[v] == s.vals[v]
  {
    StartInv(e, s);
    RunKeeps(e, s, s.vals, steps);
    SerialIsVisible(e, r, |e.txs|);
    var s' := Exec(e, s, steps);
    forall t | 0 <= t < |e.txs| ensures t in s'.done {
      SerialOf(e, t);
      assert DoneOk(e, s', t);
    }
    forall t | 0 <= t && Writes(e, t, r)
      ensures e.mine(r, t) in s'.vals && s'.vals[e.mine(r, t)] == SerialWrite(e, t, r)
    {
      SerialOf(e, t);
      assert CellOk(e, s', r, t);
    }
  }

  // Only pending versions of the epoch become stable.
  lemma {:induction false} OnlyMine(e: Epoch, s: State, steps: seq<nat>, v: VersionId)
    requires EpochOk(e) && IsRun(e, s, steps) && v in Exec(e, s, steps).vals && v !in s.vals
    ensures exists r, t :: 0 <= r < |e.base| && 0 <= t && Writes(e, t, r) && e.mine(r, t) == v
    decreases |steps|
  {
    var w := steps[0];
    var s' := Apply(e, s, w);
    if v in s'.vals {
      var c := Current(e, s, w);
      OpRow(e, c, s.workers[w].j);
      var r := e.txs[c][s.workers[w].j].row;
      assert Writes(e, c, r) && e.mine(r, c) == v;
    } else {
      OnlyMine(e, s', steps[1..], v);
    }
  }

  // A read that has to wait waits for a transaction with a smaller serial id, which writes the row and is unfinished.
  lemma WaitsGoDown(e: Epoch, s: State, steps: seq<nat>, w: nat)
    requires Init(e, s) && IsRun(e, s, steps)
    requires var s' := Exec(e, s, steps); Running(e, s', w) && !Enabled(e, s', w)
    ensures var s' := Exec(e, s, steps);
            var t := Current(e, s', w);
            && s'.workers[w].j < |e.txs[t]| && e.txs[t][s'.workers[w].j].Read?
            && var u := Visible(e, e.txs[t][s'.workers[w].j].row, t); 0 <= u < t && u !in s'.done
  {
    StartInv(e, s);
    RunKeeps(e, s, s.vals, steps);
    var u := Blocked(e, Exec(e, s, steps), s.vals, w);
  }

  lemma Blocked(e: Epoch, s: State, vals0: map<VersionId, Val>, w: nat) returns (u: nat)
    requires Inv(e, s, vals0) && Running(e, s, w) && !Enabled(e, s, w)
    ensures var t := Current(e, s, w);
            && s.workers[w].j < |e.txs[t]| && e.txs[t][s.workers[w].j].Read?
            && u == Visible(e, e.txs[t][s.workers[w].j].row, t) && u < t && u !in s.done
  {
    var t, x := Current(e, s, w), s.workers[w];
    var r := e.txs[t][x.j].row;
    OpRow(e, t, x.j);
    assert LookOk(e, vals0, r, t);
    u := Visible(e, r, t);
    assert CellOk(e, s, r, u) && DoneOk(e, s, u);
  }

  // Nobody waits for ever: the unfinished worker with the smallest current serial id can step.
  lemma SomeoneCanStep(e: Epoch, s: State, steps: seq<nat>)
    requires Init(e, s) && IsRun(e, s, steps) && !Finished(e, Exec(e, s, steps))
    ensures exists w :: Enabled(e, Exec(e, s, steps), w)
  {
    StartInv(e, s);
    RunKeeps(e, s, s.vals, steps);
    var s' := Exec(e, s, steps);
    var w :| 0 <= w < |s'.workers| && s'.workers[w].i != Rounds(e);
    assert WorkerOk(e, s', w);
    SerialInRange(e, s'.workers[w].i, w);
    var v := Runnable(e, s', s.vals, w);
  }

  // A worker that has not finished its transaction u is at u or at an earlier one of its own.
  lemma NotPast(e: Epoch, k: nat, u: nat)
    requires EpochOk(e) && u < |e.txs| && k <= RoundOf(e, u)
    ensures k < Rounds(e) && Serial(e, k, OwnerOf(e, u)) <= u
  {
    SerialOf(e, u);
    MulGrows(k, RoundOf(e, u), e.width);
  }

  lemma {:induction false} Runnable(e: Epoch, s: State, vals0: map<VersionId, Val>, w: nat) returns (v: nat)
    requires Inv(e, s, vals0) && Running(e, s, w)
    ensures Enabled(e, s, v)
    decreases Current(e, s, w)
  {
    if Enabled(e, s, w) {
      v := w;
    } else {
      var u := Blocked(e, s, vals0, w);
      SerialOf(e, u);
      var o := OwnerOf(e, u);
      assert DoneOk(e, s, u) && WorkerOk(e, s, o);
      NotPast(e, s.workers[o].i, u);
      v := Runnable(e, s, vals0, o);
    }
  }

  // ----- The phase ends -----

  // The operations that worker w still has to run, with one more for the end of each transaction.
  ghost function WorkLeft(e: Epoch, x: Worker, w: nat): int
    decreases Rounds(e) - x.i
  {
    if x.i >= Rounds(e) || Serial(e, x.i, w) >= |e.txs| then 0
    else |e.txs[Serial(e, x.i, w)]| + 1 - x.j + WorkLeft(e, Worker(x.i + 1, 0, []), w)
  }

  ghost function TotalLeft(e: Epoch, workers: seq<Worker>): int {
    if workers == [] then 0
    else TotalLeft(e, workers[..|workers| - 1]) + WorkLeft(e, workers[|workers| - 1], |workers| - 1)
  }

  lemma {:induction false} TotalUpdate(e: Epoch, workers: seq<Worker>, w: nat, x: Worker)
    requires w < |workers| && WorkLeft(e, x, w) == WorkLeft(e, workers[w], w) - 1
    ensures TotalLeft(e, workers[w := x]) == TotalLeft(e, workers) - 1
  {
    var front, n := workers[..|workers| - 1], |workers| - 1;
    if w < n {
      TotalUpdate(e, front, w, x);
      assert workers[w := x][..n] == front[w := x];
    } else {
      assert workers[w := x][..n] == front;
    }
  }

  lemma WorkStep(e: Epoch, s: State, vals0: map<VersionId, Val>, w: nat)
    requires Inv(e, s, vals0) && Enabled(e, s, w)
    ensures TotalLeft(e, Apply(e, s, w).workers) == TotalLeft(e, s.workers) - 1
  {
    assert WorkerOk(e, s, w);
    var x' := Apply(e, s, w).workers[w];
    WorkIgnoresReads(e, x', w);
    WorkIgnoresReads(e, s.workers[w], w);
    assert Apply(e, s, w).workers == s.workers[w := x'];
    TotalUpdate(e, s.workers, w, x');
  }

  lemma WorkIgnoresReads(e: Epoch, x: Worker, w: nat)
    ensures WorkLeft(e, x, w) == WorkLeft(e, x.(got := []), w)
  {
  }

  // Every step of every schedule takes one operation, so no run is longer than the work there is.
  lemma {:induction false} RunLength(e: Epoch, s: State, vals0: map<VersionId, Val>, steps: seq<nat>)
    requires Inv(e, s, vals0) && IsRun(e, s, steps)
    ensures TotalLeft(e, Exec(e, s, steps).workers) == TotalLeft(e, s.workers) - |steps|
    decreases |steps|
  {
    if steps != [] {
      WorkStep(e, s, vals0, steps[0]);
      StepKeeps(e, s, vals0, steps[0]);
      RunLength(e, Apply(e, s, steps[0]), vals0, steps[1..]);
    }
  }

  lemma {:induction false} LeftIsPositive(e: Epoch, s: State, vals0: map<VersionId, Val>, n: nat)
    requires Inv(e, s, vals0) && n <= |s.workers|
    ensures TotalLeft(e, s.workers[..n]) >= 0
  {
    if n > 0 {
      assert s.workers[..n][..n - 1] == s.workers[..n - 1];
      LeftIsPositive(e, s, vals0, n - 1);
      assert WorkerOk(e, s, n - 1);
      LaterWork(e, Worker(s.workers[n - 1].i + 1, 0, []), n - 1);
    }
  }

  lemma {:induction false} LaterWork(e: Epoch, x: Worker, w: nat)
    requires x.j == 0
    ensures WorkLeft(e, x, w) >= 0
    decreases Rounds(e) - x.i
  {
    if x.i < Rounds(e) && Serial(e, x.i, w) < |e.txs| {
      LaterWork(e, Worker(x.i + 1, 0, []), w);
    }
  }

  lemma RunsEnd(e: Epoch, s: State, steps: seq<nat>)
    requires Init(e, s) && IsRun(e, s, steps)
    ensures |steps| <= TotalLeft(e, s.workers)
  {
    StartInv(e, s);
    RunLength(e, s, s.vals, steps);
    RunKeeps(e, s, s.vals, steps);
    var s' := Exec(e, s, steps);
    LeftIsPositive(e, s', s.vals, |s'.workers|);
    assert s'.workers[..|s'.workers|] == s'.workers;
  }
}
