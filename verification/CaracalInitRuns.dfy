/** Every run of Caracal's initialization phase: the invariant over all rows and workers, and what the phase ends with.
    */
module CaracalInitRuns {
  import opened SortedSlots
  import opened CaracalArray
  import opened CaracalInit
  import opened CaracalInitProof

  // The items whose versions exist.
  ghost function Emitted(x: Worker): nat {
    x.pos + if x.pc.Full? || x.pc.Flushing? then 1 else 0
  }

  ghost predicate SentBy(s: State, w: nat, i: nat, r: nat, id: int) {
    && w < |s.workers| && i < Emitted(s.workers[w]) && i < |s.workers[w].todo|
    && s.workers[w].todo[i].row == r && id == GlobalId(s.epoch, s.workers[w].todo[i].serial)
  }

  ghost predicate Sent(s: State, r: nat, id: int) {
    exists w, i :: SentBy(s, w, i, r, id)
  }

  // w is in the middle of a flush of its buffer in row r.
  ghost predicate Overflows(s: State, w: nat, r: nat)
    requires w < |s.workers|
  {
    (s.workers[w].pc.Full? || s.workers[w].pc.Flushing?) && s.workers[w].pos < |s.workers[w].todo| && Cur(s, w).row == r
  }

  ghost predicate WorkerOk(s: State, w: nat)
    requires w < |s.workers|
  {
    var x := s.workers[w];
    && x.pos <= |x.todo|
    && (!x.pc.Idle? && !x.pc.FinalFlush? ==> x.pos < |x.todo|)
    && (x.pc.FinalFlush? ==> x.pos == |x.todo| && x.pc.row < |s.rows| && x.pc.row in x.appended)
    && (forall r :: r in x.appended ==> r < |s.rows|)
  }

  ghost predicate BufOk(s: State, w: nat, r: nat)
    requires w < |s.workers| && r < |s.rows|
  {
    && |s.rows[r].buffers| == |s.workers|
    && (|s.rows[r].buffers[w]| < s.maxSlots || Overflows(s, w, r))
    && (s.rows[r].buffers[w] == [] || r in s.workers[w].appended || Overflows(s, w, r))
  }

  ghost predicate Holds(s: State, w: nat, r: nat)
    requires w < |s.workers|
  {
    var x := s.workers[w];
    (x.pc.FinalFlush? && x.pc.row == r)
    || ((x.pc.HasLock? || x.pc.Flushing?) && x.pos < |x.todo| && Cur(s, w).row == r)
  }

  ghost predicate LockOk(s: State, r: nat)
    requires r < |s.rows|
  {
    s.rows[r].lock.Free? || (s.rows[r].lock.w < |s.workers| && Holds(s, s.rows[r].lock.w, r))
  }

  ghost predicate RowFine(s: State, r: nat)
    requires r < |s.rows|
  {
    RowOk(s.rows[r].arr, s.rows[r].buffers, s.rows[r].orig, s.rows[r].made, First(s))
  }

  // The row's versions are those of items sent, allocated in this epoch.
  ghost predicate MadeFrom(s: State, r: nat)
    requires r < |s.rows|
  {
    forall x :: x in s.rows[r].made ==> Sent(s, r, x.id) && s.base <= x.ver < s.next
  }

  ghost predicate MadeFor(s: State, w: nat, i: nat)
    requires w < |s.workers| && i < |s.workers[w].todo|
  {
    s.workers[w].todo[i].row < |s.rows|
    && (i < Emitted(s.workers[w]) ==>
          HasId(s.rows[s.workers[w].todo[i].row].made, GlobalId(s.epoch, s.workers[w].todo[i].serial)))
  }

  ghost predicate Apart(s: State, r: nat, q: nat)
    requires r < |s.rows| && q < |s.rows|
  {
    forall x, y :: x in s.rows[r].made && y in s.rows[q].made && x.ver == y.ver ==> r == q && x == y
  }

  ghost predicate Inv(s: State) {
    && ItemsOk(s) && s.base <= s.next
    && (forall w {:trigger WorkerOk(s, w)} :: 0 <= w < |s.workers| ==> WorkerOk(s, w))
    && (forall r {:trigger RowFine(s, r)} :: 0 <= r < |s.rows| ==> RowFine(s, r))
    && (forall r {:trigger LockOk(s, r)} :: 0 <= r < |s.rows| ==> LockOk(s, r))
    && (forall r {:trigger MadeFrom(s, r)} :: 0 <= r < |s.rows| ==> MadeFrom(s, r))
    && (forall w, r {:trigger BufOk(s, w, r)} :: 0 <= w < |s.workers| && 0 <= r < |s.rows| ==> BufOk(s, w, r))
    && (forall w, i {:trigger MadeFor(s, w, i)} :: 0 <= w < |s.workers| && 0 <= i < |s.workers[w].todo| ==>
          MadeFor(s, w, i))
    && (forall r, q {:trigger Apart(s, r, q)} :: 0 <= r < |s.rows| && 0 <= q < |s.rows| ==> Apart(s, r, q))
  }

  // The version about to be made is new to its row.
  lemma FreshId(s: State, w: nat)
    requires Inv(s) && Busy(s, w) && (s.workers[w].pc.HasLock? || s.workers[w].pc.Buffering?)
    ensures !HasId(CurRow(s, w).made, CurSlot(s, w).id) && First(s) <= CurSlot(s, w).id
  {
    var r, id := Cur(s, w).row, CurSlot(s, w).id;
    assert MadeFrom(s, r);
    forall x | x in s.rows[r].made ensures x.id != id {
      var v, i :| SentBy(s, v, i, r, x.id);
      NotSentYet(s, w, v, i);
    }
  }

  lemma NotSentYet(s: State, w: nat, v: nat, i: nat)
    requires ItemsOk(s) && Busy(s, w) && (s.workers[w].pc.HasLock? || s.workers[w].pc.Buffering?)
    requires v < |s.workers| && i < Emitted(s.workers[v]) && i < |s.workers[v].todo|
    requires s.workers[v].todo[i].row == Cur(s, w).row
    ensures GlobalId(s.epoch, s.workers[v].todo[i].serial) != GlobalId(s.epoch, Cur(s, w).serial)
  {
    assert s.workers[v].todo[i] != Cur(s, w);
    GlobalIdParts(s.epoch, s.workers[v].todo[i].serial, s.epoch, Cur(s, w).serial);
    GlobalIdParts(s.epoch, Cur(s, w).serial, s.epoch, s.workers[v].todo[i].serial);
  }

  lemma RowsKeep(s: State, step: Step, r: nat)
    requires Inv(s) && Enabled(s, step) && r < |s.rows|
    ensures RowFine(Apply(s, step), r)
  {
    assert RowFine(s, r);
    var row := s.rows[r];
    match step
    case AppendUnlock(w) =>
      if Cur(s, w).row == r {
        FreshId(s, w);
        RowAppend(row.arr, row.buffers, row.orig, row.made, First(s), CurSlot(s, w));
      }
    case Insert(w) =>
      if Cur(s, w).row == r {
        FreshId(s, w);
        RowInsert(row.arr, row.buffers, row.orig, row.made, First(s), w, CurSlot(s, w));
      }
    case FlushUnlock(w) =>
      if Cur(s, w).row == r {
        RowFlush(row.arr, row.buffers, row.orig, row.made, First(s), w);
      }
    case FinalUnlock(w) =>
      if s.workers[w].pc.row == r {
        RowFlush(row.arr, row.buffers, row.orig, row.made, First(s), w);
      }
    case _ =>
  }

  lemma WorkersKeep(s: State, step: Step, w: nat)
    requires Inv(s) && Enabled(s, step) && w < |s.workers|
    ensures WorkerOk(Apply(s, step), w)
  {
    assert WorkerOk(s, w);
  }

  lemma BufsKeep(s: State, step: Step, w: nat, r: nat)
    requires Inv(s) && Enabled(s, step) && w < |s.workers| && r < |s.rows|
    ensures BufOk(Apply(s, step), w, r)
  {
    assert BufOk(s, w, r);
    assert BufOk(s, step.w, r);
  }

  lemma LocksKeep(s: State, step: Step, r: nat)
    requires Inv(s) && Enabled(s, step) && r < |s.rows|
    ensures LockOk(Apply(s, step), r)
  {
    assert LockOk(s, r);
    assert WorkerOk(s, step.w);
  }

  // Emission only grows.
  lemma SentKeeps(s: State, step: Step, w: nat, i: nat, r: nat, id: int)
    requires Inv(s) && Enabled(s, step) && SentBy(s, w, i, r, id)
    ensures SentBy(Apply(s, step), w, i, r, id)
  {
    assert WorkerOk(s, w);
  }

  lemma MadeFromKeeps(s: State, step: Step, r: nat)
    requires Inv(s) && Enabled(s, step) && r < |s.rows|
    ensures MadeFrom(Apply(s, step), r)
  {
    var s' := Apply(s, step);
    assert MadeFrom(s, r);
    forall x | x in s'.rows[r].made ensures Sent(s', r, x.id) && s'.base <= x.ver < s'.next {
      if x in s.rows[r].made {
        var w, i :| SentBy(s, w, i, r, x.id);
        SentKeeps(s, step, w, i, r, x.id);
      } else {
        assert SentBy(s', step.w, s.workers[step.w].pos, r, x.id);
      }
    }
  }

  lemma MadeForKeeps(s: State, step: Step, w: nat, i: nat)
    requires Inv(s) && Enabled(s, step) && w < |s.workers| && i < |s.workers[w].todo|
    ensures MadeFor(Apply(s, step), w, i)
  {
    assert MadeFor(s, w, i) && WorkerOk(s, w);
    var s' := Apply(s, step);
    var r, id := s.workers[w].todo[i].row, GlobalId(s.epoch, s.workers[w].todo[i].serial);
    assert s.rows[r].made <= s'.rows[r].made;
    if i < Emitted(s.workers[w]) {
      var x :| x in s.rows[r].made && x.id == id;
      assert x in s'.rows[r].made;
    } else if i < Emitted(s'.workers[w]) {
      assert CurSlot(s, w) in s'.rows[r].made;
    }
  }

  lemma ApartKeeps(s: State, step: Step, r: nat, q: nat)
    requires Inv(s) && Enabled(s, step) && r < |s.rows| && q < |s.rows|
    ensures Apart(Apply(s, step), r, q)
  {
    assert Apart(s, r, q) && MadeFrom(s, r) && MadeFrom(s, q);
  }

  lemma StepKeeps(s: State, step: Step)
    requires Inv(s) && Enabled(s, step)
    ensures Inv(Apply(s, step))
  {
    var s' := Apply(s, step);
    forall w | 0 <= w < |s'.workers| ensures WorkerOk(s', w) { WorkersKeep(s, step, w); }
    forall r | 0 <= r < |s'.rows| ensures RowFine(s', r) { RowsKeep(s, step, r); }
    forall r | 0 <= r < |s'.rows| ensures LockOk(s', r) { LocksKeep(s, step, r); }
    forall r | 0 <= r < |s'.rows| ensures MadeFrom(s', r) { MadeFromKeeps(s, step, r); }
    forall w, r | 0 <= w < |s'.workers| && 0 <= r < |s'.rows| ensures BufOk(s', w, r) { BufsKeep(s, step, w, r); }
    forall w, i | 0 <= w < |s'.workers| && 0 <= i < |s'.workers[w].todo| ensures MadeFor(s', w, i) {
      MadeForKeeps(s, step, w, i);
    }
    forall r, q | 0 <= r < |s'.rows| && 0 <= q < |s'.rows| ensures Apart(s', r, q) { ApartKeeps(s, step, r, q); }
    ItemsKeep(s, s');
  }

  lemma ItemsKeep(s: State, s': State)
    requires ItemsOk(s) && |s'.rows| == |s.rows| && |s'.workers| == |s.workers|
    requires forall w :: 0 <= w < |s.workers| ==> s'.workers[w].todo == s.workers[w].todo
    ensures ItemsOk(s')
  {
  }

  // ----- Runs -----

  // What no step changes.
  ghost predicate Same(s: State, s': State) {
    && s'.epoch == s.epoch && s'.base == s.base && s'.maxSlots == s.maxSlots
    && |s'.rows| == |s.rows| && |s'.workers| == |s.workers|
    && (forall w :: 0 <= w < |s.workers| ==> s'.workers[w].todo == s.workers[w].todo)
    && (forall r :: 0 <= r < |s.rows| ==> s'.rows[r].orig == s.rows[r].orig)
  }

  lemma {:induction false} RunKeeps(s: State, steps: seq<Step>)
    requires Inv(s) && IsRun(s, steps)
    ensures Inv(Exec(s, steps)) && Same(s, Exec(s, steps))
    decreases |steps|
  {
    if steps != [] {
      StepKeeps(s, steps[0]);
      StepSame(s, steps[0], Apply(s, steps[0]));
      RunKeeps(Apply(s, steps[0]), steps[1..]);
    }
  }

  lemma StepSame(s: State, step: Step, s': State)
    requires Enabled(s, step) && s' == Apply(s, step)
    ensures Same(s, s')
  {
  }

  lemma StartRow(s: State, r: nat)
    requires Init(s) && r < |s.rows|
    ensures RowFine(s, r) && LockOk(s, r) && MadeFrom(s, r)
    ensures forall w :: 0 <= w < |s.workers| ==> BufOk(s, w, r)
  {
    var row, cur := s.rows[r], First(s);
    assert RowStarts(row, cur, |s.workers|);
    SplitUnique(row.arr, cur, row.arr, []);
    forall x ensures !Held(NewSet(row.arr, cur), Sets(row.buffers), x) {
      forall c | 0 <= c < |row.buffers| ensures x !in Sets(row.buffers)[c] {
        assert Sets(row.buffers)[c] == Contents([]);
      }
    }
    assert Placed(NewSet(row.arr, cur), Sets(row.buffers), row.made, cur);
  }

  lemma StartInv(s: State)
    requires Init(s)
    ensures Inv(s)
  {
    forall r | 0 <= r < |s.rows| ensures RowFine(s, r) && LockOk(s, r) && MadeFrom(s, r) { StartRow(s, r); }
    forall w, r | 0 <= w < |s.workers| && 0 <= r < |s.rows| ensures BufOk(s, w, r) { StartRow(s, r); }
    forall r, q | 0 <= r < |s.rows| && 0 <= q < |s.rows| ensures Apart(s, r, q) {
      assert RowStarts(s.rows[r], First(s), |s.workers|);
    }
    forall w | 0 <= w < |s.workers| ensures WorkerOk(s, w) { }
  }

  // Some transaction of the epoch writes the row with this global id.
  ghost predicate WritesRow(s: State, r: nat, id: int) {
    exists w, i :: IsWrite(s, w, i, r, id)
  }

  ghost predicate IsWrite(s: State, w: nat, i: nat, r: nat, id: int) {
    && 0 <= w < |s.workers| && 0 <= i < |s.workers[w].todo|
    && s.workers[w].todo[i].row == r && id == GlobalId(s.epoch, s.workers[w].todo[i].serial)
  }

  // The row at the end of the phase: the versions of the epoch, one for each transaction that writes the row, in the
  // order of their ids, behind one version of the past; or the array untouched if none does. No buffer keeps anything.
  ghost predicate RowEnds(s: State, row: Row, r: nat)
    requires r < |s.rows|
  {
    && Ascending(row.arr)
    && row.arr == (if row.made == {} then s.rows[r].arr else Last(s.rows[r].arr) + Newer(row.arr, First(s)))
    && Contents(Newer(row.arr, First(s))) == row.made
    && (forall id :: HasId(row.made, id) <==> WritesRow(s, r, id))
    && (forall x, y :: x in row.made && y in row.made && x.id == y.id ==> x == y)
    && (forall x :: x in row.made ==> s.base <= x.ver)
    && row.lock.Free? && |row.buffers| == |s.workers| && forall c :: 0 <= c < |row.buffers| ==> row.buffers[c] == []
  }

  lemma PhaseEnds(s: State, steps: seq<Step>, r: nat)
    requires Init(s) && IsRun(s, steps) && Finished(Exec(s, steps)) && r < |s.rows|
    ensures r < |Exec(s, steps).rows| && RowEnds(s, Exec(s, steps).rows[r], r)
  {
    StartInv(s);
    RunKeeps(s, steps);
    RunBuffers(s, steps, r);
    var t := Exec(s, steps);
    assert RowStarts(s.rows[r], First(s), |s.workers|);
    BuffersEmpty(t, r);
    IdsExact(s, t, r);
    assert RowFine(t, r) && MadeFrom(t, r);
    AllInArray(t.rows[r].arr, t.rows[r].buffers, t.rows[r].orig, t.rows[r].made, First(t));
  }

  // Versions are allocated once.
  lemma PhaseAllocates(s: State, steps: seq<Step>, r: nat, q: nat)
    requires Init(s) && IsRun(s, steps) && r < |s.rows| && q < |s.rows|
    ensures var t := Exec(s, steps);
            && |t.rows| == |s.rows| && s.next <= t.next
            && (forall x :: x in t.rows[r].made ==> s.next <= x.ver < t.next)
            && (forall x, y :: x in t.rows[r].made && y in t.rows[q].made && x.ver == y.ver ==> r == q && x == y)
  {
    StartInv(s);
    RunKeeps(s, steps);
    var t := Exec(s, steps);
    assert MadeFrom(t, r) && Apart(t, r, q);
  }

  lemma BuffersEmpty(t: State, r: nat)
    requires Inv(t) && Finished(t) && r < |t.rows| && |t.rows[r].buffers| == |t.workers|
    ensures t.rows[r].lock.Free? && forall c :: 0 <= c < |t.rows[r].buffers| ==> t.rows[r].buffers[c] == []
  {
    assert LockOk(t, r);
    forall c | 0 <= c < |t.rows[r].buffers| ensures t.rows[r].buffers[c] == [] { assert BufOk(t, c, r); }
  }

  lemma AllInArray(arr: seq<Slot>, buffers: seq<seq<Slot>>, orig: seq<Slot>, made: set<Slot>, cur: int)
    requires RowOk(arr, buffers, orig, made, cur) && forall c :: 0 <= c < |buffers| ==> buffers[c] == []
    ensures Ascending(arr) && Contents(Newer(arr, cur)) == made
    ensures arr == if made == {} then orig else Last(orig) + Newer(arr, cur)
    ensures forall x, y :: x in made && y in made && x.id == y.id ==> x == y
  {
    forall c | 0 <= c < |buffers| ensures Sets(buffers)[c] == {} { assert Sets(buffers)[c] == Contents([]); }
    assert forall x :: x in made <==> Held(NewSet(arr, cur), Sets(buffers), x);
    assert NewSet(arr, cur) == made;
    SplitIs(arr, cur);
    Emptiness(Newer(arr, cur));
  }

  lemma IdsExact(s: State, t: State, r: nat)
    requires Inv(t) && Same(s, t) && Finished(t) && r < |t.rows|
    ensures forall id :: HasId(t.rows[r].made, id) <==> WritesRow(s, r, id)
  {
    assert MadeFrom(t, r);
    forall id | HasId(t.rows[r].made, id) ensures WritesRow(s, r, id) {
      var x :| x in t.rows[r].made && x.id == id;
      var w, i :| SentBy(t, w, i, r, id);
      assert IsWrite(s, w, i, r, id);
    }
    forall id | WritesRow(s, r, id) ensures HasId(t.rows[r].made, id) {
      var w, i :| IsWrite(s, w, i, r, id);
      assert MadeFor(t, w, i);
    }
  }

  lemma {:induction false} RunBuffers(s: State, steps: seq<Step>, r: nat)
    requires IsRun(s, steps) && r < |s.rows|
    ensures r < |Exec(s, steps).rows| && |Exec(s, steps).rows[r].buffers| == |s.rows[r].buffers|
    decreases |steps|
  {
    if steps != [] {
      RunBuffers(Apply(s, steps[0]), steps[1..], r);
    }
  }

  // Nobody waits for ever: whoever holds a lock can go on, and so can whoever waits for a free one.
  lemma SomeoneCanStep(s: State, steps: seq<Step>)
    requires Init(s) && IsRun(s, steps) && !Finished(Exec(s, steps))
    ensures exists step :: Enabled(Exec(s, steps), step)
  {
    StartInv(s);
    RunKeeps(s, steps);
    var t := Exec(s, steps);
    var w :| 0 <= w < |t.workers|
      && !(t.workers[w].pc.Idle? && t.workers[w].pos == |t.workers[w].todo| && t.workers[w].appended == {});
    var step := NextStep(t, w);
  }

  lemma NextStep(t: State, w: nat) returns (step: Step)
    requires Inv(t) && w < |t.workers|
    requires !(t.workers[w].pc.Idle? && t.workers[w].pos == |t.workers[w].todo| && t.workers[w].appended == {})
    ensures Enabled(t, step)
  {
    var x := t.workers[w];
    assert WorkerOk(t, w);
    match x.pc
    case Idle =>
      if x.pos < |x.todo| {
        step := LoadBuffer(w);
      } else {
        var r :| r in x.appended;
        if t.rows[r].lock.Free? { step := FinalLock(w, r); } else { step := HolderStep(t, r); }
      }
    case Direct => step := TryLock(w);
    case Crowded => step := Install(w);
    case Buffering =>
      assert BufOk(t, w, Cur(t, w).row) && RowFine(t, Cur(t, w).row);
      step := Insert(w);
    case Full =>
      if CurRow(t, w).lock.Free? { step := LockFull(w); } else { step := HolderStep(t, Cur(t, w).row); }
    case HasLock =>
      assert RowFine(t, Cur(t, w).row);
      step := AppendUnlock(w);
    case Flushing =>
      assert BufOk(t, w, Cur(t, w).row) && RowFine(t, Cur(t, w).row);
      step := FlushUnlock(w);
    case FinalFlush(r) =>
      assert BufOk(t, w, r) && RowFine(t, r);
      step := FinalUnlock(w);
  }

  lemma HolderStep(t: State, r: nat) returns (step: Step)
    requires Inv(t) && r < |t.rows| && t.rows[r].lock.HeldBy?
    ensures Enabled(t, step)
  {
    assert LockOk(t, r) && RowFine(t, r);
    var v := t.rows[r].lock.w;
    assert BufOk(t, v, r) && WorkerOk(t, v);
    var pc := t.workers[v].pc;
    step := if pc.HasLock? then AppendUnlock(v) else if pc.Flushing? then FlushUnlock(v) else FinalUnlock(v);
  }
}
