/** One row of Serval through the initialization phase of one epoch: the versions that the row shows at the end are
    exactly those of the transactions that appended to it, one each. */
module ServalSegment {
  import opened SortedSlots
  import opened Bitmap
  import opened ServalRegion
  import opened ServalRowOps
  import opened Serval

  // The serial ids whose appends a schedule starts.
  function Begun(steps: seq<Step>): set<nat> {
    if steps == [] then {}
    else (if steps[0].Begin? then {SerialId(steps[0].w, steps[0].tx)} else {}) + Begun(steps[1..])
  }

  // A schedule within one epoch.
  predicate SameEpoch(steps: seq<Step>) {
    forall i :: 0 <= i < |steps| ==> !steps[i].NextEpoch?
  }

  predicate AllIdle(s: State) {
    forall w :: 0 <= w < |s.workers| ==> s.workers[w].pc.Idle?
  }

  // The row at the start of an epoch that has not reached it yet.
  ghost predicate EpochStarts(s: State) {
    Inv(s) && AllIdle(s) && s.row.epoch < s.clock
  }

  ghost predicate InFlight(s: State, id: nat) {
    id / WIDTH < |s.workers| && !s.workers[id / WIDTH].pc.Idle? && s.workers[id / WIDTH].pc.tx == id % WIDTH
  }

  // An append that was started is under way, or its version is there.
  ghost predicate Traced(s: State, id: nat) {
    InFlight(s, id) || (s.row.epoch == s.clock && HasId(s.made, id))
  }

  // A version of this epoch: of an append that was started, and new.
  ghost predicate SlotNew(s0: State, s: State, begun: set<nat>, x: Slot) {
    0 <= x.id && x.id in begun && s0.next <= x.ver < s.next
  }

  ghost predicate Turned(s0: State, s: State) {
    exists x :: IsLast(s0.made, x) && s.row.master == x.ver
  }

  ghost predicate Segment(s0: State, s: State, begun: set<nat>) {
    && Inv(s) && s.clock == s0.clock && s0.row.epoch < s0.clock && s0.next <= s.next && |s.workers| == |s0.workers|
    && (forall id {:trigger Traced(s, id)} :: id in begun ==> Traced(s, id))
    && (forall w :: 0 <= w < |s.workers| && !s.workers[w].pc.Idle? ==> SerialId(w, s.workers[w].pc.tx) in begun)
    && (if s.row.epoch == s.clock then
          && begun != {} && Turned(s0, s)
          && (forall x {:trigger SlotNew(s0, s, begun, x)} :: x in s.made ==> SlotNew(s0, s, begun, x))
          && (forall x, y :: x in s.made && y in s.made && x.ver == y.ver ==> x == y)
        else s.row.epoch == s0.row.epoch && s.row.master == s0.row.master && s.made == s0.made)
  }

  lemma InFlightAt(s: State, w: nat, id: nat)
    requires w < |s.workers| && !s.workers[w].pc.Idle? && id == SerialId(w, s.workers[w].pc.tx)
    requires s.workers[w].pc.tx < WIDTH
    ensures InFlight(s, id) && id / WIDTH == w && id % WIDTH == s.workers[w].pc.tx
  {
  }

  // Steps that only move a worker on.
  lemma MoveSegment(s0: State, s: State, begun: set<nat>, step: Step, s': State)
    requires Segment(s0, s, begun) && Enabled(s, step) && OnlyMoves(step) && !step.Begin? && s' == Apply(s, step)
    ensures Segment(s0, s', begun)
  {
    StepKeeps(s, step);
    MoveWorker(s, step, s', step.w);
    forall id | id in begun ensures Traced(s', id) { assert Traced(s, id); }
    if s'.row.epoch == s'.clock {
      forall x | x in s'.made ensures SlotNew(s0, s', begun, x) { assert SlotNew(s0, s, begun, x); }
    }
  }

  lemma BeginSegment(s0: State, s: State, begun: set<nat>, w: nat, tx: nat, s': State)
    requires Segment(s0, s, begun) && Enabled(s, Begin(w, tx)) && s' == Apply(s, Begin(w, tx))
    ensures Segment(s0, s', begun + {SerialId(w, tx)})
  {
    StepKeeps(s, Begin(w, tx));
    InFlightAt(s', w, SerialId(w, tx));
    forall id | id in begun + {SerialId(w, tx)} ensures Traced(s', id) {
      if id in begun { assert Traced(s, id); }
    }
    if s'.row.epoch == s'.clock {
      forall x | x in s'.made ensures SlotNew(s0, s', begun + {SerialId(w, tx)}, x) { assert SlotNew(s0, s, begun, x); }
    }
  }

  lemma TurnSegment(s0: State, s: State, begun: set<nat>, w: nat, s': State)
    requires Segment(s0, s, begun) && Enabled(s, Turn(w)) && s' == Apply(s, Turn(w))
    ensures Segment(s0, s', begun)
  {
    StepKeeps(s, Turn(w));
    assert SerialId(w, s.workers[w].pc.tx) in begun;
    forall id | id in begun ensures Traced(s', id) { assert Traced(s, id); }
    if s.row.epoch < s.clock {
      StaleIsWritten(s);
      var x := TurnOverKeeps(s.row, s.made, s.clock);
    } else {
      forall x | x in s'.made ensures SlotNew(s0, s', begun, x) { assert SlotNew(s0, s, begun, x); }
    }
  }

  lemma InstallSegment(s0: State, s: State, begun: set<nat>, w: nat, s': State)
    requires Segment(s0, s, begun) && Enabled(s, Install(w)) && s' == Apply(s, Install(w))
    ensures Segment(s0, s', begun)
  {
    StepKeeps(s, Install(w));
    assert WorkerOk(s, w);
    forall id | id in begun ensures Traced(s', id) { assert Traced(s, id); }
    forall x | x in s'.made ensures SlotNew(s0, s', begun, x) { assert SlotNew(s0, s, begun, x); }
  }

  // What an append changes, however it is done.
  ghost predicate Appends(s: State, w: nat, slot: Slot, s': State) {
    && w < |s.workers| && Inside(s.workers[w].pc) && slot == Slot(SerialId(w, s.workers[w].pc.tx), s.next)
    && s'.workers == s.workers[w := Worker(Idle, s.workers[w].pc.tx)] && s'.made == s.made + {slot}
    && s'.next == s.next + 1
    && s'.row.epoch == s.row.epoch && s'.row.master == s.row.master && s'.clock == s.clock
  }

  lemma StillTraced(s: State, w: nat, slot: Slot, s': State, id: nat)
    requires Appends(s, w, slot, s') && s.workers[w].pc.tx < WIDTH && s.row.epoch == s.clock && Traced(s, id)
    ensures Traced(s', id)
  {
    InFlightAt(s, w, slot.id);
    if id == slot.id {
      assert slot in s'.made;
    } else if InFlight(s, id) {
      assert id == (id / WIDTH) * WIDTH + id % WIDTH;
    } else {
      var x :| x in s.made && x.id == id;
      assert x in s'.made;
    }
  }

  lemma AppendedSegment(s0: State, s: State, begun: set<nat>, w: nat, slot: Slot, s': State)
    requires Segment(s0, s, begun) && Appends(s, w, slot, s') && Inv(s')
    ensures Segment(s0, s', begun)
  {
    assert WorkerOk(s, w);
    assert slot.id in begun;
    forall id | id in begun ensures Traced(s', id) {
      assert Traced(s, id);
      StillTraced(s, w, slot, s', id);
    }
    forall x | x in s'.made ensures SlotNew(s0, s', begun, x) {
      if x != slot { assert SlotNew(s0, s, begun, x); }
    }
    forall x, y | x in s'.made && y in s'.made && x.ver == y.ver ensures x == y {
      if x != slot { assert SlotNew(s0, s, begun, x); }
      if y != slot { assert SlotNew(s0, s, begun, y); }
    }
  }

  lemma AppendSegment(s0: State, s: State, begun: set<nat>, step: Step, s': State)
    requires Segment(s0, s, begun) && Enabled(s, step) && (step.AppendUnlock? || step.AppendRegion?)
    requires s' == Apply(s, step)
    ensures Segment(s0, s', begun)
  {
    StepKeeps(s, step);
    AppendedSegment(s0, s, begun, step.w, Slot(SerialId(step.w, s.workers[step.w].pc.tx), s.next), s');
  }

  lemma {:induction false} RunSegment(s0: State, s: State, begun: set<nat>, steps: seq<Step>)
    requires Segment(s0, s, begun) && IsRun(s, steps) && SameEpoch(steps)
    ensures Segment(s0, Exec(s, steps), begun + Begun(steps))
    decreases |steps|
  {
    if steps == [] {
      assert begun + Begun(steps) == begun;
    } else {
      var step, s' := steps[0], Apply(s, steps[0]);
      assert !step.NextEpoch?;
      var begun' := begun + if step.Begin? then {SerialId(step.w, step.tx)} else {};
      match step {
        case Begin(w, tx) => BeginSegment(s0, s, begun, w, tx, s');
        case Turn(w) => TurnSegment(s0, s, begun, w, s');
        case Install(w) => InstallSegment(s0, s, begun, w, s');
        case AppendUnlock(w) => AppendSegment(s0, s, begun, step, s');
        case AppendRegion(w) => AppendSegment(s0, s, begun, step, s');
        case _ => MoveSegment(s0, s, begun, step, s');
      }
      assert Segment(s0, s', begun') by { assert !step.Begin? ==> begun' == begun; }
      RunSegment(s0, s', begun', steps[1..]);
      assert begun' + Begun(steps[1..]) == begun + Begun(steps);
    }
  }

  // No two versions of a row have the same serial id.
  lemma SameIdSame(row: Row, m: set<Slot>, x: Slot, y: Slot)
    requires RowOk(row, m) && x in m && y in m && x.id == y.id
    ensures x == y
  {
    if row.region.Installed? {
      assert Shows(row.region.g, x) && Shows(row.region.g, y);
    } else {
      assert x in Contents(row.global) && y in Contents(row.global);
    }
  }

  // At the end of the phase: if nobody appended, the row is as it was; otherwise it is in this epoch, its master is the
  // last write of the epoch before that wrote it, and it shows one new version for each append and nothing else.
  ghost predicate PhaseEnds(s0: State, t: State, begun: set<nat>) {
    && Inv(t) && t.clock == s0.clock && s0.next <= t.next && |t.workers| == |s0.workers|
    && (if begun == {} then t.row.epoch < t.clock && t.row.master == s0.row.master && t.made == s0.made
        else
          && t.row.epoch == t.clock && Turned(s0, t)
          && (forall id :: id in begun ==> HasId(t.made, id))
          && (forall x {:trigger SlotNew(s0, t, begun, x)} :: x in t.made ==> SlotNew(s0, t, begun, x))
          && (forall x, y :: x in t.made && y in t.made && x.ver == y.ver ==> x == y))
  }

  lemma PhaseRuns(s0: State, steps: seq<Step>)
    requires EpochStarts(s0) && IsRun(s0, steps) && SameEpoch(steps) && AllIdle(Exec(s0, steps))
    ensures PhaseEnds(s0, Exec(s0, steps), Begun(steps))
  {
    RunSegment(s0, s0, {}, steps);
    var t, begun := Exec(s0, steps), Begun(steps);
    assert {} + begun == begun;
    forall id | id in begun ensures t.row.epoch == t.clock && HasId(t.made, id) {
      assert Traced(t, id);
    }
    if begun != {} {
      var id :| id in begun;
    }
  }
}
