/** One row of Serval under any number of epochs and up to 64 workers (`serval/include/serval.hpp`): in the
    initialization phase of an epoch the workers append their versions in any interleaving, the first of them turns the
    row over to the epoch, and whoever finds the row crowded installs a region. */
module Serval {
  import opened SortedSlots
  import opened Bitmap
  import opened BitmapSearch
  import opened ServalRegion
  import opened ServalRowOps

  datatype Pc =
    | Idle
    | Guard(tx: nat)       // epoch_guard: about to load the row's epoch
    | GuardTry(tx: nat)    // epoch_guard: about to try the lock
    | Turning(tx: nat)     // epoch_guard: holds the lock
    | Ready(tx: nat)       // the row is in this epoch; about to try the lock
    | Appending(tx: nat)   // holds the lock
    | Crowded(tx: nat)     // wait_region_installation: about to load the region
    | CrowdedTry(tx: nat)  // wait_region_installation: about to try the lock
    | Installing(tx: nat)  // wait_region_installation: holds the lock
    | ToRegion(tx: nat)    // has a region to append to

  // `last`: the last transaction of this epoch that appended to the row, or -1.
  datatype Worker = Worker(pc: Pc, last: int)

  datatype Lock = Free | HeldBy(w: nat)

  // `made`: the versions appended in the row's epoch, `past`: those of the epochs before (history variables).
  datatype State = State(clock: nat, row: Row, lock: Lock, workers: seq<Worker>, next: VersionId, made: set<Slot>,
                         past: seq<set<Slot>>)

  datatype Step =
    | Begin(w: nat, tx: nat)
    | LoadEpoch(w: nat)
    | GuardTryLock(w: nat)
    | Turn(w: nat)
    | TryLock(w: nat)
    | AppendUnlock(w: nat)
    | LoadRegion(w: nat)
    | CrowdedTryLock(w: nat)
    | Install(w: nat)
    | AppendRegion(w: nat)
    | NextEpoch(w: nat)  // the barriers at the end of an epoch; w is not used

  predicate Present(s: State, w: nat) {
    w < |s.workers| && w < WIDTH
  }

  // The row is in a state that its methods can work on.
  predicate Workable(row: Row) {
    Ascending(row.global) && (row.region.Installed? ==> RegionOk(row.region.g))
  }

  predicate Enabled(s: State, step: Step) {
    match step
    case Begin(w, tx) => Present(s, w) && s.workers[w].pc.Idle? && s.workers[w].last < tx < WIDTH
    case LoadEpoch(w) => Present(s, w) && s.workers[w].pc.Guard?
    case GuardTryLock(w) => Present(s, w) && s.workers[w].pc.GuardTry?
    case Turn(w) => Present(s, w) && s.workers[w].pc.Turning? && Workable(s.row)
    case TryLock(w) => Present(s, w) && s.workers[w].pc.Ready?
    case AppendUnlock(w) => Present(s, w) && s.workers[w].pc.Appending? && s.workers[w].pc.tx < WIDTH && Workable(s.row)
    case LoadRegion(w) => Present(s, w) && s.workers[w].pc.Crowded?
    case CrowdedTryLock(w) => Present(s, w) && s.workers[w].pc.CrowdedTry?
    case Install(w) => Present(s, w) && s.workers[w].pc.Installing? && IdsOk(s.row.global)
    case AppendRegion(w) =>
      && Present(s, w) && s.workers[w].pc.ToRegion? && s.workers[w].pc.tx < WIDTH
      && s.row.region.Installed? && RegionOk(s.row.region.g)
    case NextEpoch(_) => forall w :: 0 <= w < |s.workers| ==> s.workers[w].pc.Idle?
  }

  function SetPc(s: State, w: nat, pc: Pc): State
    requires w < |s.workers|
  {
    s.(workers := s.workers[w := s.workers[w].(pc := pc)])
  }

  // Try the lock: go to one place or to the other.
  function Try(s: State, w: nat, yes: Pc, no: Pc): State
    requires w < |s.workers|
  {
    if s.lock.Free? then SetPc(s, w, yes).(lock := HeldBy(w)) else SetPc(s, w, no)
  }

  // Worker w has appended the next version with the given row as the result.
  function Done(s: State, w: nat, row: Row): State
    requires w < |s.workers| && !s.workers[w].pc.Idle?
  {
    var tx := s.workers[w].pc.tx;
    s.(row := row, workers := s.workers[w := Worker(Idle, tx)], next := s.next + 1,
       made := s.made + {Slot(SerialId(w, tx), s.next)})
  }

  function Apply(s: State, step: Step): State
    requires Enabled(s, step)
  {
    match step
    case Begin(w, tx) => SetPc(s, w, Guard(tx))
    case LoadEpoch(w) =>
      SetPc(s, w, if s.row.epoch < s.clock then GuardTry(s.workers[w].pc.tx) else Ready(s.workers[w].pc.tx))
    case GuardTryLock(w) => Try(s, w, Turning(s.workers[w].pc.tx), Guard(s.workers[w].pc.tx))
    case Turn(w) =>
      var s' := SetPc(s, w, Ready(s.workers[w].pc.tx)).(lock := Free);
      if s.row.epoch < s.clock then s'.(row := TurnedOver(s.row, s.clock), made := {}, past := s.past + [s.made])
      else s'
    case TryLock(w) => Try(s, w, Appending(s.workers[w].pc.tx), Crowded(s.workers[w].pc.tx))
    case AppendUnlock(w) =>
      var tx := s.workers[w].pc.tx;
      Done(s, w, if s.row.region.Installed? then RegionAdded(s.row, w, s.next, tx)
                 else GlobalAppended(s.row, Slot(SerialId(w, tx), s.next))).(lock := Free)
    case LoadRegion(w) =>
      SetPc(s, w, if s.row.region.Installed? then ToRegion(s.workers[w].pc.tx) else CrowdedTry(s.workers[w].pc.tx))
    case CrowdedTryLock(w) => Try(s, w, Installing(s.workers[w].pc.tx), Crowded(s.workers[w].pc.tx))
    case Install(w) => SetPc(s, w, ToRegion(s.workers[w].pc.tx)).(lock := Free, row := WithRegion(s.row))
    case AppendRegion(w) => Done(s, w, RegionAdded(s.row, w, s.next, s.workers[w].pc.tx))
    case NextEpoch(_) =>
      s.(clock := s.clock + 1, workers := seq(|s.workers|, w requires 0 <= w < |s.workers| => Worker(Idle, -1)))
  }

  // The loaded row: version 0 in the global array with id -1, version 1 as the master; epoch 1 is about to start.
  predicate Init(s: State) {
    && s.clock == 1 && s.row == Row(0, 1, [Slot(-1, 0)], NoRegion, []) && s.lock.Free?
    && |s.workers| <= WIDTH && (forall w :: 0 <= w < |s.workers| ==> s.workers[w] == Worker(Idle, -1))
    && s.next == 2 && s.made == {Slot(-1, 0)} && s.past == []
  }

  predicate IsRun(s: State, steps: seq<Step>)
    decreases |steps|
  {
    steps == [] || (Enabled(s, steps[0]) && IsRun(Apply(s, steps[0]), steps[1..]))
  }

  function Exec(s: State, steps: seq<Step>): State
    requires IsRun(s, steps)
    decreases |steps|
  {
    if steps == [] then s else Exec(Apply(s, steps[0]), steps[1..])
  }

  // ----- What holds throughout -----

  // The worker has seen the row in the current epoch and still has to append.
  predicate Inside(pc: Pc) {
    pc.Ready? || pc.Appending? || pc.Crowded? || pc.CrowdedTry? || pc.Installing? || pc.ToRegion?
  }

  predicate Holding(pc: Pc) {
    pc.Turning? || pc.Appending? || pc.Installing?
  }

  ghost predicate WorkerOk(s: State, w: nat)
    requires w < |s.workers|
  {
    var x := s.workers[w];
    && -1 <= x.last < WIDTH
    && (!x.pc.Idle? ==> x.last < x.pc.tx < WIDTH)
    && (Inside(x.pc) ==> s.row.epoch == s.clock)
    && (x.pc.ToRegion? ==> s.row.region.Installed?)
    && (Holding(x.pc) ==> s.lock == HeldBy(w))
  }

  // A version of the current epoch is one of its worker's, up to the last.
  ghost predicate SlotOk(s: State, x: Slot) {
    && 0 <= x.id < WIDTH * WIDTH && x.id / WIDTH < |s.workers|
    && x.id % WIDTH <= s.workers[x.id / WIDTH].last
  }

  ghost predicate MasterOk(s: State) {
    if s.past == [] then s.row.master == 1 else exists x :: IsLast(s.past[|s.past| - 1], x) && s.row.master == x.ver
  }

  ghost predicate Inv(s: State) {
    && RowOk(s.row, s.made) && 1 <= s.clock && s.row.epoch <= s.clock && |s.workers| <= WIDTH
    && (forall w {:trigger WorkerOk(s, w)} :: 0 <= w < |s.workers| ==> WorkerOk(s, w))
    && (s.row.epoch == s.clock ==> forall x {:trigger SlotOk(s, x)} :: x in s.made ==> SlotOk(s, x))
    && (s.made == {} ==> exists w :: 0 <= w < |s.workers| && Inside(s.workers[w].pc))
    && (s.lock.HeldBy? ==> s.lock.w < |s.workers| && Holding(s.workers[s.lock.w].pc))
    && MasterOk(s)
  }

  ghost predicate Balanced(s: State, v: VersionId) {
    Accounted(s.row, v) == if v < s.next then 1 else 0
  }

  predicate OnlyMoves(step: Step) {
    step.Begin? || step.LoadEpoch? || step.GuardTryLock? || step.TryLock? || step.LoadRegion? || step.CrowdedTryLock?
  }

  lemma MovesKeep(s: State, step: Step, s': State)
    requires Inv(s) && Enabled(s, step) && OnlyMoves(step) && s' == Apply(s, step)
    ensures Inv(s')
  {
    forall w | 0 <= w < |s'.workers| ensures WorkerOk(s', w) { MoveWorker(s, step, s', w); }
    MoveWorker(s, step, s', step.w);
    forall x | x in s'.made && s'.row.epoch == s'.clock ensures SlotOk(s', x) { assert SlotOk(s, x); }
    if s'.made == {} {
      var v :| 0 <= v < |s.workers| && Inside(s.workers[v].pc);
      MoveWorker(s, step, s', v);
    }
  }

  lemma MoveWorker(s: State, step: Step, s': State, w: nat)
    requires Inv(s) && Enabled(s, step) && OnlyMoves(step) && s' == Apply(s, step) && w < |s.workers|
    ensures |s'.workers| == |s.workers| && WorkerOk(s', w) && s'.workers[w].last == s.workers[w].last
    ensures Inside(s.workers[w].pc) ==> Inside(s'.workers[w].pc)
    ensures s'.row == s.row && s'.clock == s.clock && s'.made == s.made && s'.past == s.past
    ensures s'.lock.HeldBy? ==> s'.lock.w < |s'.workers| && Holding(s'.workers[s'.lock.w].pc)
  {
    assert WorkerOk(s, w) && WorkerOk(s, step.w);
  }

  // A row of an earlier epoch has been written in it.
  lemma StaleIsWritten(s: State)
    requires Inv(s)
    ensures s.row.epoch < s.clock ==> s.made != {}
  {
    if s.made == {} {
      var w :| 0 <= w < |s.workers| && Inside(s.workers[w].pc);
      assert WorkerOk(s, w);
    }
  }

  lemma TurnKeeps(s: State, w: nat, s': State)
    requires Inv(s) && Enabled(s, Turn(w)) && s' == Apply(s, Turn(w))
    ensures Inv(s')
  {
    assert WorkerOk(s, w);
    StaleIsWritten(s);
    if s.row.epoch < s.clock {
      var x := TurnOverKeeps(s.row, s.made, s.clock);
      assert s'.past[|s'.past| - 1] == s.made;
    } else {
      forall x | x in s'.made ensures SlotOk(s', x) { assert SlotOk(s, x); }
    }
    forall v | 0 <= v < |s'.workers| ensures WorkerOk(s', v) { assert WorkerOk(s, v); }
    assert Inside(s'.workers[w].pc);
  }

  // The transaction in hand comes behind everything that its core has in the row.
  lemma InOrder(s: State, w: nat)
    requires Inv(s) && w < |s.workers| && Inside(s.workers[w].pc)
    ensures var tx := s.workers[w].pc.tx;
            && tx < WIDTH && !HasId(s.made, SerialId(w, tx))
            && (s.row.region.Installed? ==> Follows(s.row.region.g, w, tx))
  {
    assert WorkerOk(s, w);
    var tx := s.workers[w].pc.tx;
    forall x | x in s.made ensures x.id != SerialId(w, tx) {
      assert SlotOk(s, x);
    }
    if s.row.region.Installed? {
      var g := s.row.region.g;
      if g.cores[w] {
        forall i | 0 <= i < WIDTH && g.arrays[w].bitmap[i] ensures i < tx {
          ShowsAt(g, w, i);
          var x := Slot(SerialId(w, i), Get(g.arrays[w], i));
          assert x in s.made;
          assert SlotOk(s, x);
        }
      }
    }
  }

  lemma DoneKeeps(s: State, w: nat, row: Row, s': State)
    requires Inv(s) && w < |s.workers| && Inside(s.workers[w].pc) && row.epoch == s.row.epoch
    requires row.master == s.row.master
    requires RowOk(row, s.made + {Slot(SerialId(w, s.workers[w].pc.tx), s.next)})
    requires (s.row.region.Installed? ==> row.region.Installed?)
    requires s' == if Holding(s.workers[w].pc) then Done(s, w, row).(lock := Free) else Done(s, w, row)
    ensures Inv(s')
  {
    var tx := s.workers[w].pc.tx;
    assert WorkerOk(s, w);
    forall v | 0 <= v < |s'.workers| ensures WorkerOk(s', v) { assert WorkerOk(s, v); }
    forall x | x in s'.made ensures SlotOk(s', x) {
      if x in s.made { assert SlotOk(s, x); } else { assert x.id / WIDTH == w && x.id % WIDTH == tx; }
    }
    assert Slot(SerialId(w, tx), s.next) in s'.made;
  }

  lemma AppendKeeps(s: State, w: nat, s': State)
    requires Inv(s) && Enabled(s, AppendUnlock(w)) && s' == Apply(s, AppendUnlock(w))
    ensures Inv(s')
  {
    InOrder(s, w);
    var tx := s.workers[w].pc.tx;
    var row := if s.row.region.Installed? then RegionAdded(s.row, w, s.next, tx)
               else GlobalAppended(s.row, Slot(SerialId(w, tx), s.next));
    if s.row.region.Installed? {
      RegionAddKeeps(s.row, s.made, w, s.next, tx);
    } else {
      GlobalAppendKeeps(s.row, s.made, Slot(SerialId(w, tx), s.next));
    }
    DoneKeeps(s, w, row, s');
  }

  lemma AppendRegionKeeps(s: State, w: nat, s': State)
    requires Inv(s) && Enabled(s, AppendRegion(w)) && s' == Apply(s, AppendRegion(w))
    ensures Inv(s')
  {
    InOrder(s, w);
    RegionAddKeeps(s.row, s.made, w, s.next, s.workers[w].pc.tx);
    DoneKeeps(s, w, RegionAdded(s.row, w, s.next, s.workers[w].pc.tx), s');
  }

  lemma GlobalIds(s: State)
    requires Inv(s) && s.row.epoch == s.clock
    ensures IdsOk(s.row.global)
  {
    forall x | x in s.row.global ensures 0 <= x.id < WIDTH * WIDTH {
      if s.row.region.NoRegion? {
        assert x in Contents(s.row.global);
        assert SlotOk(s, x);
      }
    }
  }

  lemma InstallStepKeeps(s: State, w: nat, s': State)
    requires Inv(s) && Enabled(s, Install(w)) && s' == Apply(s, Install(w))
    ensures Inv(s')
  {
    assert WorkerOk(s, w);
    InstallKeeps(s.row, s.made);
    forall v | 0 <= v < |s'.workers| ensures WorkerOk(s', v) { assert WorkerOk(s, v); }
    forall x | x in s'.made ensures SlotOk(s', x) { assert SlotOk(s, x); }
    assert Inside(s'.workers[w].pc);
  }

  lemma NextEpochKeeps(s: State, s': State, w: nat)
    requires Inv(s) && Enabled(s, NextEpoch(w)) && s' == Apply(s, NextEpoch(w))
    ensures Inv(s')
  {
    forall v | 0 <= v < |s'.workers| ensures WorkerOk(s', v) { }
  }

  lemma StepKeeps(s: State, step: Step)
    requires Inv(s) && Enabled(s, step)
    ensures Inv(Apply(s, step))
  {
    match step
    case Turn(w) => TurnKeeps(s, w, Apply(s, step));
    case AppendUnlock(w) => AppendKeeps(s, w, Apply(s, step));
    case AppendRegion(w) => AppendRegionKeeps(s, w, Apply(s, step));
    case Install(w) => InstallStepKeeps(s, w, Apply(s, step));
    case NextEpoch(w) => NextEpochKeeps(s, Apply(s, step), w);
    case _ => MovesKeep(s, step, Apply(s, step));
  }

  lemma BalanceKeeps(s: State, step: Step, v: VersionId)
    requires Inv(s) && Enabled(s, step) && Balanced(s, v)
    ensures Balanced(Apply(s, step), v)
  {
    match step
    case Turn(w) => TurnOverCount(s.row, s.clock, v);
    case AppendUnlock(w) =>
      if s.row.region.Installed? {
        RegionAddCount(s.row, w, s.next, s.workers[w].pc.tx, v);
      } else {
        GlobalAppendCount(s.row, Slot(SerialId(w, s.workers[w].pc.tx), s.next), v);
      }
    case AppendRegion(w) => RegionAddCount(s.row, w, s.next, s.workers[w].pc.tx, v);
    case Install(w) => InstallCount(s.row, v);
    case _ =>
  }

  lemma {:induction false} RunKeeps(s: State, steps: seq<Step>)
    requires Inv(s) && IsRun(s, steps)
    ensures Inv(Exec(s, steps))
    decreases |steps|
  {
    if steps != [] {
      StepKeeps(s, steps[0]);
      RunKeeps(Apply(s, steps[0]), steps[1..]);
    }
  }

  lemma {:induction false} RunBalances(s: State, steps: seq<Step>, v: VersionId)
    requires Inv(s) && IsRun(s, steps) && Balanced(s, v)
    ensures Balanced(Exec(s, steps), v)
    decreases |steps|
  {
    if steps != [] {
      BalanceKeeps(s, steps[0], v);
      StepKeeps(s, steps[0]);
      RunBalances(Apply(s, steps[0]), steps[1..], v);
    }
  }

  lemma StartInv(s: State)
    requires Init(s)
    ensures Inv(s) && forall v :: Balanced(s, v)
  {
    assert Contents(s.row.global) == s.made;
    forall w | 0 <= w < |s.workers| ensures WorkerOk(s, w) { }
    forall v: VersionId ensures Balanced(s, v) {
      assert [Slot(-1, 0)][..0] == [];
      assert Vers(s.row.global) == [0];
      CountOne(0, v);
    }
  }

  // ----- The theorems -----

  // In every run the row stands for exactly the versions appended in its epoch: those left over from earlier epochs are
  // out of sight, and an installed region means an empty global array. The master is the last write of the last epoch
  // before that wrote the row, and a row that is to be turned over is never empty.
  lemma RowIsMap(s: State, steps: seq<Step>)
    requires Init(s) && IsRun(s, steps)
    ensures var t := Exec(s, steps);
            && RowOk(t.row, t.made) && (t.row.region.Installed? ==> t.row.global == [])
            && MasterOk(t) && (t.row.epoch < t.clock ==> t.made != {})
  {
    StartInv(s);
    RunKeeps(s, steps);
    StaleIsWritten(Exec(s, steps));
  }

  // No version is freed twice, none that is freed is still held, and none is lost: every version ever allocated is held
  // in exactly one place or freed exactly once.
  lemma FreedOnce(s: State, steps: seq<Step>, v: VersionId)
    requires Init(s) && IsRun(s, steps)
    ensures var t := Exec(s, steps);
            && Count(t.row.freed, v) <= 1 && (Count(t.row.freed, v) == 1 ==> HeldCount(t.row, v) == 0)
            && (v < t.next ==> HeldCount(t.row, v) + Count(t.row.freed, v) == 1)
  {
    StartInv(s);
    RunBalances(s, steps, v);
    assert Balanced(Exec(s, steps), v);
  }

  // ----- Progress -----

  // How far a worker is from the end of its append; going round a polling loop does not bring it nearer.
  function Distance(pc: Pc): nat {
    match pc
    case Idle => 0
    case ToRegion(_) => 1
    case Appending(_) => 1
    case Installing(_) => 2
    case Crowded(_) => 3
    case CrowdedTry(_) => 3
    case Ready(_) => 4
    case Turning(_) => 5
    case Guard(_) => 6
    case GuardTry(_) => 6
  }

  function Work(workers: seq<Worker>): nat {
    if workers == [] then 0 else Work(workers[..|workers| - 1]) + Distance(workers[|workers| - 1].pc)
  }

  lemma {:induction false} WorkUpdate(workers: seq<Worker>, w: nat, x: Worker)
    requires w < |workers|
    ensures Work(workers[w := x]) == Work(workers) - Distance(workers[w].pc) + Distance(x.pc)
  {
    var n := |workers| - 1;
    if w < n {
      WorkUpdate(workers[..n], w, x);
      assert workers[w := x][..n] == workers[..n][w := x];
    } else {
      assert workers[w := x][..n] == workers[..n];
    }
  }

  lemma {:induction false} NoWork(workers: seq<Worker>)
    requires forall w :: 0 <= w < |workers| ==> workers[w].pc.Idle?
    ensures Work(workers) == 0
  {
    if workers != [] {
      NoWork(workers[..|workers| - 1]);
    }
  }

  // No step but the start of an append adds work.
  lemma StepWork(s: State, step: Step)
    requires Enabled(s, step)
    ensures Work(Apply(s, step).workers) <= Work(s.workers) + if step.Begin? then 6 else 0
  {
    if step.NextEpoch? {
      NoWork(Apply(s, step).workers);
    } else {
      var w := step.w;
      var s' := Apply(s, step);
      assert s'.workers == s.workers[w := s'.workers[w]];
      WorkUpdate(s.workers, w, s'.workers[w]);
    }
  }

  // The steps of a run that bring a worker nearer to its end, and the appends that it starts.
  ghost function Productive(s: State, steps: seq<Step>): nat
    requires IsRun(s, steps)
    decreases |steps|
  {
    if steps == [] then 0
    else
      var s' := Apply(s, steps[0]);
      (if Work(s'.workers) < Work(s.workers) then 1 else 0) + Productive(s', steps[1..])
  }

  ghost function Begins(steps: seq<Step>): nat {
    if steps == [] then 0 else (if steps[0].Begin? then 1 else 0) + Begins(steps[1..])
  }

  // An append takes at most six productive steps, whatever the schedule.
  lemma {:induction false} ProductiveBound(s: State, steps: seq<Step>)
    requires IsRun(s, steps)
    ensures Work(Exec(s, steps).workers) + Productive(s, steps) <= Work(s.workers) + 6 * Begins(steps)
    decreases |steps|
  {
    if steps != [] {
      StepWork(s, steps[0]);
      ProductiveBound(Apply(s, steps[0]), steps[1..]);
    }
  }

  // In every run, as long as a worker is in the middle of an append, some worker can get nearer to its end, in at most
  // two steps of its own: the lock is free, or whoever holds it can go on.
  lemma SomeoneCanProgress(s: State, steps: seq<Step>)
    requires Init(s) && IsRun(s, steps)
    requires exists w :: 0 <= w < |Exec(s, steps).workers| && !Exec(s, steps).workers[w].pc.Idle?
    ensures var t := Exec(s, steps);
            exists more :: |more| <= 2 && IsRun(t, more) && Begins(more) == 0
              && Work(Exec(t, more).workers) < Work(t.workers)
  {
    StartInv(s);
    RunKeeps(s, steps);
    var t := Exec(s, steps);
    var w :| 0 <= w < |t.workers| && !t.workers[w].pc.Idle?;
    if t.lock.HeldBy? {
      var more := HolderStep(t);
    } else {
      var more := FreeSteps(t, w);
    }
  }

  lemma OneStep(t: State, step: Step)
    requires Enabled(t, step) && !step.Begin?
    ensures IsRun(t, [step]) && Exec(t, [step]) == Apply(t, step) && Begins([step]) == 0
  {
    assert [step][1..] == [];
    assert IsRun(Apply(t, step), []);
  }

  lemma TwoSteps(t: State, step: Step, step': Step)
    requires Enabled(t, step) && Enabled(Apply(t, step), step') && !step.Begin? && !step'.Begin?
    ensures IsRun(t, [step, step']) && Exec(t, [step, step']) == Apply(Apply(t, step), step')
    ensures Begins([step, step']) == 0
  {
    OneStep(Apply(t, step), step');
    assert [step, step'][1..] == [step'];
  }

  // The holder of the lock is never in a loop.
  lemma HolderStep(t: State) returns (more: seq<Step>)
    requires Inv(t) && t.lock.HeldBy?
    ensures |more| <= 2 && IsRun(t, more) && Begins(more) == 0 && Work(Exec(t, more).workers) < Work(t.workers)
  {
    var w := t.lock.w;
    assert WorkerOk(t, w);
    var step: Step;
    match t.workers[w].pc {
      case Turning(_) => step := Turn(w);
      case Appending(_) => step := AppendUnlock(w);
      case Installing(_) =>
        GlobalIds(t);
        step := Install(w);
    }
    OneStep(t, step);
    Nearer(t, step);
    more := [step];
  }

  lemma Nearer(t: State, step: Step)
    requires Enabled(t, step) && !step.NextEpoch?
    requires Distance(Apply(t, step).workers[step.w].pc) < Distance(t.workers[step.w].pc)
    ensures Work(Apply(t, step).workers) < Work(t.workers)
  {
    var t' := Apply(t, step);
    assert t'.workers == t.workers[step.w := t'.workers[step.w]];
    WorkUpdate(t.workers, step.w, t'.workers[step.w]);
  }

  lemma FreeSteps(t: State, w: nat) returns (more: seq<Step>)
    requires Inv(t) && t.lock.Free? && w < |t.workers| && !t.workers[w].pc.Idle?
    ensures |more| <= 2 && IsRun(t, more) && Begins(more) == 0 && Work(Exec(t, more).workers) < Work(t.workers)
  {
    assert WorkerOk(t, w);
    match t.workers[w].pc {
      case Guard(_) => more := LoadThenTry(t, w, LoadEpoch(w), GuardTryLock(w));
      case Crowded(_) => more := LoadThenTry(t, w, LoadRegion(w), CrowdedTryLock(w));
      case GuardTry(_) => more := Single(t, GuardTryLock(w));
      case CrowdedTry(_) => more := Single(t, CrowdedTryLock(w));
      case Ready(_) => more := Single(t, TryLock(w));
      case ToRegion(_) => more := Single(t, AppendRegion(w));
    }
  }

  lemma Single(t: State, step: Step) returns (more: seq<Step>)
    requires Enabled(t, step) && !step.Begin? && !step.NextEpoch?
    requires Distance(Apply(t, step).workers[step.w].pc) < Distance(t.workers[step.w].pc)
    ensures |more| <= 2 && IsRun(t, more) && Begins(more) == 0 && Work(Exec(t, more).workers) < Work(t.workers)
  {
    OneStep(t, step);
    Nearer(t, step);
    more := [step];
  }

  // A load that leaves its loop, or one that stays in it and a try that finds the lock free.
  lemma LoadThenTry(t: State, w: nat, load: Step, try': Step) returns (more: seq<Step>)
    requires Inv(t) && t.lock.Free? && Present(t, w)
    requires if t.workers[w].pc.Guard? then load == LoadEpoch(w) && try' == GuardTryLock(w)
             else t.workers[w].pc.Crowded? && load == LoadRegion(w) && try' == CrowdedTryLock(w)
    ensures |more| <= 2 && IsRun(t, more) && Begins(more) == 0 && Work(Exec(t, more).workers) < Work(t.workers)
  {
    var t1 := Apply(t, load);
    if Distance(t1.workers[w].pc) < Distance(t.workers[w].pc) {
      more := Single(t, load);
    } else {
      TwoSteps(t, load, try');
      more := [load, try'];
      StepWork(t, load);
      Nearer(t1, try');
    }
  }

  // ----- Reading -----

  // read in the epoch that wrote the row: the version found, for the reader with serial id core * 64 + tx
  function Read(row: Row, core: nat, tx: nat): VersionId
    requires Workable(row) && core < WIDTH && tx < WIDTH
  {
    var id := SerialId(core, tx);
    if row.global != [] then
      if id <= row.global[0].id then row.master else row.global[LowerBound(row.global, id) - 1].ver
    else if row.region.Installed? && row.region.g.cores != Zero() then
      match IdentifyVisible(row.region.g, core, tx)
      case Nothing => row.master
      case At(c, t) => Get(row.region.g.arrays[c], t)
    else row.master
  }

  // The reader gets the version with the greatest serial id below its own, or the master if there is none; whether the
  // row uses its array or its region makes no difference.
  lemma ReadIs(row: Row, m: set<Slot>, core: nat, tx: nat)
    requires RowOk(row, m) && core < WIDTH && tx < WIDTH
    ensures (exists x :: GreatestBelow(m, SerialId(core, tx), x) && Read(row, core, tx) == x.ver)
            || (NoneBelow(m, SerialId(core, tx)) && Read(row, core, tx) == row.master)
  {
    var id := SerialId(core, tx);
    if row.global != [] {
      SearchIsGreatest(row.global, id);
      var k := LowerBound(row.global, id);
      if k > 0 {
        assert GreatestBelow(m, id, row.global[k - 1]);
        assert row.global[0].id < id;
      }
    } else if row.region.NoRegion? {
      Emptiness(row.global);
    } else if row.region.g.cores != Zero() {
      IdentifyIsGreatest(row.region.g, m, core, tx);
    } else {
      assert m == {} by {
        forall y ensures y !in m { assert !Shows(row.region.g, y); }
      }
    }
  }

  lemma ReadFinds(s: State, steps: seq<Step>, core: nat, tx: nat)
    requires Init(s) && IsRun(s, steps) && core < WIDTH && tx < WIDTH
    ensures var t, id := Exec(s, steps), SerialId(core, tx);
            && Workable(t.row)
            && ((exists x :: GreatestBelow(t.made, id, x) && Read(t.row, core, tx) == x.ver)
                || (NoneBelow(t.made, id) && Read(t.row, core, tx) == t.row.master))
  {
    RowIsMap(s, steps);
    ReadIs(Exec(s, steps).row, Exec(s, steps).made, core, tx);
  }
}
