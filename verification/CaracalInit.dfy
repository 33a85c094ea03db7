/** Caracal's initialization phase of one epoch (`caracal/include/caracal.hpp`), any number of rows and workers: every
    worker appends a pending version for each write of its transactions, straight into the row's array, or into its
    own buffer of a contended row, which it flushes when it is full and at the end of the phase. */
module CaracalInit {
  import opened SortedSlots
  import opened CaracalArray

  type Pos = n: nat | n > 0 witness 1

  datatype Lock = Free | HeldBy(w: nat)

  // `orig`: the array at the start of the epoch, `made`: the versions created since (history variables).
  datatype Row = Row(arr: seq<Slot>, lock: Lock, installed: bool, buffers: seq<seq<Slot>>, orig: seq<Slot>,
                     made: set<Slot>)

  datatype Item = Item(row: nat, serial: nat)

  datatype Pc =
    | Idle
    | Direct           // found no row buffer
    | HasLock          // try_lock succeeded
    | Crowded          // try_lock failed
    | Buffering        // a row buffer is there
    | Full             // own buffer is full, spins for the lock
    | Flushing
    | FinalFlush(row: nat)

  // `appended`: the rows whose buffers this worker has to flush at the end.
  datatype Worker = Worker(todo: seq<Item>, pos: nat, pc: Pc, appended: set<nat>)

  // `next`: the next version to be allocated, `base`: the first one of this epoch (a history variable).
  datatype State = State(epoch: nat, maxSlots: Pos, rows: seq<Row>, workers: seq<Worker>, next: VersionId,
                         base: VersionId)

  datatype Step =
    | LoadBuffer(w: nat)
    | TryLock(w: nat)
    | AppendUnlock(w: nat)
    | Install(w: nat)
    | Insert(w: nat)
    | LockFull(w: nat)
    | FlushUnlock(w: nat)
    | FinalLock(w: nat, r: nat)
    | FinalUnlock(w: nat)

  function First(s: State): nat {
    GlobalId(s.epoch, 0)
  }

  // The item in hand.
  predicate Busy(s: State, w: nat) {
    w < |s.workers| && s.workers[w].pos < |s.workers[w].todo| && Cur(s, w).row < |s.rows|
  }

  function Cur(s: State, w: nat): Item
    requires w < |s.workers| && s.workers[w].pos < |s.workers[w].todo|
  {
    s.workers[w].todo[s.workers[w].pos]
  }

  function CurRow(s: State, w: nat): Row
    requires Busy(s, w)
  {
    s.rows[Cur(s, w).row]
  }

  function CurSlot(s: State, w: nat): Slot
    requires Busy(s, w)
  {
    Slot(GlobalId(s.epoch, Cur(s, w).serial), s.next)
  }

  predicate Enabled(s: State, step: Step) {
    match step
    case LoadBuffer(w) => Busy(s, w) && s.workers[w].pc.Idle?
    case TryLock(w) => Busy(s, w) && s.workers[w].pc.Direct?
    case AppendUnlock(w) => Busy(s, w) && s.workers[w].pc.HasLock? && Ascending(CurRow(s, w).arr)
    case Install(w) => Busy(s, w) && s.workers[w].pc.Crowded?
    case Insert(w) =>
      && Busy(s, w) && s.workers[w].pc.Buffering?
      && w < |CurRow(s, w).buffers| && Ascending(CurRow(s, w).buffers[w])
    case LockFull(w) => Busy(s, w) && s.workers[w].pc.Full? && CurRow(s, w).lock.Free?
    case FlushUnlock(w) =>
      && Busy(s, w) && s.workers[w].pc.Flushing?
      && w < |CurRow(s, w).buffers| && Ascending(CurRow(s, w).arr)
    case FinalLock(w, r) =>
      && w < |s.workers| && s.workers[w].pc.Idle? && s.workers[w].pos == |s.workers[w].todo|
      && r in s.workers[w].appended && r < |s.rows| && s.rows[r].lock.Free?
    case FinalUnlock(w) =>
      && w < |s.workers| && s.workers[w].pc.FinalFlush? && s.workers[w].pc.row < |s.rows|
      && w < |s.rows[s.workers[w].pc.row].buffers| && Ascending(s.rows[s.workers[w].pc.row].arr)
  }

  function SetWorker(s: State, w: nat, x: Worker): State
    requires w < |s.workers|
  {
    s.(workers := s.workers[w := x])
  }

  function SetBoth(s: State, w: nat, x: Worker, r: nat, row: Row): State
    requires w < |s.workers| && r < |s.rows|
  {
    s.(workers := s.workers[w := x], rows := s.rows[r := row])
  }

  function Flushed(row: Row, w: nat, cur: int): Row
    requires w < |row.buffers| && Ascending(row.arr)
  {
    row.(arr := BatchAppended(row.arr, row.buffers[w], cur), buffers := row.buffers[w := []], lock := Free)
  }

  function Apply(s: State, step: Step): State
    requires Enabled(s, step)
  {
    var x := s.workers[step.w];
    match step
    case LoadBuffer(w) => SetWorker(s, w, x.(pc := if CurRow(s, w).installed then Buffering else Direct))
    case TryLock(w) =>
      if CurRow(s, w).lock.Free? then SetBoth(s, w, x.(pc := HasLock), Cur(s, w).row, CurRow(s, w).(lock := HeldBy(w)))
      else SetWorker(s, w, x.(pc := Crowded))
    case AppendUnlock(w) =>
      var row, slot := CurRow(s, w), CurSlot(s, w);
      SetBoth(s, w, x.(pc := Idle, pos := x.pos + 1), Cur(s, w).row,
              row.(arr := Appended(row.arr, slot, First(s)), lock := Free, made := row.made + {slot}))
        .(next := s.next + 1)
    case Install(w) => SetBoth(s, w, x.(pc := Buffering), Cur(s, w).row, CurRow(s, w).(installed := true))
    case Insert(w) =>
      var row, slot, r := CurRow(s, w), CurSlot(s, w), Cur(s, w).row;
      var buffer := Inserted(row.buffers[w], slot);
      SetBoth(s, w,
              if |buffer| < s.maxSlots then x.(pc := Idle, pos := x.pos + 1, appended := x.appended + {r})
              else x.(pc := Full),
              r, row.(buffers := row.buffers[w := buffer], made := row.made + {slot})).(next := s.next + 1)
    case LockFull(w) => SetBoth(s, w, x.(pc := Flushing), Cur(s, w).row, CurRow(s, w).(lock := HeldBy(w)))
    case FlushUnlock(w) =>
      SetBoth(s, w, x.(pc := Idle, pos := x.pos + 1), Cur(s, w).row, Flushed(CurRow(s, w), w, First(s)))
    case FinalLock(w, r) => SetBoth(s, w, x.(pc := FinalFlush(r)), r, s.rows[r].(lock := HeldBy(w)))
    case FinalUnlock(w) =>
      var r := x.pc.row;
      SetBoth(s, w, x.(pc := Idle, appended := x.appended - {r}), r, Flushed(s.rows[r], w, First(s)))
  }

  // The writes of the epoch: serial ids are 32 bits wide, and no transaction writes a row twice.
  predicate ItemsOk(s: State) {
    && (forall w, i :: 0 <= w < |s.workers| && 0 <= i < |s.workers[w].todo| ==>
          s.workers[w].todo[i].row < |s.rows| && s.workers[w].todo[i].serial < SERIALS)
    && (forall w, i, v, j ::
          0 <= w < |s.workers| && 0 <= i < |s.workers[w].todo| && 0 <= v < |s.workers|
            && 0 <= j < |s.workers[v].todo| ==>
            s.workers[w].todo[i] == s.workers[v].todo[j] ==> w == v && i == j)
  }

  predicate RowStarts(row: Row, cur: int, workers: nat) {
    && Ascending(row.arr) && row.arr != [] && (forall x :: x in row.arr ==> x.id < cur)
    && row.lock.Free? && row.orig == row.arr && row.made == {}
    && |row.buffers| == workers && forall c :: 0 <= c < workers ==> row.buffers[c] == []
  }

  predicate Init(s: State) {
    && ItemsOk(s)
    && (forall w :: 0 <= w < |s.workers| ==> s.workers[w] == Worker(s.workers[w].todo, 0, Idle, {}))
    && (forall r :: 0 <= r < |s.rows| ==> RowStarts(s.rows[r], First(s), |s.workers|))
    && s.next == s.base
  }

  predicate IsRun(s: State, steps: seq<Step>)
    decreases |steps|
  {
    steps == [] || (Enabled(s, steps[0]) && IsRun(Apply(s, steps[0]), steps[1..]))
  }

  function Exec(s: State, steps: seq<Step>): State
    requires IsRun(s, steps)
    decreases |steps|
  {
    if steps == [] then s else Exec(Apply(s, steps[0]), steps[1..])
  }

  predicate Finished(s: State) {
    forall w :: 0 <= w < |s.workers| ==>
      s.workers[w].pc.Idle? && s.workers[w].pos == |s.workers[w].todo| && s.workers[w].appended == {}
  }
}
