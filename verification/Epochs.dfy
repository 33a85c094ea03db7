/** The epoch manager (`epoch_manager.hpp`): workers publish the global epoch in two separate accesses when they begin a
    transaction, the manager scans the workers one by one and then advances the global epoch. */
module Epochs {
  datatype Pc = Idle | Loaded(e: nat)  // begin_tx has loaded the global epoch, and not stored it yet

  // `epoch` starts with whatever the memory held; `published` says that begin_tx has stored it (a history variable).
  datatype Worker = Worker(registered: bool, published: bool, epoch: nat, pc: Pc)

  // `skipped`: the workers that this scan found unregistered (a history variable).
  datatype Manager = Resting | Scanning(e: nat, i: nat, smallest: nat, skipped: set<nat>)

  datatype State = State(global: nat, workers: seq<Worker>, manager: Manager)

  datatype Step =
    | Register(w: nat)
    | Load(w: nat)   // begin_tx: load the global epoch
    | Store(w: nat)  // begin_tx: store it as the worker's epoch
    | StartScan      // increment_epoch: load the global epoch
    | ScanOne        // get_smallest_worker_epoch: one worker
    | Decide

  const MAX_EPOCH: nat := 0xFFFF_FFFF

  function Min(a: nat, b: nat): nat {
    if a < b then a else b
  }

  predicate Enabled(s: State, step: Step) {
    match step
    case Register(w) => w < |s.workers| && !s.workers[w].registered
    case Load(w) => w < |s.workers| && s.workers[w].registered && s.workers[w].pc.Idle?
    case Store(w) => w < |s.workers| && s.workers[w].pc.Loaded?
    case StartScan => s.manager.Resting?
    case ScanOne => s.manager.Scanning? && s.manager.i < |s.workers|
    case Decide => s.manager.Scanning? && s.manager.i == |s.workers|
  }

  function Apply(s: State, step: Step): State
    requires Enabled(s, step)
  {
    match step
    case Register(w) => s.(workers := s.workers[w := s.workers[w].(registered := true)])
    case Load(w) => s.(workers := s.workers[w := s.workers[w].(pc := Loaded(s.global))])
    case Store(w) => s.(workers := s.workers[w := Worker(s.workers[w].registered, true, s.workers[w].pc.e, Idle)])
    case StartScan => s.(manager := Scanning(s.global, 0, MAX_EPOCH, {}))
    case ScanOne =>
      var m, x := s.manager, s.workers[s.manager.i];
      s.(manager := if x.registered then Scanning(m.e, m.i + 1, Min(x.epoch, m.smallest), m.skipped)
                    else Scanning(m.e, m.i + 1, m.smallest, m.skipped + {m.i}))
    case Decide =>
      s.(manager := Resting, global := if s.manager.e == s.manager.smallest then s.global + 1 else s.global)
  }

  // The global epoch starts at 1; the workers' epochs are not initialized.
  predicate Init(s: State) {
    && s.global == 1 && s.manager.Resting?
    && forall w :: 0 <= w < |s.workers| ==> s.workers[w] == Worker(false, false, s.workers[w].epoch, Idle)
  }

  predicate IsRun(s: State, steps: seq<Step>)
    decreases |steps|
  {
    steps == [] || (Enabled(s, steps[0]) && IsRun(Apply(s, steps[0]), steps[1..]))
  }

  function Exec(s: State, steps: seq<Step>): State
    requires IsRun(s, steps)
    decreases |steps|
  {
    if steps == [] then s else Exec(Apply(s, steps[0]), steps[1..])
  }

  // The global epoch is at most one ahead of everything published.
  predicate Close(s: State) {
    forall w :: 0 <= w < |s.workers| && s.workers[w].published ==>
      s.workers[w].epoch <= s.global <= s.workers[w].epoch + 1
  }

  // The start values that keep an unpublished worker from being taken for a recent one.
  predicate GoodStart(s: State) {
    |s.workers| <= 1 || forall w :: 0 <= w < |s.workers| ==> s.workers[w].epoch <= 1
  }

  // ----- Every run from a good start stays close -----

  ghost predicate WorkerOk(s: State, w: nat)
    requires w < |s.workers|
  {
    var x := s.workers[w];
    && (x.published ==> 1 <= x.epoch <= s.global <= x.epoch + 1)
    && (x.pc.Loaded? ==> 1 <= x.pc.e <= s.global <= x.pc.e + 1)
    && (x.pc.Loaded? && x.published ==> x.epoch <= x.pc.e)
    && (x.pc.Loaded? || x.published ==> x.registered)
    && (!x.published && x.epoch > 1 ==> |s.workers| == 1 && s.global == 1)
  }

  // What an unfinished scan knows about a worker that it has passed.
  ghost predicate ScanOk(s: State, w: nat)
    requires w < |s.workers| && s.manager.Scanning?
  {
    var x, m := s.workers[w], s.manager;
    if w in m.skipped then
      && (x.published ==> m.e <= x.epoch) && (x.pc.Loaded? ==> m.e <= x.pc.e)
      && (!x.published && x.epoch > 1 ==> m.smallest > 1)
    else if x.published then m.e <= m.smallest ==> m.e <= x.epoch
    else m.smallest <= x.epoch && (x.epoch > 1 ==> m.smallest > 1)
  }

  ghost predicate Inv(s: State) {
    && 1 <= s.global
    && (forall w {:trigger WorkerOk(s, w)} :: 0 <= w < |s.workers| ==> WorkerOk(s, w))
    && (s.manager.Scanning? ==>
          && s.manager.e == s.global && s.manager.i <= |s.workers|
          && (s.manager.i == 0 ==> s.manager.smallest == MAX_EPOCH)
          && (forall w {:trigger ScanOk(s, w)} :: 0 <= w < s.manager.i ==> ScanOk(s, w))
          && (forall w :: w in s.manager.skipped ==> w < s.manager.i))
  }

  lemma WorkerKeeps(s: State, step: Step, w: nat)
    requires Inv(s) && Enabled(s, step) && w < |s.workers|
    ensures WorkerOk(Apply(s, step), w)
  {
    assert WorkerOk(s, w);
    if step.Decide? {
      assert ScanOk(s, w);
    }
  }

  lemma ScanKeeps(s: State, step: Step, w: nat)
    requires Inv(s) && Enabled(s, step) && Apply(s, step).manager.Scanning? && w < Apply(s, step).manager.i
    ensures w < |s.workers| && ScanOk(Apply(s, step), w)
  {
    assert WorkerOk(s, w);
    if w < s.manager.i {
      assert ScanOk(s, w);
    }
  }

  lemma StepKeeps(s: State, step: Step)
    requires Inv(s) && Enabled(s, step)
    ensures Inv(Apply(s, step))
  {
    var s' := Apply(s, step);
    forall w | 0 <= w < |s'.workers| ensures WorkerOk(s', w) {
      WorkerKeeps(s, step, w);
    }
    if s'.manager.Scanning? {
      forall w | 0 <= w < s'.manager.i ensures ScanOk(s', w) {
        ScanKeeps(s, step, w);
      }
    }
  }

  lemma {:induction false} RunKeeps(s: State, steps: seq<Step>)
    requires Inv(s) && IsRun(s, steps)
    ensures Inv(Exec(s, steps))
    decreases |steps|
  {
    if steps != [] {
      StepKeeps(s, steps[0]);
      RunKeeps(Apply(s, steps[0]), steps[1..]);
    }
  }

  lemma StaysClose(s: State, steps: seq<Step>)
    requires Init(s) && GoodStart(s) && IsRun(s, steps)
    ensures Close(Exec(s, steps))
  {
    assert Inv(s);
    RunKeeps(s, steps);
    var s' := Exec(s, steps);
    forall w | 0 <= w < |s'.workers| && s'.workers[w].published
      ensures s'.workers[w].epoch <= s'.global <= s'.workers[w].epoch + 1
    {
      assert WorkerOk(s', w);
    }
  }

  // ----- From any other start some run does not -----

  ghost predicate Reaches(s: State, t: State) {
    exists steps :: IsRun(s, steps) && Exec(s, steps) == t
  }

  lemma {:induction false} RunAppend(s: State, steps: seq<Step>, step: Step)
    requires IsRun(s, steps) && Enabled(Exec(s, steps), step)
    ensures IsRun(s, steps + [step]) && Exec(s, steps + [step]) == Apply(Exec(s, steps), step)
    decreases |steps|
  {
    if steps == [] {
      assert steps + [step] == [step];
      assert IsRun(Apply(s, step), []);
    } else {
      RunAppend(Apply(s, steps[0]), steps[1..], step);
      assert (steps + [step])[1..] == steps[1..] + [step];
    }
  }

  lemma ReachStep(s: State, t: State, step: Step)
    requires Reaches(s, t) && Enabled(t, step)
    ensures Reaches(s, Apply(t, step))
  {
    var steps :| IsRun(s, steps) && Exec(s, steps) == t;
    RunAppend(s, steps, step);
  }

  predicate AllRegistered(t: State) {
    forall w :: 0 <= w < |t.workers| ==> t.workers[w].registered
  }

  lemma {:induction false} RegisterFrom(s: State, t: State, k: nat) returns (t': State)
    requires Reaches(s, t) && k <= |t.workers|
    requires forall w :: 0 <= w < |t.workers| ==> t.workers[w].registered == (w < k)
    ensures Reaches(s, t') && AllRegistered(t') && t'.global == t.global && t'.manager == t.manager
    ensures |t'.workers| == |t.workers|
    ensures forall w :: 0 <= w < |t.workers| ==> t'.workers[w] == t.workers[w].(registered := true)
    decreases |t.workers| - k
  {
    t' := t;
    if k < |t.workers| {
      ReachStep(s, t, Register(k));
      t' := RegisterFrom(s, Apply(t, Register(k)), k + 1);
    }
  }

  // Everyone but b begins a transaction.
  lemma {:induction false} PublishFrom(s: State, t: State, b: nat, k: nat) returns (t': State)
    requires Reaches(s, t) && AllRegistered(t) && k <= |t.workers|
    requires forall w :: k <= w < |t.workers| && w != b ==> t.workers[w].pc.Idle?
    ensures Reaches(s, t') && t'.global == t.global && t'.manager == t.manager && |t'.workers| == |t.workers|
    ensures forall w :: 0 <= w < |t.workers| && (w < k || w == b) ==> t'.workers[w] == t.workers[w]
    ensures forall w :: k <= w < |t.workers| && w != b ==> t'.workers[w] == Worker(true, true, t.global, Idle)
    decreases |t.workers| - k
  {
    t' := t;
    if k < |t.workers| {
      if k != b {
        ReachStep(s, t, Load(k));
        t' := Apply(t, Load(k));
        ReachStep(s, t', Store(k));
        t' := Apply(t', Store(k));
      }
      t' := PublishFrom(s, t', b, k + 1);
    }
  }

  // A scan that finds worker a at the global epoch and nobody below it.
  lemma {:induction false} ScanFrom(s: State, t: State, a: nat) returns (t': State)
    requires Reaches(s, t) && AllRegistered(t) && a < |t.workers|
    requires t.manager.Scanning? && t.manager.i <= |t.workers| && t.manager.e == t.global == t.workers[a].epoch
    requires t.global <= t.manager.smallest && (a < t.manager.i ==> t.manager.smallest == t.global)
    requires forall w :: 0 <= w < |t.workers| ==> t.global <= t.workers[w].epoch
    ensures Reaches(s, t') && t' == t.(manager := Resting, global := t.global + 1)
    decreases |t.workers| - t.manager.i
  {
    if t.manager.i < |t.workers| {
      ReachStep(s, t, ScanOne);
      t' := ScanFrom(s, Apply(t, ScanOne), a);
    } else {
      ReachStep(s, t, Decide);
      t' := Apply(t, Decide);
    }
  }

  // Everyone but b begins a transaction and the manager advances the global epoch.
  lemma Round(s: State, t: State, a: nat, b: nat) returns (t': State)
    requires Reaches(s, t) && AllRegistered(t) && t.manager.Resting? && a < |t.workers| && b < |t.workers| && a != b
    requires forall w :: 0 <= w < |t.workers| && w != b ==> t.workers[w].pc.Idle?
    requires t.global <= t.workers[b].epoch && t.global < MAX_EPOCH
    ensures Reaches(s, t') && AllRegistered(t') && t'.manager.Resting? && |t'.workers| == |t.workers|
    ensures t'.global == t.global + 1 && t'.workers[b] == t.workers[b]
    ensures forall w :: 0 <= w < |t.workers| && w != b ==> t'.workers[w] == Worker(true, true, t.global, Idle)
  {
    t' := PublishFrom(s, t, b, 0);
    ReachStep(s, t', StartScan);
    t' := ScanFrom(s, Apply(t', StartScan), a);
  }

  // Worker b has loaded epoch 1 and stores it only after two rounds of the others.
  lemma BadStartFails(s: State)
    requires Init(s) && !GoodStart(s)
    ensures exists steps :: IsRun(s, steps) && !Close(Exec(s, steps))
  {
    var b :| 0 <= b < |s.workers| && s.workers[b].epoch > 1;
    var a := if b == 0 then 1 else 0;
    assert IsRun(s, []) && Exec(s, []) == s;
    var t := RegisterFrom(s, s, 0);
    ReachStep(s, t, Load(b));
    t := Apply(t, Load(b));
    t := Round(s, t, a, b);
    t := Round(s, t, a, b);
    ReachStep(s, t, Store(b));
    t := Apply(t, Store(b));
    assert t.workers[b].published && t.workers[b].epoch == 1 && t.global == 3;
    assert !Close(t);
  }

  // The exact condition: published epochs stay within one of the global epoch in every run, if and only if there is a
  // single worker or no worker's memory holds a number above 1 at the start.
  lemma CloseIff(s: State)
    requires Init(s)
    ensures (forall steps :: IsRun(s, steps) ==> Close(Exec(s, steps))) <==> GoodStart(s)
  {
    if GoodStart(s) {
      forall steps | IsRun(s, steps) ensures Close(Exec(s, steps)) {
        StaysClose(s, steps);
      }
    } else {
      BadStartFails(s);
    }
  }

  // ----- Garbage -----

  type Ptr = nat

  // An object and the epoch that it was collected under.
  datatype Garbage = Garbage(epoch: nat, ptr: Ptr)

  predicate Sorted(items: seq<Garbage>) {
    forall i, j :: 0 <= i < j < |items| ==> items[i].epoch <= items[j].epoch
  }

  /** The thread local container of collected objects, ordered by epoch. */
  class GarbageCollector {
    var items: seq<Garbage>

    constructor ()
      ensures items == []
    {
      items := [];
    }

    // emplace: behind everything with the same epoch.
    method Collect(epoch: nat, ptr: Ptr)
      requires Sorted(items)
      modifies this
      ensures Sorted(items) && multiset(items) == multiset(old(items)) + multiset{Garbage(epoch, ptr)}
    {
      var n := UpperBound(epoch);
      assert items == items[..n] + items[n..];
      items := items[..n] + [Garbage(epoch, ptr)] + items[n..];
    }

    // The number of items up to the epoch.
    method UpperBound(epoch: nat) returns (n: nat)
      requires Sorted(items)
      ensures n <= |items|
      ensures forall i :: 0 <= i < n ==> items[i].epoch <= epoch
      ensures forall i :: n <= i < |items| ==> items[i].epoch > epoch
    {
      n := 0;
      while n < |items| && items[n].epoch <= epoch
        invariant n <= |items| && forall i :: 0 <= i < n ==> items[i].epoch <= epoch
      {
        n := n + 1;
      }
    }

    // Frees, oldest first, exactly what was collected at least two epochs ago, and nothing twice.
    method Remove(current: nat) returns (freed: seq<Garbage>)
      requires Sorted(items)
      modifies this
      ensures Sorted(items) && freed + items == old(items)
      ensures forall i :: 0 <= i < |freed| ==> freed[i].epoch + 2 <= current
      ensures forall i :: 0 <= i < |items| ==> items[i].epoch + 2 > current
    {
      freed := [];
      if current >= 2 {
        var end := UpperBound(current - 2);
        var i := 0;
        while i < end
          invariant i <= end && freed == items[..i]
        {
          freed := freed + [items[i]];
          i := i + 1;
        }
        items := items[end..];
      }
    }
  }

  // What a worker frees with its own epoch was collected before every other published worker's epoch.
  lemma FreedIsOld(s: State, steps: seq<Step>, me: nat, other: nat, g: Garbage)
    requires Init(s) && GoodStart(s) && IsRun(s, steps)
    requires var ws := Exec(s, steps).workers; me < |ws| && other < |ws| && ws[me].published && ws[other].published
    requires g.epoch + 2 <= Exec(s, steps).workers[me].epoch
    ensures g.epoch + 1 <= Exec(s, steps).workers[other].epoch
  {
    StaysClose(s, steps);
  }
}
