/** Every run of Caracal's initialization phase is short: at most eight steps for each write of the epoch. */
module CaracalInitEnds {
  import opened CaracalInit
  import opened CaracalInitRuns

  // How far the item in hand is.
  function Rank(pc: Pc): nat {
    match pc
    case Idle => 0
    case Direct => 1
    case HasLock => 2
    case Crowded => 2
    case Buffering => 3
    case Full => 4
    case Flushing => 5
    case FinalFlush(_) => 1
  }

  // At most six steps for an item, and two to flush the row that it may add to `appended`.
  function Left(x: Worker): int {
    8 * (|x.todo| - x.pos) + 2 * |x.appended| - Rank(x.pc)
  }

  function AllLeft(workers: seq<Worker>): int {
    if workers == [] then 0 else AllLeft(workers[..|workers| - 1]) + Left(workers[|workers| - 1])
  }

  // The writes of the epoch.
  function Writes(workers: seq<Worker>): nat {
    if workers == [] then 0 else Writes(workers[..|workers| - 1]) + |workers[|workers| - 1].todo|
  }

  lemma {:induction false} LeftUpdate(workers: seq<Worker>, w: nat, x: Worker)
    requires w < |workers| && Left(x) < Left(workers[w])
    ensures AllLeft(workers[w := x]) < AllLeft(workers)
  {
    var n := |workers| - 1;
    if w < n {
      LeftUpdate(workers[..n], w, x);
      assert workers[w := x][..n] == workers[..n][w := x];
    } else {
      assert workers[w := x][..n] == workers[..n];
    }
  }

  lemma WorkerLowers(s: State, step: Step, x': Worker)
    requires Inv(s) && Enabled(s, step) && x' == Apply(s, step).workers[step.w]
    ensures Apply(s, step).workers == s.workers[step.w := x'] && Left(x') < Left(s.workers[step.w])
  {
    assert WorkerOk(s, step.w);
    var x := s.workers[step.w];
    if step.Insert? {
      var r := Cur(s, step.w).row;
      assert r in x.appended ==> x.appended + {r} == x.appended;
      assert |x.appended + {r}| <= |x.appended| + 1;
    }
  }

  lemma {:induction false} NotNegative(s: State, n: nat)
    requires Inv(s) && n <= |s.workers|
    ensures AllLeft(s.workers[..n]) >= 0
  {
    if n > 0 {
      NotNegative(s, n - 1);
      assert s.workers[..n][..n - 1] == s.workers[..n - 1];
      assert WorkerOk(s, n - 1);
      var x := s.workers[n - 1];
      if x.pc.FinalFlush? { assert |x.appended - {x.pc.row}| < |x.appended|; }
    }
  }

  lemma {:induction false} RunLength(s: State, steps: seq<Step>)
    requires Inv(s) && IsRun(s, steps)
    ensures |steps| <= AllLeft(s.workers)
    decreases |steps|
  {
    if steps == [] {
      NotNegative(s, |s.workers|);
      assert s.workers[..|s.workers|] == s.workers;
    } else {
      var s' := Apply(s, steps[0]);
      WorkerLowers(s, steps[0], s'.workers[steps[0].w]);
      LeftUpdate(s.workers, steps[0].w, s'.workers[steps[0].w]);
      StepKeeps(s, steps[0]);
      RunLength(s', steps[1..]);
    }
  }

  lemma {:induction false} AllLeftIs(workers: seq<Worker>)
    requires forall w :: 0 <= w < |workers| ==> workers[w] == Worker(workers[w].todo, 0, Idle, {})
    ensures AllLeft(workers) == 8 * Writes(workers)
  {
    if workers != [] {
      AllLeftIs(workers[..|workers| - 1]);
    }
  }

  // No schedule is longer, and it can always be continued until the phase is over.
  lemma RunsEnd(s: State, steps: seq<Step>)
    requires Init(s) && IsRun(s, steps)
    ensures |steps| <= 8 * Writes(s.workers)
    ensures Finished(Exec(s, steps)) || exists step :: Enabled(Exec(s, steps), step)
  {
    StartInv(s);
    RunLength(s, steps);
    AllLeftIs(s.workers);
    if !Finished(Exec(s, steps)) {
      SomeoneCanStep(s, steps);
    }
  }
}
