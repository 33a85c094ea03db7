/** One row of Serval_RC from the start of an execution phase to the end of the epoch: which version is the master then,
    which versions are freed, and which are lost. */
module ServalRcMaster {
  import opened SortedSlots
  import opened Bitmap
  import opened ServalRcOps
  import opened ServalRc
  import opened ServalRcProof

  // The row at the start of the execution phase.
  ghost predicate Starts(s: State) {
    && Inv(s) && s.phase.Executing? && Written(s.wb.packed, s.writers.Keys) && s.maker == map[]
    && s.start == s.wb.master && s.wb.master in s.stable
    && (forall t :: t in s.writers ==> s.writers[t].Marked?)
    && (forall t :: t in s.readers ==> s.readers[t].pc.Waiting?)
  }

  lemma StartsHere(s: State)
    requires Inv(s) && s.phase.Reading?
    ensures Starts(Apply(s, StartExecuting))
  {
    StartExecutingKeeps(s, Apply(s, StartExecuting));
  }

  predicate ExecStep(step: Step) {
    step.Observe? || step.DropReader? || step.AskWriter? || step.Store?
  }

  // A schedule of the phase, to its end.
  ghost predicate Finishes(s: State, run: seq<Step>) {
    IsRun(s, run) && (forall i :: 0 <= i < |run| ==> ExecStep(run[i])) && Enabled(Exec(s, run), EndEpoch)
  }

  ghost predicate IsMax(writers: set<nat>, m: nat) {
    m in writers && forall u :: u in writers ==> u <= m
  }

  ghost predicate IsPlace(s: State, v: VersionId) {
    exists x :: x in s.wb.placeholders && x.ver == v
  }

  predicate NobodyStores(t: State) {
    forall u :: u in t.writers ==> !t.writers[u].Storing?
  }

  // ----- With readers -----

  // What becomes the master when the last reader goes.
  function Heir(s: State): VersionId {
    if s.wb.placeholders == [] then s.wb.master else s.wb.placeholders[|s.wb.placeholders| - 1].ver
  }

  ghost predicate PlaceDone(t: State, x: Slot) {
    x.ver in t.stable && x.ver in t.maker && t.maker[x.ver] == x.id
  }

  ghost predicate Settled(s: State, t: State) {
    && t.wb.packed == EmptyPacked() && t.wb.master == Heir(s) && NobodyStores(t)
    && t.freed == s.freed + (if s.wb.placeholders == [] then {} else {s.wb.master})
    && (forall x {:trigger PlaceDone(t, x)} :: x in s.wb.placeholders ==> PlaceDone(t, x))
  }

  ghost predicate WithReaders(s: State, t: State) {
    && (forall v :: v in t.stable ==> v in s.stable || IsPlace(s, v))
    && (if t.wb.refCnt > 0 then
          t.wb.placeholders == s.wb.placeholders && t.wb.master == s.wb.master && t.freed == s.freed
        else Settled(s, t))
  }

  // ----- Without readers -----

  ghost predicate Untouched(s: State, t: State) {
    && t.wb == s.wb && t.freed == s.freed && t.stable == s.stable
    && forall u :: u in t.writers ==> t.writers[u].Marked?
  }

  // Transaction m made the master in this epoch.
  ghost predicate MadeBy(t: State, m: nat) {
    t.wb.master in t.maker && t.maker[t.wb.master] == m
  }

  // u has asked, and is not the last writer.
  ghost predicate AskedEarly(t: State, u: nat) {
    u in t.writers && !t.writers[u].Marked? && exists w :: w in t.writers && u < w
  }

  // Another than the last writer has asked first: the master stays.
  ghost predicate Kept(s: State, t: State) {
    && t.wb.packed == EmptyPacked() && t.wb.master == s.wb.master && NobodyStores(t)
    && t.freed == s.freed && t.stable == s.stable && exists u :: AskedEarly(t, u)
  }

  // The last writer has asked first.
  ghost predicate Replaced(s: State, t: State, m: nat) {
    && IsMax(t.writers.Keys, m) && t.wb.packed == EmptyPacked() && t.wb.master !in s.stable
    && t.freed == s.freed + {s.wb.master}
    && (forall u :: u in t.writers && u != m ==> !t.writers[u].Storing?)
    && (if t.writers[m].Storing? then t.writers[m].ver == t.wb.master && t.stable == s.stable
        else t.writers[m].Done? && t.stable == s.stable + {t.wb.master} && MadeBy(t, m))
  }

  ghost predicate WithoutReaders(s: State, t: State) {
    t.wb.refCnt == 0 && (Untouched(s, t) || Kept(s, t) || exists m :: Replaced(s, t, m))
  }

  // ----- The phase -----

  // The same readers with the same versions, and the same writers.
  ghost predicate SameParts(s: State, t: State) {
    && t.writers.Keys == s.writers.Keys && t.readers.Keys == s.readers.Keys && t.start == s.start
    && (forall u :: u in s.readers ==> t.readers[u].ver == s.readers[u].ver && t.readers[u].from == s.readers[u].from)
    && (forall v :: v in s.stable ==> v in t.stable && v !in t.maker)
  }

  ghost predicate Segment(s: State, t: State) {
    && Starts(s) && Inv(t) && t.phase.Executing? && SameParts(s, t)
    && (if s.readers == map[] then WithoutReaders(s, t) else WithReaders(s, t))
  }

  lemma StartSegment(s: State)
    requires Starts(s)
    ensures Segment(s, s)
  {
    if s.readers == map[] {
      OutNone(s.readers);
    } else {
      var u :| u in s.readers;
      OutSome(s.readers, u);
    }
  }

  lemma StepKeys(t: State, step: Step, t': State)
    requires ExecStep(step) && Enabled(t, step) && t' == Apply(t, step)
    ensures t'.writers.Keys == t.writers.Keys && t'.readers.Keys == t.readers.Keys && t'.start == t.start
    ensures t'.phase == t.phase
    ensures forall u :: u in t.readers ==>
            t'.readers[u].ver == t.readers[u].ver && t'.readers[u].from == t.readers[u].from
  {
  }

  lemma StepParts(s: State, t: State, step: Step, t': State)
    requires Segment(s, t) && ExecStep(step) && Enabled(t, step) && t' == Apply(t, step)
    ensures t'.phase.Executing? && SameParts(s, t') && (s.readers == map[] <==> t.readers == map[])
  {
    StepKeys(t, step, t');
    if step.Store? {
      assert WriterOk(t, step.t);
    } else {
      assert t'.stable == t.stable && t'.maker == t.maker;
    }
    assert s.readers.Keys == {} <==> t.readers.Keys == {};
  }

  // ----- Steps with readers -----

  lemma DropSegment(s: State, t: State, u: nat, t': State)
    requires Segment(s, t) && s.readers != map[] && Enabled(t, DropReader(u)) && t' == Apply(t, DropReader(u))
    ensures WithReaders(s, t')
  {
    assert SetOf([]) == {} && SetOf([t.wb.master]) == {t.wb.master};
    if t.wb.refCnt == 1 {
      forall w | w in t'.writers ensures !t'.writers[w].Storing? { NoStoring(t, u, w); }
      forall x | x in s.wb.placeholders ensures PlaceDone(t', x) {
        AllStable(t, u, x);
        assert PlaceOk(t, x);
      }
    }
  }

  lemma AskSegment(s: State, t: State, u: nat, t': State)
    requires Segment(s, t) && s.readers != map[] && Enabled(t, AskWriter(u)) && t' == Apply(t, AskWriter(u))
    ensures WithReaders(s, t')
  {
    assert SetOf([]) == {};
    if t.wb.refCnt == 0 {
      forall x | x in s.wb.placeholders ensures PlaceDone(t', x) { assert PlaceDone(t, x); }
    }
  }

  lemma StoreSegment(s: State, t: State, u: nat, t': State)
    requires Segment(s, t)
    requires s.readers != map[] && t.readers != map[] && Enabled(t, Store(u)) && t' == Apply(t, Store(u))
    ensures WithReaders(s, t')
  {
    assert WriterOk(t, u);
    var v := t.writers[u].ver;
    assert t.wb.refCnt > 0;
    assert Slot(u, v) in s.wb.placeholders;
  }

  lemma ObserveSegment(s: State, t: State, u: nat, t': State)
    requires Segment(s, t) && s.readers != map[] && Enabled(t, Observe(u)) && t' == Apply(t, Observe(u))
    ensures WithReaders(s, t')
  {
    OutSome(t.readers, u);
  }

  // ----- Steps without readers -----

  lemma MaxIs(s: State, t: State, u: nat)
    requires Starts(s) && t.writers.Keys == s.writers.Keys && u in t.writers && t.wb.packed == s.wb.packed
    ensures u < TXS && s.wb.packed.cores != Zero() && LastFits(s.wb.packed)
    ensures (IsFinal(s.wb.packed, u) <==> IsMax(t.writers.Keys, u))
  {
    assert u in s.writers.Keys;
    assert WriterOk(s, u);
    WrittenOk(s.wb.packed, s.writers.Keys);
    FinalIs(s.wb.packed, s.writers.Keys, u);
  }

  lemma FirstAsk(s: State, t: State, u: nat, t': State)
    requires Segment(s, t)
    requires s.readers == map[] && Untouched(s, t) && Enabled(t, AskWriter(u)) && t' == Apply(t, AskWriter(u))
    ensures Kept(s, t') || Replaced(s, t', u)
  {
    MaxIs(s, t, u);
    assert SetOf([]) == {} && SetOf([t.wb.master]) == {t.wb.master};
    assert t'.writers.Keys == t.writers.Keys;
    if IsFinal(s.wb.packed, u) {
      assert t.next !in s.stable;
      assert Replaced(s, t', u);
    } else {
      var w :| w in t.writers && u < w;
      assert AskedEarly(t', u);
    }
  }

  lemma LaterAsk(s: State, t: State, u: nat, t': State)
    requires Segment(s, t) && s.readers == map[] && t.wb.refCnt == 0 && t.wb.packed == EmptyPacked()
    requires Enabled(t, AskWriter(u)) && t' == Apply(t, AskWriter(u))
    ensures Kept(s, t) ==> Kept(s, t')
    ensures forall m :: Replaced(s, t, m) ==> Replaced(s, t', m)
  {
    assert SetOf([]) == {};
    assert t'.writers.Keys == t.writers.Keys && t'.wb == t.wb && t'.writers[u].Done?;
    if Kept(s, t) {
      var e :| AskedEarly(t, e);
      assert AskedEarly(t', e);
    }
  }

  lemma StoreAlone(s: State, t: State, u: nat, t': State)
    requires Segment(s, t) && s.readers == map[] && Enabled(t, Store(u)) && t' == Apply(t, Store(u))
    ensures exists m :: Replaced(s, t', m)
  {
    assert t.writers[u].Storing?;
    var m :| Replaced(s, t, m);
    assert t'.writers.Keys == t.writers.Keys && u == m;
    assert Replaced(s, t', m);
  }

  lemma AloneSegment(s: State, t: State, step: Step, t': State)
    requires Segment(s, t)
    requires s.readers == map[] && t.readers == map[] && ExecStep(step) && Enabled(t, step) && t' == Apply(t, step)
    ensures WithoutReaders(s, t')
  {
    if step.Store? {
      StoreAlone(s, t, step.t, t');
    } else if Untouched(s, t) {
      FirstAsk(s, t, step.t, t');
    } else {
      LaterAsk(s, t, step.t, t');
      if !Kept(s, t) {
        var m :| Replaced(s, t, m);
        assert Replaced(s, t', m);
      }
    }
  }

  lemma StepSegment(s: State, t: State, step: Step)
    requires Segment(s, t) && ExecStep(step) && Enabled(t, step)
    ensures Segment(s, Apply(t, step))
  {
    var t' := Apply(t, step);
    StepKeeps(t, step);
    StepParts(s, t, step, t');
    if s.readers == map[] {
      AloneSegment(s, t, step, t');
    } else {
      match step
      case Observe(u) => ObserveSegment(s, t, u, t');
      case DropReader(u) => DropSegment(s, t, u, t');
      case AskWriter(u) => AskSegment(s, t, u, t');
      case Store(u) => StoreSegment(s, t, u, t');
    }
  }

  lemma {:induction false} RunSegment(s: State, t: State, run: seq<Step>)
    requires Segment(s, t) && IsRun(t, run) && forall i :: 0 <= i < |run| ==> ExecStep(run[i])
    ensures Segment(s, Exec(t, run))
    decreases |run|
  {
    if run != [] {
      StepSegment(s, t, run[0]);
      RunSegment(s, Apply(t, run[0]), run[1..]);
    }
  }

  // ----- Every phase can be finished -----

  ghost function WritersAt(t: State, marked: bool): set<nat> {
    set u | u in t.writers && (if marked then t.writers[u].Marked? else t.writers[u].Storing?)
  }

  ghost function ReadersAt(t: State, pc: ReaderPc): set<nat> {
    set u | u in t.readers && t.readers[u].pc == pc
  }

  // When all writers are done, a reader does not wait.
  lemma CanObserve(t: State, u: nat)
    requires Inv(t) && t.phase.Executing? && u in t.readers && t.readers[u].pc.Waiting?
    requires forall w :: w in t.writers ==> t.writers[w].Done?
    ensures Enabled(t, Observe(u))
  {
    assert ReaderOk(t, u);
    OutSome(t.readers, u);
    MasterStable(t, u);
    if t.readers[u].from >= 0 {
      assert PlaceOk(t, Slot(t.readers[u].from, t.readers[u].ver));
    }
  }

  // Some step of the phase, or its end.
  lemma NextStep(t: State) returns (step: Step)
    requires Inv(t) && t.phase.Executing?
    ensures Enabled(t, step) && (step.EndEpoch? || ExecStep(step))
    ensures step.DropReader? ==> ReadersAt(t, Waiting) == {} && WritersAt(t, true) == {} && WritersAt(t, false) == {}
    ensures step.Observe? ==> WritersAt(t, true) == {} && WritersAt(t, false) == {}
    ensures step.Store? ==> WritersAt(t, true) == {}
  {
    if u :| u in t.writers && t.writers[u].Marked? {
      AskFits(t, u);
      step := AskWriter(u);
    } else if u :| u in t.writers && t.writers[u].Storing? {
      step := Store(u);
    } else if u :| u in t.readers && t.readers[u].pc.Waiting? {
      CanObserve(t, u);
      step := Observe(u);
    } else if u :| u in t.readers && t.readers[u].pc.Got? {
      OutSome(t.readers, u);
      step := DropReader(u);
    } else {
      step := EndEpoch;
    }
  }

  // Each of these steps takes one from a set and leaves the sets before it alone.
  lemma StepShrinks(t: State, step: Step, t': State)
    requires Enabled(t, step) && t' == Apply(t, step)
    ensures step.AskWriter? ==> WritersAt(t', true) < WritersAt(t, true)
    ensures step.Store? ==> WritersAt(t', true) == WritersAt(t, true) && WritersAt(t', false) < WritersAt(t, false)
    ensures step.Observe? || step.DropReader? ==> t'.writers == t.writers
    ensures step.Observe? ==> ReadersAt(t', Waiting) < ReadersAt(t, Waiting)
    ensures step.DropReader? ==> ReadersAt(t', Waiting) == ReadersAt(t, Waiting)
    ensures step.DropReader? ==> ReadersAt(t', Got) < ReadersAt(t, Got)
  {
    match step
    case AskWriter(u) => assert u in WritersAt(t, true) && u !in WritersAt(t', true);
    case Store(u) => assert u in WritersAt(t, false) && u !in WritersAt(t', false);
    case Observe(u) => assert u in ReadersAt(t, Waiting) && u !in ReadersAt(t', Waiting);
    case DropReader(u) => assert u in ReadersAt(t, Got) && u !in ReadersAt(t', Got);
    case _ =>
  }

  lemma FinishesFrom(t: State, step: Step, rest: seq<Step>)
    requires Enabled(t, step) && ExecStep(step) && Finishes(Apply(t, step), rest)
    ensures Finishes(t, [step] + rest) && Exec(t, [step] + rest) == Exec(Apply(t, step), rest)
  {
    assert ([step] + rest)[1..] == rest;
  }

  lemma {:induction false} CanFinish(t: State) returns (run: seq<Step>)
    requires Inv(t) && t.phase.Executing?
    ensures Finishes(t, run)
    decreases WritersAt(t, true), WritersAt(t, false), ReadersAt(t, Waiting), ReadersAt(t, Got)
  {
    var step := NextStep(t);
    if step.EndEpoch? {
      run := [];
    } else {
      var t' := Apply(t, step);
      StepKeeps(t, step);
      StepShrinks(t, step, t');
      var rest := CanFinish(t');
      FinishesFrom(t, step, rest);
      run := [step] + rest;
    }
  }

  // ----- The master at the end -----

  lemma NoReadersLeft(s: State, t: State)
    requires Segment(s, t) && Enabled(t, EndEpoch)
    ensures t.wb.refCnt == 0
  {
    assert Outstanding(t.readers) == {};
  }

  // The last placeholder is that of the last writer exactly when somebody reads behind it.
  lemma LastPlace(s: State, m: nat)
    requires Starts(s) && IsMax(s.writers.Keys, m)
    ensures (exists u :: u in s.readers && m < u) <==>
              s.wb.placeholders != [] && s.wb.placeholders[|s.wb.placeholders| - 1].id == m
  {
    var places := s.wb.placeholders;
    if u :| u in s.readers && m < u {
      assert ReaderOk(s, u) && s.readers[u].from == m;
      var x := Slot(m, s.readers[u].ver);
      var last := places[|places| - 1];
      assert x in places && last in places && PlaceOk(s, last);
      var i :| 0 <= i < |places| && places[i] == x;
      assert last.id in s.writers.Keys && m <= last.id;
    }
    if places != [] && places[|places| - 1].id == m {
      var x := places[|places| - 1];
      assert x in places && PlaceOk(s, x);
      var u :| HasReader(s, u, x);
      assert ReaderOk(s, u);
    }
  }

  lemma EndWithReaders(s: State, t: State, m: nat)
    requires Segment(s, t) && Enabled(t, EndEpoch) && s.readers != map[] && IsMax(s.writers.Keys, m)
    ensures MadeBy(t, m) <==> exists u :: u in s.readers && m < u
  {
    NoReadersLeft(s, t);
    LastPlace(s, m);
    var places := s.wb.placeholders;
    if places != [] {
      assert PlaceDone(t, places[|places| - 1]);
    }
  }

  lemma EndWithout(s: State, t: State, m: nat)
    requires Segment(s, t) && Enabled(t, EndEpoch) && s.readers == map[] && IsMax(s.writers.Keys, m)
    ensures MadeBy(t, m) <==> !Kept(s, t)
  {
    assert m in t.writers.Keys;
    if !Kept(s, t) {
      var k :| Replaced(s, t, k);
      assert k in s.writers.Keys;
    }
  }

  // The last writer's version is the master at the end of every schedule, exactly under this condition.
  predicate LastWins(s: State, m: nat) {
    (exists u :: u in s.readers && m < u) || (s.readers == map[] && s.writers.Keys == {m})
  }

  lemma LastStays(s: State, t: State, m: nat)
    requires Segment(s, t) && Enabled(t, EndEpoch) && IsMax(s.writers.Keys, m) && LastWins(s, m)
    ensures MadeBy(t, m)
  {
    if s.readers == map[] {
      EndWithout(s, t, m);
      forall u ensures !AskedEarly(t, u) {
        assert u in t.writers.Keys ==> u == m;
        assert forall w :: w in t.writers.Keys ==> w == m;
      }
    } else {
      EndWithReaders(s, t, m);
    }
  }

  // A row that nobody writes keeps its master.
  lemma UnwrittenStays(s: State, t: State)
    requires Segment(s, t) && s.writers == map[]
    ensures t.wb.master == s.wb.master == t.start
  {
    assert t.writers.Keys == {};
    PlaceHasWriter(s);
    assert forall m :: Replaced(s, t, m) ==> m in t.writers.Keys;
  }

  lemma PlaceHasWriter(s: State)
    requires Inv(s)
    ensures s.wb.placeholders != [] ==> exists w :: w in s.writers
  {
    if s.wb.placeholders != [] { assert PlaceOk(s, s.wb.placeholders[0]); }
  }

  // Without readers, a smaller writer asks first.
  lemma SmallerAsks(s: State, m: nat, u: nat)
    requires Starts(s) && IsMax(s.writers.Keys, m) && s.readers == map[] && u in s.writers && u != m
    ensures Enabled(s, AskWriter(u)) && Segment(s, Apply(s, AskWriter(u))) && Kept(s, Apply(s, AskWriter(u)))
  {
    StartSegment(s);
    AskFits(s, u);
    StepSegment(s, s, AskWriter(u));
    FirstAsk(s, s, u, Apply(s, AskWriter(u)));
    StepKeys(s, AskWriter(u), Apply(s, AskWriter(u)));
    assert m in s.writers.Keys;
  }

  lemma SmallerFirst(s: State, m: nat, u: nat) returns (run: seq<Step>)
    requires Starts(s) && IsMax(s.writers.Keys, m) && s.readers == map[] && u in s.writers && u != m
    ensures Finishes(s, run) && Segment(s, Exec(s, run)) && Kept(s, Exec(s, run))
  {
    SmallerAsks(s, m, u);
    var t := Apply(s, AskWriter(u));
    var rest := CanFinish(t);
    KeptStays(s, t, rest);
    FinishesFrom(s, AskWriter(u), rest);
    run := [AskWriter(u)] + rest;
  }

  // Otherwise a schedule that ends with another master.
  lemma LastLoses(s: State, m: nat) returns (run: seq<Step>)
    requires Starts(s) && IsMax(s.writers.Keys, m) && !LastWins(s, m)
    ensures Finishes(s, run) && !MadeBy(Exec(s, run), m)
  {
    if s.readers == map[] {
      var u :| u in s.writers.Keys && u != m;
      run := SmallerFirst(s, m, u);
      EndWithout(s, Exec(s, run), m);
    } else {
      run := CanFinish(s);
      StartSegment(s);
      RunSegment(s, s, run);
      EndWithReaders(s, Exec(s, run), m);
    }
  }

  lemma {:induction false} KeptStays(s: State, t: State, run: seq<Step>)
    requires Segment(s, t)
    requires s.readers == map[] && Kept(s, t) && IsRun(t, run) && forall i :: 0 <= i < |run| ==> ExecStep(run[i])
    ensures Segment(s, Exec(t, run)) && Kept(s, Exec(t, run))
    decreases |run|
  {
    if run != [] {
      StepParts(s, t, run[0], Apply(t, run[0]));
      StepSegment(s, t, run[0]);
      LaterAsk(s, t, run[0].t, Apply(t, run[0]));
      KeptStays(s, Apply(t, run[0]), run[1..]);
    }
  }

  // In every epoch: the version of the last writer is the master at the end of every schedule, if and only if somebody
  // reads behind it or it is the only writer and nobody reads.
  lemma MasterIsLastIff(s0: State, steps: seq<Step>, m: nat)
    requires Init(s0) && IsRun(s0, steps) && Exec(s0, steps).phase.Reading? && IsMax(Exec(s0, steps).writers.Keys, m)
    ensures var s := Apply(Exec(s0, steps), StartExecuting);
            (forall run :: Finishes(s, run) ==> MadeBy(Exec(s, run), m)) <==> LastWins(s, m)
  {
    Reachable(s0, steps);
    StartsHere(Exec(s0, steps));
    var s := Apply(Exec(s0, steps), StartExecuting);
    if LastWins(s, m) {
      StartSegment(s);
      forall run | Finishes(s, run) ensures MadeBy(Exec(s, run), m) {
        RunSegment(s, s, run);
        LastStays(s, Exec(s, run), m);
      }
    } else {
      var run := LastLoses(s, m);
    }
  }

  // ----- What is freed and what is lost -----

  // When the last reader goes and there are placeholders, the version of everybody who read the old master is freed.
  lemma LastDropFrees(s0: State, steps: seq<Step>, u: nat, w: nat)
    requires Init(s0) && IsRun(s0, steps)
    requires var t := Exec(s0, steps);
             Enabled(t, DropReader(u)) && t.wb.refCnt == 1 && t.wb.placeholders != [] && w in t.readers
    ensures var t := Exec(s0, steps); t.readers[w].from < 0 ==> t.readers[w].ver in Frees(t, DropReader(u))
  {
    Reachable(s0, steps);
    assert ReaderOk(Exec(s0, steps), w);
  }

  // At the end of the epoch a version that somebody read is freed, if and only if it is the old master and somebody
  // else read a version of the epoch.
  lemma ReadIsFreedIff(s0: State, steps: seq<Step>, run: seq<Step>, u: nat)
    requires Init(s0) && IsRun(s0, steps) && Exec(s0, steps).phase.Reading? && u in Exec(s0, steps).readers
    requires Finishes(Apply(Exec(s0, steps), StartExecuting), run)
    ensures var s := Exec(s0, steps);
            s.readers[u].ver in Exec(Apply(s, StartExecuting), run).freed <==>
              s.readers[u].from < 0 && exists w :: w in s.readers && s.readers[w].from >= 0
  {
    Reachable(s0, steps);
    StartsHere(Exec(s0, steps));
    var s := Apply(Exec(s0, steps), StartExecuting);
    StartSegment(s);
    RunSegment(s, s, run);
    NoReadersLeft(s, Exec(s, run));
    assert ReaderOk(s, u);
    if s.readers[u].from >= 0 { assert PlaceOk(s, Slot(s.readers[u].from, s.readers[u].ver)); }
    PlacesIff(s);
  }

  lemma PlacesIff(s: State)
    requires Starts(s)
    ensures s.wb.placeholders != [] <==> exists w :: w in s.readers && s.readers[w].from >= 0
  {
    if s.wb.placeholders != [] {
      var x := s.wb.placeholders[0];
      assert PlaceOk(s, x);
      var u :| HasReader(s, u, x);
    }
    if w :| w in s.readers && s.readers[w].from >= 0 {
      assert ReaderOk(s, w);
    }
  }

  // A version that is stable, and nobody can reach or will free.
  ghost predicate Lost(t: State, v: VersionId) {
    v in t.stable && v !in t.freed && v != t.wb.master
  }

  // Each epoch loses exactly the versions of its placeholders but the last.
  lemma LostIff(s0: State, steps: seq<Step>, run: seq<Step>, v: VersionId)
    requires Init(s0) && IsRun(s0, steps) && Exec(s0, steps).phase.Reading?
    requires Finishes(Apply(Exec(s0, steps), StartExecuting), run)
    ensures var s := Exec(s0, steps);
            Lost(Exec(Apply(s, StartExecuting), run), v) <==>
              Lost(s, v) || exists i :: 0 <= i < |s.wb.placeholders| - 1 && s.wb.placeholders[i].ver == v
  {
    Reachable(s0, steps);
    StartsHere(Exec(s0, steps));
    var s := Apply(Exec(s0, steps), StartExecuting);
    StartSegment(s);
    RunSegment(s, s, run);
    NoReadersLeft(s, Exec(s, run));
    if s.readers == map[] {
      LostAlone(s, Exec(s, run), v);
    } else {
      LostWithReaders(s, Exec(s, run), v);
    }
  }

  lemma LostAlone(s: State, t: State, v: VersionId)
    requires Segment(s, t) && s.readers == map[] && Enabled(t, EndEpoch)
    ensures s.wb.placeholders == [] && (Lost(t, v) <==> Lost(s, v))
  {
    OutNone(s.readers);
    if !Untouched(s, t) && !Kept(s, t) {
      var m :| Replaced(s, t, m);
    }
  }

  lemma PlaceAt(s: State, i: nat)
    requires Starts(s) && i < |s.wb.placeholders|
    ensures var places := s.wb.placeholders;
            && places[i] in places && places[i].ver !in s.stable && places[i].ver !in s.freed
            && places[i].ver != s.wb.master
            && (places[i].ver == Heir(s) <==> i == |places| - 1)
  {
    var places := s.wb.placeholders;
    var last := places[|places| - 1];
    assert PlaceOk(s, places[i]) && PlaceOk(s, last);
    assert i < |places| - 1 ==> places[i].id < last.id;
  }

  lemma LostWithReaders(s: State, t: State, v: VersionId)
    requires Segment(s, t) && s.readers != map[] && t.wb.refCnt == 0
    ensures Lost(t, v) <==> Lost(s, v) || exists i :: 0 <= i < |s.wb.placeholders| - 1 && s.wb.placeholders[i].ver == v
  {
    var places := s.wb.placeholders;
    if places != [] { PlaceAt(s, |places| - 1); }
    if IsPlace(s, v) {
      var x :| x in places && x.ver == v;
      var i :| 0 <= i < |places| && places[i] == x;
      PlaceAt(s, i);
      assert PlaceDone(t, x);
      forall j | 0 <= j < |places| && places[j].ver == v ensures j < |places| - 1 <==> i < |places| - 1 {
        PlaceAt(s, j);
      }
    }
  }
}
