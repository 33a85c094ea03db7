/** The spinning barrier between the phases of the epoch engines (`rendezvous_barrier.hpp`): one parent, any number of
    children, one counter and one flag that are reused by every barrier of a run. */
module Barrier {
  type Type = nat

  const BEFORE_EXP: Type := 0  // the flag's first value

  datatype ParentPc = Working | Waiting | Released | Rearmed

  // `k` is the number of barriers passed.
  datatype Parent = Parent(k: nat, pc: ParentPc)

  // `ready`: has decremented the counter and spins on the flag.
  datatype Child = Child(k: nat, ready: bool)

  datatype State = State(types: seq<Type>, ready: int, start: Type, parent: Parent, children: seq<Child>)

  datatype Step =
    | Enter          // parent: reaches its next barrier
    | SeeReady       // parent: loads ready_ <= 0
    | Rearm          // parent: ready_ = num_children_
    | SendStart      // parent: start_ = type
    | SendReady(c: nat)  // child: --ready_
    | SeeStart(c: nat)   // child: loads start_ == type

  predicate Enabled(s: State, step: Step) {
    match step
    case Enter => s.parent.pc.Working? && s.parent.k < |s.types|
    case SeeReady => s.parent.pc.Waiting? && s.ready <= 0
    case Rearm => s.parent.pc.Released?
    case SendStart => s.parent.pc.Rearmed? && s.parent.k < |s.types|
    case SendReady(c) => c < |s.children| && s.children[c].k < |s.types| && !s.children[c].ready
    case SeeStart(c) =>
      c < |s.children| && s.children[c].ready && s.children[c].k < |s.types| && s.start == s.types[s.children[c].k]
  }

  function Apply(s: State, step: Step): State
    requires Enabled(s, step)
  {
    match step
    case Enter => s.(parent := s.parent.(pc := Waiting))
    case SeeReady => s.(parent := s.parent.(pc := Released))
    case Rearm => s.(ready := |s.children|, parent := s.parent.(pc := Rearmed))
    case SendStart => s.(start := s.types[s.parent.k], parent := Parent(s.parent.k + 1, Working))
    case SendReady(c) => s.(ready := s.ready - 1, children := s.children[c := s.children[c].(ready := true)])
    case SeeStart(c) => s.(children := s.children[c := Child(s.children[c].k + 1, false)])
  }

  predicate Init(s: State) {
    && s.ready == |s.children| && s.start == BEFORE_EXP && s.parent == Parent(0, Working)
    && forall c :: 0 <= c < |s.children| ==> s.children[c] == Child(0, false)
  }

  // The types used one after the other differ.
  predicate Alternates(types: seq<Type>) {
    (|types| > 0 ==> types[0] != BEFORE_EXP) && forall k :: 0 < k < |types| ==> types[k - 1] != types[k]
  }

  predicate IsRun(s: State, steps: seq<Step>)
    decreases |steps|
  {
    steps == [] || (Enabled(s, steps[0]) && IsRun(Apply(s, steps[0]), steps[1..]))
  }

  function Exec(s: State, steps: seq<Step>): State
    requires IsRun(s, steps)
    decreases |steps|
  {
    if steps == [] then s else Exec(Apply(s, steps[0]), steps[1..])
  }

  // ----- What holds throughout -----

  // The children that have come to the parent's barrier.
  ghost function Arrived(s: State): set<nat> {
    set c | 0 <= c < |s.children| && s.children[c] == Child(s.parent.k, true)
  }

  ghost predicate ChildOk(s: State, c: nat)
    requires c < |s.children|
  {
    var x, p := s.children[c], s.parent;
    if p.pc.Released? || p.pc.Rearmed? then x == Child(p.k, true)
    else x.k == p.k || (x.k + 1 == p.k && x.ready)
  }

  ghost predicate Inv(s: State) {
    && Alternates(s.types)
    && s.parent.k <= |s.types| && (!s.parent.pc.Working? ==> s.parent.k < |s.types|)
    && s.start == (if s.parent.k == 0 then BEFORE_EXP else s.types[s.parent.k - 1])
    && (forall c {:trigger ChildOk(s, c)} :: 0 <= c < |s.children| ==> ChildOk(s, c))
    && (s.parent.k == |s.types| ==> forall c :: 0 <= c < |s.children| ==> s.children[c] != Child(s.parent.k, true))
    && s.ready == (if s.parent.pc.Released? then 0
                   else if s.parent.pc.Rearmed? then |s.children|
                   else |s.children| - |Arrived(s)|)
  }

  ghost function Indices(n: nat): (r: set<nat>)
    ensures |r| == n && forall c :: c in r <==> 0 <= c < n
  {
    if n == 0 then {} else Indices(n - 1) + {n - 1}
  }

  // Counting: at most all children have arrived, and all of them exactly when the counter is 0.
  lemma ArrivedCount(s: State)
    ensures |Arrived(s)| <= |s.children|
    ensures |Arrived(s)| == |s.children| <==>
            forall c :: 0 <= c < |s.children| ==> s.children[c] == Child(s.parent.k, true)
  {
    var all := Indices(|s.children|);
    SubsetCount(Arrived(s), all);
    if Arrived(s) == all {
      forall c | 0 <= c < |s.children| ensures s.children[c] == Child(s.parent.k, true) { assert c in all; }
    }
  }

  lemma {:induction false} SubsetCount(a: set<nat>, b: set<nat>)
    requires a <= b
    ensures |a| <= |b| && (|a| == |b| <==> a == b)
  {
    if a != {} {
      var x :| x in a;
      SubsetCount(a - {x}, b - {x});
      assert a == a - {x} + {x} && b == b - {x} + {x};
    } else if b != {} {
      assert |b| > 0;
    }
  }

  lemma ParentKeeps(s: State, step: Step)
    requires Inv(s) && Enabled(s, step) && !step.SendReady? && !step.SeeStart?
    ensures Inv(Apply(s, step))
  {
    var s' := Apply(s, step);
    ArrivedCount(s);
    forall c | 0 <= c < |s'.children| ensures ChildOk(s', c) {
      assert ChildOk(s, c);
    }
    if step.SendStart? {
      forall c | 0 <= c < |s.children| ensures s'.children[c].k == s.parent.k { assert ChildOk(s, c); }
      assert Arrived(s') == {};
    } else {
      assert Arrived(s') == Arrived(s);
    }
  }

  lemma SendReadyKeeps(s: State, c: nat, s': State)
    requires Inv(s) && Enabled(s, SendReady(c)) && s' == Apply(s, SendReady(c))
    ensures Inv(s')
  {
    assert ChildOk(s, c);
    forall d | 0 <= d < |s'.children| ensures ChildOk(s', d) {
      assert ChildOk(s, d);
    }
    assert Arrived(s') == Arrived(s) + {c} && c !in Arrived(s);
  }

  lemma SeeStartKeeps(s: State, c: nat, s': State)
    requires Inv(s) && Enabled(s, SeeStart(c)) && s' == Apply(s, SeeStart(c))
    ensures Inv(s')
  {
    assert ChildOk(s, c);
    assert s.children[c].k + 1 == s.parent.k;
    forall d | 0 <= d < |s'.children| ensures ChildOk(s', d) {
      assert ChildOk(s, d);
    }
    assert Arrived(s') == Arrived(s);
  }

  lemma {:induction false} RunKeeps(s: State, steps: seq<Step>)
    requires Inv(s) && IsRun(s, steps)
    ensures Inv(Exec(s, steps))
    decreases |steps|
  {
    if steps != [] {
      match steps[0] {
        case SendReady(c) => SendReadyKeeps(s, c, Apply(s, steps[0]));
        case SeeStart(c) => SeeStartKeeps(s, c, Apply(s, steps[0]));
        case _ => ParentKeeps(s, steps[0]);
      }
      RunKeeps(Apply(s, steps[0]), steps[1..]);
    }
  }

  lemma Reachable(s: State, steps: seq<Step>)
    requires Init(s) && Alternates(s.types) && IsRun(s, steps)
    ensures Inv(Exec(s, steps))
  {
    assert Arrived(s) == {};
    forall c | 0 <= c < |s.children| ensures ChildOk(s, c) { }
    RunKeeps(s, steps);
  }

  // ----- What the barrier promises -----

  predicate ParentCame(s: State, k: nat) {
    s.parent.k > k || (s.parent.k == k && !s.parent.pc.Working?)
  }

  predicate ChildCame(s: State, c: nat, k: nat)
    requires c < |s.children|
  {
    s.children[c].k > k || (s.children[c].k == k && s.children[c].ready)
  }

  predicate AllCame(s: State, k: nat) {
    ParentCame(s, k) && forall c :: 0 <= c < |s.children| ==> ChildCame(s, c, k)
  }

  // A thread that has passed barrier k has waited for everyone to come to it.
  predicate Together(s: State) {
    && (forall k :: 0 <= k < s.parent.k ==> AllCame(s, k))
    && (forall c, k :: 0 <= c < |s.children| && 0 <= k < s.children[c].k ==> AllCame(s, k))
  }

  lemma NobodyPassesAlone(s: State, steps: seq<Step>)
    requires Init(s) && Alternates(s.types) && IsRun(s, steps)
    ensures Together(Exec(s, steps)) && 0 <= Exec(s, steps).ready <= |s.children|
  {
    Reachable(s, steps);
    SameChildren(s, steps);
    var s' := Exec(s, steps);
    ArrivedCount(s');
    forall k | 0 <= k < s'.parent.k ensures AllCame(s', k) {
      forall c | 0 <= c < |s'.children| ensures ChildCame(s', c, k) { assert ChildOk(s', c); }
    }
    forall c, k | 0 <= c < |s'.children| && 0 <= k < s'.children[c].k ensures AllCame(s', k) {
      assert ChildOk(s', c);
    }
  }

  lemma {:induction false} SameChildren(s: State, steps: seq<Step>)
    requires IsRun(s, steps)
    ensures |Exec(s, steps).children| == |s.children| && Exec(s, steps).types == s.types
    decreases |steps|
  {
    if steps != [] {
      SameChildren(Apply(s, steps[0]), steps[1..]);
    }
  }

  predicate Finished(s: State) {
    s.parent == Parent(|s.types|, Working)
      && forall c :: 0 <= c < |s.children| ==> s.children[c] == Child(|s.types|, false)
  }

  // Nobody spins for ever: until all have passed all barriers, some thread can step.
  lemma SomeoneCanStep(s: State, steps: seq<Step>)
    requires Init(s) && Alternates(s.types) && IsRun(s, steps) && !Finished(Exec(s, steps))
    ensures exists step :: Enabled(Exec(s, steps), step)
  {
    Reachable(s, steps);
    var s' := Exec(s, steps);
    match s'.parent.pc
    case Released => assert Enabled(s', Rearm);
    case Rearmed => assert Enabled(s', SendStart);
    case Waiting =>
      if c :| 0 <= c < |s'.children| && s'.children[c] != Child(s'.parent.k, true) {
        assert ChildOk(s', c);
        assert Enabled(s', if s'.children[c].ready then SeeStart(c) else SendReady(c));
      } else {
        ArrivedCount(s');
        assert Enabled(s', SeeReady);
      }
    case Working =>
      if s'.parent.k < |s'.types| {
        assert Enabled(s', Enter);
      } else {
        var c :| 0 <= c < |s'.children| && s'.children[c] != Child(|s'.types|, false);
        assert ChildOk(s', c);
        assert Enabled(s', SeeStart(c));
      }
  }

  // The steps still to be taken; every step takes one.
  ghost function StepsLeft(s: State): int {
    4 * (|s.types| - s.parent.k)
    - (match s.parent.pc case Working => 0 case Waiting => 1 case Released => 2 case Rearmed => 3)
    + ChildStepsLeft(s.types, s.children)
  }

  ghost function ChildStepsLeft(types: seq<Type>, children: seq<Child>): int {
    if children == [] then 0
    else 2 * (|types| - children[0].k) - (if children[0].ready then 1 else 0) + ChildStepsLeft(types, children[1..])
  }

  lemma {:induction false} ChildStepsUpdate(types: seq<Type>, children: seq<Child>, c: nat, x: Child)
    requires c < |children|
    requires 2 * x.k + (if x.ready then 1 else 0) == 2 * children[c].k + (if children[c].ready then 1 else 0) + 1
    ensures ChildStepsLeft(types, children[c := x]) == ChildStepsLeft(types, children) - 1
  {
    if c > 0 {
      ChildStepsUpdate(types, children[1..], c - 1, x);
      assert children[c := x][1..] == children[1..][c - 1 := x];
    } else {
      assert children[c := x][1..] == children[1..];
    }
  }

  lemma {:induction false} RunLength(s: State, steps: seq<Step>)
    requires IsRun(s, steps)
    ensures StepsLeft(Exec(s, steps)) == StepsLeft(s) - |steps|
    decreases |steps|
  {
    if steps != [] {
      var s' := Apply(s, steps[0]);
      match steps[0] {
        case SendReady(c) => ChildStepsUpdate(s.types, s.children, c, s'.children[c]);
        case SeeStart(c) => ChildStepsUpdate(s.types, s.children, c, s'.children[c]);
        case _ =>
      }
      RunLength(s', steps[1..]);
    }
  }

  lemma {:induction false} ChildLeftPositive(types: seq<Type>, children: seq<Child>)
    requires forall c :: 0 <= c < |children| ==> children[c].k < |types| || children[c] == Child(|types|, false)
    ensures ChildStepsLeft(types, children) >= 0
  {
    if children != [] {
      ChildLeftPositive(types, children[1..]);
    }
  }

  // No run is longer than the steps there are.
  lemma RunsEnd(s: State, steps: seq<Step>)
    requires Init(s) && Alternates(s.types) && IsRun(s, steps)
    ensures |steps| <= StepsLeft(s)
  {
    Reachable(s, steps);
    RunLength(s, steps);
    var t := Exec(s, steps);
    forall c | 0 <= c < |t.children| ensures t.children[c].k < |t.types| || t.children[c] == Child(|t.types|, false) {
      assert ChildOk(t, c);
    }
    ChildLeftPositive(t.types, t.children);
  }

  // ----- The exact condition -----

  ghost predicate Reaches(s: State, t: State) {
    exists steps :: IsRun(s, steps) && Exec(s, steps) == t
  }

  lemma {:induction false} RunAppend(s: State, steps: seq<Step>, step: Step)
    requires IsRun(s, steps) && Enabled(Exec(s, steps), step)
    ensures IsRun(s, steps + [step]) && Exec(s, steps + [step]) == Apply(Exec(s, steps), step)
    decreases |steps|
  {
    if steps == [] {
      assert steps + [step] == [step];
      assert IsRun(Apply(s, step), []);
    } else {
      RunAppend(Apply(s, steps[0]), steps[1..], step);
      assert (steps + [step])[1..] == steps[1..] + [step];
    }
  }

  lemma ReachStep(s: State, t: State, step: Step)
    requires Reaches(s, t) && Enabled(t, step)
    ensures Reaches(s, Apply(t, step))
  {
    var steps :| IsRun(s, steps) && Exec(s, steps) == t;
    RunAppend(s, steps, step);
  }

  // Everybody stands before barrier k.
  ghost predicate AllBefore(t: State, k: nat) {
    && k <= |t.types| && t.parent == Parent(k, Working) && t.ready == |t.children|
    && t.start == (if k == 0 then BEFORE_EXP else t.types[k - 1])
    && forall c :: 0 <= c < |t.children| ==> t.children[c] == Child(k, false)
  }

  // The children from c on come to the barrier.
  lemma {:induction false} ComeFrom(s: State, t: State, c: nat) returns (t': State)
    requires Reaches(s, t) && c <= |t.children|
    requires forall d :: c <= d < |t.children| ==> t.children[d].k < |t.types| && !t.children[d].ready
    ensures Reaches(s, t') && t' == t.(ready := t.ready - (|t.children| - c), children := t'.children)
    ensures |t'.children| == |t.children|
    ensures forall d :: 0 <= d < |t.children| ==>
              t'.children[d] == if d < c then t.children[d] else Child(t.children[d].k, true)
    decreases |t.children| - c
  {
    t' := t;
    if c < |t.children| {
      ReachStep(s, t, SendReady(c));
      t' := ComeFrom(s, Apply(t, SendReady(c)), c + 1);
    }
  }

  // The children from c on pass it.
  lemma {:induction false} PassFrom(s: State, t: State, c: nat, k: nat) returns (t': State)
    requires Reaches(s, t) && c <= |t.children| && k < |t.types| && t.start == t.types[k]
    requires forall d :: c <= d < |t.children| ==> t.children[d] == Child(k, true)
    ensures Reaches(s, t') && t' == t.(children := t'.children) && |t'.children| == |t.children|
    ensures forall d :: 0 <= d < |t.children| ==> t'.children[d] == if d < c then t.children[d] else Child(k + 1, false)
    decreases |t.children| - c
  {
    t' := t;
    if c < |t.children| {
      ReachStep(s, t, SeeStart(c));
      t' := PassFrom(s, Apply(t, SeeStart(c)), c + 1, k);
    }
  }

  // Everybody passes barrier k together, whatever the types.
  lemma Round(s: State, t: State, k: nat) returns (t': State)
    requires Reaches(s, t) && AllBefore(t, k) && k < |t.types|
    ensures Reaches(s, t') && AllBefore(t', k + 1) && t'.types == t.types && |t'.children| == |t.children|
  {
    t' := ComeFrom(s, t, 0);
    t' := Release(s, t', k);
    t' := PassFrom(s, t', 0, k);
  }

  lemma Release(s: State, t: State, k: nat) returns (t': State)
    requires Reaches(s, t) && t.parent == Parent(k, Working) && k < |t.types| && t.ready == 0
    ensures Reaches(s, t') && t' == t.(parent := Parent(k + 1, Working), ready := |t.children|, start := t.types[k])
  {
    ReachStep(s, t, Enter);
    var t1 := Apply(t, Enter);
    ReachStep(s, t1, SeeReady);
    var t2 := Apply(t1, SeeReady);
    ReachStep(s, t2, Rearm);
    var t3 := Apply(t2, Rearm);
    ReachStep(s, t3, SendStart);
    t' := Apply(t3, SendStart);
  }

  lemma {:induction false} Rounds(s: State, k: nat) returns (t: State)
    requires Init(s) && k <= |s.types|
    ensures Reaches(s, t) && AllBefore(t, k) && t.types == s.types && |t.children| == |s.children|
  {
    if k == 0 {
      assert IsRun(s, []) && Exec(s, []) == s;
      t := s;
    } else {
      t := Rounds(s, k - 1);
      t := Round(s, t, k - 1);
    }
  }

  // When the flag still shows the type of barrier k, child 0 runs through it while the parent has not come.
  lemma PassAlone(s: State, t: State, k: nat)
    requires Reaches(s, t) && AllBefore(t, k) && k < |t.types| && t.start == t.types[k] && |t.children| > 0
    ensures exists steps :: IsRun(s, steps) && !Together(Exec(s, steps))
  {
    ReachStep(s, t, SendReady(0));
    var t1 := Apply(t, SendReady(0));
    ReachStep(s, t1, SeeStart(0));
    var t2 := Apply(t1, SeeStart(0));
    assert t2.children[0].k == k + 1 && !ParentCame(t2, k);
    assert !AllCame(t2, k);
    assert !Together(t2);
  }

  // Nobody ever passes a barrier alone, if and only if there is nobody to do so or the types used one after the other
  // differ.
  lemma TogetherIff(s: State)
    requires Init(s)
    ensures (forall steps :: IsRun(s, steps) ==> Together(Exec(s, steps))) <==> |s.children| == 0 || Alternates(s.types)
  {
    if Alternates(s.types) {
      forall steps | IsRun(s, steps) ensures Together(Exec(s, steps)) { NobodyPassesAlone(s, steps); }
    } else if |s.children| == 0 {
      forall steps | IsRun(s, steps) ensures Together(Exec(s, steps)) { SameChildren(s, steps); }
    } else {
      var k := FirstRepeat(s.types);
      var t := Rounds(s, k);
      PassAlone(s, t, k);
    }
  }

  lemma FirstRepeat(types: seq<Type>) returns (k: nat)
    requires !Alternates(types)
    ensures k < |types| && types[k] == if k == 0 then BEFORE_EXP else types[k - 1]
  {
    if |types| > 0 && types[0] == BEFORE_EXP {
      k := 0;
    } else {
      k :| 0 < k < |types| && types[k - 1] == types[k];
    }
  }

  // ----- The sequences in use -----

  const EXP: Type := 1
  const INIT_PHASE: Type := 2
  const EXEC_PHASE: Type := 3
  const NEW_EPOC: Type := 4

  // The barriers of run_tx: one before the first epoch, then the given ones in every epoch.
  function RunTypes(perEpoch: seq<Type>, epochs: nat): (types: seq<Type>)
    ensures |types| > 0
  {
    if epochs == 0 then [EXP] else RunTypes(perEpoch, epochs - 1) + perEpoch
  }

  lemma {:induction false} RunAlternates(perEpoch: seq<Type>, epochs: nat)
    requires perEpoch == [EXEC_PHASE, NEW_EPOC] || perEpoch == [INIT_PHASE, EXEC_PHASE, NEW_EPOC]
    ensures var types := RunTypes(perEpoch, epochs); Alternates(types) && types[|types| - 1] in {EXP, NEW_EPOC}
  {
    if epochs > 0 {
      RunAlternates(perEpoch, epochs - 1);
      var front := RunTypes(perEpoch, epochs - 1);
      var types := front + perEpoch;
      forall k | 0 < k < |types| ensures types[k - 1] != types[k] {
        if k < |front| { assert types[k - 1] == front[k - 1] && types[k] == front[k]; }
      }
    }
  }

  // Caracal and Serval, and Serval_RC, keep their threads together over any number of epochs.
  lemma EpochsStayTogether(s: State, perEpoch: seq<Type>, epochs: nat, steps: seq<Step>)
    requires perEpoch == [EXEC_PHASE, NEW_EPOC] || perEpoch == [INIT_PHASE, EXEC_PHASE, NEW_EPOC]
    requires Init(s) && s.types == RunTypes(perEpoch, epochs) && IsRun(s, steps)
    ensures Together(Exec(s, steps)) && (!Finished(Exec(s, steps)) ==> exists step :: Enabled(Exec(s, steps), step))
  {
    RunAlternates(perEpoch, epochs);
    NobodyPassesAlone(s, steps);
    if !Finished(Exec(s, steps)) { SomeoneCanStep(s, steps); }
  }
}
