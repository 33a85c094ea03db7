/** The wait-die lock of `waitdielock.hpp`: owner modes I, S and E, waiter kinds S, E and U, two lists sorted from the
    largest timestamp to the smallest, and the promotion loop. The class is the lock as written; the functions on
    `LockState` say what each method does to the state; the lemmas say what that keeps. */
module WaitDieLock {

  type TS = nat

  datatype Operation = I | S | E | U

  datatype Waiter = Waiter(ts: TS, op: Operation)

  datatype LockState = LockState(op: Operation, owners: seq<TS>, waiters: seq<Waiter>)

  // How a call ends: with the lock, spinning in the waiter list, refused, or with an exception.
  datatype Outcome = Granted | Queued | Denied | Threw

  datatype Option<T> = None | Some(value: T)

  // ---- TimestampSortedList ----

  function Times(ws: seq<Waiter>): (r: seq<TS>)
    ensures |r| == |ws| && forall i :: 0 <= i < |ws| ==> r[i] == ws[i].ts
  {
    seq(|ws|, i requires 0 <= i < |ws| => ws[i].ts)
  }

  ghost predicate Descending(tss: seq<TS>) {
    forall i, j :: 0 <= i < j < |tss| ==> tss[i] > tss[j]
  }

  // Where a new timestamp goes: before the first smaller one.
  function Position(tss: seq<TS>, ts: TS): (p: nat)
    ensures p <= |tss| && (forall i :: 0 <= i < p ==> tss[i] >= ts) && (p < |tss| ==> tss[p] < ts)
  {
    if tss == [] || tss[0] < ts then 0 else 1 + Position(tss[1..], ts)
  }

  lemma PositionUnique(tss: seq<TS>, ts: TS, p: nat)
    requires p <= |tss| && (forall i :: 0 <= i < p ==> tss[i] >= ts) && (p < |tss| ==> tss[p] < ts)
    ensures Position(tss, ts) == p
  {
  }

  function InsertAt<T>(xs: seq<T>, p: nat, x: T): seq<T>
    requires p <= |xs|
  {
    xs[..p] + [x] + xs[p..]
  }

  function InsertOwner(owners: seq<TS>, ts: TS): seq<TS> {
    InsertAt(owners, Position(owners, ts), ts)
  }

  function InsertWaiter(ws: seq<Waiter>, w: Waiter): seq<Waiter> {
    InsertAt(ws, Position(Times(ws), w.ts), w)
  }

  // The list without its first element of this timestamp, or None where the code throws.
  function RemoveOwner(owners: seq<TS>, ts: TS): (r: Option<seq<TS>>)
    ensures r.Some? <==> ts in owners
  {
    if owners == [] then None
    else if owners[0] == ts then Some(owners[1..])
    else match RemoveOwner(owners[1..], ts)
      case None => None
      case Some(rest) => Some([owners[0]] + rest)
  }

  lemma {:induction false} RemoveOwnerIs(owners: seq<TS>, ts: TS, i: nat)
    requires i < |owners| && owners[i] == ts && forall j :: 0 <= j < i ==> owners[j] != ts
    ensures RemoveOwner(owners, ts) == Some(owners[..i] + owners[i + 1..])
  {
    if i == 0 {
      assert owners[..i] + owners[i + 1..] == owners[1..];
    } else {
      RemoveOwnerIs(owners[1..], ts, i - 1);
      assert owners[..i] == [owners[0]] + owners[1..][..i - 1];
      assert owners[1..][i..] == owners[i + 1..];
      assert [owners[0]] + (owners[1..][..i - 1] + owners[1..][i..]) == owners[..i] + owners[i + 1..];
    }
  }

  // ---- What the calls do ----

  function Min(l: LockState): TS
    requires l.owners != []
  {
    l.owners[|l.owners| - 1]
  }

  function Enqueue(l: LockState, ts: TS, op: Operation): LockState {
    l.(waiters := InsertWaiter(l.waiters, Waiter(ts, op)))
  }

  // A state without owners in mode S or E is never reached; the code would read past the end of its list there.
  predicate Proper(l: LockState) {
    l.op != U && (l.op == I <==> l.owners == [])
  }

  function SharedCall(l: LockState, ts: TS): (LockState, Outcome)
    requires Proper(l)
  {
    if l.op in {I, S} && l.waiters == [] then (l.(owners := InsertOwner(l.owners, ts), op := S), Granted)
    else if l.op == I then (Enqueue(l, ts, S), Queued)
    else if Min(l) > ts then (Enqueue(l, ts, S), Queued)
    else (l, Denied)
  }

  function ExclusiveCall(l: LockState, ts: TS): (LockState, Outcome)
    requires Proper(l)
  {
    if l.op == I && l.waiters == [] then (l.(owners := InsertOwner(l.owners, ts), op := E), Granted)
    else if l.op == I then (Enqueue(l, ts, E), Queued)
    else if Min(l) > ts then (Enqueue(l, ts, E), Queued)
    else (l, Denied)
  }

  function UpgradeCall(l: LockState, ts: TS): (LockState, Outcome)
    requires Proper(l)
  {
    if l.op in {I, E} then (l, Threw)
    else if Min(l) == ts && |l.owners| > 1 then (Enqueue(l, ts, U), Queued)
    else if Min(l) == ts then (l.(op := E), Granted)
    else (l, Denied)
  }

  // One look at the head of the waiter list: stop, throw, or promote it.
  datatype Turn = Stop | Fail | Go(next: LockState)

  function PromoteOne(l: LockState): Turn {
    if l.waiters == [] then Stop
    else
      var w := l.waiters[0];
      if (w.op == S && l.op == E) || (w.op == E && l.op in {S, E})
        || (w.op == U && l.op == S && |l.owners| > 1) then Stop
      else if w.op == U && l.op in {I, E} then Fail
      else if w.op == S && l.op in {I, S} then Go(LockState(S, InsertOwner(l.owners, w.ts), l.waiters[1..]))
      else if w.op == E && l.op == I then Go(LockState(E, InsertOwner(l.owners, w.ts), l.waiters[1..]))
      else if w.op == U && l.op == S && |l.owners| == 1 then Go(LockState(E, l.owners, l.waiters[1..]))
      else Fail
  }

  function PromoteWaiters(l: LockState): (LockState, bool)
    decreases |l.waiters|
  {
    match PromoteOne(l)
    case Stop => (l, true)
    case Fail => (l, false)
    case Go(next) => PromoteWaiters(next)
  }

  function Release(l: LockState, ts: TS, mode: Operation): (LockState, Outcome) {
    if l.op != mode then (l, Threw)
    else match RemoveOwner(l.owners, ts)
      case None => (l, Threw)
      case Some(rest) =>
        var (l', ok) := PromoteWaiters(l.(owners := rest, op := if rest == [] then I else l.op));
        (l', if ok then Granted else Threw)
  }

  // ---- The lock as written ----

  class WaitDieLock {
    var op: Operation
    var owners: seq<TS>
    var waiters: seq<Waiter>

    function State(): LockState
      reads this
    {
      LockState(op, owners, waiters)
    }

    constructor ()
      ensures State() == LockState(I, [], [])
    {
      op, owners, waiters := I, [], [];
    }

    static method FindPosition(tss: seq<TS>, ts: TS) returns (p: nat)
      ensures p == Position(tss, ts)
    {
      p := 0;
      while p < |tss| && !(tss[p] < ts)
        invariant p <= |tss| && forall i :: 0 <= i < p ==> tss[i] >= ts
      {
        p := p + 1;
      }
      PositionUnique(tss, ts, p);
    }

    method AddOwner(ts: TS)
      modifies this`owners
      ensures owners == InsertOwner(old(owners), ts)
    {
      var p := FindPosition(owners, ts);
      owners := owners[..p] + [ts] + owners[p..];
    }

    method AddWaiter(ts: TS, kind: Operation)
      modifies this`waiters
      ensures waiters == InsertWaiter(old(waiters), Waiter(ts, kind))
    {
      var p := FindPosition(Times(waiters), ts);
      waiters := waiters[..p] + [Waiter(ts, kind)] + waiters[p..];
    }

    method DropOwner(ts: TS) returns (ok: bool)
      modifies this`owners, this`op
      ensures match RemoveOwner(old(owners), ts)
              case None => !ok && owners == old(owners) && op == old(op)
              case Some(rest) => ok && owners == rest && op == if rest == [] then I else old(op)
    {
      var i := 0;
      while i < |owners| && owners[i] != ts
        invariant 0 <= i <= |owners| && forall j :: 0 <= j < i ==> owners[j] != ts
      {
        i := i + 1;
      }
      if i == |owners| { return false; }
      RemoveOwnerIs(owners, ts, i);
      owners := owners[..i] + owners[i + 1..];
      if owners == [] { op := I; }
      ok := true;
    }

    method TryLockShared(ts: TS) returns (r: Outcome)
      requires Proper(State())
      modifies this
      ensures (State(), r) == SharedCall(old(State()), ts)
    {
      var noWaiter := waiters == [];
      if (op == I || op == S) && noWaiter {
        AddOwner(ts);
        op := S;
        return Granted;
      }
      if op == I && !noWaiter {
        AddWaiter(ts, S);
        return Queued;
      }
      if (op == S && !noWaiter) || op == E {
        if owners[|owners| - 1] > ts {
          AddWaiter(ts, S);
          return Queued;
        }
        return Denied;
      }
      r := Threw;
    }

    method TryLock(ts: TS) returns (r: Outcome)
      requires Proper(State())
      modifies this
      ensures (State(), r) == ExclusiveCall(old(State()), ts)
    {
      var noWaiter := waiters == [];
      if op == I && noWaiter {
        AddOwner(ts);
        op := E;
        return Granted;
      }
      if op == I && !noWaiter {
        AddWaiter(ts, E);
        return Queued;
      }
      if op == S || op == E {
        if owners[|owners| - 1] > ts {
          AddWaiter(ts, E);
          return Queued;
        }
        return Denied;
      }
      r := Threw;
    }

    method TryLockUpgrade(ts: TS) returns (r: Outcome)
      requires Proper(State())
      modifies this
      ensures (State(), r) == UpgradeCall(old(State()), ts)
    {
      if op == I || op == E { return Threw; }
      var minTs, numOwners := owners[|owners| - 1], |owners|;
      if minTs == ts && numOwners > 1 {
        AddWaiter(ts, U);
        return Queued;
      } else if minTs == ts && numOwners == 1 {
        op := E;
        return Granted;
      }
      r := Denied;
    }

    method UnlockShared(ts: TS) returns (r: Outcome)
      modifies this
      ensures (State(), r) == Release(old(State()), ts, S)
    {
      if op != S { return Threw; }
      var ok := DropOwner(ts);
      if !ok { return Threw; }
      ok := Promote();
      r := if ok then Granted else Threw;
    }

    method Unlock(ts: TS) returns (r: Outcome)
      modifies this
      ensures (State(), r) == Release(old(State()), ts, E)
    {
      if op != E { return Threw; }
      var ok := DropOwner(ts);
      if !ok { return Threw; }
      ok := Promote();
      r := if ok then Granted else Threw;
    }

    method Promote() returns (ok: bool)
      modifies this
      ensures (State(), ok) == PromoteWaiters(old(State()))
    {
      while true
        invariant PromoteWaiters(State()) == PromoteWaiters(old(State()))
        decreases |waiters|
      {
        if waiters == [] { return true; }
        var oOp, numOwners, wOp, ts := op, |owners|, waiters[0].op, waiters[0].ts;
        if (wOp == S && oOp == E) || (wOp == E && (oOp == S || oOp == E)) || (wOp == U && oOp == S && numOwners > 1) {
          return true;
        }
        if wOp == U && (oOp == I || oOp == E) { return false; }
        if wOp == S && (oOp == I || oOp == S) {
          AddOwner(ts);
          op := S;
          waiters := waiters[1..];
        } else if wOp == E && oOp == I {
          AddOwner(ts);
          op := E;
          waiters := waiters[1..];
        } else if wOp == U && oOp == S && numOwners == 1 {
          op := E;
          waiters := waiters[1..];
        } else {
          return false;
        }
      }
    }
  }
}
