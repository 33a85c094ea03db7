/** What every call on the wait-die lock keeps, and why the promotion loop never throws. */
module WaitDieLockProof {
  import opened WaitDieLock

  // Every waiter is older than every owner, except an upgrade, which is the oldest owner and heads the list.
  ghost predicate WaiterOk(l: LockState, i: nat, atLeast: nat)
    requires i < |l.waiters|
  {
    var w := l.waiters[i];
    match w.op
    case I => false
    case U => i == 0 && l.op == S && |l.owners| >= atLeast && l.owners != [] && w.ts == Min(l)
    case _ => forall j :: 0 <= j < |l.owners| ==> w.ts < l.owners[j]
  }

  ghost predicate Sorted(l: LockState) {
    Descending(l.owners) && Descending(Times(l.waiters))
  }

  // The state between two calls.
  ghost predicate Valid(l: LockState) {
    && Proper(l) && Sorted(l)
    && (l.op == E ==> |l.owners| == 1)
    && (l.op == I ==> l.waiters == [])
    && forall i: nat :: i < |l.waiters| ==> WaiterOk(l, i, 2)
  }

  // The state inside the promotion loop.
  ghost predicate Promoting(l: LockState) {
    && Proper(l) && Sorted(l)
    && (l.op == E ==> |l.owners| == 1)
    && forall i: nat :: i < |l.waiters| ==> WaiterOk(l, i, 1)
  }

  ghost predicate Absent(l: LockState, ts: TS) {
    ts !in l.owners && forall i :: 0 <= i < |l.waiters| ==> l.waiters[i].ts != ts
  }

  lemma InsertedAt<T>(xs: seq<T>, p: nat, x: T)
    requires p <= |xs|
    ensures var r := InsertAt(xs, p, x);
            && |r| == |xs| + 1 && r[p] == x
            && (forall i :: 0 <= i < p ==> r[i] == xs[i]) && (forall i :: p < i < |r| ==> r[i] == xs[i - 1])
            && (forall y :: y in r <==> y in xs || y == x)
  {
    var r := InsertAt(xs, p, x);
    forall y | y in xs ensures y in r {
      var i :| 0 <= i < |xs| && xs[i] == y;
      assert r[if i < p then i else i + 1] == y;
    }
    assert r[p] == x;
    forall y | y in r ensures y in xs || y == x {
      var i :| 0 <= i < |r| && r[i] == y;
      assert i != p ==> r[i] == xs[if i < p then i else i - 1];
    }
  }

  lemma OwnerInserted(owners: seq<TS>, ts: TS)
    requires Descending(owners) && ts !in owners
    ensures Descending(InsertOwner(owners, ts))
    ensures forall y :: y in InsertOwner(owners, ts) <==> y in owners || y == ts
    ensures |InsertOwner(owners, ts)| == |owners| + 1
  {
    InsertedAt(owners, Position(owners, ts), ts);
  }

  lemma WaiterInserted(l: LockState, ts: TS, op: Operation)
    requires Sorted(l) && Absent(l.(owners := []), ts)
    ensures Sorted(Enqueue(l, ts, op))
    ensures forall w :: w in Enqueue(l, ts, op).waiters <==> w in l.waiters || w == Waiter(ts, op)
  {
    var p := Position(Times(l.waiters), ts);
    InsertedAt(l.waiters, p, Waiter(ts, op));
    var tss, tss' := Times(l.waiters), Times(Enqueue(l, ts, op).waiters);
    forall i, j | 0 <= i < j < |tss'| ensures tss'[i] > tss'[j] {
      assert i < p ==> tss[i] > ts;
      assert j > p ==> ts >= tss[j - 1];
    }
  }

  // Queueing a shared or exclusive request that is older than every owner.
  lemma EnqueueKeeps(l: LockState, ts: TS, op: Operation)
    requires Valid(l) && l.op != I && Absent(l, ts) && Min(l) > ts && op in {S, E}
    ensures Valid(Enqueue(l, ts, op))
    ensures forall w :: w in Enqueue(l, ts, op).waiters <==> w in l.waiters || w == Waiter(ts, op)
  {
    var l' := Enqueue(l, ts, op);
    var p := Position(Times(l.waiters), ts);
    WaiterInserted(l, ts, op);
    InsertedAt(l.waiters, p, Waiter(ts, op));
    forall i: nat | i < |l'.waiters| ensures WaiterOk(l', i, 2) {
      if i == p {
        forall j | 0 <= j < |l.owners| ensures ts < l.owners[j] {
          assert j < |l.owners| - 1 ==> l.owners[j] > l.owners[|l.owners| - 1];
        }
      } else {
        assert WaiterOk(l, if i < p then i else i - 1, 2);
      }
    }
  }

  lemma SharedKeeps(l: LockState, ts: TS)
    requires Valid(l) && Absent(l, ts)
    ensures var (l', r) := SharedCall(l, ts);
            && Valid(l') && r != Threw
            && (r == Granted ==> l'.op == S && l.op in {I, S} && l'.waiters == l.waiters
                                 && forall t :: t in l'.owners <==> t in l.owners || t == ts)
            && (r == Queued ==> l'.op == l.op && l'.owners == l.owners
                                && forall w :: w in l'.waiters <==> w in l.waiters || w == Waiter(ts, S))
            && (r == Denied ==> l' == l && exists o :: o in l.owners && o < ts)
  {
    var (l', r) := SharedCall(l, ts);
    match r
    case Granted => OwnerInserted(l.owners, ts);
    case Queued => EnqueueKeeps(l, ts, S);
    case Denied => assert Min(l) in l.owners;
  }

  lemma ExclusiveKeeps(l: LockState, ts: TS)
    requires Valid(l) && Absent(l, ts)
    ensures var (l', r) := ExclusiveCall(l, ts);
            && Valid(l') && r != Threw
            && (r == Granted ==> l'.op == E && l.op == I && l'.waiters == l.waiters && l'.owners == [ts])
            && (r == Queued ==> l'.op == l.op && l'.owners == l.owners
                                && forall w :: w in l'.waiters <==> w in l.waiters || w == Waiter(ts, E))
            && (r == Denied ==> l' == l && exists o :: o in l.owners && o < ts)
  {
    var (l', r) := ExclusiveCall(l, ts);
    match r
    case Granted => OwnerInserted(l.owners, ts);
    case Queued => EnqueueKeeps(l, ts, E);
    case Denied => assert Min(l) in l.owners;
  }

  // The upgrade of the oldest owner goes to the head of the list: all other waiters are older still.
  lemma EnqueueUpgrade(l: LockState, ts: TS)
    requires Valid(l) && l.op == S && Min(l) == ts && |l.owners| > 1
    requires forall i :: 0 <= i < |l.waiters| ==> l.waiters[i].ts != ts
    ensures Valid(Enqueue(l, ts, U)) && Enqueue(l, ts, U).waiters == [Waiter(ts, U)] + l.waiters
  {
    var l' := Enqueue(l, ts, U);
    forall i: nat | i < |l.waiters| ensures l.waiters[i].op != U && l.waiters[i].ts < ts { assert WaiterOk(l, i, 2); }
    assert Position(Times(l.waiters), ts) == 0;
    WaiterInserted(l, ts, U);
    forall i: nat | 0 < i < |l'.waiters| ensures WaiterOk(l', i, 2) { assert WaiterOk(l, i - 1, 2); }
  }

  lemma UpgradeKeeps(l: LockState, ts: TS)
    requires Valid(l) && l.op == S && ts in l.owners && forall i :: 0 <= i < |l.waiters| ==> l.waiters[i].ts != ts
    ensures var (l', r) := UpgradeCall(l, ts);
            && Valid(l') && r != Threw
            && (r == Granted ==> l' == l.(op := E) && l.owners == [ts])
            && (r == Queued ==> l'.op == S && l'.owners == l.owners
                                && forall w :: w in l'.waiters <==> w in l.waiters || w == Waiter(ts, U))
            && (r == Denied ==> l' == l && exists o :: o in l.owners && o < ts)
  {
    var (l', r) := UpgradeCall(l, ts);
    match r
    case Granted =>
      forall i: nat | i < |l'.waiters| ensures WaiterOk(l', i, 2) { assert WaiterOk(l, i, 2); }
    case Queued => EnqueueUpgrade(l, ts);
    case Denied =>
      var i :| 0 <= i < |l.owners| && l.owners[i] == ts;
      assert Min(l) in l.owners;
  }

  // The mode that a promoted waiter brings to the lock.
  function ModeOf(op: Operation): Operation {
    if op == S then S else E
  }

  // No branch of the loop throws, and a round of it moves the head waiter in.
  lemma PromoteOneOk(l: LockState)
    requires Promoting(l)
    ensures var turn := PromoteOne(l);
            && !turn.Fail?
            && (turn.Stop? ==> Valid(l))
            && (turn.Go? ==>
                  && var n, w := turn.next, l.waiters[0];
                  && Promoting(n) && n.waiters == l.waiters[1..] && n.op == ModeOf(w.op)
                  && (forall t :: t in n.owners <==> t in l.owners || t == w.ts)
                  && (w.op == U ==> l.owners == [w.ts]) && (w.op == S ==> l.op in {I, S}) && (w.op == E ==> l.op == I))
  {
    if l.waiters != [] {
      assert WaiterOk(l, 0, 1);
      var turn, w := PromoteOne(l), l.waiters[0];
      if turn.Stop? {
        forall i: nat | i < |l.waiters| ensures WaiterOk(l, i, 2) { assert WaiterOk(l, i, 1); }
      } else if turn.Go? {
        if w.op != U { OwnerInserted(l.owners, w.ts); }
        var n := turn.next;
        assert Times(n.waiters) == Times(l.waiters)[1..];
        forall i: nat | i < |n.waiters| ensures WaiterOk(n, i, 1) {
          assert WaiterOk(l, i + 1, 1);
          assert Times(l.waiters)[0] > Times(l.waiters)[i + 1];
          forall j | 0 <= j < |n.owners| ensures n.waiters[i].ts < n.owners[j] {
            assert n.owners[j] in n.owners;
          }
        }
      }
    }
  }

  // l' is l with the first n waiters moved in.
  ghost predicate Promoted(l: LockState, l': LockState, n: nat) {
    && n <= |l.waiters| && l'.waiters == l.waiters[n..]
    && (forall t :: t in l'.owners <==> t in l.owners || exists i :: 0 <= i < n && l.waiters[i].ts == t)
    && (forall i :: 0 <= i < n ==> l'.op == ModeOf(l.waiters[i].op))
    && (n == 0 ==> l' == l)
    && (l.owners != [] && l'.op != l.op ==> n > 0 && l.waiters[0].op == U && l.owners == [l.waiters[0].ts])
  }

  lemma PromotedOwners(l: LockState, next: LockState, l': LockState, m: nat, t: TS)
    requires l.waiters != [] && next.waiters == l.waiters[1..] && Promoted(next, l', m)
    requires forall u :: u in next.owners <==> u in l.owners || u == l.waiters[0].ts
    ensures t in l'.owners <==> t in l.owners || exists i :: 0 <= i < m + 1 && l.waiters[i].ts == t
  {
    PrefixTimes(l.waiters, m, t);
  }

  // One round, and then the others.
  lemma PromotedMore(l: LockState, next: LockState, l': LockState, m: nat)
    requires Promoting(l) && PromoteOne(l) == Go(next) && Promoted(next, l', m)
    ensures Promoted(l, l', m + 1)
  {
    PromoteOneOk(l);
    assert l.waiters[1..][m..] == l.waiters[m + 1..];
    forall i: nat | i < |next.waiters| ensures next.waiters[i].op != U { assert WaiterOk(l, i + 1, 1); }
    assert l'.op == next.op;
    forall t ensures t in l'.owners <==> t in l.owners || exists i :: 0 <= i < m + 1 && l.waiters[i].ts == t {
      PromotedOwners(l, next, l', m, t);
    }
    forall i | 0 <= i < m + 1 ensures l'.op == ModeOf(l.waiters[i].op) {
      if i > 0 { assert next.waiters[i - 1] == l.waiters[i]; }
    }
  }

  // The loop ends without throwing in a valid state, having moved exactly a prefix of the waiter list into the lock.
  lemma {:induction false} PromoteKeeps(l: LockState) returns (n: nat)
    requires Promoting(l)
    ensures var (l', ok) := PromoteWaiters(l); ok && Valid(l') && Promoted(l, l', n)
    decreases |l.waiters|
  {
    PromoteOneOk(l);
    match PromoteOne(l)
    case Stop => n := 0;
    case Go(next) =>
      var m := PromoteKeeps(next);
      n := m + 1;
      PromotedMore(l, next, PromoteWaiters(l).0, m);
  }

  lemma PrefixTimes(ws: seq<Waiter>, m: nat, t: TS)
    requires m < |ws|
    ensures (exists i :: 0 <= i < m + 1 && ws[i].ts == t) <==>
            ws[0].ts == t || exists i :: 0 <= i < m && ws[1..][i].ts == t
  {
    if i :| 0 < i < m + 1 && ws[i].ts == t { assert ws[1..][i - 1].ts == t; }
    if i :| 0 <= i < m && ws[1..][i].ts == t { assert ws[i + 1].ts == t; }
  }

  // `rest` is `owners` without the element at i.
  ghost predicate IsWithout(owners: seq<TS>, i: nat, rest: seq<TS>) {
    && i < |owners| && |rest| == |owners| - 1
    && (forall j :: 0 <= j < i ==> rest[j] == owners[j]) && (forall j :: i <= j < |rest| ==> rest[j] == owners[j + 1])
  }

  lemma WithoutMembers(owners: seq<TS>, i: nat, rest: seq<TS>)
    requires Descending(owners) && IsWithout(owners, i, rest)
    ensures Descending(rest) && forall t :: t in rest <==> t in owners && t != owners[i]
  {
    forall t | t in owners && t != owners[i] ensures t in rest {
      var j :| 0 <= j < |owners| && owners[j] == t;
      assert j < i ==> rest[j] == t;
      assert j > i ==> rest[j - 1] == t;
    }
  }

  lemma OwnerRemoved(owners: seq<TS>, ts: TS) returns (i: nat)
    requires Descending(owners) && ts in owners
    ensures i < |owners| && owners[i] == ts && RemoveOwner(owners, ts).Some?
    ensures IsWithout(owners, i, RemoveOwner(owners, ts).value)
    ensures Descending(RemoveOwner(owners, ts).value)
    ensures forall t :: t in RemoveOwner(owners, ts).value <==> t in owners && t != ts
  {
    i :| 0 <= i < |owners| && owners[i] == ts;
    RemoveOwnerIs(owners, ts, i);
    WithoutMembers(owners, i, RemoveOwner(owners, ts).value);
  }

  lemma RemovedPromoting(l: LockState, ts: TS)
    requires Valid(l) && ts in l.owners && forall i :: 0 <= i < |l.waiters| ==> l.waiters[i].ts != ts
    ensures var rest := RemoveOwner(l.owners, ts).value;
            Promoting(l.(owners := rest, op := if rest == [] then I else l.op))
  {
    var k := OwnerRemoved(l.owners, ts);
    var rest := RemoveOwner(l.owners, ts).value;
    var m := l.(owners := rest, op := if rest == [] then I else l.op);
    forall i: nat | i < |m.waiters| ensures WaiterOk(m, i, 1) {
      assert WaiterOk(l, i, 2);
      forall j | 0 <= j < |rest| && m.waiters[i].op != U ensures m.waiters[i].ts < rest[j] {
        assert rest[j] in l.owners;
      }
    }
  }

  // unlock and unlock_shared by an owner that is not itself waiting: they never throw, and they hand the lock to
  // exactly a prefix of the waiters, all of the mode that the lock then has.
  lemma ReleaseKeeps(l: LockState, ts: TS) returns (n: nat)
    requires Valid(l) && ts in l.owners && forall i :: 0 <= i < |l.waiters| ==> l.waiters[i].ts != ts
    ensures var (l', r) := Release(l, ts, l.op);
            && Valid(l') && r == Granted && n <= |l.waiters| && l'.waiters == l.waiters[n..]
            && (forall t :: t in l'.owners <==>
                  (t in l.owners && t != ts) || exists i :: 0 <= i < n && l.waiters[i].ts == t)
            && (forall i :: 0 <= i < n ==> l'.op == ModeOf(l.waiters[i].op))
            && (l'.op == l.op || forall t :: t in l.owners && t != ts ==> n > 0 && l.waiters[0] == Waiter(t, U))
  {
    var k := OwnerRemoved(l.owners, ts);
    RemovedPromoting(l, ts);
    var rest := RemoveOwner(l.owners, ts).value;
    n := PromoteKeeps(l.(owners := rest, op := if rest == [] then I else l.op));
  }
}
