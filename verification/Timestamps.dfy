/** The timestamps that MVTO and wait-die workers draw (`timestamp_manager.hpp`). Every worker has its own counter; now
    and then it raises its counter to that of a neighbour, in three separate atomic accesses. */
module Timestamps {
  type TS = nat

  type Pos = n: nat | n > 0 witness 1

  const MAX_WORKERS: nat := 256  // worker ids are 8 bits wide

  datatype Pc =
    | Idle
    | Fetched(cnt: nat)                        // txn_cnt has been fetched and raised
    | LoadedOwn(cnt: nat, own: nat, offset: nat)  // synchronize: own counter loaded
    | LoadedNext(cnt: nat, own: nat, next: nat)   // synchronize: neighbour's counter loaded

  // `issued` lists the timestamps returned so far (a history variable).
  datatype Worker = Worker(registered: bool, txnCnt: nat, abortCnt: nat, offset: nat, pc: Pc, issued: seq<TS>)

  datatype State = State(workers: seq<Worker>, syncCnt: Pos)

  datatype Step =
    | Register(w: nat)
    | FetchNew(w: nat)      // get_new_ts: fetch_add(txn_cnt, 1)
    | FetchBoosted(w: nat)  // get_abort_boosted_ts: fetch_add(txn_cnt, 2 or 4)
    | LoadOwn(w: nat)
    | LoadNext(w: nat)
    | StoreMax(w: nat)
    | Return(w: nat)

  // cnt << 8 | worker_id
  function MakeTs(cnt: nat, w: nat): TS {
    cnt * MAX_WORKERS + w
  }

  function CounterOf(ts: TS): nat {
    ts / MAX_WORKERS
  }

  function IdOf(ts: TS): nat {
    ts % MAX_WORKERS
  }

  // A timestamp carries its counter and its worker, so it orders by counter first and by worker id second.
  lemma TsParts(cnt: nat, w: nat)
    requires w < MAX_WORKERS
    ensures CounterOf(MakeTs(cnt, w)) == cnt && IdOf(MakeTs(cnt, w)) == w
  {
  }

  function Boost(abortCnt: nat): nat {
    if abortCnt == 0 then 1 else if abortCnt == 1 then 2 else 4
  }

  // The worker that w looks at next; only called with at least two workers.
  function Neighbour(w: nat, offset: nat, n: nat): (r: nat)
    requires w < n && 2 <= n
    ensures r < n && r != w
  {
    (w + (offset % (n - 1) + 1)) % n
  }

  predicate Enabled(s: State, step: Step) {
    && step.w < |s.workers|
    && var x := s.workers[step.w];
       match step
       case Register(w) => !x.registered
       case FetchNew(w) => x.pc.Idle?
       case FetchBoosted(w) => x.pc.Idle?
       case LoadOwn(w) => x.pc.Fetched? && x.pc.cnt % s.syncCnt == 0
       case LoadNext(w) => x.pc.LoadedOwn? && 2 <= |s.workers|
       case StoreMax(w) => x.pc.LoadedNext?
       case Return(w) => x.pc.Fetched? && x.pc.cnt % s.syncCnt != 0
  }

  function Next(s: State, step: Step): Worker
    requires Enabled(s, step)
  {
    var x, n := s.workers[step.w], |s.workers|;
    match step
    case Register(w) => x.(registered := true)
    case FetchNew(w) => x.(abortCnt := 0, txnCnt := x.txnCnt + 1, pc := Fetched(x.txnCnt))
    case FetchBoosted(w) =>
      x.(abortCnt := x.abortCnt + 1, txnCnt := x.txnCnt + Boost(x.abortCnt + 1), pc := Fetched(x.txnCnt))
    case LoadOwn(w) =>
      if n == 1 then Returned(x, w).(offset := (x.offset + 1) % 256)
      else x.(offset := (x.offset + 1) % 256, pc := LoadedOwn(x.pc.cnt, x.txnCnt, x.offset))
    case LoadNext(w) =>
      var next := s.workers[Neighbour(w, x.pc.offset, n)];
      if next.registered then x.(pc := LoadedNext(x.pc.cnt, x.pc.own, next.txnCnt)) else Returned(x, w)
    case StoreMax(w) =>
      Returned(if x.pc.own < x.pc.next then x.(txnCnt := x.pc.next) else x, w)
    case Return(w) => Returned(x, w)
  }

  function Returned(x: Worker, w: nat): Worker
    requires !x.pc.Idle?
  {
    x.(pc := Idle, issued := x.issued + [MakeTs(x.pc.cnt, w)])
  }

  function Apply(s: State, step: Step): State
    requires Enabled(s, step)
  {
    s.(workers := s.workers[step.w := Next(s, step)])
  }

  predicate Init(s: State) {
    && |s.workers| <= MAX_WORKERS
    && forall w :: 0 <= w < |s.workers| ==> s.workers[w] == Worker(s.workers[w].registered, 1, 0, 0, Idle, [])
  }

  predicate IsRun(s: State, steps: seq<Step>)
    decreases |steps|
  {
    steps == [] || (Enabled(s, steps[0]) && IsRun(Apply(s, steps[0]), steps[1..]))
  }

  function Exec(s: State, steps: seq<Step>): State
    requires IsRun(s, steps)
    decreases |steps|
  {
    if steps == [] then s else Exec(Apply(s, steps[0]), steps[1..])
  }

  // Everything returned so far is below this counter.
  ghost function Bound(x: Worker): nat {
    if x.pc.Idle? then x.txnCnt else x.pc.cnt
  }

  // What worker w keeps: it has returned rising counters below the one in hand, which is below its own.
  ghost predicate WorkerOk(x: Worker, w: nat) {
    && 1 <= x.txnCnt
    && (forall i :: 0 <= i < |x.issued| ==> IdOf(x.issued[i]) == w && 1 <= CounterOf(x.issued[i]) < Bound(x))
    && (forall i, j :: 0 <= i < j < |x.issued| ==> CounterOf(x.issued[i]) < CounterOf(x.issued[j]))
    && (!x.pc.Idle? ==> 1 <= x.pc.cnt < x.txnCnt)
    && (x.pc.LoadedOwn? || x.pc.LoadedNext? ==> x.pc.own == x.txnCnt)
  }

  ghost predicate Inv(s: State) {
    |s.workers| <= MAX_WORKERS && forall w :: 0 <= w < |s.workers| ==> WorkerOk(s.workers[w], w)
  }

  lemma NextOk(s: State, step: Step)
    requires Inv(s) && Enabled(s, step)
    ensures WorkerOk(Next(s, step), step.w)
  {
    var x := s.workers[step.w];
    if !x.pc.Idle? {
      TsParts(x.pc.cnt, step.w);
    }
  }

  lemma {:induction false} RunKeeps(s: State, steps: seq<Step>)
    requires Inv(s) && IsRun(s, steps)
    ensures Inv(Exec(s, steps)) && |Exec(s, steps).workers| == |s.workers|
    decreases |steps|
  {
    if steps != [] {
      NextOk(s, steps[0]);
      RunKeeps(Apply(s, steps[0]), steps[1..]);
    }
  }

  // Timestamps are never issued twice, by the same worker or by two; each worker's own rise; none is 0.
  lemma IssuedAreUnique(s: State, steps: seq<Step>)
    requires Init(s) && IsRun(s, steps)
    ensures var ws := Exec(s, steps).workers;
            && (forall w, i :: 0 <= w < |ws| && 0 <= i < |ws[w].issued| ==> ws[w].issued[i] > 0)
            && (forall w, i, j :: 0 <= w < |ws| && 0 <= i < j < |ws[w].issued| ==> ws[w].issued[i] < ws[w].issued[j])
            && (forall v, w, i, j :: 0 <= v < w < |ws| && 0 <= i < |ws[v].issued| && 0 <= j < |ws[w].issued| ==>
                  ws[v].issued[i] != ws[w].issued[j])
  {
    RunKeeps(s, steps);
    var ws := Exec(s, steps).workers;
    assert forall w :: 0 <= w < |ws| ==> WorkerOk(ws[w], w);
    forall w, i, j | 0 <= w < |ws| && 0 <= i < j < |ws[w].issued| ensures ws[w].issued[i] < ws[w].issued[j] {
      assert CounterOf(ws[w].issued[i]) < CounterOf(ws[w].issued[j]);
    }
    forall v, w, i, j | 0 <= v < w < |ws| && 0 <= i < |ws[v].issued| && 0 <= j < |ws[w].issued|
      ensures ws[v].issued[i] != ws[w].issued[j]
    {
      assert IdOf(ws[v].issued[i]) == v && IdOf(ws[w].issued[j]) == w;
    }
    forall w, i | 0 <= w < |ws| && 0 <= i < |ws[w].issued| ensures ws[w].issued[i] > 0 {
      assert CounterOf(ws[w].issued[i]) >= 1;
    }
  }
}
