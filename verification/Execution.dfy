/** The execution phase of one epoch, as Caracal and Serval run it: transactions are dealt to the workers round robin,
    each read finds its version through the structures built before the phase, waits until it is stable and returns
    it, and each update makes its own version stable. Any number of workers, rows and transactions. */
module Execution {
  import opened SortedSlots

  type Val = int

  type Pos = n: nat | n > 0 witness 1

  datatype Op = Read(row: nat) | Update(row: nat)

  /** One epoch. `compute(t, j, got)` is what operation j of transaction t writes, given what the transaction has read
      so far; `base` are the records before the epoch. `look(r, t)` is the version that the engine's search finds for a
      read of row r by transaction t, `mine(r, t)` the pending version that t was given for its update of r. */
  datatype Epoch = Epoch(txs: seq<seq<Op>>, width: Pos, base: seq<Val>, compute: (nat, nat, seq<Val>) -> Val,
                         look: (nat, nat) -> VersionId, mine: (nat, nat) -> VersionId)

  // The epoch without any engine: only its transactions and the records before it.
  function PlainEpoch(txs: seq<seq<Op>>, width: Pos, base: seq<Val>, compute: (nat, nat, seq<Val>) -> Val): Epoch {
    Epoch(txs, width, base, compute, (r, t) => 0, (r, t) => 0)
  }

  // The record of a version.
  function ValueOf(vals: map<VersionId, Val>, v: VersionId): Val {
    if v in vals then vals[v] else 0
  }

  // ----- Who writes what -----

  predicate Writes(e: Epoch, t: nat, r: nat) {
    t < |e.txs| && Update(r) in e.txs[t]
  }

  // The first update of the row; later ones find no pending version and do nothing.
  function FirstUpdate(ops: seq<Op>, r: nat): (j: nat)
    ensures j <= |ops| && (j < |ops| ==> ops[j] == Update(r)) && forall i :: 0 <= i < j ==> ops[i] != Update(r)
    ensures j < |ops| <==> Update(r) in ops
  {
    if ops == [] then 0 else if ops[0] == Update(r) then 0 else 1 + FirstUpdate(ops[1..], r)
  }

  // The last transaction before t that writes the row, or -1.
  function Visible(e: Epoch, r: nat, t: nat): (v: int)
    ensures -1 <= v < t && (v >= 0 ==> Writes(e, v, r)) && forall u :: v < u < t ==> !Writes(e, u, r)
  {
    if t == 0 then -1 else if Writes(e, t - 1, r) then t - 1 else Visible(e, r, t - 1)
  }

  // ----- One transaction after the other -----

  // What the reads among the first j operations return.
  function ReadsIn(db: seq<Val>, ops: seq<Op>, j: nat): seq<Val>
    requires j <= |ops| && forall op :: op in ops ==> op.row < |db|
  {
    if j == 0 then []
    else if ops[j - 1].Read? then ReadsIn(db, ops, j - 1) + [db[ops[j - 1].row]]
    else ReadsIn(db, ops, j - 1)
  }

  predicate EpochOk(e: Epoch) {
    && |e.txs| % e.width == 0
    && forall t, op :: 0 <= t < |e.txs| && op in e.txs[t] ==> op.row < |e.base|
  }

  // The records before transaction t, when the transactions run one after the other.
  function SerialDb(e: Epoch, t: nat): (db: seq<Val>)
    requires EpochOk(e) && t <= |e.txs|
    ensures |db| == |e.base|
    decreases t, 0
  {
    if t == 0 then e.base
    else seq(|e.base|, r requires 0 <= r < |e.base| =>
           if Writes(e, t - 1, r) then SerialWrite(e, t - 1, r) else SerialDb(e, t - 1)[r])
  }

  // What transaction t writes to the row.
  function SerialWrite(e: Epoch, t: nat, r: nat): Val
    requires EpochOk(e) && Writes(e, t, r)
    decreases t, 1
  {
    var j := FirstUpdate(e.txs[t], r);
    e.compute(t, j, ReadsIn(SerialDb(e, t), e.txs[t], j))
  }

  // A row holds what its last writer wrote.
  lemma {:induction false} SerialIsVisible(e: Epoch, r: nat, t: nat)
    requires EpochOk(e) && t <= |e.txs| && r < |e.base|
    ensures SerialDb(e, t)[r] == var v := Visible(e, r, t); if v < 0 then e.base[r] else SerialWrite(e, v, r)
  {
    if t > 0 && !Writes(e, t - 1, r) {
      SerialIsVisible(e, r, t - 1);
    }
  }

  // ----- The phase -----

  // In round i, worker w runs transaction i * width + w; it has run j operations of it, which have read `got`.
  datatype Worker = Worker(i: nat, j: nat, got: seq<Val>)

  // `vals`: the stable versions; `done`: what finished transactions have read (a history variable).
  datatype State = State(vals: map<VersionId, Val>, workers: seq<Worker>, done: map<nat, seq<Val>>)

  function Rounds(e: Epoch): nat {
    |e.txs| / e.width
  }

  function Serial(e: Epoch, i: nat, w: nat): nat {
    i * e.width + w
  }

  lemma SerialInRange(e: Epoch, i: nat, w: nat)
    requires i < Rounds(e) && w < e.width
    ensures Serial(e, i, w) < |e.txs|
  {
    assert (i + 1) * e.width <= Rounds(e) * e.width <= |e.txs|;
  }

  predicate Running(e: Epoch, s: State, w: nat) {
    w < |s.workers| && s.workers[w].i < Rounds(e) && Serial(e, s.workers[w].i, w) < |e.txs|
  }

  function Current(e: Epoch, s: State, w: nat): nat
    requires Running(e, s, w)
  {
    Serial(e, s.workers[w].i, w)
  }

  // Worker w can step, unless it spins on a version that is still pending.
  predicate Enabled(e: Epoch, s: State, w: nat) {
    && Running(e, s, w)
    && var x, t := s.workers[w], Current(e, s, w);
       x.j < |e.txs[t]| && e.txs[t][x.j].Read? ==> e.look(e.txs[t][x.j].row, t) in s.vals
  }

  function Apply(e: Epoch, s: State, w: nat): State
    requires Enabled(e, s, w)
  {
    var x, t := s.workers[w], Current(e, s, w);
    var ops := e.txs[t];
    if x.j >= |ops| then s.(workers := s.workers[w := Worker(x.i + 1, 0, [])], done := s.done[t := x.got])
    else
      var r := ops[x.j].row;
      if ops[x.j].Read? then s.(workers := s.workers[w := x.(j := x.j + 1, got := x.got + [s.vals[e.look(r, t)]])])
      else
        var s' := s.(workers := s.workers[w := x.(j := x.j + 1)]);
        if FirstUpdate(ops, r) == x.j then s'.(vals := s.vals[e.mine(r, t) := e.compute(t, x.j, x.got)]) else s'
  }

  // What the phase before has to deliver: searches find the last writer's version, or one that holds the old record;
  // the pending versions are all different, and pending.
  ghost predicate LinksOk(e: Epoch, vals: map<VersionId, Val>) {
    && (forall r, t :: 0 <= r < |e.base| && 0 <= t < |e.txs| ==> LookOk(e, vals, r, t))
    && (forall r, t :: 0 <= r < |e.base| && Writes(e, t, r) ==> e.mine(r, t) !in vals)
    && (forall r, t, q, u :: 0 <= r < |e.base| && 0 <= q < |e.base| && Writes(e, t, r) && Writes(e, u, q) ==>
          e.mine(r, t) == e.mine(q, u) ==> r == q && t == u)
  }

  ghost predicate LookOk(e: Epoch, vals: map<VersionId, Val>, r: nat, t: nat)
    requires r < |e.base|
  {
    var v := Visible(e, r, t);
    if v < 0 then e.look(r, t) in vals && vals[e.look(r, t)] == e.base[r] else e.look(r, t) == e.mine(r, v)
  }

  ghost predicate Init(e: Epoch, s: State) {
    && EpochOk(e) && LinksOk(e, s.vals)
    && |s.workers| == e.width && (forall w :: 0 <= w < e.width ==> s.workers[w] == Worker(0, 0, []))
    && s.done == map[]
  }

  predicate IsRun(e: Epoch, s: State, steps: seq<nat>)
    decreases |steps|
  {
    steps == [] || (Enabled(e, s, steps[0]) && IsRun(e, Apply(e, s, steps[0]), steps[1..]))
  }

  function Exec(e: Epoch, s: State, steps: seq<nat>): State
    requires IsRun(e, s, steps)
    decreases |steps|
  {
    if steps == [] then s else Exec(e, Apply(e, s, steps[0]), steps[1..])
  }

  predicate Finished(e: Epoch, s: State) {
    forall w :: 0 <= w < |s.workers| ==> s.workers[w].i == Rounds(e)
  }
}
