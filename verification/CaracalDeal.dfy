/** How a Caracal epoch is dealt out (`executables/ycsb_caracal.cpp`): worker w initializes and executes transactions
    w, w + width, w + 2 * width, ..., and appends one pending version for each row that a transaction updates. */
module CaracalDeal {
  import opened CaracalInit
  import X = Execution

  // The rows that the transaction updates, each once, in the order of its first updates.
  function RowsWritten(ops: seq<X.Op>): (rs: seq<nat>)
    ensures forall r :: r in rs <==> X.Update(r) in ops
    ensures forall i, j :: 0 <= i < j < |rs| ==> rs[i] != rs[j]
  {
    if ops == [] then []
    else
      var front, last := ops[..|ops| - 1], ops[|ops| - 1];
      assert ops == front + [last];
      var rs := RowsWritten(front);
      if last.Update? && last.row !in rs then rs + [last.row] else rs
  }

  function ItemsOf(rs: seq<nat>, t: nat): (items: seq<Item>)
    ensures |items| == |rs| && forall i :: 0 <= i < |rs| ==> items[i] == Item(rs[i], t)
  {
    seq(|rs|, i requires 0 <= i < |rs| => Item(rs[i], t))
  }

  // The appends of worker w in round i.
  function RoundItems(e: X.Epoch, w: nat, i: nat): seq<Item> {
    var t := X.Serial(e, i, w);
    if t < |e.txs| then ItemsOf(RowsWritten(e.txs[t]), t) else []
  }

  function Flat(rounds: seq<seq<Item>>): seq<Item> {
    if rounds == [] then [] else Flat(rounds[..|rounds| - 1]) + rounds[|rounds| - 1]
  }

  function AllRounds(e: X.Epoch, w: nat): (rounds: seq<seq<Item>>)
    ensures |rounds| == X.Rounds(e) && forall i :: 0 <= i < |rounds| ==> rounds[i] == RoundItems(e, w, i)
  {
    seq(X.Rounds(e), i requires 0 <= i => RoundItems(e, w, i))
  }

  // The appends of worker w.
  function Todo(e: X.Epoch, w: nat): seq<Item> {
    Flat(AllRounds(e, w))
  }

  // do_initialization_phase: one transaction after the other, one operation after the other.
  method DealOut(e: X.Epoch, w: nat) returns (todo: seq<Item>)
    requires w < e.width
    ensures todo == Todo(e, w)
  {
    ghost var rounds := AllRounds(e, w);
    todo := [];
    var i := 0;
    while i < X.Rounds(e)
      invariant i <= X.Rounds(e) && todo == Flat(rounds[..i])
    {
      X.SerialInRange(e, i, w);
      var t := X.Serial(e, i, w);
      var items := DealTx(e.txs[t], t);
      assert items == rounds[i];
      assert rounds[..i + 1][..i] == rounds[..i];
      todo := todo + items;
      i := i + 1;
    }
    assert rounds[..i] == rounds;
  }

  method DealTx(ops: seq<X.Op>, t: nat) returns (items: seq<Item>)
    ensures items == ItemsOf(RowsWritten(ops), t)
  {
    var seen: seq<nat> := [];
    var j := 0;
    items := [];
    while j < |ops|
      invariant j <= |ops| && seen == RowsWritten(ops[..j]) && items == ItemsOf(seen, t)
    {
      assert ops[..j + 1][..j] == ops[..j];
      if ops[j].Update? && ops[j].row !in seen {
        items := items + [Item(ops[j].row, t)];
        seen := seen + [ops[j].row];
      }
      j := j + 1;
    }
    assert ops[..j] == ops;
  }

  lemma ItemsOfHas(ops: seq<X.Op>, t: nat, item: Item)
    ensures item in ItemsOf(RowsWritten(ops), t) <==> item.serial == t && X.Update(item.row) in ops
  {
    var rs := RowsWritten(ops);
    var items := ItemsOf(rs, t);
    if item in items {
      var k :| 0 <= k < |rs| && items[k] == item;
      assert rs[k] == item.row;
    }
    if item.serial == t && item.row in rs {
      var k :| 0 <= k < |rs| && rs[k] == item.row;
      assert items[k] == item;
    }
  }

  // In round i, worker w appends the item.
  predicate InRound(e: X.Epoch, w: nat, i: nat, item: Item) {
    item.serial == X.Serial(e, i, w) && X.Writes(e, item.serial, item.row)
  }

  lemma RoundHas(e: X.Epoch, w: nat, i: nat, item: Item)
    ensures item in RoundItems(e, w, i) <==> InRound(e, w, i, item)
  {
    var t := X.Serial(e, i, w);
    if t < |e.txs| {
      ItemsOfHas(e.txs[t], t, item);
    }
  }

  lemma {:induction false} FlatFrom(rounds: seq<seq<Item>>, item: Item) returns (i: nat)
    requires item in Flat(rounds)
    ensures i < |rounds| && item in rounds[i]
  {
    i := |rounds| - 1;
    if item !in rounds[i] {
      i := FlatFrom(rounds[..i], item);
    }
  }

  lemma {:induction false} FlatGets(rounds: seq<seq<Item>>, i: nat, item: Item)
    requires i < |rounds| && item in rounds[i]
    ensures item in Flat(rounds)
  {
    var n := |rounds| - 1;
    if i < n {
      FlatGets(rounds[..n], i, item);
    }
  }

  // Worker w appends (r, t) exactly when t is one of its transactions and updates r.
  lemma TodoFrom(e: X.Epoch, w: nat, item: Item) returns (i: nat)
    requires item in Todo(e, w)
    ensures i < X.Rounds(e) && InRound(e, w, i, item)
  {
    i := FlatFrom(AllRounds(e, w), item);
    RoundHas(e, w, i, item);
  }

  lemma TodoGets(e: X.Epoch, w: nat, i: nat, item: Item)
    requires i < X.Rounds(e) && InRound(e, w, i, item)
    ensures item in Todo(e, w)
  {
    RoundHas(e, w, i, item);
    FlatGets(AllRounds(e, w), i, item);
  }

  lemma SerialsDiffer(e: X.Epoch, i: nat, k: nat, w: nat)
    requires i < k
    ensures X.Serial(e, i, w) < X.Serial(e, k, w)
  {
    assert k * e.width == i * e.width + (k - i) * e.width;
    assert (k - i) * e.width >= e.width by { assert (k - i) * e.width == e.width + (k - i - 1) * e.width; }
  }

  predicate Distinct(items: seq<Item>) {
    forall i, j :: 0 <= i < j < |items| ==> items[i] != items[j]
  }

  // Rounds without duplicates that have nothing in common make a list without duplicates.
  lemma {:induction false} FlatDistinct(rounds: seq<seq<Item>>)
    requires forall i :: 0 <= i < |rounds| ==> Distinct(rounds[i])
    requires forall i, j, x :: 0 <= i < j < |rounds| && x in rounds[i] ==> x !in rounds[j]
    ensures Distinct(Flat(rounds))
  {
    if rounds != [] {
      var n := |rounds| - 1;
      var front := rounds[..n];
      FlatDistinct(front);
      forall x | x in Flat(front) ensures x !in rounds[n] {
        var i := FlatFrom(front, x);
        assert x in rounds[i];
      }
      DistinctJoin(Flat(front), rounds[n]);
    }
  }

  lemma DistinctJoin(a: seq<Item>, b: seq<Item>)
    requires Distinct(a) && Distinct(b) && forall x :: x in a ==> x !in b
    ensures Distinct(a + b)
  {
    var c := a + b;
    forall i, j | 0 <= i < j < |c| ensures c[i] != c[j] {
      assert i < |a| ==> c[i] in a;
      assert j >= |a| ==> c[j] in b;
    }
  }

  // No append comes twice.
  lemma TodoDistinct(e: X.Epoch, w: nat)
    ensures Distinct(Todo(e, w))
  {
    var rounds := AllRounds(e, w);
    forall i, j, x | 0 <= i < j < |rounds| && x in rounds[i] ensures x !in rounds[j] {
      RoundHas(e, w, i, x);
      RoundHas(e, w, j, x);
      SerialsDiffer(e, i, j, w);
    }
    FlatDistinct(rounds);
  }
}
