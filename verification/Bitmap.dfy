/** The 64-bit words of `utils/bitmap.hpp`, bit by bit. Positions count from the most significant bit, as they do there,
    so the largest position is the lowest set bit. */
module Bitmap {
  const WIDTH: nat := 64

  type Word = w: seq<bool> | |w| == WIDTH witness seq(WIDTH, _ => false)

  // ----- The machine operations -----

  function Zero(): Word {
    seq(WIDTH, _ => false)
  }

  function Ones(): Word {
    seq(WIDTH, _ => true)
  }

  function Not(a: Word): Word {
    seq(WIDTH, i requires 0 <= i < WIDTH => !a[i])
  }

  function And(a: Word, b: Word): Word {
    seq(WIDTH, i requires 0 <= i < WIDTH => a[i] && b[i])
  }

  function Or(a: Word, b: Word): Word {
    seq(WIDTH, i requires 0 <= i < WIDTH => a[i] || b[i])
  }

  function ShiftRight(a: Word, n: nat): Word {
    seq(WIDTH, i requires 0 <= i < WIDTH => i >= n && a[i - n])
  }

  // The right shift of a signed number: copies of the sign bit come in.
  function ShiftRightSigned(a: Word, n: nat): Word {
    seq(WIDTH, i requires 0 <= i < WIDTH => if i >= n then a[i - n] else a[0])
  }

  // __builtin_popcountll
  function PopCount(bits: seq<bool>): nat {
    if bits == [] then 0 else PopCount(bits[..|bits| - 1]) + if bits[|bits| - 1] then 1 else 0
  }

  // __builtin_ffsll: one plus the number of zeros below the lowest set bit, or 0 if no bit is set.
  function FirstFromRight(bits: seq<bool>): (r: nat)
    ensures r <= |bits| && (r == 0 <==> forall i :: 0 <= i < |bits| ==> !bits[i])
    ensures r > 0 ==> bits[|bits| - r] && forall i :: |bits| - r < i < |bits| ==> !bits[i]
  {
    if bits == [] then 0
    else if bits[|bits| - 1] then 1
    else
      var rest := bits[..|bits| - 1];
      var r := FirstFromRight(rest);
      assert forall i :: 0 <= i < |rest| ==> rest[i] == bits[i];
      if r == 0 then 0 else r + 1
  }

  // ----- The functions of the file -----

  function UpperBit(): (r: Word)
    ensures forall i :: 0 <= i < WIDTH ==> r[i] == (i == 0)
  {
    Not(ShiftRight(Ones(), 1))
  }

  function Bit(pos: nat): (r: Word)
    ensures forall i :: 0 <= i < WIDTH ==> r[i] == (i == pos)
  {
    ShiftRight(UpperBit(), pos)
  }

  function WithBit(bitmap: Word, pos: nat): (r: Word)
    requires pos < WIDTH
    ensures r == bitmap[pos := true]
  {
    var r := Or(bitmap, Bit(pos));
    assert r == bitmap[pos := true];
    r
  }

  function FillBefore(pos: nat): (r: Word)
    requires pos <= WIDTH
    ensures forall i :: 0 <= i < WIDTH ==> r[i] == (i < pos)
  {
    if pos == 0 then Zero() else ShiftRightSigned(UpperBit(), pos - 1)
  }

  function FillUntil(pos: nat): (r: Word)
    requires pos < WIDTH
    ensures forall i :: 0 <= i < WIDTH ==> r[i] == (i <= pos)
  {
    ShiftRightSigned(UpperBit(), pos)
  }

  predicate IsSet(bitmap: Word, pos: nat)
    requires pos < WIDTH
    ensures IsSet(bitmap, pos) <==> bitmap[pos]
  {
    assert And(bitmap, Bit(pos))[pos] == bitmap[pos];
    assert !bitmap[pos] ==> And(bitmap, Bit(pos)) == Zero();
    And(bitmap, Bit(pos)) != Zero()
  }

  // Position p is the largest set position below bound, or -1 and there is none.
  predicate LargestBelow(bitmap: seq<bool>, bound: int, p: int)
    requires bound <= |bitmap|
  {
    && -1 <= p < |bitmap|
    && (p >= 0 ==> p < bound && bitmap[p])
    && forall i :: 0 <= i < bound && bitmap[i] ==> i <= p
  }

  lemma NonZero(bits: Word)
    ensures bits != Zero() <==> exists i :: 0 <= i < WIDTH && bits[i]
  {
    if forall i :: 0 <= i < WIDTH ==> !bits[i] {
      assert bits == Zero();
    }
  }

  function FindLargest(bits: Word): (r: nat)
    requires bits != Zero()
    ensures r < WIDTH && LargestBelow(bits, WIDTH, r)
  {
    NonZero(bits);
    WIDTH - FirstFromRight(bits)
  }

  function FindLargestUpTo(bitmap: Word, pos: nat): (r: int)
    requires bitmap != Zero() && pos < WIDTH
    ensures LargestBelow(bitmap, pos + 1, r)
  {
    var smallers := And(bitmap, FillUntil(pos));
    NonZero(smallers);
    assert forall i :: 0 <= i < WIDTH ==> smallers[i] == (bitmap[i] && i <= pos);
    if smallers == Zero() then -1 else FindLargest(smallers)
  }

  function FindLargestBelow(bitmap: Word, pos: nat): (r: int)
    requires bitmap != Zero() && pos < WIDTH
    ensures LargestBelow(bitmap, pos, r)
  {
    var smallers := And(bitmap, FillBefore(pos));
    NonZero(smallers);
    assert forall i :: 0 <= i < WIDTH ==> smallers[i] == (bitmap[i] && i < pos);
    if smallers == Zero() then -1 else FindLargest(smallers)
  }

  datatype TwoLargest = TwoLargest(second: int, first: int)

  function FindTwoLargestUpTo(bitmap: Word, pos: nat): (r: TwoLargest)
    requires bitmap != Zero() && pos < WIDTH
    ensures LargestBelow(bitmap, pos + 1, r.first)
    ensures if r.first == -1 then r.second == -1 else LargestBelow(bitmap, r.first, r.second)
  {
    var smallers := And(bitmap, FillUntil(pos));
    NonZero(smallers);
    assert forall i :: 0 <= i < WIDTH ==> smallers[i] == (bitmap[i] && i <= pos);
    if smallers == Zero() then TwoLargest(-1, -1)
    else
      var largest := FindLargest(smallers);
      SingleBit(smallers, largest);
      if PopCount(smallers) == 1 then TwoLargest(-1, largest)
      else
        var others := And(Not(Bit(largest)), smallers);
        assert forall i :: 0 <= i < WIDTH ==> others[i] == (smallers[i] && i != largest);
        NonZero(others);
        TwoLargest(FindLargest(others), largest)
  }

  // ----- Counting -----

  lemma {:induction false} PopCountSplit(a: seq<bool>, b: seq<bool>)
    ensures PopCount(a + b) == PopCount(a) + PopCount(b)
  {
    if b == [] {
      assert a + b == a;
    } else {
      PopCountSplit(a, b[..|b| - 1]);
      assert (a + b)[..|a + b| - 1] == a + b[..|b| - 1];
    }
  }

  lemma {:induction false} PopCountZero(a: seq<bool>)
    ensures PopCount(a) == 0 <==> forall i :: 0 <= i < |a| ==> !a[i]
  {
    if a != [] {
      var front := a[..|a| - 1];
      PopCountZero(front);
      assert forall i :: 0 <= i < |front| ==> front[i] == a[i];
    }
  }

  // The word has one set bit, at p, exactly when no other bit is set.
  lemma SingleBit(w: Word, p: nat)
    requires p < WIDTH && w[p]
    ensures PopCount(w) == 1 <==> forall i :: 0 <= i < WIDTH && w[i] ==> i == p
  {
    assert w == w[..p] + ([w[p]] + w[p + 1..]);
    PopCountSplit(w[..p], [w[p]] + w[p + 1..]);
    PopCountSplit([w[p]], w[p + 1..]);
    var tail := w[p + 1..];
    PopCountZero(w[..p]);
    PopCountZero(tail);
    assert forall i :: p < i < WIDTH ==> w[i] == tail[i - p - 1];
  }

  // How many positions before p are set.
  function Rank(w: Word, p: nat): nat
    requires p <= WIDTH
  {
    PopCount(w[..p])
  }

  lemma MaskedCount(w: Word, p: nat)
    requires p <= WIDTH
    ensures PopCount(And(w, FillBefore(p))) == Rank(w, p)
    ensures p < WIDTH ==> PopCount(And(w, FillUntil(p))) == Rank(w, p + 1) == Rank(w, p) + if w[p] then 1 else 0
  {
    CountMasked(And(w, FillBefore(p)), w, p);
    if p < WIDTH {
      CountMasked(And(w, FillUntil(p)), w, p + 1);
      assert w[..p + 1][..p] == w[..p];
    }
  }

  lemma CountMasked(masked: Word, w: Word, p: nat)
    requires p <= WIDTH && forall i :: 0 <= i < WIDTH ==> masked[i] == (w[i] && i < p)
    ensures PopCount(masked) == Rank(w, p)
  {
    assert masked == w[..p] + masked[p..];
    PopCountSplit(w[..p], masked[p..]);
    PopCountZero(masked[p..]);
  }

  // Ranks grow along the word, strictly over a set position, and end with the count.
  lemma RankGrows(w: Word, p: nat, q: nat)
    requires p <= q <= WIDTH
    ensures Rank(w, p) <= Rank(w, q) && Rank(w, WIDTH) == PopCount(w)
    ensures p < q && w[p] ==> Rank(w, p) < Rank(w, q)
    ensures Rank(w, p) == Rank(w, q) <==> forall i :: p <= i < q ==> !w[i]
  {
    assert w[..q] == w[..p] + w[p..q];
    PopCountSplit(w[..p], w[p..q]);
    PopCountZero(w[p..q]);
    assert w[..WIDTH] == w;
    assert forall i :: p <= i < q ==> w[p..q][i - p] == w[i];
    assert forall i :: 0 <= i < q - p ==> w[p..q][i] == w[p + i];
  }

  // Setting a new bit moves the ranks of the positions behind it, and no others.
  lemma RankWithBit(w: Word, pos: nat, p: nat)
    requires pos < WIDTH && p <= WIDTH && !w[pos]
    ensures Rank(w[pos := true], p) == Rank(w, p) + if pos < p then 1 else 0
  {
    var v := w[pos := true];
    if pos < p {
      assert v[..p] == w[..pos] + ([true] + w[pos + 1..p]);
      assert w[..p] == w[..pos] + ([false] + w[pos + 1..p]);
      PopCountSplit(w[..pos], [true] + w[pos + 1..p]);
      PopCountSplit(w[..pos], [false] + w[pos + 1..p]);
      PopCountSplit([true], w[pos + 1..p]);
      PopCountSplit([false], w[pos + 1..p]);
    } else {
      assert v[..p] == w[..p];
    }
  }
}
