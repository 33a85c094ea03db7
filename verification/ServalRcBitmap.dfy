/** Serval_RC's write bitmap (`serval_rc/include/rw_bitmaps.hpp`) on values. The transaction bitmaps of the cores that
    write a row are packed into a vector; the bitmap of a core is found by counting the core bits before it. */
module ServalRcBitmap {
  import opened Bitmap
  import opened BitmapSearch

  // ----- The packed form -----

  // One word of written transactions per core, packed: the words of the cores that write, in order.
  function Compress(full: seq<Word>): seq<Word> {
    if full == [] then []
    else Compress(full[..|full| - 1]) + if full[|full| - 1] != Zero() then [full[|full| - 1]] else []
  }

  function CoresOf(full: seq<Word>): Word
    requires |full| == WIDTH
  {
    seq(WIDTH, c requires 0 <= c < WIDTH => full[c] != Zero())
  }

  lemma {:induction false} CompressJoin(a: seq<Word>, b: seq<Word>)
    ensures Compress(a + b) == Compress(a) + Compress(b)
  {
    if b == [] {
      assert a + b == a;
    } else {
      CompressJoin(a, b[..|b| - 1]);
      assert (a + b)[..|a + b| - 1] == a + b[..|b| - 1];
    }
  }

  lemma {:induction false} CompressRank(full: seq<Word>, c: nat)
    requires |full| == WIDTH && c <= WIDTH
    ensures |Compress(full[..c])| == Rank(CoresOf(full), c)
  {
    if c > 0 {
      CompressRank(full, c - 1);
      assert full[..c][..c - 1] == full[..c - 1];
      assert CoresOf(full)[..c][..c - 1] == CoresOf(full)[..c - 1];
    }
  }

  lemma CompressOne(w: Word)
    ensures Compress([w]) == if w != Zero() then [w] else []
  {
    assert [w][..0] == [];
  }

  // The packed vector around the place of a core.
  lemma CompressAround(full: seq<Word>, c: nat, w: Word)
    requires |full| == WIDTH && c < WIDTH
    ensures Compress(full[c := w]) == Compress(full[..c]) + (if w != Zero() then [w] else []) + Compress(full[c + 1..])
    ensures |Compress(full[..c])| == Rank(CoresOf(full), c)
  {
    CompressRank(full, c);
    CompressJoin(full[..c] + [w], full[c + 1..]);
    CompressJoin(full[..c], [w]);
    CompressOne(w);
    assert full[c := w] == full[..c] + [w] + full[c + 1..];
  }

  lemma PackedAt(full: seq<Word>, c: nat)
    requires |full| == WIDTH && c < WIDTH && full[c] != Zero()
    ensures Rank(CoresOf(full), c) < |Compress(full)| && Compress(full)[Rank(CoresOf(full), c)] == full[c]
  {
    CompressAround(full, c, full[c]);
    assert full[c := full[c]] == full;
  }

  // count_prefix_sum
  function CountPrefix(cores: Word, core: nat): nat
    requires core < WIDTH
  {
    PopCount(And(cores, FillBefore(core)))
  }

  lemma CountPrefixIs(cores: Word, core: nat)
    requires core < WIDTH
    ensures CountPrefix(cores, core) == Rank(cores, core)
  {
    MaskedCount(cores, core);
  }

  datatype Packed = Packed(cores: Word, words: seq<Word>)

  predicate Packs(p: Packed, full: seq<Word>) {
    |full| == WIDTH && p.cores == CoresOf(full) && p.words == Compress(full)
  }

  // update_bitmap
  function Updated(p: Packed, core: nat, tx: nat): Packed
    requires core < WIDTH && tx < WIDTH && CountPrefix(p.cores, core) <= |p.words|
    requires IsSet(p.cores, core) ==> CountPrefix(p.cores, core) < |p.words|
  {
    var pos := CountPrefix(p.cores, core);
    if IsSet(p.cores, core) then p.(words := p.words[pos := WithBit(p.words[pos], tx)])
    else Packed(WithBit(p.cores, core), p.words[..pos] + [Bit(tx)] + p.words[pos..])
  }

  // The written transactions, with one more.
  function Mark(full: seq<Word>, core: nat, tx: nat): seq<Word>
    requires |full| == WIDTH && core < WIDTH && tx < WIDTH
  {
    full[core := WithBit(full[core], tx)]
  }

  lemma ReplaceAt(front: seq<Word>, w: Word, back: seq<Word>, w': Word)
    ensures (front + [w] + back)[|front|] == w && (front + [w] + back)[|front| := w'] == front + [w'] + back
  {
  }

  lemma InsertAt(front: seq<Word>, back: seq<Word>, w: Word)
    ensures (front + back)[..|front|] + [w] + (front + back)[|front|..] == front + [w] + back
  {
    assert (front + back)[..|front|] == front && (front + back)[|front|..] == back;
  }

  lemma CoresAfter(full: seq<Word>, core: nat, tx: nat)
    requires |full| == WIDTH && core < WIDTH && tx < WIDTH
    ensures WithBit(full[core], tx) != Zero() && (full[core] == Zero() ==> WithBit(full[core], tx) == Bit(tx))
    ensures CoresOf(Mark(full, core, tx))
            == if full[core] != Zero() then CoresOf(full) else WithBit(CoresOf(full), core)
  {
    var w' := WithBit(full[core], tx);
    assert w'[tx];
    NonZero(w');
    if full[core] == Zero() {
      assert w' == Bit(tx);
    }
    assert CoresOf(Mark(full, core, tx)) == CoresOf(full)[core := true];
    assert full[core] != Zero() ==> CoresOf(full)[core := true] == CoresOf(full);
  }

  // What update_bitmap does to the vector.
  lemma UpdatedWords(p: Packed, core: nat, tx: nat, front: seq<Word>, w: Word, back: seq<Word>)
    requires core < WIDTH && tx < WIDTH && CountPrefix(p.cores, core) == |front| && (p.cores[core] <==> w != Zero())
    requires p.words == front + (if w != Zero() then [w] else []) + back && (w == Zero() ==> WithBit(w, tx) == Bit(tx))
    ensures CountPrefix(p.cores, core) <= |p.words| && (IsSet(p.cores, core) ==> CountPrefix(p.cores, core) < |p.words|)
    ensures Updated(p, core, tx).words == front + [WithBit(w, tx)] + back
  {
    if w == Zero() {
      assert front + [] + back == front + back;
      InsertAt(front, back, Bit(tx));
    } else {
      ReplaceAt(front, w, back, WithBit(w, tx));
    }
  }

  lemma CompressMark(full: seq<Word>, core: nat, tx: nat) returns (front: seq<Word>, back: seq<Word>)
    requires |full| == WIDTH && core < WIDTH && tx < WIDTH
    ensures |front| == Rank(CoresOf(full), core)
    ensures Compress(full) == front + (if full[core] != Zero() then [full[core]] else []) + back
    ensures Compress(Mark(full, core, tx)) == front + [WithBit(full[core], tx)] + back
  {
    front, back := Compress(full[..core]), Compress(full[core + 1..]);
    CoresAfter(full, core, tx);
    CompressAround(full, core, full[core]);
    CompressAround(full, core, WithBit(full[core], tx));
    assert full[core := full[core]] == full;
  }

  // In whatever order cores and transactions come, the vector stays the packed form of what was written.
  lemma UpdatedPacks(p: Packed, full: seq<Word>, core: nat, tx: nat)
    requires Packs(p, full) && core < WIDTH && tx < WIDTH
    ensures CountPrefix(p.cores, core) <= |p.words| && (IsSet(p.cores, core) ==> CountPrefix(p.cores, core) < |p.words|)
    ensures Packs(Updated(p, core, tx), Mark(full, core, tx))
  {
    CountPrefixIs(p.cores, core);
    CoresAfter(full, core, tx);
    var front, back := CompressMark(full, core, tx);
    UpdatedWords(p, core, tx, front, full[core], back);
  }

  // ----- The search -----

  // identify_visible_version_in_placeholders
  function IdentifyPacked(p: Packed, core: nat, tx: nat): Found
    requires p.cores != Zero() && core < WIDTH && tx < WIDTH
    requires forall c :: 0 <= c < WIDTH && p.cores[c] ==>
             CountPrefix(p.cores, c) < |p.words| && p.words[CountPrefix(p.cores, c)] != Zero()
  {
    var two := FindTwoLargestUpTo(p.cores, core);
    if two.first == -1 then Nothing
    else
      var firstPos := CountPrefix(p.cores, two.first);
      if two.first == core then
        var first := FindLargestBelow(p.words[firstPos], tx);
        if first != -1 then At(core, first)
        else if two.second != -1 then At(two.second, FindLargest(p.words[CountPrefix(p.cores, two.second)]))
        else Nothing
      else At(two.first, FindLargest(p.words[firstPos]))
  }

  lemma PackedWords(p: Packed, full: seq<Word>)
    requires Packs(p, full)
    ensures WordsOk(p.cores, full)
    ensures forall c :: 0 <= c < WIDTH && p.cores[c] ==>
            CountPrefix(p.cores, c) < |p.words| && p.words[CountPrefix(p.cores, c)] == full[c]
  {
    forall c | 0 <= c < WIDTH && p.cores[c]
      ensures CountPrefix(p.cores, c) < |p.words| && p.words[CountPrefix(p.cores, c)] == full[c]
    {
      CountPrefixIs(p.cores, c);
      PackedAt(full, c);
    }
  }

  // The search in the packed form is the search in the plain one.
  lemma IdentifyPackedIs(p: Packed, full: seq<Word>, core: nat, tx: nat)
    requires Packs(p, full) && p.cores != Zero() && core < WIDTH && tx < WIDTH
    ensures WordsOk(p.cores, full)
    ensures forall c :: 0 <= c < WIDTH && p.cores[c] ==>
            CountPrefix(p.cores, c) < |p.words| && p.words[CountPrefix(p.cores, c)] != Zero()
    ensures IdentifyPacked(p, core, tx) == Identify(p.cores, full, core, tx)
  {
    PackedWords(p, full);
    var two := FindTwoLargestUpTo(p.cores, core);
    if two.first != -1 {
      assert p.words[CountPrefix(p.cores, two.first)] == full[two.first];
    }
    if two.second != -1 {
      assert p.words[CountPrefix(p.cores, two.second)] == full[two.second];
    }
  }
}
