/** The search that Serval's row region and Serval_RC's write bitmap share: a bitmap of cores and one bitmap of
    transactions per set core, searched for the last transaction before a given one. */
module BitmapSearch {
  import opened Bitmap

  datatype Found = Nothing | At(core: nat, tx: nat)

  predicate WordsOk(cores: Word, words: seq<Word>) {
    |words| == WIDTH && forall c :: 0 <= c < WIDTH && cores[c] ==> words[c] != Zero()
  }

  predicate Marked(cores: Word, words: seq<Word>, core: nat, tx: nat) {
    core < WIDTH && tx < WIDTH && |words| == WIDTH && cores[core] && words[core][tx]
  }

  function Identify(cores: Word, words: seq<Word>, core: nat, tx: nat): (r: Found)
    requires WordsOk(cores, words) && cores != Zero() && core < WIDTH && tx < WIDTH
    ensures r.At? ==> Marked(cores, words, r.core, r.tx)
  {
    var two := FindTwoLargestUpTo(cores, core);
    if two.first == -1 then Nothing
    else if two.first == core then
      var first := FindLargestBelow(words[core], tx);
      if first != -1 then At(core, first)
      else if two.second != -1 then At(two.second, FindLargest(words[two.second]))
      else Nothing
    else At(two.first, FindLargest(words[two.first]))
  }

  // One transaction comes before another.
  predicate Before(core: nat, tx: nat, core': nat, tx': nat) {
    core < core' || (core == core' && tx < tx')
  }

  lemma IdentifyIsBefore(cores: Word, words: seq<Word>, core: nat, tx: nat)
    requires WordsOk(cores, words) && cores != Zero() && core < WIDTH && tx < WIDTH
    ensures var r := Identify(cores, words, core, tx); r.At? ==> Before(r.core, r.tx, core, tx)
  {
  }

  // Nothing marked lies between what is found and the reader.
  lemma IdentifyIsLast(cores: Word, words: seq<Word>, core: nat, tx: nat, c: nat, t: nat)
    requires WordsOk(cores, words) && cores != Zero() && core < WIDTH && tx < WIDTH
    requires Marked(cores, words, c, t) && Before(c, t, core, tx)
    ensures var r := Identify(cores, words, core, tx); r.At? && !Before(r.core, r.tx, c, t)
  {
    var two := FindTwoLargestUpTo(cores, core);
    assert c <= two.first;
    if c < two.first {
      assert c <= two.second;
    }
  }
}
