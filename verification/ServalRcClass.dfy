/** The class of `serval_rc/include/rw_bitmaps.hpp`, updated in place, each method tied to the operation on values. A
    transaction is named by its serial id, core * 64 + tx; a version that a method may allocate is passed in. */
module ServalRcClass {
  import opened SortedSlots
  import opened Bitmap
  import opened ServalRcBitmap
  import opened ServalRcOps

  class WriteBitmap {
    var refCnt: nat
    var cores: Word
    var words: seq<Word>
    var master: VersionId
    var placeholders: seq<Slot>

    constructor (initial: VersionId)
      ensures Value() == Wb(0, EmptyPacked(), initial, [])
    {
      refCnt, cores, words, master, placeholders := 0, Zero(), [], initial, [];
    }

    function Value(): Wb
      reads this
    {
      Wb(refCnt, Packed(cores, words), master, placeholders)
    }

    // write phase
    method UpdateBitmap(t: nat, ghost writers: set<nat>)
      requires t < TXS && Written(Value().packed, writers)
      modifies this
      ensures Value() == old(Value()).(packed := Value().packed)
      ensures Written(Value().packed, writers + {t})
    {
      MarkAdds(Value().packed, writers, t);
      SetBit(t / WIDTH, t % WIDTH);
    }

    method SetBit(core: nat, tx: nat)
      requires core < WIDTH && tx < WIDTH && CountPrefix(cores, core) <= |words|
      requires IsSet(cores, core) ==> CountPrefix(cores, core) < |words|
      modifies this`cores, this`words
      ensures Value().packed == Updated(old(Value()).packed, core, tx)
    {
      var pos := CountPrefix(cores, core);
      if IsSet(cores, core) {
        words := words[pos := WithBit(words[pos], tx)];
      } else {
        words := words[..pos] + [Bit(tx)] + words[pos..];
        cores := WithBit(cores, core);
      }
    }

    // read phase
    method AppendPendingVersion(t: nat, spare: VersionId) returns (ver: VersionId)
      requires t < TXS && PackedOk(Value().packed) && Ascending(placeholders)
      modifies this
      ensures Announce(old(Value()), t, spare).wb == Value() && Announce(old(Value()), t, spare).ver == ver
    {
      var id := VisibleSerial(Packed(cores, words), t);
      ver := AppendFor(id, spare);
    }

    method AppendFor(id: int, spare: VersionId) returns (ver: VersionId)
      requires Ascending(placeholders)
      modifies this
      ensures AnnounceFor(old(Value()), id, spare).wb == Value() && AnnounceFor(old(Value()), id, spare).ver == ver
    {
      refCnt := refCnt + 1;
      if id < 0 {
        return master;
      }
      var i := Find(id);
      if i == |placeholders| {
        var k := UpperPosition(id);
        placeholders := placeholders[..k] + [Slot(id, spare)] + placeholders[k..];
        return spare;
      }
      ver := placeholders[i].ver;
    }

    // std::find_if
    method Find(id: int) returns (i: nat)
      ensures i == FindId(placeholders, id)
    {
      i := 0;
      assert placeholders[0..] == placeholders;
      while i < |placeholders| && placeholders[i].id != id
        invariant i <= |placeholders| && FindId(placeholders, id) == i + FindId(placeholders[i..], id)
      {
        assert placeholders[i..][1..] == placeholders[i + 1..];
        i := i + 1;
      }
    }

    // std::upper_bound
    method UpperPosition(id: int) returns (k: nat)
      requires Ascending(placeholders)
      ensures k == UpperBound(placeholders, id)
    {
      k := 0;
      while k < |placeholders| && placeholders[k].id <= id
        invariant k <= |placeholders| && forall i :: 0 <= i < k ==> placeholders[i].id <= id
      {
        k := k + 1;
      }
      UpperBoundIs(placeholders, id, k);
    }

    method ClearBitmaps()
      modifies this`cores, this`words
      ensures Value().packed == EmptyPacked()
    {
      cores, words := Zero(), [];
    }

    // execute read
    method DecrementRefCnt() returns (freed: seq<VersionId>)
      requires refCnt > 0
      modifies this
      ensures Drop(old(Value())) == Dropped(Value(), freed)
    {
      freed := [];
      refCnt := refCnt - 1;
      if refCnt == 0 {
        if |placeholders| > 0 {
          freed := [master];
          master := placeholders[|placeholders| - 1].ver;
          placeholders := [];
        }
        ClearBitmaps();
      }
    }

    // execute write
    method IdentifyWriteVersion(t: nat, spare: VersionId) returns (target: Target, freed: seq<VersionId>)
      requires t < TXS && (cores != Zero() ==> words != [] && words[|words| - 1] != Zero())
      modifies this
      ensures Ask(old(Value()), t, spare) == Asked(Value(), target, freed)
    {
      target, freed := NoTarget, [];
      if refCnt > 0 {
        var i := Find(t);
        if i < |placeholders| {
          target := Write(placeholders[i].ver);
        }
      } else {
        var final := false;
        if cores != Zero() {
          final := FindLargest(cores) == t / WIDTH && FindLargest(words[|words| - 1]) == t % WIDTH;
          ClearBitmaps();
        }
        if final {
          freed := [master];
          master := spare;
          target := Write(master);
        }
      }
    }
  }
}
