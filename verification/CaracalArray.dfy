/** Caracal's version arrays and per-core buffers (`caracal/include/row_buffer.hpp`): ascending vectors of (global id,
    version), flushed into each other and pruned while they grow. */
module CaracalArray {
  import opened SortedSlots

  const SERIALS: nat := 0x1_0000_0000  // serial ids take the lower 32 bits of a global id

  function GlobalId(epoch: nat, serial: nat): nat {
    epoch * SERIALS + serial
  }

  function GetEpoch(id: nat): nat {
    id / SERIALS
  }

  function GetSerial(id: nat): nat {
    id % SERIALS
  }

  // A global id gives back its parts, and global ids order by epoch first and by serial id second.
  lemma GlobalIdParts(e: nat, s: nat, e': nat, s': nat)
    requires s < SERIALS && s' < SERIALS
    ensures GetEpoch(GlobalId(e, s)) == e && GetSerial(GlobalId(e, s)) == s
    ensures GlobalId(e, s) < GlobalId(e', s') <==> e < e' || (e == e' && s < s')
  {
    if e < e' {
      assert e' * SERIALS >= (e + 1) * SERIALS;
    } else if e' < e {
      assert e * SERIALS >= (e' + 1) * SERIALS;
    }
  }

  // ----- Specification -----

  // What minor_gc leaves, `cur` being the first global id of the epoch.
  function Collected(s: seq<Slot>, cur: int): seq<Slot> {
    if |s| >= 2 && s[1].id < cur then Collected(s[1..], cur) else s
  }

  function Appended(s: seq<Slot>, slot: Slot, cur: int): seq<Slot>
    requires Ascending(s)
  {
    Collected(Inserted(s, slot), cur)
  }

  // The versions of earlier epochs, then those of this one.
  predicate Splits(s: seq<Slot>, cur: int, older: seq<Slot>, newer: seq<Slot>) {
    && s == older + newer
    && (forall i :: 0 <= i < |older| ==> older[i].id < cur)
    && (forall i :: 0 <= i < |newer| ==> cur <= newer[i].id)
  }

  function Last(s: seq<Slot>): seq<Slot> {
    if s == [] then [] else [s[|s| - 1]]
  }

  // The versions of earlier epochs and those of this one; the only way to split an ascending array.
  function Older(s: seq<Slot>, cur: int): seq<Slot>
    requires Ascending(s)
  {
    s[..LowerBound(s, cur)]
  }

  function Newer(s: seq<Slot>, cur: int): seq<Slot>
    requires Ascending(s)
  {
    s[LowerBound(s, cur)..]
  }

  lemma SplitIs(s: seq<Slot>, cur: int)
    requires Ascending(s)
    ensures Splits(s, cur, Older(s, cur), Newer(s, cur))
  {
  }

  lemma SplitUnique(s: seq<Slot>, cur: int, older: seq<Slot>, newer: seq<Slot>)
    requires Ascending(s) && Splits(s, cur, older, newer)
    ensures older == Older(s, cur) && newer == Newer(s, cur)
  {
    forall i | 0 <= i < |older| ensures s[i].id < cur { assert s[i] == older[i]; }
    forall i | |older| <= i < |s| ensures cur <= s[i].id { assert s[i] == newer[i - |older|]; }
    LowerBoundIs(s, cur, |older|);
  }

  // Of the older versions exactly one survives, the newest; the versions of this epoch all do.
  lemma {:induction false} CollectedIs(s: seq<Slot>, cur: int, older: seq<Slot>, newer: seq<Slot>)
    requires Splits(s, cur, older, newer)
    ensures Collected(s, cur) == Last(older) + newer
    decreases |s|
  {
    if |older| >= 2 {
      assert s[1] == older[1];
      CollectedIs(s[1..], cur, older[1..], newer);
    } else {
      assert |s| >= 2 ==> s[1] == newer[1 - |older|];
    }
  }

  lemma OnlyOlderFreed(s: seq<Slot>, cur: int, x: Slot)
    requires Ascending(s) && x in s && x !in Collected(s, cur)
    ensures x.id < cur
  {
    SplitIs(s, cur);
    CollectedIs(s, cur, Older(s, cur), Newer(s, cur));
  }

  // Readers of this epoch and of later ones find what they would have found.
  lemma CollectedIsInvisible(s: seq<Slot>, cur: int, older: seq<Slot>, newer: seq<Slot>, bound: int, x: Slot)
    requires Ascending(s) && Splits(s, cur, older, newer) && cur <= bound
    ensures Ascending(Collected(s, cur))
    ensures GreatestBelow(Contents(s), bound, x) <==> GreatestBelow(Contents(Collected(s, cur)), bound, x)
    ensures NoneBelow(Contents(s), bound) <==> NoneBelow(Contents(Collected(s, cur)), bound)
  {
    CollectedIs(s, cur, older, newer);
    SuffixAscending(older, newer);
    JoinAscending(older, newer, cur);
    if older != [] {
      var o := older[|older| - 1];
      assert forall y :: y in older ==> y.id <= o.id && (y.id == o.id ==> y == o);
      assert forall y :: y in Contents(s) <==> y in older || y in newer;
      assert forall y :: y in Contents(Last(older) + newer) <==> y == o || y in newer;
      assert o in older;
    }
  }

  // Appending a version of this epoch: sorted into those of this epoch, behind one older version.
  lemma AppendedIs(s: seq<Slot>, cur: int, older: seq<Slot>, newer: seq<Slot>, slot: Slot)
    requires Ascending(s) && Ascending(newer) && Splits(s, cur, older, newer) && cur <= slot.id
    ensures Appended(s, slot, cur) == Last(older) + Inserted(newer, slot)
    ensures Splits(Appended(s, slot, cur), cur, Last(older), Inserted(newer, slot))
  {
    InsertedBehind(s, cur, older, newer, slot);
    CollectedIs(Inserted(s, slot), cur, older, Inserted(newer, slot));
  }

  lemma InsertedBehind(s: seq<Slot>, cur: int, older: seq<Slot>, newer: seq<Slot>, slot: Slot)
    requires Ascending(s) && Ascending(newer) && Splits(s, cur, older, newer) && cur <= slot.id
    ensures Splits(Inserted(s, slot), cur, older, Inserted(newer, slot))
  {
    var j := UpperBound(newer, slot.id);
    UpperBoundBehind(s, cur, older, newer, slot.id);
    InsertInSuffix(older, newer, j, slot);
    var r := newer[..j] + [slot] + newer[j..];
    forall i | 0 <= i < |r| ensures cur <= r[i].id {
      assert r[i] == if i < j then newer[i] else if i == j then slot else newer[i - 1];
    }
  }

  lemma UpperBoundBehind(s: seq<Slot>, cur: int, older: seq<Slot>, newer: seq<Slot>, id: int)
    requires Ascending(s) && Ascending(newer) && Splits(s, cur, older, newer) && cur <= id
    ensures UpperBound(s, id) == |older| + UpperBound(newer, id)
  {
    var k := |older| + UpperBound(newer, id);
    forall i | 0 <= i < k ensures s[i].id <= id {
      assert s[i] == if i < |older| then older[i] else newer[i - |older|];
    }
    forall i | k <= i < |s| ensures id < s[i].id {
      assert s[i] == newer[i - |older|];
    }
    UpperBoundIs(s, id, k);
  }

  lemma InsertInSuffix(a: seq<Slot>, b: seq<Slot>, j: nat, x: Slot)
    requires j <= |b|
    ensures (a + b)[..|a| + j] + [x] + (a + b)[|a| + j..] == a + (b[..j] + [x] + b[j..])
  {
    assert (a + b)[..|a| + j] == a + b[..j];
    assert (a + b)[|a| + j..] == b[j..];
  }

  // A buffer appended slot by slot.
  function BatchAppended(s: seq<Slot>, buffer: seq<Slot>, cur: int): seq<Slot>
    requires Ascending(s)
    decreases |buffer|
  {
    if buffer == [] then s
    else
      var s' := Appended(s, buffer[0], cur);
      if Ascending(s') then BatchAppended(s', buffer[1..], cur) else s'
  }

  lemma BatchUnfold(s: seq<Slot>, buffer: seq<Slot>, cur: int, s1: seq<Slot>)
    requires Ascending(s) && buffer != [] && s1 == Appended(s, buffer[0], cur) && Ascending(s1)
    ensures BatchAppended(s, buffer, cur) == BatchAppended(s1, buffer[1..], cur)
  {
  }

  // One slot of a flush.
  lemma AppendedOk(s: seq<Slot>, cur: int, older: seq<Slot>, newer: seq<Slot>, x: Slot)
    requires Ascending(s) && Splits(s, cur, older, newer) && cur <= x.id && !HasId(Contents(newer), x.id)
    ensures Ascending(newer) && Ascending(Inserted(newer, x)) && Contents(Inserted(newer, x)) == Contents(newer) + {x}
    ensures Ascending(Appended(s, x, cur)) && Splits(Appended(s, x, cur), cur, Last(older), Inserted(newer, x))
  {
    SuffixAscending(older, newer);
    AppendedIs(s, cur, older, newer, x);
    InsertedOk(newer, x);
    JoinAscending(older, Inserted(newer, x), cur);
  }

  // The slots of this epoch are new to the array.
  predicate AllNew(buffer: seq<Slot>, newer: seq<Slot>, cur: int) {
    forall x :: x in buffer ==> cur <= x.id && !HasId(Contents(newer), x.id)
  }

  lemma RestIsNew(buffer: seq<Slot>, newer: seq<Slot>, newer': seq<Slot>, cur: int)
    requires buffer != [] && Ascending(buffer) && AllNew(buffer, newer, cur)
    requires Contents(newer') == Contents(newer) + {buffer[0]}
    ensures AllNew(buffer[1..], newer', cur) && Ascending(buffer[1..])
    ensures Contents(buffer) == {buffer[0]} + Contents(buffer[1..])
  {
    var x, rest := buffer[0], buffer[1..];
    assert buffer == [x] + rest;
    forall y | y in rest ensures cur <= y.id && !HasId(Contents(newer'), y.id) {
      assert y in buffer;
      var i :| 0 <= i < |rest| && rest[i] == y;
      assert buffer[i + 1] == y;
    }
  }

  // A flush conserves versions: afterwards the array holds those it had of this epoch and the buffer's, in order.
  lemma {:induction false} BatchAppendedOk(s: seq<Slot>, buffer: seq<Slot>, cur: int, older: seq<Slot>,
                                           newer: seq<Slot>)
    returns (newer': seq<Slot>)
    requires Ascending(s) && Splits(s, cur, older, newer) && Ascending(buffer) && AllNew(buffer, newer, cur)
    ensures Ascending(BatchAppended(s, buffer, cur))
    ensures Splits(BatchAppended(s, buffer, cur), cur, if buffer == [] then older else Last(older), newer')
    ensures Contents(newer') == Contents(newer) + Contents(buffer)
    decreases |buffer|
  {
    newer' := newer;
    if buffer != [] {
      AppendedOk(s, cur, older, newer, buffer[0]);
      var s1, newer1, older1 := Appended(s, buffer[0], cur), Inserted(newer, buffer[0]), Last(older);
      RestIsNew(buffer, newer, newer1, cur);
      BatchUnfold(s, buffer, cur, s1);
      newer' := BatchAppendedOk(s1, buffer[1..], cur, older1, newer1);
    }
  }

  lemma SuffixAscending(older: seq<Slot>, newer: seq<Slot>)
    requires Ascending(older + newer)
    ensures Ascending(newer) && Ascending(older)
  {
    var s := older + newer;
    forall i, j | 0 <= i < j < |newer| ensures newer[i].id < newer[j].id {
      assert s[|older| + i] == newer[i] && s[|older| + j] == newer[j];
    }
    forall i, j | 0 <= i < j < |older| ensures older[i].id < older[j].id {
      assert s[i] == older[i] && s[j] == older[j];
    }
  }

  lemma JoinAscending(older: seq<Slot>, newer: seq<Slot>, cur: int)
    requires Ascending(newer) && forall i :: 0 <= i < |older| ==> older[i].id < cur
    requires forall i :: 0 <= i < |newer| ==> cur <= newer[i].id
    ensures Ascending(Last(older) + newer)
  {
  }

  // ----- The classes -----

  class PerCoreBuffer {
    var slots: seq<Slot>

    constructor ()
      ensures slots == []
    {
      slots := [];
    }

    // Inserts in order; says whether there is room for more.
    method Appendable(ver: VersionId, epoch: nat, serial: nat, maxSlots: nat) returns (notFull: bool)
      requires Ascending(slots) && |slots| < maxSlots
      modifies this
      ensures slots == Inserted(old(slots), Slot(GlobalId(epoch, serial), ver))
      ensures notFull <==> |slots| < maxSlots
    {
      var k := FindUpperBound(slots, GlobalId(epoch, serial));
      slots := slots[..k] + [Slot(GlobalId(epoch, serial), ver)] + slots[k..];
      notFull := |slots| < maxSlots;
    }

    method Initialize()
      modifies this
      ensures slots == []
    {
      slots := [];
    }
  }

  // std::upper_bound
  method FindUpperBound(s: seq<Slot>, id: int) returns (k: nat)
    requires Ascending(s)
    ensures k == UpperBound(s, id)
  {
    var lo, hi := 0, |s|;
    while lo < hi
      invariant lo <= hi <= |s|
      invariant forall i :: 0 <= i < lo ==> s[i].id <= id
      invariant forall i :: hi <= i < |s| ==> id < s[i].id
    {
      var mid := (lo + hi) / 2;
      if s[mid].id <= id { lo := mid + 1; } else { hi := mid; }
    }
    k := lo;
    UpperBoundIs(s, id, k);
  }

  class GlobalVersionArray {
    var slots: seq<Slot>

    constructor (initial: VersionId)
      ensures slots == [Slot(GlobalId(0, 0), initial)]
    {
      slots := [Slot(GlobalId(0, 0), initial)];
    }

    // Flushes the buffer.
    method BatchAppend(buffer: PerCoreBuffer, epoch: nat, ghost older: seq<Slot>, ghost newer: seq<Slot>)
      requires Ascending(slots) && Ascending(buffer.slots)
      requires Splits(slots, GlobalId(epoch, 0), older, newer) && AllNew(buffer.slots, newer, GlobalId(epoch, 0))
      modifies this, buffer
      ensures slots == BatchAppended(old(slots), old(buffer.slots), GlobalId(epoch, 0)) && Ascending(slots)
      ensures buffer.slots == []
    {
      ghost var cur := GlobalId(epoch, 0);
      ghost var newer' := BatchAppendedOk(slots, buffer.slots, cur, older, newer);
      var i := 0;
      assert buffer.slots[0..] == buffer.slots;
      while i < |buffer.slots|
        invariant i <= |buffer.slots| && buffer.slots == old(buffer.slots) && Ascending(slots)
        invariant BatchAppended(slots, buffer.slots[i..], cur) == BatchAppended(old(slots), buffer.slots, cur)
        invariant Ascending(BatchAppended(slots, buffer.slots[i..], cur))
      {
        assert buffer.slots[i..][1..] == buffer.slots[i + 1..];
        AppendWithGc(buffer.slots[i].ver, buffer.slots[i].id, epoch);
        i := i + 1;
      }
      buffer.Initialize();
    }

    method Append(ver: VersionId, epoch: nat, serial: nat)
      requires Ascending(slots)
      modifies this
      ensures slots == Appended(old(slots), Slot(GlobalId(epoch, serial), ver), GlobalId(epoch, 0))
    {
      AppendWithGc(ver, GlobalId(epoch, serial), epoch);
    }

    method AppendWithGc(ver: VersionId, id: int, epoch: nat)
      requires Ascending(slots)
      modifies this
      ensures slots == Appended(old(slots), Slot(id, ver), GlobalId(epoch, 0))
    {
      var k := FindUpperBound(slots, id);
      slots := slots[..k] + [Slot(id, ver)] + slots[k..];
      var freed := MinorGc(epoch);
    }

    // Deletes from the front while the next version is still of an earlier epoch.
    method MinorGc(epoch: nat) returns (freed: seq<Slot>)
      modifies this
      ensures slots == Collected(old(slots), GlobalId(epoch, 0)) && freed + slots == old(slots)
    {
      var cur := GlobalId(epoch, 0);
      freed := [];
      while |slots| >= 2 && slots[1].id < cur
        invariant Collected(slots, cur) == Collected(old(slots), cur) && freed + slots == old(slots)
        decreases |slots|
      {
        freed := freed + [slots[0]];
        slots := slots[1..];
      }
    }

    // The version with the greatest global id below the reader's.
    method SearchVisibleVersion(epoch: nat, serial: nat) returns (x: Slot)
      requires Ascending(slots) && !NoneBelow(Contents(slots), GlobalId(epoch, serial))
      ensures GreatestBelow(Contents(slots), GlobalId(epoch, serial), x)
    {
      var id := GlobalId(epoch, serial);
      SearchIsGreatest(slots, id);
      var lo, hi := 0, |slots|;
      while lo < hi
        invariant lo <= hi <= |slots|
        invariant forall i :: 0 <= i < lo ==> slots[i].id < id
        invariant forall i :: hi <= i < |slots| ==> id <= slots[i].id
      {
        var mid := (lo + hi) / 2;
        if id <= slots[mid].id { hi := mid; } else { lo := mid + 1; }
      }
      LowerBoundIs(slots, id, lo);
      x := slots[lo - 1];
    }
  }
}
