/** What every step of Caracal's initialization phase keeps. */
module CaracalInitProof {
  import opened SortedSlots
  import opened CaracalArray
  import opened CaracalInit

  // ----- One row: its array -----

  // Before the first append of the epoch the array is as it was; afterwards one older version is left.
  ghost predicate ArrOk(arr: seq<Slot>, orig: seq<Slot>, cur: int) {
    orig != [] && Ascending(arr) && Older(arr, cur) == if Newer(arr, cur) == [] then orig else Last(orig)
  }

  ghost function NewSet(arr: seq<Slot>, cur: int): set<Slot>
    requires Ascending(arr)
  {
    Contents(Newer(arr, cur))
  }

  lemma ArrAppend(arr: seq<Slot>, orig: seq<Slot>, cur: int, slot: Slot)
    requires ArrOk(arr, orig, cur) && cur <= slot.id && !HasId(NewSet(arr, cur), slot.id)
    ensures ArrOk(Appended(arr, slot, cur), orig, cur)
    ensures NewSet(Appended(arr, slot, cur), cur) == NewSet(arr, cur) + {slot}
  {
    var older, newer := Older(arr, cur), Newer(arr, cur);
    SplitIs(arr, cur);
    AppendedOk(arr, cur, older, newer, slot);
    SplitUnique(Appended(arr, slot, cur), cur, Last(older), Inserted(newer, slot));
  }

  lemma ArrFlush(arr: seq<Slot>, orig: seq<Slot>, cur: int, buffer: seq<Slot>)
    requires ArrOk(arr, orig, cur) && Ascending(buffer) && AllNew(buffer, Newer(arr, cur), cur)
    ensures ArrOk(BatchAppended(arr, buffer, cur), orig, cur)
    ensures NewSet(BatchAppended(arr, buffer, cur), cur) == NewSet(arr, cur) + Contents(buffer)
  {
    var older, newer := Older(arr, cur), Newer(arr, cur);
    SplitIs(arr, cur);
    var newer' := BatchAppendedOk(arr, buffer, cur, older, newer);
    SplitUnique(BatchAppended(arr, buffer, cur), cur, if buffer == [] then older else Last(older), newer');
    Emptiness(newer');
    Emptiness(buffer);
    Emptiness(newer);
  }

  // ----- One row: where the versions of the epoch are -----

  ghost predicate Held(news: set<Slot>, buffers: seq<set<Slot>>, x: Slot) {
    x in news || exists c :: 0 <= c < |buffers| && x in buffers[c]
  }

  // Every version made in this epoch is in exactly one place: the array or one buffer.
  ghost predicate Placed(news: set<Slot>, buffers: seq<set<Slot>>, made: set<Slot>, cur: int) {
    && (forall x :: x in made <==> Held(news, buffers, x))
    && (forall x :: x in made ==> cur <= x.id)
    && (forall x, y :: x in made && y in made && x.id == y.id ==> x == y)
    && (forall c, x :: 0 <= c < |buffers| && x in buffers[c] ==> x !in news)
    && (forall c, d, x :: 0 <= c < |buffers| && 0 <= d < |buffers| && x in buffers[c] && x in buffers[d] ==> c == d)
  }

  lemma PlaceInArray(news: set<Slot>, buffers: seq<set<Slot>>, made: set<Slot>, cur: int, slot: Slot)
    requires Placed(news, buffers, made, cur) && cur <= slot.id && !HasId(made, slot.id)
    ensures Placed(news + {slot}, buffers, made + {slot}, cur)
  {
    assert forall x :: Held(news + {slot}, buffers, x) <==> Held(news, buffers, x) || x == slot;
    assert !Held(news, buffers, slot);
  }

  lemma PlaceInBuffer(news: set<Slot>, buffers: seq<set<Slot>>, made: set<Slot>, cur: int, w: nat, slot: Slot)
    requires Placed(news, buffers, made, cur) && cur <= slot.id && !HasId(made, slot.id) && w < |buffers|
    ensures Placed(news, buffers[w := buffers[w] + {slot}], made + {slot}, cur)
  {
    var buffers' := buffers[w := buffers[w] + {slot}];
    assert !Held(news, buffers, slot);
    forall x ensures Held(news, buffers', x) <==> Held(news, buffers, x) || x == slot {
      if c :| 0 <= c < |buffers| && x in buffers[c] { assert x in buffers'[c]; }
      assert slot in buffers'[w];
    }
  }

  lemma MoveToArray(news: set<Slot>, buffers: seq<set<Slot>>, made: set<Slot>, cur: int, w: nat)
    requires Placed(news, buffers, made, cur) && w < |buffers|
    ensures Placed(news + buffers[w], buffers[w := {}], made, cur)
  {
    var buffers' := buffers[w := {}];
    forall x ensures Held(news + buffers[w], buffers', x) <==> Held(news, buffers, x) {
      if c :| 0 <= c < |buffers| && x in buffers[c] { assert c != w ==> x in buffers'[c]; }
      if c :| 0 <= c < |buffers'| && x in buffers'[c] { assert x in buffers[c]; }
    }
    forall c, x | 0 <= c < |buffers'| && x in buffers'[c] ensures x !in news + buffers[w] {
      assert x in buffers[c];
    }
  }

  // No id of a made version twice: neither in the array nor in a buffer.
  lemma NewHere(news: set<Slot>, buffers: seq<set<Slot>>, made: set<Slot>, cur: int, id: int)
    requires Placed(news, buffers, made, cur) && !HasId(made, id)
    ensures !HasId(news, id) && forall c :: 0 <= c < |buffers| ==> !HasId(buffers[c], id)
  {
    forall x | x in news ensures x.id != id { assert Held(news, buffers, x); }
    forall c, x | 0 <= c < |buffers| && x in buffers[c] ensures x.id != id { assert Held(news, buffers, x); }
  }

  lemma BufferIsNew(news: set<Slot>, buffers: seq<set<Slot>>, made: set<Slot>, cur: int, w: nat, x: Slot)
    requires Placed(news, buffers, made, cur) && w < |buffers| && x in buffers[w]
    ensures cur <= x.id && !HasId(news, x.id)
  {
    assert Held(news, buffers, x);
    forall y | y in news ensures y.id != x.id { assert Held(news, buffers, y); }
  }

  // ----- One row -----

  ghost function Sets(buffers: seq<seq<Slot>>): (r: seq<set<Slot>>)
    ensures |r| == |buffers|
  {
    seq(|buffers|, c requires 0 <= c < |buffers| => Contents(buffers[c]))
  }

  ghost predicate RowOk(arr: seq<Slot>, buffers: seq<seq<Slot>>, orig: seq<Slot>, made: set<Slot>, cur: int) {
    && ArrOk(arr, orig, cur)
    && (forall c :: 0 <= c < |buffers| ==> Ascending(buffers[c]))
    && Placed(NewSet(arr, cur), Sets(buffers), made, cur)
  }

  lemma RowAppend(arr: seq<Slot>, buffers: seq<seq<Slot>>, orig: seq<Slot>, made: set<Slot>, cur: int, slot: Slot)
    requires RowOk(arr, buffers, orig, made, cur) && cur <= slot.id && !HasId(made, slot.id)
    ensures RowOk(Appended(arr, slot, cur), buffers, orig, made + {slot}, cur)
  {
    NewHere(NewSet(arr, cur), Sets(buffers), made, cur, slot.id);
    ArrAppend(arr, orig, cur, slot);
    PlaceInArray(NewSet(arr, cur), Sets(buffers), made, cur, slot);
  }

  lemma RowInsert(arr: seq<Slot>, buffers: seq<seq<Slot>>, orig: seq<Slot>, made: set<Slot>, cur: int, w: nat,
                  slot: Slot)
    requires RowOk(arr, buffers, orig, made, cur) && cur <= slot.id && !HasId(made, slot.id) && w < |buffers|
    ensures RowOk(arr, buffers[w := Inserted(buffers[w], slot)], orig, made + {slot}, cur)
  {
    NewHere(NewSet(arr, cur), Sets(buffers), made, cur, slot.id);
    assert Sets(buffers)[w] == Contents(buffers[w]);
    InsertedOk(buffers[w], slot);
    PlaceInBuffer(NewSet(arr, cur), Sets(buffers), made, cur, w, slot);
    assert Sets(buffers[w := Inserted(buffers[w], slot)]) == Sets(buffers)[w := Contents(buffers[w]) + {slot}];
  }

  lemma RowFlush(arr: seq<Slot>, buffers: seq<seq<Slot>>, orig: seq<Slot>, made: set<Slot>, cur: int, w: nat)
    requires RowOk(arr, buffers, orig, made, cur) && w < |buffers|
    ensures RowOk(BatchAppended(arr, buffers[w], cur), buffers[w := []], orig, made, cur)
  {
    assert Sets(buffers)[w] == Contents(buffers[w]);
    forall x | x in buffers[w] ensures cur <= x.id && !HasId(NewSet(arr, cur), x.id) {
      BufferIsNew(NewSet(arr, cur), Sets(buffers), made, cur, w, x);
    }
    assert AllNew(buffers[w], Newer(arr, cur), cur);
    ArrFlush(arr, orig, cur, buffers[w]);
    MoveToArray(NewSet(arr, cur), Sets(buffers), made, cur, w);
    assert Contents([]) == {};
    assert Sets(buffers[w := []]) == Sets(buffers)[w := {}];
  }
}
