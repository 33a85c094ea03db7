/** Every step of a Serval_RC row keeps the invariant, and what follows for every run. */
module ServalRcProof {
  import opened SortedSlots
  import opened Bitmap
  import opened ServalRcBitmap
  import opened ServalRcOps
  import opened ServalRc

  // ----- Counting readers -----

  lemma OutAdd(readers: map<nat, Reader>, t: nat, x: Reader)
    requires t !in readers && x.pc.Waiting?
    ensures |Outstanding(readers[t := x])| == |Outstanding(readers)| + 1
  {
    assert Outstanding(readers[t := x]) == Outstanding(readers) + {t};
  }

  lemma OutKeep(readers: map<nat, Reader>, t: nat, x: Reader)
    requires t in readers && !readers[t].pc.Gone? && !x.pc.Gone?
    ensures Outstanding(readers[t := x]) == Outstanding(readers)
  {
  }

  lemma OutDrop(readers: map<nat, Reader>, t: nat, x: Reader)
    requires t in readers && !readers[t].pc.Gone? && x.pc.Gone?
    ensures |Outstanding(readers[t := x])| == |Outstanding(readers)| - 1
    ensures |Outstanding(readers)| == 1 ==> forall u :: u in readers && u != t ==> readers[u].pc.Gone?
  {
    var out := Outstanding(readers);
    assert Outstanding(readers[t := x]) == out - {t};
    if |out| == 1 {
      assert |out - {t}| == 0;
      forall u | u in readers && u != t ensures readers[u].pc.Gone? {
        assert u in out ==> u in out - {t};
      }
    }
  }

  lemma OutSome(readers: map<nat, Reader>, t: nat)
    requires t in readers && !readers[t].pc.Gone?
    ensures |Outstanding(readers)| > 0
  {
    assert t in Outstanding(readers);
  }

  lemma OutNone(readers: map<nat, Reader>)
    requires readers == map[]
    ensures |Outstanding(readers)| == 0
  {
    assert Outstanding(readers) == {};
  }

  // ----- The write and the read phase -----

  lemma MarkKeeps(s: State, t: nat, s': State)
    requires Inv(s) && Enabled(s, MarkWriter(t)) && s' == Apply(s, MarkWriter(t))
    ensures Inv(s')
  {
    OutNone(s.readers);
    MarkAdds(s.wb.packed, s.writers.Keys, t);
    assert s'.writers.Keys == s.writers.Keys + {t};
    forall u | u in s'.writers ensures WriterOk(s', u) { if u != t { assert WriterOk(s, u); } }
  }

  lemma StartReadingKeeps(s: State, s': State)
    requires Inv(s) && Enabled(s, StartReading) && s' == Apply(s, StartReading)
    ensures Inv(s')
  {
    forall u | u in s'.writers ensures WriterOk(s', u) { assert WriterOk(s, u); }
    OutNone(s.readers);
  }

  lemma StartExecutingKeeps(s: State, s': State)
    requires Inv(s) && Enabled(s, StartExecuting) && s' == Apply(s, StartExecuting)
    ensures Inv(s')
  {
    forall u | u in s'.writers ensures WriterOk(s', u) { assert WriterOk(s, u); }
    forall u | u in s'.readers ensures ReaderOk(s', u) { assert ReaderOk(s, u); }
    forall x | x in s'.wb.placeholders ensures PlaceOk(s', x) { PlaceSame(s, s', x); }
    if s.readers != map[] {
      var t :| t in s.readers;
      OutSome(s.readers, t);
    }
  }

  // A step that leaves the places, their writers, readers and versions alone keeps a placeholder.
  lemma PlaceSame(s: State, s': State, x: Slot)
    requires PlaceOk(s, x) && s'.wb.placeholders == s.wb.placeholders && s'.wb.master == s.wb.master
    requires s'.freed == s.freed
    requires s'.writers == s.writers && s'.stable == s.stable && s'.maker == s.maker && s.next <= s'.next
    requires forall t :: t in s.readers ==>
             t in s'.readers && s'.readers[t].from == s.readers[t].from && s'.readers[t].ver == s.readers[t].ver
    ensures PlaceOk(s', x)
  {
    var t :| HasReader(s, t, x);
    assert HasReader(s', t, x);
  }

  // The state after reader t was given version ver of writer `from`.
  ghost function Given(s: State, t: nat, ver: VersionId, from: int, places: seq<Slot>, next: VersionId): State {
    s.(wb := s.wb.(refCnt := s.wb.refCnt + 1, placeholders := places),
      readers := s.readers[t := Reader(Waiting, ver, from)], next := next)
  }

  ghost predicate MayAnnounce(s: State, t: nat, from: int) {
    Inv(s) && s.phase.Reading? && t < TXS && t !in s.readers && from >= -1 && IsVisible(s.writers.Keys, t, from)
  }

  // What does not depend on the version.
  lemma GivenCommon(s: State, t: nat, ver: VersionId, from: int, places: seq<Slot>, next: VersionId, s': State)
    requires MayAnnounce(s, t, from) && s' == Given(s, t, ver, from, places, next) && s.next <= next
    ensures s'.wb.refCnt == |Outstanding(s'.readers)| > 0 && BitsOk(s') && MasterOk(s') && PhaseOk(s')
    ensures forall u :: u in s'.writers ==> s'.writers[u].Marked? && WriterOk(s', u)
  {
    OutAdd(s.readers, t, s'.readers[t]);
    forall u | u in s'.writers ensures s'.writers[u].Marked? && WriterOk(s', u) { assert WriterOk(s, u); }
  }

  lemma GivenShared(s: State, t: nat, ver: VersionId, from: int, s': State)
    requires MayAnnounce(s, t, from) && s' == Given(s, t, ver, from, s.wb.placeholders, s.next)
    requires if from < 0 then ver == s.wb.master else Slot(from, ver) in s.wb.placeholders
    ensures Inv(s')
  {
    GivenCommon(s, t, ver, from, s.wb.placeholders, s.next, s');
    forall u | u in s'.readers ensures ReaderOk(s', u) { if u != t { assert ReaderOk(s, u); } }
    forall x | x in s'.wb.placeholders ensures PlaceOk(s', x) { assert PlaceOk(s, x); PlaceSame(s, s', x); }
  }

  lemma GivenFresh(s: State, t: nat, from: nat, s': State)
    requires MayAnnounce(s, t, from) && !HasId(Contents(s.wb.placeholders), from)
    requires s' == Given(s, t, s.next, from, Inserted(s.wb.placeholders, Slot(from, s.next)), s.next + 1)
    ensures Inv(s')
  {
    var slot := Slot(from, s.next);
    var places := Inserted(s.wb.placeholders, slot);
    GivenCommon(s, t, s.next, from, places, s.next + 1, s');
    InsertedOk(s.wb.placeholders, slot);
    forall x ensures x in places <==> x in s.wb.placeholders || x == slot {
      assert x in places <==> x in Contents(places);
    }
    forall u | u in s'.readers ensures ReaderOk(s', u) { if u != t { assert ReaderOk(s, u); } }
    forall x | x in s'.wb.placeholders ensures PlaceOk(s', x) {
      if x == slot { FreshPlace(s, t, s', x); } else { OldPlace(s, t, s', x, slot); }
    }
  }

  lemma FreshPlace(s: State, t: nat, s': State, x: Slot)
    requires Inv(s) && !s.phase.Executing? && x.ver == s.next && x.id >= 0 && x.id in s.writers
    requires s'.writers == s.writers && s'.stable == s.stable && s'.maker == s.maker && s'.freed == s.freed
    requires t in s'.readers && s'.readers[t] == Reader(Waiting, x.ver, x.id) && s'.next == s.next + 1
    requires s'.wb.master == s.wb.master
    requires forall y :: y in s'.wb.placeholders ==> y in s.wb.placeholders || y == x
    ensures PlaceOk(s', x)
  {
    assert HasReader(s', t, x);
    assert forall y :: y in s.wb.placeholders ==> PlaceOk(s, y);
  }

  lemma OldPlace(s: State, t: nat, s': State, x: Slot, slot: Slot)
    requires Inv(s) && x in s.wb.placeholders && t !in s.readers && slot.ver == s.next
    requires s'.writers == s.writers && s'.stable == s.stable && s'.maker == s.maker && s'.freed == s.freed
    requires s'.wb.master == s.wb.master && s'.next == s.next + 1
    requires forall u :: u in s.readers ==> u in s'.readers && s'.readers[u] == s.readers[u]
    requires forall y :: y in s'.wb.placeholders ==> y in s.wb.placeholders || y == slot
    ensures PlaceOk(s', x)
  {
    assert PlaceOk(s, x);
    var u :| HasReader(s, u, x);
    assert HasReader(s', u, x);
  }

  lemma FindIdMisses(s: seq<Slot>, id: int)
    requires FindId(s, id) == |s|
    ensures !HasId(Contents(s), id)
  {
  }

  lemma AnnouncedKeeps(s: State, t: nat, v: int, s': State)
    requires MayAnnounce(s, t, v)
    requires var a := AnnounceFor(s.wb, v, s.next);
             s' == s.(wb := a.wb, readers := s.readers[t := Reader(Waiting, a.ver, v)],
               next := if a.isNew then s.next + 1 else s.next)
    ensures Inv(s')
  {
    var i := FindId(s.wb.placeholders, v);
    if v < 0 {
      GivenShared(s, t, s.wb.master, v, s');
    } else if i < |s.wb.placeholders| {
      GivenShared(s, t, s.wb.placeholders[i].ver, v, s');
    } else {
      FindIdMisses(s.wb.placeholders, v);
      GivenFresh(s, t, v, s');
    }
  }

  lemma AnnounceKeeps(s: State, t: nat, s': State)
    requires Inv(s) && Enabled(s, AnnounceReader(t)) && s' == Apply(s, AnnounceReader(t))
    ensures Inv(s')
  {
    VisibleIdIs(s.wb.packed, s.writers.Keys, t);
    AnnouncedKeeps(s, t, VisibleId(s.wb.packed, t), s');
  }

  // ----- The execution phase -----

  lemma ObserveKeeps(s: State, t: nat, s': State)
    requires Inv(s) && Enabled(s, Observe(t)) && s' == Apply(s, Observe(t))
    ensures Inv(s')
  {
    OutKeep(s.readers, t, s'.readers[t]);
    assert ReaderOk(s, t);
    if s.readers[t].from >= 0 { assert PlaceOk(s, Slot(s.readers[t].from, s.readers[t].ver)); }
    forall u | u in s'.writers ensures WriterOk(s', u) { assert WriterOk(s, u); }
    forall u | u in s'.readers ensures ReaderOk(s', u) { assert ReaderOk(s, u); }
    forall x | x in s'.wb.placeholders ensures PlaceOk(s', x) { assert PlaceOk(s, x); PlaceSame(s, s', x); }
  }

  lemma DropNotLast(s: State, t: nat, s': State)
    requires Inv(s) && Enabled(s, DropReader(t)) && s' == Apply(s, DropReader(t)) && s.wb.refCnt > 1
    ensures Inv(s')
  {
    OutDrop(s.readers, t, s'.readers[t]);
    assert SetOf([]) == {};
    forall u | u in s'.writers ensures WriterOk(s', u) { assert WriterOk(s, u); }
    forall u | u in s'.readers ensures ReaderOk(s', u) { assert ReaderOk(s, u); }
    forall x | x in s'.wb.placeholders ensures PlaceOk(s', x) { assert PlaceOk(s, x); PlaceSame(s, s', x); }
  }

  // When the last reader goes, every placeholder is stable.
  lemma AllStable(s: State, t: nat, x: Slot)
    requires Inv(s) && Enabled(s, DropReader(t)) && s.wb.refCnt == 1 && x in s.wb.placeholders
    ensures x.ver in s.stable && x.id in s.writers && s.writers[x.id].Done?
  {
    assert PlaceOk(s, x);
    var u :| HasReader(s, u, x);
    assert ReaderOk(s, u);
    OutDrop(s.readers, t, s.readers[t].(pc := Gone));
  }

  lemma NoStoring(s: State, t: nat, u: nat)
    requires Inv(s) && Enabled(s, DropReader(t)) && s.wb.refCnt == 1 && u in s.writers
    ensures !s.writers[u].Storing?
  {
    assert WriterOk(s, u);
    if s.writers[u].Storing? {
      AllStable(s, t, Slot(u, s.writers[u].ver));
    }
  }

  lemma DropLast(s: State, t: nat, s': State)
    requires Inv(s) && Enabled(s, DropReader(t)) && s' == Apply(s, DropReader(t)) && s.wb.refCnt == 1
    ensures Inv(s')
  {
    OutDrop(s.readers, t, s'.readers[t]);
    forall u | u in s'.writers ensures WriterOk(s', u) { assert WriterOk(s, u); NoStoring(s, t, u); }
    forall u | u in s'.readers ensures ReaderOk(s', u) { assert ReaderOk(s, u); }
    MasterStable(s, t);
    if s.wb.placeholders != [] {
      var x := s.wb.placeholders[|s.wb.placeholders| - 1];
      AllStable(s, t, x);
      assert PlaceOk(s, x);
      assert SetOf([s.wb.master]) == {s.wb.master};
    } else {
      assert SetOf([]) == {};
    }
  }

  lemma MasterStable(s: State, t: nat)
    requires Inv(s) && t in s.readers
    ensures s.wb.master in s.stable
  {
    assert s.readers != map[];
  }

  lemma DropKeeps(s: State, t: nat, s': State)
    requires Inv(s) && Enabled(s, DropReader(t)) && s' == Apply(s, DropReader(t))
    ensures Inv(s')
  {
    if s.wb.refCnt > 1 { DropNotLast(s, t, s'); } else { DropLast(s, t, s'); }
  }

  // While readers are outstanding, a writer is given its placeholder if there is one.
  lemma AskWithReaders(s: State, t: nat, s': State)
    requires Inv(s) && Enabled(s, AskWriter(t)) && s' == Apply(s, AskWriter(t)) && s.wb.refCnt > 0
    ensures Inv(s')
  {
    assert SetOf([]) == {};
    assert WriterOk(s, t);
    var i := FindId(s.wb.placeholders, t);
    if i < |s.wb.placeholders| { assert PlaceOk(s, s.wb.placeholders[i]); }
    forall u | u in s'.writers ensures WriterOk(s', u) {
      assert WriterOk(s, u);
      AskUnique(s, t);
    }
    assert s'.writers.Keys == s.writers.Keys;
    forall u | u in s'.readers ensures ReaderOk(s', u) { assert ReaderOk(s, u); }
    forall x | x in s'.wb.placeholders ensures PlaceOk(s', x) { AskPlace(s, t, s', x); }
    MasterStays(s, s');
  }

  // Nobody else stores to the writer's placeholder.
  lemma AskUnique(s: State, t: nat)
    requires Inv(s) && s.wb.refCnt > 0
    ensures var i := FindId(s.wb.placeholders, t);
            i < |s.wb.placeholders| ==>
              forall u :: u in s.writers && s.writers[u] == Storing(s.wb.placeholders[i].ver) ==> u == t
  {
    var i := FindId(s.wb.placeholders, t);
    if i < |s.wb.placeholders| {
      var x := s.wb.placeholders[i];
      assert PlaceOk(s, x) && x == Slot(t, x.ver);
      forall u | u in s.writers && s.writers[u] == Storing(x.ver) ensures u == t {
        assert WriterOk(s, u);
        if s.readers == map[] { OutNone(s.readers); }
      }
    }
  }

  lemma MasterStays(s: State, s': State)
    requires MasterOk(s) && s.wb.refCnt > 0 && |Outstanding(s.readers)| == s.wb.refCnt
    requires s'.wb == s.wb && s'.freed == s.freed && s.stable == s'.stable && s.next <= s'.next && s'.start == s.start
    ensures MasterOk(s')
  {
    if s.readers == map[] { OutNone(s.readers); }
  }

  lemma AskPlace(s: State, t: nat, s': State, x: Slot)
    requires Inv(s) && Enabled(s, AskWriter(t)) && s' == Apply(s, AskWriter(t)) && s.wb.refCnt > 0
    requires x in s.wb.placeholders
    requires s'.freed == s.freed
    ensures PlaceOk(s', x)
  {
    assert PlaceOk(s, x);
    var u :| HasReader(s, u, x);
    assert HasReader(s', u, x);
    var i := FindId(s.wb.placeholders, t);
    if x.id == t {
      var j :| 0 <= j < |s.wb.placeholders| && s.wb.placeholders[j] == x;
      assert i < |s.wb.placeholders| && s.wb.placeholders[i].id == s.wb.placeholders[j].id;
    }
  }

  // Without readers, the last writer replaces the master if it comes first; whoever comes first clears the bitmaps.
  lemma AskWithout(s: State, t: nat, s': State)
    requires Inv(s) && Enabled(s, AskWriter(t)) && s' == Apply(s, AskWriter(t)) && s.wb.refCnt == 0
    ensures Inv(s')
  {
    ClearedNow(s, t);
    if s.wb.packed == EmptyPacked() {
      AskLater(s, t, s');
    } else {
      AskFirst(s, t, s');
    }
  }

  lemma AskLater(s: State, t: nat, s': State)
    requires Inv(s) && Enabled(s, AskWriter(t)) && s' == Apply(s, AskWriter(t)) && s.wb.refCnt == 0
    requires s.wb.packed == EmptyPacked()
    ensures Inv(s')
  {
    assert SetOf([]) == {};
    assert s'.writers.Keys == s.writers.Keys;
    AskEmptyMaster(s, t, s');
    forall u | u in s'.readers ensures ReaderOk(s', u) { assert ReaderOk(s, u); }
    forall u | u in s'.writers ensures WriterOk(s', u) { assert WriterOk(s, u); }
  }

  lemma AskFirst(s: State, t: nat, s': State)
    requires Inv(s) && Enabled(s, AskWriter(t)) && s' == Apply(s, AskWriter(t)) && s.wb.refCnt == 0
    requires s.wb.packed.cores != Zero()
    requires s.wb.packed != EmptyPacked()
    ensures Inv(s')
  {
    assert WriterOk(s, t);
    assert SetOf([]) == {} && SetOf([s.wb.master]) == {s.wb.master};
    assert s'.writers.Keys == s.writers.Keys;
    FirstWriter(s, t);
    forall u | u in s'.writers ensures WriterOk(s', u) { assert WriterOk(s, u); }
    assert s'.writers[t].Storing? ==> s'.writers[t] == Storing(s'.wb.master);
  }

  lemma ClearedNow(s: State, t: nat)
    requires Inv(s) && s.phase.Executing? && t in s.writers && s.wb.refCnt == 0
    ensures s.wb.packed == EmptyPacked() || s.wb.packed.cores != Zero()
  {
    if s.wb.packed != EmptyPacked() {
      WrittenOk(s.wb.packed, s.writers.Keys);
      assert t in s.writers.Keys;
    }
  }

  // As long as the bitmaps are not cleared and nobody reads, no writer has come and the master is stable.
  lemma FirstWriter(s: State, t: nat)
    requires Inv(s) && s.phase.Executing? && s.wb.refCnt == 0 && s.wb.packed != EmptyPacked()
    ensures s.readers == map[] && s.wb.master in s.stable && forall u :: u in s.writers ==> s.writers[u].Marked?
  {
    forall u | u in s.writers ensures s.writers[u].Marked? { }
  }

  lemma AskEmptyMaster(s: State, t: nat, s': State)
    requires Inv(s) && Enabled(s, AskWriter(t)) && s' == Apply(s, AskWriter(t)) && s.wb.refCnt == 0
    requires s.wb.packed == EmptyPacked()
    ensures s'.wb == s.wb && s'.writers[t].Done? && MasterOk(s')
  {
    assert SetOf([]) == {};
    if s.wb.master !in s.stable {
      var u :| u in s.writers && s.writers[u] == Storing(s.wb.master);
      assert s'.writers[u] == Storing(s'.wb.master);
    }
  }

  lemma AskKeeps(s: State, t: nat, s': State)
    requires Inv(s) && Enabled(s, AskWriter(t)) && s' == Apply(s, AskWriter(t))
    ensures Inv(s')
  {
    if s.wb.refCnt > 0 { AskWithReaders(s, t, s'); } else { AskWithout(s, t, s'); }
  }

  lemma StoreKeeps(s: State, t: nat, s': State)
    requires Inv(s) && Enabled(s, Store(t)) && s' == Apply(s, Store(t))
    ensures Inv(s')
  {
    var v := s.writers[t].ver;
    assert WriterOk(s, t);
    assert s'.writers.Keys == s.writers.Keys;
    assert v < s.next by { if Slot(t, v) in s.wb.placeholders { assert PlaceOk(s, Slot(t, v)); } }
    forall u | u in s'.writers ensures WriterOk(s', u) { assert WriterOk(s, u); }
    forall u | u in s'.readers ensures ReaderOk(s', u) { assert ReaderOk(s, u); }
    forall x | x in s'.wb.placeholders ensures PlaceOk(s', x) { StorePlace(s, t, s', x); }
    if s'.wb.refCnt == 0 && s'.wb.packed != EmptyPacked() { FirstWriter(s, t); }
  }

  lemma StorePlace(s: State, t: nat, s': State, x: Slot)
    requires Inv(s) && Enabled(s, Store(t)) && s' == Apply(s, Store(t)) && x in s.wb.placeholders
    ensures PlaceOk(s', x)
  {
    assert PlaceOk(s, x) && WriterOk(s, t);
    var v := s.writers[t].ver;
    if Slot(t, v) in s.wb.placeholders { assert PlaceOk(s, Slot(t, v)); }
    var u :| HasReader(s, u, x);
    assert HasReader(s', u, x);
  }

  lemma EndKeeps(s: State, s': State)
    requires Inv(s) && Enabled(s, EndEpoch) && s' == Apply(s, EndEpoch)
    ensures Inv(s') && s.wb.packed == EmptyPacked() && s.wb.placeholders == [] && s.wb.master in s.stable
    ensures s.wb.refCnt == 0
  {
    assert Outstanding(s.readers) == {};
    OutNone(s'.readers);
    if s.wb.packed != EmptyPacked() {
      FirstWriter(s, 0);
      assert s.writers == map[] by {
        forall t ensures t !in s.writers { }
      }
      WrittenNone(s.wb.packed, s.writers.Keys);
    }
    EmptyWritten();
    assert s'.writers.Keys == {};
  }

  lemma WrittenNone(p: Packed, writers: set<nat>)
    requires Written(p, writers) && writers == {}
    ensures p == EmptyPacked()
  {
    WrittenOk(p, writers);
    var full :| Packs(p, full) && Marks(full, writers);
    CompressRank(full, WIDTH);
    assert full[..WIDTH] == full;
    RankGrows(p.cores, 0, WIDTH);
    PopCountZero(p.cores);
  }

  // ----- Runs -----

  lemma StepKeeps(s: State, step: Step)
    requires Inv(s) && Enabled(s, step)
    ensures Inv(Apply(s, step))
  {
    match step
    case MarkWriter(t) => MarkKeeps(s, t, Apply(s, step));
    case StartReading => StartReadingKeeps(s, Apply(s, step));
    case AnnounceReader(t) => AnnounceKeeps(s, t, Apply(s, step));
    case StartExecuting => StartExecutingKeeps(s, Apply(s, step));
    case Observe(t) => ObserveKeeps(s, t, Apply(s, step));
    case DropReader(t) => DropKeeps(s, t, Apply(s, step));
    case AskWriter(t) => AskKeeps(s, t, Apply(s, step));
    case Store(t) => StoreKeeps(s, t, Apply(s, step));
    case EndEpoch => EndKeeps(s, Apply(s, step));
  }

  lemma {:induction false} RunKeeps(s: State, steps: seq<Step>)
    requires Inv(s) && IsRun(s, steps)
    ensures Inv(Exec(s, steps))
    decreases |steps|
  {
    if steps != [] {
      StepKeeps(s, steps[0]);
      RunKeeps(Apply(s, steps[0]), steps[1..]);
    }
  }

  lemma Reachable(s: State, steps: seq<Step>)
    requires Init(s) && IsRun(s, steps)
    ensures Inv(Exec(s, steps))
  {
    EmptyWritten();
    OutNone(s.readers);
    assert s.writers.Keys == {};
    RunKeeps(s, steps);
  }

  // ----- The theorems -----

  // A writer that has a placeholder is given it, and makes it stable, nobody else does, while a reader that waits for
  // it is outstanding.
  lemma PlaceholderLifecycle(s: State, steps: seq<Step>, x: Slot)
    requires Init(s) && IsRun(s, steps) && x in Exec(s, steps).wb.placeholders
    ensures var t := Exec(s, steps);
            && x.id >= 0 && x.id in t.writers && t.wb.refCnt > 0
            && (x.ver in t.stable <==> t.writers[x.id].Done?)
            && (x.ver in t.stable ==> x.ver in t.maker && t.maker[x.ver] == x.id)
            && (Enabled(t, AskWriter(x.id)) ==> Apply(t, AskWriter(x.id)).writers[x.id] == Storing(x.ver))
            && (x.ver !in t.stable ==> exists u :: HasReader(t, u, x) && t.readers[u].pc.Waiting?)
            && (forall u :: u in t.writers && t.writers[u] == Storing(x.ver) ==> u == x.id)
  {
    Reachable(s, steps);
    var t := Exec(s, steps);
    assert PlaceOk(t, x);
    if Enabled(t, AskWriter(x.id)) {
      FindIdHits(t.wb.placeholders, x);
    }
    var u :| HasReader(t, u, x);
    assert ReaderOk(t, u);
    forall w | w in t.writers && t.writers[w] == Storing(x.ver) ensures w == x.id {
      assert WriterOk(t, w);
    }
  }

  lemma FindIdHits(s: seq<Slot>, x: Slot)
    requires Ascending(s) && x in s
    ensures FindId(s, x.id) < |s| && s[FindId(s, x.id)] == x
  {
    var j :| 0 <= j < |s| && s[j] == x;
    var i := FindId(s, x.id);
    assert i <= j;
  }

  // What a step frees.
  function Frees(s: State, step: Step): seq<VersionId>
    requires Enabled(s, step)
  {
    match step
    case DropReader(_) => Drop(s.wb).freed
    case AskWriter(u) => Ask(s.wb, u, s.next).freed
    case _ => []
  }

  // A step frees at most one version: the stable master, which was not freed before, with the reference count at zero
  // and another master in its place.
  lemma FreedWithoutReaders(s: State, steps: seq<Step>, step: Step)
    requires Init(s) && IsRun(s, steps) && Enabled(Exec(s, steps), step)
    ensures var t := Exec(s, steps);
            && Apply(t, step).freed == t.freed + SetOf(Frees(t, step)) && |Frees(t, step)| <= 1
            && forall v :: v in Frees(t, step) ==>
                 v == t.wb.master && v in t.stable && v !in t.freed && Apply(t, step).wb.refCnt == 0
                   && Apply(t, step).wb.master != v
  {
    Reachable(s, steps);
    var t := Exec(s, steps);
    assert Apply(t, step).freed == t.freed + SetOf(Frees(t, step));
    match step
    case DropReader(u) =>
      if Frees(t, step) != [] {
        MasterStable(t, u);
        var x := t.wb.placeholders[|t.wb.placeholders| - 1];
        assert PlaceOk(t, x);
      }
    case AskWriter(u) =>
      if Frees(t, step) != [] {
        ClearedNow(t, u);
        FirstWriter(t, u);
      }
    case _ =>
  }

  // The version of a reader that is still outstanding is not freed; a zero count means no placeholders.
  lemma ReadersAreSafe(s: State, steps: seq<Step>, u: nat)
    requires Init(s) && IsRun(s, steps)
    ensures var t := Exec(s, steps);
            && t.wb.refCnt == |Outstanding(t.readers)| && (t.wb.refCnt == 0 ==> t.wb.placeholders == [])
            && (u in Outstanding(t.readers) ==> t.readers[u].ver !in t.freed)
  {
    Reachable(s, steps);
    var t := Exec(s, steps);
    if u in Outstanding(t.readers) {
      assert ReaderOk(t, u);
      OutSome(t.readers, u);
      if t.readers[u].from >= 0 { assert PlaceOk(t, Slot(t.readers[u].from, t.readers[u].ver)); }
    }
  }

  // A reader gets the version of the last writer before it, made stable by that writer, or the master that the epoch
  // started with; readers with the same writer share one version while they are outstanding.
  lemma ReadsLastWriter(s: State, steps: seq<Step>, u: nat)
    requires Init(s) && IsRun(s, steps) && u in Exec(s, steps).readers
    ensures var t := Exec(s, steps);
            var x := t.readers[u];
            && IsVisible(t.writers.Keys, u, x.from)
            && (x.from < 0 ==> x.ver == t.start)
            && (x.from >= 0 && !x.pc.Waiting? ==> x.ver in t.maker && t.maker[x.ver] == x.from)
            && (forall w :: w in t.readers && t.readers[w].from == x.from && !x.pc.Gone? && !t.readers[w].pc.Gone? ==>
                  t.readers[w].ver == x.ver)
  {
    Reachable(s, steps);
    var t := Exec(s, steps);
    assert ReaderOk(t, u);
    forall w | w in t.readers && t.readers[w].from == t.readers[u].from && !t.readers[u].pc.Gone?
      && !t.readers[w].pc.Gone?
      ensures t.readers[w].ver == t.readers[u].ver
    {
      assert ReaderOk(t, w);
    }
  }

  // An epoch that is over leaves empty bitmaps, no placeholders and a stable master.
  lemma EpochEndsClean(s: State, steps: seq<Step>)
    requires Init(s) && IsRun(s, steps) && Enabled(Exec(s, steps), EndEpoch)
    ensures var t := Exec(s, steps);
            && t.wb == Wb(0, EmptyPacked(), t.wb.master, []) && t.wb.master in t.stable && t.wb.master !in t.freed
  {
    Reachable(s, steps);
    EndKeeps(Exec(s, steps), Apply(Exec(s, steps), EndEpoch));
  }

  // A writer can always ask.
  lemma AskFits(t: State, w: nat)
    requires Inv(t) && t.phase.Executing? && w in t.writers
    ensures LastFits(t.wb.packed)
  {
    assert WriterOk(t, w);
    if t.wb.packed != EmptyPacked() {
      FinalIs(t.wb.packed, t.writers.Keys, w);
    }
  }
}
