/** The operations of Serval_RC's write bitmap on values: marking a writer, announcing a reader, dropping a reader and
    asking for a version to write (`serval_rc/include/rw_bitmaps.hpp`). */
module ServalRcOps {
  import opened SortedSlots
  import opened Bitmap
  import opened BitmapSearch
  import opened ServalRcBitmap

  const TXS: nat := WIDTH * WIDTH

  datatype Wb = Wb(refCnt: nat, packed: Packed, master: VersionId, placeholders: seq<Slot>)

  // Every set core has its word.
  predicate PackedOk(p: Packed) {
    forall c :: 0 <= c < WIDTH && p.cores[c] ==>
      CountPrefix(p.cores, c) < |p.words| && p.words[CountPrefix(p.cores, c)] != Zero()
  }

  function EmptyPacked(): Packed {
    Packed(Zero(), [])
  }

  // The serial id of the last writer before t, or -1.
  function VisibleId(p: Packed, t: nat): int
    requires PackedOk(p) && t < TXS
  {
    if p.cores == Zero() then -1 else IdOf(IdentifyPacked(p, t / WIDTH, t % WIDTH))
  }

  function IdOf(r: Found): int {
    match r
    case Nothing => -1
    case At(c, x) => c * WIDTH + x
  }

  method VisibleSerial(p: Packed, t: nat) returns (id: int)
    requires PackedOk(p) && t < TXS
    ensures id == VisibleId(p, t)
  {
    if p.cores == Zero() {
      return -1;
    }
    id := IdOf(IdentifyPacked(p, t / WIDTH, t % WIDTH));
  }

  // std::find_if by id: the position, or the length.
  function FindId(s: seq<Slot>, id: int): (i: nat)
    ensures i <= |s| && (i < |s| ==> s[i].id == id) && forall j :: 0 <= j < i ==> s[j].id != id
  {
    if s == [] then 0 else if s[0].id == id then 0 else 1 + FindId(s[1..], id)
  }

  datatype Announced = Announced(wb: Wb, ver: VersionId, isNew: bool)

  // append_pending_version for reader t; `next` is the version that it allocates if it needs one.
  function Announce(wb: Wb, t: nat, next: VersionId): Announced
    requires PackedOk(wb.packed) && t < TXS && Ascending(wb.placeholders)
  {
    AnnounceFor(wb, VisibleId(wb.packed, t), next)
  }

  function AnnounceFor(wb: Wb, v: int, next: VersionId): Announced
    requires Ascending(wb.placeholders)
  {
    var wb' := wb.(refCnt := wb.refCnt + 1);
    if v < 0 then Announced(wb', wb.master, false)
    else
      var i := FindId(wb.placeholders, v);
      if i < |wb.placeholders| then Announced(wb', wb.placeholders[i].ver, false)
      else Announced(wb'.(placeholders := Inserted(wb.placeholders, Slot(v, next))), next, true)
  }

  datatype Dropped = Dropped(wb: Wb, freed: seq<VersionId>)

  // decrement_ref_cnt
  function Drop(wb: Wb): Dropped
    requires wb.refCnt > 0
  {
    if wb.refCnt > 1 then Dropped(wb.(refCnt := wb.refCnt - 1), [])
    else if wb.placeholders == [] then Dropped(Wb(0, EmptyPacked(), wb.master, []), [])
    else Dropped(Wb(0, EmptyPacked(), wb.placeholders[|wb.placeholders| - 1].ver, []), [wb.master])
  }

  datatype Target = NoTarget | Write(ver: VersionId)

  datatype Asked = Asked(wb: Wb, target: Target, freed: seq<VersionId>)

  // is_final_state, without the clear
  predicate IsFinal(p: Packed, t: nat)
    requires p.cores != Zero() ==> p.words != [] && p.words[|p.words| - 1] != Zero()
  {
    p.cores != Zero() && FindLargest(p.cores) == t / WIDTH && FindLargest(p.words[|p.words| - 1]) == t % WIDTH
  }

  // identify_write_version for writer t
  function Ask(wb: Wb, t: nat, next: VersionId): Asked
    requires wb.packed.cores != Zero() ==> wb.packed.words != [] && wb.packed.words[|wb.packed.words| - 1] != Zero()
  {
    if wb.refCnt > 0 then
      var i := FindId(wb.placeholders, t);
      Asked(wb, if i < |wb.placeholders| then Write(wb.placeholders[i].ver) else NoTarget, [])
    else
      var cleared := wb.(packed := if wb.packed.cores != Zero() then EmptyPacked() else wb.packed);
      if IsFinal(wb.packed, t) then Asked(cleared.(master := next), Write(next), [wb.master])
      else Asked(cleared, NoTarget, [])
  }

  // ----- What the bitmaps say about the writers -----

  predicate IsMarked(full: seq<Word>, t: nat)
    requires |full| == WIDTH && t < TXS
  {
    full[t / WIDTH][t % WIDTH]
  }

  // `full` holds exactly the writers.
  ghost predicate Marks(full: seq<Word>, writers: set<nat>) {
    && |full| == WIDTH && (forall t :: t in writers ==> t < TXS)
    && (forall t {:trigger IsMarked(full, t)} :: 0 <= t < TXS ==> (IsMarked(full, t) <==> t in writers))
  }

  ghost predicate Written(p: Packed, writers: set<nat>) {
    exists full :: Packs(p, full) && Marks(full, writers)
  }

  lemma EmptyWritten()
    ensures Written(EmptyPacked(), {})
  {
    var full := seq(WIDTH, _ => Zero());
    NoWords(WIDTH);
    assert CoresOf(full) == Zero();
    assert Packs(EmptyPacked(), full) && Marks(full, {});
  }

  lemma {:induction false} NoWords(n: nat)
    ensures Compress(seq(n, _ => Zero())) == []
  {
    if n > 0 {
      NoWords(n - 1);
      assert seq(n, _ => Zero())[..n - 1] == seq(n - 1, _ => Zero());
    }
  }

  lemma MarkedAt(full: seq<Word>, c: nat, x: nat)
    requires |full| == WIDTH && c < WIDTH && x < WIDTH
    ensures c * WIDTH + x < TXS && IsMarked(full, c * WIDTH + x) == full[c][x]
  {
    assert (c * WIDTH + x) / WIDTH == c && (c * WIDTH + x) % WIDTH == x;
  }

  lemma MarkedAfter(full: seq<Word>, t: nat, u: nat)
    requires |full| == WIDTH && t < TXS && u < TXS
    ensures IsMarked(Mark(full, t / WIDTH, t % WIDTH), u) <==> IsMarked(full, u) || u == t
  {
  }

  // Marking adds the writer.
  lemma MarkAdds(p: Packed, writers: set<nat>, t: nat)
    requires Written(p, writers) && t < TXS
    ensures var c := t / WIDTH;
            CountPrefix(p.cores, c) <= |p.words| && (IsSet(p.cores, c) ==> CountPrefix(p.cores, c) < |p.words|)
    ensures Written(Updated(p, t / WIDTH, t % WIDTH), writers + {t})
  {
    var full :| Packs(p, full) && Marks(full, writers);
    UpdatedPacks(p, full, t / WIDTH, t % WIDTH);
    var full' := Mark(full, t / WIDTH, t % WIDTH);
    forall u | 0 <= u < TXS ensures IsMarked(full', u) <==> u in writers + {t} {
      MarkedAfter(full, t, u);
    }
    assert Packs(Updated(p, t / WIDTH, t % WIDTH), full') && Marks(full', writers + {t});
  }

  // v is the last of the writers before t, or -1.
  ghost predicate IsVisible(writers: set<nat>, t: nat, v: int) {
    && (v == -1 || (v in writers && v < t))
    && forall u :: u in writers && u < t ==> u <= v
  }

  // A writer has its core's bit and its own.
  lemma WriterBits(p: Packed, full: seq<Word>, writers: set<nat>, t: nat)
    requires Packs(p, full) && Marks(full, writers) && t in writers
    ensures p.cores[t / WIDTH] && full[t / WIDTH][t % WIDTH] && t == (t / WIDTH) * WIDTH + t % WIDTH
  {
    assert IsMarked(full, t);
    NonZero(full[t / WIDTH]);
  }

  lemma BitWriter(p: Packed, full: seq<Word>, writers: set<nat>, c: nat) returns (t: nat)
    requires Packs(p, full) && Marks(full, writers) && c < WIDTH && p.cores[c]
    ensures t in writers
  {
    NonZero(full[c]);
    var x :| 0 <= x < WIDTH && full[c][x];
    MarkedAt(full, c, x);
    t := c * WIDTH + x;
  }

  lemma WrittenOk(p: Packed, writers: set<nat>)
    requires Written(p, writers)
    ensures PackedOk(p) && (p.cores == Zero() <==> writers == {})
  {
    var full :| Packs(p, full) && Marks(full, writers);
    PackedWords(p, full);
    NonZero(p.cores);
    if p.cores != Zero() {
      var c :| 0 <= c < WIDTH && p.cores[c];
      var t := BitWriter(p, full, writers, c);
    } else {
      forall t ensures t !in writers {
        if t in writers { WriterBits(p, full, writers, t); }
      }
    }
  }

  // The read-phase lookup returns the greatest writer below the reader.
  lemma VisibleIdIs(p: Packed, writers: set<nat>, t: nat)
    requires Written(p, writers) && t < TXS
    ensures PackedOk(p) && IsVisible(writers, t, VisibleId(p, t))
  {
    WrittenOk(p, writers);
    if p.cores != Zero() {
      var full :| Packs(p, full) && Marks(full, writers);
      VisibleIsWriter(p, full, writers, t);
      forall u | u in writers && u < t ensures u <= VisibleId(p, t) {
        NotBetween(p, full, writers, t, u);
      }
    }
  }

  lemma FoundIsWriter(full: seq<Word>, writers: set<nat>, t: nat, r: Found)
    requires Marks(full, writers) && t < TXS
    requires r.At? ==> r.core < WIDTH && r.tx < WIDTH && full[r.core][r.tx]
    requires r.At? ==> Before(r.core, r.tx, t / WIDTH, t % WIDTH)
    ensures IdOf(r) == -1 || (IdOf(r) in writers && IdOf(r) < t)
  {
    if r.At? {
      MarkedAt(full, r.core, r.tx);
    }
  }

  lemma VisibleIsWriter(p: Packed, full: seq<Word>, writers: set<nat>, t: nat)
    requires Packs(p, full) && Marks(full, writers) && p.cores != Zero() && t < TXS && PackedOk(p)
    ensures VisibleId(p, t) == -1 || (VisibleId(p, t) in writers && VisibleId(p, t) < t)
  {
    var r := FoundBits(p, full, t / WIDTH, t % WIDTH);
    FoundIsWriter(full, writers, t, r);
  }

  lemma FoundBits(p: Packed, full: seq<Word>, core: nat, tx: nat) returns (r: Found)
    requires Packs(p, full) && p.cores != Zero() && core < WIDTH && tx < WIDTH && PackedOk(p)
    ensures r == IdentifyPacked(p, core, tx)
    ensures r.At? ==> Marked(p.cores, full, r.core, r.tx) && Before(r.core, r.tx, core, tx)
  {
    IdentifyPackedIs(p, full, core, tx);
    IdentifyIsBefore(p.cores, full, core, tx);
    r := IdentifyPacked(p, core, tx);
  }

  lemma NotBetween(p: Packed, full: seq<Word>, writers: set<nat>, t: nat, u: nat)
    requires Packs(p, full) && Marks(full, writers) && p.cores != Zero() && t < TXS && u in writers && u < t
    requires PackedOk(p)
    ensures u <= VisibleId(p, t)
  {
    var core, tx, c, x := t / WIDTH, t % WIDTH, u / WIDTH, u % WIDTH;
    WriterBits(p, full, writers, u);
    IdentifyPackedIs(p, full, core, tx);
    IdentifyIsLast(p.cores, full, core, tx, c, x);
  }

  // is_final_state holds of the greatest writer alone.
  lemma FinalIs(p: Packed, writers: set<nat>, t: nat)
    requires Written(p, writers) && t < TXS
    ensures p.cores != Zero() ==> p.words != [] && p.words[|p.words| - 1] != Zero()
    ensures IsFinal(p, t) <==> t in writers && forall u :: u in writers ==> u <= t
  {
    WrittenOk(p, writers);
    if p.cores != Zero() {
      var full :| Packs(p, full) && Marks(full, writers);
      var last := LastWriter(p, full, writers);
      FinalFrom(p, writers, t, last);
    }
  }

  lemma FinalFrom(p: Packed, writers: set<nat>, t: nat, last: nat)
    requires p.cores != Zero() && p.words != [] && p.words[|p.words| - 1] != Zero()
    requires last in writers && forall u :: u in writers ==> u <= last
    requires last / WIDTH == FindLargest(p.cores) && last % WIDTH == FindLargest(p.words[|p.words| - 1])
    ensures IsFinal(p, t) <==> t in writers && forall u :: u in writers ==> u <= t
  {
  }

  lemma LastWriter(p: Packed, full: seq<Word>, writers: set<nat>) returns (last: nat)
    requires Packs(p, full) && Marks(full, writers) && p.cores != Zero()
    ensures last in writers && forall u :: u in writers ==> u <= last
    ensures p.words != [] && p.words[|p.words| - 1] != Zero()
    ensures last / WIDTH == FindLargest(p.cores) && last % WIDTH == FindLargest(p.words[|p.words| - 1])
  {
    var c := FindLargest(p.cores);
    LastWord(p, full, c);
    var x := FindLargest(full[c]);
    last := c * WIDTH + x;
    MarkedAt(full, c, x);
    forall u | u in writers ensures u <= last {
      WriterBits(p, full, writers, u);
      assert u / WIDTH <= c;
    }
    assert last / WIDTH == c && last % WIDTH == x;
  }

  lemma LastWord(p: Packed, full: seq<Word>, c: nat)
    requires Packs(p, full) && c < WIDTH && p.cores[c] && forall d :: c < d < WIDTH ==> !p.cores[d]
    ensures p.words != [] && p.words[|p.words| - 1] == full[c] && full[c] != Zero()
  {
    PackedAt(full, c);
    CompressRank(full, WIDTH);
    assert full[..WIDTH] == full;
    RankGrows(p.cores, c + 1, WIDTH);
    MaskedCount(p.cores, c);
  }
}
