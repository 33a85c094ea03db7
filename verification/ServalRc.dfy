/** One row of Serval_RC over any number of epochs (`serval_rc/include/serval_rc.hpp`,
    `executables/ycsb_serval_rc.cpp`): the writers mark themselves, the readers announce themselves and take
    placeholders, then readers and writers run in any interleaving, a reader waiting for its placeholder to become
    stable. */
module ServalRc {
  import opened SortedSlots
  import opened Bitmap
  import opened ServalRcBitmap
  import opened ServalRcOps

  datatype Phase = Writing | Reading | Executing

  datatype WriterPc = Marked | Storing(ver: VersionId) | Done

  // `ver`: the version that the reader was given, `from`: the writer it belongs to, or -1 (a history variable).
  datatype Reader = Reader(pc: ReaderPc, ver: VersionId, from: int)

  datatype ReaderPc = Waiting | Got | Gone

  // `start`: the master at the start of the epoch, `maker`: who made a version stable in this epoch (history
  // variables).
  datatype State = State(phase: Phase, wb: Wb, writers: map<nat, WriterPc>, readers: map<nat, Reader>,
                         stable: set<VersionId>,
                         freed: set<VersionId>, next: VersionId, start: VersionId, maker: map<VersionId, nat>)

  datatype Step =
    | MarkWriter(t: nat)      // update_bitmap
    | StartReading
    | AnnounceReader(t: nat)  // append_pending_version
    | StartExecuting
    | Observe(t: nat)         // read: the version is stable
    | DropReader(t: nat)      // read: decrement_ref_cnt
    | AskWriter(t: nat)       // upsert: identify_write_version
    | Store(t: nat)           // upsert: the record and the status
    | EndEpoch

  predicate MarkFits(p: Packed, t: nat)
    requires t < TXS
  {
    var c := t / WIDTH;
    CountPrefix(p.cores, c) <= |p.words| && (IsSet(p.cores, c) ==> CountPrefix(p.cores, c) < |p.words|)
  }

  predicate LastFits(p: Packed) {
    p.cores != Zero() ==> p.words != [] && p.words[|p.words| - 1] != Zero()
  }

  predicate Enabled(s: State, step: Step) {
    match step
    case MarkWriter(t) => s.phase.Writing? && t < TXS && t !in s.writers && MarkFits(s.wb.packed, t)
    case StartReading => s.phase.Writing?
    case AnnounceReader(t) =>
      s.phase.Reading? && t < TXS && t !in s.readers && PackedOk(s.wb.packed) && Ascending(s.wb.placeholders)
    case StartExecuting => s.phase.Reading?
    case Observe(t) => s.phase.Executing? && t in s.readers && s.readers[t].pc.Waiting? && s.readers[t].ver in s.stable
    case DropReader(t) => s.phase.Executing? && t in s.readers && s.readers[t].pc.Got? && s.wb.refCnt > 0
    case AskWriter(t) => s.phase.Executing? && t in s.writers && s.writers[t].Marked? && LastFits(s.wb.packed)
    case Store(t) => s.phase.Executing? && t in s.writers && s.writers[t].Storing?
    case EndEpoch =>
      && s.phase.Executing? && (forall t :: t in s.writers ==> s.writers[t].Done?)
      && (forall t :: t in s.readers ==> s.readers[t].pc.Gone?)
  }

  function SetOf(vers: seq<VersionId>): set<VersionId> {
    set v | v in vers
  }

  function Apply(s: State, step: Step): State
    requires Enabled(s, step)
  {
    match step
    case MarkWriter(t) =>
      s.(wb := s.wb.(packed := Updated(s.wb.packed, t / WIDTH, t % WIDTH)), writers := s.writers[t := Marked])
    case StartReading => s.(phase := Reading)
    case AnnounceReader(t) =>
      var a := Announce(s.wb, t, s.next);
      s.(wb := a.wb, readers := s.readers[t := Reader(Waiting, a.ver, VisibleId(s.wb.packed, t))],
         next := if a.isNew then s.next + 1 else s.next)
    case StartExecuting => s.(phase := Executing)
    case Observe(t) => s.(readers := s.readers[t := s.readers[t].(pc := Got)])
    case DropReader(t) =>
      var d := Drop(s.wb);
      s.(wb := d.wb, readers := s.readers[t := s.readers[t].(pc := Gone)], freed := s.freed + SetOf(d.freed))
    case AskWriter(t) =>
      var a := Ask(s.wb, t, s.next);
      s.(wb := a.wb, writers := s.writers[t := if a.target.Write? then Storing(a.target.ver) else Done],
         freed := s.freed + SetOf(a.freed), next := s.next + 1)
    case Store(t) =>
      var v := s.writers[t].ver;
      s.(stable := s.stable + {v}, maker := s.maker[v := t], writers := s.writers[t := Done])
    case EndEpoch => s.(phase := Writing, writers := map[], readers := map[], start := s.wb.master, maker := map[])
  }

  // The loaded row: no writers, no readers, one stable version as the master.
  predicate Init(s: State) {
    && s.phase.Writing? && s.wb == Wb(0, EmptyPacked(), 0, []) && s.writers == map[] && s.readers == map[]
    && s.stable == {0} && s.freed == {} && s.next == 1 && s.start == 0 && s.maker == map[]
  }

  predicate IsRun(s: State, steps: seq<Step>)
    decreases |steps|
  {
    steps == [] || (Enabled(s, steps[0]) && IsRun(Apply(s, steps[0]), steps[1..]))
  }

  function Exec(s: State, steps: seq<Step>): State
    requires IsRun(s, steps)
    decreases |steps|
  {
    if steps == [] then s else Exec(Apply(s, steps[0]), steps[1..])
  }

  // ----- What holds throughout -----

  ghost function Outstanding(readers: map<nat, Reader>): set<nat> {
    set t | t in readers && !readers[t].pc.Gone?
  }

  // A reader has the version of the last writer before it: the placeholder while it needs it, made stable by that
  // writer when it has read it; or the master of the epoch's start.
  ghost predicate ReaderOk(s: State, t: nat)
    requires t in s.readers
  {
    var x := s.readers[t];
    && t < TXS && IsVisible(s.writers.Keys, t, x.from)
    && (x.from < 0 ==> x.ver == s.start)
    && (x.from >= 0 && !x.pc.Gone? ==> Slot(x.from, x.ver) in s.wb.placeholders)
    && (x.from >= 0 && !x.pc.Waiting? ==> x.ver in s.maker && s.maker[x.ver] == x.from)
  }

  ghost predicate WriterOk(s: State, t: nat)
    requires t in s.writers
  {
    var x := s.writers[t];
    && t < TXS
    && (x.Storing? ==>
          && x.ver !in s.stable && x.ver < s.next
          && (Slot(t, x.ver) in s.wb.placeholders || (s.readers == map[] && x.ver == s.wb.master))
          && forall u :: u in s.writers && s.writers[u] == x ==> u == t)
  }

  // A placeholder belongs to a writer, has a reader, and is stable exactly when its writer is done.
  ghost predicate PlaceOk(s: State, x: Slot) {
    && x.id >= 0 && x.id in s.writers && x.ver < s.next && x.ver != s.wb.master && x.ver !in s.freed
    && (x.ver in s.stable <==> s.writers[x.id].Done?)
    && (x.ver in s.stable ==> x.ver in s.maker && s.maker[x.ver] == x.id)
    && (s.writers[x.id].Storing? ==> s.writers[x.id].ver == x.ver)
    && (exists t :: HasReader(s, t, x))
    && (forall y :: y in s.wb.placeholders && y.ver == x.ver ==> y == x)
  }

  ghost predicate HasReader(s: State, t: nat, x: Slot) {
    t in s.readers && s.readers[t].from == x.id && s.readers[t].ver == x.ver
  }

  // The bitmaps hold the writers until they are cleared; they are when the last reader has gone, or without readers
  // when the first writer comes.
  ghost predicate BitsOk(s: State) {
    if s.phase.Executing? then
      && (s.wb.packed == EmptyPacked() || Written(s.wb.packed, s.writers.Keys))
      && (s.wb.refCnt == 0 && (s.readers != map[] || exists t :: t in s.writers && !s.writers[t].Marked?) ==>
            s.wb.packed == EmptyPacked())
    else Written(s.wb.packed, s.writers.Keys)
  }

  ghost predicate MasterOk(s: State) {
    && s.wb.master < s.next && s.wb.master !in s.freed && (s.wb.refCnt > 0 ==> s.wb.master == s.start)
    && (s.wb.master in s.stable
        || (s.readers == map[] && s.wb.packed == EmptyPacked()
              && exists t :: t in s.writers && s.writers[t] == Storing(s.wb.master)))
  }

  ghost predicate PhaseOk(s: State) {
    && (s.phase.Writing? ==> s.readers == map[])
    && (!s.phase.Executing? ==>
          && s.maker == map[] && s.start == s.wb.master && s.wb.master in s.stable
          && (forall t :: t in s.writers ==> s.writers[t].Marked?)
          && (forall t :: t in s.readers ==> s.readers[t].pc.Waiting?))
  }

  ghost predicate Inv(s: State) {
    && Ascending(s.wb.placeholders) && s.wb.refCnt == |Outstanding(s.readers)|
    && (s.wb.refCnt == 0 ==> s.wb.placeholders == [])
    && BitsOk(s) && MasterOk(s) && PhaseOk(s)
    && (forall v :: v in s.maker ==> v in s.stable) && (forall v :: v in s.stable || v in s.freed ==> v < s.next)
    && (forall t {:trigger ReaderOk(s, t)} :: t in s.readers ==> ReaderOk(s, t))
    && (forall t {:trigger WriterOk(s, t)} :: t in s.writers ==> WriterOk(s, t))
    && (forall x {:trigger PlaceOk(s, x)} :: x in s.wb.placeholders ==> PlaceOk(s, x))
  }
}
