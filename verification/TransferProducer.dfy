/** The frame producer of `sendTransferPartFrames` (src/main/app_runtime.cpp): it walks a file
    or a folder from a resume offset and emits one offer, the chunks and one complete frame. */
module TransferProducer {
  import opened Prelude
  import opened FolderPaths
  import opened TransferSource

  /** Where a folder chunk belongs inside the receiver's target root; the path is a text. */
  datatype FolderTarget = FolderTarget(path: string, fileOffset: nat, directory: bool)

  datatype TransferFrame =
    | Offer(fileSize: nat, folderTransfer: bool, resumeRequest: bool)
    | Chunk(offset: nat, target: Option<FolderTarget>, body: seq<Byte>)
    | Complete(completeSize: nat)

  /** The variables the producer closure keeps between calls. `input` is the read position of
      the open file, if one is open. */
  datatype Cursor = Cursor(
    offset: nat, index: nat, fileOffset: nat, input: Option<nat>, offerSent: bool, completeSent: bool)

  datatype Produced = Emit(frame: TransferFrame) | Done | SourceChanged

  /** The resume position: entry `index` at `fileOffset` is the first byte still to be sent. */
  ghost predicate IsSeekPosition(entries: seq<FolderEntry>, resumeOffset: nat, index: nat, fileOffset: nat) {
    && index <= |entries|
    && Start(entries, index) + fileOffset == resumeOffset
    && (if index < |entries| then resumeOffset == 0 || fileOffset < entries[index].Size() else fileOffset == 0)
    && (resumeOffset == 0 ==> index == 0)
  }

  /** No other position satisfies the seek condition. */
  lemma {:induction false} SeekPositionUnique(entries: seq<FolderEntry>, resumeOffset: nat, i: nat, f: nat, j: nat,
        g: nat)
    requires IsSeekPosition(entries, resumeOffset, i, f)
    requires IsSeekPosition(entries, resumeOffset, j, g)
    ensures i == j && f == g
  {
    if i < j {
      StartMonotone(entries, i, j);
    } else if j < i {
      StartMonotone(entries, j, i);
    }
  }

  function Seek(entries: seq<FolderEntry>, resumeOffset: nat, index: nat): (position: (nat, nat))
    requires index <= |entries| && Start(entries, index) <= resumeOffset <= Start(entries, |entries|)
    requires resumeOffset > 0
    ensures IsSeekPosition(entries, resumeOffset, position.0, position.1)
    decreases |entries| - index
  {
    if index == |entries| then (index, 0)
    else if Start(entries, index) + entries[index].Size() > resumeOffset
    then (index, resumeOffset - Start(entries, index))
    else Seek(entries, resumeOffset, index + 1)
  }

  function StartCursor(source: Source, resumeOffset: nat): Cursor {
    var from := if resumeOffset > source.Size() then 0 else resumeOffset;
    match source
    case FlatSource(_) => Cursor(from, 0, 0, Some(from), false, false)
    case FolderSource(entries) =>
      var position := if from > 0 then Seek(entries, from, 0) else (0, 0);
      Cursor(from, position.0, position.1, None, false, false)
  }

  ghost predicate ValidCursor(source: Source, c: Cursor) {
    && c.offset <= source.Size()
    && (c.completeSent ==> c.offset == source.Size())
    && match source
       case FlatSource(content) => c.input == Some(c.offset) && c.index == c.fileOffset == 0
       case FolderSource(entries) =>
         && c.index <= |entries|
         && Start(entries, c.index) + c.fileOffset == c.offset
         && (if c.index < |entries| then c.fileOffset <= entries[c.index].Size() else c.fileOffset == 0)
         && (c.fileOffset > 0 && c.input.None? ==> c.fileOffset < entries[c.index].Size())
         && (c.input.Some? ==> c.index < |entries| && c.input.value == c.fileOffset && entries[c.index].Size() > 0)
         && (c.completeSent ==> c.index == |entries|)
  }

  /** The frame after the last chunk, `src/main/app_runtime.cpp:2455-2464`. */
  function Finish(source: Source, c: Cursor): (Cursor, Produced) {
    if c.offset != source.Size() then (c, SourceChanged)
    else if c.completeSent then (c, Done)
    else (c.(completeSent := true), Emit(Complete(source.Size())))
  }

  /** The loop body of the folder walk at the current entry: a frame, or `None` after closing a
      fully read file and moving on. */
  function AtEntry(source: Source, c: Cursor, want: nat): (Cursor, Option<Produced>)
    requires source.FolderSource? && want > 0 && c.index < |source.entries|
  {
    var entry := source.entries[c.index];
    if entry.Directory? || |entry.content| == 0 then
      (c.(index := c.index + 1),
       Some(Emit(Chunk(c.offset, Some(FolderTarget(Join(entry.path), 0, entry.Directory?)), []))))
    else
      var position := if c.input.None? then c.fileOffset else c.input.value;
      var readSize := if position < |entry.content| then Min(want, |entry.content| - position) else 0;
      if readSize > 0 then
        (c.(offset := c.offset + readSize, fileOffset := c.fileOffset + readSize,
            input := Some(position + readSize)),
         Some(Emit(Chunk(c.offset, Some(FolderTarget(Join(entry.path), c.fileOffset, false)),
                         entry.content[position..position + readSize]))))
      else if c.fileOffset != |entry.content| then (c.(input := Some(position)), Some(SourceChanged))
      else (c.(input := None, fileOffset := 0, index := c.index + 1), None)
  }

  function NextInFolder(source: Source, c: Cursor, want: nat): (Cursor, Produced)
    requires source.FolderSource? && want > 0
    decreases |source.entries| - c.index
  {
    if c.index >= |source.entries| then Finish(source, c)
    else
      var (c', produced) := AtEntry(source, c, want);
      if produced.Some? then (c', produced.value) else NextInFolder(source, c', want)
  }

  function NextInFile(source: Source, c: Cursor, want: nat): (Cursor, Produced)
    requires source.FlatSource? && want > 0
  {
    var position := if c.input.None? then 0 else c.input.value;
    var readSize := if position < |source.content| then Min(want, |source.content| - position) else 0;
    if readSize > 0 then
      (c.(offset := c.offset + readSize, input := Some(position + readSize)),
       Emit(Chunk(c.offset, None, source.content[position..position + readSize])))
    else Finish(source, c)
  }

  /** One call of the producer. `want` is how much the next read may return. */
  function Next(source: Source, c: Cursor, want: nat): (Cursor, Produced)
    requires want > 0
  {
    if !c.offerSent then
      (c.(offerSent := true), Emit(Offer(source.Size(), source.FolderSource?, false)))
    else if source.FolderSource? then NextInFolder(source, c, want)
    else NextInFile(source, c, want)
  }

  lemma {:induction false} StartCursorValid(source: Source, resumeOffset: nat)
    ensures var c := StartCursor(source, resumeOffset);
            && ValidCursor(source, c)
            && c.offset == (if resumeOffset > source.Size() then 0 else resumeOffset)
            && !c.offerSent && !c.completeSent
            && (source.FolderSource? ==> IsSeekPosition(source.entries, c.offset, c.index, c.fileOffset))
  {}

  /** A fully read file is closed before the next frame is chosen (`src/main/app_runtime.cpp:2428-2436`). */
  function Advance(source: Source, c: Cursor): Cursor
    requires source.FolderSource?
  {
    if c.index < |source.entries| && source.entries[c.index].Size() > 0 && c.fileOffset == source.entries[c.index].Size()
    then c.(input := None, fileOffset := 0, index := c.index + 1)
    else c
  }

  lemma {:induction false} AdvanceFirst(source: Source, c: Cursor, want: nat)
    requires source.FolderSource? && want > 0 && ValidCursor(source, c)
    ensures var a := Advance(source, c);
            && ValidCursor(source, a)
            && NextInFolder(source, c, want) == NextInFolder(source, a, want)
            && (a.index < |source.entries| ==> a.fileOffset < source.entries[a.index].Size() || source.entries[a.index].Size() == 0)
  {}

  /** The progress measure: every call that emits lowers it. */
  ghost predicate Lower(source: Source, c': Cursor, c: Cursor) {
    var n := if source.FolderSource? then |source.entries| else 0;
    if c.offerSent != c'.offerSent then c'.offerSent
    else if c.index != c'.index then c.index < c'.index <= n
    else if c.offset != c'.offset then c.offset < c'.offset <= source.Size()
    else !c.completeSent && c'.completeSent
  }

  /** A folder chunk names entry `i` and the file offset its bytes come from; only directories and
      empty files are sent without bytes. */
  ghost predicate EntryChunkOf(entries: seq<FolderEntry>, frame: TransferFrame, i: nat) {
    && frame.Chunk? && frame.target.Some? && i < |entries|
    && var FolderTarget(path, from, directory) := frame.target.value;
    && path == Join(entries[i].path) && directory == entries[i].Directory?
    && Start(entries, i) + from == frame.offset
    && from + |frame.body| <= entries[i].Size()
    && frame.body == entries[i].Bytes()[from..from + |frame.body|]
    && (|frame.body| == 0 <==> entries[i].Size() == 0)
  }

  /** A chunk that carries the stream bytes at its own offset. */
  ghost predicate ChunkOf(source: Source, frame: TransferFrame, i: nat) {
    match source
    case FlatSource(content) =>
      && frame.Chunk? && frame.target.None?
      && |frame.body| > 0 && frame.offset + |frame.body| <= |content|
      && frame.body == content[frame.offset..frame.offset + |frame.body|]
    case FolderSource(entries) => EntryChunkOf(entries, frame, i)
  }

  lemma {:induction false} ChunkIsStreamSlice(source: Source, frame: TransferFrame, i: nat)
    requires ChunkOf(source, frame, i)
    ensures frame.offset + |frame.body| <= |source.Bytes()| == source.Size()
    ensures frame.body == source.Bytes()[frame.offset..frame.offset + |frame.body|]
  {
    if source.FolderSource? {
      var from := frame.target.value.fileOffset;
      FlattenSlice(source.entries, i, |source.entries|, from, from + |frame.body|);
    }
  }

  /** What a call that emits does from position `c`, whose next entry is `i`: a chunk of entry `i`,
      or the complete frame once nothing is left. */
  ghost predicate Emits(source: Source, c: Cursor, i: nat, c': Cursor, frame: TransferFrame) {
    && c'.offerSent && Lower(source, c', c)
    && if frame.Chunk? then
         && !c'.completeSent
         && frame.offset == c.offset && c'.offset == c.offset + |frame.body|
         && ChunkOf(source, frame, i)
         && (source.FolderSource? ==>
               var whole := frame.target.value.fileOffset + |frame.body| == source.entries[i].Size();
               NextEntry(source, c') == if whole then i + 1 else i)
       else
         && frame == Complete(source.Size()) && c'.completeSent && c.offset == c'.offset == source.Size()
         && (source.FolderSource? ==> i == |source.entries|)
  }

  /** The entry the next chunk comes from. */
  function NextEntry(source: Source, c: Cursor): nat {
    if source.FolderSource? then Advance(source, c).index else 0
  }

  lemma {:induction false} EmptyEntryEmits(source: Source, c: Cursor, want: nat)
    requires source.FolderSource? && want > 0 && ValidCursor(source, c) && c.offerSent
    requires c.index < |source.entries| && source.entries[c.index].Size() == 0
    ensures var (c', p) := AtEntry(source, c, want);
            p.Some? && p.value.Emit? && ValidCursor(source, c') && Emits(source, c, c.index, c', p.value.frame)
  {}

  lemma {:induction false} FileEntryEmits(source: Source, c: Cursor, want: nat)
    requires source.FolderSource? && want > 0 && ValidCursor(source, c) && c.offerSent
    requires c.index < |source.entries| && c.fileOffset < source.entries[c.index].Size()
    ensures var (c', p) := AtEntry(source, c, want);
            p.Some? && p.value.Emit? && ValidCursor(source, c') && Emits(source, c, c.index, c', p.value.frame)
  {
    StartMonotone(source.entries, c.index, |source.entries|);
  }

  /** What one call does once the offer is out: the source never looks changed, nothing follows the
      complete frame, and before it every call emits. */
  lemma {:induction false} NextStep(source: Source, c: Cursor, want: nat)
    requires want > 0 && ValidCursor(source, c) && c.offerSent
    ensures var (c', p) := Next(source, c, want);
            && ValidCursor(source, c')
            && (if c.completeSent then p == Done else p.Emit? && Emits(source, c, NextEntry(source, c), c', p.frame))
  {
    if source.FolderSource? {
      AdvanceFirst(source, c, want);
      var a := Advance(source, c);
      if a.index < |source.entries| {
        if source.entries[a.index].Size() == 0 { EmptyEntryEmits(source, a, want); } else { FileEntryEmits(source, a, want); }
      }
    }
  }

  /** Every frame of one session that is never cut; `sizes(k) + 1` is what read `k` may return. */
  ghost function Frames(source: Source, c: Cursor, sizes: nat -> nat, k: nat): seq<TransferFrame>
    requires ValidCursor(source, c) && c.offerSent
    decreases (if source.FolderSource? then |source.entries| - c.index else 0), source.Size() - c.offset, !c.completeSent
  {
    NextStep(source, c, sizes(k) + 1);
    var (c', p) := Next(source, c, sizes(k) + 1);
    if p.Emit? then [p.frame] + Frames(source, c', sizes, k + 1) else []
  }

  ghost function Session(source: Source, resumeOffset: nat, sizes: nat -> nat): seq<TransferFrame> {
    StartCursorValid(source, resumeOffset);
    var (c, p) := Next(source, StartCursor(source, resumeOffset), sizes(0) + 1);
    [p.frame] + Frames(source, c, sizes, 1)
  }

  function Bodies(frames: seq<TransferFrame>): seq<Byte> {
    if frames == [] then []
    else (if frames[0].Chunk? then frames[0].body else []) + Bodies(frames[1..])
  }

  /** The frames after the offer: chunks of the source whose offsets continue each other from `from`,
      and one complete frame, sent only at the end of the source. */
  ghost predicate IsTail(source: Source, frames: seq<TransferFrame>, from: nat) {
    && frames != []
    && if |frames| == 1 then frames[0] == Complete(source.Size()) && from == source.Size()
       else
         && (exists i :: ChunkOf(source, frames[0], i))
         && frames[0].offset == from
         && IsTail(source, frames[1..], from + |frames[0].body|)
  }

  lemma {:induction false} LastCarriesNothing(source: Source, frames: seq<TransferFrame>, from: nat)
    requires IsTail(source, frames, from) && |frames| == 1
    ensures from == |source.Bytes()| && Bodies(frames) == source.Bytes()[from..]
  {
    assert Bodies(frames[1..]) == [];
  }

  lemma {:induction false} FirstCarriesSlice(source: Source, frames: seq<TransferFrame>, from: nat) returns (to: nat)
    requires IsTail(source, frames, from) && |frames| > 1
    ensures from <= to <= |source.Bytes()| && frames[0].Chunk? && frames[0].body == source.Bytes()[from..to]
    ensures IsTail(source, frames[1..], to)
  {
    var i :| ChunkOf(source, frames[0], i);
    ChunkIsStreamSlice(source, frames[0], i);
    to := from + |frames[0].body|;
  }

  lemma {:induction false} FirstBody(bytes: seq<Byte>, frames: seq<TransferFrame>, from: nat, to: nat)
    requires from <= to <= |bytes| && frames != [] && frames[0].Chunk?
    requires frames[0].body == bytes[from..to] && Bodies(frames[1..]) == bytes[to..]
    ensures Bodies(frames) == bytes[from..]
  {
    assert bytes[from..] == bytes[from..to] + bytes[to..];
  }

  /** The bodies of such frames are exactly the rest of the source. */
  lemma {:induction false} TailCarriesRest(source: Source, frames: seq<TransferFrame>, from: nat)
    requires IsTail(source, frames, from)
    ensures from <= |source.Bytes()|
    ensures Bodies(frames) == source.Bytes()[from..]
  {
    if |frames| == 1 {
      LastCarriesNothing(source, frames, from);
    } else {
      var to := FirstCarriesSlice(source, frames, from);
      TailCarriesRest(source, frames[1..], to);
      FirstBody(source.Bytes(), frames, from, to);
    }
  }

  lemma {:induction false} FirstFrame(source: Source, c: Cursor, sizes: nat -> nat, k: nat) returns (c': Cursor, frame: TransferFrame, i: nat)
    requires ValidCursor(source, c) && c.offerSent && !c.completeSent
    ensures ValidCursor(source, c') && c'.offerSent && Lower(source, c', c)
    ensures Frames(source, c, sizes, k) == [frame] + Frames(source, c', sizes, k + 1)
    ensures if frame.Chunk? then ChunkOf(source, frame, i) && frame.offset == c.offset && c'.offset == c.offset + |frame.body| && !c'.completeSent
            else frame == Complete(source.Size()) && c.offset == source.Size() && Frames(source, c', sizes, k + 1) == []
  {
    NextStep(source, c, sizes(k) + 1);
    var next := Next(source, c, sizes(k) + 1);
    c', frame, i := next.0, next.1.frame, NextEntry(source, c);
    if frame.Complete? { NextStep(source, c', sizes(k + 1) + 1); }
  }

  lemma {:induction false} FrameBeforeTail(source: Source, frame: TransferFrame, i: nat, rest: seq<TransferFrame>)
    requires if frame.Chunk? then ChunkOf(source, frame, i) && IsTail(source, rest, frame.offset + |frame.body|)
             else frame == Complete(source.Size()) && rest == []
    ensures IsTail(source, [frame] + rest, if frame.Chunk? then frame.offset else source.Size())
  {
    assert ([frame] + rest)[1..] == rest;
  }

  lemma {:induction false} FramesAreTail(source: Source, c: Cursor, sizes: nat -> nat, k: nat)
    requires ValidCursor(source, c) && c.offerSent && !c.completeSent
    ensures IsTail(source, Frames(source, c, sizes, k), c.offset)
    decreases (if source.FolderSource? then |source.entries| - c.index else 0), source.Size() - c.offset
  {
    var c', frame, i := FirstFrame(source, c, sizes, k);
    if frame.Chunk? { FramesAreTail(source, c', sizes, k + 1); }
    FrameBeforeTail(source, frame, i, Frames(source, c', sizes, k + 1));
  }

  /** One offer, then the chunks from `from` on and the complete frame. */
  ghost predicate IsSession(source: Source, frames: seq<TransferFrame>, from: nat) {
    && frames != [] && frames[0] == Offer(source.Size(), source.FolderSource?, false)
    && IsTail(source, frames[1..], from)
  }

  /** Whatever the reads return, a session that is not cut is one offer, contiguous chunks that carry exactly
      the rest of the source from the resume offset, and one complete frame; an offset past the end counts
      as 0. */
  lemma {:induction false} SessionIsStream(source: Source, resumeOffset: nat, sizes: nat -> nat)
    ensures |source.Bytes()| == source.Size()
    ensures var from := if resumeOffset > source.Size() then 0 else resumeOffset;
            && IsSession(source, Session(source, resumeOffset, sizes), from)
            && Bodies(Session(source, resumeOffset, sizes)) == source.Bytes()[from..]
  {
    StartCursorValid(source, resumeOffset);
    var (c, p) := Next(source, StartCursor(source, resumeOffset), sizes(0) + 1);
    FramesAreTail(source, c, sizes, 1);
    TailCarriesRest(source, Frames(source, c, sizes, 1), c.offset);
    assert Session(source, resumeOffset, sizes)[1..] == Frames(source, c, sizes, 1);
  }

  /** The producer closure with its captured variables. */
  class FrameProducer {
    const source: Source
    var offset: nat
    var folderEntryIndex: nat
    var folderFileOffset: nat
    var input: Option<nat>
    var offerFrameSent: bool
    var completeFrameSent: bool

    function State(): Cursor
      reads this
    {
      Cursor(offset, folderEntryIndex, folderFileOffset, input, offerFrameSent, completeFrameSent)
    }

    /** Seeks with prefix sums; an offset past the end restarts from zero. */
    constructor (source: Source, resumeOffset: nat)
      ensures this.source == source && State() == StartCursor(source, resumeOffset)
    {
      this.source := source;
      offset := if resumeOffset > source.Size() then 0 else resumeOffset;
      folderEntryIndex, folderFileOffset := 0, 0;
      offerFrameSent, completeFrameSent := false, false;
      new;
      input := if source.FlatSource? then Some(offset) else None;
      if source.FolderSource? && offset > 0 {
        var entries, from := source.entries, offset;
        var folderEntryStartOffset := 0;
        while folderEntryIndex < |entries|
          invariant folderEntryIndex <= |entries| && State() == Cursor(from, folderEntryIndex, 0, None, false, false)
          invariant folderEntryStartOffset == Start(entries, folderEntryIndex) <= from
          invariant Seek(entries, from, 0) == Seek(entries, from, folderEntryIndex)
        {
          if folderEntryStartOffset + entries[folderEntryIndex].Size() > offset {
            folderFileOffset := offset - folderEntryStartOffset;
            break;
          }
          folderEntryStartOffset := folderEntryStartOffset + entries[folderEntryIndex].Size();
          folderEntryIndex := folderEntryIndex + 1;
        }
      }
    }

    method NextAtEntry(want: nat) returns (produced: Option<Produced>)
      requires want > 0 && source.FolderSource? && folderEntryIndex < |source.entries|
      modifies this
      ensures (State(), produced) == AtEntry(source, old(State()), want)
    {
      var entry := source.entries[folderEntryIndex];
      if entry.Directory? || |entry.content| == 0 {
        folderEntryIndex := folderEntryIndex + 1;
        return Some(Emit(Chunk(offset, Some(FolderTarget(Join(entry.path), 0, entry.Directory?)), [])));
      }
      var position := if input.None? then folderFileOffset else input.value;
      var readSize := if position < |entry.content| then Min(want, |entry.content| - position) else 0;
      input := Some(position + readSize);
      if readSize > 0 {
        produced := Some(Emit(Chunk(offset, Some(FolderTarget(Join(entry.path), folderFileOffset, false)),
                                    entry.content[position..position + readSize])));
        offset, folderFileOffset := offset + readSize, folderFileOffset + readSize;
        return;
      }
      if folderFileOffset != |entry.content| {
        return Some(SourceChanged);
      }
      input, folderFileOffset, folderEntryIndex := None, 0, folderEntryIndex + 1;
      return None;
    }

    /** The folder loop: skips finished files until there is a chunk to send or no entry is left. */
    method NextFolderChunk(want: nat) returns (produced: Option<Produced>)
      requires want > 0 && source.FolderSource?
      modifies this
      ensures produced.Some? ==> (State(), produced.value) == NextInFolder(source, old(State()), want)
      ensures produced.None? ==> NextInFolder(source, old(State()), want) == Finish(source, State())
    {
      produced := None;
      while folderEntryIndex < |source.entries| && produced.None?
        invariant NextInFolder(source, old(State()), want) ==
                  if produced.Some? then (State(), produced.value) else NextInFolder(source, State(), want)
        decreases produced.None?, |source.entries| - folderEntryIndex
      {
        produced := NextAtEntry(want);
      }
    }

    method NextFileChunk(want: nat) returns (produced: Option<Produced>)
      requires want > 0 && source.FlatSource?
      modifies this
      ensures produced.Some? ==> (State(), produced.value) == NextInFile(source, old(State()), want)
      ensures produced.None? ==> NextInFile(source, old(State()), want) == Finish(source, State())
    {
      var position := if input.None? then 0 else input.value;
      var readSize := if position < |source.content| then Min(want, |source.content| - position) else 0;
      if readSize > 0 {
        produced := Some(Emit(Chunk(offset, None, source.content[position..position + readSize])));
        offset, input := offset + readSize, Some(position + readSize);
        return;
      }
      return None;
    }

    method NextFrame(want: nat) returns (produced: Produced)
      requires want > 0
      modifies this
      ensures (State(), produced) == Next(source, old(State()), want)
    {
      if !offerFrameSent {
        offerFrameSent := true;
        return Emit(Offer(source.Size(), source.FolderSource?, false));
      }
      var chunk: Option<Produced>;
      if source.FolderSource? {
        chunk := NextFolderChunk(want);
      } else {
        chunk := NextFileChunk(want);
      }
      if chunk.Some? {
        return chunk.value;
      }
      if offset != source.Size() {
        return SourceChanged;
      }
      if completeFrameSent {
        return Done;
      }
      completeFrameSent := true;
      return Emit(Complete(source.Size()));
    }
  }
}
