/** The loops that write frames to a connection and read them back
    (`sendFramesTo` and `receiveFrames` of src/net/boost_asio_tcp_peer_transport.cpp). */
module FrameStream {
  import opened Prelude
  import opened PeerFrameCodec

  /** Reads the text header of a transfer offer: `None` if it does not parse, else whether the offer
      only asks to resume. */
  type OfferReader = seq<Byte> -> Option<bool>

  /** How the connection ended after the bytes that arrived. */
  datatype StreamEnd = EndOfStream | NetworkFailure

  /** What is reported when the loop stops. */
  datatype Report = Nothing | ClosedBeforeCompletion | OtherError

  predicate IsMalformedOffer(readOffer: OfferReader, frame: PeerFrame) {
    frame.frameType.TransferOffer? && readOffer(frame.header).None?
  }

  /** `transferStreamOpen` after one more frame. */
  function OpenAfterFrame(readOffer: OfferReader, open: bool, frame: PeerFrame): bool
    requires !IsMalformedOffer(readOffer, frame)
  {
    match frame.frameType
    case TransferOffer => open || !readOffer(frame.header).value
    case TransferChunk => true
    case TransferComplete => false
    case TransferCancel => false
    case _ => open
  }

  function Failing(open: bool): Report {
    if open then ClosedBeforeCompletion else OtherError
  }

  datatype Reading = Reading(delivered: seq<PeerFrame>, report: Report)

  // ---- The reader ----

  /** The frame at the front of the bytes, if they hold all of it. */
  function FrameAtFront(bytes: seq<Byte>): (frame: Option<PeerFrame>)
    ensures frame.Some? ==> |bytes| >= FRAME_HEADER_SIZE && FrameSize(frame.value) <= |bytes|
  {
    var header := DecodeHeader(bytes);
    if header.Err? || |bytes| < FRAME_HEADER_SIZE + PayloadSize(header.value) then None
    else Some(FrameFrom(header.value, bytes[FRAME_HEADER_SIZE..FRAME_HEADER_SIZE + PayloadSize(header.value)]))
  }

  /** The frame the reader delivers next, if any. */
  function FirstFrame(readOffer: OfferReader, bytes: seq<Byte>): (frame: Option<PeerFrame>)
    ensures frame.Some? ==> FrameSize(frame.value) <= |bytes| && !IsMalformedOffer(readOffer, frame.value)
  {
    var frame := FrameAtFront(bytes);
    if frame.None? || IsMalformedOffer(readOffer, frame.value) then None else frame
  }

  function Receive(readOffer: OfferReader, bytes: seq<Byte>, end: StreamEnd, open: bool): Reading
    decreases |bytes|
  {
    var frame := FirstFrame(readOffer, bytes);
    if frame.None? then
      Reading([], if |bytes| < FRAME_HEADER_SIZE && end.EndOfStream? && !open then Nothing else Failing(open))
    else
      var rest := Receive(readOffer, bytes[FrameSize(frame.value)..], end, OpenAfterFrame(readOffer, open, frame.value));
      Reading([frame.value] + rest.delivered, rest.report)
  }

  class FrameReceiver {
    const readOffer: OfferReader
    var delivered: seq<PeerFrame>
    var report: Report

    constructor (readOffer: OfferReader)
      ensures this.readOffer == readOffer && delivered == [] && report == Nothing
    {
      this.readOffer := readOffer;
      delivered, report := [], Nothing;
    }

    /** The switch that follows the transfer on the connection; `None` if the offer does not parse. */
    method TrackTransferStream(frame: PeerFrame, open: bool) returns (open': Option<bool>)
      ensures open' == if IsMalformedOffer(readOffer, frame) then None else Some(OpenAfterFrame(readOffer, open, frame))
    {
      match frame.frameType {
        case TransferOffer =>
          var resumeRequest := readOffer(frame.header);
          if resumeRequest.None? { return None; }
          return Some(if resumeRequest.value then open else true);
        case TransferChunk => return Some(true);
        case TransferComplete => return Some(false);
        case TransferCancel => return Some(false);
        case _ => return Some(open);
      }
    }

    /** Reads the header first and then as many bytes as it announces; `None` if decoding or reading fails. */
    method ReadFrame(socket: seq<Byte>) returns (frame: Option<PeerFrame>)
      requires |socket| >= FRAME_HEADER_SIZE
      ensures frame == FrameAtFront(socket)
    {
      var header := DecodeHeader(socket[..FRAME_HEADER_SIZE]);
      HeaderAlone(socket);
      if header.Err? { return None; }
      var size := PayloadSize(header.value);
      if |socket| < FRAME_HEADER_SIZE + size { return None; }
      return Some(FrameFrom(header.value, socket[FRAME_HEADER_SIZE..FRAME_HEADER_SIZE + size]));
    }

    /** Reads header, payload, header, payload, ... off the arriving bytes. */
    method ReceiveFrames(bytes: seq<Byte>, end: StreamEnd)
      modifies this
      ensures delivered == old(delivered) + Receive(readOffer, bytes, end, false).delivered
      ensures report == Receive(readOffer, bytes, end, false).report
    {
      ghost var whole := Receive(readOffer, bytes, end, false);
      var socket := bytes;
      var transferStreamOpen := false;
      while true
        invariant Continues(old(delivered), whole, delivered, Receive(readOffer, socket, end, transferStreamOpen))
        decreases |socket|
      {
        if |socket| < FRAME_HEADER_SIZE {
          ReceiveStops(readOffer, socket, end, transferStreamOpen);
          report := if end.NetworkFailure? then Failing(transferStreamOpen)
                    else if transferStreamOpen then ClosedBeforeCompletion else Nothing;
          return;
        }
        var read := ReadFrame(socket);
        if read.None? {
          ReceiveStops(readOffer, socket, end, transferStreamOpen);
          report := Failing(transferStreamOpen);
          return;
        }
        var frame := read.value;
        var open := TrackTransferStream(frame, transferStreamOpen);
        if open.None? {
          ReceiveStops(readOffer, socket, end, transferStreamOpen);
          report := Failing(transferStreamOpen);
          return;
        }
        ReceiveGoesOn(readOffer, socket, frame, end, transferStreamOpen);
        ghost var rest := Receive(readOffer, socket[FrameSize(frame)..], end, open.value);
        OneMore(old(delivered), whole, delivered, frame, rest);
        transferStreamOpen := open.value;
        delivered := delivered + [frame];
        socket := socket[FrameSize(frame)..];
      }
    }
  }

  /** What the whole stream yields is what was delivered so far and what the rest yields. */
  ghost predicate Continues(before: seq<PeerFrame>, whole: Reading, delivered: seq<PeerFrame>, rest: Reading) {
    before + whole.delivered == delivered + rest.delivered && whole.report == rest.report
  }

  lemma {:induction false} OneMore(
      before: seq<PeerFrame>, whole: Reading, delivered: seq<PeerFrame>, frame: PeerFrame, rest: Reading)
    requires Continues(before, whole, delivered, Reading([frame] + rest.delivered, rest.report))
    ensures Continues(before, whole, delivered + [frame], rest)
  {
    assert delivered + ([frame] + rest.delivered) == (delivered + [frame]) + rest.delivered;
  }

  lemma {:induction false} ReceiveStops(readOffer: OfferReader, bytes: seq<Byte>, end: StreamEnd, open: bool)
    requires FirstFrame(readOffer, bytes).None?
    ensures Receive(readOffer, bytes, end, open)
         == Reading([], if |bytes| < FRAME_HEADER_SIZE && end.EndOfStream? && !open then Nothing else Failing(open))
  {
  }

  lemma {:induction false} ReceiveGoesOn(readOffer: OfferReader, bytes: seq<Byte>, frame: PeerFrame, end: StreamEnd,
        open: bool)
    requires FirstFrame(readOffer, bytes) == Some(frame)
    ensures FrameSize(frame) <= |bytes|
    ensures var rest := Receive(readOffer, bytes[FrameSize(frame)..], end, OpenAfterFrame(readOffer, open, frame));
      Receive(readOffer, bytes, end, open) == Reading([frame] + rest.delivered, rest.report)
  {
  }

  /** Only the first 24 bytes decide what the header says. */
  lemma {:induction false} HeaderAlone(bytes: seq<Byte>)
    requires |bytes| >= FRAME_HEADER_SIZE
    ensures DecodeHeader(bytes[..FRAME_HEADER_SIZE]) == DecodeHeader(bytes)
  {
    var front := bytes[..FRAME_HEADER_SIZE];
    assert front[..4] == bytes[..4] && front[4..6] == bytes[4..6] && front[6..8] == bytes[6..8];
    assert front[8..12] == bytes[8..12] && front[12..16] == bytes[12..16] && front[16..24] == bytes[16..24];
  }

  // ---- The writer ----

  function Wire(frames: seq<PeerFrame>): seq<Byte> {
    if frames == [] then [] else Encode(frames[0]) + Wire(frames[1..])
  }

  /** How many frames can be written before one is refused. */
  function EncodableCount(frames: seq<PeerFrame>): (count: nat)
    ensures count <= |frames|
    ensures forall k | 0 <= k < count :: Encodable(frames[k])
    ensures count < |frames| ==> !Encodable(frames[count])
  {
    if frames == [] || !Encodable(frames[0]) then 0 else 1 + EncodableCount(frames[1..])
  }

  lemma {:induction false} WireOfConcat(a: seq<PeerFrame>, b: seq<PeerFrame>)
    ensures Wire(a + b) == Wire(a) + Wire(b)
  {
    if a == [] {
      assert a + b == b;
    } else {
      WireOfConcat(a[1..], b);
      assert (a + b)[1..] == a[1..] + b;
    }
  }

  lemma {:induction false} WireOneMore(frames: seq<PeerFrame>, n: nat)
    requires n < |frames|
    ensures Wire(frames[..n + 1]) == Wire(frames[..n]) + Encode(frames[n])
  {
    assert frames[..n + 1] == frames[..n] + [frames[n]];
    WireOfConcat(frames[..n], [frames[n]]);
    assert [frames[n]][1..] == [];
  }

  /** Writes what the producer yields until it has no more or a frame is refused; `sent` counts the
      calls of the frame-sent callback. */
  method SendFramesTo(frames: seq<PeerFrame>) returns (wire: seq<Byte>, sent: nat, failed: bool)
    ensures sent == EncodableCount(frames) && wire == Wire(frames[..sent])
    ensures failed <==> sent < |frames|
  {
    wire, sent := [], 0;
    while sent < |frames|
      invariant sent <= |frames| && wire == Wire(frames[..sent])
      invariant EncodableCount(frames) == sent + EncodableCount(frames[sent..])
    {
      assert frames[sent..][1..] == frames[sent + 1..];
      var bytes := EncodePeerFrame(frames[sent]);
      if bytes.Err? { return wire, sent, true; }
      WireOneMore(frames, sent);
      wire := wire + bytes.value;
      sent := sent + 1;
    }
    return wire, sent, false;
  }

  // ---- Every prefix of a stream ----

  /** The number of frames whose encodings lie wholly within the first `n` bytes. */
  function WholeFrames(frames: seq<PeerFrame>, n: nat): (count: nat)
    ensures count <= |frames|
  {
    if frames == [] || FrameSize(frames[0]) > n then 0 else 1 + WholeFrames(frames[1..], n - FrameSize(frames[0]))
  }

  lemma {:induction false} WholeFramesIsMaximal(frames: seq<PeerFrame>, n: nat, k: nat)
    requires k <= |frames|
    ensures k <= WholeFrames(frames, n) <==> |Wire(frames[..k])| <= n
  {
    if k == 0 {
      assert frames[..k] == [];
    } else {
      assert frames[..k][1..] == frames[1..][..k - 1];
      if FrameSize(frames[0]) <= n {
        WholeFramesIsMaximal(frames[1..], n - FrameSize(frames[0]), k - 1);
      }
    }
  }

  /** The frames before the first offer that does not parse. */
  function WellFormedCount(readOffer: OfferReader, frames: seq<PeerFrame>): (count: nat)
    ensures count <= |frames|
    ensures forall k | 0 <= k < count :: !IsMalformedOffer(readOffer, frames[k])
    ensures count < |frames| ==> IsMalformedOffer(readOffer, frames[count])
  {
    if frames == [] || IsMalformedOffer(readOffer, frames[0]) then 0 else 1 + WellFormedCount(readOffer, frames[1..])
  }

  function OpenAfter(readOffer: OfferReader, open: bool, frames: seq<PeerFrame>): bool
    requires forall k | 0 <= k < |frames| :: !IsMalformedOffer(readOffer, frames[k])
    decreases |frames|
  {
    if frames == [] then open
    else OpenAfter(readOffer, OpenAfterFrame(readOffer, open, frames[0]), frames[1..])
  }

  lemma {:induction false} FirstFrameReadsBack(readOffer: OfferReader, frame: PeerFrame, rest: seq<Byte>)
    requires Encodable(frame)
    ensures FirstFrame(readOffer, Encode(frame) + rest) == if IsMalformedOffer(readOffer, frame) then None else Some(frame)
  {
    EncodingInParts(frame, rest);
    HeaderReadsBack(frame, frame.header + frame.body + rest);
    FrameIsPutTogether(frame);
  }

  /** A part of an encoding is not enough for a frame. */
  lemma {:induction false} PartOfFrameIsNone(readOffer: OfferReader, frame: PeerFrame, n: nat)
    requires Encodable(frame) && n < FrameSize(frame)
    ensures FirstFrame(readOffer, Encode(frame)[..n]).None?
  {
    var bytes := Encode(frame)[..n];
    if n >= FRAME_HEADER_SIZE {
      var payload := (frame.header + frame.body)[..n - FRAME_HEADER_SIZE];
      PartOfEncoding(frame, n);
      HeaderReadsBack(frame, payload);
    }
  }

  lemma {:induction false} PartOfEncoding(frame: PeerFrame, n: nat)
    requires FRAME_HEADER_SIZE <= n < FrameSize(frame)
    ensures Encode(frame)[..n] == FrameHeaderBytes(frame) + (frame.header + frame.body)[..n - FRAME_HEADER_SIZE]
  {
  }

  lemma {:induction false} WholeFrameIsDelivered(readOffer: OfferReader, frames: seq<PeerFrame>, n: nat,
        end: StreamEnd, open: bool)
    requires frames != [] && Encodable(frames[0]) && !IsMalformedOffer(readOffer, frames[0])
    requires FrameSize(frames[0]) <= n <= |Wire(frames)|
    ensures n - FrameSize(frames[0]) <= |Wire(frames[1..])|
    ensures var after := Receive(readOffer, Wire(frames[1..])[..n - FrameSize(frames[0])], end,
                                 OpenAfterFrame(readOffer, open, frames[0]));
      Receive(readOffer, Wire(frames)[..n], end, open) == Reading([frames[0]] + after.delivered, after.report)
  {
    var first, rest := Encode(frames[0]), Wire(frames[1..])[..n - FrameSize(frames[0])];
    TakePast(first, Wire(frames[1..]), n);
    FirstFrameReadsBack(readOffer, frames[0], rest);
    ReceiveGoesOn(readOffer, first + rest, frames[0], end, open);
    assert (first + rest)[FrameSize(frames[0])..] == rest;
  }

  function DeliveredCount(readOffer: OfferReader, frames: seq<PeerFrame>, n: nat): (count: nat)
    ensures count <= |frames|
    ensures count <= WellFormedCount(readOffer, frames)
  {
    Min(WholeFrames(frames, n), WellFormedCount(readOffer, frames))
  }

  /** The first `count` frames were delivered, and a transfer closed before completion is reported exactly
      if they leave one open. */
  ghost predicate Delivers(readOffer: OfferReader, reading: Reading, frames: seq<PeerFrame>, count: nat, open: bool)
    requires count <= |frames| && count <= WellFormedCount(readOffer, frames)
  {
    && reading.delivered == frames[..count]
    && (reading.report.ClosedBeforeCompletion? <==> OpenAfter(readOffer, open, frames[..count]))
  }

  /** Cut the encodings of any frames anywhere: the reader delivers, in order, exactly the frames that
      lie wholly before the cut, up to the first offer that does not parse; and it reports a transfer
      closed before completion exactly if the delivered frames leave one open. */
  lemma {:induction false} PrefixDeliversWholeFrames(readOffer: OfferReader, frames: seq<PeerFrame>, n: nat,
        end: StreamEnd, open: bool)
    requires forall k | 0 <= k < |frames| :: Encodable(frames[k])
    requires n <= |Wire(frames)|
    ensures Delivers(readOffer, Receive(readOffer, Wire(frames)[..n], end, open), frames, DeliveredCount(readOffer, frames, n), open)
    decreases |frames|
  {
    if frames == [] || IsMalformedOffer(readOffer, frames[0]) || n < FrameSize(frames[0]) {
      NothingDelivered(readOffer, frames, n);
      NoneDelivered(readOffer, Wire(frames)[..n], frames, n, end, open);
    } else {
      WholeFrameIsDelivered(readOffer, frames, n, end, open);
      var m, open' := n - FrameSize(frames[0]), OpenAfterFrame(readOffer, open, frames[0]);
      PrefixDeliversWholeFrames(readOffer, frames[1..], m, end, open');
      FirstAndRestDelivered(readOffer, frames, n, end, open, m, open');
    }
  }

  lemma {:induction false} FirstAndRestDelivered(readOffer: OfferReader, frames: seq<PeerFrame>, n: nat, end: StreamEnd, open: bool,
        m: nat, open': bool)
    requires frames != [] && Encodable(frames[0]) && !IsMalformedOffer(readOffer, frames[0])
    requires n <= |Wire(frames)| && n == m + FrameSize(frames[0]) && m <= |Wire(frames[1..])|
    requires open' == OpenAfterFrame(readOffer, open, frames[0])
    requires Delivers(readOffer, Receive(readOffer, Wire(frames[1..])[..m], end, open'), frames[1..],
                      DeliveredCount(readOffer, frames[1..], m), open')
    ensures Delivers(readOffer, Receive(readOffer, Wire(frames)[..n], end, open), frames, DeliveredCount(readOffer, frames, n), open)
  {
    WholeFrameIsDelivered(readOffer, frames, n, end, open);
    DeliversOneMore(readOffer, Receive(readOffer, Wire(frames[1..])[..m], end, open'), frames, n, open);
  }

  lemma {:induction false} DeliversOneMore(readOffer: OfferReader, reading: Reading, frames: seq<PeerFrame>, n: nat, open: bool)
    requires frames != [] && !IsMalformedOffer(readOffer, frames[0]) && FrameSize(frames[0]) <= n
    requires var m := n - FrameSize(frames[0]);
             Delivers(readOffer, reading, frames[1..], DeliveredCount(readOffer, frames[1..], m),
                      OpenAfterFrame(readOffer, open, frames[0]))
    ensures Delivers(readOffer, Reading([frames[0]] + reading.delivered, reading.report), frames,
                     DeliveredCount(readOffer, frames, n), open)
  {
    CountOneMore(readOffer, frames, n);
    OneMoreDelivered(readOffer, reading, frames, DeliveredCount(readOffer, frames[1..], n - FrameSize(frames[0])), open);
  }

  lemma {:induction false} NoneDelivered(
      readOffer: OfferReader, bytes: seq<Byte>, frames: seq<PeerFrame>, n: nat, end: StreamEnd, open: bool)
    requires FirstFrame(readOffer, bytes).None?
    requires frames == [] || IsMalformedOffer(readOffer, frames[0]) || n < FrameSize(frames[0])
    ensures Delivers(readOffer, Receive(readOffer, bytes, end, open), frames, DeliveredCount(readOffer, frames, n), open)
  {
    ReceiveStops(readOffer, bytes, end, open);
    assert DeliveredCount(readOffer, frames, n) == 0;
  }

  lemma {:induction false} CountOneMore(readOffer: OfferReader, frames: seq<PeerFrame>, n: nat)
    requires frames != [] && !IsMalformedOffer(readOffer, frames[0]) && FrameSize(frames[0]) <= n
    ensures DeliveredCount(readOffer, frames, n) == 1 + DeliveredCount(readOffer, frames[1..], n - FrameSize(frames[0]))
  {
  }

  lemma {:induction false} OneMoreDelivered(readOffer: OfferReader, reading: Reading, frames: seq<PeerFrame>,
        count: nat, open: bool)
    requires frames != [] && !IsMalformedOffer(readOffer, frames[0])
    requires count <= |frames[1..]| && count <= WellFormedCount(readOffer, frames[1..])
    requires Delivers(readOffer, reading, frames[1..], count, OpenAfterFrame(readOffer, open, frames[0]))
    ensures count + 1 <= WellFormedCount(readOffer, frames)
    ensures Delivers(readOffer, Reading([frames[0]] + reading.delivered, reading.report), frames, count + 1, open)
  {
    TakeAfterFirst(frames, count);
  }

  lemma {:induction false} NothingDelivered(readOffer: OfferReader, frames: seq<PeerFrame>, n: nat)
    requires forall k | 0 <= k < |frames| :: Encodable(frames[k])
    requires n <= |Wire(frames)|
    requires frames == [] || IsMalformedOffer(readOffer, frames[0]) || n < FrameSize(frames[0])
    ensures FirstFrame(readOffer, Wire(frames)[..n]).None?
  {
    if frames != [] {
      var first, rest := Encode(frames[0]), Wire(frames[1..]);
      if n < |first| {
        assert (first + rest)[..n] == first[..n];
        PartOfFrameIsNone(readOffer, frames[0], n);
      } else {
        TakePast(first, rest, n);
        FirstFrameReadsBack(readOffer, frames[0], rest[..n - |first|]);
      }
    }
  }

  lemma {:induction false} TakePast(a: seq<Byte>, b: seq<Byte>, n: nat)
    requires |a| <= n <= |a| + |b|
    ensures (a + b)[..n] == a + b[..n - |a|]
  {
  }

  lemma {:induction false} TakeAfterFirst(frames: seq<PeerFrame>, count: nat)
    requires frames != [] && count <= |frames| - 1
    ensures frames[..count + 1] == [frames[0]] + frames[1..][..count]
    ensures frames[..count + 1][1..] == frames[1..][..count]
  {
  }

  lemma {:induction false} AllAreWhole(frames: seq<PeerFrame>)
    ensures WholeFrames(frames, |Wire(frames)|) == |frames|
  {
    WholeFramesIsMaximal(frames, |Wire(frames)|, |frames|);
    assert frames[..|frames|] == frames;
  }

  /** An uncut stream arrives whole exactly if every transfer offer in it can be parsed. */
  lemma {:induction false} WholeStreamArrives(readOffer: OfferReader, frames: seq<PeerFrame>, end: StreamEnd)
    requires forall k | 0 <= k < |frames| :: Encodable(frames[k])
    ensures Receive(readOffer, Wire(frames), end, false).delivered == frames
       <==> forall k | 0 <= k < |frames| :: frames[k].frameType.TransferOffer? ==> readOffer(frames[k].header).Some?
  {
    AllAreWhole(frames);
    assert Wire(frames)[..|Wire(frames)|] == Wire(frames);
    PrefixDeliversWholeFrames(readOffer, frames, |Wire(frames)|, end, false);
    assert frames[..|frames|] == frames;
  }

  // ---- What is reported ----

  /** A frame that opens a transfer on the connection: a chunk, or an offer that does not only ask to resume. */
  predicate Opens(readOffer: OfferReader, frame: PeerFrame) {
    frame.frameType.TransferChunk? || (frame.frameType.TransferOffer? && readOffer(frame.header) == Some(false))
  }

  predicate Closes(frame: PeerFrame) {
    frame.frameType.TransferComplete? || frame.frameType.TransferCancel?
  }

  predicate NoneCloses(frames: seq<PeerFrame>, from: nat) {
    forall k | from <= k < |frames| :: !Closes(frames[k])
  }

  /** A transfer was opened, and nothing closed it afterwards. */
  ghost predicate LeavesOpen(readOffer: OfferReader, frames: seq<PeerFrame>) {
    exists k :: 0 <= k < |frames| && Opens(readOffer, frames[k]) && NoneCloses(frames, k + 1)
  }

  lemma {:induction false} LeavesOpenBehind(readOffer: OfferReader, frames: seq<PeerFrame>)
    requires frames != []
    ensures LeavesOpen(readOffer, frames)
       <==> LeavesOpen(readOffer, frames[1..]) || (Opens(readOffer, frames[0]) && NoneCloses(frames[1..], 0))
    ensures NoneCloses(frames, 0) <==> !Closes(frames[0]) && NoneCloses(frames[1..], 0)
  {
    var rest := frames[1..];
    forall k: nat | k < |rest|
      ensures NoneCloses(frames, k + 1) <==> NoneCloses(rest, k)
    {
      NoneClosesBehind(frames, k);
    }
    if k :| 0 <= k < |rest| && Opens(readOffer, rest[k]) && NoneCloses(rest, k + 1) {
      NoneClosesBehind(frames, k + 1);
      assert Opens(readOffer, frames[k + 1]) && NoneCloses(frames, k + 1 + 1);
    }
    if k :| 0 <= k < |frames| && Opens(readOffer, frames[k]) && NoneCloses(frames, k + 1) {
      NoneClosesBehind(frames, k);
      if k > 0 { assert Opens(readOffer, rest[k - 1]) && NoneCloses(rest, k - 1 + 1); }
    }
    NoneClosesBehind(frames, 0);
  }

  lemma {:induction false} NoneClosesBehind(frames: seq<PeerFrame>, k: nat)
    requires frames != []
    ensures NoneCloses(frames, k + 1) <==> NoneCloses(frames[1..], k)
  {
    if NoneCloses(frames, k + 1) {
      forall j | k <= j < |frames[1..]| ensures !Closes(frames[1..][j]) {
        assert frames[1..][j] == frames[j + 1];
      }
    }
    if NoneCloses(frames[1..], k) {
      forall j | k + 1 <= j < |frames| ensures !Closes(frames[j]) {
        assert frames[j] == frames[1..][j - 1];
      }
    }
  }

  lemma {:induction false} OpenAfterIff(readOffer: OfferReader, open: bool, frames: seq<PeerFrame>)
    requires forall k | 0 <= k < |frames| :: !IsMalformedOffer(readOffer, frames[k])
    ensures OpenAfter(readOffer, open, frames) <==> LeavesOpen(readOffer, frames) || (open && NoneCloses(frames, 0))
    decreases |frames|
  {
    if frames != [] {
      OpenAfterIff(readOffer, OpenAfterFrame(readOffer, open, frames[0]), frames[1..]);
      LeavesOpenBehind(readOffer, frames);
    }
  }

  lemma {:induction false} FrontIsEncoding(bytes: seq<Byte>)
    requires FrameAtFront(bytes).Some?
    ensures var frame := FrameAtFront(bytes).value;
            Encodable(frame) && bytes == Encode(frame) + bytes[FrameSize(frame)..]
  {
    var frame := FrameAtFront(bytes).value;
    var front := bytes[..FrameSize(frame)];
    assert front[..FRAME_HEADER_SIZE] == bytes[..FRAME_HEADER_SIZE];
    HeaderAlone(front);
    HeaderAlone(bytes);
    assert front[FRAME_HEADER_SIZE..] == bytes[FRAME_HEADER_SIZE..FrameSize(frame)];
    assert Decode(front) == Ok(frame);
    EncodeDecode(front);
  }

  /** What any bytes yield: the delivered frames are encoded, one after the other, at their front. */
  ghost predicate YieldedBy(readOffer: OfferReader, bytes: seq<Byte>, frames: seq<PeerFrame>) {
    && (forall k | 0 <= k < |frames| :: Encodable(frames[k]) && !IsMalformedOffer(readOffer, frames[k]))
    && |Wire(frames)| <= |bytes| && Wire(frames) == bytes[..|Wire(frames)|]
  }

  lemma {:induction false} OneMoreYielded(readOffer: OfferReader, bytes: seq<Byte>, frame: PeerFrame, frames: seq<PeerFrame>)
    requires FirstFrame(readOffer, bytes) == Some(frame) && YieldedBy(readOffer, bytes[FrameSize(frame)..], frames)
    ensures YieldedBy(readOffer, bytes, [frame] + frames) && |Wire([frame] + frames)| == FrameSize(frame) + |Wire(frames)|
  {
    FrontIsEncoding(bytes);
    assert ([frame] + frames)[1..] == frames;
    var rest := bytes[FrameSize(frame)..];
    assert bytes[..FrameSize(frame) + |Wire(frames)|] == Encode(frame) + rest[..|Wire(frames)|];
  }

  /** When the reader stops, it reports a transfer closed before completion exactly if one is open after the
      delivered frames, and nothing exactly if none is and the stream ended before another whole header. */
  lemma {:induction false} ReportFollowsDelivered(readOffer: OfferReader, bytes: seq<Byte>, end: StreamEnd, open: bool)
    ensures var r := Receive(readOffer, bytes, end, open);
            && YieldedBy(readOffer, bytes, r.delivered)
            && (r.report.ClosedBeforeCompletion? <==> OpenAfter(readOffer, open, r.delivered))
            && (r.report.Nothing? <==>
                  && !OpenAfter(readOffer, open, r.delivered) && end.EndOfStream?
                  && |bytes| < |Wire(r.delivered)| + FRAME_HEADER_SIZE)
    decreases |bytes|
  {
    var first := FirstFrame(readOffer, bytes);
    if first.None? {
      ReceiveStops(readOffer, bytes, end, open);
    } else {
      var frame := first.value;
      var rest, open' := bytes[FrameSize(frame)..], OpenAfterFrame(readOffer, open, frame);
      ReceiveGoesOn(readOffer, bytes, frame, end, open);
      ReportFollowsDelivered(readOffer, rest, end, open');
      var delivered := Receive(readOffer, rest, end, open').delivered;
      OneMoreYielded(readOffer, bytes, frame, delivered);
      assert ([frame] + delivered)[1..] == delivered;
    }
  }

  /** For any bytes on a new connection: a transfer closed before completion is reported exactly if a chunk or
      an offer to send was delivered with no complete or cancel frame after it; otherwise an end of stream on a
      frame boundary, or within a header, reports nothing. */
  lemma {:induction false} ReportIff(readOffer: OfferReader, bytes: seq<Byte>, end: StreamEnd)
    ensures var r := Receive(readOffer, bytes, end, false);
            && YieldedBy(readOffer, bytes, r.delivered)
            && (r.report.ClosedBeforeCompletion? <==> LeavesOpen(readOffer, r.delivered))
            && (r.report.Nothing? <==>
                  && !LeavesOpen(readOffer, r.delivered) && end.EndOfStream?
                  && |bytes| < |Wire(r.delivered)| + FRAME_HEADER_SIZE)
  {
    ReportFollowsDelivered(readOffer, bytes, end, false);
    OpenAfterIff(readOffer, false, Receive(readOffer, bytes, end, false).delivered);
  }
}
