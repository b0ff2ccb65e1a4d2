/** How the PDC client cuts frames out of a TCP stream. */
module PdcStream {
  import opened Bytes
  import opened FrameHeader
  import opened FrameWords
  import opened Sequences
  import opened Wrappers

  /** A connected socket: pending is everything the peer will have sent before it closes. */
  class Socket {
    var pending: seq<Byte>

    constructor (bytes: seq<Byte>)
      ensures pending == bytes
    {
      pending := bytes;
    }

    /** recv: some of the next bytes, at least one unless none are asked for or the peer has closed. */
    method Recv(max: nat) returns (chunk: seq<Byte>)
      modifies this
      ensures chunk + pending == old(pending) && |chunk| <= max
      ensures chunk == [] <==> max == 0 || old(pending) == []
    {
      if max == 0 || pending == [] {
        return [];
      }
      var n :| 1 <= n <= max && n <= |pending|;
      chunk := pending[..n];
      pending := pending[n..];
    }
  }

  /** The frame begins with a size field that is its own length. */
  predicate SelfDelimiting(frame: seq<Byte>) {
    |frame| >= 4 && WordAt(frame, 2, 2) == |frame|
  }

  /** Every frame the encoders produce is self-delimiting. */
  lemma FramedIsSelfDelimiting(h: Header, body: seq<Byte>, now: Time, data: seq<Byte>)
    requires HeaderOk(h) && TimeOk(now) && Framed(h, body, now) == Some(data)
    ensures SelfDelimiting(data)
  {
    FramedReads(h, body, now, data);
  }

  /** data[2:4] of what has been received so far, which may be less than four bytes. */
  function AnnouncedSize(received: seq<Byte>): nat {
    WordAt(received, 2, 2)
  }

  lemma PrefixAnnounces(frame: seq<Byte>, received: seq<Byte>)
    requires SelfDelimiting(frame) && received <= frame
    ensures |received| >= 4 ==> AnnouncedSize(received) == |frame|
    ensures |received| < 4 ==> AnnouncedSize(received) < |frame|
  {
    OfFromBigEndian(Slice(frame, 2, 4));
    var size := Slice(frame, 2, 4);
    assert size == [frame[2], frame[3]] && size[..1] == [frame[2]] && [frame[2]][..0] == [];
    var high: int, low: int := frame[2], frame[3];
    assert |frame| == 256 * high + low;
    var s := Slice(received, 2, 4);
    if |received| >= 4 {
      assert s == size;
    } else if |received| == 3 {
      assert s == [frame[2]];
      assert FromBigEndian([frame[2]]) == frame[2];
    } else {
      assert s == [];
    }
  }

  /** The frame that is next on the stream, if a whole one is. */
  function NextFrame(pending: seq<Byte>): (r: Option<seq<Byte>>)
    ensures r.Some? ==> SelfDelimiting(r.value) && r.value <= pending
  {
    var size := WordAt(pending, 2, 2);
    if 4 <= size <= |pending| then
      assert Slice(pending, 2, 4) == Slice(pending[..size], 2, 4);
      Some(pending[..size])
    else None
  }

  /** What get hands to the decoder, and how many bytes its first read returned. */
  datatype Outcome = Outcome(message: Option<seq<Byte>>, headerBytes: nat)

  /**
   get over TCP, whatever way the stream is cut into reads. A frame that is next on the stream is
   returned, whole and with nothing beyond it consumed, if and only if the read of the four header
   bytes was not cut short. Whatever is returned is what was consumed.
   */
  method Get(socket: Socket, bufferSize: nat) returns (r: Outcome)
    modifies socket
    ensures r.headerBytes <= 4 && (r.message.Some? ==> r.message.value + socket.pending == old(socket.pending))
    ensures bufferSize > 0 && NextFrame(old(socket.pending)).Some? ==>
      && (r.headerBytes == 4 <==> r.message == NextFrame(old(socket.pending)))
      && (r.headerBytes == 4 ==> NextFrame(old(socket.pending)).value + socket.pending == old(socket.pending))
  {
    hide WordAt;
    ghost var all := socket.pending;
    var received := socket.Recv(4);
    var headerBytes := |received|;
    var bytesReceived := |received|;
    var total := AnnouncedSize(received);
    while bytesReceived < total
      invariant bytesReceived == |received| && received + socket.pending == all
      invariant headerBytes <= |received| && (headerBytes == |received| || |received| <= total)
      decreases total - bytesReceived
    {
      var chunk := socket.Recv(if total - bytesReceived < bufferSize then total - bytesReceived else bufferSize);
      if chunk == [] {
        break;
      }
      ghost var before := received;
      received := received + chunk;
      bytesReceived := bytesReceived + |chunk|;
      assert before + (chunk + socket.pending) == received + socket.pending;
    }
    r := Outcome(if |received| == total then Some(received) else None, headerBytes);
    if bufferSize > 0 && NextFrame(all).Some? {
      Finished(all, received, socket.pending, headerBytes, total);
    }
  }

  /** Where the loop can have stopped when a whole frame was next. */
  lemma Finished(all: seq<Byte>, received: seq<Byte>, pending: seq<Byte>, headerBytes: nat, total: nat)
    requires NextFrame(all).Some? && received + pending == all
    requires headerBytes <= 4 && headerBytes <= |received| && (headerBytes == |received| || |received| <= total)
    requires total == AnnouncedSize(all[..headerBytes]) && (|received| < total ==> pending == [])
    ensures headerBytes == 4 <==> |received| == total && NextFrame(all) == Some(received)
  {
    var frame := NextFrame(all).value;
    assert all[..headerBytes] == frame[..headerBytes];
    PrefixAnnounces(frame, frame[..headerBytes]);
    hide WordAt, NextFrame;
    if headerBytes == 4 && |received| == total {
      assert received == all[..total] == frame;
    }
  }

  // Successive frames.

  function Concat(frames: seq<seq<Byte>>): seq<Byte> {
    if frames == [] then [] else frames[0] + Concat(frames[1..])
  }

  lemma NextIs(frame: seq<Byte>, rest: seq<Byte>)
    requires SelfDelimiting(frame)
    ensures NextFrame(frame + rest) == Some(frame)
  {
    assert Slice(frame + rest, 2, 4) == Slice(frame, 2, 4);
    assert (frame + rest)[..|frame|] == frame;
  }

  predicate AllSelfDelimiting(frames: seq<seq<Byte>>) {
    forall f | f in frames :: SelfDelimiting(f)
  }

  /**
   Successive calls on a stream of concatenated frames, for every list of frames and every way of
   cutting the stream, as long as no header read is cut short: the frames come back in order, each
   call consumes exactly its own bytes, and what follows the frames is left on the stream.
   */
  method GetMany(socket: Socket, bufferSize: nat, ghost frames: seq<seq<Byte>>, ghost rest: seq<Byte>, count: nat)
    returns (messages: seq<seq<Byte>>, headersWhole: bool)
    requires bufferSize > 0 && AllSelfDelimiting(frames) && |frames| == count && socket.pending == Concat(frames) + rest
    modifies socket
    ensures headersWhole ==> messages == frames && socket.pending == rest
    ensures !headersWhole ==> |messages| < count && messages <= frames
  {
    hide SelfDelimiting, NextFrame;
    messages := [];
    assert frames[0..] == frames;
    for i := 0 to count
      invariant messages == frames[..i] && socket.pending == Concat(frames[i..]) + rest
    {
      ghost var frame, more := frames[i], Concat(frames[i + 1..]) + rest;
      assert socket.pending == frame + more by {
        assert frames[i..][0] == frame && frames[i..][1..] == frames[i + 1..];
        Assoc(frame, Concat(frames[i + 1..]), rest);
      }
      assert frame in frames;
      NextIs(frame, more);
      var r := Get(socket, bufferSize);
      if r.headerBytes != 4 {
        return messages, false;
      }
      messages := messages + [r.message.value];
      Remaining(frame, socket.pending, frame, more);
    }
    assert frames[..count] == frames && Concat(frames[count..]) == [] && [] + rest == rest;
    headersWhole := true;
  }

  lemma Remaining(received: seq<Byte>, pending: seq<Byte>, frame: seq<Byte>, rest: seq<Byte>)
    requires received + pending == frame + rest && received == frame
    ensures pending == rest
  {
    assert pending == (received + pending)[|received|..] == (frame + rest)[|frame|..] == rest;
  }
}
