/**
  The response framing of the worker protocol, as the client decodes it in
  CoreNLP.send_command_and_get_string_result: an 8-byte unsigned big-endian
  length (a Java `long`, unpacked with struct format '>Q'), followed by a
  payload gathered by repeated reads, each asking for exactly the bytes still
  missing, and abandoned once more than 1000 chunks have been appended.

  The channel is an oracle: `header` is what the 8-byte header read returned,
  and `replies[k]` is what the k-th payload read returned. A read past the end
  of `replies` returns the empty string, as a closed socket or pipe does.
*/
module FrameCodec {
  import opened Wrappers

  type byte = b: int | 0 <= b < 256

  /** Width of the length header. */
  const HeaderSize: nat := 8

  /** The payload loop returns None once more than this many chunks are appended. */
  const MaxChunks: nat := 1000

  /** 256 to the power n: the number of values an n-byte unsigned integer can take. */
  function Pow256(n: nat): (r: nat)
    ensures r >= 1
    ensures n >= 1 ==> r >= 256
  {
    if n == 0 then 1 else 256 * Pow256(n - 1)
  }

  /** The unsigned big-endian value of a byte string. */
  function BigEndian(s: seq<byte>): nat
  {
    if s == [] then 0 else BigEndian(s[..|s| - 1]) * 256 + s[|s| - 1]
  }

  /** An n-byte big-endian value is below 256^n. */
  lemma {:induction false} BigEndianBound(s: seq<byte>)
    ensures BigEndian(s) < Pow256(|s|)
  {
    if s != [] {
      var init := s[..|s| - 1];
      BigEndianBound(init);
      assert BigEndian(init) + 1 <= Pow256(|init|);
      calc {
        BigEndian(s);
        BigEndian(init) * 256 + s[|s| - 1];
      <  BigEndian(init) * 256 + 256;
        (BigEndian(init) + 1) * 256;
      <= Pow256(|init|) * 256;
      }
    }
  }

  /** The width-byte big-endian encoding of n: how the Java side writes the length. */
  function ToBigEndian(n: nat, width: nat): (s: seq<byte>)
    requires n < Pow256(width)
    ensures |s| == width
  {
    if width == 0 then []
    else
      assert n / 256 < Pow256(width - 1);
      ToBigEndian(n / 256, width - 1) + [n % 256]
  }

  /** Decoding what was encoded gives the number back. */
  lemma {:induction false} BigEndianOfToBigEndian(n: nat, width: nat)
    requires n < Pow256(width)
    ensures BigEndian(ToBigEndian(n, width)) == n
  {
    if width > 0 {
      var s := ToBigEndian(n, width);
      assert s[..|s| - 1] == ToBigEndian(n / 256, width - 1);
      BigEndianOfToBigEndian(n / 256, width - 1);
    }
  }

  /** Encoding what was decoded gives the bytes back: the header has no redundancy. */
  lemma {:induction false} ToBigEndianOfBigEndian(s: seq<byte>)
    ensures BigEndian(s) < Pow256(|s|)
    ensures ToBigEndian(BigEndian(s), |s|) == s
  {
    BigEndianBound(s);
    if s != [] {
      var init := s[..|s| - 1];
      ToBigEndianOfBigEndian(init);
      assert BigEndian(s) / 256 == BigEndian(init);
      assert BigEndian(s) % 256 == s[|s| - 1];
      assert s == init + [s[|s| - 1]];
    }
  }

  /** struct.unpack('>Q', h): defined only on exactly 8 bytes; anything else raises struct.error. */
  function UnpackHeader(h: seq<byte>): (r: Option<nat>)
    ensures r.Some? <==> |h| == HeaderSize
    ensures r.Some? ==> r.value < Pow256(HeaderSize)
  {
    if |h| == HeaderSize then
      BigEndianBound(h);
      Some(BigEndian(h))
    else None
  }

  /** The header the worker sends before a payload of length n. */
  function EncodeHeader(n: nat): (h: seq<byte>)
    requires n < Pow256(HeaderSize)
    ensures |h| == HeaderSize
  {
    ToBigEndian(n, HeaderSize)
  }

  /** The declared length is the value of the header bytes, and each length has exactly one header. */
  lemma HeaderRoundTrip(n: nat, h: seq<byte>)
    requires n < Pow256(HeaderSize)
    ensures UnpackHeader(EncodeHeader(n)) == Some(n)
    ensures UnpackHeader(h) == Some(n) ==> h == EncodeHeader(n)
  {
    BigEndianOfToBigEndian(n, HeaderSize);
    if UnpackHeader(h) == Some(n) {
      ToBigEndianOfBigEndian(h);
    }
  }

  /** What the k-th payload read returned. */
  function Chunk(replies: seq<seq<byte>>, k: nat): seq<byte>
  {
    if k < |replies| then replies[k] else []
  }

  /** What the payload loop ends with: the joined chunks (None when it gives up) and the sizes its reads asked for. */
  datatype Gathered = Gathered(data: Option<seq<byte>>, requests: seq<int>)

  /**
    The payload loop of send_command_and_get_string_result, from the state in
    which `appended` chunks have been read and joined into `got` by reads that
    asked for `requests`: ask for the bytes still missing, append what comes,
    stop once the declared size is reached, give up once more than MaxChunks
    chunks have been appended, otherwise go round again.
  */
  function GatherFrom(size: nat, replies: seq<seq<byte>>, appended: nat, got: seq<byte>, requests: seq<int>): Gathered
    requires appended <= MaxChunks
    decreases MaxChunks - appended
  {
    var got' := got + Chunk(replies, appended);
    var requests' := requests + [size - |got|];
    if |got'| >= size then Gathered(Some(got'), requests')
    else if appended + 1 > MaxChunks then Gathered(None, requests')
    else GatherFrom(size, replies, appended + 1, got', requests')
  }

  /** The payload loop for a declared size, from its start. */
  function Gather(size: nat, replies: seq<seq<byte>>): Gathered
  {
    GatherFrom(size, replies, 0, [], [])
  }

  // The loop described without the loop: prefixes of the chunk sequence.

  /** The concatenation, in read order, of the first n chunks. */
  function Received(replies: seq<seq<byte>>, n: nat): seq<byte>
  {
    if n == 0 then [] else Received(replies, n - 1) + Chunk(replies, n - 1)
  }

  /** The bytes the k-th read asks for: the declared size minus what the earlier reads gathered. */
  function Request(size: nat, replies: seq<seq<byte>>, k: nat): int
  {
    size - |Received(replies, k)|
  }

  /** The requests of the first n reads. */
  function Requests(size: nat, replies: seq<seq<byte>>, n: nat): seq<int>
  {
    if n == 0 then [] else Requests(size, replies, n - 1) + [Request(size, replies, n - 1)]
  }

  /**
    The first count of reads, from n on, whose accumulated length reaches the
    size, or MaxChunks + 1 when none of them does.
  */
  function ReadsFrom(size: nat, replies: seq<seq<byte>>, n: nat): (k: nat)
    requires 1 <= n <= MaxChunks + 1
    ensures n <= k <= MaxChunks + 1
    ensures |Received(replies, k)| >= size || k == MaxChunks + 1
    decreases MaxChunks + 1 - n
  {
    if |Received(replies, n)| >= size || n == MaxChunks + 1 then n
    else ReadsFrom(size, replies, n + 1)
  }

  /** The number of payload reads for a declared size. */
  function PayloadReads(size: nat, replies: seq<seq<byte>>): (k: nat)
    ensures 1 <= k <= MaxChunks + 1
    ensures |Received(replies, k)| >= size || k == MaxChunks + 1
  {
    ReadsFrom(size, replies, 1)
  }

  /** What the loop returns after k reads. */
  function OutcomeAfter(size: nat, replies: seq<seq<byte>>, k: nat): Option<seq<byte>>
  {
    if |Received(replies, k)| >= size then Some(Received(replies, k)) else None
  }

  /** What the loop ends with when its reads from the n-th on are described by ReadsFrom. */
  function Described(size: nat, replies: seq<seq<byte>>, n: nat): Gathered
    requires 1 <= n <= MaxChunks + 1
  {
    var k := ReadsFrom(size, replies, n);
    Gathered(OutcomeAfter(size, replies, k), Requests(size, replies, k))
  }

  /** The loop and its description agree, from any state the loop reaches. */
  lemma {:induction false} GatherFromAgrees(size: nat, replies: seq<seq<byte>>, n: nat, got: seq<byte>, requests: seq<int>)
    requires n <= MaxChunks
    requires got == Received(replies, n) && requests == Requests(size, replies, n)
    ensures GatherFrom(size, replies, n, got, requests) == Described(size, replies, n + 1)
    decreases MaxChunks - n
  {
    var got' := got + Chunk(replies, n);
    if |got'| >= size || n + 1 > MaxChunks {
      AgreesWhenStopping(size, replies, n, got, requests);
    } else {
      var requests' := requests + [size - |got|];
      AgreesWhenContinuing(size, replies, n, got, requests);
      GatherFromAgrees(size, replies, n + 1, got', requests');
    }
  }

  /** The step of GatherFromAgrees at which the loop stops. */
  lemma AgreesWhenStopping(size: nat, replies: seq<seq<byte>>, n: nat, got: seq<byte>, requests: seq<int>)
    requires n <= MaxChunks
    requires got == Received(replies, n) && requests == Requests(size, replies, n)
    requires |got + Chunk(replies, n)| >= size || n + 1 > MaxChunks
    ensures GatherFrom(size, replies, n, got, requests) == Described(size, replies, n + 1)
  {
    assert got + Chunk(replies, n) == Received(replies, n + 1);
    assert requests + [size - |got|] == Requests(size, replies, n + 1);
  }

  /** A step of GatherFromAgrees after which the loop goes on. */
  lemma AgreesWhenContinuing(size: nat, replies: seq<seq<byte>>, n: nat, got: seq<byte>, requests: seq<int>)
    requires n < MaxChunks
    requires got == Received(replies, n) && requests == Requests(size, replies, n)
    requires |got + Chunk(replies, n)| < size
    ensures got + Chunk(replies, n) == Received(replies, n + 1)
    ensures requests + [size - |got|] == Requests(size, replies, n + 1)
    ensures GatherFrom(size, replies, n, got, requests)
            == GatherFrom(size, replies, n + 1, got + Chunk(replies, n), requests + [size - |got|])
    ensures Described(size, replies, n + 1) == Described(size, replies, n + 2)
  {
  }

  /**
    The payload is the concatenation of the chunks up to the first read at
    which the accumulated length reaches the declared size; it is None
    exactly when even all MaxChunks + 1 reads together fall short.
  */
  lemma PayloadIsFirstCompletePrefix(size: nat, replies: seq<seq<byte>>)
    ensures Gather(size, replies).data == OutcomeAfter(size, replies, PayloadReads(size, replies))
    ensures Gather(size, replies).requests == Requests(size, replies, PayloadReads(size, replies))
    ensures Gather(size, replies).data.Some? ==> |Gather(size, replies).data.value| >= size
    ensures Gather(size, replies).data.None? <==> |Received(replies, MaxChunks + 1)| < size
  {
    var k := PayloadReads(size, replies);
    GatherFromAgrees(size, replies, 0, [], []);
    assert GatherFrom(size, replies, 0, [], []) == Described(size, replies, 1);
    assert Gather(size, replies) == GatherFrom(size, replies, 0, [], []);
    ReceivedGrows(replies, k, MaxChunks + 1);
  }

  /** Later reads only extend what earlier reads gathered. */
  lemma {:induction false} ReceivedGrows(replies: seq<seq<byte>>, m: nat, n: nat)
    requires m <= n
    ensures Received(replies, m) <= Received(replies, n)
  {
    if m < n {
      ReceivedGrows(replies, m, n - 1);
    }
  }

  /** Reads past the end of the oracle add nothing. */
  lemma {:induction false} ReceivedPastEnd(replies: seq<seq<byte>>, n: nat)
    requires n >= |replies|
    ensures Received(replies, n) == Received(replies, |replies|)
  {
    if n > |replies| {
      ReceivedPastEnd(replies, n - 1);
    }
  }

  /** No count before the one ReadsFrom stops at has reached the size. */
  lemma {:induction false} ReadsFromStopsFirst(size: nat, replies: seq<seq<byte>>, n: nat, m: nat)
    requires 1 <= n <= MaxChunks + 1
    requires n <= m < ReadsFrom(size, replies, n)
    ensures |Received(replies, m)| < size
    decreases m - n
  {
    if n < m {
      ReadsFromStopsFirst(size, replies, n + 1, m);
    }
  }

  lemma {:induction false} RequestsAt(size: nat, replies: seq<seq<byte>>, k: nat, n: nat)
    requires k < n
    ensures |Requests(size, replies, n)| == n
    ensures Requests(size, replies, n)[k] == Request(size, replies, k)
  {
    if k < n - 1 {
      RequestsAt(size, replies, k, n - 1);
    } else {
      RequestsLength(size, replies, n - 1);
    }
  }

  lemma {:induction false} RequestsLength(size: nat, replies: seq<seq<byte>>, n: nat)
    ensures |Requests(size, replies, n)| == n
  {
    if n > 0 {
      RequestsLength(size, replies, n - 1);
    }
  }

  /**
    The loop makes between 1 and MaxChunks + 1 reads; the k-th asks for
    exactly the declared size minus what the earlier reads gathered, which is
    never negative: the loop goes on only while it is short of the size.
  */
  lemma EachReadAsksForTheRest(size: nat, replies: seq<seq<byte>>, k: nat)
    requires k < |Gather(size, replies).requests|
    ensures 1 <= |Gather(size, replies).requests| <= MaxChunks + 1
    ensures Gather(size, replies).requests[k] == size - |Received(replies, k)| >= 0
  {
    PayloadIsFirstCompletePrefix(size, replies);
    var n := PayloadReads(size, replies);
    RequestsLength(size, replies, n);
    RequestsAt(size, replies, k, n);
    if k > 0 {
      ReadsFromStopsFirst(size, replies, 1, k);
    }
  }

  /** The channel kept its promise: no read returned more than it asked for. */
  ghost predicate ReadsWithinRequest(size: nat, replies: seq<seq<byte>>)
  {
    forall k :: 0 <= k < PayloadReads(size, replies) ==> |Chunk(replies, k)| <= Request(size, replies, k)
  }

  /** When no read returns more than it asked for, the payload has exactly the declared length. */
  lemma ExactLengthWithinRequest(size: nat, replies: seq<seq<byte>>)
    requires ReadsWithinRequest(size, replies)
    ensures Gather(size, replies).data.Some? ==> |Gather(size, replies).data.value| == size
  {
    PayloadIsFirstCompletePrefix(size, replies);
    var k := PayloadReads(size, replies);
    assert |Chunk(replies, k - 1)| <= Request(size, replies, k - 1);
  }

  /**
    A declared size of 0 completes after one read, of 0 bytes; if that read
    kept its request, the payload is empty.
  */
  lemma EmptyPayload(replies: seq<seq<byte>>)
    ensures Gather(0, replies).requests == [0]
    ensures Gather(0, replies).data == Some(Chunk(replies, 0))
    ensures ReadsWithinRequest(0, replies) ==> Gather(0, replies).data == Some([])
  {
    assert Received(replies, 1) == Chunk(replies, 0);
    assert PayloadReads(0, replies) == 1;
  }

  /** A channel with nothing to give. */
  lemma {:induction false} NothingReceived(replies: seq<seq<byte>>, n: nat)
    requires forall i :: 0 <= i < |replies| ==> replies[i] == []
    ensures Received(replies, n) == []
  {
    if n > 0 {
      NothingReceived(replies, n - 1);
    }
  }

  /** A channel at end-of-stream ends in None after MaxChunks + 1 reads, never in an endless loop. */
  lemma ClosedChannelGivesUp(size: nat, replies: seq<seq<byte>>)
    requires size > 0
    requires forall i :: 0 <= i < |replies| ==> replies[i] == []
    ensures Gather(size, replies).data == None
    ensures |Gather(size, replies).requests| == MaxChunks + 1
  {
    PayloadIsFirstCompletePrefix(size, replies);
    NothingReceived(replies, MaxChunks + 1);
    NothingReceived(replies, PayloadReads(size, replies));
    RequestsLength(size, replies, PayloadReads(size, replies));
  }

  /** The outcome of send_command_and_get_string_result on a well-formed transport. */
  datatype FrameResult =
    | BadHeader                    // struct.error: the header read returned other than 8 bytes
    | Incomplete                   // None: more than MaxChunks chunks without completing
    | Frame(payload: seq<byte>)    // ''.join(chunks)

  /** Decoding a response: the header gives the size, the payload loop gathers it. */
  function DecodeFrame(header: seq<byte>, replies: seq<seq<byte>>): (r: FrameResult)
    ensures r.BadHeader? <==> |header| != HeaderSize
  {
    match UnpackHeader(header)
    case None => BadHeader
    case Some(size) =>
      match Gather(size, replies).data
      case None => Incomplete
      case Some(p) => Frame(p)
  }

  /**
    A frame decodes only if the header is 8 bytes; its payload is at least
    the declared length; an incomplete one means every read together fell short.
  */
  lemma DecodeFrameOutcomes(header: seq<byte>, replies: seq<seq<byte>>)
    ensures DecodeFrame(header, replies).Frame? ==>
      |header| == HeaderSize && |DecodeFrame(header, replies).payload| >= BigEndian(header)
    ensures DecodeFrame(header, replies).Incomplete? <==>
      |header| == HeaderSize && |Received(replies, MaxChunks + 1)| < BigEndian(header)
  {
    if |header| == HeaderSize {
      PayloadIsFirstCompletePrefix(BigEndian(header), replies);
    }
  }

  /**
    Round trip: a payload sent behind its header and delivered in at most
    MaxChunks + 1 chunks, split anywhere, decodes to exactly that payload.
  */
  lemma FrameRoundTrip(payload: seq<byte>, replies: seq<seq<byte>>)
    requires |payload| < Pow256(HeaderSize)
    requires |replies| <= MaxChunks + 1
    requires Received(replies, |replies|) == payload
    ensures DecodeFrame(EncodeHeader(|payload|), replies) == Frame(payload)
  {
    HeaderRoundTrip(|payload|, EncodeHeader(|payload|));
    ReceivedPastEnd(replies, MaxChunks + 1);
    PayloadIsFirstCompletePrefix(|payload|, replies);
    ReceivedGrows(replies, PayloadReads(|payload|, replies), MaxChunks + 1);
  }

  /**
    send_command_and_get_string_result after the request is written: unpack
    the header, then run the payload loop. Returns the decoded frame and the
    sizes the payload reads asked for.
  */
  method ReceiveFrame(header: seq<byte>, replies: seq<seq<byte>>) returns (r: FrameResult, requests: seq<int>)
    ensures r == DecodeFrame(header, replies)
    ensures r.BadHeader? ==> requests == []
    ensures !r.BadHeader? ==> requests == Gather(BigEndian(header), replies).requests
  {
    var sizeInfo := UnpackHeader(header);
    if sizeInfo.None? {
      return BadHeader, [];
    }
    var payload;
    payload, requests := ReceivePayload(sizeInfo.value, replies);
    r := if payload.Some? then Frame(payload.value) else Incomplete;
  }

  /**
    The payload loop: read `size - accumulated` bytes, append, stop once the
    accumulated length reaches `size`, give up after more than MaxChunks chunks.
  */
  method ReceivePayload(size: nat, replies: seq<seq<byte>>) returns (r: Option<seq<byte>>, requests: seq<int>)
    ensures Gathered(r, requests) == Gather(size, replies)
  {
    // `appended` is len(chunks) and `got` is ''.join(chunks)
    var appended: nat := 0;
    var got: seq<byte> := [];
    requests := [];
    while true
      invariant appended <= MaxChunks
      invariant Gather(size, replies) == GatherFrom(size, replies, appended, got, requests)
      decreases MaxChunks - appended
    {
      var remaining := size - |got|;
      var data := Chunk(replies, appended);  // what reading `remaining` bytes returned
      ghost var rest := GatherFrom(size, replies, appended, got, requests);
      requests := requests + [remaining];
      got := got + data;
      appended := appended + 1;
      if |got| >= size {
        return Some(got), requests;
      }
      if appended > MaxChunks {
        return None, requests;
      }
      assert rest == GatherFrom(size, replies, appended, got, requests);
    }
  }
}
