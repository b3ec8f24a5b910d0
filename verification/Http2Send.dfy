/**
 * The send side of an HTTP/2 stream: body data waits in a queue until the HTTP/2 library asks for it. The library
 * is an environment that reads and sends when it likes, but does not read a stream that is deferred or has ended,
 * and sends the frame it has read before it reads the next.
 */
module Http2Send {
  import opened Chars
  import opened HeaderNames

  /** What `onDataSourceRead` tells the library. */
  datatype ReadResult = Deferred | Frame(size: nat, eof: bool, noEndStream: bool)

  function Min(a: nat, b: nat): nat { if a <= b then a else b }

  class StreamImpl {
    var queue: string                       // pending_send_data_
    var localEndStream: bool
    var dataDeferred: bool
    var pendingTrailers: Option<seq<Header>>
    // What the library has been given.
    var payload: string                     // the bytes of all DATA frames
    var submitted: seq<seq<Header>>         // trailers handed over
    var frame: Option<nat>                  // size of a frame read and not yet sent
    var eof: bool                           // EOF has been flagged
    // What the stream was asked to send.
    ghost var encoded: string
    ghost var trailers: seq<seq<Header>>

    ghost predicate Valid()
      reads this
    {
      && payload + queue == encoded
      && (dataDeferred ==> queue == "" && pendingTrailers.None?)
      && (frame.Some? ==> frame.value <= |queue| && !dataDeferred)
      && (eof ==> localEndStream && (if frame.Some? then frame.value == |queue| else queue == ""))
      && (pendingTrailers.Some? ==> localEndStream && !eof)
      && (!localEndStream ==> trailers == [] && submitted == [])
      && submitted + (if pendingTrailers.Some? then [pendingTrailers.value] else []) == trailers && |trailers| <= 1
    }

    constructor ()
      ensures Valid() && encoded == "" && trailers == [] && payload == "" && !localEndStream && !eof && !dataDeferred
      ensures frame.None?
    {
      queue, localEndStream, dataDeferred, pendingTrailers := "", false, false, None;
      payload, submitted, frame, eof, encoded, trailers := "", [], None, false, "", [];
    }

    /** `encodeData`: the data joins the queue, and a deferred stream is resumed. */
    method EncodeData(data: string, end: bool)
      requires Valid() && !localEndStream
      modifies this`queue, this`localEndStream, this`dataDeferred, this`encoded
      ensures Valid() && queue == old(queue) + data && encoded == old(encoded) + data && localEndStream == end
      ensures !dataDeferred
    {
      localEndStream := end;
      assert payload + (queue + data) == payload + queue + data;
      queue, encoded := queue + data, encoded + data;
      if dataDeferred { dataDeferred := false; }
    }

    /** `encodeTrailers`: kept back behind queued data, else handed over at once. */
    method EncodeTrailers(t: seq<Header>)
      requires Valid() && !localEndStream
      modifies this`localEndStream, this`pendingTrailers, this`submitted, this`trailers
      ensures Valid() && localEndStream && trailers == [t]
      ensures submitted == (if queue != "" then [] else [t]) && pendingTrailers == if queue != "" then Some(t) else None
    {
      localEndStream, trailers := true, [t];
      if |queue| > 0 { pendingTrailers := Some(t); } else { submitted := submitted + [t]; }
    }

    /**
     * `onDataSourceRead`. An empty queue defers the stream until it ends. EOF is flagged exactly on the frame that
     * takes all that is left after the local end, and with it trailers kept back are handed over.
     */
    method OnDataSourceRead(length: nat) returns (r: ReadResult)
      requires Valid() && !dataDeferred && !eof && frame.None?
      modifies this`dataDeferred, this`submitted, this`pendingTrailers, this`frame, this`eof
      ensures Valid()
      ensures r.Deferred? <==> queue == "" && !localEndStream
      ensures dataDeferred == r.Deferred?
      ensures r.Frame? ==>
                && r.size == (if length <= |queue| then length else |queue|) && frame == Some(r.size)
                && (r.eof <==> localEndStream && r.size == |queue|) && eof == r.eof
                && (r.noEndStream <==> r.eof && old(pendingTrailers).Some?)
      ensures var now := r.Frame? && r.eof && old(pendingTrailers).Some?;
              && submitted == old(submitted) + (if now then [old(pendingTrailers).value] else [])
              && pendingTrailers == if now then None else old(pendingTrailers)
    {
      if |queue| == 0 && !localEndStream {
        dataDeferred := true;
        return Deferred;
      }
      var last := localEndStream && |queue| <= length;
      var more := false;
      if last && pendingTrailers.Some? {
        more := true;
        submitted := submitted + [pendingTrailers.value];
        pendingTrailers := None;
      }
      eof := last;
      frame := Some(Min(length, |queue|));
      return Frame(Min(length, |queue|), last, more);
    }

    /** `onDataSourceSend`: the bytes of the frame leave the front of the queue. */
    method OnDataSourceSend()
      requires Valid() && frame.Some?
      modifies this`queue, this`payload, this`frame
      ensures Valid() && frame.None?
      ensures payload == old(payload) + old(queue)[..old(frame).value] && queue == old(queue)[old(frame).value..]
    {
      var n := frame.value;
      assert payload + queue[..n] + queue[n..] == payload + queue;
      payload, queue := payload + queue[..n], queue[n..];
      frame := None;
    }
  }

  // ---------------------------------------------------------------- every interleaving

  datatype Step = Data(bytes: string, end: bool) | Trailers(headers: seq<Header>) | Read(length: nat) | Send

  /** What caller and library may do next. */
  predicate Enabled(s: StreamImpl, step: Step)
    reads s
  {
    match step
    case Data(_, _) => !s.localEndStream
    case Trailers(_) => !s.localEndStream
    case Read(_) => !s.dataDeferred && !s.eof && s.frame.None?
    case Send => s.frame.Some?
  }

  /** All the data of a sequence of steps. */
  function DataOf(steps: seq<Step>): string {
    if steps == [] then ""
    else DataOf(steps[..|steps| - 1]) + if steps[|steps| - 1].Data? then steps[|steps| - 1].bytes else ""
  }

  /** The trailers of a sequence of steps. */
  function TrailersOf(steps: seq<Step>): seq<seq<Header>> {
    if steps == [] then []
    else TrailersOf(steps[..|steps| - 1]) + if steps[|steps| - 1].Trailers? then [steps[|steps| - 1].headers] else []
  }

  lemma {:induction false} StepsSnoc(steps: seq<Step>, i: nat)
    requires i < |steps|
    ensures DataOf(steps[..i + 1]) == DataOf(steps[..i]) + if steps[i].Data? then steps[i].bytes else ""
    ensures TrailersOf(steps[..i + 1]) == TrailersOf(steps[..i]) + if steps[i].Trailers? then [steps[i].headers] else []
  {
    assert steps[..i + 1][..i] == steps[..i];
  }

  /** One step of caller or library. */
  method Take(s: StreamImpl, step: Step)
    requires s.Valid() && Enabled(s, step)
    modifies s
    ensures s.Valid()
    ensures s.encoded == old(s.encoded) + if step.Data? then step.bytes else ""
    ensures s.trailers == old(s.trailers) + if step.Trailers? then [step.headers] else []
  {
    match step
    case Data(bytes, end) => s.EncodeData(bytes, end);
    case Trailers(headers) => s.EncodeTrailers(headers);
    case Read(length) => var r := s.OnDataSourceRead(length);
    case Send => s.OnDataSourceSend();
  }

  /**
   * Every interleaving, up to the first step that cannot happen: the payload sent and the queue are the data
   * encoded, a deferred stream has an empty queue, EOF is flagged only after the local end and for the frame that
   * empties the queue, and once that frame is out everything has been sent and every trailer handed over, once.
   */
  method Interleave(steps: seq<Step>) returns (s: StreamImpl, taken: nat)
    ensures fresh(s) && s.Valid() && taken <= |steps| && (taken < |steps| ==> !Enabled(s, steps[taken]))
    ensures s.payload + s.queue == DataOf(steps[..taken])
    ensures s.dataDeferred ==> s.queue == ""
    ensures s.eof ==> s.localEndStream && s.pendingTrailers.None? && s.submitted == TrailersOf(steps[..taken])
    ensures s.eof && s.frame.None? ==> s.payload == DataOf(steps[..taken])
    ensures |s.submitted| <= 1
  {
    s := new StreamImpl();
    taken := 0;
    while taken < |steps| && Enabled(s, steps[taken])
      invariant 0 <= taken <= |steps| && s.Valid() && fresh(s)
      invariant s.encoded == DataOf(steps[..taken]) && s.trailers == TrailersOf(steps[..taken])
    {
      StepsSnoc(steps, taken);
      Take(s, steps[taken]);
      taken := taken + 1;
    }
    assert s.payload + "" == s.payload && s.submitted + [] == s.submitted;
  }
}
