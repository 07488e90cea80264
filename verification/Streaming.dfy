/** From the pipe to the client: the metered stream, the copy loop with its deadline, and the
    whole way of a remote file.

    Times are in milliseconds. */
module Streaming {
  import opened Wrappers
  import opened Clocks
  import opened Pieces

  const DOWNLOAD_TIMEOUT: nat := 180_000
  const BUFFER_SIZE: nat := 64 * 1024

  // ---- The reading end of the pipe --------------------------------------------------------------------

  datatype ReadError = Eof | Broken(how: Closing) | ReaderClosed

  /** The error a pipe reads as once it is empty. */
  function ErrorOf(closing: Closing): ReadError {
    if closing == Clean then Eof else Broken(closing)
  }

  /** `pending` is what the writer has put, or will put, into the pipe and is not yet read. */
  class PipeReader {
    var pending: seq<Byte>
    const closing: Closing
    var closes: nat

    constructor (pending: seq<Byte>, closing: Closing)
      ensures this.pending == pending && this.closing == closing && closes == 0
    {
      this.pending := pending;
      this.closing := closing;
      closes := 0;
    }

    /** As many bytes as the writer and the scheduler happen to offer, but never none. */
    method Read(max: nat) returns (chunk: seq<Byte>, error: Option<ReadError>)
      requires max > 0
      modifies this
      ensures closes == old(closes) && |chunk| <= max && old(pending) == chunk + pending
      ensures error == None <==> old(closes) == 0 && old(pending) != []
      ensures error == None <==> chunk != []
      ensures error != None && closes == 0 ==> error == Some(ErrorOf(closing))
    {
      chunk, error := [], None;
      if closes > 0 {
        error := Some(ReaderClosed);
      } else if pending == [] {
        error := Some(ErrorOf(closing));
      } else {
        var n :| 0 < n <= max && n <= |pending|;
        chunk := pending[..n];
        pending := pending[n..];
      }
    }

    method Close()
      modifies this
      ensures closes == old(closes) + 1 && pending == old(pending)
    {
      closes := closes + 1;
    }
  }

  // ---- The metered stream -----------------------------------------------------------------------------

  class Metrics {
    var bytes: nat
    var firstBytes: nat
    var durations: nat
    var activeStreams: int

    constructor ()
      ensures bytes == 0 && firstBytes == 0 && durations == 0 && activeStreams == 0
    {
      bytes, firstBytes, durations, activeStreams := 0, 0, 0, 0;
    }
  }

  class MeteredStream {
    const reader: PipeReader
    const metrics: Metrics?
    var ttfbObserved: bool
    var closed: bool

    constructor (reader: PipeReader, metrics: Metrics?)
      ensures this.reader == reader && this.metrics == metrics && !ttfbObserved && !closed
    {
      this.reader := reader;
      this.metrics := metrics;
      ttfbObserved := false;
      closed := false;
    }

    function Counters(): set<object> {
      if metrics == null then {} else {metrics}
    }

    /** Reads are passed on; their bytes are counted, and the first byte once. */
    method Read(max: nat) returns (chunk: seq<Byte>, error: Option<ReadError>)
      requires max > 0
      modifies this, reader, Counters()
      ensures closed == old(closed)
      ensures reader.closes == old(reader.closes) && |chunk| <= max && old(reader.pending) == chunk + reader.pending
      ensures error == None <==> old(reader.closes) == 0 && old(reader.pending) != []
      ensures error == None <==> chunk != []
      ensures error != None && reader.closes == 0 ==> error == Some(ErrorOf(reader.closing))
      ensures metrics != null ==>
                && metrics.bytes == old(metrics.bytes) + |chunk|
                && metrics.firstBytes == old(metrics.firstBytes) + (if chunk != [] && !old(ttfbObserved) then 1 else 0)
                && ttfbObserved == (old(ttfbObserved) || chunk != [])
                && metrics.durations == old(metrics.durations) && metrics.activeStreams == old(metrics.activeStreams)
    {
      chunk, error := reader.Read(max);
      if |chunk| > 0 && metrics != null {
        if !ttfbObserved {
          metrics.firstBytes := metrics.firstBytes + 1;
          ttfbObserved := true;
        }
        metrics.bytes := metrics.bytes + |chunk|;
      }
    }

    /** Only the first close closes. */
    method Close()
      modifies this, reader, Counters()
      ensures closed && reader.pending == old(reader.pending) && ttfbObserved == old(ttfbObserved)
      ensures reader.closes == old(reader.closes) + (if old(closed) then 0 else 1)
      ensures metrics != null ==>
                && metrics.activeStreams == old(metrics.activeStreams) - (if old(closed) then 0 else 1)
                && metrics.durations == old(metrics.durations) + (if old(closed) then 0 else 1)
                && metrics.bytes == old(metrics.bytes) && metrics.firstBytes == old(metrics.firstBytes)
    {
      if !closed {
        closed := true;
        reader.Close();
        if metrics != null {
          metrics.durations := metrics.durations + 1;
          metrics.activeStreams := metrics.activeStreams - 1;
        }
      }
    }
  }

  // ---- The copy loop ------------------------------------------------------------------------------------

  /** The response with its buffered writer: bytes are written to the buffer and leave it when
      it is full or flushed. Once bytes could not be sent the writer stays broken. */
  class Response {
    var contentLength: Option<nat>
    var sent: seq<Byte>
    var buffered: seq<Byte>
    var broken: bool

    constructor ()
      ensures contentLength == None && sent == [] && buffered == [] && !broken
    {
      contentLength := None;
      sent, buffered := [], [];
      broken := false;
    }

    /** Any part of what is waiting may be sent on the way. */
    method Write(chunk: seq<Byte>) returns (ok: bool)
      requires !broken
      modifies this
      ensures contentLength == old(contentLength) && old(sent) <= sent
      ensures sent + buffered == old(sent + buffered) + chunk
      ensures ok <==> !broken
    {
      var waiting := buffered + chunk;
      var n :| 0 <= n <= |waiting|;
      assert sent + waiting == sent + buffered + chunk;
      assert sent + waiting[..n] + waiting[n..] == sent + waiting;
      sent, buffered := sent + waiting[..n], waiting[n..];
      ok :| ok in {true, false};
      broken := !ok;
    }

    /** Its error is reported to nobody who looks. */
    method Flush()
      modifies this
      ensures contentLength == old(contentLength)
      ensures old(broken) ==> broken
      ensures old(sent) <= sent <= old(sent + buffered)
      ensures !broken ==> sent == old(sent + buffered) && buffered == []
    {
      if !broken {
        var n :| 0 <= n <= |buffered|;
        assert sent + buffered[..n] == (sent + buffered)[..|sent| + n];
        broken := n < |buffered|;
        sent, buffered := sent + buffered[..n], buffered[n..];
      }
    }
  }

  datatype Stop = DeadlinePassed | ClientGone | Ended(error: ReadError)

  /** The readings of the clock during a copy, which may take three minutes: one at the start, then one before each turn; when
      the time is over at a reading there is no such turn. */
  ghost predicate InTime(seen: seq<nat>, late: bool, bytes: int) {
    && |seen| > 1
    && (forall i | 0 < i < |seen| - 1 :: seen[i] <= seen[0] + 180_000)
    && (late <==> seen[0] + 180_000 < seen[|seen| - 1])
    && bytes <= 65_536 * (if late then |seen| - 2 else |seen| - 1)
  }

  lemma InTimeWhen(start: nat, turns: seq<nat>, last: seq<nat>, late: bool, bytes: int)
    requires forall i | 0 <= i < |turns| :: turns[i] <= start + DOWNLOAD_TIMEOUT
    requires if late then |last| == 1 && start + DOWNLOAD_TIMEOUT < last[0] else last == [] && turns != []
    requires bytes <= BUFFER_SIZE * |turns|
    ensures InTime([start] + turns + last, late, bytes)
  {
  }

  /** One turn of the loop: a read, and a write of what it gave. */
  method CopyChunk(stream: MeteredStream, response: Response) returns (stop: Option<Stop>)
    requires stream.reader.closes == 0 && !stream.closed && !response.broken
    modifies stream, stream.reader, stream.Counters(), response
    ensures stream.reader.closes == 0 && !stream.closed && response.contentLength == old(response.contentLength)
    ensures response.sent + response.buffered + stream.reader.pending
            == old(response.sent + response.buffered + stream.reader.pending)
    ensures 0 <= old(|stream.reader.pending|) - |stream.reader.pending| <= BUFFER_SIZE
    ensures match stop
            case None => !response.broken && |stream.reader.pending| < old(|stream.reader.pending|)
            case Some(DeadlinePassed) => false
            case Some(ClientGone) => response.broken
            case Some(Ended(error)) =>
              !response.broken && error == ErrorOf(stream.reader.closing) && stream.reader.pending == []
    ensures stream.metrics != null ==>
              && stream.metrics.bytes == old(stream.metrics.bytes + |stream.reader.pending|) - |stream.reader.pending|
              && stream.metrics.activeStreams == old(stream.metrics.activeStreams)
              && stream.metrics.durations == old(stream.metrics.durations)
  {
    stop := None;
    ghost var before, content := response.sent + response.buffered, stream.reader.pending;
    var chunk, error := stream.Read(BUFFER_SIZE);
    if chunk != [] {
      var ok := response.Write(chunk);
      assert before + content == before + chunk + stream.reader.pending;
      if !ok {
        return Some(ClientGone);
      }
    }
    if error != None {
      stop := Some(Ended(error.value));
    }
  }

  /** The loop: turns until the stream ends, the client is gone or the time is over. */
  method CopyAll(clock: Clock, start: nat, stream: MeteredStream, response: Response) returns (stop: Stop)
    requires stream.reader.closes == 0 && !stream.closed && !response.broken && start <= clock.time
    modifies clock, stream, stream.reader, stream.Counters(), response
    ensures stream.reader.closes == 0 && !stream.closed && response.contentLength == old(response.contentLength)
    ensures response.sent + response.buffered + stream.reader.pending
            == old(response.sent + response.buffered + stream.reader.pending)
    ensures stop.Ended? ==> !response.broken && stop.error == ErrorOf(stream.reader.closing) && stream.reader.pending == []
    ensures stop.ClientGone? ==> response.broken
    ensures stop.DeadlinePassed? ==> !response.broken && start + DOWNLOAD_TIMEOUT < clock.time
    ensures stream.metrics != null ==>
              && stream.metrics.bytes == old(stream.metrics.bytes + |stream.reader.pending|) - |stream.reader.pending|
              && stream.metrics.activeStreams == old(stream.metrics.activeStreams)
              && stream.metrics.durations == old(stream.metrics.durations)
    ensures old(clock.readings) <= clock.readings
    ensures InTime([start] + clock.readings[|old(clock.readings)|..], stop.DeadlinePassed?,
                   |old(stream.reader.pending)| - |stream.reader.pending|)
  {
    var deadline := start + DOWNLOAD_TIMEOUT;
    ghost var content, turns: seq<nat>, last: seq<nat> := stream.reader.pending, [], [];
    while true
      invariant response.sent + response.buffered + stream.reader.pending
                == old(response.sent + response.buffered + stream.reader.pending)
      invariant response.contentLength == old(response.contentLength) && start <= clock.time
      invariant stream.reader.closes == 0 && !stream.closed && !response.broken
      invariant stream.metrics != null ==>
                  && stream.metrics.bytes == old(stream.metrics.bytes + |stream.reader.pending|) - |stream.reader.pending|
                  && stream.metrics.activeStreams == old(stream.metrics.activeStreams)
                  && stream.metrics.durations == old(stream.metrics.durations)
      invariant clock.readings == old(clock.readings) + turns && forall i | 0 <= i < |turns| :: turns[i] <= deadline
      invariant |content| - |stream.reader.pending| <= BUFFER_SIZE * |turns|
      decreases |stream.reader.pending|
    {
      var now := clock.Now();
      if now > deadline {
        stop, last := DeadlinePassed, [now];
        break;
      }
      turns := turns + [now];
      var stopped := CopyChunk(stream, response);
      if stopped.Some? {
        stop := stopped.value;
        break;
      }
    }
    InTimeWhen(start, turns, last, stop.DeadlinePassed?, |content| - |stream.reader.pending|);
    assert clock.readings[|old(clock.readings)|..] == turns + last;
    assert [start] + (turns + last) == [start] + turns + last;
  }

  /** Copies the stream to the response until it ends, the client is gone or the time is over;
      then the response is flushed and the stream closed. Whatever the chunks were, the client
      gets the stream's content or a beginning of it: all that was read when the last flush sent
      what was left, and the whole of it when the stream ended besides. The clock is read at the
      start and before each turn; a turn reads at most a buffer, and only while the time is not
      over. */
  method StreamWithDeadline(clock: Clock, stream: MeteredStream, size: int, response: Response) returns (stop: Stop)
    requires response.sent == [] && response.buffered == [] && !response.broken
    requires stream.reader.closes == 0 && !stream.closed
    modifies clock, stream, stream.reader, stream.Counters(), response
    ensures response.contentLength == if size >= 0 then Some(size) else old(response.contentLength)
    ensures response.sent <= old(stream.reader.pending)
    ensures !response.broken ==> old(stream.reader.pending) == response.sent + stream.reader.pending
    ensures old(clock.readings) <= clock.readings
    ensures InTime(clock.readings[|old(clock.readings)|..], stop.DeadlinePassed?,
                   |old(stream.reader.pending)| - |stream.reader.pending|)
    ensures stop.Ended? ==> stop.error == ErrorOf(stream.reader.closing) && stream.reader.pending == []
    ensures stop.Ended? && !response.broken ==> response.sent == old(stream.reader.pending)
    ensures stop.DeadlinePassed? ==> old(clock.time) + DOWNLOAD_TIMEOUT < clock.time
    ensures stop.ClientGone? ==> response.broken
    ensures stream.closed && stream.reader.closes == 1
    ensures stream.metrics != null ==>
              && |response.sent| <= stream.metrics.bytes - old(stream.metrics.bytes)
              && (!response.broken ==> stream.metrics.bytes == old(stream.metrics.bytes) + |response.sent|)
              && (stop.Ended? ==> stream.metrics.bytes == old(stream.metrics.bytes) + |old(stream.reader.pending)|)
              && stream.metrics.activeStreams == old(stream.metrics.activeStreams) - 1
              && stream.metrics.durations == old(stream.metrics.durations) + 1
  {
    var start := clock.Now();
    if size >= 0 {
      response.contentLength := Some(size);
    }
    ghost var content, seen := stream.reader.pending, clock.readings;
    stop := CopyAll(clock, start, stream, response);
    assert [] + content == content;
    assert clock.readings[|old(clock.readings)|..] == [start] + clock.readings[|seen|..];
    response.Flush();
    stream.Close();
  }

  // ---- A remote file, from its pieces to the client ---------------------------------------------------------

  /** `StreamFile`: the writer at work, and the stream that reads what it writes. The pipe hands
      every byte over when it is written, so the bytes the reader takes are the fates of the
      pieces; running the writer first loses no run. */
  method StreamFile(c: Content, f: FileInfo, fates: seq<Fate>, metrics: Metrics?) returns (stream: MeteredStream)
    requires Located(c, f) && f.toPiece < PIECE_NUMBERS - 1 && Possible(c, f, fates)
    modifies if metrics == null then {} else {metrics}
    ensures fresh(stream) && fresh(stream.reader) && stream.metrics == metrics
    ensures !stream.closed && stream.reader.closes == 0
    ensures stream.reader.pending <= File(c, f)
    ensures stream.reader.closing == Clean ==> stream.reader.pending == File(c, f)
    ensures AllTaken(fates) <==> stream.reader.closing == Clean
    ensures !AllTaken(fates) ==>
              exists turns :: StoppedAt(c, f, fates, turns, |stream.reader.pending|, stream.reader.closing)
    ensures metrics != null ==>
              metrics.activeStreams == old(metrics.activeStreams) + 1 && metrics.bytes == old(metrics.bytes)
  {
    if metrics != null {
      metrics.activeStreams := metrics.activeStreams + 1;
    }
    var pipe := new Pipe();
    ghost var turns := WritePieces(c, f, fates, pipe);
    OutcomeIsBeginning(c, f, fates, turns, pipe.written, pipe.closing);
    if !AllTaken(fates) {
      OutcomeStops(c, f, fates, turns, pipe.written, pipe.closing);
    }
    var reader := new PipeReader(pipe.written, pipe.closing.value);
    stream := new MeteredStream(reader, metrics);
  }

  /** For every piece size, file range, chunking and fault: the client gets a beginning of the
      file's bytes; it gets all of them, as many as were announced, when the stream ends with
      the end of the file and the last flush does not fail. A stream that ends does so with the
      end of the file exactly when every piece came and was taken.
      The gauge of active streams comes back to where it was. */
  method ServeRemoteFile(clock: Clock, c: Content, f: FileInfo, fates: seq<Fate>, metrics: Metrics?, response: Response)
    returns (stop: Stop)
    requires Located(c, f) && f.toPiece < PIECE_NUMBERS - 1 && Possible(c, f, fates)
    requires response.sent == [] && response.buffered == [] && !response.broken
    modifies clock, response, if metrics == null then {} else {metrics}
    ensures response.contentLength == Some(f.size)
    ensures response.sent <= File(c, f)
    ensures stop == Ended(Eof) && !response.broken ==> response.sent == File(c, f) && |response.sent| == f.size
    ensures stop.Ended? ==> (stop == Ended(Eof) <==> AllTaken(fates))
    ensures stop.Ended? && !AllTaken(fates) ==>
              exists turns, bytes, why :: StoppedAt(c, f, fates, turns, bytes, why) && stop == Ended(Broken(why))
                                          && (!response.broken ==> |response.sent| == bytes)
    ensures stop.DeadlinePassed? ==> old(clock.time) + DOWNLOAD_TIMEOUT < clock.time
    ensures stop.ClientGone? ==> response.broken
    ensures metrics != null ==>
              && metrics.activeStreams == old(metrics.activeStreams)
              && (stop == Ended(Eof) ==> metrics.bytes == old(metrics.bytes) + f.size)
  {
    var stream := StreamFile(c, f, fates, metrics);
    ghost var bytes, why := |stream.reader.pending|, stream.reader.closing;
    stop := StreamWithDeadline(clock, stream, f.size, response);
    if stop.Ended? && !AllTaken(fates) {
      ghost var turns :| StoppedAt(c, f, fates, turns, bytes, why);
    }
  }
}
