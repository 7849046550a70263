/**
 * The Noise transport stream: a resumable reader and writer of sealed frames
 * over an inner stream that may accept or supply any part of what it is asked
 * for, be not ready, or fail, at every call.
 */
module Noise {
  import opened Basics
  import opened Frames

  datatype ReadEvent = ReadPending | ReadFailed | Bytes(data: seq<byte>)

  datatype WriteEvent = WritePending | WriteFailed | Wrote(n: nat)

  /** The last answer given since `before` was `e`. */
  ghost predicate LastIs<T(!new)>(before: seq<T>, after: seq<T>, e: T) {
    |before| < |after| && before <= after && after[|after| - 1] == e
  }

  /** The inner stream. Its two schedules decide, call by call, how much moves; every behaviour is some schedule. */
  class Inner {
    var unread: seq<byte>
    var ended: bool
    var readSchedule: seq<nat>
    var written: seq<byte>
    var writeSchedule: seq<nat>
    ghost var consumed: seq<byte>
    /** What it answered so far. */
    ghost var readLog: seq<ReadEvent>
    ghost var writeLog: seq<WriteEvent>
    /** Its answers to being flushed (false) or closed (true). */
    ghost var settled: seq<(bool, DrainEvent)>

    constructor (unread: seq<byte>, ended: bool, readSchedule: seq<nat>, writeSchedule: seq<nat>)
      ensures this.unread == unread && this.ended == ended && written == [] && consumed == []
      ensures this.readSchedule == readSchedule && this.writeSchedule == writeSchedule
    {
      this.unread, this.ended, this.readSchedule, this.writeSchedule := unread, ended, readSchedule, writeSchedule;
      written, consumed, readLog, writeLog, settled := [], [], [], [], [];
    }

    predicate AtEnd()
      reads this
    {
      unread == [] && ended
    }

    /** Reads fail no more, and wait only for the peer. */
    predicate ReadsEagerly()
      reads this
    {
      readSchedule == []
    }

    predicate Dry()
      reads this
    {
      unread == [] && !ended
    }

    /** Writes take everything from here on. */
    predicate WritesEagerly()
      reads this
    {
      writeSchedule == []
    }

    /** The next write fails, and that one only. */
    predicate FailsOnce()
      reads this
    {
      writeSchedule == [1]
    }

    /** The peer's bytes keep coming until it ends the stream. */
    method Arrive(more: seq<byte>, last: bool)
      requires !ended
      modifies this`unread, this`ended
      ensures unread == old(unread) + more && ended == last
    {
      unread, ended := unread + more, last;
    }

    method PollRead(room: nat) returns (r: ReadEvent)
      modifies this`unread, this`readSchedule, this`readLog, this`consumed
      ensures !r.Bytes? ==> unread == old(unread) && consumed == old(consumed)
      ensures r.Bytes? ==> |r.data| <= room && old(unread) == r.data + unread && consumed == old(consumed) + r.data
      ensures consumed + unread == old(consumed + unread)
      ensures r.Bytes? && r.data == [] && room > 0 ==> AtEnd()
      ensures readLog == old(readLog) + [r]
      ensures old(ReadsEagerly()) ==> ReadsEagerly() && !r.ReadFailed? && (r.ReadPending? ==> Dry())
    {
      var turn := 2 + |unread|;
      if readSchedule != [] {
        turn, readSchedule := readSchedule[0], readSchedule[1..];
      }
      if turn == 0 || (unread == [] && !ended) {
        readLog := readLog + [ReadPending];
        return ReadPending;
      }
      if turn == 1 {
        readLog := readLog + [ReadFailed];
        return ReadFailed;
      }
      var n := if turn - 1 < |unread| then turn - 1 else |unread|;
      n := if n < room then n else room;
      var data := unread[..n];
      SplitAt(unread, 0, n);
      unread := unread[n..];
      Assoc(consumed, data, unread);
      consumed := consumed + data;
      readLog := readLog + [Bytes(data)];
      r := Bytes(data);
    }

    method PollWrite(data: seq<byte>) returns (r: WriteEvent)
      modifies this`written, this`writeSchedule, this`writeLog
      ensures r.Wrote? ==> r.n <= |data| && written == old(written) + data[..r.n]
      ensures !r.Wrote? ==> written == old(written)
      ensures writeLog == old(writeLog) + [r]
      ensures old(WritesEagerly()) ==> WritesEagerly() && r == Wrote(|data|)
      ensures old(FailsOnce()) ==> WritesEagerly() && r.WriteFailed?
    {
      var turn := 2 + |data|;
      if writeSchedule != [] {
        turn, writeSchedule := writeSchedule[0], writeSchedule[1..];
      }
      if turn == 0 {
        writeLog := writeLog + [WritePending];
        return WritePending;
      }
      if turn == 1 {
        writeLog := writeLog + [WriteFailed];
        return WriteFailed;
      }
      var n := if turn - 2 < |data| then turn - 2 else |data|;
      written := written + data[..n];
      writeLog := writeLog + [Wrote(n)];
      r := Wrote(n);
    }

    /** Flushing or closing the inner stream: it moves nothing, and may not be ready or may fail. */
    method PollSettle(close: bool) returns (r: DrainEvent)
      modifies this`writeSchedule, this`settled
      ensures old(WritesEagerly()) ==> WritesEagerly() && r.Drained?
      ensures settled == old(settled) + [(close, r)]
    {
      var turn := 2;
      if writeSchedule != [] {
        turn, writeSchedule := writeSchedule[0], writeSchedule[1..];
      }
      r := if turn == 0 then DrainPending else if turn == 1 then DrainFailed else Drained;
      settled := settled + [(close, r)];
    }
  }

  /** Overwrites part of a buffer. */
  method CopyInto(dst: array<byte>, at: nat, data: seq<byte>)
    requires at + |data| <= dst.Length
    modifies dst
    ensures dst[..] == old(dst[..at]) + data + old(dst[at + |data|..])
    ensures dst[..at + |data|] == old(dst[..at]) + data
  {
    forall i | 0 <= i < |data| {
      dst[at + i] := data[i];
    }
  }

  datatype FrameEvent = FramePending | FrameFailed | CleanEnd | Truncated | Got(len: nat)

  /** Not being ready, failing and ending are reported only as the inner stream's own last answer. */
  ghost predicate Honest(r: FrameEvent, before: seq<ReadEvent>, after: seq<ReadEvent>) {
    && (r.FramePending? ==> LastIs(before, after, ReadPending))
    && (r.FrameFailed? ==> LastIs(before, after, ReadFailed))
    && (r.CleanEnd? || r.Truncated? ==> LastIs(before, after, Bytes([])))
  }

  lemma HonestFrom(r: FrameEvent, start: seq<ReadEvent>, before: seq<ReadEvent>, after: seq<ReadEvent>)
    requires start <= before <= after && Honest(r, before, after)
    ensures Honest(r, start, after)
  {
  }

  /** Collects one frame across however many reads it takes; the body buffer is reused for every frame. */
  class FrameReader {
    const lenBuf: array<byte>
    var lenFilled: nat
    var haveLen: bool
    const bodyBuf: array<byte>
    var bodyLen: nat
    var bodyFilled: nat
    /** The frames completed so far. */
    ghost var frames: seq<seq<byte>>

    constructor ()
      ensures Valid() && frames == [] && Partial() == []
      ensures fresh(lenBuf) && fresh(bodyBuf)
    {
      lenBuf := new byte[2](_ => 0);
      bodyBuf := new byte[MAX_MESSAGE](_ => 0);
      lenFilled, haveLen, bodyLen, bodyFilled, frames := 0, false, 0, 0, [];
    }

    ghost predicate Valid()
      reads this, lenBuf, bodyBuf
    {
      && lenBuf.Length == 2 && bodyBuf.Length == MAX_MESSAGE && lenBuf != bodyBuf
      && Fits(frames) && bodyLen <= MAX_MESSAGE
      && if haveLen then lenFilled == 2 && bodyLen == FromU16(lenBuf[..]) && bodyFilled <= bodyLen else lenFilled <= 2
    }

    /** What has been read of a frame that is not complete. */
    ghost function Partial(): seq<byte>
      requires Valid()
      reads this, lenBuf, bodyBuf
    {
      if haveLen then lenBuf[..] + bodyBuf[..bodyFilled] else lenBuf[..lenFilled]
    }

    ghost predicate InStep(inner: Inner)
      requires Valid()
      reads this, lenBuf, bodyBuf, inner`consumed
    {
      inner.consumed == Wire(frames) + Partial()
    }

    /** Between calls a frame is never left complete. */
    ghost predicate AtRest()
      reads this
    {
      if haveLen then bodyFilled < bodyLen else lenFilled < 2
    }

    /** An eager inner stream leaves a frame unfinished only when it has run dry or ended. */
    predicate Prompt(r: FrameEvent, inner: Inner)
      reads inner
    {
      inner.ReadsEagerly() && !r.FrameFailed? && (r.FramePending? ==> inner.Dry())
    }

    /** Fills the two length bytes. */
    method FillLen(inner: Inner) returns (r: FrameEvent)
      requires Valid() && !haveLen && InStep(inner)
      modifies this`lenFilled, lenBuf, inner`unread, inner`readSchedule, inner`readLog, inner`consumed
      ensures Valid() && InStep(inner)
      ensures r.Got? ==> lenFilled == 2
      ensures !r.Got? ==> lenFilled < 2
      ensures r.CleanEnd? ==> inner.AtEnd() && lenFilled == 0
      ensures r.Truncated? ==> inner.AtEnd() && lenFilled == 1
      ensures old(inner.ReadsEagerly()) ==> Prompt(r, inner)
      ensures old(inner.readLog) <= inner.readLog && Honest(r, old(inner.readLog), inner.readLog)
      ensures inner.consumed + inner.unread == old(inner.consumed + inner.unread)
      ensures |inner.unread| + lenFilled == |old(inner.unread)| + old(lenFilled)
    {
      hide Wire, Fits, FromU16;
      while lenFilled < 2
        invariant Valid() && InStep(inner) && old(inner.readLog) <= inner.readLog
        invariant old(inner.ReadsEagerly()) ==> inner.ReadsEagerly()
        invariant |inner.unread| + lenFilled == |old(inner.unread)| + old(lenFilled)
        invariant inner.consumed + inner.unread == old(inner.consumed + inner.unread)
        decreases 2 - lenFilled
      {
        ghost var before := Partial();
        var event := inner.PollRead(2 - lenFilled);
        match event {
          case ReadPending => return FramePending;
          case ReadFailed => return FrameFailed;
          case Bytes(data) =>
            if data == [] {
              return if lenFilled == 0 then CleanEnd else Truncated;
            }
            CopyInto(lenBuf, lenFilled, data);
            lenFilled := lenFilled + |data|;
            Assoc(Wire(frames), before, data);
        }
      }
      return Got(2);
    }

    method FillBody(inner: Inner) returns (r: FrameEvent)
      requires Valid() && haveLen && InStep(inner)
      modifies this`bodyFilled, bodyBuf, inner`unread, inner`readSchedule, inner`readLog, inner`consumed
      ensures Valid() && InStep(inner)
      ensures r.Got? ==> bodyFilled == bodyLen
      ensures !r.Got? ==> bodyFilled < bodyLen && !r.CleanEnd?
      ensures r.Truncated? ==> inner.AtEnd()
      ensures old(inner.ReadsEagerly()) ==> Prompt(r, inner)
      ensures old(inner.readLog) <= inner.readLog && Honest(r, old(inner.readLog), inner.readLog)
      ensures inner.consumed + inner.unread == old(inner.consumed + inner.unread)
      ensures |inner.unread| + bodyFilled == |old(inner.unread)| + old(bodyFilled)
    {
      hide Wire, Fits, FromU16;
      ghost var header := lenBuf[..];
      ghost var before := Wire(frames) + header;
      Assoc(Wire(frames), header, bodyBuf[..bodyFilled]);
      while bodyFilled < bodyLen
        invariant old(inner.readLog) <= inner.readLog && (old(inner.ReadsEagerly()) ==> inner.ReadsEagerly())
        invariant bodyFilled <= bodyLen && inner.consumed == before + bodyBuf[..bodyFilled]
        invariant inner.consumed + inner.unread == old(inner.consumed + inner.unread)
        invariant |inner.unread| + bodyFilled == |old(inner.unread)| + old(bodyFilled)
        decreases bodyLen - bodyFilled
      {
        ghost var body := bodyBuf[..bodyFilled];
        var event := inner.PollRead(bodyLen - bodyFilled);
        if event.ReadPending? {
          r := FramePending;
          break;
        }
        if event.ReadFailed? {
          r := FrameFailed;
          break;
        }
        if event.data == [] {
          r := Truncated;
          break;
        }
        CopyInto(bodyBuf, bodyFilled, event.data);
        bodyFilled := bodyFilled + |event.data|;
        Assoc(before, body, event.data);
      }
      assert lenBuf[..] == header;
      Assoc(Wire(frames), header, bodyBuf[..bodyFilled]);
      if bodyFilled == bodyLen {
        r := Got(bodyLen);
      }
    }

    /**
     * Drives the inner stream until one more frame is complete. Whatever the
     * outcome, every byte consumed is in the completed frames or in the partial
     * one, so the next call resumes where this one stopped.
     */
    method PollFrame(inner: Inner) returns (r: FrameEvent)
      requires Valid() && AtRest() && InStep(inner)
      modifies this, lenBuf, bodyBuf, inner`unread, inner`readSchedule, inner`readLog, inner`consumed
      ensures Valid() && AtRest() && InStep(inner)
      ensures r.Got? ==> r.len <= MAX_MESSAGE && frames == old(frames) + [bodyBuf[..r.len]] && Partial() == []
      ensures r.Got? ==> |inner.unread| < |old(inner.unread)|
      ensures !r.Got? ==> frames == old(frames)
      ensures r.CleanEnd? ==> inner.AtEnd() && Partial() == []
      ensures r.Truncated? ==> inner.AtEnd() && Partial() != []
      ensures old(inner.ReadsEagerly()) ==> Prompt(r, inner)
      ensures old(inner.readLog) <= inner.readLog && Honest(r, old(inner.readLog), inner.readLog)
      ensures inner.consumed + inner.unread == old(inner.consumed + inner.unread)
    {
      hide Wire, Fits;
      if !haveLen {
        r := FillLen(inner);
        if !r.Got? {
          return;
        }
        assert lenBuf[..2] == lenBuf[..];
        bodyLen := lenBuf[0] as int * 256 + lenBuf[1] as int;
        bodyFilled := 0;
        haveLen := true;
        assert bodyBuf[..0] == [];
      }
      hide FromU16;
      ghost var midway := inner.readLog;
      r := FillBody(inner);
      HonestFrom(r, old(inner.readLog), midway, inner.readLog);
      if !r.Got? {
        return;
      }
      assert Honest(Got(bodyLen), old(inner.readLog), inner.readLog);
      hide Honest, LastIs;
      FinishFrame(inner);
      return Got(bodyLen);
    }

    /** The frame is whole: the reader starts afresh, its buffers as they are. */
    method FinishFrame(inner: Inner)
      requires Valid() && haveLen && bodyFilled == bodyLen && InStep(inner)
      modifies this`haveLen, this`lenFilled, this`frames
      ensures Valid() && AtRest() && InStep(inner) && Partial() == []
      ensures frames == old(frames) + [bodyBuf[..bodyLen]]
    {
      hide Wire, Fits, FromU16;
      ghost var body := bodyBuf[..bodyLen];
      FromU16RoundTrip(lenBuf[..]);
      FitsAppend(frames, body);
      WireAppend(frames, body);
      assert Wire(frames) + Partial() == Wire(frames + [body]);
      haveLen := false;
      lenFilled := 0;
      frames := frames + [body];
      assert Partial() == [];
    }

    /** The reader's frames are the decomposition of what it has consumed, and its partial frame is the rest. */
    lemma ReadsTheDecomposition(inner: Inner)
      requires Valid() && AtRest() && InStep(inner)
      ensures frames == FramesIn(inner.consumed) && Incomplete(Partial())
    {
      assert Incomplete(Partial()) by {
        if haveLen {
          assert Partial()[..2] == lenBuf[..];
        }
      }
      FramesInWire(frames, Partial());
    }
  }

  datatype DrainEvent = DrainPending | DrainFailed | WriteZero | Drained

  /** Stopping short is reported only as the inner stream's own last answer. */
  ghost predicate Stopped(r: DrainEvent, before: seq<WriteEvent>, after: seq<WriteEvent>) {
    && (r.DrainPending? ==> LastIs(before, after, WritePending))
    && (r.DrainFailed? ==> LastIs(before, after, WriteFailed))
    && (r.WriteZero? ==> LastIs(before, after, Wrote(0)))
  }

  lemma MoveOver(out: seq<byte>, frame: seq<byte>, sent: nat, n: nat)
    requires sent + n <= |frame|
    ensures out + frame[sent..sent + n] + frame[sent + n..] == out + frame[sent..]
  {
  }

  /** The last write failed or moved nothing. */
  ghost predicate GaveUp(before: seq<WriteEvent>, after: seq<WriteEvent>) {
    LastIs(before, after, WriteFailed) || LastIs(before, after, Wrote(0))
  }

  lemma GaveUpFrom(start: seq<WriteEvent>, before: seq<WriteEvent>, after: seq<WriteEvent>)
    requires start <= before && GaveUp(before, after)
    ensures GaveUp(start, after)
  {
  }

  /** Holds one sealed frame until the inner stream has taken all of it; the buffer is reused for every frame. */
  class FrameWriter {
    const buf: array<byte>
    var len: nat
    var sent: nat

    constructor ()
      ensures Valid() && Unsent() == []
      ensures fresh(buf)
    {
      buf := new byte[2 + MAX_MESSAGE](_ => 0);
      len, sent := 0, 0;
    }

    ghost predicate Valid()
      reads this
    {
      buf.Length == 2 + MAX_MESSAGE && sent <= len <= buf.Length
    }

    predicate IsPending()
      reads this
    {
      sent < len
    }

    ghost function Unsent(): seq<byte>
      requires Valid()
      reads this, buf
    {
      buf[sent..len]
    }

    lemma NothingUnsent()
      requires Valid() && !IsPending()
      ensures Unsent() == []
    {
    }

    method PollDrain(inner: Inner) returns (r: DrainEvent)
      requires Valid()
      modifies this`sent, inner`written, inner`writeSchedule, inner`writeLog
      ensures Valid() && inner.written + Unsent() == old(inner.written + Unsent())
      ensures old(inner.written) <= inner.written
      ensures r.Drained? <==> !IsPending()
      ensures old(inner.WritesEagerly()) ==> inner.WritesEagerly() && r.Drained?
      ensures old(inner.FailsOnce() && IsPending()) ==> inner.WritesEagerly() && r.DrainFailed?
      ensures old(inner.writeLog) <= inner.writeLog && Stopped(r, old(inner.writeLog), inner.writeLog)
    {
      ghost var frame := buf[..len];
      assert Unsent() == frame[sent..];
      r := Drained;
      while IsPending()
        invariant sent <= len && inner.written + frame[sent..] == old(inner.written) + frame[old(sent)..]
        invariant old(inner.WritesEagerly()) ==> inner.WritesEagerly()
        invariant old(inner.FailsOnce() && IsPending()) ==> inner.FailsOnce() && IsPending()
        invariant old(inner.written) <= inner.written && r.Drained? && old(inner.writeLog) <= inner.writeLog
        decreases len - sent
      {
        var data := buf[sent..len];
        assert data == frame[sent..];
        ghost var before := inner.written;
        var event := inner.PollWrite(data);
        if event.WritePending? {
          r := DrainPending;
          break;
        }
        if event.WriteFailed? {
          r := DrainFailed;
          break;
        }
        if event.n == 0 {
          r := WriteZero;
          break;
        }
        assert data[..event.n] == frame[sent..sent + event.n];
        MoveOver(before, frame, sent, event.n);
        sent := sent + event.n;
      }
      assert Unsent() == frame[sent..];
    }

    /** Puts a sealed message and its length in the buffer, once the frame before it is gone. */
    method Load(cipher: seq<byte>)
      requires Valid() && !IsPending() && |cipher| <= MAX_MESSAGE
      modifies this, buf
      ensures Valid() && IsPending() && Unsent() == Frame(cipher)
    {
      CopyInto(buf, 2, cipher);
      buf[0] := (|cipher| / 256) % 256;
      buf[1] := |cipher| % 256;
      len := 2 + |cipher|;
      sent := 0;
      assert buf[0..len] == Frame(cipher);
    }
  }

  /** As much of `data` as one message carries. */
  function FirstChunk(data: seq<byte>): (chunk: seq<byte>)
    ensures chunk <= data && |chunk| == if |data| < 65519 then |data| else 65519
  {
    if |data| < MAX_PLAINTEXT then data else data[..MAX_PLAINTEXT]
  }

  datatype StreamRead = NotReady | Failed | BadMessage | CutShort | Read(data: seq<byte>)

  datatype StreamWrite = Busy | Broken | Accepted(n: nat)

  class NoiseStream {
    const inner: Inner
    const aead: Aead
    var sendNonce: nat
    var recvNonce: nat
    const reader: FrameReader
    const plainBuf: array<byte>
    var plainLen: nat
    var plainPos: nat
    const writer: FrameWriter

    /**
     * What was sealed, and what the caller was told was accepted. A write that
     * fails after sealing loses its chunk from the second: `lostAt` is how much
     * was accepted before the first such chunk.
     */
    ghost var chunks: seq<seq<byte>>
    ghost var accepted: seq<byte>
    ghost var lostAt: Option<nat>
    /** What was opened, and what the caller was given; and the first message that did not open, if any. */
    ghost var plains: seq<seq<byte>>
    ghost var delivered: seq<byte>
    ghost var firstBad: Option<nat>

    constructor (inner: Inner, aead: Aead)
      requires inner.written == [] && inner.consumed == []
      requires Ideal(aead)
      ensures this.inner == inner && this.aead == aead
      ensures Valid() && accepted == [] && delivered == [] && chunks == [] && !Lossy() && !writer.IsPending()
        && plainPos == plainLen
      ensures fresh(this) && fresh(reader) && fresh(reader.lenBuf) && fresh(reader.bodyBuf)
      ensures fresh(plainBuf) && fresh(writer) && fresh(writer.buf)
      ensures Parts() == {this, inner, reader, reader.lenBuf, reader.bodyBuf, plainBuf, writer, writer.buf}
    {
      assert Wire(Sealed(aead, [])) == [] && Flatten<byte>([]) == [];
      hide Ideal, Wire, Sealed, Flatten;
      this.inner, this.aead := inner, aead;
      reader := new FrameReader();
      plainBuf := new byte[MAX_MESSAGE](_ => 0);
      writer := new FrameWriter();
      sendNonce, recvNonce, plainLen, plainPos := 0, 0, 0, 0;
      chunks, accepted, lostAt, plains, delivered, firstBad := [], [], None, [], [], None;
      new;
      assert Apart();
      assert reader.Valid();
      assert reader.AtRest();
      assert reader.InStep(inner);
      assert plainBuf[0..0] == [];
      assert ReaderValid();
      assert WriterValid();
    }

    ghost function Parts(): set<object>
      reads this
    {
      {this, inner, reader, reader.lenBuf, reader.bodyBuf, plainBuf, writer, writer.buf}
    }

    /**
     * Everything handed to the inner stream, and the unsent rest of the frame in flight, are
     * the sealed chunks in order.
     */
    ghost predicate InFlight()
      reads this`sendNonce, this`chunks, writer, writer.buf, inner`written
    {
      && writer.Valid()
      && Chunked(chunks) && |chunks| == sendNonce
      && inner.written + writer.Unsent() == Wire(Sealed(aead, chunks))
    }

    ghost predicate WriterValid()
      reads this`sendNonce, this`chunks, this`accepted, this`lostAt, writer, writer.buf, inner`written
    {
      InFlight() && match lostAt
                    case None => accepted == Flatten(chunks)
                    case Some(k) =>
                      && k <= |accepted| < |Flatten(chunks)|
                      && accepted[..k] == Flatten(chunks)[..k]
    }

    /** Some chunk was sealed by a write that then reported failure. */
    ghost predicate Lossy()
      reads this
    {
      lostAt.Some?
    }

    ghost predicate Opened(n: nat)
      reads this`plains, reader
    {
      n <= |reader.frames| && n <= |plains| && forall i :: 0 <= i < n ==>
        aead.unseal(i, reader.frames[i]) == Some(plains[i])
    }

    /** Everything consumed is frames and a partial one; what was opened is what was delivered and what waits. */
    ghost predicate ReaderValid()
      reads this`recvNonce, this`plainLen, this`plainPos, this`plains, this`delivered, this`firstBad
      reads plainBuf, reader, reader.lenBuf, reader.bodyBuf, inner`consumed
    {
      && reader.Valid() && reader.AtRest() && reader.InStep(inner)
      && plainBuf.Length == MAX_MESSAGE && plainPos <= plainLen <= plainBuf.Length
      && |plains| == recvNonce
      && delivered + plainBuf[plainPos..plainLen] == Flatten(plains)
      && match firstBad
         case None => |plains| == |reader.frames| && Opened(|plains|)
         case Some(i) => i < |reader.frames| && Opened(i) && aead.unseal(i, reader.frames[i]) == None
    }

    ghost predicate Apart()
    {
      && reader.lenBuf != reader.bodyBuf && reader.lenBuf != plainBuf && reader.lenBuf != writer.buf
      && reader.bodyBuf != plainBuf && reader.bodyBuf != writer.buf && plainBuf != writer.buf
    }

    ghost predicate Valid()
      reads Parts()
    {
      Apart() && Ideal(aead) && WriterValid() && ReaderValid()
    }

    /** The reader's state just after a frame was completed: its message is still to be opened. */
    ghost predicate MessageWaits(len: nat)
      reads this`recvNonce, this`plainLen, this`plainPos, this`plains, this`delivered, this`firstBad
      reads plainBuf, reader, reader.lenBuf, reader.bodyBuf, inner`consumed
    {
      && reader.Valid() && reader.AtRest() && reader.InStep(inner)
      && plainBuf.Length == MAX_MESSAGE && plainPos == plainLen <= plainBuf.Length
        && reader.bodyBuf.Length == MAX_MESSAGE
      && |plains| == recvNonce && delivered == Flatten(plains)
      && reader.frames != [] && len <= MAX_MESSAGE && reader.frames[|reader.frames| - 1] == reader.bodyBuf[..len]
      && match firstBad
         case None => |plains| == |reader.frames| - 1 && Opened(|plains|)
         case Some(i) => i < |reader.frames| - 1 && Opened(i) && aead.unseal(i, reader.frames[i]) == None
    }

    /** Opens the message in the reader's body buffer under the next nonce; the nonce moves on only if it opens. */
    method OpenMessage(len: nat) returns (ok: bool)
      requires Apart() && Ideal(aead) && MessageWaits(len)
      modifies this`recvNonce, this`plainLen, this`plainPos, this`plains, this`firstBad, plainBuf
      ensures ReaderValid()
      ensures ok ==> |plains| == |old(plains)| + 1 && old(plains) <= plains && firstBad == old(firstBad)
      ensures !ok ==> plains == old(plains) && firstBad.Some?
    {
      hide Wire, Flatten, FrameReader.Valid, FrameReader.InStep, FrameReader.AtRest;
      var plain := aead.unseal(recvNonce, reader.bodyBuf[..len]);
      if plain.None? {
        firstBad := if firstBad.None? then Some(|reader.frames| - 1) else firstBad;
        return false;
      }
      assert |plain.value| + TAG == len;
      hide Ideal;
      CopyInto(plainBuf, 0, plain.value);
      FlattenAppend(plains, plain.value);
      plainLen, plainPos := |plain.value|, 0;
      recvNonce := recvNonce + 1;
      plains := plains + [plain.value];
      assert plainBuf[0..plainLen] == plain.value;
      return true;
    }

    /** Hands over what is waiting, as far as there is room. */
    method TakeWaiting(room: nat) returns (data: seq<byte>)
      requires ReaderValid() && plainPos < plainLen
      modifies this`plainPos, this`delivered
      ensures ReaderValid()
      ensures |data| <= room && (room > 0 ==> data != []) && delivered == old(delivered) + data
    {
      hide Ideal, Wire, FrameReader.Valid, FrameReader.InStep, FrameReader.AtRest;
      var n := if plainLen - plainPos < room then plainLen - plainPos else room;
      data := plainBuf[plainPos..plainPos + n];
      ghost var waiting := plainBuf[plainPos..plainLen];
      assert data == waiting[..n] && plainBuf[plainPos + n..plainLen] == waiting[n..];
      SplitAt(waiting, 0, n);
      Assoc(delivered, data, waiting[n..]);
      plainPos := plainPos + n;
      delivered := delivered + data;
    }

    /** Has the frame reader complete one more frame, with nothing left waiting from the last one. */
    method NextFrame() returns (event: FrameEvent)
      requires Apart() && ReaderValid() && plainPos == plainLen
      modifies reader, reader.lenBuf, reader.bodyBuf, inner`unread, inner`readSchedule, inner`readLog, inner`consumed
      ensures event.Got? ==>
        MessageWaits(event.len) && |inner.unread| < |old(inner.unread)| && |old(reader.frames)| < |reader.frames|
      ensures !event.Got? ==> ReaderValid()
      ensures reader.Valid() && old(reader.frames) <= reader.frames
      ensures event.CleanEnd? ==> inner.AtEnd() && reader.Partial() == []
      ensures event.Truncated? ==> inner.AtEnd() && reader.Partial() != []
      ensures old(inner.ReadsEagerly()) ==> reader.Prompt(event, inner)
      ensures old(inner.readLog) <= inner.readLog && Honest(event, old(inner.readLog), inner.readLog)
      ensures inner.consumed + inner.unread == old(inner.consumed + inner.unread)
    {
      assert plainBuf[plainPos..plainLen] == [];
      event := reader.PollFrame(inner);
      hide Ideal, Wire, FrameReader.Valid, FrameReader.InStep, FrameReader.AtRest, FrameReader.Partial;
    }

    /**
     * Gives the caller what is waiting; otherwise opens messages until one
     * carries something. A read with room comes back empty only when the peer
     * ended the stream between two frames.
     */
    method PollRead(room: nat) returns (r: StreamRead)
      requires Valid()
      modifies this`recvNonce, this`plainLen, this`plainPos, this`plains, this`delivered, this`firstBad
      modifies plainBuf, reader, reader.lenBuf, reader.bodyBuf, inner`unread, inner`readSchedule, inner`readLog,
        inner`consumed
      ensures Valid()
      ensures r.Read? ==> |r.data| <= room && delivered == old(delivered) + r.data
      ensures !r.Read? ==> delivered == old(delivered)
      ensures r.Read? && r.data == [] && room > 0 ==> inner.AtEnd() && reader.Partial() == [] && plainPos == plainLen
      ensures r.CutShort? ==> inner.AtEnd() && reader.Partial() != []
      ensures r.BadMessage? ==> firstBad.Some? && |old(reader.frames)| < |reader.frames|
      ensures r.NotReady? ==> LastIs(old(inner.readLog), inner.readLog, ReadPending)
      ensures r.Failed? ==> LastIs(old(inner.readLog), inner.readLog, ReadFailed)
      ensures r.NotReady? ==> plainPos == plainLen
      ensures old(inner.ReadsEagerly()) ==> inner.ReadsEagerly() && !r.Failed? && (r.NotReady? ==> inner.Dry())
      ensures old(plainPos < plainLen) ==> r.Read? && inner.consumed == old(inner.consumed)
      ensures inner.consumed + inner.unread == old(inner.consumed + inner.unread)
      ensures old(plains) <= plains && old(reader.frames) <= reader.frames
    {
      hide Ideal, WriterValid, MessageWaits, FrameReader.Valid, FrameReader.Partial, FrameReader.InStep;
      while true
        invariant Apart() && Ideal(aead) && WriterValid() && ReaderValid() && delivered == old(delivered)
        invariant inner.consumed + inner.unread == old(inner.consumed + inner.unread)
        invariant old(plains) <= plains && old(reader.frames) <= reader.frames && old(inner.readLog) <= inner.readLog
        invariant old(inner.ReadsEagerly()) ==> inner.ReadsEagerly()
        invariant old(plainPos < plainLen) ==> plainPos < plainLen && inner.consumed == old(inner.consumed)
        decreases |inner.unread|
      {
        if plainPos < plainLen {
          var data := TakeWaiting(room);
          return Read(data);
        }
        var event := NextFrame();
        match event {
          case FramePending => return NotReady;
          case FrameFailed => return Failed;
          case CleanEnd => return Read([]);
          case Truncated => return CutShort;
          case Got(len) =>
            var ok := OpenMessage(len);
            if !ok {
              return BadMessage;
            }
        }
      }
    }

    /** Lets the inner stream take what it will of the frame in flight. */
    method PushOut() returns (r: DrainEvent)
      requires InFlight()
      modifies writer`sent, inner`written, inner`writeSchedule, inner`writeLog
      ensures InFlight() && sendNonce == |chunks| && old(inner.written) <= inner.written
      ensures old(WriterValid()) ==> WriterValid()
      ensures old(Apart() && ReaderValid()) ==> ReaderValid()
      ensures r.Drained? <==> !writer.IsPending()
      ensures old(inner.WritesEagerly()) ==> inner.WritesEagerly() && r.Drained?
      ensures old(inner.FailsOnce() && writer.IsPending()) ==> inner.WritesEagerly() && r.DrainFailed?
      ensures old(inner.writeLog) <= inner.writeLog && Stopped(r, old(inner.writeLog), inner.writeLog)
    {
      hide Wire, Chunked, ReaderValid, FrameWriter.Unsent;
      r := writer.PollDrain(inner);
    }

    /** Seals one chunk into the empty frame buffer. */
    method Seal(chunk: seq<byte>)
      requires Ideal(aead) && InFlight() && !writer.IsPending() && 0 < |chunk| <= MAX_PLAINTEXT
      modifies this`sendNonce, this`chunks, writer, writer.buf
      ensures InFlight() && writer.IsPending() && chunks == old(chunks) + [chunk]
      ensures sendNonce == |chunks| == old(sendNonce) + 1
      ensures old(Apart() && ReaderValid()) ==> ReaderValid()
    {
      hide Ideal, Wire, Sealed, Frame, Chunked, ReaderValid, FrameWriter.Unsent, FrameWriter.Valid, FrameReader.Valid;
      Unseals(aead, sendNonce, chunk);
      SealedAppend(aead, chunks, chunk);
      ChunkedAppend(chunks, chunk);
      writer.NothingUnsent();
      ghost var line := Wire(Sealed(aead, chunks));
      assert inner.written == line;
      var cipher := aead.seal(sendNonce, chunk);
      writer.Load(cipher);
      assert inner.written + writer.Unsent() == line + Frame(cipher);
      sendNonce := sendNonce + 1;
      chunks := chunks + [chunk];
    }

    /**
     * Finishes the frame in flight first, so a pending frame is never
     * overwritten; then seals what fits of `data` and pushes out what the inner
     * stream takes. What is reported accepted is sealed, in order.
     */
    method PollWrite(data: seq<byte>) returns (r: StreamWrite)
      requires Valid()
      modifies this`sendNonce, this`chunks, this`accepted, this`lostAt
      modifies writer, writer.buf, inner`written, inner`writeSchedule, inner`writeLog
      ensures Valid()
      ensures r.Accepted? ==> r.n == |FirstChunk(data)| && accepted == old(accepted) + FirstChunk(data)
      ensures !r.Accepted? ==> accepted == old(accepted)
      ensures r.Busy? ==> LastIs(old(inner.writeLog), inner.writeLog, WritePending)
      ensures r.Broken? ==> GaveUp(old(inner.writeLog), inner.writeLog)
      ensures sendNonce == |chunks|
      ensures sendNonce == old(sendNonce) ==> chunks == old(chunks)
      ensures sendNonce != old(sendNonce) ==>
        sendNonce == old(sendNonce) + 1 && chunks == old(chunks) + [FirstChunk(data)]
      ensures r.Accepted? ==> (sendNonce == old(sendNonce) <==> data == [])
      ensures Lossy() <==> old(Lossy()) || (r.Broken? && sendNonce == old(sendNonce) + 1)
      ensures r.Broken? && old(!writer.IsPending()) ==> sendNonce == old(sendNonce) + 1
      ensures r.Broken? && data == [] ==> sendNonce == old(sendNonce)
      ensures old(lostAt.Some?) ==> lostAt == old(lostAt)
      ensures old(lostAt.None?) && Lossy() ==> lostAt == Some(|old(accepted)|)
      ensures old(inner.FailsOnce() && !writer.IsPending()) && data != [] ==> r.Broken? && inner.WritesEagerly()
      ensures old(inner.written) <= inner.written
    {
      hide Valid, LastIs;
      var event := FinishPending();
      if event.DrainPending? {
        return Busy;
      }
      if !event.Drained? {
        return Broken;
      }
      if data == [] {
        return Accepted(0);
      }
      var chunk := FirstChunk(data);
      hide FirstChunk, GaveUp;
      ghost var start, midway := old(inner.writeLog), inner.writeLog;
      var sealed := SealAndPush(chunk);
      if !sealed {
        GaveUpFrom(start, midway, inner.writeLog);
      }
      r := if sealed then Accepted(|chunk|) else Broken;
    }

    /** Has the frame in flight taken whole, if there is one. */
    method FinishPending() returns (r: DrainEvent)
      requires Valid()
      modifies writer`sent, inner`written, inner`writeSchedule, inner`writeLog
      ensures Valid() && sendNonce == |chunks| && old(inner.written) <= inner.written
      ensures r.Drained? <==> !writer.IsPending()
      ensures old(!writer.IsPending()) ==> r.Drained? && inner.writeSchedule == old(inner.writeSchedule)
      ensures r.Drained? ==> inner.written == Wire(Sealed(aead, chunks))
      ensures old(inner.WritesEagerly()) ==> inner.WritesEagerly() && r.Drained?
      ensures old(inner.writeLog) <= inner.writeLog && Stopped(r, old(inner.writeLog), inner.writeLog)
    {
      hide Ideal, ReaderValid, Wire, Chunked;
      r := Drained;
      if writer.IsPending() {
        r := PushOut();
      }
      assert r.Drained? ==> writer.Unsent() == [];
    }

    /**
     * Seals a chunk and pushes out what the inner stream takes; a failure there loses the
     * chunk to the caller, but not to the peer.
     */
    method SealAndPush(chunk: seq<byte>) returns (ok: bool)
      requires Valid() && !writer.IsPending() && 0 < |chunk| <= MAX_PLAINTEXT
      modifies this`sendNonce, this`chunks, this`accepted, this`lostAt
      modifies writer, writer.buf, inner`written, inner`writeSchedule, inner`writeLog
      ensures Valid() && old(inner.written) <= inner.written && old(inner.writeLog) <= inner.writeLog
      ensures chunks == old(chunks) + [chunk] && sendNonce == |chunks| == old(sendNonce) + 1
      ensures ok ==> accepted == old(accepted) + chunk && lostAt == old(lostAt)
      ensures !ok ==> accepted == old(accepted) && lostAt == if old(lostAt).None? then Some(|accepted|) else old(lostAt)
      ensures !ok ==> GaveUp(old(inner.writeLog), inner.writeLog)
      ensures old(inner.FailsOnce()) ==> !ok && inner.WritesEagerly()
    {
      hide Ideal, InFlight, ReaderValid, Flatten, FrameWriter.Unsent, LastIs;
      FlattenAppend(chunks, chunk);
      Seal(chunk);
      var event := PushOut();
      ok := !event.DrainFailed? && !event.WriteZero?;
      if ok {
        accepted := accepted + chunk;
      } else if lostAt.None? {
        lostAt := Some(|accepted|);
      }
    }

    /**
     * Flushing (or, with `close`, shutting down) has the frame in flight taken
     * whole and then flushes (or closes) the inner stream; the answer is the
     * inner stream's own, and success leaves nothing to send.
     */
    method Settle(close: bool) returns (r: DrainEvent)
      requires Valid()
      modifies writer`sent, inner`written, inner`writeSchedule, inner`writeLog, inner`settled
      ensures Valid() && old(inner.written) <= inner.written
      ensures old(inner.WritesEagerly()) ==> inner.WritesEagerly() && r.Drained?
      ensures writer.IsPending() ==>
        Stopped(r, old(inner.writeLog), inner.writeLog) && inner.settled == old(inner.settled)
      ensures !writer.IsPending() ==>
        inner.settled == old(inner.settled) + [(close, r)] && inner.written == Wire(Sealed(aead, chunks))
      ensures r.Drained? ==> !writer.IsPending()
    {
      hide Ideal, WriterValid, ReaderValid, Apart, Wire, Sealed, Stopped;
      r := FinishPending();
      if r.Drained? {
        r := inner.PollSettle(close);
      }
    }

    /** Success means that everything sealed was handed over and the inner stream said it was flushed. */
    method PollFlush() returns (r: DrainEvent)
      requires Valid()
      modifies writer`sent, inner`written, inner`writeSchedule, inner`writeLog, inner`settled
      ensures Valid() && old(inner.written) <= inner.written
      ensures old(inner.WritesEagerly()) ==> inner.WritesEagerly() && r.Drained?
      ensures writer.IsPending() ==>
        Stopped(r, old(inner.writeLog), inner.writeLog) && inner.settled == old(inner.settled)
      ensures !writer.IsPending() ==> inner.settled == old(inner.settled) + [(false, r)]
      ensures r.Drained? ==> !writer.IsPending() && inner.written == Wire(Sealed(aead, chunks))
    {
      hide Valid, Wire, Sealed, Stopped;
      r := Settle(false);
    }

    /** Success means that everything sealed was handed over and the inner stream said it was closed. */
    method PollShutdown() returns (r: DrainEvent)
      requires Valid()
      modifies writer`sent, inner`written, inner`writeSchedule, inner`writeLog, inner`settled
      ensures Valid() && old(inner.written) <= inner.written
      ensures old(inner.WritesEagerly()) ==> inner.WritesEagerly() && r.Drained?
      ensures writer.IsPending() ==>
        Stopped(r, old(inner.writeLog), inner.writeLog) && inner.settled == old(inner.settled)
      ensures !writer.IsPending() ==> inner.settled == old(inner.settled) + [(true, r)]
      ensures r.Drained? ==> !writer.IsPending() && inner.written == Wire(Sealed(aead, chunks))
    {
      hide Valid, Wire, Sealed, Stopped;
      r := Settle(true);
    }
  }

  // ---------- Two ends of one link

  /** `to` reads what `from` writes, over a link that so far carried a prefix of it. */
  ghost predicate Linked(from: NoiseStream, to: NoiseStream)
    reads from, to, from.inner, to.inner
  {
    from.aead == to.aead && to.inner.consumed + to.inner.unread <= from.inner.written
  }

  /** What a stream's invariants say of its plaintexts when its peer is honest: none fails to open. */
  lemma NoMessageIsBad(from: NoiseStream, to: NoiseStream)
    requires from.Valid() && to.Valid() && Linked(from, to)
    ensures to.firstBad.None?
  {
    hide Ideal, Wire, Sealed, Chunked, Fits, Incomplete, NoiseStream.WriterValid, FrameReader.Valid,
      FrameReader.Partial, FrameReader.InStep, FrameReader.AtRest;
    StreamsLine(from, to);
    MessagesArriveInOrder(from.aead, from.chunks, to.reader.frames, to.reader.Partial());
  }

  /** What the reader consumed is a prefix of the sealed stream, split into its first frames and an incomplete rest. */
  lemma StreamsLine(from: NoiseStream, to: NoiseStream)
    requires from.Valid() && to.Valid() && Linked(from, to)
    ensures Ideal(from.aead) && Chunked(from.chunks) && Fits(to.reader.frames) && Incomplete(to.reader.Partial())
    ensures Wire(to.reader.frames) + to.reader.Partial() == to.inner.consumed <= Wire(Sealed(from.aead, from.chunks))
    ensures to.inner.consumed == from.inner.written && !from.writer.IsPending()
        ==> Wire(to.reader.frames) + to.reader.Partial() == Wire(Sealed(from.aead, from.chunks))
  {
    hide Ideal, Wire, Sealed, Chunked, Incomplete;
    assert from.inner.written <= Wire(Sealed(from.aead, from.chunks));
    to.reader.ReadsTheDecomposition(to.inner);
    if !from.writer.IsPending() {
      assert from.writer.Unsent() == [];
    }
  }

  /** What was sealed is what was accepted exactly when no write failed after sealing. */
  lemma LosslessExactly(from: NoiseStream)
    requires from.Valid()
    ensures !from.Lossy() <==> from.accepted == Flatten(from.chunks)
    ensures !from.Lossy() <==> Flatten(from.chunks) <= from.accepted
  {
  }

  /**
   * At any moment of any run of the two ends, whatever the inner streams did at
   * each call, the bytes read are a prefix of the bytes sealed; and of the bytes
   * accepted, unless the reader has gone past what was accepted before the first
   * write that failed after sealing.
   */
  lemma DeliveredIsPrefix(from: NoiseStream, to: NoiseStream)
    requires from.Valid() && to.Valid() && Linked(from, to)
    ensures to.delivered <= Flatten(from.chunks)
    ensures !from.Lossy() || |to.delivered| <= from.lostAt.value ==> to.delivered <= from.accepted
  {
    hide Ideal, Wire, Sealed, Chunked, Fits, Incomplete, FrameReader.Valid, FrameReader.Partial, FrameReader.InStep,
      FrameReader.AtRest, FrameWriter.Valid, FrameWriter.Unsent;
    NoMessageIsBad(from, to);
    StreamsLine(from, to);
    RoundTrip(from.aead, from.chunks, to.reader.frames, to.reader.Partial(), to.plains, to.delivered,
      to.plainBuf[to.plainPos..to.plainLen]);
  }

  /**
   * Once the writer has nothing left to send and the reader has drained the
   * link, everything sealed was read: exactly what was accepted if and only if
   * no write failed after sealing, and otherwise bytes that were refused.
   */
  lemma EverythingIsDelivered(from: NoiseStream, to: NoiseStream)
    requires from.Valid() && to.Valid() && Linked(from, to)
    requires !from.writer.IsPending() && to.inner.consumed == from.inner.written && to.plainPos == to.plainLen
    ensures to.delivered == Flatten(from.chunks)
    ensures to.delivered == from.accepted <==> !from.Lossy()
    ensures to.delivered <= from.accepted <==> !from.Lossy()
  {
    hide Ideal, Wire, Sealed, Chunked, Fits, Incomplete, FrameReader.Valid, FrameReader.Partial, FrameReader.InStep,
      FrameReader.AtRest, FrameWriter.Valid, FrameWriter.Unsent;
    NoMessageIsBad(from, to);
    StreamsLine(from, to);
    assert to.plainBuf[to.plainPos..to.plainLen] == [];
    RoundTrip(from.aead, from.chunks, to.reader.frames, to.reader.Partial(), to.plains, to.delivered, []);
    LosslessExactly(from);
  }

  // ---------- Runs of the two ends

  datatype LinkEvent = WriteSome(data: seq<byte>) | Flush | Shutdown | ReadSome(room: nat) | Carry(n: nat, last: bool)

  /** One call at either end, or some bytes crossing the link, which may also end. */
  method LinkStep(from: NoiseStream, to: NoiseStream, e: LinkEvent, carried: nat) returns (nowCarried: nat)
    requires from.Valid() && to.Valid() && Linked(from, to) && from.Parts() !! to.Parts()
    requires carried == |to.inner.consumed + to.inner.unread|
    modifies from.Parts(), to.Parts()
    ensures from.Valid() && to.Valid() && Linked(from, to)
    ensures nowCarried == |to.inner.consumed + to.inner.unread|
  {
    hide NoiseStream.WriterValid, NoiseStream.ReaderValid, NoiseStream.Apart, Ideal;
    nowCarried := carried;
    match e {
      case WriteSome(data) =>
        var _ := from.PollWrite(data);
      case Flush =>
        var _ := from.PollFlush();
      case Shutdown =>
        var _ := from.PollShutdown();
      case ReadSome(room) =>
        var _ := to.PollRead(room);
      case Carry(n, last) =>
        if !to.inner.ended {
          var rest := from.inner.written[carried..];
          var more := rest[..if n < |rest| then n else |rest|];
          Assoc(to.inner.consumed, to.inner.unread, more);
          nowCarried := carried + |more|;
          to.inner.Arrive(more, last);
        }
    }
  }

  /**
   * Two fresh ends, and any sequence of calls and arrivals: at its end, as at every moment,
   * the two ends are related as above.
   */
  method RunLink(aead: Aead, events: seq<LinkEvent>, readSchedule: seq<nat>, writeSchedule: seq<nat>)
    returns (from: NoiseStream, to: NoiseStream)
    requires Ideal(aead)
    ensures from.Valid() && to.Valid() && Linked(from, to)
    ensures to.delivered <= Flatten(from.chunks)
    ensures !from.Lossy() || |to.delivered| <= from.lostAt.value ==> to.delivered <= from.accepted
    ensures !from.writer.IsPending() && to.inner.consumed == from.inner.written && to.plainPos == to.plainLen ==>
      to.delivered == Flatten(from.chunks) && (to.delivered == from.accepted <==> !from.Lossy())
  {
    hide NoiseStream.Valid, Ideal, Linked;
    var near := new Inner([], false, [], writeSchedule);
    var far := new Inner([], false, readSchedule, []);
    from := new NoiseStream(near, aead);
    to := new NoiseStream(far, aead);
    StartsLinked(from, to);
    var carried := 0;
    for i := 0 to |events|
      invariant from.Valid() && to.Valid() && Linked(from, to) && from.Parts() !! to.Parts()
      invariant carried == |to.inner.consumed + to.inner.unread|
      invariant fresh(from.Parts()) && fresh(to.Parts())
    {
      carried := LinkStep(from, to, events[i], carried);
    }
    DeliveredIsPrefix(from, to);
    if !from.writer.IsPending() && to.inner.consumed == from.inner.written && to.plainPos == to.plainLen {
      EverythingIsDelivered(from, to);
    }
  }

  /**
   * Refused bytes can arrive: the first write fails once its chunk is sealed, a flush sends
   * that chunk, and the peer reads it.
   */
  method RefusedBytesArrive(aead: Aead, data: seq<byte>) returns (from: NoiseStream, to: NoiseStream)
    requires Ideal(aead) && 0 < |data| <= MAX_PLAINTEXT
    ensures from.Valid() && to.Valid() && Linked(from, to)
    ensures from.Lossy() && from.accepted == [] && to.delivered == data
  {
    hide Ideal, Flatten, NoiseStream.Valid, Linked;
    from := RefusedThenFlushed(aead, data);
    to := Receiving(aead, from.inner.written);
    ArrivedWhole(from, to);
    ReadAll(from, to);
  }

  method RefusedThenFlushed(aead: Aead, data: seq<byte>) returns (from: NoiseStream)
    requires Ideal(aead) && 0 < |data| <= MAX_PLAINTEXT
    ensures from.Valid() && fresh(from.Parts()) && from.aead == aead && !from.writer.IsPending()
    ensures from.Lossy() && from.accepted == [] && Flatten(from.chunks) == data
  {
    hide Ideal, NoiseStream.Valid, FirstChunk, Flatten, Wire, Sealed, LastIs, Stopped;
    OneChunk(data);
    var near := new Inner([], false, [], [1]);
    from := new NoiseStream(near, aead);
    var refused := from.PollWrite(data);
    var flushed := from.PollFlush();
  }

  lemma OneChunk(data: seq<byte>)
    requires |data| <= MAX_PLAINTEXT
    ensures FirstChunk(data) == data && Flatten([] + [data]) == data
  {
    FlattenAppend([], data);
  }

  method Receiving(aead: Aead, sent: seq<byte>) returns (to: NoiseStream)
    requires Ideal(aead)
    ensures to.Valid() && fresh(to.Parts()) && to.aead == aead && to.inner.ReadsEagerly() && !to.inner.ended
    ensures to.inner.consumed == [] && to.inner.unread == sent
  {
    hide Ideal, NoiseStream.Valid;
    var far := new Inner(sent, false, [], []);
    to := new NoiseStream(far, aead);
  }

  lemma ArrivedWhole(from: NoiseStream, to: NoiseStream)
    requires from.aead == to.aead && to.inner.consumed == [] && to.inner.unread == from.inner.written
    ensures Linked(from, to) && to.inner.consumed + to.inner.unread == from.inner.written
  {
  }

  /** Reads until the link runs dry. */
  method ReadAll(from: NoiseStream, to: NoiseStream)
    requires from.Valid() && to.Valid() && Linked(from, to) && from.Parts() !! to.Parts()
    requires !from.writer.IsPending() && to.inner.consumed + to.inner.unread == from.inner.written
    requires to.inner.ReadsEagerly() && !to.inner.ended
    modifies to.Parts()
    ensures from.Valid() && to.Valid() && Linked(from, to) && to.delivered == Flatten(from.chunks)
  {
    hide Ideal, Wire, Sealed, Flatten, NoiseStream.WriterValid, NoiseStream.ReaderValid, NoiseStream.Apart;
    while true
      invariant from.Valid() && to.Valid() && Linked(from, to) && to.inner.ReadsEagerly() && !to.inner.ended
      invariant to.inner.consumed + to.inner.unread == from.inner.written
      decreases |Flatten(from.chunks)| - |to.delivered|
    {
      var r := to.PollRead(MAX_PLAINTEXT);
      DeliveredIsPrefix(from, to);
      NoMessageIsBad(from, to);
      if r.NotReady? {
        assert to.inner.consumed == from.inner.written;
        EverythingIsDelivered(from, to);
        return;
      }
    }
  }

  lemma StartsLinked(from: NoiseStream, to: NoiseStream)
    requires from.aead == to.aead && to.inner.consumed == [] && to.inner.unread == []
    ensures Linked(from, to)
  {
  }
}
