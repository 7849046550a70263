/** Length-prefixed frames, the byte streams they make up, and an idealised Noise transport cipher. */
module Frames {
  import opened Basics

  const MAX_MESSAGE := 65535
  const TAG := 16
  const MAX_PLAINTEXT := MAX_MESSAGE - TAG

  /** The big-endian form of `n` cast to sixteen bits. */
  function U16(n: nat): (b: seq<byte>)
    ensures |b| == 2 && (n < 65536 ==> b[0] as int * 256 + b[1] as int == n)
  {
    [(n / 256) % 256, n % 256]
  }

  function FromU16(b: seq<byte>): nat
    requires |b| == 2
  {
    b[0] as int * 256 + b[1] as int
  }

  lemma U16RoundTrip(n: nat)
    ensures FromU16(U16(n)) == n <==> n <= MAX_MESSAGE
  {
  }

  lemma FromU16RoundTrip(b: seq<byte>)
    requires |b| == 2
    ensures FromU16(b) <= MAX_MESSAGE && U16(FromU16(b)) == b
  {
  }

  function Frame(body: seq<byte>): seq<byte> {
    U16(|body|) + body
  }

  /** The byte stream of `frames`. */
  function Wire(frames: seq<seq<byte>>): seq<byte> {
    if frames == [] then [] else Frame(frames[0]) + Wire(frames[1..])
  }

  /** A frame is its length in two bytes, the high one first, and the body. */
  lemma FrameBytes(body: seq<byte>)
    requires |body| <= 65535
    ensures |Frame(body)| == 2 + |body| && Frame(body)[2..] == body
    ensures Frame(body)[0] as int * 256 + Frame(body)[1] as int == |body|
  {
  }

  predicate Fits(frames: seq<seq<byte>>) {
    forall f :: f in frames ==> |f| <= MAX_MESSAGE
  }

  lemma FitsAppend(frames: seq<seq<byte>>, f: seq<byte>)
    requires Fits(frames) && |f| <= MAX_MESSAGE
    ensures Fits(frames + [f])
  {
  }

  /** `s` does not hold a whole frame yet. */
  predicate Incomplete(s: seq<byte>) {
    |s| < 2 || |s| < 2 + FromU16(s[..2])
  }

  /** The whole frames at the front of `s`: what any reader of `s` should return. */
  function FramesIn(s: seq<byte>): seq<seq<byte>>
    decreases |s|
  {
    if Incomplete(s) then []
    else
      var end := 2 + FromU16(s[..2]);
      [s[2..end]] + FramesIn(s[end..])
  }

  lemma {:induction false} WireAppend(frames: seq<seq<byte>>, f: seq<byte>)
    ensures Wire(frames + [f]) == Wire(frames) + Frame(f)
  {
    if frames == [] {
      assert frames + [f] == [f];
    } else {
      assert (frames + [f])[1..] == frames[1..] + [f];
      WireAppend(frames[1..], f);
    }
  }

  lemma FirstFrame(f: seq<byte>, rest: seq<byte>)
    requires |f| <= MAX_MESSAGE
    ensures FramesIn(Frame(f) + rest) == [f] + FramesIn(rest)
  {
    var s := Frame(f) + rest;
    U16RoundTrip(|f|);
    assert s[..2] == U16(|f|);
    hide U16, FromU16;
    var end := 2 + |f|;
    assert s[2..end] == f;
    assert s[end..] == rest;
  }

  /** Splitting a stream of frames gives back those frames, whatever incomplete rest follows. */
  lemma {:induction false} FramesInWire(frames: seq<seq<byte>>, rest: seq<byte>)
    requires Fits(frames) && Incomplete(rest)
    ensures FramesIn(Wire(frames) + rest) == frames
  {
    if frames == [] {
      assert Wire(frames) + rest == rest;
    } else {
      hide Frame, Incomplete;
      assert frames[0] in frames;
      assert Wire(frames) + rest == Frame(frames[0]) + (Wire(frames[1..]) + rest);
      FirstFrame(frames[0], Wire(frames[1..]) + rest);
      FramesInWire(frames[1..], rest);
    }
  }

  /** More bytes can only add frames at the end. */
  lemma {:induction false} FramesInPrefix(s: seq<byte>, t: seq<byte>)
    requires s <= t
    ensures FramesIn(s) <= FramesIn(t)
    decreases |s|
  {
    if !Incomplete(s) {
      assert t[..2] == s[..2];
      var end := 2 + FromU16(s[..2]);
      assert t[2..end] == s[2..end];
      assert s[end..] <= t[end..];
      FramesInPrefix(s[end..], t[end..]);
    }
  }

  // ---------- The cipher

  /** A transport cipher keyed by the handshake: message `n` is sealed and opened under nonce `n`. */
  datatype Aead = Aead(seal: (nat, seq<byte>) -> seq<byte>, unseal: (nat, seq<byte>) -> Option<seq<byte>>)

  /** Sealing adds a tag, opening checks and removes it, and what was sealed opens under the same nonce. */
  ghost predicate Ideal(a: Aead) {
    && (forall n: nat, p: seq<byte> :: |a.seal(n, p)| == |p| + TAG && a.unseal(n, a.seal(n, p)) == Some(p))
    && forall n: nat, c: seq<byte> :: a.unseal(n, c).Some? ==> |a.unseal(n, c).value| + TAG == |c|
  }

  lemma Unseals(a: Aead, n: nat, p: seq<byte>)
    requires Ideal(a)
    ensures |a.seal(n, p)| == |p| + TAG && a.unseal(n, a.seal(n, p)) == Some(p)
  {
  }

  /** The messages that carry `chunks`. */
  function Sealed(a: Aead, chunks: seq<seq<byte>>): (r: seq<seq<byte>>)
    ensures |r| == |chunks|
    ensures forall i :: 0 <= i < |chunks| ==> r[i] == a.seal(i, chunks[i])
  {
    if chunks == [] then []
    else Sealed(a, chunks[..|chunks| - 1]) + [a.seal(|chunks| - 1, chunks[|chunks| - 1])]
  }

  lemma SealedAppend(a: Aead, chunks: seq<seq<byte>>, chunk: seq<byte>)
    ensures Wire(Sealed(a, chunks + [chunk])) == Wire(Sealed(a, chunks)) + Frame(a.seal(|chunks|, chunk))
  {
    hide Wire, Frame;
    assert (chunks + [chunk])[..|chunks|] == chunks;
    WireAppend(Sealed(a, chunks), a.seal(|chunks|, chunk));
  }

  predicate Chunked(chunks: seq<seq<byte>>) {
    forall c :: c in chunks ==> 0 < |c| <= MAX_PLAINTEXT
  }

  lemma ChunkedAppend(chunks: seq<seq<byte>>, chunk: seq<byte>)
    requires Chunked(chunks) && 0 < |chunk| <= MAX_PLAINTEXT
    ensures Chunked(chunks + [chunk]) && Flatten(chunks + [chunk]) == Flatten(chunks) + chunk
  {
    assert (chunks + [chunk])[..|chunks|] == chunks;
  }

  lemma SealedFits(a: Aead, chunks: seq<seq<byte>>)
    requires Ideal(a) && Chunked(chunks)
    ensures Fits(Sealed(a, chunks))
  {
    hide Ideal;
    forall f | f in Sealed(a, chunks)
      ensures |f| <= MAX_MESSAGE
    {
      var i :| 0 <= i < |chunks| && Sealed(a, chunks)[i] == f;
      assert chunks[i] in chunks;
      Unseals(a, i, chunks[i]);
    }
  }

  /** Ideal ciphers exist: appending a fixed tag is one. */
  lemma IdealExists() returns (a: Aead)
    ensures Ideal(a)
  {
    var tag: seq<byte> := seq(TAG, _ => 0);
    a := Aead((n, p) => p + tag, (n, c) => if |c| >= TAG && c[|c| - TAG..] == tag then Some(c[..|c| - TAG]) else None);
    forall n: nat, p: seq<byte>
      ensures |a.seal(n, p)| == |p| + TAG && a.unseal(n, a.seal(n, p)) == Some(p)
    {
      assert (p + tag)[|p|..] == tag && (p + tag)[..|p|] == p;
    }
  }

  /** Of two streams of frames, one a prefix of the other, the shorter holds the first frames of the longer. */
  lemma PrefixHoldsFirstFrames(frames: seq<seq<byte>>, partial: seq<byte>, sent: seq<seq<byte>>)
    requires Fits(frames) && Incomplete(partial) && Fits(sent)
    requires Wire(frames) + partial <= Wire(sent)
    ensures frames <= sent
    ensures Wire(frames) + partial == Wire(sent) ==> frames == sent
  {
    hide Wire, FramesIn, Fits;
    FramesInWire(frames, partial);
    FramesInWire(sent, []);
    assert Wire(sent) + [] == Wire(sent);
    FramesInPrefix(Wire(frames) + partial, Wire(sent));
  }

  /**
   * What a reader got from a peer that sealed `chunks`: having consumed some
   * prefix of the peer's stream, it was returned the first of the peer's
   * messages, in order and whole, and each opens to the chunk it carries.
   */
  lemma MessagesArriveInOrder(a: Aead, chunks: seq<seq<byte>>, frames: seq<seq<byte>>, partial: seq<byte>)
    requires Ideal(a) && Chunked(chunks) && Fits(frames) && Incomplete(partial)
    requires Wire(frames) + partial <= Wire(Sealed(a, chunks))
    ensures frames <= Sealed(a, chunks)
    ensures forall i :: 0 <= i < |frames| ==> a.unseal(i, frames[i]) == Some(chunks[i])
    ensures Wire(frames) + partial == Wire(Sealed(a, chunks)) ==> |frames| == |chunks|
  {
    hide Ideal, Wire, Chunked, Fits, Incomplete, Sealed;
    SealedFits(a, chunks);
    PrefixHoldsFirstFrames(frames, partial, Sealed(a, chunks));
    forall i | 0 <= i < |frames|
      ensures a.unseal(i, frames[i]) == Some(chunks[i])
    {
      assert frames[i] == a.seal(i, chunks[i]);
      Unseals(a, i, chunks[i]);
    }
  }

  /**
   * Round trip. From a peer whose stream carries `chunks`, what was opened is
   * the chunks in order, so what was handed on is a prefix of what was written,
   * and all of it once the whole stream was consumed and handed on.
   */
  lemma RoundTrip(a: Aead, chunks: seq<seq<byte>>, frames: seq<seq<byte>>, partial: seq<byte>,
                  plains: seq<seq<byte>>, delivered: seq<byte>, waiting: seq<byte>)
    requires Ideal(a) && Chunked(chunks) && Fits(frames) && Incomplete(partial)
    requires Wire(frames) + partial <= Wire(Sealed(a, chunks))
    requires |plains| == |frames| && forall i :: 0 <= i < |frames| ==> a.unseal(i, frames[i]) == Some(plains[i])
    requires delivered + waiting == Flatten(plains)
    ensures plains <= chunks && delivered <= Flatten(chunks)
    ensures Wire(frames) + partial == Wire(Sealed(a, chunks)) && waiting == [] ==> delivered == Flatten(chunks)
  {
    hide Ideal, Wire, Chunked, Fits, Incomplete, Sealed, Flatten;
    MessagesArriveInOrder(a, chunks, frames, partial);
    assert forall i :: 0 <= i < |plains| ==> plains[i] == chunks[i];
    FlattenPrefix(plains, chunks);
    assert delivered <= delivered + waiting;
    assert |plains| == |chunks| ==> plains == chunks;
  }
}
