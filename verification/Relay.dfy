/**
 * Relaying one connection: A names the tunnel, replays what it peeked and pumps
 * the client's bytes; B reads the header, dials, answers with one byte and
 * pumps. Reads and writes move any amount at a time and may fail at any time.
 */
module Relay {
  import opened Basics
  import opened Frames
  import opened Sni
  import opened Streams

  const BUF_SIZE := 16 * 1024
  const MAX_NAME_LEN := 256

  datatype HeaderError = TooLarge | CutOff

  /** Reading a frame of at most `max` bytes off the front of a stream: the frame and what follows it. */
  function ReadHeader(s: seq<byte>, max: nat): Result<(seq<byte>, seq<byte>), HeaderError> {
    if |s| < 2 then Err(CutOff)
    else if FromU16(s[..2]) > max then Err(TooLarge)
    else if |s| - 2 < FromU16(s[..2]) then Err(CutOff)
    else Ok((s[2..2 + FromU16(s[..2])], s[2 + FromU16(s[..2])..]))
  }

  method WriteFrame(w: Sink, data: seq<byte>) returns (ok: bool)
    modifies w`written, w`schedule
    ensures ok ==> |data| <= MAX_MESSAGE && w.written == old(w.written) + Frame(data)
    ensures |data| > MAX_MESSAGE ==> !ok && w.written == old(w.written)
    ensures old(w.Healthy()) ==> w.Healthy() && (ok <==> |data| <= MAX_MESSAGE)
    ensures old(w.written) <= w.written <= old(w.written) + Frame(data)
  {
    if |data| > MAX_MESSAGE {
      return false;
    }
    ok := w.WriteAll(U16(|data|));
    assert old(w.written) + U16(|data|) + data == old(w.written) + Frame(data);
    if !ok {
      return;
    }
    ok := w.WriteAll(data);
  }

  method ReadFrame(r: Source, max: nat) returns (frame: Option<seq<byte>>)
    modifies r
    ensures frame.Some? ==> ReadHeader(old(r.unread), max) == Ok((frame.value, r.unread))
    ensures old(r.Healthy()) ==> r.Healthy() && (frame.Some? <==> ReadHeader(old(r.unread), max).Ok?)
    ensures |r.unread| <= |old(r.unread)|
  {
    var lenBuf := r.ReadExact(2);
    if lenBuf.None? {
      return None;
    }
    assert old(r.unread)[..2] == lenBuf.value;
    var len := FromU16(lenBuf.value);
    if len > max {
      return None;
    }
    frame := r.ReadExact(len);
    if frame.Some? {
      assert old(r.unread) == lenBuf.value + frame.value + r.unread;
    }
  }

  /**
   * Copies until the end of `r`, which it passes on as a shutdown. What was
   * written is what was read; the counter moves only by what was written whole.
   */
  method Pump(r: Source, w: Sink, counter: Counter) returns (ok: bool)
    modifies r, w, counter
    ensures ok ==> r.unread == [] && w.written == old(w.written) + old(r.unread) && w.shut
    ensures ok ==> counter.value == old(counter.value) + |old(r.unread)|
    ensures old(w.written) <= w.written <= old(w.written) + old(r.unread)
    ensures old(counter.value) <= counter.value <= old(counter.value) + |w.written| - |old(w.written)|
    ensures !ok ==> w.shut == old(w.shut)
    ensures old(r.Healthy() && w.Healthy()) ==> ok && w.Healthy()
  {
    ghost var moved: seq<byte> := [];
    while true
      invariant old(r.unread) == moved + r.unread && w.written == old(w.written) + moved
      invariant counter.value == old(counter.value) + |moved| && w.shut == old(w.shut)
      invariant old(r.Healthy() && w.Healthy()) ==> r.Healthy() && w.Healthy()
      decreases |r.unread|
    {
      var part := r.Read(BUF_SIZE);
      if part.None? {
        return false;
      }
      if part.value == [] {
        w.Shutdown();
        return true;
      }
      ghost var rest := r.unread;
      var sent := w.WriteAll(part.value);
      Assoc(moved, part.value, rest);
      Assoc(old(w.written), moved, part.value);
      Assoc(old(w.written), moved + part.value, rest);
      if !sent {
        return false;
      }
      counter.value := counter.value + |part.value|;
      moved := moved + part.value;
    }
  }

  // ---------- A's side

  /** Everything A puts on the stream for one connection. */
  function Request(name: seq<byte>, prefix: seq<byte>, rest: seq<byte>): seq<byte> {
    Frame(name) + prefix + rest
  }

  /** Names the tunnel, replays the peeked bytes, then pumps; cut off anywhere, it has sent a prefix of the request. */
  method RelayToB(client: Source, mux: Sink, name: seq<byte>, prefix: seq<byte>, bytesIn: Counter) returns (ok: bool)
    modifies client, mux, bytesIn
    ensures ok ==> mux.written == old(mux.written) + Request(name, prefix, old(client.unread)) && mux.shut
    ensures ok ==> bytesIn.value == old(bytesIn.value) + |prefix| + |old(client.unread)|
    ensures |name| > MAX_MESSAGE ==> !ok && mux.written == old(mux.written)
    ensures old(client.Healthy() && mux.Healthy()) ==> (ok <==> |name| <= MAX_MESSAGE)
    ensures old(mux.written) <= mux.written <= old(mux.written) + Request(name, prefix, old(client.unread))
  {
    ghost var whole := Request(name, prefix, client.unread);
    ghost var start := mux.written;
    assert start + whole == start + Frame(name) + prefix + client.unread;
    ok := WriteFrame(mux, name);
    if !ok {
      return;
    }
    if prefix != [] {
      ok := mux.WriteAll(prefix);
      if !ok {
        return;
      }
      bytesIn.value := bytesIn.value + |prefix|;
    }
    assert mux.written == start + Frame(name) + prefix;
    ok := Pump(client, mux, bytesIn);
  }

  /** Swallows B's one ready byte, and only if it is 1 lets anything through to the client. */
  method RelayFromB(mux: Source, client: Sink, bytesOut: Counter) returns (ok: bool)
    modifies mux, client, bytesOut
    ensures ok ==>
      && old(mux.unread) != [] && old(mux.unread)[0] == 1
      && client.written == old(client.written) + old(mux.unread)[1..] && client.shut
    ensures old(client.written) <= client.written <= old(client.written) + ClientSees(old(mux.unread))
    ensures old(mux.Healthy() && client.Healthy()) ==> (ok <==> old(mux.unread) != [] && old(mux.unread)[0] == 1)
  {
    var ready := mux.ReadExact(1);
    if ready.None? {
      return false;
    }
    assert old(mux.unread)[1..] == mux.unread;
    if ready.value[0] != 1 {
      return false;
    }
    ok := Pump(mux, client, bytesOut);
  }

  /** What of B's bytes may reach the client. */
  function ClientSees(reply: seq<byte>): seq<byte> {
    if reply != [] && reply[0] == 1 then reply[1..] else []
  }

  // ---------- B's side

  datatype Outcome = Piped | Broke | NoHeader | UnknownTunnel | DialFailed

  /** One inbound stream: header, dial, ready byte, then both directions. `dials` says which addresses answer. */
  method HandleInbound(mux: Source, reply: Sink, targets: map<seq<byte>, string>, dials: string -> bool,
                       target: Source, toTarget: Sink, bytesIn: Counter, bytesOut: Counter) returns (r: Outcome)
    requires mux != target && reply != toTarget && bytesIn != bytesOut
    modifies mux, reply, target, toTarget, bytesIn, bytesOut
    ensures r.NoHeader? || r.Broke? || ReadHeader(old(mux.unread), MAX_NAME_LEN).Ok?
    ensures ReadHeader(old(mux.unread), MAX_NAME_LEN).Err? ==> r.NoHeader?
    ensures old(mux.Healthy() && reply.Healthy() && target.Healthy() && toTarget.Healthy()) ==>
      match ReadHeader(old(mux.unread), MAX_NAME_LEN)
      case Err(_) => r.NoHeader?
      case Ok((name, _)) =>
        if name !in targets then r.UnknownTunnel?
        else if dials(targets[name]) then r.Piped?
        else r.DialFailed? && reply.written == old(reply.written) + [0]
    ensures r.Piped? || r.DialFailed? ==> ReadHeader(old(mux.unread), MAX_NAME_LEN).value.0 in targets
    ensures r.Piped? ==> dials(targets[ReadHeader(old(mux.unread), MAX_NAME_LEN).value.0])
    ensures r.Piped? ==>
      && toTarget.written == old(toTarget.written) + ReadHeader(old(mux.unread), MAX_NAME_LEN).value.1
      && reply.written == old(reply.written) + [1] + old(target.unread)
    ensures r.UnknownTunnel? ==> ReadHeader(old(mux.unread), MAX_NAME_LEN).value.0 !in targets
    ensures r.NoHeader? || r.UnknownTunnel? ==>
      reply.written == old(reply.written) && toTarget.written == old(toTarget.written)
    ensures r.DialFailed? ==> reply.written <= old(reply.written) + [0] && toTarget.written == old(toTarget.written)
    ensures r.Broke? ==>
      && reply.written <= old(reply.written) + [1] + old(target.unread)
      && toTarget.written <= old(toTarget.written) + if ReadHeader(old(mux.unread), MAX_NAME_LEN).Ok?
        then ReadHeader(old(mux.unread), MAX_NAME_LEN).value.1 else []
  {
    var name := ReadFrame(mux, MAX_NAME_LEN);
    if name.None? {
      return NoHeader;
    }
    if name.value !in targets {
      return UnknownTunnel;
    }
    if !dials(targets[name.value]) {
      var _ := reply.WriteAll([0]);
      return DialFailed;
    }
    assert old(reply.written) + [1] <= old(reply.written) + [1] + old(target.unread);
    var ready := reply.WriteAll([1]);
    if !ready {
      return Broke;
    }
    var up := Pump(mux, toTarget, bytesIn);
    var down := Pump(target, reply, bytesOut);
    return if up && down then Piped else Broke;
  }

  // ---------- End to end

  /** B takes the header, knows the tunnel, and its target answers. */
  predicate Reaches(name: seq<byte>, targets: map<seq<byte>, string>, dials: string -> bool) {
    |name| <= 256 && name in targets && dials(targets[name])
  }

  /** B serves the stream and A passes its reply on: each side sees a prefix of what the other sent. */
  method ServeAndReply(name: seq<byte>, ghost stream: seq<byte>, sent: seq<byte>, targets: map<seq<byte>, string>,
    dials: string -> bool,
                       target: Source, toTarget: Sink, inbound: Sink, toClient: Sink) returns (ok: bool)
    requires sent <= Request(name, stream, []) && (|name| > MAX_MESSAGE ==> sent == [])
    requires |{toClient, toTarget, inbound}| == 3 && inbound.written == []
    modifies target, toTarget, inbound, toClient
    ensures toTarget.written <= old(toTarget.written) + stream
    ensures toClient.written <= old(toClient.written) + old(target.unread)
    ensures ok ==> Reaches(name, targets, dials) && toClient.written == old(toClient.written) + old(target.unread)
    ensures ok && sent == Request(name, stream, []) ==> toTarget.written == old(toTarget.written) + stream
    ensures
      && old(toClient.Healthy() && target.Healthy() && toTarget.Healthy() && inbound.Healthy())
      && sent == Request(name, stream, []) ==>
      (ok <==> Reaches(name, targets, dials))
  {
    hide Request, ReadHeader, ClientSees;
    ghost var response, gone := target.unread, toTarget.written;
    var bytesIn := new Counter();
    var bytesOut := new Counter();
    var atB := new Source(sent, []);
    var there := HandleInbound(atB, inbound, targets, dials, target, toTarget, bytesIn, bytesOut);
    RequestAtB(name, stream, [], sent);
    ghost var replied := inbound.written;
    ReplyAtA(response, replied);
    if ReadHeader(sent, MAX_NAME_LEN).Ok? {
      PrefixMono(gone, ReadHeader(sent, MAX_NAME_LEN).value.1, stream);
    }

    var backAtA := new Source(inbound.written, []);
    ghost var shown := toClient.written;
    var down := RelayFromB(backAtA, toClient, bytesOut);
    PrefixMono(shown, ClientSees(replied), response);
    ok := there.Piped? && down;
  }

  /**
   * One connection from A's socket to B's target and back, over a mux stream
   * that keeps bytes in order; `prefix` was read from the client before.
   */
  method RelayConnection(client: Source, toClient: Sink, name: seq<byte>, prefix: seq<byte>,
                         targets: map<seq<byte>, string>, dials: string -> bool, target: Source, toTarget: Sink,
                         outbound: Sink, inbound: Sink) returns (ok: bool)
    requires client != target && |{toClient, toTarget, outbound, inbound}| == 4
    requires outbound.written == [] && inbound.written == []
    modifies client, toClient, target, toTarget, outbound, inbound
    ensures ok ==>
      && Reaches(name, targets, dials)
      && toTarget.written == old(toTarget.written) + (prefix + old(client.unread))
      && toClient.written == old(toClient.written) + old(target.unread)
    ensures toTarget.written <= old(toTarget.written) + (prefix + old(client.unread))
    ensures toClient.written <= old(toClient.written) + old(target.unread)
    ensures old(client.Healthy() && toClient.Healthy() && target.Healthy() && toTarget.Healthy() && outbound.Healthy()
      && inbound.Healthy()) ==>
      (ok <==> Reaches(name, targets, dials))
  {
    ghost var stream := prefix + client.unread;
    var bytesIn := new Counter();
    Assoc(Frame(name), prefix, client.unread);
    assert [] + Request(name, prefix, client.unread) == Request(name, stream, []);
    hide Request;
    var up := RelayToB(client, outbound, name, prefix, bytesIn);
    var back := ServeAndReply(name, stream, outbound.written, targets, dials, target, toTarget, inbound, toClient);
    ok := up && back;
  }

  lemma PrefixMono(a: seq<byte>, b: seq<byte>, c: seq<byte>)
    requires b <= c
    ensures a + b <= a + c
  {
  }

  /** Of B's reply the client can only see the target's bytes. */
  lemma ReplyAtA(response: seq<byte>, replied: seq<byte>)
    ensures replied <= [1] + response || replied <= [0] || replied == [] ==> ClientSees(replied) <= response
    ensures replied == [] + [1] + response ==> replied != [] && replied[0] == 1 && replied[1..] == response
    ensures [] + [1] + response == [1] + response && [] + [0] == [0]
  {
  }

  /** Whatever B reads behind a header is a prefix of the client's stream. */
  lemma RequestAtB(name: seq<byte>, prefix: seq<byte>, rest: seq<byte>, sent: seq<byte>)
    requires sent <= Request(name, prefix, rest) && (|name| > MAX_MESSAGE ==> sent == [])
    ensures ReadHeader(sent, MAX_NAME_LEN).Ok? ==>
      ReadHeader(sent, MAX_NAME_LEN).value.0 == name && ReadHeader(sent, MAX_NAME_LEN).value.1 <= prefix + rest
    ensures |name| > MAX_NAME_LEN ==> ReadHeader(sent, MAX_NAME_LEN).Err?
    ensures |name| <= MAX_NAME_LEN && sent == Request(name, prefix, rest) ==> ReadHeader(sent, MAX_NAME_LEN).Ok?
    ensures ReadHeader(sent, MAX_NAME_LEN).Ok? && sent == Request(name, prefix, rest) ==>
      ReadHeader(sent, MAX_NAME_LEN).value.1 == prefix + rest
  {
    if |name| <= MAX_NAME_LEN {
      HeaderOfAPrefix(name, prefix, rest, sent);
      HeaderRoundTrip(name, prefix, rest);
    } else if |name| <= MAX_MESSAGE {
      LongNameNeverRead(name, prefix, rest, sent);
    }
  }

  /** B reads back exactly A's header if the name is not too long; then what is left is exactly what the client sent. */
  lemma HeaderRoundTrip(name: seq<byte>, prefix: seq<byte>, rest: seq<byte>)
    requires |name| <= MAX_MESSAGE
    ensures ReadHeader(Request(name, prefix, rest), MAX_NAME_LEN)
         == if |name| <= 256 then Ok((name, prefix + rest)) else Err(TooLarge)
  {
    var s := Request(name, prefix, rest);
    U16RoundTrip(|name|);
    assert s[..2] == U16(|name|);
    assert s == U16(|name|) + name + (prefix + rest);
    if |name| <= MAX_NAME_LEN {
      assert s[2..2 + |name|] == name && s[2 + |name|..] == prefix + rest;
    }
  }

  /**
   * Of a request still on its way B either cannot read the header yet, or has a prefix of the
   * client's bytes after it.
   */
  lemma HeaderOfAPrefix(name: seq<byte>, prefix: seq<byte>, rest: seq<byte>, sent: seq<byte>)
    requires |name| <= MAX_NAME_LEN && sent <= Request(name, prefix, rest)
    ensures ReadHeader(sent, MAX_NAME_LEN) == Err(CutOff)
         || (ReadHeader(sent, MAX_NAME_LEN).Ok? && ReadHeader(sent, MAX_NAME_LEN).value.0 == name
             && ReadHeader(sent, MAX_NAME_LEN).value.1 <= prefix + rest)
    ensures ReadHeader(sent, MAX_NAME_LEN) == Err(CutOff) <==> |sent| < 2 + |name|
  {
    var s := Request(name, prefix, rest);
    HeaderRoundTrip(name, prefix, rest);
    U16RoundTrip(|name|);
    assert s[..2] == U16(|name|);
    if |sent| >= 2 {
      assert sent[..2] == s[..2];
      if |sent| >= 2 + |name| {
        assert sent[2..2 + |name|] == s[2..2 + |name|];
        assert sent[2 + |name|..] <= s[2 + |name|..];
      }
    }
  }

  /** A name over B's limit is never read as a header. */
  lemma LongNameNeverRead(name: seq<byte>, prefix: seq<byte>, rest: seq<byte>, sent: seq<byte>)
    requires MAX_NAME_LEN < |name| <= MAX_MESSAGE && sent <= Request(name, prefix, rest)
    ensures ReadHeader(sent, MAX_NAME_LEN).Err?
  {
    U16RoundTrip(|name|);
    assert Request(name, prefix, rest)[..2] == U16(|name|);
    if |sent| >= 2 {
      assert sent[..2] == U16(|name|);
    }
  }
}
