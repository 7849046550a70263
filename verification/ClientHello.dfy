/**
 * ClientHello records as structures, after sections 4.1.2, 4.2 and 5.1 of RFC
 * 8446 and section 3 of RFC 6066, and the records the SNI parser accepts: a
 * printed structure, possibly with bytes it ignores after any part that has
 * already decided the result.
 */
module ClientHello {
  import opened Basics
  import opened Frames
  import opened Sni

  // The numbers of RFC 8446, sections 5.1, 4 and 4.2, and of RFC 6066, section 3.
  const CONTENT_HANDSHAKE: byte := 22
  const MESSAGE_CLIENT_HELLO: byte := 1
  const EXTENSION_SERVER_NAME := 0
  const NAME_HOST_NAME: byte := 0
  const MAX_FRAGMENT := 16384

  datatype Name = Name(kind: byte, data: seq<byte>)

  /** `before` holds no host name; nothing is looked at after the host name. */
  datatype NameList = NameList(before: seq<Name>, host: Option<seq<byte>>, ignored: seq<byte>)

  datatype Ext = Ext(kind: nat, data: seq<byte>)

  /** `before` holds no server_name; nothing is looked at after that extension. */
  datatype ExtList = ExtList(before: seq<Ext>, serverName: Option<ServerName>, ignored: seq<byte>)

  datatype ServerName = ServerName(names: NameList, ignored: seq<byte>)

  datatype Hello = Hello(
    version: seq<byte>, random: seq<byte>, session: seq<byte>, suites: seq<byte>, compression: seq<byte>,
    exts: Option<ExtList>, ignored: seq<byte>)

  datatype Record = Record(minor: byte, hello: Hello, ignored: seq<byte>)

  // ---------- Printing

  function PrintName(n: Name): seq<byte> {
    [n.kind] + U16(|n.data|) + n.data
  }

  function PrintBefore(names: seq<Name>, rest: seq<byte>): seq<byte> {
    if names == [] then rest else PrintName(names[0]) + PrintBefore(names[1..], rest)
  }

  function PrintNames(l: NameList): seq<byte> {
    PrintBefore(l.before, if l.host.None? then [] else PrintName(Name(NAME_HOST_NAME, l.host.value)) + l.ignored)
  }

  function PrintServerName(s: ServerName): seq<byte> {
    U16(|PrintNames(s.names)|) + PrintNames(s.names) + s.ignored
  }

  function PrintExt(e: Ext): seq<byte> {
    U16(e.kind) + U16(|e.data|) + e.data
  }

  function PrintExtsBefore(exts: seq<Ext>, rest: seq<byte>): seq<byte> {
    if exts == [] then rest else PrintExt(exts[0]) + PrintExtsBefore(exts[1..], rest)
  }

  function PrintExts(l: ExtList): seq<byte> {
    PrintExtsBefore(l.before,
                    if l.serverName.None? then []
                      else PrintExt(Ext(EXTENSION_SERVER_NAME, PrintServerName(l.serverName.value))) + l.ignored)
  }

  function Vec8(s: seq<byte>): seq<byte> {
    [|s| % 256] + s
  }

  function Vec16(s: seq<byte>): seq<byte> {
    U16(|s|) + s
  }

  function PrintHello(h: Hello): seq<byte> {
    h.version + h.random + Vec8(h.session) + Vec16(h.suites) + Vec8(h.compression)
    + if h.exts.None? then [] else Vec16(PrintExts(h.exts.value)) + h.ignored
  }

  function PrintBody(r: Record): seq<byte> {
    [MESSAGE_CLIENT_HELLO] + U24(|PrintHello(r.hello)|) + PrintHello(r.hello) + r.ignored
  }

  function PrintRecord(r: Record): seq<byte> {
    [CONTENT_HANDSHAKE, 3, r.minor] + U16(|PrintBody(r)|) + PrintBody(r)
  }

  // ---------- Which structures can be printed: every length fits its field

  predicate GoodNames(l: NameList) {
    && (forall n :: n in l.before ==> n.kind != NAME_HOST_NAME && |n.data| <= MAX_MESSAGE)
    && (l.host.Some? ==> |l.host.value| <= MAX_MESSAGE)
    && (l.host.None? ==> l.ignored == [])
  }

  predicate GoodServerName(s: ServerName) {
    GoodNames(s.names) && |PrintNames(s.names)| <= MAX_MESSAGE
  }

  predicate GoodExts(l: ExtList) {
    && (forall e :: e in l.before ==>
      e.kind != EXTENSION_SERVER_NAME && e.kind <= MAX_MESSAGE && |e.data| <= MAX_MESSAGE)
    && (l.serverName.Some? ==>
      GoodServerName(l.serverName.value) && |PrintServerName(l.serverName.value)| <= MAX_MESSAGE)
    && (l.serverName.None? ==> l.ignored == [])
  }

  predicate GoodHello(h: Hello) {
    && |h.version| == 2 && |h.random| == 32 && |h.session| < 256 && |h.suites| <= MAX_MESSAGE && |h.compression| < 256
    && (h.exts.Some? ==> GoodExts(h.exts.value) && |PrintExts(h.exts.value)| <= MAX_MESSAGE)
    && (h.exts.None? ==> h.ignored == [])
  }

  predicate GoodRecord(r: Record) {
    GoodHello(r.hello) && |PrintBody(r)| <= MAX_FRAGMENT
  }

  /** The first host name of the first server_name extension, if it is usable. */
  ghost function NamesAnswer(l: NameList): Option<seq<byte>> {
    if l.host.Some? && Usable(l.host.value) then l.host else None
  }

  ghost function ExtsAnswer(l: ExtList): Option<seq<byte>> {
    if l.serverName.Some? then NamesAnswer(l.serverName.value.names) else None
  }

  ghost function Answer(h: Hello): Option<seq<byte>> {
    if h.exts.Some? then ExtsAnswer(h.exts.value) else None
  }

  // ---------- Parsing inverts printing

  lemma ParseOneName(n: Name, rest: seq<byte>)
    requires |n.data| <= MAX_MESSAGE
    ensures ParseNames(PrintName(n) + rest) == if n.kind == NAME_HOST_NAME then Ok(HostName(n.data))
      else ParseNames(rest)
  {
    hide HostName;
    var s := PrintName(n) + rest;
    U16RoundTrip(|n.data|);
    assert s[1..3] == U16(|n.data|);
    assert s[3..3 + |n.data|] == n.data;
    assert s[3 + |n.data|..] == rest;
  }

  lemma {:induction false} ParsePrintedNames(l: NameList)
    requires GoodNames(l)
    ensures ParseNames(PrintNames(l)) == Ok(NamesAnswer(l))
    decreases |l.before|
  {
    hide PrintName, HostName, Usable;
    if l.before == [] {
      if l.host.Some? {
        HostNameExactly(l.host.value);
        ParseOneName(Name(NAME_HOST_NAME, l.host.value), l.ignored);
      }
    } else {
      var tail := l.(before := l.before[1..]);
      ParsePrintedNames(tail);
      assert l.before[0] in l.before;
      ParseOneName(l.before[0], PrintNames(tail));
    }
  }

  lemma ParsePrintedServerName(s: ServerName)
    requires GoodServerName(s)
    ensures ParseServerName(PrintServerName(s)) == Ok(NamesAnswer(s.names))
  {
    ParsePrintedNames(s.names);
    hide ParseNames, PrintNames, NamesAnswer, GoodNames;
    var list := PrintNames(s.names);
    U16RoundTrip(|list|);
    assert PrintServerName(s)[..2] == U16(|list|);
    assert PrintServerName(s)[2..2 + |list|] == list;
  }

  lemma ParseOneExt(e: Ext, rest: seq<byte>)
    requires e.kind <= MAX_MESSAGE && |e.data| <= MAX_MESSAGE
    ensures ParseExts(PrintExt(e) + rest) == if e.kind == EXTENSION_SERVER_NAME then ParseServerName(e.data)
      else ParseExts(rest)
  {
    hide ParseServerName;
    var s := PrintExt(e) + rest;
    U16RoundTrip(|e.data|);
    U16RoundTrip(e.kind);
    assert s[..2] == U16(e.kind);
    assert s[2..4] == U16(|e.data|);
    assert s[4..4 + |e.data|] == e.data;
    assert s[4 + |e.data|..] == rest;
  }

  lemma {:induction false} ParsePrintedExts(l: ExtList)
    requires GoodExts(l)
    ensures ParseExts(PrintExts(l)) == Ok(ExtsAnswer(l))
    decreases |l.before|
  {
    hide PrintExt, ParseServerName, PrintServerName, NamesAnswer, GoodServerName;
    if l.before == [] {
      if l.serverName.Some? {
        ParsePrintedServerName(l.serverName.value);
        ParseOneExt(Ext(EXTENSION_SERVER_NAME, PrintServerName(l.serverName.value)), l.ignored);
      }
    } else {
      var tail := l.(before := l.before[1..]);
      ParsePrintedExts(tail);
      assert l.before[0] in l.before;
      ParseOneExt(l.before[0], PrintExts(tail));
    }
  }

  lemma AfterPrintedVec8(s: seq<byte>, rest: seq<byte>)
    requires |s| < 256
    ensures AfterVec8(Vec8(s) + rest) == Some(rest)
  {
    assert (Vec8(s) + rest)[1 + |s|..] == rest;
  }

  lemma AfterPrintedVec16(s: seq<byte>, rest: seq<byte>)
    requires |s| <= MAX_MESSAGE
    ensures AfterVec16(Vec16(s) + rest) == Some(rest)
    ensures |Vec16(s) + rest| >= 2 + |s| && FromU16((Vec16(s) + rest)[..2]) == |s| && (Vec16(s) + rest)[2..2 + |s|] == s
  {
    U16RoundTrip(|s|);
    assert (Vec16(s) + rest)[..2] == U16(|s|);
    assert (Vec16(s) + rest)[2 + |s|..] == rest;
  }

  lemma ParsePrintedHello(h: Hello)
    requires GoodHello(h)
    ensures ParseHello(PrintHello(h)) == Ok(Answer(h))
  {
    hide Vec8, Vec16, AfterVec8, AfterVec16, PrintExts, ParseExts, GoodExts, ExtsAnswer, FromU16;
    var exts := if h.exts.None? then [] else Vec16(PrintExts(h.exts.value)) + h.ignored;
    var afterSuites := Vec8(h.compression) + exts;
    var afterSession := Vec16(h.suites) + afterSuites;
    var afterRandom := Vec8(h.session) + afterSession;
    assert PrintHello(h) == h.version + h.random + afterRandom;
    assert PrintHello(h)[34..] == afterRandom;
    AfterPrintedVec8(h.session, afterSession);
    AfterPrintedVec16(h.suites, afterSuites);
    AfterPrintedVec8(h.compression, exts);
    if h.exts.Some? {
      AfterPrintedVec16(PrintExts(h.exts.value), h.ignored);
      ParsePrintedExts(h.exts.value);
    }
  }

  lemma U24RoundTrip(n: nat)
    requires n < 0x100_0000
    ensures FromU24(U24(n)) == n
  {
  }

  lemma ParsePrintedBody(r: Record)
    requires GoodRecord(r)
    ensures ParseHandshake(PrintBody(r)) == Ok(Answer(r.hello))
  {
    hide PrintHello, ParseHello, GoodHello, Answer, FromU24, U24;
    ParsePrintedHello(r.hello);
    var hello := PrintHello(r.hello);
    var body := PrintBody(r);
    assert |body| >= |hello|;
    U24RoundTrip(|hello|);
    assert |U24(|hello|)| == 3 by { U24Length(|hello|); }
    assert body[1..4] == U24(|hello|);
    assert body[4..4 + |hello|] == hello;
  }

  lemma U24Length(n: nat)
    ensures |U24(n)| == 3
  {
  }

  /** Parsing a printed ClientHello gives its answer. */
  lemma ParseInvertsPrint(r: Record, after: seq<byte>)
    requires GoodRecord(r)
    ensures ParseRecord(PrintRecord(r) + after) == Ok(Answer(r.hello))
  {
    hide PrintHello, ParseHandshake, GoodHello, Answer;
    ParsePrintedBody(r);
    var body := PrintBody(r);
    var record := PrintRecord(r);
    U16RoundTrip(|body|);
    assert record[3..5] == U16(|body|);
    assert record[..5][3..5] == record[3..5];
    assert record[5..5 + |body|] == body;
    assert |body| > 0;
    RecordAlone(record, after);
  }

  /** Every strict prefix of a printed ClientHello is an error. */
  lemma TruncationIsAnError(r: Record, n: nat)
    requires GoodRecord(r) && n < |PrintRecord(r)|
    ensures ParseRecord(PrintRecord(r)[..n]).Err?
  {
    hide PrintHello, ParseHandshake, GoodHello;
    var body := PrintBody(r);
    var record := PrintRecord(r);
    U16RoundTrip(|body|);
    assert record[3..5] == U16(|body|);
    if n >= 5 {
      assert record[..n][..5][3..5] == record[3..5];
    }
  }

  // ---------- Whatever parses was printed

  lemma {:induction false} UnparseNames(s: seq<byte>) returns (l: NameList)
    requires ParseNames(s).Ok?
    ensures GoodNames(l) && PrintNames(l) == s && NamesAnswer(l) == ParseNames(s).value
    decreases |s|
  {
    hide HostName, Usable;
    if s == [] {
      return NameList([], None, []);
    }
    var len := FromU16(s[1..3]);
    FromU16RoundTrip(s[1..3]);
    var data := s[3..3 + len];
    var n := Name(s[0], data);
    assert PrintName(n) + s[3 + len..] == s;
    if s[0] == NAME_HOST_NAME {
      HostNameExactly(data);
      l := NameList([], Some(data), s[3 + len..]);
    } else {
      var tail := UnparseNames(s[3 + len..]);
      l := tail.(before := [n] + tail.before);
      hide PrintName;
      assert l.before[1..] == tail.before;
    }
  }

  lemma UnparseServerName(s: seq<byte>) returns (sn: ServerName)
    requires ParseServerName(s).Ok?
    ensures GoodServerName(sn) && PrintServerName(sn) == s && NamesAnswer(sn.names) == ParseServerName(s).value
  {
    hide ParseNames, PrintNames, NamesAnswer, GoodNames;
    var len := FromU16(s[..2]);
    FromU16RoundTrip(s[..2]);
    var names := UnparseNames(s[2..2 + len]);
    sn := ServerName(names, s[2 + len..]);
    assert |PrintNames(names)| == len;
    assert s == s[..2] + s[2..2 + len] + s[2 + len..];
  }

  lemma {:induction false} UnparseExts(s: seq<byte>) returns (l: ExtList)
    requires ParseExts(s).Ok?
    ensures GoodExts(l) && PrintExts(l) == s && ExtsAnswer(l) == ParseExts(s).value
    decreases |s|
  {
    hide ParseServerName, PrintServerName, NamesAnswer, GoodServerName;
    if s == [] {
      return ExtList([], None, []);
    }
    var kind, len := FromU16(s[..2]), FromU16(s[2..4]);
    FromU16RoundTrip(s[..2]);
    FromU16RoundTrip(s[2..4]);
    var data := s[4..4 + len];
    assert PrintExt(Ext(kind, data)) + s[4 + len..] == s;
    if kind == EXTENSION_SERVER_NAME {
      var sn := UnparseServerName(data);
      l := ExtList([], Some(sn), s[4 + len..]);
    } else {
      var tail := UnparseExts(s[4 + len..]);
      l := tail.(before := [Ext(kind, data)] + tail.before);
      hide PrintExt;
      assert l.before[1..] == tail.before;
    }
  }

  lemma UnparseVec8(s: seq<byte>) returns (v: seq<byte>)
    requires AfterVec8(s).Some?
    ensures |v| < 256 && s == Vec8(v) + AfterVec8(s).value
  {
    v := s[1..1 + s[0]];
  }

  lemma UnparseVec16(s: seq<byte>) returns (v: seq<byte>)
    requires AfterVec16(s).Some?
    ensures |v| <= MAX_MESSAGE && s == Vec16(v) + AfterVec16(s).value
    ensures |s| >= 2 && |v| == FromU16(s[..2]) && 2 + |v| <= |s| && v == s[2..2 + |v|]
  {
    FromU16RoundTrip(s[..2]);
    v := s[2..2 + FromU16(s[..2])];
    assert s == s[..2] + v + s[2 + |v|..];
  }

  lemma UnparseHello(s: seq<byte>) returns (h: Hello)
    requires ParseHello(s).Ok?
    ensures GoodHello(h) && PrintHello(h) == s && Answer(h) == ParseHello(s).value
  {
    hide Vec8, Vec16, AfterVec8, PrintExts, ParseExts, GoodExts, ExtsAnswer, FromU16;
    var session := UnparseVec8(s[34..]);
    var suites := UnparseVec16(AfterVec8(s[34..]).value);
    var compression := UnparseVec8(AfterVec16(AfterVec8(s[34..]).value).value);
    var rest := AfterVec8(AfterVec16(AfterVec8(s[34..]).value).value).value;
    assert s == s[..2] + s[2..34] + (Vec8(session) + (Vec16(suites) + (Vec8(compression) + rest)));
    if rest == [] {
      h := Hello(s[..2], s[2..34], session, suites, compression, None, []);
    } else {
      var extBytes := UnparseVec16(rest);
      var exts := UnparseExts(extBytes);
      h := Hello(s[..2], s[2..34], session, suites, compression, Some(exts), AfterVec16(rest).value);
    }
  }

  lemma FromU24RoundTrip(b: seq<byte>)
    requires |b| == 3
    ensures U24(FromU24(b)) == b
  {
    var hi, mid, lo: int := b[0], b[1], b[2];
    var n := hi * 65536 + mid * 256 + lo;
    assert n / 256 == hi * 256 + mid;
    assert n / 65536 == hi;
    assert (hi * 256 + mid) % 256 == mid;
  }

  /**
   * Every record the parser accepts is a printed ClientHello followed by ignored bytes, and
   * its result is that hello's answer.
   */
  lemma PrintInvertsParse(s: seq<byte>) returns (r: Record, after: seq<byte>)
    requires ParseRecord(s).Ok?
    ensures GoodRecord(r) && s == PrintRecord(r) + after && Answer(r.hello) == ParseRecord(s).value
  {
    hide ParseHello, PrintHello, GoodHello, Answer, FromU24, U24;
    var len := FromU16(s[3..5]);
    assert s[..5][3..5] == s[3..5];
    var body := s[5..5 + len];
    var helloLen := FromU24(body[1..4]);
    var hello := UnparseHello(body[4..4 + helloLen]);
    r := Record(s[2], hello, body[4 + helloLen..]);
    after := s[5 + len..];
    FromU24RoundTrip(body[1..4]);
    assert body == [body[0]] + body[1..4] + body[4..4 + helloLen] + body[4 + helloLen..];
    assert PrintBody(r) == body;
    FromU16RoundTrip(s[3..5]);
    assert s == s[..3] + s[3..5] + body + after;
  }

  /** Exactly the printed ClientHellos parse, each to its answer. */
  lemma AcceptsExactlyPrinted(s: seq<byte>, answer: Option<seq<byte>>)
    ensures ParseRecord(s) == Ok(answer)
       <==> exists r, after :: GoodRecord(r) && s == PrintRecord(r) + after && Answer(r.hello) == answer
  {
    hide ParseRecord, PrintRecord, GoodRecord, Answer;
    if ParseRecord(s) == Ok(answer) {
      var r, after := PrintInvertsParse(s);
    }
    forall r, after | GoodRecord(r) && s == PrintRecord(r) + after
      ensures ParseRecord(s) == Ok(Answer(r.hello))
    {
      ParseInvertsPrint(r, after);
    }
  }
}
