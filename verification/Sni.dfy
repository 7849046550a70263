/** Reads the server name out of the first TLS record of a connection, keeping every byte it consumed. */
module Sni {
  import opened Basics
  import opened Frames
  import opened Streams

  const RECORD_HEADER_LEN := 5
  const MAX_RECORD_BODY := 16 * 1024
  const HANDSHAKE_RECORD: byte := 0x16
  const CLIENT_HELLO: byte := 1
  const EXT_SERVER_NAME := 0
  const NAME_TYPE_HOST: byte := 0

  datatype SniError =
    | NotAHandshakeRecord
    | ImplausibleLength(len: nat)
    | TruncatedHeader
    | TruncatedRecord
    | NotAClientHello
    | SpansRecords
    | Malformed

  type Parsed = Result<Option<seq<byte>>, SniError>

  // ---------- What a record parses to

  function FromU24(b: seq<byte>): nat
    requires |b| == 3
  {
    b[0] as int * 65536 + b[1] as int * 256 + b[2] as int
  }

  function U24(n: nat): (b: seq<byte>)
    ensures |b| == 3 && (n < 0x100_0000 ==> b[0] as int * 65536 + b[1] as int * 256 + b[2] as int == n)
  {
    [(n / 65536) % 256, (n / 256) % 256, n % 256]
  }

  function CheckHeader(header: seq<byte>): Result<nat, SniError>
    requires |header| == RECORD_HEADER_LEN
  {
    if header[0] != HANDSHAKE_RECORD || header[1] != 3 then Err(NotAHandshakeRecord)
    else
      var len := FromU16(header[3..5]);
      if len == 0 || len > MAX_RECORD_BODY then Err(ImplausibleLength(len)) else Ok(len)
  }

  predicate Alphanumeric(b: byte) {
    '0' as int <= b <= '9' as int || 'a' as int <= b <= 'z' as int || 'A' as int <= b <= 'Z' as int
  }

  predicate HostByte(b: byte) {
    Alphanumeric(b) || b == '-' as int || b == '.' as int || b == '_' as int
  }

  predicate Digit(b: byte) {
    '0' as int <= b <= '9' as int
  }

  /** A decimal octet: one to three digits, no leading zero, at most 255. */
  predicate Octet(s: seq<byte>) {
    && 1 <= |s| <= 3
    && (forall b :: b in s ==> Digit(b))
    && (|s| > 1 ==> s[0] != '0' as int)
    && (|s| == 3 ==> (s[0] as int - 48) * 100 + (s[1] as int - 48) * 10 + (s[2] as int - 48) <= 255)
  }

  /** The pieces between dots. */
  function Labels(s: seq<byte>): (r: seq<seq<byte>>)
    ensures r != []
  {
    if s == [] then [[]]
    else
      var rest := Labels(s[1..]);
      if s[0] == '.' as int then [[]] + rest else [[s[0]] + rest[0]] + rest[1..]
  }

  /** Of the IP literals only the dotted ones are made of host bytes; IPv6 ones need a colon. */
  predicate IpLiteral(s: seq<byte>) {
    |Labels(s)| == 4 && forall l :: l in Labels(s) ==> Octet(l)
  }

  function HostName(raw: seq<byte>): Option<seq<byte>> {
    if raw != [] && (forall b :: b in raw ==> HostByte(b)) && !IpLiteral(raw) then Some(raw) else None
  }

  // ---------- What a usable name is, byte by byte

  /** A number below 256 in decimal. */
  function PrintOctet(n: nat): seq<byte>
    requires n < 256
  {
    if n < 10 then [48 + n] else if n < 100 then [48 + n / 10, 48 + n % 10]
      else [48 + n / 100, 48 + n / 10 % 10, 48 + n % 10]
  }

  /** Four numbers below 256 in decimal, with dots between them. */
  ghost predicate IsDottedQuad(raw: seq<byte>) {
    exists a: byte, b: byte, c: byte, d: byte ::
      raw == PrintOctet(a) + [46] + PrintOctet(b) + [46] + PrintOctet(c) + [46] + PrintOctet(d)
  }

  /** Hyphens, dots, underscores, digits and letters, at least one of them, and no dotted quad. */
  ghost predicate Usable(raw: seq<byte>) {
    && raw != []
    && (forall k :: 0 <= k < |raw| ==>
         || raw[k] in {45, 46, 95}
         || 48 <= raw[k] <= 57
         || 65 <= raw[k] <= 90
         || 97 <= raw[k] <= 122)
    && !IsDottedQuad(raw)
  }

  lemma {:induction false} LabelsOfNoDot(l: seq<byte>)
    requires forall k :: 0 <= k < |l| ==> l[k] != 46
    ensures Labels(l) == [l]
  {
    if l != [] {
      LabelsOfNoDot(l[1..]);
      assert [l[0]] + l[1..] == l;
    }
  }

  lemma {:induction false} LabelsPeel(l: seq<byte>, rest: seq<byte>)
    requires forall k :: 0 <= k < |l| ==> l[k] != 46
    ensures Labels(l + [46] + rest) == [l] + Labels(rest)
  {
    var s := l + [46] + rest;
    if l == [] {
      assert s[1..] == rest;
    } else {
      LabelsPeel(l[1..], rest);
      assert s[1..] == l[1..] + [46] + rest;
      assert [l[0]] + l[1..] == l;
    }
  }

  /** The first label, what follows its dot, and that there is no dot in it. */
  lemma {:induction false} FirstLabel(s: seq<byte>) returns (rest: seq<byte>)
    requires |Labels(s)| > 1
    ensures s == Labels(s)[0] + [46] + rest && Labels(rest) == Labels(s)[1..]
  {
    if s[0] == 46 {
      rest := s[1..];
    } else {
      rest := FirstLabel(s[1..]);
    }
  }

  lemma {:induction false} OnlyLabel(s: seq<byte>)
    requires |Labels(s)| == 1
    ensures Labels(s)[0] == s
  {
    if s != [] {
      OnlyLabel(s[1..]);
    }
  }

  lemma TwoDigits(x: nat, y: nat)
    requires y < 10
    ensures (10 * x + y) / 10 == x && (10 * x + y) % 10 == y
  {
  }

  lemma ThreeDigits(x: nat, y: nat, z: nat)
    requires y < 10 && z < 10
    ensures var n := 100 * x + 10 * y + z; n / 100 == x && n / 10 % 10 == y && n % 10 == z
  {
    var n := 100 * x + 10 * y + z;
    assert n == 10 * (10 * x + y) + z;
    TwoDigits(10 * x + y, z);
    TwoDigits(x, y);
  }

  /** Decimal octets are what the numbers below 256 print as. */
  lemma OctetPrints(l: seq<byte>) returns (n: byte)
    requires Octet(l)
    ensures l == PrintOctet(n)
  {
    assert forall k :: 0 <= k < |l| ==> l[k] in l;
    if |l| == 1 {
      n := l[0] - 48;
    } else if |l| == 2 {
      var x, y := l[0] as int - 48, l[1] as int - 48;
      TwoDigits(x, y);
      n := 10 * x + y;
    } else {
      var x, y, z := l[0] as int - 48, l[1] as int - 48, l[2] as int - 48;
      ThreeDigits(x, y, z);
      n := 100 * x + 10 * y + z;
    }
  }

  lemma PrintedIsOctet(n: byte)
    ensures Octet(PrintOctet(n)) && forall k :: 0 <= k < |PrintOctet(n)| ==> PrintOctet(n)[k] != 46
  {
  }

  lemma LiteralIsQuad(raw: seq<byte>)
    requires IpLiteral(raw)
    ensures IsDottedQuad(raw)
  {
    var ls := Labels(raw);
    assert |ls| == 4 && Octet(ls[0]) && Octet(ls[1]) && Octet(ls[2]) && Octet(ls[3]);
    hide IpLiteral, Octet, PrintOctet, Labels;
    var r1 := FirstLabel(raw);
    var r2 := FirstLabel(r1);
    var r3 := FirstLabel(r2);
    OnlyLabel(r3);
    var a := OctetPrints(ls[0]);
    var b := OctetPrints(ls[1]);
    var c := OctetPrints(ls[2]);
    var d := OctetPrints(ls[3]);
    QuadAssociates(ls[0], ls[1], ls[2], ls[3]);
    assert raw == ls[0] + [46] + ls[1] + [46] + ls[2] + [46] + ls[3];
  }

  lemma QuadAssociates(a: seq<byte>, b: seq<byte>, c: seq<byte>, d: seq<byte>)
    ensures a + [46] + (b + [46] + (c + [46] + d)) == a + [46] + b + [46] + c + [46] + d
  {
  }

  lemma QuadIsLiteral(a: byte, b: byte, c: byte, d: byte)
    ensures IpLiteral(PrintOctet(a) + [46] + PrintOctet(b) + [46] + PrintOctet(c) + [46] + PrintOctet(d))
  {
    PrintedIsOctet(a);
    PrintedIsOctet(b);
    PrintedIsOctet(c);
    PrintedIsOctet(d);
    hide PrintOctet, Octet, Labels;
    QuadLabels(PrintOctet(a), PrintOctet(b), PrintOctet(c), PrintOctet(d));
  }

  lemma QuadExactly(raw: seq<byte>)
    ensures IpLiteral(raw) <==> IsDottedQuad(raw)
  {
    hide IpLiteral, PrintOctet;
    if IpLiteral(raw) {
      LiteralIsQuad(raw);
    }
    if a: byte, b: byte, c: byte, d: byte :|
      raw == PrintOctet(a) + [46] + PrintOctet(b) + [46] + PrintOctet(c) + [46] + PrintOctet(d)
    {
      QuadIsLiteral(a, b, c, d);
    }
  }

  lemma QuadLabels(a: seq<byte>, b: seq<byte>, c: seq<byte>, d: seq<byte>)
    requires forall k :: 0 <= k < |a| ==> a[k] != 46
    requires forall k :: 0 <= k < |b| ==> b[k] != 46
    requires forall k :: 0 <= k < |c| ==> c[k] != 46
    requires forall k :: 0 <= k < |d| ==> d[k] != 46
    ensures Labels(a + [46] + b + [46] + c + [46] + d) == [a, b, c, d]
  {
    hide Labels;
    var cd := c + [46] + d;
    var bcd := b + [46] + cd;
    LabelsOfNoDot(d);
    LabelsPeel(c, d);
    LabelsPeel(b, cd);
    LabelsPeel(a, bcd);
    QuadAssociates(a, b, c, d);
  }

  /**
   * A host name is taken, as it is, exactly if it consists of hyphens, dots,
   * underscores, ASCII digits and letters, and is neither empty nor four decimal
   * numbers below 256 with dots between them.
   */
  lemma HostNameExactly(raw: seq<byte>)
    ensures HostName(raw) == if Usable(raw) then Some(raw) else None
  {
    QuadExactly(raw);
    hide IpLiteral, IsDottedQuad;
    if forall b :: b in raw ==> HostByte(b) {
      assert forall k :: 0 <= k < |raw| ==> raw[k] in raw;
    }
  }

  /** The names of a server_name list; the first host name decides. */
  function ParseNames(list: seq<byte>): Parsed {
    if list == [] then Ok(None)
    else if |list| < 3 || |list| - 3 < FromU16(list[1..3]) then Err(Malformed)
    else
      var end := 3 + FromU16(list[1..3]);
      if list[0] == NAME_TYPE_HOST then Ok(HostName(list[3..end])) else ParseNames(list[end..])
  }

  function ParseServerName(data: seq<byte>): Parsed {
    if |data| < 2 || |data| - 2 < FromU16(data[..2]) then Err(Malformed)
    else ParseNames(data[2..2 + FromU16(data[..2])])
  }

  /** The extensions; the first server_name decides. */
  function ParseExts(exts: seq<byte>): Parsed {
    if exts == [] then Ok(None)
    else if |exts| < 4 || |exts| - 4 < FromU16(exts[2..4]) then Err(Malformed)
    else
      var end := 4 + FromU16(exts[2..4]);
      if FromU16(exts[..2]) == EXT_SERVER_NAME then ParseServerName(exts[4..end]) else ParseExts(exts[end..])
  }

  /** What follows a vector with a one-byte length, or with a two-byte length. */
  function AfterVec8(s: seq<byte>): Option<seq<byte>> {
    if |s| < 1 || |s| - 1 < s[0] then None else Some(s[1 + s[0]..])
  }

  function AfterVec16(s: seq<byte>): Option<seq<byte>> {
    if |s| < 2 || |s| - 2 < FromU16(s[..2]) then None else Some(s[2 + FromU16(s[..2])..])
  }

  function ParseHello(hello: seq<byte>): Parsed {
    if |hello| < 34 then Err(Malformed) else
    match AfterVec8(hello[34..])
    case None => Err(Malformed)
    case Some(suites) =>
      match AfterVec16(suites)
      case None => Err(Malformed)
      case Some(compression) =>
        match AfterVec8(compression)
        case None => Err(Malformed)
        case Some(exts) =>
          if exts == [] then Ok(None)
          else if |exts| < 2 || |exts| - 2 < FromU16(exts[..2]) then Err(Malformed)
          else ParseExts(exts[2..2 + FromU16(exts[..2])])
  }

  function ParseHandshake(body: seq<byte>): Parsed {
    if body == [] then Err(Malformed)
    else if body[0] != CLIENT_HELLO then Err(NotAClientHello)
    else if |body| < 4 then Err(Malformed)
    else if |body| - 4 < FromU24(body[1..4]) then Err(SpansRecords)
    else ParseHello(body[4..4 + FromU24(body[1..4])])
  }

  function ParseRecord(record: seq<byte>): Parsed {
    if |record| < RECORD_HEADER_LEN then Err(TruncatedHeader)
    else
      match CheckHeader(record[..RECORD_HEADER_LEN])
      case Err(e) => Err(e)
      case Ok(len) =>
        if |record| < RECORD_HEADER_LEN + len then Err(TruncatedRecord)
        else ParseHandshake(record[RECORD_HEADER_LEN..RECORD_HEADER_LEN + len])
  }

  // ---------- The parser itself

  /** A bounds-checked cursor: every read either moves it past what it read, or fails and leaves it alone. */
  class Cursor {
    var rest: seq<byte>

    constructor (s: seq<byte>)
      ensures rest == s
    {
      rest := s;
    }

    method Take(n: nat) returns (r: Option<seq<byte>>)
      modifies this
      ensures r.None? <==> |old(rest)| < n
      ensures r.None? ==> rest == old(rest)
      ensures r.Some? ==> r.value == old(rest)[..n] && rest == old(rest)[n..]
    {
      if |rest| < n {
        return None;
      }
      r := Some(rest[..n]);
      rest := rest[n..];
    }

    method TakeU8() returns (r: Option<byte>)
      modifies this
      ensures r.None? <==> |old(rest)| < 1
      ensures r.None? ==> rest == old(rest)
      ensures r.Some? ==> r.value == old(rest)[0] && rest == old(rest)[1..]
    {
      var b := Take(1);
      r := if b.None? then None else Some(b.value[0]);
    }

    method TakeU16() returns (r: Option<nat>)
      modifies this
      ensures r.None? <==> |old(rest)| < 2
      ensures r.None? ==> rest == old(rest)
      ensures r.Some? ==> r.value == FromU16(old(rest)[..2]) && rest == old(rest)[2..]
    {
      var b := Take(2);
      r := if b.None? then None else Some(b.value[0] as int * 256 + b.value[1] as int);
    }

    method TakeU24() returns (r: Option<nat>)
      modifies this
      ensures r.None? <==> |old(rest)| < 3
      ensures r.None? ==> rest == old(rest)
      ensures r.Some? ==> r.value == FromU24(old(rest)[..3]) && rest == old(rest)[3..]
    {
      var b := Take(3);
      r := if b.None? then None else Some(b.value[0] as int * 65536 + b.value[1] as int * 256 + b.value[2] as int);
    }

    /** Skips a vector with a one-byte length. */
    method SkipVec8() returns (ok: bool)
      modifies this
      ensures ok == AfterVec8(old(rest)).Some? && (ok ==> AfterVec8(old(rest)) == Some(rest))
    {
      var len := TakeU8();
      if len.None? {
        return false;
      }
      var data := Take(len.value);
      ok := data.Some?;
    }

    method SkipVec16() returns (ok: bool)
      modifies this
      ensures ok == AfterVec16(old(rest)).Some? && (ok ==> AfterVec16(old(rest)) == Some(rest))
    {
      var len := TakeU16();
      if len.None? {
        return false;
      }
      var data := Take(len.value);
      ok := data.Some?;
    }
  }

  method ReadNames(bytes: seq<byte>) returns (r: Parsed)
    ensures r == ParseNames(bytes)
  {
    var list := new Cursor(bytes);
    while list.rest != []
      invariant ParseNames(list.rest) == ParseNames(bytes)
      decreases |list.rest|
    {
      ghost var before := list.rest;
      var kind := list.TakeU8();
      var len := list.TakeU16();
      if len.None? {
        return Err(Malformed);
      }
      assert before[1..][..2] == before[1..3];
      var name := list.Take(len.value);
      if name.None? {
        return Err(Malformed);
      }
      assert name.value == before[3..3 + len.value];
      if kind.value == NAME_TYPE_HOST {
        return Ok(HostName(name.value));
      }
    }
    return Ok(None);
  }

  method ReadServerName(data: seq<byte>) returns (r: Parsed)
    ensures r == ParseServerName(data)
  {
    var c := new Cursor(data);
    var len := c.TakeU16();
    if len.None? {
      return Err(Malformed);
    }
    var list := c.Take(len.value);
    if list.None? {
      return Err(Malformed);
    }
    assert list.value == data[2..2 + len.value];
    r := ReadNames(list.value);
  }

  method ReadExts(bytes: seq<byte>) returns (r: Parsed)
    ensures r == ParseExts(bytes)
  {
    var exts := new Cursor(bytes);
    while exts.rest != []
      invariant ParseExts(exts.rest) == ParseExts(bytes)
      decreases |exts.rest|
    {
      ghost var before := exts.rest;
      var kind := exts.TakeU16();
      if kind.None? {
        return Err(Malformed);
      }
      var len := exts.TakeU16();
      if len.None? {
        return Err(Malformed);
      }
      assert before[2..][..2] == before[2..4];
      var data := exts.Take(len.value);
      if data.None? {
        return Err(Malformed);
      }
      assert data.value == before[4..4 + len.value];
      if kind.value == EXT_SERVER_NAME {
        r := ReadServerName(data.value);
        return;
      }
    }
    return Ok(None);
  }

  method ReadHello(bytes: seq<byte>) returns (r: Parsed)
    ensures r == ParseHello(bytes)
  {
    hide AfterVec8, AfterVec16, ParseExts, FromU16;
    var hello := new Cursor(bytes);
    var version := hello.Take(2);
    if version.None? {
      return Err(Malformed);
    }
    var random := hello.Take(32);
    if random.None? {
      return Err(Malformed);
    }
    assert hello.rest == bytes[34..];
    var session := hello.SkipVec8();
    if !session {
      return Err(Malformed);
    }
    var suites := hello.SkipVec16();
    if !suites {
      return Err(Malformed);
    }
    var compression := hello.SkipVec8();
    if !compression {
      return Err(Malformed);
    }
    if hello.rest == [] {
      return Ok(None);
    }
    var rest := hello.rest;
    var len := hello.TakeU16();
    if len.None? {
      return Err(Malformed);
    }
    var exts := hello.Take(len.value);
    if exts.None? {
      return Err(Malformed);
    }
    assert exts.value == rest[2..2 + len.value];
    r := ReadExts(exts.value);
  }

  method ReadHandshake(body: seq<byte>) returns (r: Parsed)
    ensures r == ParseHandshake(body)
  {
    var c := new Cursor(body);
    var kind := c.TakeU8();
    if kind.None? {
      return Err(Malformed);
    }
    if kind.value != CLIENT_HELLO {
      return Err(NotAClientHello);
    }
    var len := c.TakeU24();
    if len.None? {
      return Err(Malformed);
    }
    assert body[1..][..3] == body[1..4];
    var hello := c.Take(len.value);
    if hello.None? {
      return Err(SpansRecords);
    }
    assert hello.value == body[4..4 + len.value];
    r := ReadHello(hello.value);
  }

  // ---------- Peeking at a stream

  datatype Peeked = Peeked(sni: Option<seq<byte>>, buffered: seq<byte>)

  /** The record cut short, or a read that failed. */
  predicate CutShort(e: SniError) {
    e.TruncatedHeader? || e.TruncatedRecord?
  }

  method ReadRecord(src: Source) returns (r: Result<seq<byte>, SniError>)
    modifies src
    ensures r.Ok? ==> r.value + src.unread == old(src.unread)
    ensures r.Ok? ==>
      && |r.value| >= RECORD_HEADER_LEN
      && CheckHeader(r.value[..RECORD_HEADER_LEN]) == Ok(|r.value| - RECORD_HEADER_LEN)
    ensures r.Err? && (old(src.Healthy()) || !CutShort(r.error)) ==> ParseRecord(old(src.unread)) == Err(r.error)
    ensures old(src.Healthy()) ==> src.Healthy()
  {
    var header := src.ReadExact(RECORD_HEADER_LEN);
    if header.None? {
      return Err(TruncatedHeader);
    }
    assert old(src.unread)[..RECORD_HEADER_LEN] == header.value;
    var checked := CheckHeader(header.value);
    if checked.Err? {
      return Err(checked.error);
    }
    var body := src.ReadExact(checked.value);
    if body.None? {
      return Err(TruncatedRecord);
    }
    r := Ok(header.value + body.value);
    assert r.value[..RECORD_HEADER_LEN] == header.value;
    assert old(src.unread) == header.value + body.value + src.unread;
  }

  /**
   * Peeking decides as parsing the whole stream would, and loses nothing: what it kept and
   * what is unread are the stream.
   */
  method PeekSni(src: Source) returns (r: Result<Peeked, SniError>)
    modifies src
    ensures r.Ok? ==>
      && ParseRecord(old(src.unread)) == Ok(r.value.sni)
      && r.value.buffered + src.unread == old(src.unread)
    ensures r.Err? && (old(src.Healthy()) || !CutShort(r.error)) ==> ParseRecord(old(src.unread)) == Err(r.error)
    ensures old(src.Healthy()) ==> src.Healthy()
  {
    hide CheckHeader, ParseHandshake;
    var record := ReadRecord(src);
    if record.Err? {
      return Err(record.error);
    }
    RecordAlone(record.value, src.unread);
    var body := record.value[RECORD_HEADER_LEN..];
    assert body == record.value[RECORD_HEADER_LEN..|record.value|];
    var sni := ReadHandshake(body);
    match sni
    case Err(e) =>
      HandshakeErrors(body);
      return Err(e);
    case Ok(name) => return Ok(Peeked(name, record.value));
  }

  lemma {:induction false} NamesErrors(list: seq<byte>)
    ensures ParseNames(list).Err? ==> ParseNames(list).error == Malformed
    decreases |list|
  {
    hide HostName;
    if |list| >= 3 && |list| - 3 >= FromU16(list[1..3]) {
      NamesErrors(list[3 + FromU16(list[1..3])..]);
    }
  }

  lemma {:induction false} ExtsErrors(exts: seq<byte>)
    ensures ParseExts(exts).Err? ==> ParseExts(exts).error == Malformed
    decreases |exts|
  {
    hide ParseNames;
    if |exts| >= 4 && |exts| - 4 >= FromU16(exts[2..4]) {
      var data := exts[4..4 + FromU16(exts[2..4])];
      if |data| >= 2 && |data| - 2 >= FromU16(data[..2]) {
        NamesErrors(data[2..2 + FromU16(data[..2])]);
      }
      ExtsErrors(exts[4 + FromU16(exts[2..4])..]);
    }
  }

  lemma HelloErrors(hello: seq<byte>)
    ensures ParseHello(hello).Err? ==> ParseHello(hello).error == Malformed
  {
    hide AfterVec8, AfterVec16, ParseExts, FromU16;
    if ParseHello(hello).Err? && |hello| >= 34 && AfterVec8(hello[34..]).Some?
      && AfterVec16(AfterVec8(hello[34..]).value).Some? {
      var compression := AfterVec16(AfterVec8(hello[34..]).value).value;
      if AfterVec8(compression).Some? {
        var exts := AfterVec8(compression).value;
        if |exts| >= 2 && |exts| - 2 >= FromU16(exts[..2]) {
          ExtsErrors(exts[2..2 + FromU16(exts[..2])]);
        }
      }
    }
  }

  lemma HandshakeErrors(body: seq<byte>)
    ensures ParseHandshake(body).Err? ==> !CutShort(ParseHandshake(body).error)
  {
    if ParseHandshake(body).Err? && body != [] && body[0] == CLIENT_HELLO && |body| >= 4
      && |body| - 4 >= FromU24(body[1..4]) {
      HelloErrors(body[4..4 + FromU24(body[1..4])]);
    }
  }

  /** Bytes after a whole record change nothing. */
  lemma RecordAlone(record: seq<byte>, after: seq<byte>)
    requires |record| >= RECORD_HEADER_LEN && CheckHeader(record[..RECORD_HEADER_LEN]).Ok?
    requires |record| >= RECORD_HEADER_LEN + CheckHeader(record[..RECORD_HEADER_LEN]).value
    ensures ParseRecord(record + after) == ParseRecord(record)
  {
    var len := CheckHeader(record[..RECORD_HEADER_LEN]).value;
    assert (record + after)[..RECORD_HEADER_LEN] == record[..RECORD_HEADER_LEN];
    assert (record + after)[RECORD_HEADER_LEN..RECORD_HEADER_LEN + len]
      == record[RECORD_HEADER_LEN..RECORD_HEADER_LEN + len];
  }

  /** A result does not depend on what follows, unless the result was that the record is cut short. */
  lemma MoreBytesChangeNothing(s: seq<byte>, more: seq<byte>)
    requires ParseRecord(s) != Err(TruncatedHeader) && ParseRecord(s) != Err(TruncatedRecord)
    ensures ParseRecord(s + more) == ParseRecord(s)
  {
    assert (s + more)[..RECORD_HEADER_LEN] == s[..RECORD_HEADER_LEN];
    if CheckHeader(s[..RECORD_HEADER_LEN]).Ok? {
      RecordAlone(s, more);
    }
  }
}
