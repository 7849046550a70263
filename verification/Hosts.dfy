/** Host normalisation: the form in which hosts are stored for matching and looked up. */
module Hosts {

  /** The Unicode White_Space characters, which is what trimming removes. */
  predicate IsWhitespace(c: char) {
    || '\U{9}' <= c <= '\U{D}'
    || c in {' ', '\U{85}', '\U{A0}', '\U{1680}', '\U{2028}', '\U{2029}', '\U{202F}', '\U{205F}', '\U{3000}'}
    || '\U{2000}' <= c <= '\U{200A}'
  }

  function TrimStart(s: string): string {
    if s != "" && IsWhitespace(s[0]) then TrimStart(s[1..]) else s
  }

  function TrimEnd(s: string): string {
    if s != "" && IsWhitespace(s[|s| - 1]) then TrimEnd(s[..|s| - 1]) else s
  }

  function Trim(s: string): string {
    TrimEnd(TrimStart(s))
  }

  function DropDot(s: string): string {
    if s != "" && s[|s| - 1] == '.' then s[..|s| - 1] else s
  }

  function LowerChar(c: char): char {
    if 'A' <= c <= 'Z' then c - 'A' + 'a' else c
  }

  function Lowercase(s: string): string {
    seq(|s|, i requires 0 <= i < |s| => LowerChar(s[i]))
  }

  function NormalizeHost(host: string): string {
    Lowercase(DropDot(Trim(host)))
  }

  /** What is left of a host before its case is folded. */
  function Bare(host: string): string {
    DropDot(Trim(host))
  }

  lemma {:induction false} TrimStartEnds(s: string)
    ensures TrimStart(s) == "" || !IsWhitespace(TrimStart(s)[0])
  {
    if s != "" && IsWhitespace(s[0]) {
      TrimStartEnds(s[1..]);
    }
  }

  lemma {:induction false} TrimEndKeepsFront(s: string)
    ensures TrimEnd(s) <= s
    ensures TrimEnd(s) == "" || !IsWhitespace(TrimEnd(s)[|TrimEnd(s)| - 1])
  {
    if s != "" && IsWhitespace(s[|s| - 1]) {
      TrimEndKeepsFront(s[..|s| - 1]);
    }
  }

  lemma {:induction false} LowercaseTrimStart(s: string)
    ensures TrimStart(Lowercase(s)) == Lowercase(TrimStart(s))
  {
    if s != "" && IsWhitespace(s[0]) {
      LowercaseTrimStart(s[1..]);
      assert Lowercase(s)[1..] == Lowercase(s[1..]);
    }
  }

  lemma {:induction false} LowercaseTrimEnd(s: string)
    ensures TrimEnd(Lowercase(s)) == Lowercase(TrimEnd(s))
  {
    if s != "" && IsWhitespace(s[|s| - 1]) {
      LowercaseTrimEnd(s[..|s| - 1]);
      assert Lowercase(s)[..|s| - 1] == Lowercase(s[..|s| - 1]);
    }
  }

  /** The code points of white space, one by one or by their range. */
  lemma WhitespaceCodes(c: char)
    ensures IsWhitespace(c) <==>
      c as int in {9, 10, 11, 12, 13, 32, 133, 160, 5760, 8232, 8233, 8239, 8287, 12288} || 8192 <= c as int < 8203
  {
  }

  /** What trimming takes off either end. */
  lemma {:induction false} TrimStartSplits(s: string) returns (before: string)
    ensures s == before + TrimStart(s) && forall k :: 0 <= k < |before| ==> IsWhitespace(before[k])
  {
    if s != "" && IsWhitespace(s[0]) {
      var rest := TrimStartSplits(s[1..]);
      before := [s[0]] + rest;
    } else {
      before := "";
    }
  }

  lemma {:induction false} TrimEndSplits(s: string) returns (after: string)
    ensures s == TrimEnd(s) + after && forall k :: 0 <= k < |after| ==> IsWhitespace(after[k])
  {
    if s != "" && IsWhitespace(s[|s| - 1]) {
      var rest := TrimEndSplits(s[..|s| - 1]);
      after := rest + [s[|s| - 1]];
    } else {
      after := "";
    }
  }

  /**
   * A host is white space, a middle that neither starts nor ends with any, and
   * white space. It normalises to the middle without its last dot, if it ends in
   * one, the 26 capital letters replaced by the small ones 32 places on and
   * every other character kept.
   */
  lemma NormalizeExactly(host: string) returns (before: string, middle: string, after: string)
    ensures host == before + middle + after
    ensures forall k :: 0 <= k < |before| ==> IsWhitespace(before[k])
    ensures forall k :: 0 <= k < |after| ==> IsWhitespace(after[k])
    ensures middle != "" ==> !IsWhitespace(middle[0]) && !IsWhitespace(middle[|middle| - 1])
    ensures |NormalizeHost(host)| == |middle| - if middle != "" && middle[|middle| - 1] as int == 46 then 1 else 0
    ensures forall k :: 0 <= k < |NormalizeHost(host)| ==>
      NormalizeHost(host)[k] as int == middle[k] as int + if 65 <= middle[k] as int <= 90 then 32 else 0
  {
    before := TrimStartSplits(host);
    after := TrimEndSplits(TrimStart(host));
    middle := Trim(host);
    TrimStartEnds(host);
    TrimEndKeepsFront(TrimStart(host));
    hide TrimStart, TrimEnd, IsWhitespace;
  }

  /** Hosts that differ only in ASCII case normalise alike. */
  lemma NormalizeIgnoresCase(a: string, b: string)
    requires |a| == |b|
    requires forall k :: 0 <= k < |a| ==>
      || a[k] == b[k]
      || (65 <= a[k] as int <= 90 && b[k] as int == a[k] as int + 32)
      || (65 <= b[k] as int <= 90 && a[k] as int == b[k] as int + 32)
    ensures NormalizeHost(a) == NormalizeHost(b)
  {
    assert Lowercase(a) == Lowercase(b);
    NormalizeOfLowercase(a);
    NormalizeOfLowercase(b);
  }

  lemma NormalizeOfLowercase(host: string)
    ensures NormalizeHost(Lowercase(host)) == NormalizeHost(host)
  {
    LowercaseTrimStart(host);
    LowercaseTrimEnd(TrimStart(host));
    var t := Trim(host);
    assert Trim(Lowercase(host)) == Lowercase(t);
    assert DropDot(Lowercase(t)) == Lowercase(DropDot(t));
    assert Lowercase(Lowercase(DropDot(t))) == Lowercase(DropDot(t));
  }

  /**
   * Normalising twice is the same as once exactly when the host, trimmed and
   * with one dot dropped, does not end in another dot or in white space.
   */
  lemma NormalizeTwice(host: string)
    ensures NormalizeHost(NormalizeHost(host)) == NormalizeHost(host)
       <==> Bare(host) == "" || (Bare(host)[|Bare(host)| - 1] != '.' && !IsWhitespace(Bare(host)[|Bare(host)| - 1]))
  {
    var d := Bare(host);
    TrimStartEnds(host);
    TrimEndKeepsFront(TrimStart(host));
    NormalizeOfLowercase(d);
    assert NormalizeHost(NormalizeHost(host)) == NormalizeHost(d);
    assert d == "" || TrimStart(d) == d;
    TrimEndKeepsFront(d);
    assert |Lowercase(d)| == |d|;
    assert |NormalizeHost(d)| == |DropDot(TrimEnd(d))|;
  }

  /** A host with two trailing dots loses one per call. */
  lemma NormalizeTwiceFails()
    ensures NormalizeHost("a..") == "a." && NormalizeHost("a.") == "a"
  {
    assert TrimStart("a..") == "a.." && TrimEnd("a..") == "a..";
    assert TrimStart("a.") == "a." && TrimEnd("a.") == "a.";
    assert DropDot("a..") == "a." && DropDot("a.") == "a";
    assert Lowercase("a.") == "a." && Lowercase("a") == "a";
  }
}
