/** Byte streams as the relay sees them: reads and writes move any amount at a time and may fail at any time. */
module Streams {
  import opened Basics

  /** A stream to read from, to its end. The schedule decides how much each read returns: 0 is a failure. */
  class Source {
    var unread: seq<byte>
    var schedule: seq<nat>

    constructor (s: seq<byte>, schedule: seq<nat>)
      ensures unread == s && this.schedule == schedule
    {
      unread, this.schedule := s, schedule;
    }

    /** No read will fail. */
    predicate Healthy()
      reads this
    {
      0 !in schedule
    }

    method Read(room: nat) returns (r: Option<seq<byte>>)
      requires room > 0
      modifies this
      ensures old(Healthy()) ==> Healthy() && r.Some?
      ensures r.None? ==> unread == old(unread)
      ensures r.Some? ==> |r.value| <= room && old(unread) == r.value + unread && (r.value == [] ==> unread == [])
    {
      var n := |unread| + 1;
      if schedule != [] {
        n, schedule := schedule[0], schedule[1..];
      }
      if n == 0 {
        return None;
      }
      n := if n < |unread| then n else |unread|;
      n := if n < room then n else room;
      r := Some(unread[..n]);
      unread := unread[n..];
    }

    method ReadExact(n: nat) returns (r: Option<seq<byte>>)
      modifies this
      ensures r.Some? ==> |r.value| == n && old(unread) == r.value + unread
      ensures |unread| <= |old(unread)|
      ensures old(Healthy()) ==> Healthy() && (r.Some? <==> |old(unread)| >= n)
    {
      var got: seq<byte> := [];
      while |got| < n
        invariant |got| <= n && got + unread == old(unread) && (old(Healthy()) ==> Healthy())
        decreases n - |got|
      {
        var part := Read(n - |got|);
        if part.None? || part.value == [] {
          return None;
        }
        got := got + part.value;
      }
      return Some(got);
    }
  }

  /** A stream to write to. The schedule bounds how much of each write goes out before it fails. */
  class Sink {
    var written: seq<byte>
    var shut: bool
    var schedule: seq<nat>

    constructor (schedule: seq<nat>)
      ensures written == [] && !shut && this.schedule == schedule
    {
      written, shut, this.schedule := [], false, schedule;
    }

    /** No write will fail. */
    predicate Healthy()
      reads this
    {
      schedule == []
    }

    method WriteAll(data: seq<byte>) returns (ok: bool)
      modifies this`written, this`schedule
      ensures old(Healthy()) ==> Healthy() && ok
      ensures ok ==> written == old(written) + data
      ensures old(written) <= written <= old(written) + data
    {
      var n := |data|;
      if schedule != [] {
        n, schedule := schedule[0], schedule[1..];
      }
      if n < |data| {
        written := written + data[..n];
        return false;
      }
      written := written + data;
      return true;
    }

    method Shutdown()
      modifies this`shut
      ensures shut
    {
      shut := true;
    }
  }

  /** A live byte counter. */
  class Counter {
    var value: nat

    constructor ()
      ensures value == 0
    {
      value := 0;
    }
  }
}
