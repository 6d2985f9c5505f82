/** Files and buffers as the program sees them: reads and writes that may be short, and may fail. */
module Streams {
  import opened Bytes
  import opened Format

  function Min(a: nat, b: nat): nat { if a < b then a else b }

  /** Something to read from. An unreliable source may fail any read; every source may read short. */
  class Source {
    const data: bytes
    const reliable: bool
    var pos: nat

    ghost predicate Valid() reads this { pos <= |data| }

    ghost function Rest(): bytes
      requires Valid()
      reads this
    {
      data[pos..]
    }

    constructor (data: bytes, reliable: bool)
      ensures Valid() && pos == 0 && this.data == data && this.reliable == reliable
    {
      this.data, this.reliable, pos := data, reliable, 0;
    }

    method Seek(p: nat)
      requires p <= |data|
      modifies this
      ensures Valid() && pos == p
    {
      pos := p;
    }

    /** At least one byte unless at the end, never more than `want`. */
    method Read(want: nat) returns (r: Option<bytes>)
      requires Valid() && want > 0
      modifies this
      ensures Valid()
      ensures r.None? ==> !reliable && pos == old(pos)
      ensures r.Some? ==> |r.value| <= want && pos == old(pos) + |r.value| && r.value == data[old(pos)..pos]
      ensures r.Some? ==> (r.value == [] <==> old(pos) == |data|)
    {
      var fails: bool := *;
      if fails && !reliable {
        return None;
      }
      var most := Min(want, |data| - pos);
      var n: nat :| n <= most && (n == 0 ==> most == 0);
      r := Some(data[pos..pos + n]);
      pos := pos + n;
    }

    /** All of the next `n` bytes, however many reads it takes. */
    method ReadExact(n: nat) returns (r: Result<bytes>)
      requires Valid()
      modifies this
      ensures Valid() && old(pos) <= pos
      ensures r.Ok? ==> pos == old(pos) + n && r.value == data[old(pos)..pos]
      ensures r.Err? ==> r.error == IoFault || r.error == ShortRead
      ensures r == Err(ShortRead) ==> old(pos) + n > |data|
      ensures r == Err(IoFault) ==> !reliable
    {
      var buf: bytes := [];
      while |buf| < n
        invariant Valid() && |buf| <= n && pos == old(pos) + |buf| && buf == data[old(pos)..pos]
        decreases n - |buf|
      {
        var chunk := Read(n - |buf|);
        if chunk.None? {
          return Err(IoFault);
        }
        if chunk.value == [] {
          return Err(ShortRead);
        }
        buf := buf + chunk.value;
      }
      r := Ok(buf);
    }
  }

  /** Something to write to, under the same rules. */
  class Sink {
    const reliable: bool
    var data: bytes

    constructor (reliable: bool)
      ensures data == [] && this.reliable == reliable
    {
      this.reliable, data := reliable, [];
    }

    method Truncate() returns (ok: bool)
      modifies this
      ensures ok ==> data == []
      ensures !ok ==> !reliable && data == old(data)
    {
      var fails: bool := *;
      if fails && !reliable {
        return false;
      }
      data := [];
      ok := true;
    }

    method Write(buf: bytes) returns (n: Option<nat>)
      requires buf != []
      modifies this
      ensures n.Some? ==> 0 < n.value <= |buf| && data == old(data) + buf[..n.value]
      ensures n.None? ==> !reliable && data == old(data)
    {
      var fails: bool := *;
      if fails && !reliable {
        return None;
      }
      var k: nat :| 0 < k <= |buf|;
      data := data + buf[..k];
      n := Some(k);
    }

    /** What a failed flush had not yet passed on is lost. */
    method Flush() returns (ok: bool)
      modifies this
      ensures ok ==> data == old(data)
      ensures !ok ==> !reliable && data <= old(data)
    {
      var fails: bool := *;
      if fails && !reliable {
        var kept: nat :| kept <= |data|;
        data := data[..kept];
        return false;
      }
      ok := true;
    }

    method WriteAll(buf: bytes) returns (ok: bool)
      modifies this
      ensures ok ==> data == old(data) + buf
      ensures !ok ==> !reliable && old(data) <= data <= old(data) + buf
    {
      var done := 0;
      while done < |buf|
        invariant done <= |buf| && data == old(data) + buf[..done]
      {
        var n := Write(buf[done..]);
        if n.None? {
          return false;
        }
        assert buf[..done] + buf[done..][..n.value] == buf[..done + n.value];
        done := done + n.value;
      }
      assert buf[..done] == buf;
      ok := true;
    }
  }
}
