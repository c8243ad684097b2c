/**
 * A reliable ordered byte stream, as `quic.Stream` is used by the channel. The bytes that will
 * still arrive are a sequence of chunks of any sizes; after the last one the stream ends.
 */
module ByteStreams {
  import opened Prelude

  datatype StreamError = EOF | UnexpectedEOF

  function Flatten(chunks: seq<Bytes>): Bytes {
    if chunks == [] then [] else chunks[0] + Flatten(chunks[1..])
  }

  /** `io.ReadFull` on the bytes still to come: the wanted bytes, or the end of the stream,
      which is unexpected unless it is met at once. */
  function ReadFullSpec(b: Bytes, n: nat): (r: Result<Bytes, StreamError>) {
    if n <= |b| then Ok(b[..n]) else Err(if b == [] then EOF else UnexpectedEOF)
  }

  function AfterReadFull(b: Bytes, n: nat): Bytes {
    if n <= |b| then b[n..] else []
  }

  class ByteStream {
    var inbound: seq<Bytes>
    var outbound: Bytes
    var writable: bool

    constructor (inbound: seq<Bytes>)
      ensures Unread() == Flatten(inbound) && outbound == [] && writable
    {
      this.inbound := inbound;
      this.outbound := [];
      this.writable := true;
    }

    ghost function Unread(): Bytes
      reads this`inbound
    {
      Flatten(inbound)
    }

    /** `Read`: some of the next bytes, at most `max`, however they were chunked. */
    method ReadSome(max: nat) returns (b: Bytes)
      requires max > 0
      modifies this`inbound
      ensures |b| <= max && b + Unread() == old(Unread())
      ensures b == [] <==> old(Unread()) == []
    {
      while inbound != [] && inbound[0] == []
        invariant Unread() == old(Unread())
        decreases |inbound|
      {
        inbound := inbound[1..];
      }
      if inbound == [] {
        return [];
      }
      var first := inbound[0];
      if |first| <= max {
        b := first;
        inbound := inbound[1..];
      } else {
        b := first[..max];
        ghost var rest := inbound[1..];
        inbound := [first[max..]] + inbound[1..];
        assert inbound[1..] == rest;
        assert first == b + first[max..];
      }
    }

    /** `io.ReadFull`. */
    method ReadFull(n: nat) returns (r: Result<Bytes, StreamError>)
      modifies this`inbound
      ensures r == ReadFullSpec(old(Unread()), n)
      ensures Unread() == AfterReadFull(old(Unread()), n)
    {
      ghost var all := Unread();
      var got: Bytes := [];
      while |got| < n
        invariant |got| <= n && got + Unread() == all
      {
        var more := ReadSome(n - |got|);
        if more == [] {
          assert got == all;
          return Err(if got == [] then EOF else UnexpectedEOF);
        }
        got := got + more;
      }
      assert got == all[..n] && Unread() == all[n..];
      return Ok(got);
    }

    /** `Write`: all of the bytes, unless the stream was closed or its session lost. */
    method Write(b: Bytes) returns (ok: bool)
      modifies this`outbound
      ensures ok == writable
      ensures outbound == if writable then old(outbound) + b else old(outbound)
    {
      ok := writable;
      if ok {
        outbound := outbound + b;
      }
    }

    method Close()
      modifies this`writable
      ensures !writable
    {
      writable := false;
    }
  }
}
