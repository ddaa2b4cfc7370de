/** `stbi__write_context`: a callback's output behind a small buffer. */
module WriteContext {
  import opened Bits

  class Context {
    var sent: seq<byte>
    const buffer: array<byte>
    var used: nat

    ghost predicate Valid()
      reads this
    {
      buffer.Length == 64 && used <= 64
    }

    // What has been written, the buffered bytes last
    ghost function Written(): seq<byte>
      requires Valid()
      reads this, buffer
    {
      sent + buffer[..used]
    }

    constructor ()
      ensures Valid() && fresh(buffer) && Written() == [] && used == 0
    {
      sent, used := [], 0;
      buffer := new byte[64](_ => 0);
    }

    method Flush()
      requires Valid()
      modifies this
      ensures Valid() && used == 0 && Written() == old(Written()) == sent
    {
      if used > 0 {
        sent := sent + buffer[..used];
        used := 0;
      }
    }

    method Write1(a: byte)
      requires Valid()
      modifies this, buffer
      ensures Valid() && Written() == old(Written()) + [a]
    {
      if used + 1 > 64 {
        Flush();
      }
      buffer[used] := a;
      used := used + 1;
    }

    method Write3(a: byte, b: byte, c: byte)
      requires Valid()
      modifies this, buffer
      ensures Valid() && Written() == old(Written()) + [a, b, c]
    {
      if used + 3 > 64 {
        Flush();
      }
      var n := used;
      used := n + 3;
      buffer[n], buffer[n + 1], buffer[n + 2] := a, b, c;
    }

    // The callback itself, for writers that do not buffer
    method Send(s: seq<byte>)
      requires Valid() && used == 0
      modifies this`sent
      ensures Valid() && used == 0 && Written() == old(Written()) + s
    {
      sent := sent + s;
    }
  }
}
