/** The growable byte array of stb_image_write.h.

    The C code keeps capacity and count in front of the elements and tests the
    capacity only in `stbiw__sbpush`; the stored-block rewrite of the
    compressor copies straight past the count.  A null pointer is modelled by
    an array of length 0, which no allocation produces. */
module StretchyBuffer {
  import opened Bits

  class Buffer {
    var mem: array<byte>
    var count: nat

    ghost predicate Valid()
      reads this
    {
      count < mem.Length || (count == 0 && mem.Length == 0)
    }

    ghost function Contents(): (s: seq<byte>)
      requires Valid()
      reads this, mem
    {
      mem[..count]
    }

    constructor ()
      ensures Valid() && fresh(mem) && Contents() == []
    {
      mem := new byte[0];
      count := 0;
    }

    method Grow(increment: nat)
      requires Valid() && increment > 0
      modifies this`mem
      ensures fresh(mem)
      ensures mem.Length == if old(mem.Length) > 0 then 2 * old(mem.Length) + increment else increment + 1
      ensures Valid() && Contents() == old(Contents())
    {
      var m := if mem.Length > 0 then 2 * mem.Length + increment else increment + 1;
      var p := new byte[m](_ => 0);
      for i := 0 to count
        invariant mem == old(mem) && count == old(count)
        invariant p[..i] == mem[..i]
      {
        p[i] := mem[i];
      }
      mem := p;
    }

    method Push(v: byte)
      requires Valid()
      modifies this, mem
      ensures mem == old(mem) || fresh(mem)
      ensures mem.Length >= old(mem.Length)
      ensures Valid() && Contents() == old(Contents()) + [v]
    {
      if mem.Length == 0 || count + 1 >= mem.Length {
        Grow(1);
      }
      mem[count] := v;
      count := count + 1;
    }

    method Truncate(n: nat)
      requires Valid() && n <= count
      modifies this`count
      ensures Valid() && Contents() == old(Contents())[..n]
    {
      count := n;
    }

    // memcpy past the count, with no test of the capacity
    method CopyRaw(src: seq<byte>)
      requires Valid() && count + |src| < mem.Length
      modifies this`count, mem
      ensures Valid() && Contents() == old(Contents()) + src
    {
      for i := 0 to |src|
        invariant count == old(count) && mem[..count] == old(mem[..count])
        invariant mem[count..count + i] == src[..i]
      {
        mem[count + i] := src[i];
      }
      count := count + |src|;
    }
  }
}
