/** The byte transport of the test BIO: two queues, never blocking, never failing. */
module Transport {
  type byte = c: char | c as int < 256
  type bytes = seq<byte>

  const CRLF: bytes := "\r\n"

  function Least(a: int, b: int): int {
    if a < b then a else b
  }

  /** How many of `available` bytes a read of `size` returns. */
  function Available(available: nat, size: int): nat {
    if size <= 0 then 0 else Least(size, available)
  }

  class TestBio {
    var input: bytes
    var output: bytes

    constructor ()
      ensures input == [] && output == []
    {
      input, output := [], [];
    }

    method AddInput(data: bytes)
      modifies this`input
      ensures input == old(input) + data
    {
      input := input + data;
    }

    method Write(data: bytes) returns (r: int)
      modifies this`output
      ensures output == old(output) + data && r == |data|
    {
      output := output + data;
      r := |data|;
    }

    /** Moves the front of the queue to `buf[at..]`, which must have room for `size` bytes. */
    method Read(buf: array<byte>, at: nat, size: int) returns (r: int)
      requires at + size <= buf.Length && at <= buf.Length
      modifies this`input, buf
      ensures r == Available(|old(input)|, size)
      ensures input == old(input)[r..]
      ensures buf[..] == old(buf[..at]) + old(input)[..r] + old(buf[at + r..])
    {
      r := Available(|input|, size);
      var data := input[..r];
      forall i | 0 <= i < r { buf[at + i] := data[i]; }
      input := input[r..];
    }
  }

  /** memcpy() into `buf` at `at`. */
  method CopyInto(buf: array<byte>, at: nat, data: bytes)
    requires at + |data| <= buf.Length
    modifies buf
    ensures buf[..] == old(buf[..at]) + data + old(buf[at + |data|..])
  {
    forall i | 0 <= i < |data| { buf[at + i] := data[i]; }
  }
}
