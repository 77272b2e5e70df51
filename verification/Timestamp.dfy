/** The timestamp file: a `time_t` in host octet order, written and read at offset 0. */
module Timestamp {
  import opened Settings

  type octet = b: int | 0 <= b < 256

  const SIZE: nat := 8
  const TWO_63: int := 0x8000_0000_0000_0000
  const TWO_64: int := 0x1_0000_0000_0000_0000

  function Pow256(n: nat): nat {
    if n == 0 then 1 else 256 * Pow256(n - 1)
  }

  function ToBytes(x: nat, n: nat): (s: seq<octet>)
    ensures |s| == n
  {
    if n == 0 then [] else [x % 256] + ToBytes(x / 256, n - 1)
  }

  function FromBytes(s: seq<octet>): nat {
    if s == [] then 0 else s[0] + 256 * FromBytes(s[1..])
  }

  lemma {:induction false} BytesRoundTrip(x: nat, n: nat)
    requires x < Pow256(n)
    ensures FromBytes(ToBytes(x, n)) == x
  {
    if n > 0 {
      var s := ToBytes(x, n);
      assert s[1..] == ToBytes(x / 256, n - 1);
      BytesRoundTrip(x / 256, n - 1);
    }
  }

  function Encode(t: int): (s: seq<octet>)
    ensures |s| == SIZE
  {
    ToBytes(t % TWO_64, SIZE)
  }

  function Decode(s: seq<octet>): int {
    var u := FromBytes(s);
    if u < TWO_63 then u else u - TWO_64
  }

  /** pwritev at offset 0: bytes past the new data stay in the file. */
  function Write(file: seq<octet>, data: seq<octet>): seq<octet> {
    data + (if |file| > |data| then file[|data|..] else [])
  }

  /** preadv at offset 0 fails unless it fills the buffer. */
  function Read(file: seq<octet>): Option<int> {
    if |file| < SIZE then None else Some(Decode(file[..SIZE]))
  }

  /** load_disk_timestamp: only a sane time is reported; `file` is None when it cannot be opened. */
  function Load(c: Config, file: Option<seq<octet>>): Option<int> {
    if file.None? then None
    else
      var t := Read(file.value);
      if t.Some? && c.IsSane(t.value) then t else None
  }

  /** A saved time is read back exactly, whatever the file held before. */
  lemma SaveThenRead(file: seq<octet>, t: int)
    requires -TWO_63 <= t < TWO_63
    ensures Read(Write(file, Encode(t))) == Some(t)
  {
    var u := t % TWO_64;
    assert Pow256(SIZE) == TWO_64 by {
      assert Pow256(4) == 0x1_0000_0000;
    }
    BytesRoundTrip(u, SIZE);
    assert Write(file, Encode(t))[..SIZE] == Encode(t);
  }
}
