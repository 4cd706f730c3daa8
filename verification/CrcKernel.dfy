/** The kernel of `bench/kernels/crc32.c`: its table, its buffer and its byte loop. */
module CrcKernel {
  import opened Crc

  const NBYTE := 2048

  /** Byte `i` of the benchmark's message. */
  function Pattern(i: nat): bv8 {
    ((i * 31 + 7) % 256) as bv8
  }

  function Message(): (m: seq<bv8>)
    ensures |m| == 2048
  {
    seq(NBYTE, i requires 0 <= i < NBYTE => Pattern(i))
  }

  lemma {:induction false} Remainder(x: nat, q: nat, v: nat)
    requires x == 256 * q + v && v < 256
    ensures x % 256 == v
  {
  }

  /** Byte `i` of the message is what is left of `31 * i + 7` when multiples of 256 are taken away. */
  lemma {:induction false} MessageByte(i: nat, q: nat, v: nat)
    requires i * 31 + 7 == 256 * q + v && v < 256
    ensures Pattern(i) == v as bv8 && (i < 2048 ==> Message()[i] == Pattern(i))
  {
    Remainder(i * 31 + 7, q, v);
  }

  lemma {:induction false} LowByte(x: bv32)
    ensures ((x & 0xFF) as nat) < 256
  {
  }

  lemma {:induction false} ThereAndBack(x: bv32)
    ensures (x as nat) as bv32 == x
  {
  }

  /** The first `n` table entries. */
  predicate Filled(t: seq<bv32>, n: nat)
    requires n <= |t| <= 256
  {
    forall i: nat :: i < n ==> t[i] == TableEntry(i as bv32)
  }

  lemma {:induction false} FilledOne(t: seq<bv32>, u: seq<bv32>, i: nat, j: nat)
    requires j == i + 1 <= |t| <= 256 && Filled(t, i) && u == t[i := TableEntry(i as bv32)]
    ensures Filled(u, j)
  {
    assert forall k: nat :: k < i ==> u[k] == t[k];
  }

  class Kernel {
    const buf: array<bv8>
    const table: array<bv32>
    var crcOut: bv32

    constructor ()
      ensures fresh(buf) && fresh(table) && buf.Length == NBYTE && table.Length == 256
    {
      buf, table, crcOut := new bv8[NBYTE], new bv32[256], 0;
    }

    /** The table holds eight shifts of each byte. */
    ghost predicate TableReady()
      reads table
    {
      table.Length == 256 && Filled(table[..], 256)
    }

    method Entry(i: bv32) returns (c: bv32)
      ensures c == TableEntry(i)
    {
      c := i;
      for k := 0 to 8
        invariant ShiftN(c, 8 - k) == TableEntry(i)
      {
        c := if c & 1 == 1 then POLY ^ (c >> 1) else c >> 1;
      }
    }

    method FillBuffer()
      requires buf.Length == NBYTE
      modifies buf
      ensures buf[..] == Message()
    {
      for i := 0 to NBYTE
        invariant forall j :: 0 <= j < i ==> buf[j] == Pattern(j)
      {
        buf[i] := ((i * 31 + 7) % 256) as bv8;
      }
    }

    method FillTable()
      requires table.Length == 256
      modifies table
      ensures TableReady()
    {
      for i := 0 to 256
        invariant Filled(table[..], i)
      {
        ghost var before := table[..];
        var c := Entry(i as bv32);
        table[i] := c;
        FilledOne(before, table[..], i, i + 1);
      }
    }

    method Init()
      requires buf.Length == NBYTE && table.Length == 256
      modifies buf, table
      ensures buf[..] == Message() && TableReady()
    {
      FillBuffer();
      FillTable();
    }

    function Index(c: bv32, b: bv8): (i: nat)
      ensures i < 256 && TableEntry(i as bv32) == TableEntry((c ^ (b as bv32)) & 0xFF)
    {
      LowByte(c ^ (b as bv32));
      ThereAndBack((c ^ (b as bv32)) & 0xFF);
      ((c ^ (b as bv32)) & 0xFF) as nat
    }

    /** One byte of the loop. */
    method Step(c: bv32, b: bv8) returns (r: bv32)
      requires TableReady()
      ensures r == FeedByte(c, b)
    {
      TableStep(c, b);
      r := table[Index(c, b)] ^ (c >> 8);
    }

    /** The CRC-32 of the first `n` bytes of `p`. */
    method Crc32(p: array<bv8>, n: nat) returns (r: bv32)
      requires TableReady() && n <= p.Length
      ensures r == Crc.Crc(p[..n])
    {
      var c := INIT;
      for i := 0 to n
        invariant c == FeedBytes(INIT, p[..i])
      {
        assert p[..i + 1][..i] == p[..i];
        c := Step(c, p[i]);
      }
      FeedBytesIsBits(INIT, p[..n]);
      r := c ^ 0xFFFF_FFFF;
    }

    /** The whole benchmark. */
    method Run()
      requires buf.Length == NBYTE && table.Length == 256
      modifies this`crcOut, buf, table
      ensures crcOut == Crc.Crc(Message())
    {
      Init();
      var r := Crc32(buf, NBYTE);
      assert buf[..NBYTE] == buf[..];
      crcOut := r;
    }
  }
}
