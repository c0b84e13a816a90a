/** CompactSize integers of support/BRAddress.c. */
module CompactSize {
  import opened Bytes
  import opened Transactions

  /** `BRVarIntSet`. */
  function VarIntBytes(i: nat): (r: seq<Byte>)
    ensures |r| == VarIntSize(i)
  {
    if i < 0xfd then [i]
    else if i <= 0xffff then [0xfd] + ToLE(i, 2)
    else if i <= 0xffff_ffff then [0xfe] + ToLE(i, 4)
    else [0xff] + ToLE(i, 8)
  }

  /** The integer of `n` bytes after the first byte, zero if the buffer ends before. */
  function Tail(buf: seq<Byte>, n: nat): nat {
    if 1 + n <= |buf| then FromLE(buf[1..1 + n]) else 0
  }

  /** `BRVarInt`: the value at the start of the buffer and the length its first byte announces. */
  function VarIntAt(buf: seq<Byte>): (r: (nat, nat))
    ensures r.1 == 1 || r.1 == 3 || r.1 == 5 || r.1 == 9
  {
    var h := if |buf| > 0 then buf[0] else 0;
    if h == 0xfd then (Tail(buf, 2), 3)
    else if h == 0xfe then (Tail(buf, 4), 5)
    else if h == 0xff then (Tail(buf, 8), 9)
    else (h, 1)
  }

  lemma Widths()
    ensures Pow256(2) == 0x1_0000 && Pow256(4) == 0x1_0000_0000 && Pow256(8) == 0x1_0000_0000_0000_0000
  {
    assert Pow256(2) == 0x1_0000;
    Pow256Sum(2, 2);
    Pow256Sum(4, 4);
  }

  lemma TailOf(h: Byte, i: nat, n: nat, rest: seq<Byte>)
    requires i < Pow256(n)
    ensures Tail([h] + ToLE(i, n) + rest, n) == i
  {
    hide FromLE, ToLE, Pow256;
    assert ([h] + ToLE(i, n) + rest)[1..1 + n] == ToLE(i, n);
    FromToLE(i, n);
  }

  /** Reading inverts writing for every 64-bit value, whatever follows. */
  lemma VarIntRoundTrip(i: nat, rest: seq<Byte>)
    requires i < 0x1_0000_0000_0000_0000
    ensures VarIntAt(VarIntBytes(i) + rest) == (i, VarIntSize(i))
  {
    hide Tail, Pow256, ToLE;
    Widths();
    if i < 0xfd {
    } else if i <= 0xffff {
      TailOf(0xfd, i, 2, rest);
    } else if i <= 0xffff_ffff {
      TailOf(0xfe, i, 4, rest);
    } else {
      TailOf(0xff, i, 8, rest);
    }
  }

  /** The value does not depend on what follows its announced length. */
  lemma VarIntLocal(buf: seq<Byte>, rest: seq<Byte>)
    requires VarIntAt(buf).1 <= |buf|
    ensures VarIntAt(buf + rest) == VarIntAt(buf)
  {
    hide Tail;
    TailLocal(buf, rest, 2);
    TailLocal(buf, rest, 4);
    TailLocal(buf, rest, 8);
  }

  lemma TailLocal(buf: seq<Byte>, rest: seq<Byte>, n: nat)
    ensures 1 + n <= |buf| ==> Tail(buf + rest, n) == Tail(buf, n)
  {
    assert 1 + n <= |buf| ==> (buf + rest)[1..1 + n] == buf[1..1 + n];
  }
}
