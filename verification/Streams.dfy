/** The byte streams of fileloader.h: an append buffer and a read cursor, little-endian. */
module Streams {
  import opened Common

  // ---------------------------------------------------------------- integers as bytes

  function Pow256(n: nat): (p: nat)
    ensures p > 0
  {
    if n == 0 then 1 else 256 * Pow256(n - 1)
  }

  /** The n low bytes of v, lowest first: what writing an n-byte integer puts into the buffer. */
  function ToBytes(v: int, n: nat): (bs: seq<Byte>)
    ensures |bs| == n
    decreases n, v
  {
    if n == 0 then [] else [v % 256] + ToBytes(v / 256, n - 1)
  }

  function FromBytes(bs: seq<Byte>): nat {
    if bs == [] then 0 else bs[0] + 256 * FromBytes(bs[1..])
  }

  /** The value of an n-byte unsigned integer that v is converted to. */
  function Unsigned(v: int, n: nat): nat {
    v % Pow256(n)
  }

  lemma DivMod(v: int, p: nat)
    requires p > 0
    ensures v % (256 * p) == v % 256 + 256 * (v / 256 % p)
  {
    var q, r := v / 256, v % 256;
    var q1, r1 := q / p, q % p;
    assert v == 256 * p * q1 + (256 * r1 + r);
    assert 0 <= 256 * r1 + r < 256 * p;
    UniqueRemainder(v, 256 * p, q1, 256 * r1 + r);
  }

  lemma UniqueRemainder(v: int, m: nat, q: int, r: nat)
    requires m > 0 && v == m * q + r && r < m
    ensures v % m == r
  {
    var d := v / m - q;
    assert m * d == r - v % m;
  }

  /** Reading back the bytes of a written integer gives its value modulo the width. */
  lemma {:induction false} BytesRoundTrip(v: int, n: nat)
    ensures FromBytes(ToBytes(v, n)) == Unsigned(v, n)
    decreases n
  {
    if n > 0 {
      BytesRoundTrip(v / 256, n - 1);
      DivMod(v, Pow256(n - 1));
      assert ToBytes(v, n)[1..] == ToBytes(v / 256, n - 1);
    }
  }

  lemma {:induction false} FromBytesBound(bs: seq<Byte>)
    ensures FromBytes(bs) < Pow256(|bs|)
  {
    if bs != [] {
      FromBytesBound(bs[1..]);
    }
  }

  // ---------------------------------------------------------------- strings

  const MAX_STRING := 0xFFFF

  /** writeString: a string that does not fit its length field is written as an empty one. */
  function StringBytes(s: seq<Byte>): seq<Byte> {
    if |s| > MAX_STRING then ToBytes(0, 2) else ToBytes(|s|, 2) + s
  }

  function Kept(s: seq<Byte>): seq<Byte> {
    if |s| > MAX_STRING then [] else s
  }

  /** What is read and what is left, if there are enough bytes. */
  datatype Read<T> = Short | Got(value: T, rest: seq<Byte>)

  function ReadBytes(bs: seq<Byte>, n: nat): Read<seq<Byte>> {
    if |bs| < n then Short else Got(bs[..n], bs[n..])
  }

  function ReadUnsigned(bs: seq<Byte>, n: nat): Read<nat> {
    if |bs| < n then Short else Got(FromBytes(bs[..n]), bs[n..])
  }

  function StringAt(bs: seq<Byte>): Read<seq<Byte>> {
    match ReadUnsigned(bs, 2)
    case Short => Short
    case Got(n, rest) => ReadBytes(rest, n)
  }

  lemma ReadWrittenInteger(v: int, n: nat, rest: seq<Byte>)
    ensures ReadUnsigned(ToBytes(v, n) + rest, n) == Got(Unsigned(v, n), rest)
  {
    BytesRoundTrip(v, n);
    assert (ToBytes(v, n) + rest)[..n] == ToBytes(v, n) && (ToBytes(v, n) + rest)[n..] == rest;
  }

  lemma ReadWrittenString(s: seq<Byte>, rest: seq<Byte>)
    ensures StringAt(StringBytes(s) + rest) == Got(Kept(s), rest)
  {
    var k := Kept(s);
    assert StringBytes(s) + rest == ToBytes(|k|, 2) + (k + rest);
    ReadWrittenInteger(|k|, 2, k + rest);
    assert Unsigned(|k|, 2) == |k| by {
      assert Pow256(2) == 65536;
    }
    assert (k + rest)[..|k|] == k && (k + rest)[|k|..] == rest;
  }

  // ---------------------------------------------------------------- the classes

  class PropWriteStream {
    var buffer: seq<Byte>

    constructor ()
      ensures buffer == []
    {
      buffer := [];
    }

    method Clear()
      modifies this
      ensures buffer == []
    {
      buffer := [];
    }

    /** write of an integer that is n bytes wide. */
    method Write(v: int, n: nat)
      modifies this
      ensures buffer == old(buffer) + ToBytes(v, n)
    {
      var left, k := v, 0;
      while k < n
        invariant k <= n && buffer + ToBytes(left, n - k) == old(buffer) + ToBytes(v, n)
      {
        assert buffer + ([left % 256] + ToBytes(left / 256, n - k - 1)) ==
          buffer + [left % 256] + ToBytes(left / 256, n - k - 1);
        buffer, left, k := buffer + [left % 256], left / 256, k + 1;
      }
      assert buffer + [] == buffer;
    }

    method Append(bytes: seq<Byte>)
      modifies this
      ensures buffer == old(buffer) + bytes
    {
      buffer := buffer + bytes;
    }

    method WriteString(s: seq<Byte>)
      modifies this
      ensures buffer == old(buffer) + StringBytes(s)
    {
      if |s| > MAX_STRING {
        Write(0, 2);
        return;
      }
      Write(|s|, 2);
      buffer := buffer + s;
    }
  }

  class PropStream {
    var data: seq<Byte>
    var p: nat

    ghost predicate Valid()
      reads this
    {
      p <= |data|
    }

    /** The bytes that have not been read yet. */
    ghost function Left(): seq<Byte>
      requires Valid()
      reads this
    {
      data[p..]
    }

    constructor (a: seq<Byte>)
      ensures Valid() && Left() == a
    {
      data := a;
      p := 0;
    }

    method Read(n: nat) returns (ok: bool, v: nat)
      requires Valid()
      modifies this
      ensures Valid() && data == old(data)
      ensures match ReadUnsigned(old(Left()), n)
        case Short => !ok && Left() == old(Left())
        case Got(value, rest) => ok && v == value && Left() == rest
    {
      if |data| - p < n {
        return false, 0;
      }
      ok, v := true, 0;
      var k := n;
      while k > 0
        invariant 0 <= k <= n && v == FromBytes(data[p + k..p + n])
      {
        k := k - 1;
        assert data[p + k..p + n][1..] == data[p + k + 1..p + n];
        v := data[p + k] + 256 * v;
      }
      assert data[p..][..n] == data[p..p + n] && data[p..][n..] == data[p + n..];
      p := p + n;
    }

    method ReadString() returns (ok: bool, s: seq<Byte>)
      requires Valid()
      modifies this
      ensures Valid() && data == old(data)
      ensures match StringAt(old(Left()))
        case Short => !ok
        case Got(value, rest) => ok && s == value && Left() == rest
      ensures |Left()| <= |old(Left())|
    {
      s := [];
      var strLen;
      ok, strLen := Read(2);
      if !ok {
        return;
      }
      if |data| - p < strLen {
        return false, [];
      }
      s := data[p..p + strLen];
      assert data[p..][..strLen] == s && data[p..][strLen..] == data[p + strLen..];
      p := p + strLen;
    }

    /** read of a value that is taken as n raw bytes. */
    method Take(n: nat) returns (ok: bool, bytes: seq<Byte>)
      requires Valid()
      modifies this
      ensures Valid() && data == old(data)
      ensures match ReadBytes(old(Left()), n)
        case Short => !ok && Left() == old(Left())
        case Got(value, rest) => ok && bytes == value && Left() == rest
    {
      if |data| - p < n {
        return false, [];
      }
      ok, bytes := true, data[p..p + n];
      assert data[p..][..n] == bytes && data[p..][n..] == data[p + n..];
      p := p + n;
    }

    method Skip(n: nat) returns (ok: bool)
      requires Valid()
      modifies this
      ensures Valid() && data == old(data)
      ensures match ReadBytes(old(Left()), n)
        case Short => !ok && Left() == old(Left())
        case Got(_, rest) => ok && Left() == rest
    {
      if |data| - p < n {
        return false;
      }
      assert data[p..][n..] == data[p + n..];
      p := p + n;
      ok := true;
    }
  }
}
