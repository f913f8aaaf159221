/** Packets: values appended in network byte order, and read back behind a sticky flag. */
module Packets {
  import opened Common

  /** A string of the source: bytes. */
  type Text = seq<Byte>

  // ---------- what is written ----------

  /** `n` in `size` bytes, most significant first. */
  function BigEndian(n: nat, size: nat): (r: seq<Byte>)
    ensures |r| == size
  {
    if size == 0 then [] else BigEndian(n / 256, size - 1) + [n % 256]
  }

  function FromBigEndian(b: seq<Byte>): nat {
    if b == [] then 0 else FromBigEndian(b[..|b| - 1]) * 256 + b[|b| - 1]
  }

  function Limit(size: nat): nat { if size == 0 then 1 else 256 * Limit(size - 1) }

  lemma {:induction false} BigEndianBack(n: nat, size: nat)
    requires n < Limit(size)
    ensures FromBigEndian(BigEndian(n, size)) == n
  {
    if size > 0 {
      BigEndianBack(n / 256, size - 1);
      assert BigEndian(n, size)[..size - 1] == BigEndian(n / 256, size - 1);
    }
  }

  lemma LimitOf4()
    ensures Limit(2) == 0x1_0000 && Limit(4) == 0x1_0000_0000
  {
    assert Limit(0) == 1;
    assert Limit(1) == 256;
    assert Limit(2) == 65536;
    assert Limit(3) == 16777216;
  }

  lemma LimitOf8()
    ensures Limit(8) == 0x1_0000_0000_0000_0000
  {
    LimitOf4();
    assert Limit(5) == 256 * Limit(4) && Limit(6) == 256 * Limit(5) && Limit(7) == 256 * Limit(6);
  }

  function TextBytes(s: Text): seq<Byte>
    requires |s| < 0x1_0000_0000
  {
    BigEndian(|s|, 4) + s
  }

  /** A packet that is written to and read from. */
  class Packet {
    var data: seq<Byte>
    var readPos: nat
    var isValid: bool

    constructor ()
      ensures data == [] && readPos == 0 && isValid
    {
      data, readPos, isValid := [], 0, true;
    }

    /** The next bytes to be read are `bytes`. */
    ghost predicate Ahead(bytes: seq<Byte>)
      reads this
    {
      isValid && readPos + |bytes| <= |data| && data[readPos..readPos + |bytes|] == bytes
    }

    method Append(bytes: seq<Byte>)
      modifies this`data
      ensures data == old(data) + bytes
    {
      data := data + bytes;
    }

    /** Skips without looking; what is skipped past the end is found out by the next read. */
    method IgnoreBytes(length: nat)
      modifies this`readPos
      ensures readPos == old(readPos) + length
    {
      readPos := readPos + length;
    }

    /** Once a read ran past the end, the packet stays invalid and every later read fails. */
    method CheckSize(size: nat) returns (ok: bool)
      modifies this`isValid
      ensures ok == isValid && (isValid <==> old(isValid) && readPos + size <= |data|)
    {
      isValid := isValid && readPos + size <= |data|;
      ok := isValid;
    }

    /** Reads `size` bytes, or nothing. When `expected` comes next, it is what is read, and
        `rest` comes next after it. */
    method Read(size: nat, ghost expected: seq<Byte>, ghost rest: seq<Byte>) returns (bytes: seq<Byte>)
      modifies this`readPos, this`isValid
      ensures isValid <==> old(isValid) && old(readPos) + size <= |data|
      ensures isValid ==> readPos == old(readPos) + size && bytes == data[old(readPos)..readPos]
      ensures !isValid ==> bytes == [] && readPos == old(readPos)
      ensures |expected| == size && old(Ahead(expected + rest)) ==> bytes == expected && Ahead(rest)
    {
      bytes := [];
      var ok := CheckSize(size);
      if ok {
        bytes := data[readPos..readPos + size];
        readPos := readPos + size;
      }
      if |expected| == size && old(Ahead(expected + rest)) {
        SplitAhead(data, old(readPos), expected, rest);
      }
    }

    /** Integers of 2, 4 and 8 bytes; a failed read gives zero. */
    method ReadInt(size: nat, ghost expected: nat, ghost rest: seq<Byte>) returns (n: nat)
      modifies this`readPos, this`isValid
      ensures isValid <==> old(isValid) && old(readPos) + size <= |data|
      ensures isValid ==> readPos == old(readPos) + size
      ensures !isValid ==> n == 0 && readPos == old(readPos)
      ensures expected < Limit(size) && old(Ahead(BigEndian(expected, size) + rest)) ==> n == expected && Ahead(rest)
    {
      var bytes := Read(size, BigEndian(expected, size), rest);
      n := FromBigEndian(bytes);
      if expected < Limit(size) { BigEndianBack(expected, size); }
    }

    /** An array, element by element. */
    method ReadArray(size: nat, ghost expected: seq<Byte>, ghost rest: seq<Byte>) returns (bytes: seq<Byte>)
      modifies this`readPos, this`isValid
      ensures isValid ==> |bytes| == size
      ensures |expected| == size && old(Ahead(expected + rest)) ==> bytes == expected && Ahead(rest)
    {
      bytes := [];
      ghost var good := |expected| == size && Ahead(expected + rest);
      for i := 0 to size
        invariant isValid ==> |bytes| == i
        invariant good ==> |expected| == size && bytes == expected[..i] && Ahead(expected[i..] + rest)
      {
        assert good ==> expected[i..] + rest == [expected[i]] + (expected[i + 1..] + rest);
        var b := Read(1, if good then [expected[i]] else [], if good then expected[i + 1..] + rest else []);
        bytes := bytes + b;
      }
      assert good ==> expected[size..] + rest == rest;
    }

    method WriteArray(bytes: seq<Byte>)
      modifies this`data
      ensures data == old(data) + bytes
    {
      for i := 0 to |bytes|
        invariant data == old(data) + bytes[..i]
      {
        Append([bytes[i]]);
      }
      assert bytes[..|bytes|] == bytes;
    }

    method WriteText(s: Text)
      requires |s| < 0x1_0000_0000
      modifies this`data
      ensures data == old(data) + TextBytes(s)
    {
      Append(BigEndian(|s|, 4));
      if |s| > 0 {
        Append(s);
      }
      assert old(data) + BigEndian(|s|, 4) + s == old(data) + TextBytes(s);
    }

    method ReadText(ghost expected: Text, ghost rest: seq<Byte>) returns (s: Text)
      modifies this`readPos, this`isValid
      ensures isValid ==> readPos == old(readPos) + 4 + |s| && (s != [] ==> readPos <= |data|)
      ensures |expected| < 0x1_0000_0000 && old(Ahead(TextBytes(expected) + rest)) ==> s == expected && Ahead(rest)
    {
      LimitOf4();
      assert BigEndian(|expected|, 4) + expected + rest == BigEndian(|expected|, 4) + (expected + rest);
      var length := ReadInt(4, |expected|, expected + rest);
      s := [];
      if length > 0 {
        if length == |expected| && Ahead(expected + rest) { SplitAhead(data, readPos, expected, rest); }
        var ok := CheckSize(length);
        if ok {
          s := data[readPos..readPos + length];
          readPos := readPos + length;
        }
      }
      assert expected == [] ==> expected + rest == rest;
    }
  }

  lemma SplitAhead(data: seq<Byte>, start: nat, first: seq<Byte>, rest: seq<Byte>)
    requires start + |first + rest| <= |data| && data[start..start + |first + rest|] == first + rest
    ensures data[start..start + |first|] == first
    ensures data[start + |first|..start + |first| + |rest|] == rest
  {
    var d := data[start..start + |first + rest|];
    assert d[..|first|] == data[start..start + |first|];
    assert d[|first|..] == data[start + |first|..start + |first| + |rest|];
  }
}
