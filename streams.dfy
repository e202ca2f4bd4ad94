/** Byte streams: what DataOutputStream/ByteArrayOutputStream append to, and
    the consuming cursor DataInputStream/InputStream read through.  A
    socket's input is the finite sequence of bytes the peer sends before
    closing; blocking for more input is not modelled. */
module Streams {
  import opened Bytes
  import opened Failures

  // ---------------------------------------------------------------------
  // Reading, as functions of the bytes and a cursor

  /** The outcome of one read at a cursor, and where the cursor is
      afterwards (after an EOFException the stream is used up). */
  datatype Step<T> = Step(result: Result<T>, next: nat)

  /** readInt at `pos`: the int and the cursor after it, or EOFException when
      fewer than four bytes remain. */
  function ReadIntAt(data: seq<byte>, pos: nat): (r: Result<(int, nat)>)
    ensures r.Ok? ==> pos + 4 <= |data| && r.value.1 == pos + 4 && IsInt(r.value.0)
    ensures r.Err? ==> r.error == EOF && |data| < pos + 4
  {
    if pos + 4 <= |data| then
      FromBe32Inverse(data[pos..pos + 4]);
      Ok((FromBe32(data[pos..pos + 4]), pos + 4))
    else
      Err(EOF)
  }

  /** readFully of an `n`-byte array at `pos`: the bytes and the cursor after
      them, or EOFException when fewer than `n` remain. */
  function ReadFullyAt(data: seq<byte>, pos: nat, n: nat): (r: Result<(seq<byte>, nat)>)
    ensures r.Ok? ==> pos + n <= |data| && r.value.0 == data[pos..pos + n] && r.value.1 == pos + n
    ensures r.Err? ==> r.error == EOF && |data| < pos + n
  {
    if pos + n <= |data| then Ok((data[pos..pos + n], pos + n)) else Err(EOF)
  }

  /** Reading `|b|` bytes where `b` sits gives `b`. */
  lemma ReadFullyAtSlice(data: seq<byte>, pos: nat, b: seq<byte>)
    requires pos + |b| <= |data| && data[pos..pos + |b|] == b
    ensures ReadFullyAt(data, pos, |b|) == Ok((b, pos + |b|))
  {
  }

  /** Reading the int at `pos` only looks at the four bytes there. */
  lemma ReadIntAtSlice(data: seq<byte>, pos: nat, x: int)
    requires IsInt(x) && pos + 4 <= |data| && data[pos..pos + 4] == Be32(x)
    ensures ReadIntAt(data, pos) == Ok((x, pos + 4))
  {
    Be32RoundTrip(x);
  }

  /** Reading the int that writeInt wrote, whatever follows it. */
  lemma ReadIntAtBe32(x: int, rest: seq<byte>)
    requires IsInt(x)
    ensures ReadIntAt(Be32(x) + rest, 0) == Ok((x, 4))
  {
    assert (Be32(x) + rest)[0..4] == Be32(x);
    Be32RoundTrip(x);
  }

  // ---------------------------------------------------------------------
  // Streams as objects

  /** An output stream: everything written to it so far. */
  class ByteOutput {
    var written: seq<byte>

    constructor ()
      ensures written == []
    {
      written := [];
    }

    /** write(byte[]). */
    method Write(b: seq<byte>)
      modifies this
      ensures written == old(written) + b
    {
      written := written + b;
    }

    /** write(int): the low eight bits of `b`. */
    method WriteByte(b: byte)
      modifies this
      ensures written == old(written) + [b]
    {
      written := written + [b];
    }

    /** writeInt. */
    method WriteInt(x: int)
      requires IsInt(x)
      modifies this
      ensures written == old(written) + Be32(x)
    {
      written := written + Be32(x);
    }
  }

  /** An input stream: the bytes that will arrive, and the cursor. */
  class ByteInput {
    const data: seq<byte>
    var pos: nat

    ghost predicate Valid()
      reads this
    {
      pos <= |data|
    }

    constructor (d: seq<byte>)
      ensures data == d && pos == 0 && Valid()
    {
      data := d;
      pos := 0;
    }

    /** The bytes not yet consumed. */
    function Remaining(): seq<byte>
      reads this
      requires Valid()
    {
      data[pos..]
    }

    /** read(): the next byte as 0..255, or -1 at end of stream. */
    method Read() returns (b: int)
      requires Valid()
      modifies this
      ensures Valid()
      ensures old(pos) < |data| ==> b == data[old(pos)] as int && pos == old(pos) + 1
      ensures old(pos) == |data| ==> b == -1 && pos == old(pos)
    {
      if pos < |data| {
        b := data[pos] as int;
        pos := pos + 1;
      } else {
        b := -1;
      }
    }

    /** readInt: on EOFException the bytes that were there are consumed. */
    method ReadInt() returns (r: Result<int>)
      requires Valid()
      modifies this
      ensures Valid()
      ensures var s := ReadIntAt(data, old(pos));
        if s.Ok? then r == Ok(s.value.0) && pos == s.value.1
        else r == Err(s.error) && pos == |data|
    {
      var s := ReadIntAt(data, pos);
      if s.Ok? {
        r := Ok(s.value.0);
        pos := s.value.1;
      } else {
        r := Err(s.error);
        pos := |data|;
      }
    }

    /** readFully into an `n`-byte array. */
    method ReadFully(n: nat) returns (r: Result<seq<byte>>)
      requires Valid()
      modifies this
      ensures Valid()
      ensures var s := ReadFullyAt(data, old(pos), n);
        if s.Ok? then r == Ok(s.value.0) && pos == s.value.1
        else r == Err(s.error) && pos == |data|
    {
      var s := ReadFullyAt(data, pos, n);
      if s.Ok? {
        r := Ok(s.value.0);
        pos := s.value.1;
      } else {
        r := Err(s.error);
        pos := |data|;
      }
    }

    /** readNBytes(n): up to `n` bytes, fewer only at end of stream;
        IllegalArgumentException for a negative `n`. */
    method ReadNBytes(n: int) returns (r: Result<seq<byte>>)
      requires Valid()
      modifies this
      ensures Valid()
      ensures n < 0 ==> r == Err(IllegalArgument) && pos == old(pos)
      ensures n >= 0 ==> var k := if old(pos) + n <= |data| then n else |data| - old(pos);
        r == Ok(data[old(pos)..old(pos) + k]) && pos == old(pos) + k
    {
      if n < 0 {
        r := Err(IllegalArgument);
      } else {
        var k := if pos + n <= |data| then n else |data| - pos;
        r := Ok(data[pos..pos + k]);
        pos := pos + k;
      }
    }
  }
}
