/** The text layer of the line-based version: a line is the bytes before
    '\n', written as UTF-8 followed by '\n'; numbers travel as decimal
    strings. */
module LineText {
  import opened Bytes
  import opened Failures
  import opened Utf8
  import opened Streams

  const NL: byte := 10

  // ---------------------------------------------------------------------
  // readLine

  /** The first '\n' at or after `pos`, or the end of the data. */
  function NewlineFrom(data: seq<byte>, pos: nat): (i: nat)
    requires pos <= |data|
    ensures pos <= i <= |data| && (i < |data| ==> data[i] == NL)
    ensures forall j | pos <= j < i :: data[j] != NL
    decreases |data| - pos
  {
    if pos == |data| || data[pos] == NL then pos else NewlineFrom(data, pos + 1)
  }

  /** What readLine returns and where it leaves the stream; `None` is the
      end of the stream before any byte. */
  datatype Line = Line(bytes: Option<seq<byte>>, next: nat)

  /** readLine: the bytes up to the first '\n', which is consumed and
      dropped; at the end of the stream the partial line, or `None` when
      nothing at all was left. */
  function LineAt(data: seq<byte>, pos: nat): (l: Line)
    requires pos <= |data|
    ensures l.bytes.None? <==> pos == |data|
    ensures l.bytes.None? ==> l.next == pos
    ensures pos <= l.next <= |data|
    ensures l.bytes.Some? ==> NL !in l.bytes.value
    ensures l.bytes.Some? && l.next < |data| ==> data[pos..l.next] == l.bytes.value + [NL]
    ensures l.bytes.Some? && l.next == |data| ==>
      l.bytes.value == data[pos..] || data[pos..] == l.bytes.value + [NL]
  {
    var i := NewlineFrom(data, pos);
    if pos == |data| then Line(None, pos)
    else if i == |data| then Line(Some(data[pos..]), |data|)
    else
      assert data[pos..i + 1] == data[pos..i] + [NL];
      Line(Some(data[pos..i]), i + 1)
  }

  /** The byte-at-a-time loop of readLine. */
  method ReadLine(input: ByteInput) returns (line: Option<seq<byte>>)
    requires input.Valid()
    modifies input
    ensures input.Valid()
    ensures var l := LineAt(input.data, old(input.pos)); line == l.bytes && input.pos == l.next
  {
    var buf: seq<byte> := [];
    var b: int;
    ghost var at := input.pos;
    while true
      invariant input.Valid() && old(input.pos) <= input.pos
      invariant buf == input.data[old(input.pos)..input.pos]
      invariant NewlineFrom(input.data, input.pos) == NewlineFrom(input.data, old(input.pos))
      decreases |input.data| - input.pos
    {
      at := input.pos;
      b := input.Read();
      if b == -1 {
        break;
      }
      if b == NL as int {
        break;
      }
      buf := buf + [b as byte];
    }
    assert NewlineFrom(input.data, at) == NewlineFrom(input.data, old(input.pos));
    assert buf == input.data[old(input.pos)..at];
    ghost var start := old(input.pos);
    if b == -1 {
      assert at == |input.data| == input.pos;
      assert NewlineFrom(input.data, at) == at;
      if start < at {
        assert input.data[start..at] == input.data[start..];
        assert LineAt(input.data, start) == Line(Some(input.data[start..]), at);
      }
    } else {
      assert input.data[at] == NL && input.pos == at + 1;
      assert NewlineFrom(input.data, at) == at;
      assert LineAt(input.data, start) == Line(Some(input.data[start..at]), at + 1);
    }
    if |buf| == 0 && b == -1 {
      assert start == at;
      assert LineAt(input.data, start) == Line(None, start);
      return None;
    }
    line := Some(buf);
  }

  /** writeLine: the UTF-8 bytes and a '\n'. */
  function WriteLine(s: string): (w: seq<byte>)
    ensures |w| == |Encode(s)| + 1 && w[|w| - 1] == NL
  {
    Encode(s) + [NL]
  }

  /** One call on the output stream: writeLine of a string, or write of
      raw bytes. */
  datatype Chunk = TextLine(text: string) | Data(bytes: seq<byte>)

  /** The bytes one call puts on the wire. */
  function ChunkBytes(c: Chunk): seq<byte>
  {
    match c
    case TextLine(s) => WriteLine(s)
    case Data(b) => b
  }

  /** The bytes a run of calls puts on the wire. */
  function Wire(cs: seq<Chunk>): (w: seq<byte>)
    ensures cs == [] ==> w == []
  {
    if cs == [] then [] else ChunkBytes(cs[0]) + Wire(cs[1..])
  }

  lemma {:induction false} WireAppend(a: seq<Chunk>, b: seq<Chunk>)
    ensures Wire(a + b) == Wire(a) + Wire(b)
  {
    if a == [] {
      assert a + b == b;
    } else {
      assert (a + b)[0] == a[0];
      assert (a + b)[1..] == a[1..] + b;
      WireAppend(a[1..], b);
      calc {
        Wire(a + b);
        ChunkBytes(a[0]) + Wire(a[1..] + b);
        ChunkBytes(a[0]) + (Wire(a[1..]) + Wire(b));
        (ChunkBytes(a[0]) + Wire(a[1..])) + Wire(b);
      }
    }
  }

  /** The output stream of the line-based version, as the calls made on
      it; `Wire(chunks)` is what reached the socket. */
  class LineOutput {
    var chunks: seq<Chunk>

    constructor ()
      ensures chunks == []
    {
      chunks := [];
    }

    /** writeLine. */
    method WriteLine(s: string)
      modifies this
      ensures chunks == old(chunks) + [TextLine(s)]
    {
      chunks := chunks + [TextLine(s)];
    }

    /** write(byte[]). */
    method Write(b: seq<byte>)
      modifies this
      ensures chunks == old(chunks) + [Data(b)]
    {
      chunks := chunks + [Data(b)];
    }
  }

  /** A line that was written is read back whole, as long as the string
      has no '\n' of its own. */
  lemma ReadWrittenLine(data: seq<byte>, pos: nat, s: string)
    requires '\n' !in s
    requires pos + |WriteLine(s)| <= |data| && data[pos..pos + |WriteLine(s)|] == WriteLine(s)
    ensures LineAt(data, pos) == Line(Some(Encode(s)), pos + |WriteLine(s)|)
  {
    var e := Encode(s);
    EncodeAvoids(s, '\n');
    assert forall j | pos <= j < pos + |e| :: data[j] == data[pos..pos + |WriteLine(s)|][j - pos] == e[j - pos];
    assert data[pos + |e|] == data[pos..pos + |WriteLine(s)|][|e|] == NL;
    assert NewlineFrom(data, pos) == pos + |e| by {
      NewlineAt(data, pos, pos + |e|);
    }
    assert data[pos..pos + |e|] == e;
  }

  /** Bytes without a '\n', followed by one, are read as one line. */
  lemma LineOfBytes(data: seq<byte>, pos: nat, x: seq<byte>)
    requires NL !in x && pos + |x| < |data|
    requires data[pos..pos + |x|] == x && data[pos + |x|] == NL
    ensures LineAt(data, pos) == Line(Some(x), pos + |x| + 1)
  {
    assert forall j | pos <= j < pos + |x| :: data[j] == x[j - pos];
    NewlineAt(data, pos, pos + |x|);
  }

  /** The first '\n' is where the scan stops. */
  lemma {:induction false} NewlineAt(data: seq<byte>, pos: nat, i: nat)
    requires pos <= i < |data| && data[i] == NL && forall j | pos <= j < i :: data[j] != NL
    ensures NewlineFrom(data, pos) == i
    decreases i - pos
  {
    if pos < i {
      NewlineAt(data, pos + 1, i);
    }
  }

  /** UTF-8 uses the bytes below 0x80 only for ASCII characters, so a
      string without a given ASCII character encodes without its byte. */
  lemma {:induction false} EncodeAvoids(s: string, c: char)
    requires c as int < 0x80 && c !in s
    ensures (c as int) as byte !in Encode(s)
  {
    if s != [] {
      EncodeAvoids(s[1..], c);
      assert Encode(s) == EncodeChar(s[0]) + Encode(s[1..]);
    }
  }

  // ---------------------------------------------------------------------
  // String operations the protocol uses

  /** A character String.trim removes: U+0000 to U+0020. */
  predicate IsPad(c: char) {
    c <= ' '
  }

  function TrimLeft(s: string): (r: string)
    ensures r == [] || !IsPad(r[0])
    ensures |r| <= |s| && r == s[|s| - |r|..]
    ensures forall i | 0 <= i < |s| - |r| :: IsPad(s[i])
  {
    if s != [] && IsPad(s[0]) then TrimLeft(s[1..]) else s
  }

  function TrimRight(s: string): (r: string)
    ensures r == [] || !IsPad(r[|r| - 1])
    ensures |r| <= |s| && r == s[..|r|]
    ensures forall i | |r| <= i < |s| :: IsPad(s[i])
  {
    if s != [] && IsPad(s[|s| - 1]) then TrimRight(s[..|s| - 1]) else s
  }

  /** String.trim: the string without the pad characters at both ends. */
  function Trim(s: string): (r: string)
  {
    TrimRight(TrimLeft(s))
  }

  /** trim removes exactly the padding around a string that starts and
      ends with something else. */
  lemma TrimPadded(left: string, s: string, right: string)
    requires forall i | 0 <= i < |left| :: IsPad(left[i])
    requires forall i | 0 <= i < |right| :: IsPad(right[i])
    requires s == [] || (!IsPad(s[0]) && !IsPad(s[|s| - 1]))
    ensures Trim(left + s + right) == s
  {
    var t := left + s + right;
    var l := TrimLeft(t);
    if s == [] {
      assert forall i | 0 <= i < |t| :: IsPad(t[i]) by {
        forall i | 0 <= i < |t| ensures IsPad(t[i]) {
          if i < |left| { assert t[i] == left[i]; } else { assert t[i] == right[i - |left|]; }
        }
      }
      assert l == [];
    } else {
      assert t[|left|] == s[0];
      assert |l| == |s| + |right|;
      assert l == s + right;
      var r := TrimRight(l);
      assert l[|s| - 1] == s[|s| - 1];
      assert |r| == |s|;
    }
  }

  /** The lower case of an ASCII letter; any other character is kept.
      toLowerCase(Locale.ROOT) maps no other character to 'r', 'o' or
      'w', so the mode comparisons come out the same. */
  function LowerChar(c: char): char {
    if 'A' <= c <= 'Z' then (c as int + 32) as char else c
  }

  /** toLowerCase(Locale.ROOT), for the ASCII letters. */
  function ToLower(s: string): (r: string)
    ensures |r| == |s| && forall i | 0 <= i < |s| :: r[i] == LowerChar(s[i])
  {
    seq(|s|, i requires 0 <= i < |s| => LowerChar(s[i]))
  }

  /** The three open modes. */
  predicate IsMode(m: string) {
    m == "ro" || m == "wo" || m == "rw"
  }

  // ---------------------------------------------------------------------
  // Decimal numbers

  predicate IsDigit(c: char) {
    '0' <= c <= '9'
  }

  predicate AllDigits(s: string) {
    forall i | 0 <= i < |s| :: IsDigit(s[i])
  }

  /** The value of a run of decimal digits, most significant first. */
  function DigitsValue(s: string): (v: nat)
    requires AllDigits(s)
  {
    if s == [] then 0 else DigitsValue(s[..|s| - 1]) * 10 + (s[|s| - 1] as int - '0' as int)
  }

  /** Integer.parseInt(s): an optional sign, then one or more decimal
      digits, with a value that fits an int; anything else is a
      NumberFormatException. */
  function ParseInt(s: string): (r: Result<int>)
    ensures r.Ok? ==> IsInt(r.value)
    ensures r.Err? ==> r.error == NumberFormat
    ensures s == [] ==> r.Err?
  {
    var signed := |s| > 0 && (s[0] == '-' || s[0] == '+');
    var digits := if signed then s[1..] else s;
    if digits == [] || !AllDigits(digits) then Err(NumberFormat)
    else
      var v: int := if signed && s[0] == '-' then -(DigitsValue(digits) as int) else DigitsValue(digits);
      if IsInt(v) then Ok(v) else Err(NumberFormat)
  }

  /** Integer.toString(n) for n >= 0. */
  function Decimal(n: nat): (s: string)
    ensures |s| > 0 && AllDigits(s)
  {
    var d := ['0' + (n % 10) as char];
    if n < 10 then d else Decimal(n / 10) + d
  }

  lemma {:induction false} DecimalValue(n: nat)
    ensures DigitsValue(Decimal(n)) == n
  {
    var s := Decimal(n);
    if n >= 10 {
      DecimalValue(n / 10);
      assert s[..|s| - 1] == Decimal(n / 10);
    }
  }

  /** Every length the server writes parses back. */
  lemma ParseDecimal(n: nat)
    requires n <= INT_MAX
    ensures ParseInt(Decimal(n)) == Ok(n)
  {
    DecimalValue(n);
  }

  /** A decimal number has no padding, so trimming leaves it alone. */
  lemma TrimDecimal(n: nat)
    ensures Trim(Decimal(n)) == Decimal(n)
  {
    var s := Decimal(n);
    TrimPadded([], s, []);
    assert [] + s + [] == s;
  }

  /** Decimal strings are ASCII and hold no '\n'. */
  lemma DecimalAscii(n: nat)
    ensures forall i | 0 <= i < |Decimal(n)| :: Decimal(n)[i] as int < 0x80 && Decimal(n)[i] != '\n'
  {
  }
}
