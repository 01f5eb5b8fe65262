/** pp_dumpString of src/common/message.c: sixteen bytes to a line, in hexadecimal and as text. */
module Dump {
  import opened Bytes

  const WIDTH := 16

  /** One printed line: the position, the hexadecimal columns with their padding, and the text. */
  datatype Line = Line(position: nat, hex: string, text: string)

  function Digit(n: nat): (c: char)
    requires n < 16
    ensures c != ' ' && DigitValue(c) == n
  {
    if n < 10 then ('0' as int + n) as char else ('a' as int + n - 10) as char
  }

  function DigitValue(c: char): (n: nat)
    ensures n < 16
  {
    if '0' <= c <= '9' then c as int - '0' as int else if 'a' <= c <= 'f' then c as int - 'a' as int + 10 else 0
  }

  /** `%02x ` */
  function Column(b: byte): (s: string)
    ensures |s| == 3 && s[0] != ' ' && s[2] == ' '
    ensures 16 * DigitValue(s[0]) + DigitValue(s[1]) == b
  {
    [Digit(b / 16), Digit(b % 16), ' ']
  }

  function Columns(bs: seq<byte>): (s: string)
    ensures |s| == 3 * |bs|
    ensures forall m :: 0 <= m < |s| && m % 3 == 2 ==> s[m] == ' '
  {
    if bs == [] then "" else Columns(bs[..|bs| - 1]) + Column(bs[|bs| - 1])
  }

  function Blanks(n: nat): (s: string)
    ensures |s| == n && forall i :: 0 <= i < n ==> s[i] == ' '
  {
    seq(n, _ => ' ')
  }

  /** The bytes of a column area: up to the first column that is blank. */
  function ReadColumns(s: string): (bs: seq<byte>)
  {
    if |s| < 3 || s[0] == ' ' then []
    else [16 * DigitValue(s[0]) + DigitValue(s[1])] + ReadColumns(s[3..])
  }

  function ReadLines(lines: seq<Line>): (bs: seq<byte>)
  {
    if lines == [] then [] else ReadLines(lines[..|lines| - 1]) + ReadColumns(lines[|lines| - 1].hex)
  }

  /** Bytes below 32 are dots, and so are those above 127 where char is signed. */
  function Shown(b: byte): (c: char)
  {
    if b < 32 || b >= 128 then '.' else b as char
  }

  function Text(bs: seq<byte>): (s: string)
    ensures |s| == |bs|
  {
    seq(|bs|, i requires 0 <= i < |bs| => Shown(bs[i]))
  }

  lemma {:induction false} ColumnsFirst(bs: seq<byte>)
    requires bs != []
    ensures Columns(bs) == Column(bs[0]) + Columns(bs[1..])
  {
    var n := |bs| - 1;
    if n > 0 {
      ColumnsFirst(bs[..n]);
      assert bs[..n][1..] == bs[1..][..n - 1];
      assert Columns(bs[1..]) == Columns(bs[1..][..n - 1]) + Column(bs[n]);
    } else {
      assert bs[..0] == [] && bs[1..] == [];
    }
  }

  /** The columns of a line, padded to any width, read back as its bytes. */
  lemma {:induction false} ColumnsReadBack(bs: seq<byte>, blanks: nat)
    ensures ReadColumns(Columns(bs) + Blanks(blanks)) == bs
  {
    var s := Columns(bs) + Blanks(blanks);
    if bs == [] {
      assert s == Blanks(blanks);
    } else {
      ColumnsFirst(bs);
      ColumnsReadBack(bs[1..], blanks);
      assert s == Column(bs[0]) + (Columns(bs[1..]) + Blanks(blanks));
      assert s[3..] == Columns(bs[1..]) + Blanks(blanks);
    }
  }

  /** The text column shows a byte itself exactly when it is printable or 127, and a dot for every other. */
  predicate ShownIn(text: string, bs: seq<byte>)
  {
    && |text| == |bs|
    && forall k :: 0 <= k < |bs| ==>
         && (32 <= bs[k] < 128 ==> text[k] as int == bs[k])
         && (bs[k] < 32 || bs[k] >= 128 ==> text[k] == '.')
  }

  /** Sixteen columns of three characters, a blank behind each of the first n and nothing but blanks after them. */
  predicate Spaced(hex: string, n: nat)
  {
    |hex| == 3 * WIDTH && forall m :: 0 <= m < |hex| && (m % 3 == 2 || m >= 3 * n) ==> hex[m] == ' '
  }

  /** Line i is about the i-th sixteen bytes, and has columns for sixteen whether or not there are so many. */
  predicate LineOf(bs: seq<byte>, i: nat, line: Line)
  {
    && line.position == WIDTH * i && WIDTH * i < |bs|
    && Spaced(line.hex, Min(|bs| - WIDTH * i, WIDTH))
    && ShownIn(line.text, bs[WIDTH * i..Min(|bs|, WIDTH * i + WIDTH)])
  }

  /**
   * The printing loops. The counters are unsigned 32-bit numbers; the length leaves room for the last
   * addition. The hexadecimal columns give the whole string back.
   */
  method DumpString(s: array<byte>) returns (lines: seq<Line>)
    requires s.Length <= TWO_32 - WIDTH
    ensures ReadLines(lines) == s[..]
    ensures |lines| == (s.Length + WIDTH - 1) / WIDTH
    ensures forall i :: 0 <= i < |lines| ==> LineOf(s[..], i, lines[i])
  {
    hide LineOf, ReadColumns, Text;
    lines := [];
    var pos := 0;
    while pos < s.Length
      invariant pos == WIDTH * |lines| && pos < s.Length + WIDTH
      invariant ReadLines(lines) == s[..Min(pos, s.Length)]
      invariant forall i :: 0 <= i < |lines| ==> LineOf(s[..], i, lines[i])
    {
      var j := Wrap32(pos + WIDTH);
      if j >= s.Length {
        j := s.Length;
      }
      var line := DumpLine(s, pos, j);
      LineMade(s[..], |lines|, line, j);
      assert s[..][pos..j] == s[pos..j];
      assert (lines + [line])[..|lines|] == lines;
      assert s[..pos] + s[pos..j] == s[..j];
      lines := lines + [line];
      pos := pos + WIDTH;
    }
    assert s[..s.Length] == s[..];
  }

  lemma LineMade(bs: seq<byte>, i: nat, line: Line, j: nat)
    requires line.position == WIDTH * i < |bs| && j == Min(|bs|, WIDTH * i + WIDTH)
    requires Spaced(line.hex, j - line.position) && line.text == Text(bs[line.position..j])
    ensures ShownIn(line.text, bs[line.position..j])
    ensures LineOf(bs, i, line)
  {
  }

  lemma EmptyLine()
    ensures Columns([]) == "" && Text([]) == ""
  {
  }

  lemma OneColumn(bs: seq<byte>, b: byte)
    ensures Columns(bs + [b]) == Columns(bs) + Column(b)
  {
    assert (bs + [b])[..|bs|] == bs;
  }

  lemma OneMoreShown(bs: seq<byte>, b: byte)
    ensures Text(bs + [b]) == Text(bs) + [Shown(b)]
  {
  }

  lemma ColumnsSpaced(bs: seq<byte>)
    requires |bs| <= WIDTH
    ensures Spaced(Columns(bs) + Blanks(3 * (WIDTH - |bs|)), |bs|)
  {
    hide Columns;
  }

  /** One turn of the outer loop: the columns, the padding, the text. */
  method DumpLine(s: array<byte>, pos: nat, j: nat) returns (line: Line)
    requires pos < j <= s.Length && j <= pos + WIDTH
    ensures line.position == pos && Spaced(line.hex, j - pos)
    ensures ReadColumns(line.hex) == s[pos..j] && line.text == Text(s[pos..j])
  {
    hide Columns, ReadColumns, Text, Spaced;
    EmptyLine();
    var hex, text := "", "";
    for i := pos to j
      invariant hex == Columns(s[pos..i])
    {
      assert s[pos..i + 1] == s[pos..i] + [s[i]];
      OneColumn(s[pos..i], s[i]);
      hex := hex + Column(s[i]);
    }
    ColumnsReadBack(s[pos..j], 3 * (WIDTH - (j - pos)));
    ColumnsSpaced(s[pos..j]);
    if j - pos < WIDTH {
      hex := hex + Blanks(3 * (WIDTH - (j - pos)));
    } else {
      assert hex == Columns(s[pos..j]) + Blanks(0);
    }
    for i := pos to j
      invariant text == Text(s[pos..i])
    {
      assert s[pos..i + 1] == s[pos..i] + [s[i]];
      OneMoreShown(s[pos..i], s[i]);
      text := text + [Shown(s[i])];
    }
    return Line(pos, hex, text);
  }
}
