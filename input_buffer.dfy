// The lexer's view of its input: a fixed-size lookahead window sliding over a
// byte stream, with the line and column of the window's first slot.
module Input {
  import opened Wrappers
  import opened Strings

  newtype byte = x: int | 0 <= x < 256

  const Newline: int := 10

  /** A line:column pair. Positions are values here, so a position handed out
    * earlier is never changed by later calls (the source hands out copies). */
  datatype Position = Position(line: int, column: int)
  {
    /** "line:column" */
    function ToString(): string {
      IntToString(line) + ":" + IntToString(column)
    }
  }

  /** What slot k of the stream reads as: the zero fill of a fresh buffer
    * before the stream starts, the byte itself, or -1 once the stream is exhausted. */
  function Slot(source: seq<byte>, k: int): int {
    if k < 0 then 0 else if k < |source| then source[k] as int else -1
  }

  /** The position after the line/column update of one `Next`, given the
    * value that was shifted out of the first slot. */
  function Advance(p: Position, previous: int): Position {
    if previous == Newline then Position(p.line + 1, 1) else Position(p.line, p.column + 1)
  }

  /** The position after k slots have been shifted out, starting at 1:1. */
  function PositionAfter(source: seq<byte>, k: nat): Position {
    if k == 0 then Position(1, 1) else Advance(PositionAfter(source, k - 1), Slot(source, k - 1))
  }

  function MinNat(a: nat, b: nat): nat { if a <= b then a else b }

  /** The line number is one more than the number of newlines shifted out. */
  lemma {:induction false} PositionLine(source: seq<byte>, k: nat)
    ensures PositionAfter(source, k).line == 1 + multiset(source[..MinNat(k, |source|)])[10 as byte]
  {
    if k > 0 {
      PositionLine(source, k - 1);
      if k - 1 < |source| {
        assert source[..k] == source[..k - 1] + [source[k - 1]];
      }
    }
  }

  /** The column is one more than the number of bytes shifted out since the
    * last newline (or since the start). */
  lemma {:induction false} PositionColumn(source: seq<byte>, k: nat)
    ensures var c := PositionAfter(source, k).column;
            1 <= c <= k + 1
            && (forall j :: k - (c - 1) <= j < k ==> Slot(source, j) != Newline)
            && (c - 1 == k || Slot(source, k - c) == Newline)
  {
    if k > 0 {
      PositionColumn(source, k - 1);
    }
  }

  /** The first index of ':' in s, or |s| when there is none. */
  function ColonIndex(s: string): (k: nat)
    ensures k <= |s|
    ensures forall j :: 0 <= j < k ==> s[j] != ':'
    ensures k < |s| ==> s[k] == ':'
  {
    if s == [] then 0 else if s[0] == ':' then 0 else 1 + ColonIndex(s[1..])
  }

  /** Reads back a rendering "line:column" of non-negative numbers. */
  function ParsePosition(s: string): Option<Position> {
    var k := ColonIndex(s);
    if k < |s| && AllDigits(s[..k]) && AllDigits(s[k + 1..]) then
      Some(Position(DigitsValue(s[..k]), DigitsValue(s[k + 1..])))
    else
      None
  }

  /** A position's text is its line, a colon, and its column, and it determines the position. */
  lemma PositionRoundTrip(p: Position)
    requires p.line >= 0 && p.column >= 0
    ensures ParsePosition(p.ToString()) == Some(p)
  {
    var a, b := NatToString(p.line), NatToString(p.column);
    var s := p.ToString();
    assert s == a + ":" + b;
    assert s[|a|] == ':';
    assert forall j :: 0 <= j < |a| ==> s[j] == a[j];
    assert ColonIndex(s) == |a|;
    assert s[..|a|] == a;
    assert s[|a| + 1..] == b;
    NatToStringValue(p.line);
    NatToStringValue(p.column);
  }

  datatype PeekError = IndexOutOfRange | NotAChar

  class InputBuffer {
    /** The whole byte stream; `consumed` of it have been requested so far. */
    const source: seq<byte>
    const buffer: array<int>
    var consumed: nat
    var line: int
    var column: int

    /** Slot j of the window holds stream element reads - Length + j. */
    ghost predicate Valid()
      reads this, buffer
    {
      forall j :: 0 <= j < buffer.Length ==> buffer[j] == Slot(source, consumed - buffer.Length + j)
    }

    /** The index, in the stream, of the window's first slot. */
    ghost function Offset(): int
      reads this, buffer
    {
      consumed - buffer.Length
    }

    /** Construction is over: the window has been filled and the position
      * is that of the window's first slot. */
    ghost predicate Ready()
      reads this, buffer
    {
      Valid() && Offset() >= 0 && Position(line, column) == PositionAfter(source, Offset())
    }

    /** Fills the window with the first bufferSize bytes, then starts at 1:1. */
    constructor (stream: seq<byte>, bufferSize: nat)
      ensures source == stream && fresh(buffer) && buffer.Length == bufferSize
      ensures Ready() && Offset() == 0
      ensures forall j :: 0 <= j < bufferSize ==> buffer[j] == if j < |stream| then stream[j] as int else -1
      ensures line == 1 && column == 1
    {
      source := stream;
      buffer := new int[bufferSize](_ => 0);
      consumed := 0;
      line := 1;
      column := 1;
      new;
      var i := 0;
      while i < bufferSize
        invariant 0 <= i <= bufferSize && consumed == i && Valid()
      {
        var _ := Next();
        i := i + 1;
      }
      line := 1;
      column := 1;
    }

    /** Stream.ReadByte: the next byte, or -1 once the stream is exhausted. */
    method ReadByte() returns (b: int)
      modifies this`consumed
      ensures consumed == old(consumed) + 1
      ensures b == if old(consumed) < |source| then source[old(consumed)] as int else -1
    {
      b := Slot(source, consumed);
      consumed := consumed + 1;
    }

    function HasCharacter(): (b: bool)
      reads this, buffer
      requires buffer.Length >= 1
      ensures Ready() ==> (b <==> Offset() < |source|)
    {
      buffer[0] >= 0
    }

    function HasNextCharacter(): (b: bool)
      reads this, buffer
      requires buffer.Length >= 2
      ensures Ready() ==> (b <==> Offset() + 1 < |source|)
    {
      buffer[1] >= 0
    }

    /** Shifts the window one slot left, reads one byte into the last slot and
      * moves the position past the character shifted out. */
    method Next() returns (has: bool)
      requires Valid() && buffer.Length >= 1
      modifies this`consumed, this`line, this`column, buffer
      ensures Valid() && consumed == old(consumed) + 1
      ensures buffer[..] == old(buffer[1..]) + [Slot(source, old(consumed))]
      ensures Position(line, column) == Advance(old(Position(line, column)), old(buffer[0]))
      ensures has <==> buffer[0] >= 0
      ensures old(Ready()) ==> Ready() && (has <==> Offset() < |source|)
      ensures old(Ready()) && old(buffer[0]) < 0 ==> !has && line == old(line) && column == old(column) + 1
    {
      ghost var start := consumed - buffer.Length;
      var previous := buffer[0];
      ShiftLeft();
      var b := ReadByte();
      buffer[buffer.Length - 1] := b;
      assert buffer[..] == old(buffer[1..]) + [b];
      column := column + 1;
      if previous == Newline {
        line := line + 1;
        column := 1;
      }
      has := HasCharacter();
      assert start >= 0 ==> PositionAfter(source, start + 1) == Advance(PositionAfter(source, start), previous);
    }

    /** The loop of `Next` that moves every slot but the first one place left. */
    method ShiftLeft()
      requires buffer.Length >= 1
      modifies buffer
      ensures forall j :: 0 <= j < buffer.Length - 1 ==> buffer[j] == old(buffer[j + 1])
      ensures buffer[buffer.Length - 1] == old(buffer[buffer.Length - 1])
    {
      var i := 1;
      while i < buffer.Length
        invariant 1 <= i <= buffer.Length
        invariant forall j :: 0 <= j < i - 1 ==> buffer[j] == old(buffer[j + 1])
        invariant forall j :: i - 1 <= j < buffer.Length ==> buffer[j] == old(buffer[j])
      {
        buffer[i - 1] := buffer[i];
        i := i + 1;
      }
    }

    /** The character in slot index; an index outside the window, or a slot
      * past the end of the stream (-1 is not a char), is an error. */
    function PeekCharacter(index: int): (r: Result<char, PeekError>)
      reads this, buffer
      requires Valid()
      ensures r == Err(IndexOutOfRange) <==> index < 0 || index >= buffer.Length
      ensures Ready() && 0 <= index < buffer.Length ==>
                (r.Ok? <==> Offset() + index < |source|)
                && (r.Ok? ==> r.value == source[Offset() + index] as int as char)
    {
      if index < 0 || index >= buffer.Length then Err(IndexOutOfRange)
      else if buffer[index] < 0 then Err(NotAChar)
      else Ok(buffer[index] as char)
    }

    function PeekNext(): (r: Result<char, PeekError>)
      reads this, buffer
      requires Valid()
      ensures buffer.Length < 2 <==> r == Err(IndexOutOfRange)
      ensures Ready() && buffer.Length >= 2 ==>
                (r.Ok? <==> Offset() + 1 < |source|)
                && (r.Ok? ==> r.value == source[Offset() + 1] as int as char)
    {
      PeekCharacter(1)
    }

    function GetPosition(): (p: Position)
      reads this, buffer
      ensures Ready() ==> p == PositionAfter(source, Offset())
    {
      Position(line, column)
    }
  }
}
