/**
 * The position-tracking reader the parsers consume: a cursor `i` over the
 * input characters with 0-based `row` and `col` counters.
 *
 * `Pos` and the functions `Advance` and `Retreat` describe, as values, what
 * `next` and `back` do to the cursor; the parser specification is written with
 * them and the class's methods are proved to agree with them.
 */
module SerialReaders {

  /** A snapshot of the cursor: index, row and column. */
  datatype Pos = Pos(i: nat, row: nat, col: int)

  const Start := Pos(0, 0, 0)

  /** The cursor after `next`: a newline starts a new row, any other character moves one column on. */
  function Advance(chars: seq<char>, p: Pos): (q: Pos)
    ensures p.i < |chars| ==> q.i == p.i + 1
    ensures p.i < |chars| && chars[p.i] == '\n' ==> q.row == p.row + 1 && q.col == 0
    ensures p.i < |chars| && chars[p.i] != '\n' ==> q.row == p.row && q.col == p.col + 1
    ensures p.i >= |chars| ==> q == p
  {
    if p.i < |chars| then
      if chars[p.i] == '\n' then Pos(p.i + 1, p.row + 1, 0) else Pos(p.i + 1, p.row, p.col + 1)
    else p
  }

  /** The cursor after `back`: one index and one column back; the row is never restored. */
  function Retreat(p: Pos): (q: Pos)
    requires p.i > 0
    ensures q.i == p.i - 1 && q.row == p.row && q.col == p.col - 1
  {
    Pos(p.i - 1, p.row, p.col - 1)
  }

  /** Backing up over a character other than a newline restores the cursor exactly. */
  lemma BackUndoesNext(chars: seq<char>, p: Pos)
    requires p.i < |chars| && chars[p.i] != '\n'
    ensures Retreat(Advance(chars, p)) == p
  {
  }

  /**
   * Backing up over a newline restores the index but not the row, and leaves
   * the column one below zero (an underflow of the source's unsigned counter).
   */
  lemma BackOverNewline(chars: seq<char>, p: Pos)
    requires p.i < |chars| && chars[p.i] == '\n'
    ensures var q := Retreat(Advance(chars, p)); q.i == p.i && q.row == p.row + 1 && q.col == -1
  {
  }

  class SerialReader {
    const chars: seq<char>
    const len: nat
    var i: nat
    var row: nat
    var col: int

    ghost predicate Valid()
      reads this
    {
      len == |chars| && i <= len
    }

    /** The current cursor as a value. */
    function Position(): Pos
      reads this
    {
      Pos(i, row, col)
    }

    /** Reads the whole input; the cursor starts at index, row and column 0. */
    constructor (s: string)
      ensures Valid()
      ensures chars == s && len == |s|
      ensures i == 0 && row == 0 && col == 0
    {
      chars := s;
      len := |s|;
      i, row, col := 0, 0, 0;
    }

    /** True exactly when characters remain. */
    function HasMore(): (b: bool)
      requires Valid()
      reads this
      ensures b <==> i < |chars|
    {
      i < len
    }

    /** Consumes one character; at the end it returns a space and changes nothing. */
    method Next() returns (c: char)
      requires Valid()
      modifies this
      ensures Valid()
      ensures old(i) < len ==> c == chars[old(i)] && i == old(i) + 1
      ensures old(i) < len && c == '\n' ==> row == old(row) + 1 && col == 0
      ensures old(i) < len && c != '\n' ==> row == old(row) && col == old(col) + 1
      ensures old(i) >= len ==> c == ' ' && i == old(i) && row == old(row) && col == old(col)
      ensures Position() == Advance(chars, old(Position()))
    {
      if i < len {
        c := chars[i];
        i := i + 1;
        col := col + 1;
        if c == '\n' {
          col := 0;
          row := row + 1;
        }
      } else {
        c := ' ';
      }
    }

    /** Steps back one character: index and column go down by one, the row stays. */
    method Back()
      requires Valid() && i > 0
      modifies this
      ensures Valid()
      ensures i == old(i) - 1 && col == old(col) - 1 && row == old(row)
      ensures Position() == Retreat(old(Position()))
    {
      i := i - 1;
      col := col - 1;
    }
  }
}
