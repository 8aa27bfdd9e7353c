// Source positions and locations (internal/types/position.go).
//
// All three coordinates are `uint` in the source; they are modelled as `nat`.
// The 64-bit wrap-around of `uint` is not modelled (it needs an input of
// 2^64 bytes).

module Positions {

  /** A point in the input: 1-based line, 0-based column, 0-based byte offset. */
  datatype Position = Position(line: nat, column: nat, pos: nat)

  /** A span of the input; `end` is exclusive in byte offset. */
  datatype Location = Location(start: Position, end: Position)

  /** NewInitialPosition: line 1, column 0, offset 0. */
  function InitialPosition(): (p: Position)
    ensures p.line == 1 && p.column == 0 && p.pos == 0
  {
    Position(1, 0, 0)
  }

  /** NewInitialLocation: both ends at the initial position. */
  function InitialLocation(): (l: Location)
    ensures l.start == l.end == InitialPosition()
  {
    Location(InitialPosition(), InitialPosition())
  }

  /** The zero `types.Position{}` of Go (used by NewVar for an empty path). */
  function ZeroPosition(): (p: Position)
    ensures p.line == 0 && p.column == 0 && p.pos == 0
  {
    Position(0, 0, 0)
  }

  /** AddPos: moves the byte offset forward by `n`; line and column stay. */
  function AddPos(p: Position, n: nat): (r: Position)
    ensures r.pos == p.pos + n
    ensures r.line == p.line && r.column == p.column
  {
    p.(pos := p.pos + n)
  }

  /** IncrPos: AddPos by one. */
  function IncrPos(p: Position): (r: Position)
    ensures r == AddPos(p, 1)
  {
    p.(pos := p.pos + 1)
  }

  /** AddColumn: moves the column forward by `n`; line and offset stay. */
  function AddColumn(p: Position, n: nat): (r: Position)
    ensures r.column == p.column + n
    ensures r.line == p.line && r.pos == p.pos
  {
    p.(column := p.column + n)
  }

  /** IncrColumn: AddColumn by one. */
  function IncrColumn(p: Position): (r: Position)
    ensures r == AddColumn(p, 1)
  {
    p.(column := p.column + 1)
  }

  /** IncrLine: the next line; column and offset stay. */
  function IncrLine(p: Position): (r: Position)
    ensures r.line == p.line + 1
    ensures r.column == p.column && r.pos == p.pos
  {
    p.(line := p.line + 1)
  }

  /** ResetColumn: column 0; line and offset stay. */
  function ResetColumn(p: Position): (r: Position)
    ensures r.column == 0
    ensures r.line == p.line && r.pos == p.pos
  {
    p.(column := 0)
  }

  /** SetStart: a copy of `l` with the start replaced (value receiver: `l` itself is untouched). */
  function SetStart(l: Location, start: Position): (r: Location)
    ensures r.start == start && r.end == l.end
  {
    l.(start := start)
  }

  /** SetEnd: a copy of `l` with the end replaced. */
  function SetEnd(l: Location, end: Position): (r: Location)
    ensures r.end == end && r.start == l.start
  {
    l.(end := end)
  }
}
