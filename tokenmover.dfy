// The token cursor (internal/lexer/tokenmover/tokenmover.go): a position in
// a fixed token sequence plus a stack of saved positions for backtracking.

module TokenCursor {
  import opened Tokens

  class TokenMover {
    /** The tokens; fixed at construction. */
    const tokens: seq<Token>
    var pos: int
    var savePoints: seq<int>

    /** New: position 0, no save points. */
    constructor(tokens: seq<Token>)
      ensures this.tokens == tokens && pos == 0 && savePoints == []
    {
      this.tokens := tokens;
      pos := 0;
      savePoints := [];
    }

    /** SavePoint: push the current position. */
    method SavePoint()
      modifies this
      ensures savePoints == old(savePoints) + [old(pos)] && pos == old(pos)
    {
      savePoints := savePoints + [pos];
    }

    /** RemoveSavePoint: pop the top save point; nothing on an empty stack. */
    method RemoveSavePoint()
      modifies this
      ensures old(savePoints) == [] ==> savePoints == []
      ensures old(savePoints) != [] ==> savePoints == old(savePoints)[..|old(savePoints)| - 1]
      ensures pos == old(pos)
    {
      if |savePoints| == 0 {
        return;
      }
      savePoints := savePoints[..|savePoints| - 1];
    }

    /** ReturnToSavePoint: go back to the top save point without popping it;
        nothing on an empty stack. */
    method ReturnToSavePoint()
      modifies this
      ensures old(savePoints) == [] ==> pos == old(pos)
      ensures old(savePoints) != [] ==> pos == old(savePoints)[|old(savePoints)| - 1]
      ensures savePoints == old(savePoints)
    {
      if |savePoints| == 0 {
        return;
      }
      pos := savePoints[|savePoints| - 1];
    }

    /** IsEmpty: no token at the current position; when it is false and the
        position is not negative, Token is defined. */
    predicate IsEmpty(): (b: bool)
      reads this
      ensures b ==> |tokens| <= pos
      ensures !b && 0 <= pos ==> pos < |tokens|
    {
      pos >= |tokens|
    }

    method Next()
      modifies this
      ensures pos == old(pos) + 1 && savePoints == old(savePoints)
    {
      pos := pos + 1;
    }

    method Prev()
      modifies this
      ensures pos == old(pos) - 1 && savePoints == old(savePoints)
    {
      pos := pos - 1;
    }

    /** Token: the token at the current position; the source panics when
        there is none. */
    function Token(): (t: Token)
      reads this
      requires 0 <= pos < |tokens|
      ensures t == tokens[pos] && t in tokens
    {
      tokens[pos]
    }
  }
}
