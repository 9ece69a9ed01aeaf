/** The C helper `get_list_of_lines`: split a NUL-terminated text into
    newline-terminated pieces, each copied into its own NUL-terminated buffer.
    The text is the characters before the terminating NUL; each stored buffer
    is the piece followed by '\0'. */
module LineSplitter {
  import opened Text

  const NUL: char := '\0'

  /** A C string: no NUL before its terminator. */
  predicate IsCText(block: string)
  {
    NUL !in block
  }

  /** Where the last piece of a non-empty text starts: just after the last
      '\n' before its final character, or at 0 when there is none. */
  function LastStart(s: string): (r: nat)
    requires s != []
    ensures r < |s|
    ensures '\n' !in s[r..|s| - 1]
    ensures r > 0 ==> s[r - 1] == '\n'
    decreases |s|
  {
    if |s| == 1 || s[|s| - 2] == '\n' then |s| - 1
    else
      var front := s[..|s| - 1];
      var r := LastStart(front);
      assert s[r..|s| - 1] == front[r..|front| - 1] + [s[|s| - 2]];
      assert r > 0 ==> s[r - 1] == front[r - 1];
      r
  }

  /** The last piece starts at any `j` just after a newline (or at 0) with no
      newline from `j` up to the final character. */
  lemma {:induction false} LastStartAt(s: string, j: nat)
    requires j < |s| && (j == 0 || s[j - 1] == '\n')
    requires '\n' !in s[j..|s| - 1]
    ensures LastStart(s) == j
    decreases |s|
  {
    if j < |s| - 1 {
      var front := s[..|s| - 1];
      assert s[j..|s| - 1][|s| - 2 - j] == s[|s| - 2];
      assert front[j..|front| - 1] == s[j..|s| - 2];
      assert s[j..|s| - 2] == s[j..|s| - 1][..|s| - 2 - j];
      assert j > 0 ==> front[j - 1] == s[j - 1];
      LastStartAt(front, j);
    }
  }

  /** The pieces the splitter stores: each runs from just after the previous
      '\n' (or the start) through the next '\n', or through the last
      character. They are listed here from the last one back. */
  function Pieces(block: string): seq<string>
    decreases |block|
  {
    if block == [] then []
    else
      var j := LastStart(block);
      Pieces(block[..j]) + [block[j..]]
  }

  function Concat(pieces: seq<string>): string
  {
    if pieces == [] then "" else Concat(pieces[..|pieces| - 1]) + pieces[|pieces| - 1]
  }

  /** A prefix that is empty or ends in a newline is a whole number of pieces. */
  predicate EndsAtBoundary(s: string)
  {
    s == [] || s[|s| - 1] == '\n'
  }

  /** One step of `Pieces`: the pieces before a boundary, then the rest as one piece. */
  lemma {:induction false} PiecesLast(s: string, j: nat)
    requires j < |s| && EndsAtBoundary(s[..j])
    requires '\n' !in s[j..|s| - 1]
    ensures Pieces(s) == Pieces(s[..j]) + [s[j..]]
  {
    assert j > 0 ==> s[..j][j - 1] == s[j - 1];
    LastStartAt(s, j);
  }

  /** The stored pieces concatenate back to the text. */
  lemma {:induction false} PiecesConcat(block: string)
    ensures Concat(Pieces(block)) == block
    decreases |block|
  {
    if block != [] {
      var j := LastStart(block);
      var front := Pieces(block[..j]);
      PiecesConcat(block[..j]);
      var p := front + [block[j..]];
      assert p[..|p| - 1] == front && p[|p| - 1] == block[j..];
      assert block == block[..j] + block[j..];
    }
  }

  /** The last piece of a text that ends at a boundary ends in a newline. */
  lemma {:induction false} LastPieceNewline(t: string)
    requires t != [] && t[|t| - 1] == '\n'
    ensures |Pieces(t)| > 0 && |Pieces(t)[|Pieces(t)| - 1]| > 0
    ensures Pieces(t)[|Pieces(t)| - 1][|Pieces(t)[|Pieces(t)| - 1]| - 1] == '\n'
  {
    var j := LastStart(t);
    var p := Pieces(t);
    assert p == Pieces(t[..j]) + [t[j..]];
    assert p[|p| - 1] == t[j..];
  }

  /** Each piece is non-empty, holds a newline only as its last character, and
      every piece but the last ends in a newline. */
  lemma {:induction false} PiecesShape(block: string)
    ensures forall k :: 0 <= k < |Pieces(block)| ==>
      |Pieces(block)[k]| > 0 &&
      '\n' !in Pieces(block)[k][..|Pieces(block)[k]| - 1] &&
      (k < |Pieces(block)| - 1 ==> Pieces(block)[k][|Pieces(block)[k]| - 1] == '\n')
    decreases |block|
  {
    if block != [] {
      var j := LastStart(block);
      var t := block[..j];
      PiecesShape(t);
      var p := Pieces(block);
      assert p == Pieces(t) + [block[j..]];
      assert block[j..][..|block| - j - 1] == block[j..|block| - 1];
      if j > 0 {
        assert t[|t| - 1] == block[j - 1];
        LastPieceNewline(t);
      }
    }
  }

  /** How many pieces are stored: one per newline, plus one for a non-empty
      unterminated last line; none for the empty text. */
  lemma {:induction false} PiecesCount(block: string)
    ensures |Pieces(block)| ==
      if block != [] && block[|block| - 1] != '\n' then Count(block, '\n') + 1 else Count(block, '\n')
    decreases |block|
  {
    if block != [] {
      var j := LastStart(block);
      var t, last := block[..j], block[j..];
      PiecesCount(t);
      assert j > 0 ==> t[|t| - 1] == block[j - 1];
      assert block == t + last;
      CountAppend(t, last, '\n');
      assert last[..|last| - 1] == block[j..|block| - 1];
      NoNewlineCount(last[..|last| - 1]);
    }
  }

  lemma {:induction false} NoNewlineCount(s: string)
    requires '\n' !in s
    ensures Count(s, '\n') == 0
    decreases |s|
  {
    if s != [] {
      NoNewlineCount(s[..|s| - 1]);
    }
  }

  lemma {:induction false} CountPrefixMonotone(s: string, i: nat, j: nat)
    requires i <= j <= |s|
    ensures Count(s[..i], '\n') <= Count(s[..j], '\n')
  {
    CountAppend(s[..i], s[i..j], '\n');
    assert s[..j] == s[..i] + s[i..j];
  }

  /** Storing the piece that ends at `c` extends the pieces of the prefix. */
  lemma {:induction false} StoreStep(block: string, start: nat, c: nat)
    requires start <= c < |block|
    requires '\n' !in block[start..c]
    requires EndsAtBoundary(block[..start])
    ensures Pieces(block[..c + 1]) == Pieces(block[..start]) + [block[start..c + 1]]
  {
    var s := block[..c + 1];
    assert s[..start] == block[..start];
    assert s[start..|s| - 1] == block[start..c];
    assert s[start..] == block[start..c + 1];
    PiecesLast(s, start);
  }

  /** ... and counts one more newline, when the piece ends in one. */
  lemma {:induction false} StoreStepCount(block: string, start: nat, c: nat)
    requires start <= c < |block|
    requires block[c] == '\n' || c + 1 == |block|
    requires '\n' !in block[start..c]
    ensures c + 1 < |block| ==> Count(block[..c + 1], '\n') == Count(block[..start], '\n') + 1
  {
    if c + 1 < |block| {
      var a, b := block[..start], block[start..c];
      StoreCount(a, b);
      assert block[..c + 1] == a + b + "\n" by {
        assert block[c] == '\n';
        assert block[..c + 1] == block[..c] + [block[c]];
        assert block[..c] == a + b;
      }
    }
  }

  lemma {:induction false} PrefixCountBound(block: string, start: nat)
    requires start <= |block|
    ensures Count(block[..start], '\n') <= Count(block, '\n')
  {
    CountPrefixMonotone(block, start, |block|);
    assert block[..|block|] == block;
  }

  lemma {:induction false} StoreCount(a: string, b: string)
    requires '\n' !in b
    ensures Count(a + b + "\n", '\n') == Count(a, '\n') + 1
  {
    CountAppend(a, b, '\n');
    CountAppend(a + b, "\n", '\n');
    NoNewlineCount(b);
    assert "\n"[..0] == [];
  }

  /** What storing the piece through `c` does to the second loop's state. */
  lemma {:induction false} Store(block: string, start: nat, c: nat)
    requires start <= c < |block|
    requires block[c] == '\n' || c + 1 == |block|
    requires '\n' !in block[start..c]
    requires EndsAtBoundary(block[..start])
    ensures Pieces(block[..c + 1]) == Pieces(block[..start]) + [block[start..c + 1]]
    ensures c + 1 < |block| ==> Count(block[..c + 1], '\n') == Count(block[..start], '\n') + 1
    ensures Count(block[..start], '\n') <= Count(block, '\n')
    ensures EndsAtBoundary(block[..c + 1]) || c + 1 == |block|
  {
    StoreStep(block, start, c);
    StoreStepCount(block, start, c);
    PrefixCountBound(block, start);
    assert block[..c + 1][c] == block[c];
  }

  /** Passing a character that ends no piece keeps the open piece newline-free. */
  lemma {:induction false} Skip(block: string, start: nat, c: nat)
    requires start <= c < |block| && block[c] != '\n'
    requires '\n' !in block[start..c]
    ensures '\n' !in block[start..c + 1]
  {
    assert block[start..c + 1] == block[start..c] + [block[c]];
  }

  /** The first loop of `get_list_of_lines`: one slot per newline, plus one. */
  method CountSlots(block: string) returns (lineCount: nat)
    ensures lineCount == Count(block, '\n') + 1
  {
    lineCount := 1;
    var c := 0;
    while c < |block|
      invariant 0 <= c <= |block|
      invariant lineCount == Count(block[..c], '\n') + 1
    {
      assert block[..c + 1][..c] == block[..c];
      if block[c] == '\n' {
        lineCount := lineCount + 1;
      }
      c := c + 1;
    }
    assert block[..|block|] == block;
  }

  /** `get_list_of_lines`: the first loop counts newlines and sizes the array;
      the second copies each piece, with its terminator, into the next slot.
      `stored` is the final value of `line_index`. */
  method GetListOfLines(block: string) returns (lines: array<string>, stored: nat)
    requires IsCText(block)
    ensures fresh(lines)
    ensures lines.Length == Count(block, '\n') + 1
    ensures stored == |Pieces(block)| <= lines.Length
    ensures forall k :: 0 <= k < stored ==> lines[k] == Pieces(block)[k] + [NUL]
  {
    var lineCount := CountSlots(block);
    lines := new string[lineCount];
    var lineIndex := 0;
    var start := 0;
    ghost var pieces: seq<string> := [];
    var c := 0;
    while c < |block|
      invariant 0 <= c <= |block|
      invariant Splitting(block, lines, c, start, lineIndex, pieces)
    {
      start, lineIndex, pieces := ScanCharacter(block, lines, c, start, lineIndex, pieces);
      c := c + 1;
    }
    assert start == |block| && block[..start] == block;
    stored := lineIndex;
  }

  /** The state of the second loop of `get_list_of_lines` before character
      `c`: the pieces before `start` are stored, each with its terminator,
      and the open piece from `start` holds no newline. */
  ghost predicate Splitting(block: string, lines: array<string>, c: nat, start: nat, lineIndex: nat, pieces: seq<string>)
    reads lines
  {
    && 0 <= start <= c <= |block|
    && (start == c || c < |block|)
    && '\n' !in block[start..c]
    && (EndsAtBoundary(block[..start]) || start == |block|)
    && lines.Length == Count(block, '\n') + 1
    && pieces == Pieces(block[..start])
    && lineIndex == |pieces| <= lines.Length
    && (start < |block| ==> lineIndex == Count(block[..start], '\n'))
    && (forall k :: 0 <= k < lineIndex ==> lines[k] == pieces[k] + [NUL])
  }

  /** One round of the second loop: character `c` ends a piece when it is a
      newline or the last character, and the piece is then stored. */
  method ScanCharacter(block: string, lines: array<string>, c: nat, start: nat, lineIndex: nat, ghost pieces: seq<string>)
    returns (start': nat, lineIndex': nat, ghost pieces': seq<string>)
    requires c < |block| && Splitting(block, lines, c, start, lineIndex, pieces)
    modifies lines
    ensures Splitting(block, lines, c + 1, start', lineIndex', pieces')
  {
    if block[c] == '\n' || c + 1 == |block| {
      Store(block, start, c);
      lines[lineIndex] := block[start..c + 1] + [NUL];
      pieces' := pieces + [block[start..c + 1]];
      start' := c + 1;
      lineIndex' := lineIndex + 1;
    } else {
      Skip(block, start, c);
      start', lineIndex', pieces' := start, lineIndex, pieces;
    }
  }
}
