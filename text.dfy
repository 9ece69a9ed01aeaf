/** Models of the Python string built-ins the solvers rely on: `str.find`,
    `str.split`, `str.count`, `str.replace(c, "")` and `int(...)` on decimal or
    hexadecimal text. Strings are `seq<char>`. */
module Text {

  datatype Option<T> = None | Some(value: T)

  /** True when `sub` occurs in `s` at index `i`. */
  predicate OccursAt(s: string, sub: string, i: int)
  {
    0 <= i && i + |sub| <= |s| && s[i..i + |sub|] == sub
  }

  /** The start position Python uses for `s.find(sub, start)`: a negative start
      counts from the end of the string, clamped at 0. */
  function NormalizeStart(s: string, start: int): (r: nat)
    ensures start >= 0 ==> r == start
    ensures start < 0 ==> r <= |s|
  {
    if start >= 0 then start
    else if |s| + start >= 0 then |s| + start
    else 0
  }

  /** `s.find(sub, start)`: the lowest index at or after `start` where `sub`
      occurs, or -1. */
  function Find(s: string, sub: string, start: int): (r: int)
    requires |sub| > 0
    ensures r == -1 || (NormalizeStart(s, start) <= r && OccursAt(s, sub, r))
    ensures r == -1 ==> forall i :: NormalizeStart(s, start) <= i <= |s| ==> !OccursAt(s, sub, i)
    ensures r != -1 ==> forall i :: NormalizeStart(s, start) <= i < r ==> !OccursAt(s, sub, i)
  {
    FindFrom(s, sub, NormalizeStart(s, start))
  }

  function FindFrom(s: string, sub: string, i: nat): (r: int)
    requires |sub| > 0
    ensures r == -1 || (i <= r && OccursAt(s, sub, r))
    ensures r == -1 ==> forall j :: i <= j <= |s| ==> !OccursAt(s, sub, j)
    ensures r != -1 ==> forall j :: i <= j < r ==> !OccursAt(s, sub, j)
    decreases |s| - i
  {
    if i + |sub| > |s| then -1
    else if s[i..i + |sub|] == sub then i
    else FindFrom(s, sub, i + 1)
  }

  /** True when `sub` occurs anywhere in `s` (Python's `sub in s`). */
  predicate Contains(s: string, sub: string)
  {
    exists i :: 0 <= i <= |s| && OccursAt(s, sub, i)
  }

  /** `s.split(sep)`: the pieces between the leftmost non-overlapping
      occurrences of `sep`. */
  function Split(s: string, sep: string): (r: seq<string>)
    requires |sep| > 0
    ensures |r| >= 1
    decreases |s|
  {
    var i := FindFrom(s, sep, 0);
    if i == -1 then [s]
    else [s[..i]] + Split(s[i + |sep|..], sep)
  }

  /** `sep.join(pieces)`. */
  function Join(pieces: seq<string>, sep: string): string
  {
    if |pieces| == 0 then ""
    else if |pieces| == 1 then pieces[0]
    else pieces[0] + sep + Join(pieces[1..], sep)
  }

  /** Splitting and joining again gives back the text. */
  lemma {:induction false} SplitJoin(s: string, sep: string)
    requires |sep| > 0
    ensures Join(Split(s, sep), sep) == s
    decreases |s|
  {
    var i := FindFrom(s, sep, 0);
    if i == -1 {
      assert Split(s, sep) == [s];
    } else {
      var rest := s[i + |sep|..];
      var tail := Split(rest, sep);
      SplitJoin(rest, sep);
      assert Split(s, sep) == [s[..i]] + tail;
      JoinCons(s[..i], tail, sep);
      assert OccursAt(s, sep, i);
      assert s == s[..i] + sep + rest by {
        assert s == s[..i] + s[i..i + |sep|] + s[i + |sep|..];
      }
    }
  }

  lemma {:induction false} JoinCons(head: string, tail: seq<string>, sep: string)
    requires |tail| > 0
    ensures Join([head] + tail, sep) == head + sep + Join(tail, sep)
  {
    assert ([head] + tail)[1..] == tail;
  }

  /** No piece of a split on a single character contains that character. */
  lemma {:induction false} SplitPiecesFree(s: string, c: char)
    ensures forall k :: 0 <= k < |Split(s, [c])| ==> c !in Split(s, [c])[k]
    decreases |s|
  {
    var i := FindFrom(s, [c], 0);
    if i == -1 {
      forall j | 0 <= j < |s| ensures s[j] != c {
        assert !OccursAt(s, [c], j);
        assert s[j..j + 1] == [s[j]];
      }
    } else {
      SplitPiecesFree(s[i + 1..], c);
      forall j | 0 <= j < i ensures s[j] != c {
        assert !OccursAt(s, [c], j);
        assert s[j..j + 1] == [s[j]];
      }
    }
  }

  /** `s.count(c)` for a single character. */
  function Count(s: string, c: char): (r: nat)
    ensures r <= |s|
  {
    if s == [] then 0 else Count(s[..|s| - 1], c) + (if s[|s| - 1] == c then 1 else 0)
  }

  lemma {:induction false} CountAppend(a: string, b: string, c: char)
    ensures Count(a + b, c) == Count(a, c) + Count(b, c)
    decreases |b|
  {
    if b == [] {
      assert a + b == a;
    } else {
      CountAppend(a, b[..|b| - 1], c);
      assert (a + b)[..|a + b| - 1] == a + b[..|b| - 1];
    }
  }

  /** `s.replace(c, "")` for a single character. */
  function Remove(s: string, c: char): (r: string)
    ensures c !in r
    ensures |r| == |s| - Count(s, c)
  {
    if s == [] then [] else Remove(s[..|s| - 1], c) + (if s[|s| - 1] == c then [] else [s[|s| - 1]])
  }

  predicate IsDigit(c: char)
  {
    '0' <= c <= '9'
  }

  predicate AllDigits(s: string)
  {
    forall i :: 0 <= i < |s| ==> IsDigit(s[i])
  }

  function DigitValue(c: char): nat
    requires IsDigit(c)
  {
    c as int - '0' as int
  }

  function DigitChar(d: nat): char
    requires d < 10
  {
    ('0' as int + d) as char
  }

  /** The value of a string of decimal digits, read left to right. */
  function DigitsValue(s: string): nat
    requires AllDigits(s)
  {
    if s == [] then 0 else 10 * DigitsValue(s[..|s| - 1]) + DigitValue(s[|s| - 1])
  }

  /** `int(s)` for decimal text: an optional sign followed by at least one
      digit; anything else is the ValueError case, `None`. */
  function ParseInt(s: string): (r: Option<int>)
    ensures r.Some? ==> |s| > 0
    ensures AllDigits(s) && |s| > 0 ==> r == Some(DigitsValue(s))
  {
    if |s| > 1 && s[0] == '-' && AllDigits(s[1..]) then Some(0 - DigitsValue(s[1..]))
    else if |s| > 1 && s[0] == '+' && AllDigits(s[1..]) then Some(DigitsValue(s[1..]))
    else if |s| > 0 && AllDigits(s) then Some(DigitsValue(s))
    else None
  }

  /** `str(n)` for a natural number. */
  function NatToString(n: nat): (r: string)
    ensures |r| > 0 && AllDigits(r)
  {
    if n < 10 then [DigitChar(n)] else NatToString(n / 10) + [DigitChar(n % 10)]
  }

  /** `str(i)` for an integer. */
  function IntToString(i: int): string
  {
    if i < 0 then "-" + NatToString(-i) else NatToString(i)
  }

  lemma {:induction false} NatToStringValue(n: nat)
    ensures DigitsValue(NatToString(n)) == n
  {
    if n >= 10 {
      NatToStringValue(n / 10);
      var s := NatToString(n);
      assert s[..|s| - 1] == NatToString(n / 10);
    }
  }

  /** One more digit written after others. */
  lemma {:induction false} DigitsValueSnoc(a: string, c: char)
    requires AllDigits(a) && IsDigit(c)
    ensures AllDigits(a + [c])
    ensures DigitsValue(a + [c]) == 10 * DigitsValue(a) + DigitValue(c)
  {
    var s := a + [c];
    assert s[..|s| - 1] == a;
    forall i | 0 <= i < |s| ensures IsDigit(s[i]) {
      if i < |a| {
        assert s[i] == a[i];
      }
    }
  }

  /** Reading back what `str` wrote gives the number again. */
  lemma {:induction false} ParseIntRoundTrip(i: int)
    ensures ParseInt(IntToString(i)) == Some(i)
  {
    if i < 0 {
      NatToStringValue(-i);
      assert IntToString(i)[1..] == NatToString(-i);
    } else {
      NatToStringValue(i);
    }
  }

  predicate IsHexDigit(c: char)
  {
    IsDigit(c) || 'a' <= c <= 'f' || 'A' <= c <= 'F'
  }

  function HexDigitValue(c: char): (r: nat)
    requires IsHexDigit(c)
    ensures r < 16
  {
    if IsDigit(c) then DigitValue(c)
    else if 'a' <= c <= 'f' then c as int - 'a' as int + 10
    else c as int - 'A' as int + 10
  }

  /** The value of a string of hexadecimal digits, read left to right. */
  function HexValue(s: string): nat
    requires forall i :: 0 <= i < |s| ==> IsHexDigit(s[i])
  {
    if s == [] then 0 else 16 * HexValue(s[..|s| - 1]) + HexDigitValue(s[|s| - 1])
  }

  /** `int(s, 16)` for unsigned hexadecimal text. */
  function ParseHex(s: string): (r: Option<nat>)
    ensures r.Some? <==> |s| > 0 && forall i :: 0 <= i < |s| ==> IsHexDigit(s[i])
  {
    if |s| > 0 && forall i :: 0 <= i < |s| ==> IsHexDigit(s[i]) then Some(HexValue(s)) else None
  }

  /** The non-empty pieces of `s.split(" ")`, in order. */
  function NonEmpty(pieces: seq<string>): (r: seq<string>)
    ensures forall k :: 0 <= k < |r| ==> r[k] != ""
    ensures |r| <= |pieces|
  {
    if pieces == [] then []
    else (if pieces[0] == "" then [] else [pieces[0]]) + NonEmpty(pieces[1..])
  }

  /** Python's `s.split()` with spaces as the only white space. */
  function Words(s: string): seq<string>
  {
    NonEmpty(Split(s, " "))
  }

  /** `int(x)` over a list: `None` as soon as one element does not parse. */
  function ParseInts(pieces: seq<string>): (r: Option<seq<int>>)
    ensures r.Some? ==> |r.value| == |pieces|
    ensures r.Some? ==> forall k :: 0 <= k < |pieces| ==> ParseInt(pieces[k]) == Some(r.value[k])
  {
    if pieces == [] then Some([])
    else match (ParseInt(pieces[0]), ParseInts(pieces[1..]))
      case (Some(v), Some(vs)) => Some([v] + vs)
      case _ => None
  }

  /** `int(x)` over a list, one element at a time from the front. */
  lemma {:induction false} ParseIntsCons(head: string, tail: seq<string>)
    ensures ParseInts([head] + tail) == match (ParseInt(head), ParseInts(tail))
      case (Some(v), Some(vs)) => Some([v] + vs)
      case _ => None
  {
    var pieces := [head] + tail;
    assert pieces[0] == head && pieces[1..] == tail;
    assert ParseInts(pieces) == match (ParseInt(pieces[0]), ParseInts(pieces[1..]))
      case (Some(v), Some(vs)) => Some([v] + vs)
      case _ => None;
  }

  /** For a single character, `find` is the first position of that character
      at or after the start. */
  lemma {:induction false} FindCharAt(s: string, c: char, i: nat, r: nat)
    requires i <= r < |s| && s[r] == c
    requires c !in s[i..r]
    ensures FindFrom(s, [c], i) == r
  {
    assert OccursAt(s, [c], r) by {
      assert s[r..r + 1] == [c];
    }
    forall j | i <= j < r ensures !OccursAt(s, [c], j) {
      assert s[i..r][j - i] == s[j];
      assert s[j..j + 1] == [s[j]];
    }
  }

  lemma {:induction false} FindCharNone(s: string, c: char, i: nat)
    requires i <= |s|
    requires c !in s[i..]
    ensures FindFrom(s, [c], i) == -1
  {
    forall j | i <= j <= |s| ensures !OccursAt(s, [c], j) {
      if j < |s| {
        assert s[j..j + 1][0] == s[j] == s[i..][j - i];
      }
    }
  }

  /** `c * n` in Python: the character repeated. */
  function Repeat(c: char, n: nat): (r: string)
    ensures |r| == n
    ensures forall i :: 0 <= i < n ==> r[i] == c
  {
    if n == 0 then [] else Repeat(c, n - 1) + [c]
  }

  lemma {:induction false} CountRepeat(c: char, n: nat, d: char)
    ensures Count(Repeat(c, n), d) == if c == d then n else 0
  {
    if n > 0 {
      CountRepeat(c, n - 1, d);
      assert Repeat(c, n)[..n - 1] == Repeat(c, n - 1);
    }
  }

  /** Splitting joined pieces on a separator none of them contains gives the
      pieces back. */
  lemma {:induction false} JoinSplit(pieces: seq<string>, c: char)
    requires |pieces| > 0
    requires forall k :: 0 <= k < |pieces| ==> c !in pieces[k]
    ensures Split(Join(pieces, [c]), [c]) == pieces
    decreases |pieces|
  {
    var s := Join(pieces, [c]);
    if |pieces| == 1 {
      FindCharNone(s, c, 0);
      assert s[0..] == s;
    } else {
      var rest := Join(pieces[1..], [c]);
      assert s == pieces[0] + [c] + rest;
      var n := |pieces[0]|;
      assert s[..n] == pieces[0];
      assert s[0..n] == pieces[0];
      FindCharAt(s, c, 0, n);
      assert s[n + 1..] == rest;
      JoinSplit(pieces[1..], c);
    }
  }

  /** A text lacking some character of `sep` does not split. */
  lemma {:induction false} SplitAbsent(s: string, sep: string, k: nat)
    requires k < |sep| && sep[k] !in s
    ensures Split(s, sep) == [s]
  {
    forall j | 0 <= j && j + |sep| <= |s| ensures !OccursAt(s, sep, j) {
      assert s[j + k] in s;
      assert s[j..j + |sep|][k] == s[j + k];
    }
  }

  /** A first piece free of the separator's first character splits off. */
  lemma {:induction false} SplitFirst(a: string, sep: string, b: string)
    requires |sep| > 0 && sep[0] !in a
    ensures Split(a + sep + b, sep) == [a] + Split(b, sep)
  {
    var s := a + sep + b;
    assert OccursAt(s, sep, |a|) by {
      assert s[|a|..|a| + |sep|] == sep;
    }
    forall j | 0 <= j < |a| ensures !OccursAt(s, sep, j) {
      assert s[j] == a[j];
    }
    assert FindFrom(s, sep, 0) == |a|;
    assert s[..|a|] == a;
    assert s[|a| + |sep|..] == b;
  }

  lemma {:induction false} RemoveAppend(a: string, b: string, c: char)
    ensures Remove(a + b, c) == Remove(a, c) + Remove(b, c)
    decreases |b|
  {
    if b == [] {
      assert a + b == a;
    } else {
      RemoveAppend(a, b[..|b| - 1], c);
      assert (a + b)[..|a + b| - 1] == a + b[..|b| - 1];
    }
  }

  lemma {:induction false} RemoveAbsent(s: string, c: char)
    requires c !in s
    ensures Remove(s, c) == s
    decreases |s|
  {
    if s != [] {
      RemoveAbsent(s[..|s| - 1], c);
    }
  }

  /** A sequence read back to front. */
  function Reverse<T>(s: seq<T>): (r: seq<T>)
    ensures |r| == |s|
    ensures forall i :: 0 <= i < |s| ==> r[i] == s[|s| - 1 - i]
  {
    seq(|s|, i requires 0 <= i < |s| => s[|s| - 1 - i])
  }

  lemma {:induction false} ReverseReverse<T>(s: seq<T>)
    ensures Reverse(Reverse(s)) == s
  {
  }

  lemma {:induction false} CountReverse(s: string, c: char)
    ensures Count(Reverse(s), c) == Count(s, c)
    decreases |s|
  {
    if s != [] {
      var init := s[..|s| - 1];
      CountReverse(init, c);
      assert Reverse(s) == [s[|s| - 1]] + Reverse(init);
      CountAppend([s[|s| - 1]], Reverse(init), c);
      assert [s[|s| - 1]][..0] == [];
    }
  }

  /** A parser run over every line: `None` as soon as one line fails. */
  function ParseLines<T>(parse: string -> Option<T>, lines: seq<string>): (r: Option<seq<T>>)
    ensures r.Some? ==> |r.value| == |lines|
    ensures r.Some? ==> forall i :: 0 <= i < |lines| ==> parse(lines[i]) == Some(r.value[i])
    ensures r.None? ==> exists i :: 0 <= i < |lines| && parse(lines[i]).None?
  {
    if lines == [] then Some([])
    else match (ParseLines(parse, lines[..|lines| - 1]), parse(lines[|lines| - 1]))
      case (Some(values), Some(value)) => Some(values + [value])
      case (None, _) =>
        var k :| 0 <= k < |lines| - 1 && parse(lines[..|lines| - 1][k]).None?;
        assert lines[..|lines| - 1][k] == lines[k];
        None
      case _ => None
  }

  /** One more line: the run over the first `n + 1` lines extends the run
      over the first `n` by that line's value, or fails with it. */
  lemma {:induction false} ParseLinesSnoc<T>(parse: string -> Option<T>, lines: seq<string>, n: nat)
    requires n < |lines| && ParseLines(parse, lines[..n]).Some?
    ensures parse(lines[n]).None? ==> ParseLines(parse, lines[..n + 1]).None?
    ensures parse(lines[n]).Some? ==>
      ParseLines(parse, lines[..n + 1]) == Some(ParseLines(parse, lines[..n]).value + [parse(lines[n]).value])
  {
    var front := lines[..n + 1];
    assert front[..n] == lines[..n] && front[n] == lines[n];
  }

  /** A line that fails among the first ones makes the whole run fail. */
  lemma {:induction false} ParseLinesPrefix<T>(parse: string -> Option<T>, lines: seq<string>, n: nat)
    requires n <= |lines| && ParseLines(parse, lines[..n]).None?
    ensures ParseLines(parse, lines).None?
  {
    var k :| 0 <= k < n && parse(lines[..n][k]).None?;
    assert lines[..n][k] == lines[k];
  }
}
