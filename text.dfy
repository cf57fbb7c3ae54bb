/**
 * The handful of Python `str` operations the core relies on, over `string` (a `seq<char>`):
 * `strip`, slicing, `in`, `split` with and without a limit, `join`, `startswith`,
 * `endswith`, `lower` and `str(int)`.
 */
module Text {

  /** The characters Python's `str.strip()` removes when called without arguments. */
  predicate IsSpace(c: char)
  {
    c in {' ', '\t', '\n', '\r', '\U{000B}', '\U{000C}', '\U{001C}', '\U{001D}', '\U{001E}', '\U{001F}',
          '\U{0085}', '\U{00A0}', '\U{1680}', '\U{2028}', '\U{2029}', '\U{202F}', '\U{205F}', '\U{3000}'}
    || ('\U{2000}' <= c <= '\U{200A}')
  }

  /** Removes leading characters satisfying `IsSpace`. */
  function TrimStart(s: string): (r: string)
    ensures |r| <= |s| && r == s[|s| - |r|..]
    ensures r == [] || !IsSpace(r[0])
    ensures forall i :: 0 <= i < |s| - |r| ==> IsSpace(s[i])
  {
    if s != [] && IsSpace(s[0]) then TrimStart(s[1..]) else s
  }

  /** Removes trailing characters satisfying `IsSpace`. */
  function TrimEnd(s: string): (r: string)
    ensures |r| <= |s| && r == s[..|r|]
    ensures r == [] || !IsSpace(r[|r| - 1])
    ensures forall i :: |r| <= i < |s| ==> IsSpace(s[i])
  {
    if s != [] && IsSpace(s[|s| - 1]) then TrimEnd(s[..|s| - 1]) else s
  }

  /** Python's `s.strip()`: `s` without its whitespace border, which is all that is removed. */
  function Strip(s: string): (r: string)
    ensures exists i, j :: 0 <= i <= j <= |s| && r == s[i..j]
                           && (forall k :: 0 <= k < i ==> IsSpace(s[k]))
                           && (forall k :: j <= k < |s| ==> IsSpace(s[k]))
    ensures r == [] || (!IsSpace(r[0]) && !IsSpace(r[|r| - 1]))
  {
    var t := TrimStart(s);
    var r := TrimEnd(t);
    assert r == s[|s| - |t|..|s| - |t| + |r|];
    r
  }

  /** Python's `s[:n]`. */
  function Take(s: string, n: nat): (r: string)
    ensures |r| == if |s| <= n then |s| else n
    ensures r == s[..|r|]
  {
    if |s| <= n then s else s[..n]
  }

  /** Index of the first occurrence of `c` in `s`, if any. */
  function Find(s: string, c: char): (r: int)
    ensures -1 <= r < |s|
    ensures r == -1 <==> c !in s
    ensures r >= 0 ==> s[r] == c && c !in s[..r]
  {
    if s == [] then -1
    else if s[0] == c then 0
    else var k := Find(s[1..], c); if k < 0 then -1 else assert s[1..][..k] == s[1..k + 1]; k + 1
  }

  /** Python's `s.split(c, 1)` when `c in s`: the text before and after the first `c`. */
  function SplitOnce(s: string, c: char): (r: (string, string))
    requires c in s
    ensures s == r.0 + [c] + r.1
    ensures c !in r.0
  {
    var i := Find(s, c);
    assert s == s[..i] + [c] + s[i + 1..];
    (s[..i], s[i + 1..])
  }

  /** Splitting once at a `c` that is the first one recovers the two sides. */
  lemma SplitOnceAt(a: string, c: char, b: string)
    requires c !in a
    ensures SplitOnce(a + [c] + b, c) == (a, b)
  {
    var s := a + [c] + b;
    var r := Find(s, c);
    assert forall j :: 0 <= j < |a| ==> s[j] == a[j];
    assert s[|a|] == c;
    assert r == |a|;
    assert s[..r] == a;
    assert s[r + 1..] == b;
  }

  /** Python's `s.split(c)`: the pieces between occurrences of `c`; never empty. */
  function Split(s: string, c: char): (r: seq<string>)
    ensures |r| >= 1
    ensures forall k :: 0 <= k < |r| ==> c !in r[k]
    decreases |s|
  {
    if c in s then
      var (head, tail) := SplitOnce(s, c);
      [head] + Split(tail, c)
    else [s]
  }

  /** One step of `Split`: the text before the first `c`, then the split of the rest. */
  lemma SplitStep(s: string, c: char)
    requires c in s
    ensures Split(s, c) == [SplitOnce(s, c).0] + Split(SplitOnce(s, c).1, c)
  {
  }

  /** `s` holds at least `n` occurrences of `c`. */
  predicate AtLeastSeparators(s: string, c: char, n: nat)
    decreases n
  {
    n == 0 || (c in s && AtLeastSeparators(SplitOnce(s, c).1, c, n - 1))
  }

  /** The `n`-th piece of `s` cut at `c`, counting from 0 (the last piece when there are
      fewer). */
  function NthPiece(s: string, c: char, n: nat): string
    decreases n
  {
    if c !in s then s else if n == 0 then SplitOnce(s, c).0 else NthPiece(SplitOnce(s, c).1, c, n - 1)
  }

  /** `len(s.split(c)) > n` exactly when `s` holds `n` occurrences of `c`. */
  lemma {:induction false} PiecesOfSplit(s: string, c: char, n: nat)
    ensures |Split(s, c)| > n <==> AtLeastSeparators(s, c, n)
    decreases n
  {
    if c !in s {
      assert Split(s, c) == [s];
    } else {
      var tail := SplitOnce(s, c).1;
      SplitStep(s, c);
      assert |Split(s, c)| == 1 + |Split(tail, c)|;
      if n > 0 {
        PiecesOfSplit(tail, c, n - 1);
        assert AtLeastSeparators(s, c, n) == AtLeastSeparators(tail, c, n - 1);
      }
    }
  }

  /** Indexing a sequence built from a head and a tail. */
  lemma ConsIndex(whole: seq<string>, head: string, rest: seq<string>, n: nat)
    requires whole == [head] + rest && n <= |rest|
    ensures whole[n] == if n == 0 then head else rest[n - 1]
  {
  }

  /** `s.split(c)[n]` is the `n`-th piece, when there is one. */
  lemma {:induction false} PieceOfSplit(s: string, c: char, n: nat)
    requires AtLeastSeparators(s, c, n)
    ensures |Split(s, c)| > n && Split(s, c)[n] == NthPiece(s, c, n)
    decreases n
  {
    var whole := Split(s, c);
    PiecesOfSplit(s, c, n);
    assert |whole| > n;
    if c !in s {
      assert n == 0 && whole == [s] && NthPiece(s, c, n) == s;
    } else {
      var (head, tail) := SplitOnce(s, c);
      SplitStep(s, c);
      ConsIndex(whole, head, Split(tail, c), n);
      if n > 0 {
        PieceOfSplit(tail, c, n - 1);
        assert NthPiece(s, c, n) == NthPiece(tail, c, n - 1);
      }
    }
  }

  /** Python's `sep.join(pieces)`. */
  function Join(pieces: seq<string>, sep: string): string
  {
    if pieces == [] then ""
    else if |pieces| == 1 then pieces[0]
    else pieces[0] + sep + Join(pieces[1..], sep)
  }

  /** Splitting on `c` and joining with `c` gives back the text. */
  lemma {:induction false} JoinSplit(s: string, c: char)
    ensures Join(Split(s, c), [c]) == s
    decreases |s|
  {
    if c in s {
      var (head, tail) := SplitOnce(s, c);
      JoinSplit(tail, c);
      assert Split(s, c) == [head] + Split(tail, c);
      assert Split(s, c)[1..] == Split(tail, c);
    }
  }

  /** Python's `s.split(c, n)[-1]`: what is left after the first `n` occurrences of `c` are cut off. */
  function AfterNthSplit(s: string, c: char, n: nat): (r: string)
    ensures |r| <= |s| && r == s[|s| - |r|..]
    decreases n
  {
    if n == 0 || c !in s then s else AfterNthSplit(SplitOnce(s, c).1, c, n - 1)
  }

  /** Python's `s.startswith(p)`. */
  predicate StartsWith(s: string, p: string)
  {
    |p| <= |s| && s[..|p|] == p
  }

  /** Python's `s.endswith(p)`. */
  predicate EndsWith(s: string, p: string)
  {
    |p| <= |s| && s[|s| - |p|..] == p
  }

  /** Python's `sub in s` for strings. */
  predicate Contains(s: string, sub: string)
    decreases |s|
  {
    StartsWith(s, sub) || (s != [] && Contains(s[1..], sub))
  }

  /** A text contains every piece found at some position in it. */
  lemma {:induction false} ContainsAt(s: string, sub: string, i: nat)
    requires i + |sub| <= |s| && s[i..i + |sub|] == sub
    ensures Contains(s, sub)
    decreases i
  {
    if i == 0 {
      assert s[..|sub|] == sub;
    } else {
      assert s[1..][i - 1..i - 1 + |sub|] == s[i..i + |sub|];
      ContainsAt(s[1..], sub, i - 1);
    }
  }

  /** Conversely, a text that contains a piece has it at some position. */
  lemma {:induction false} ContainsPosition(s: string, sub: string) returns (i: nat)
    requires Contains(s, sub)
    ensures i + |sub| <= |s| && s[i..i + |sub|] == sub
    decreases |s|
  {
    if StartsWith(s, sub) {
      i := 0;
    } else {
      var j := ContainsPosition(s[1..], sub);
      assert s[1..][j..j + |sub|] == s[j + 1..j + 1 + |sub|];
      i := j + 1;
    }
  }

  /** A text shorter than a piece does not contain it. */
  lemma NotContainsShort(s: string, sub: string)
    requires |s| < |sub|
    ensures !Contains(s, sub)
  {
    if Contains(s, sub) {
      var i := ContainsPosition(s, sub);
      assert false;
    }
  }

  /** A text missing one of a piece's characters does not contain it. */
  lemma NotContainsMissing(s: string, sub: string, k: nat)
    requires k < |sub| && sub[k] !in s
    ensures !Contains(s, sub)
  {
    if Contains(s, sub) {
      var i := ContainsPosition(s, sub);
      assert false;
    }
  }

  /** A text of the piece's length that starts differently does not contain it. */
  lemma NotContainsSameLength(s: string, sub: string)
    requires |s| == |sub| && s != [] && s[0] != sub[0]
    ensures !Contains(s, sub)
  {
    NotContainsShort(s[1..], sub);
  }

  /** A text contains whatever a stretch of it contains. */
  lemma ContainsInStretch(s: string, t: string, off: nat, sub: string)
    requires off + |t| <= |s| && s[off..off + |t|] == t && Contains(t, sub)
    ensures Contains(s, sub)
  {
    var j := ContainsPosition(t, sub);
    var i := off + j;
    forall m | i <= m < i + |sub|
      ensures s[m] == sub[m - i]
    {
      assert s[m] == s[off..off + |t|][m - off];
      assert t[j..j + |sub|][m - i] == t[m - off];
    }
    assert s[i..i + |sub|] == sub;
    ContainsAt(s, sub, i);
  }

  /** A match lying inside a stretch of a text is a match in that stretch. */
  lemma MatchInStretch(s: string, t: string, off: nat, i: nat, sub: string)
    requires off + |t| <= |s| && s[off..off + |t|] == t
    requires off <= i && i + |sub| <= off + |t| && s[i..i + |sub|] == sub
    ensures Contains(t, sub)
  {
    var k := i - off;
    forall m | k <= m < k + |sub|
      ensures t[m] == sub[m - k]
    {
      assert t[m] == s[off..off + |t|][m];
      assert s[i..i + |sub|][m - k] == s[off + m];
    }
    assert t[k..k + |sub|] == sub;
    ContainsAt(t, sub, k);
  }

  /** A character that is not part of a piece splits the text: a match lies wholly on one
      side of it. */
  lemma ContainsAroundForeign(a: string, x: char, c: string, sub: string)
    requires x !in sub
    ensures Contains(a + [x] + c, sub) <==> Contains(a, sub) || Contains(c, sub)
  {
    var s := a + [x] + c;
    assert s[0..|a|] == a && s[|a| + 1..|a| + 1 + |c|] == c && s[|a|] == x;
    if Contains(a, sub) {
      ContainsInStretch(s, a, 0, sub);
    }
    if Contains(c, sub) {
      ContainsInStretch(s, c, |a| + 1, sub);
    }
    if Contains(s, sub) {
      var i := ContainsPosition(s, sub);
      if i + |sub| <= |a| {
        MatchInStretch(s, a, 0, i, sub);
      } else if |a| < i {
        MatchInStretch(s, c, |a| + 1, i, sub);
      } else {
        assert false;
      }
    }
  }

  /** Python's `s.strip(c)` for a single character `c`. */
  function StripChar(s: string, c: char): (r: string)
    ensures c !in s ==> r == s
    ensures r == [] || (r[0] != c && r[|r| - 1] != c)
    decreases |s|
  {
    if s != [] && s[0] == c then StripChar(s[1..], c)
    else if s != [] && s[|s| - 1] == c then StripChar(s[..|s| - 1], c)
    else s
  }

  /** Python's `s.lower()` restricted to the ASCII letters. */
  function Lower(s: string): (r: string)
    ensures |r| == |s|
    ensures forall i :: 0 <= i < |s| ==> r[i] == if 'A' <= s[i] <= 'Z' then (s[i] as int + 32) as char else s[i]
  {
    seq(|s|, i requires 0 <= i < |s| => if 'A' <= s[i] <= 'Z' then (s[i] as int + 32) as char else s[i])
  }

  /** Lower-casing works character by character. */
  lemma LowerConcat(a: string, b: string)
    ensures Lower(a + b) == Lower(a) + Lower(b)
  {
    assert forall i :: 0 <= i < |a + b| ==> Lower(a + b)[i] == (Lower(a) + Lower(b))[i];
  }

  /** Two characters that are not part of a piece, and that lower-casing keeps, split a
      text into three parts, and the lower-cased text contains the piece exactly when one
      lower-cased part does. */
  lemma LowerContainsAround(a: string, x: char, b: string, y: char, c: string, sub: string)
    requires x !in sub && y !in sub && !('A' <= x <= 'Z') && !('A' <= y <= 'Z')
    ensures Contains(Lower(a + [x] + b + [y] + c), sub) <==>
            Contains(Lower(a), sub) || Contains(Lower(b), sub) || Contains(Lower(c), sub)
  {
    var front := Lower(a) + [x] + Lower(b);
    LowerConcat(a, [x]);
    assert Lower(a + [x]) == Lower(a) + [x];
    LowerConcat(a + [x], b);
    assert Lower(a + [x] + b) == front;
    LowerConcat(a + [x] + b, [y]);
    assert Lower(a + [x] + b + [y]) == front + [y];
    LowerConcat(a + [x] + b + [y], c);
    assert Lower(a + [x] + b + [y] + c) == front + [y] + Lower(c);
    ContainsAroundForeign(front, y, Lower(c), sub);
    ContainsAroundForeign(Lower(a), x, Lower(b), sub);
  }

  /** A lower-case letter absent from a text in both cases is absent from its lower-cased
      form. */
  lemma LowerMissing(s: string, ch: char)
    requires 'a' <= ch <= 'z' && ch !in s && (ch as int - 32) as char !in s
    ensures ch !in Lower(s)
  {
    forall i | 0 <= i < |s|
      ensures Lower(s)[i] != ch
    {
      assert s[i] in s;
    }
  }

  function DigitChar(d: nat): char
    requires d < 10
  {
    "0123456789"[d]
  }

  function NatToString(n: nat): (r: string)
    ensures r != []
  {
    if n < 10 then [DigitChar(n)] else NatToString(n / 10) + [DigitChar(n % 10)]
  }

  /** Python's `str(n)` for an `int`. */
  function IntToString(n: int): string
  {
    if n < 0 then "-" + NatToString(-n) else NatToString(n)
  }
}
