/**
 * String primitives the pages rely on, with the semantics of the runtime that
 * provides them: JavaScript's `trim`, `includes`, `split` and `join`, ASCII
 * case mapping, Python's `str.split` on a one-character separator and
 * decimal rendering of a count.
 */
module Strings {

  /** White space and line terminators, the characters `String.prototype.trim` removes. */
  predicate IsJsSpace(c: char) {
    || c == '\t' || c == '\n' || c == '\U{000B}' || c == '\U{000C}' || c == '\r' || c == ' '
    || c == '\U{00A0}' || c == '\U{1680}' || ('\U{2000}' <= c <= '\U{200A}')
    || c == '\U{2028}' || c == '\U{2029}' || c == '\U{202F}' || c == '\U{205F}'
    || c == '\U{3000}' || c == '\U{FEFF}'
  }

  /** Drops leading white space. */
  function TrimStart(s: string): (r: string)
    ensures |r| <= |s| && r == s[|s| - |r|..]
    ensures r != [] ==> !IsJsSpace(r[0])
    ensures forall i :: 0 <= i < |s| - |r| ==> IsJsSpace(s[i])
  {
    if s != [] && IsJsSpace(s[0]) then TrimStart(s[1..]) else s
  }

  /** Drops trailing white space. */
  function TrimEnd(s: string): (r: string)
    ensures |r| <= |s| && r == s[..|r|]
    ensures r != [] ==> !IsJsSpace(r[|r| - 1])
    ensures forall i :: |r| <= i < |s| ==> IsJsSpace(s[i])
  {
    if s != [] && IsJsSpace(s[|s| - 1]) then TrimEnd(s[..|s| - 1]) else s
  }

  /** `s.trim()`. */
  function Trim(s: string): string {
    TrimEnd(TrimStart(s))
  }

  /** Every character is white space, so `!s.trim()` holds (see `BlankIffTrimmedEmpty`). */
  predicate IsBlank(s: string) {
    s == [] || (IsJsSpace(s[0]) && IsBlank(s[1..]))
  }

  lemma {:induction false} BlankIffAllSpace(s: string)
    ensures IsBlank(s) <==> forall i :: 0 <= i < |s| ==> IsJsSpace(s[i])
  {
    if s != [] {
      BlankIffAllSpace(s[1..]);
      assert forall i :: 1 <= i < |s| ==> s[i] == s[1..][i - 1];
    }
  }

  /** `s.trim()` is a slice of `s` with only white space cut away on either side. */
  lemma TrimSlice(s: string) returns (i: nat, j: nat)
    ensures i <= j <= |s| && Trim(s) == s[i..j]
    ensures forall k :: 0 <= k < i ==> IsJsSpace(s[k])
    ensures forall k :: j <= k < |s| ==> IsJsSpace(s[k])
  {
    var t := TrimStart(s);
    i := |s| - |t|;
    j := i + |TrimEnd(t)|;
    assert forall k :: j <= k < |s| ==> s[k] == t[k - i];
  }

  /** The guard `!s.trim()` holds exactly for the blank strings. */
  lemma BlankIffTrimmedEmpty(s: string)
    ensures IsBlank(s) <==> Trim(s) == []
  {
    BlankIffAllSpace(s);
    var t := TrimStart(s);
    assert t != [] ==> t[0] == s[|s| - |t|];
    if !forall i :: 0 <= i < |s| ==> IsJsSpace(s[i]) {
      var k :| 0 <= k < |s| && !IsJsSpace(s[k]);
      assert |s| - |t| <= k;
      assert t[k - (|s| - |t|)] == s[k];
      assert TrimEnd(t)[0] == t[0];
    }
  }

  /** White space is not a letter, so case mapping leaves it alone. */
  lemma CaseKeepsSpace(c: char)
    requires IsJsSpace(c)
    ensures LowerChar(c) == c && UpperChar(c) == c
  {
  }

  /** ASCII upper-case letter to lower case; every other character unchanged. */
  function LowerChar(c: char): char {
    if 'A' <= c <= 'Z' then (c as int + 32) as char else c
  }

  /** ASCII lower-case letter to upper case; every other character unchanged. */
  function UpperChar(c: char): char {
    if 'a' <= c <= 'z' then (c as int - 32) as char else c
  }

  function Lower(s: string): (r: string)
    ensures |r| == |s| && forall i :: 0 <= i < |s| ==> r[i] == LowerChar(s[i])
  {
    seq(|s|, i requires 0 <= i < |s| => LowerChar(s[i]))
  }

  function Upper(s: string): (r: string)
    ensures |r| == |s| && forall i :: 0 <= i < |s| ==> r[i] == UpperChar(s[i])
  {
    seq(|s|, i requires 0 <= i < |s| => UpperChar(s[i]))
  }

  lemma LowerSlice(s: string, i: nat, j: nat)
    requires i <= j <= |s|
    ensures Lower(s[i..j]) == Lower(s)[i..j]
  {
    assert forall k :: 0 <= k < j - i ==> Lower(s[i..j])[k] == LowerChar(s[i + k]);
  }

  /** Lower-casing keeps the white space around a slice. */
  lemma LowerKeepsPadding(s: string, i: nat, j: nat)
    requires i <= j <= |s|
    requires forall k :: 0 <= k < i ==> IsJsSpace(s[k])
    requires forall k :: j <= k < |s| ==> IsJsSpace(s[k])
    ensures forall k :: 0 <= k < i ==> IsJsSpace(Lower(s)[k])
    ensures forall k :: j <= k < |s| ==> IsJsSpace(Lower(s)[k])
  {
    forall k | 0 <= k < i || j <= k < |s|
      ensures IsJsSpace(Lower(s)[k])
    {
      CaseKeepsSpace(s[k]);
    }
  }

  lemma LowerConcat(a: string, b: string)
    ensures Lower(a + b) == Lower(a) + Lower(b)
  {
    assert forall i :: 0 <= i < |a + b| ==> Lower(a + b)[i] == (Lower(a) + Lower(b))[i];
  }

  /** `s.includes(w)` (and Python's `w in s`): `w` occurs in `s` at some offset. */
  predicate Contains(s: string, w: string)
    decreases |s|
  {
    w <= s || (s != [] && Contains(s[1..], w))
  }

  lemma {:induction false} ContainsAt(s: string, w: string, k: nat)
    requires k + |w| <= |s| && s[k..k + |w|] == w
    ensures Contains(s, w)
  {
    if k > 0 {
      assert s[1..][k - 1..k - 1 + |w|] == w;
      ContainsAt(s[1..], w, k - 1);
    } else {
      assert w <= s;
    }
  }

  lemma {:induction false} ContainsOffset(s: string, w: string) returns (k: nat)
    requires Contains(s, w)
    ensures k + |w| <= |s| && s[k..k + |w|] == w
    decreases |s|
  {
    if w <= s {
      k := 0;
    } else {
      var j := ContainsOffset(s[1..], w);
      k := j + 1;
      assert s[k..k + |w|] == s[1..][j..j + |w|];
    }
  }

  /** An occurrence of a word brings its first character with it. */
  lemma ContainsFirstChar(s: string, w: string)
    requires w != ""
    ensures Contains(s, w) ==> w[0] in s
  {
    if Contains(s, w) {
      var k := ContainsOffset(s, w);
      assert s[k] == w[0];
    }
  }

  /** An occurrence inside a slice is an occurrence in the whole text. */
  lemma ContainsSliceOutward(s: string, i: nat, j: nat, w: string)
    requires i <= j <= |s| && Contains(s[i..j], w)
    ensures Contains(s, w)
  {
    var k := ContainsOffset(s[i..j], w);
    SliceOfSlice(s, i, j, k, k + |w|);
    ContainsAt(s, w, i + k);
  }

  lemma SliceOfSlice(s: string, i: nat, j: nat, a: nat, b: nat)
    requires i <= j <= |s| && a <= b <= j - i
    ensures s[i..j][a..b] == s[i + a..i + b]
  {
    var t := s[i..j];
    assert forall k :: 0 <= k < b - a ==> t[a..b][k] == t[a + k] == s[i + a + k];
  }

  /** An occurrence at `k` of a word whose end characters fail `pad` avoids `pad` characters at both ends. */
  lemma OccurrenceAvoidsPadding(s: string, i: nat, j: nat, w: string, pad: char -> bool, k: nat)
    requires i <= j <= |s|
    requires w != "" && !pad(w[0]) && !pad(w[|w| - 1])
    requires forall k :: 0 <= k < i ==> pad(s[k])
    requires forall k :: j <= k < |s| ==> pad(s[k])
    requires k + |w| <= |s| && s[k..k + |w|] == w
    ensures i <= k && k + |w| <= j
  {
    assert s[k] == w[0];
    assert s[k + |w| - 1] == w[|w| - 1];
  }

  /**
   * An occurrence of a word whose end characters fail `pad`, in a text whose
   * characters outside `[i, j)` all satisfy `pad`, lies inside the slice.
   */
  lemma ContainsSliceInward(s: string, i: nat, j: nat, w: string, pad: char -> bool)
    requires i <= j <= |s|
    requires w != "" && !pad(w[0]) && !pad(w[|w| - 1])
    requires forall k :: 0 <= k < i ==> pad(s[k])
    requires forall k :: j <= k < |s| ==> pad(s[k])
    requires Contains(s, w)
    ensures Contains(s[i..j], w)
  {
    var k := ContainsOffset(s, w);
    OccurrenceAvoidsPadding(s, i, j, w, pad, k);
    SliceOfSlice(s, i, j, k - i, k - i + |w|);
    ContainsAt(s[i..j], w, k - i);
  }

  /**
   * A word with no white space at its ends occurs in a text exactly when it
   * occurs in the text with white space cut away on either side.
   */
  lemma ContainsPadded(s: string, i: nat, j: nat, w: string)
    requires i <= j <= |s|
    requires w != "" && !IsJsSpace(w[0]) && !IsJsSpace(w[|w| - 1])
    requires forall k :: 0 <= k < i ==> IsJsSpace(s[k])
    requires forall k :: j <= k < |s| ==> IsJsSpace(s[k])
    ensures Contains(s[i..j], w) <==> Contains(s, w)
  {
    if Contains(s[i..j], w) {
      ContainsSliceOutward(s, i, j, w);
    }
    if Contains(s, w) {
      ContainsSliceInward(s, i, j, w, IsJsSpace);
    }
  }

  /** `parts.join(sep)`: an empty list joins to the empty string. */
  function Join(parts: seq<string>, sep: string): string
    decreases |parts|
  {
    if |parts| == 0 then ""
    else if |parts| == 1 then parts[0]
    else parts[0] + sep + Join(parts[1..], sep)
  }

  /**
   * `s.split(d)` for a one-character separator, in both JavaScript and Python:
   * the pieces between separators, always at least one.
   */
  function Split(s: string, d: char): (r: seq<string>)
    ensures |r| >= 1
    ensures forall k :: 0 <= k < |r| ==> d !in r[k]
  {
    if s == [] then [""]
    else if s[0] == d then [""] + Split(s[1..], d)
    else var rest := Split(s[1..], d); [[s[0]] + rest[0]] + rest[1..]
  }

  /** Joining the pieces of a split with the separator gives the string back. */
  lemma {:induction false} JoinSplit(s: string, d: char)
    ensures Join(Split(s, d), [d]) == s
  {
    if s == [] {
    } else if s[0] == d {
      JoinSplit(s[1..], d);
    } else {
      var rest := Split(s[1..], d);
      JoinSplit(s[1..], d);
      if |rest| == 1 {
      } else {
        assert Join(rest, [d]) == rest[0] + [d] + Join(rest[1..], [d]);
        assert ([[s[0]] + rest[0]] + rest[1..])[1..] == rest[1..];
      }
    }
  }

  lemma {:induction false} SplitWord(w: string, d: char)
    requires d !in w
    ensures Split(w, d) == [w]
  {
    if w != [] {
      SplitWord(w[1..], d);
      assert [w[0]] + w[1..] == w;
    }
  }

  lemma {:induction false} SplitWordThen(w: string, d: char, rest: string)
    requires d !in w
    ensures Split(w + [d] + rest, d) == [w] + Split(rest, d)
  {
    if w == [] {
      assert w + [d] + rest == [d] + rest;
    } else {
      assert (w + [d] + rest)[1..] == w[1..] + [d] + rest;
      SplitWordThen(w[1..], d, rest);
      assert [w[0]] + w[1..] == w;
    }
  }

  /** Splitting a join of separator-free pieces gives the pieces back. */
  lemma {:induction false} SplitJoin(parts: seq<string>, d: char)
    requires |parts| >= 1
    requires forall k :: 0 <= k < |parts| ==> d !in parts[k]
    ensures Split(Join(parts, [d]), d) == parts
  {
    if |parts| == 1 {
      SplitWord(parts[0], d);
    } else {
      var rest := parts[1..];
      assert forall k :: 0 <= k < |rest| ==> d !in rest[k] by {
        forall k | 0 <= k < |rest| ensures d !in rest[k] {
          assert rest[k] == parts[k + 1];
        }
      }
      SplitJoin(rest, d);
      assert Join(parts, [d]) == parts[0] + [d] + Join(rest, [d]);
      SplitWordThen(parts[0], d, Join(rest, [d]));
      assert [parts[0]] + rest == parts;
    }
  }

  /** What follows the last occurrence of `d` in `s`: all of `s` when it has none. */
  function LastPiece(s: string, d: char): string {
    if d !in s then s else LastPiece(s[1..], d)
  }

  /** The last piece holds no separator and is a suffix of `s`. */
  lemma {:induction false} LastPieceShape(s: string, d: char)
    ensures var r := LastPiece(s, d); d !in r && |r| <= |s| && r == s[|s| - |r|..]
  {
    if d in s {
      LastPieceShape(s[1..], d);
      var r := LastPiece(s, d);
      assert s[1..][|s| - 1 - |r|..] == s[|s| - |r|..];
    }
  }

  /** The last piece is the longest such suffix: it is all of `s`, or `d` comes right before it. */
  lemma {:induction false} LastPieceMaximal(s: string, d: char)
    ensures var r := LastPiece(s, d); |r| <= |s| && (|r| == |s| || s[|s| - |r| - 1] == d)
  {
    if d in s {
      LastPieceMaximal(s[1..], d);
      LastPieceShape(s[1..], d);
      var r := LastPiece(s, d);
      if |r| == |s| - 1 {
        assert s[1..] == r;
        assert s == [s[0]] + s[1..];
      } else {
        assert s[|s| - |r| - 1] == s[1..][|s| - 1 - |r| - 1];
      }
    }
  }

  /** The last piece is empty only when `s` is empty or ends with `d`. */
  lemma {:induction false} LastPieceEmpty(s: string, d: char)
    ensures LastPiece(s, d) == [] <==> s == [] || s[|s| - 1] == d
  {
    if d in s {
      LastPieceEmpty(s[1..], d);
      if s[1..] == [] {
        assert s == [s[0]];
      } else {
        assert s[|s| - 1] == s[1..][|s| - 2];
      }
    }
  }

  /** The last piece is the last element of `s.split(d)`. */
  lemma {:induction false} LastPieceOfSplit(s: string, d: char)
    ensures LastPiece(s, d) == Split(s, d)[|Split(s, d)| - 1]
  {
    if d !in s {
      SplitWord(s, d);
    } else {
      var rest := Split(s[1..], d);
      LastPieceOfSplit(s[1..], d);
      assert LastPiece(s, d) == LastPiece(s[1..], d);
      if s[0] == d {
        assert Split(s, d) == [""] + rest;
      } else {
        assert s == [s[0]] + s[1..];
        assert d in s[1..];
        if |rest| == 1 {
          JoinSplit(s[1..], d);
          assert false;
        }
        assert Split(s, d) == [[s[0]] + rest[0]] + rest[1..];
      }
    }
  }

  lemma {:induction false} JoinConcat(x: seq<string>, y: seq<string>, sep: string)
    requires |x| >= 1 && |y| >= 1
    ensures Join(x + y, sep) == Join(x, sep) + sep + Join(y, sep)
  {
    if |x| == 1 {
      assert (x + y)[1..] == y;
    } else {
      assert (x + y)[1..] == x[1..] + y;
      JoinConcat(x[1..], y, sep);
    }
  }

  /** Number of occurrences of character `c` in `s`. */
  function Count(s: string, c: char): nat
  {
    if s == [] then 0 else (if s[0] == c then 1 else 0) + Count(s[1..], c)
  }

  lemma CountOne(x: char, c: char)
    ensures Count([x], c) == if x == c then 1 else 0
  {
    assert [x][1..] == [];
  }

  lemma {:induction false} CountConcat(a: string, b: string, c: char)
    ensures Count(a + b, c) == Count(a, c) + Count(b, c)
  {
    if a != [] {
      assert (a + b)[1..] == a[1..] + b;
      CountConcat(a[1..], b, c);
    } else {
      assert a + b == b;
    }
  }

  lemma {:induction false} CountAbsent(s: string, c: char)
    ensures c !in s <==> Count(s, c) == 0
  {
    if s != [] {
      CountAbsent(s[1..], c);
      assert s == [s[0]] + s[1..];
    }
  }

  /** Decimal digits of a count, as Python's f-string and JavaScript's template render it. */
  function DecimalString(n: nat): (r: string)
    ensures |r| >= 1
    ensures forall i :: 0 <= i < |r| ==> '0' <= r[i] <= '9'
  {
    if n < 10 then [(n + '0' as int) as char]
    else DecimalString(n / 10) + [(n % 10 + '0' as int) as char]
  }
}
