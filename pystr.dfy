/**
 * The pieces of Python's string semantics the bots rely on:
 * `str.split(sep)` with an explicit, non-empty separator, `int(s)` restricted
 * to plain decimal digits, and `str(n)` / f-string rendering of a
 * non-negative integer.
 */
module PyStr {
  import opened Wrappers

  /** `sep` occurs in `s` starting at index `i`. */
  predicate OccursAt(s: string, sep: string, i: nat)
  {
    i + |sep| <= |s| && s[i..i + |sep|] == sep
  }

  /** The first index at or after `start` where `sep` occurs in `s`. */
  function FindFrom(s: string, sep: string, start: nat): (r: Option<nat>)
    requires sep != []
    ensures r.Some? ==> start <= r.value && OccursAt(s, sep, r.value)
    ensures r.Some? ==> forall j: nat :: start <= j < r.value ==> !OccursAt(s, sep, j)
    ensures r.None? ==> forall j: nat :: start <= j ==> !OccursAt(s, sep, j)
    decreases |s| - start
  {
    if start + |sep| > |s| then None
    else if s[start..start + |sep|] == sep then Some(start)
    else FindFrom(s, sep, start + 1)
  }

  /** The index of the first occurrence of `sep` in `s` (Python's `s.find(sep)`, with None for -1). */
  function FindFirst(s: string, sep: string): (r: Option<nat>)
    requires sep != []
    ensures r.Some? ==> OccursAt(s, sep, r.value)
    ensures r.Some? ==> forall j: nat :: j < r.value ==> !OccursAt(s, sep, j)
    ensures r.None? ==> forall j: nat :: !OccursAt(s, sep, j)
  {
    FindFrom(s, sep, 0)
  }

  /** `sep` does not occur anywhere in `s`. */
  predicate Free(s: string, sep: string)
    requires sep != []
  {
    FindFirst(s, sep).None?
  }

  /**
   * Python's `s.split(sep)`: scan left to right, cutting at each
   * non-overlapping occurrence of `sep`. There is always at least one piece.
   */
  function Split(s: string, sep: string): (r: seq<string>)
    requires sep != []
    ensures |r| >= 1
    decreases |s|
  {
    match FindFirst(s, sep)
    case None => [s]
    case Some(i) => [s[..i]] + Split(s[i + |sep|..], sep)
  }

  /** Python's `sep.join(pieces)`, the inverse of `Split`. */
  function Join(pieces: seq<string>, sep: string): string
    requires |pieces| >= 1
    decreases |pieces|
  {
    if |pieces| == 1 then pieces[0] else pieces[0] + sep + Join(pieces[1..], sep)
  }

  /** Python's `pieces[-1]`. */
  function Last<T>(pieces: seq<T>): T
    requires |pieces| >= 1
  {
    pieces[|pieces| - 1]
  }

  /** Where the first piece of `s.split(sep)` ends: at the first occurrence of `sep`, or at the end. */
  function FirstPieceEnd(s: string, sep: string): (k: nat)
    requires sep != []
    ensures k <= |s| && Split(s, sep)[0] == s[..k]
    ensures forall p: nat :: p < k ==> !OccursAt(s, sep, p)
    ensures k == |s| || OccursAt(s, sep, k)
  {
    match FindFirst(s, sep)
    case None => |s|
    case Some(b) => b
  }

  /** The first occurrence is the only one with no occurrence before it. */
  lemma FindFirstIs(s: string, sep: string, i: nat)
    requires sep != []
    requires OccursAt(s, sep, i)
    requires forall j: nat :: j < i ==> !OccursAt(s, sep, j)
    ensures FindFirst(s, sep) == Some(i)
  {
  }

  /** Splitting is undone by joining: no character of `s` is lost or added. */
  lemma {:induction false} SplitJoin(s: string, sep: string)
    requires sep != []
    ensures Join(Split(s, sep), sep) == s
    decreases |s|
  {
    match FindFirst(s, sep)
    case None =>
    case Some(i) =>
      var rest := s[i + |sep|..];
      var pieces := Split(s, sep);
      assert pieces[0] == s[..i] && pieces[1..] == Split(rest, sep);
      SplitJoin(rest, sep);
      CutAt(s, sep, i);
  }

  /** A string is the part before an occurrence, the separator, and the part after it. */
  lemma CutAt(s: string, sep: string, i: nat)
    requires OccursAt(s, sep, i)
    ensures s == s[..i] + sep + s[i + |sep|..]
  {
    assert s == s[..i] + s[i..i + |sep|] + s[i + |sep|..];
  }

  /** A prefix of `s` that contains no occurrence of `sep`. */
  lemma FreePrefix(s: string, sep: string, i: nat)
    requires sep != [] && i <= |s|
    requires forall j: nat :: j < i ==> !OccursAt(s, sep, j)
    ensures Free(s[..i], sep)
  {
    if !Free(s[..i], sep) {
      var j := FindFirst(s[..i], sep).value;
      assert s[..i][j..j + |sep|] == s[j..j + |sep|];
      assert OccursAt(s, sep, j);
    }
  }

  /** No piece produced by `Split` contains the separator. */
  lemma {:induction false} SplitPiecesFree(s: string, sep: string)
    requires sep != []
    ensures forall k :: 0 <= k < |Split(s, sep)| ==> Free(Split(s, sep)[k], sep)
    decreases |s|
  {
    match FindFirst(s, sep)
    case None =>
    case Some(i) =>
      FreePrefix(s, sep, i);
      SplitPiecesFree(s[i + |sep|..], sep);
  }

  /** A string without the separator splits into itself alone. */
  lemma SplitFree(s: string, sep: string)
    requires sep != [] && Free(s, sep)
    ensures Split(s, sep) == [s]
  {
  }

  /** The last character of `sep` appears nowhere earlier in `sep` (true of "/" and "webhooks/"). */
  predicate LastCharUnique(sep: string)
  {
    sep != [] && forall q :: 0 <= q < |sep| - 1 ==> sep[q] != sep[|sep| - 1]
  }

  /**
   * When `a` holds no `sep` and `sep` cannot overlap itself across the
   * boundary, the first `sep` of `a + sep + b` is the one placed after `a`.
   */
  lemma FindAfterFree(a: string, sep: string, b: string)
    requires LastCharUnique(sep) && Free(a, sep)
    ensures FindFirst(a + sep + b, sep) == Some(|a|)
  {
    var s := a + sep + b;
    assert s[|a|..|a| + |sep|] == sep;
    forall j: nat | j < |a|
      ensures !OccursAt(s, sep, j)
    {
      if j + |sep| <= |a| {
        assert s[j..j + |sep|] == a[j..j + |sep|];
        assert !OccursAt(a, sep, j);
      } else {
        var p := j + |sep| - 1;
        assert s[p] == sep[p - |a|] != sep[|sep| - 1];
        assert s[j..j + |sep|][|sep| - 1] != sep[|sep| - 1];
      }
    }
    FindFirstIs(s, sep, |a|);
  }

  /** Splitting `a + sep + b` with `a` free of `sep` cuts exactly after `a`. */
  lemma SplitAfterFree(a: string, sep: string, b: string)
    requires LastCharUnique(sep) && Free(a, sep)
    ensures Split(a + sep + b, sep) == [a] + Split(b, sep)
  {
    var s := a + sep + b;
    FindAfterFree(a, sep, b);
    assert s[..|a|] == a;
    assert s[|a| + |sep|..] == b;
  }

  /** A first occurrence found in a prefix is still the first occurrence after extending it. */
  lemma FindFirstExtend(x: string, sep: string, z: string)
    requires sep != [] && FindFirst(x, sep).Some?
    ensures FindFirst(x + z, sep) == FindFirst(x, sep)
  {
    var i := FindFirst(x, sep).value;
    assert (x + z)[i..i + |sep|] == x[i..i + |sep|];
    forall j: nat | j < i
      ensures !OccursAt(x + z, sep, j)
    {
      assert !OccursAt(x, sep, j);
      assert (x + z)[j..j + |sep|] == x[j..j + |sep|];
    }
    FindFirstIs(x + z, sep, i);
  }

  /**
   * With a one-character separator no occurrence can straddle a boundary, so
   * splitting `x + [c] + y` is splitting `x` and `y` separately.
   */
  lemma {:induction false} SplitAppendChar(x: string, c: char, y: string)
    ensures Split(x + [c] + y, [c]) == Split(x, [c]) + Split(y, [c])
    decreases |x|
  {
    var sep := [c];
    var s := x + sep + y;
    match FindFirst(x, sep)
    case None =>
      SplitAfterFree(x, sep, y);
    case Some(i) =>
      FindFirstExtend(x, sep, sep + y);
      assert s == x + (sep + y);
      assert s[..i] == x[..i];
      assert s[i + 1..] == x[i + 1..] + sep + y;
      SplitAppendChar(x[i + 1..], c, y);
  }

  /** The last piece of a split on a one-character separator is what follows its last occurrence. */
  lemma LastPieceAfterChar(x: string, c: char, t: string)
    requires Free(t, [c])
    ensures Last(Split(x + [c] + t, [c])) == t
  {
    SplitAppendChar(x, c, t);
    SplitFree(t, [c]);
  }

  /** With a one-character separator, being free of it is not containing that character. */
  lemma FreeOfChar(t: string, c: char)
    ensures Free(t, [c]) <==> c !in t
  {
    if c in t {
      var k :| 0 <= k < |t| && t[k] == c;
      assert t[k..k + 1] == [c];
      assert OccursAt(t, [c], k);
    } else {
      forall k: nat
        ensures !OccursAt(t, [c], k)
      {
        if k + 1 <= |t| {
          assert t[k..k + 1][0] == t[k] != c;
        }
      }
    }
  }

  /** A string that lacks the separator's first character cannot contain the separator. */
  lemma FreeWithoutFirstChar(s: string, sep: string)
    requires sep != [] && sep[0] !in s
    ensures Free(s, sep)
  {
    forall j: nat
      ensures !OccursAt(s, sep, j)
    {
      if j + |sep| <= |s| {
        assert s[j..j + |sep|][0] == s[j] != sep[0];
      }
    }
  }

  /**
   * `l` is what follows the last `sep` in `s`: a suffix of `s` that is either
   * all of `s` or preceded by an occurrence of `sep`.
   */
  predicate FollowsLastSep(s: string, sep: string, l: string)
  {
    && |l| <= |s| && s[|s| - |l|..] == l
    && (|l| == |s| || (|l| + |sep| <= |s| && s[|s| - |l| - |sep|..|s| - |l|] == sep))
  }

  /** What follows the last `sep` after an occurrence of `sep` also follows the last `sep` of the whole. */
  lemma FollowsLastSepShift(s: string, sep: string, i: nat, l: string)
    requires OccursAt(s, sep, i)
    requires FollowsLastSep(s[i + |sep|..], sep, l)
    ensures FollowsLastSep(s, sep, l)
  {
    var rest := s[i + |sep|..];
    assert s[|s| - |l|..] == rest[|rest| - |l|..];
    if |l| != |rest| {
      var k := |rest| - |l| - |sep|;
      assert s[i + |sep| + k..i + |sep| + k + |sep|] == rest[k..k + |sep|];
      assert |s| - |l| - |sep| == i + |sep| + k;
      assert s[|s| - |l| - |sep|..|s| - |l|] == sep;
    }
  }

  /** The last piece of a split at the first occurrence `i` is the last piece of splitting what follows it. */
  lemma SplitLastStep(s: string, sep: string, i: nat)
    requires sep != [] && FindFirst(s, sep) == Some(i)
    ensures Last(Split(s, sep)) == Last(Split(s[i + |sep|..], sep))
  {
    var t := Split(s[i + |sep|..], sep);
    var pieces := [s[..i]] + t;
    assert Split(s, sep) == pieces;
    assert pieces[|pieces| - 1] == t[|t| - 1];
  }

  /** The last piece of a split is what follows the last separator. */
  lemma {:induction false} SplitLast(s: string, sep: string)
    requires sep != []
    ensures FollowsLastSep(s, sep, Last(Split(s, sep)))
    decreases |s|
  {
    var r := FindFirst(s, sep);
    if r.None? {
      assert Split(s, sep) == [s];
      assert s[|s| - |s|..] == s;
    } else {
      var i := r.value;
      var rest := s[i + |sep|..];
      SplitLast(rest, sep);
      SplitLastStep(s, sep, i);
      FollowsLastSepShift(s, sep, i, Last(Split(rest, sep)));
    }
  }

  /** One decimal digit '0'..'9'. */
  predicate IsDigit(ch: char)
  {
    '0' <= ch <= '9'
  }

  predicate AllDigits(s: string)
  {
    forall k :: 0 <= k < |s| ==> IsDigit(s[k])
  }

  /** The value of a string of decimal digits, most significant first. */
  function DigitsValue(s: string): nat
    requires AllDigits(s)
    decreases |s|
  {
    if s == [] then 0
    else DigitsValue(s[..|s| - 1]) * 10 + (s[|s| - 1] as int - '0' as int)
  }

  /**
   * Python's `int(s)` restricted to plain decimal digits: None stands for the
   * `ValueError` raised on anything else, including the empty string.
   */
  function ParseInt(s: string): (r: Option<nat>)
    ensures r.Some? <==> s != [] && AllDigits(s)
  {
    if s != [] && AllDigits(s) then Some(DigitsValue(s)) else None
  }

  function DigitChar(d: nat): (ch: char)
    requires d < 10
    ensures IsDigit(ch) && ch as int - '0' as int == d
  {
    ('0' as int + d) as char
  }

  /** Python's `str(n)` for a non-negative integer: its decimal digits, no leading zeros. */
  function Render(n: nat): (s: string)
    ensures s != [] && AllDigits(s)
    ensures s[0] == '0' ==> n == 0
    decreases n
  {
    if n < 10 then [DigitChar(n)] else Render(n / 10) + [DigitChar(n % 10)]
  }

  /** A digit string holds neither a "/" nor a "w". */
  lemma DigitsHaveNoMarkerChars(s: string)
    requires AllDigits(s)
    ensures '/' !in s && 'w' !in s
  {
    assert !IsDigit('/') && !IsDigit('w');
  }

  /** `int(str(n)) == n`: rendering and parsing are inverse. */
  lemma {:induction false} ParseRender(n: nat)
    ensures ParseInt(Render(n)) == Some(n)
    decreases n
  {
    var s := Render(n);
    if n >= 10 {
      ParseRender(n / 10);
      assert s[..|s| - 1] == Render(n / 10);
      assert DigitsValue(Render(n / 10)) == n / 10;
      assert DigitsValue(s) == (n / 10) * 10 + n % 10;
    } else {
      assert DigitsValue(s) == DigitsValue(s[..0]) * 10 + n;
    }
  }

  /** A leading zero does not change the value of a digit string. */
  lemma {:induction false} DigitsValueLeadingZero(s: string)
    requires AllDigits(s)
    ensures AllDigits("0" + s) && DigitsValue("0" + s) == DigitsValue(s)
    decreases |s|
  {
    var z := "0" + s;
    if s != [] {
      DigitsValueLeadingZero(s[..|s| - 1]);
      assert z[..|z| - 1] == "0" + s[..|s| - 1];
      assert z[|z| - 1] == s[|s| - 1];
    } else {
      assert DigitsValue(z) == DigitsValue(z[..0]) * 10 + 0;
    }
  }

  /** `int("0" + s) == int(s)` for a non-empty digit string: leading zeros are ignored. */
  lemma ParseLeadingZero(s: string)
    requires s != [] && AllDigits(s)
    ensures ParseInt("0" + s) == ParseInt(s)
  {
    DigitsValueLeadingZero(s);
  }

  /** `str(int(s)) == s` for a digit string without a leading zero: every such string is some number's rendering. */
  lemma {:induction false} RenderParse(s: string)
    requires s != [] && AllDigits(s) && (s[0] != '0' || |s| == 1)
    ensures ParseInt(s).Some? && Render(ParseInt(s).value) == s
    decreases |s|
  {
    var v := DigitsValue(s);
    var d := s[|s| - 1] as int - '0' as int;
    if |s| == 1 {
      assert DigitsValue(s) == DigitsValue(s[..0]) * 10 + d;
      assert Render(v) == [DigitChar(d)];
    } else {
      var p := s[..|s| - 1];
      assert p[0] == s[0];
      RenderParse(p);
      var w := DigitsValue(p);
      assert Render(w) == p;
      assert w != 0 by {
        assert Render(w)[0] != '0';
      }
      assert v == w * 10 + d && v / 10 == w && v % 10 == d;
      assert Render(v) == Render(w) + [DigitChar(d)];
      assert s == p + [s[|s| - 1]];
    }
  }

  /** Rendering never maps two different numbers to the same text. */
  lemma RenderInjective(m: nat, n: nat)
    requires Render(m) == Render(n)
    ensures m == n
  {
    ParseRender(m);
    ParseRender(n);
  }
}
