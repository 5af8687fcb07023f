/**
 * The JavaScript string built-ins the core relies on, on `seq<char>`:
 * `includes`, `indexOf`/`lastIndexOf` of one character, a global
 * `replace(/pattern/g, text)` of a literal pattern, `Array.prototype.join`,
 * `trim`, ASCII `toLowerCase`/`toUpperCase`, `length` in UTF-16 code units
 * and decimal rendering of an index.
 */
module Text {
  import opened Wrappers

  /** `sub` occurs in `s` starting at index `i`. */
  predicate OccursAt(s: string, sub: string, i: int)
  {
    0 <= i && i + |sub| <= |s| && s[i..i + |sub|] == sub
  }

  lemma OccursAtTail(s: string, sub: string, i: int)
    requires |s| > 0 && 0 <= i
    ensures OccursAt(s[1..], sub, i) <==> OccursAt(s, sub, i + 1)
  {
    if 0 <= i && i + |sub| <= |s| - 1 {
      assert s[1..][i..i + |sub|] == s[i + 1..i + 1 + |sub|];
    }
  }

  /** `String.prototype.includes`: a left-to-right search for `sub`. */
  function Includes(s: string, sub: string): (r: bool)
    ensures r <==> exists i :: OccursAt(s, sub, i)
    decreases |s|
  {
    if |s| < |sub| then
      assert forall i :: !OccursAt(s, sub, i);
      false
    else if s[..|sub|] == sub then
      assert OccursAt(s, sub, 0);
      true
    else
      var rest := Includes(s[1..], sub);
      assert rest ==> exists i :: OccursAt(s, sub, i) by {
        if rest {
          var i :| OccursAt(s[1..], sub, i);
          OccursAtTail(s, sub, i);
        }
      }
      assert (exists i :: OccursAt(s, sub, i)) ==> rest by {
        if exists i :: OccursAt(s, sub, i) {
          var i :| OccursAt(s, sub, i);
          assert i != 0;
          OccursAtTail(s, sub, i - 1);
        }
      }
      rest
  }

  /** An occurrence of a non-empty `sub` puts its first character into `s`. */
  lemma IncludesFirstChar(s: string, sub: string)
    requires |sub| > 0 && Includes(s, sub)
    ensures exists k :: 0 <= k < |s| && s[k] == sub[0]
  {
    var i :| OccursAt(s, sub, i);
    assert s[i..i + |sub|][0] == s[i];
  }

  /** `sub` placed between any two strings is found by `includes`. */
  lemma IncludesInfix(p: string, sub: string, q: string)
    ensures Includes(p + sub + q, sub)
  {
    assert (p + sub + q)[|p|..|p| + |sub|] == sub;
    assert OccursAt(p + sub + q, sub, |p|);
  }

  /** `s` begins with `p`. */
  predicate StartsWith(s: string, p: string)
  {
    |p| <= |s| && s[..|p|] == p
  }

  /** Each piece of `p + sub + (q + t)` is found in it. */
  lemma IncludesAround(p: string, sub: string, q: string, t: string)
    ensures Includes(p + sub + (q + t), p) && Includes(p + sub + (q + t), sub) && Includes(p + sub + (q + t), t)
  {
    var s := p + sub + (q + t);
    assert s[..|p|] == p;
    assert OccursAt(s, p, 0);
    assert s[|p|..|p| + |sub|] == sub;
    assert OccursAt(s, sub, |p|);
    assert s[|s| - |t|..] == t;
    assert OccursAt(s, t, |s| - |t|);
  }

  /** The index of the first `c` in `s`, if any. */
  function FirstIndexOf(s: string, c: char): (r: Option<nat>)
    ensures r.Some? ==> r.value < |s| && s[r.value] == c && forall k :: 0 <= k < r.value ==> s[k] != c
    ensures r.None? ==> forall k :: 0 <= k < |s| ==> s[k] != c
  {
    if s == [] then None
    else if s[0] == c then Some(0)
    else match FirstIndexOf(s[1..], c)
      case None => None
      case Some(k) => Some(k + 1)
  }

  /** The index of the last `c` in `s`, if any. */
  function LastIndexOf(s: string, c: char): (r: Option<nat>)
    ensures r.Some? ==> r.value < |s| && s[r.value] == c && forall k :: r.value < k < |s| ==> s[k] != c
    ensures r.None? ==> forall k :: 0 <= k < |s| ==> s[k] != c
  {
    if s == [] then None
    else if s[|s| - 1] == c then Some(|s| - 1)
    else LastIndexOf(s[..|s| - 1], c)
  }

  /**
   * `s.replace(/pat/g, rep)` for a literal, non-empty pattern: matches are
   * taken left to right and do not overlap.
   */
  function ReplaceAll(s: string, pat: string, rep: string): string
    requires |pat| > 0
    decreases |s|
  {
    if |s| < |pat| then s
    else if s[..|pat|] == pat then rep + ReplaceAll(s[|pat|..], pat, rep)
    else [s[0]] + ReplaceAll(s[1..], pat, rep)
  }

  /** Replacing a pattern by itself changes nothing. */
  lemma {:induction false} ReplaceAllBySelf(s: string, pat: string)
    requires |pat| > 0
    ensures ReplaceAll(s, pat, pat) == s
    decreases |s|
  {
    if |s| < |pat| {
    } else if s[..|pat|] == pat {
      ReplaceAllBySelf(s[|pat|..], pat);
      assert pat + s[|pat|..] == s;
    } else {
      ReplaceAllBySelf(s[1..], pat);
      assert [s[0]] + s[1..] == s;
    }
  }

  /** Replacing one character by another maps the string position by position. */
  lemma {:induction false} ReplaceCharPointwise(s: string, a: char, b: char)
    ensures |ReplaceAll(s, [a], [b])| == |s|
    ensures forall k :: 0 <= k < |s| ==> ReplaceAll(s, [a], [b])[k] == if s[k] == a then b else s[k]
    decreases |s|
  {
    if |s| >= 1 {
      ReplaceCharPointwise(s[1..], a, b);
      var r := ReplaceAll(s, [a], [b]);
      var t := ReplaceAll(s[1..], [a], [b]);
      assert s[..1] == [s[0]];
      assert r == (if s[0] == a then [b] else [s[0]]) + t;
      forall k | 0 <= k < |s| ensures r[k] == if s[k] == a then b else s[k] {
        if k > 0 { assert r[k] == t[k - 1] && s[k] == s[1..][k - 1]; }
      }
    }
  }

  /** A prefix without the pattern's first character passes through untouched. */
  lemma {:induction false} ReplaceAllSkipsPrefix(a: string, b: string, pat: string, rep: string)
    requires |pat| > 0
    requires forall k :: 0 <= k < |a| ==> a[k] != pat[0]
    ensures ReplaceAll(a + b, pat, rep) == a + ReplaceAll(b, pat, rep)
    decreases |a|
  {
    var s := a + b;
    if a == [] {
      assert s == b;
    } else if |s| < |pat| {
      // the pattern cannot occur in a string shorter than itself
      ReplaceAllShort(b, pat, rep);
      ReplaceAllShort(s, pat, rep);
    } else {
      assert s[..|pat|][0] != pat[0];
      assert ReplaceAll(s, pat, rep) == [a[0]] + ReplaceAll(s[1..], pat, rep);
      assert s[1..] == a[1..] + b;
      ReplaceAllSkipsPrefix(a[1..], b, pat, rep);
      var tail := ReplaceAll(b, pat, rep);
      assert [a[0]] + (a[1..] + tail) == a + tail;
    }
  }

  lemma ReplaceAllShort(s: string, pat: string, rep: string)
    requires 0 < |pat| && |s| < |pat|
    ensures ReplaceAll(s, pat, rep) == s
  {
  }

  /** `Array.prototype.join(sep)`. */
  function Join(parts: seq<string>, sep: string): string
  {
    if |parts| == 0 then ""
    else if |parts| == 1 then parts[0]
    else parts[0] + sep + Join(parts[1..], sep)
  }

  /** Joining keeps the entries in order: appending an entry appends its text after one separator. */
  lemma {:induction false} JoinAppend(parts: seq<string>, x: string, sep: string)
    requires |parts| > 0
    ensures Join(parts + [x], sep) == Join(parts, sep) + sep + x
    decreases |parts|
  {
    if |parts| > 1 {
      assert (parts + [x])[1..] == parts[1..] + [x];
      JoinAppend(parts[1..], x, sep);
    } else {
      assert parts + [x] == [parts[0], x];
    }
  }

  /** A character outside the Basic Multilingual Plane: a surrogate pair in UTF-16. */
  predicate IsAstral(c: char)
  {
    c as int > 0xFFFF
  }

  /**
   * `String.prototype.length`: JavaScript counts UTF-16 code units, so an
   * astral character counts twice. The count equals the number of
   * characters exactly when there is no astral one, and doubles it exactly
   * when every character is astral.
   */
  function Utf16Length(s: string): (n: nat)
    ensures |s| <= n <= 2 * |s|
    ensures n == |s| <==> forall k :: 0 <= k < |s| ==> !IsAstral(s[k])
    ensures n == 2 * |s| <==> forall k :: 0 <= k < |s| ==> IsAstral(s[k])
    decreases |s|
  {
    if s == [] then 0
    else
      var rest := Utf16Length(s[1..]);
      assert forall k :: 1 <= k < |s| ==> s[k] == s[1..][k - 1];
      (if IsAstral(s[0]) then 2 else 1) + rest
  }

  /** The length of a concatenation is the sum of the lengths. */
  lemma {:induction false} Utf16LengthAppend(a: string, b: string)
    ensures Utf16Length(a + b) == Utf16Length(a) + Utf16Length(b)
    decreases |a|
  {
    if a == [] {
      assert a + b == b;
    } else {
      assert (a + b)[0] == a[0] && (a + b)[1..] == a[1..] + b;
      Utf16LengthAppend(a[1..], b);
    }
  }

  /** ECMAScript WhiteSpace and LineTerminator code points: what `trim` removes. */
  predicate IsWhitespace(c: char)
  {
    c == '\t' || c == '\n' || c == '\U{B}' || c == '\U{C}' || c == '\r' || c == ' '
    || c == '\U{A0}' || c == '\U{1680}' || ('\U{2000}' <= c <= '\U{200A}')
    || c == '\U{2028}' || c == '\U{2029}' || c == '\U{202F}' || c == '\U{205F}'
    || c == '\U{3000}' || c == '\U{FEFF}'
  }

  /** `trimStart`: the suffix left after dropping leading whitespace. */
  function TrimStart(s: string): (r: string)
    ensures |r| <= |s| && r == s[|s| - |r|..]
    ensures forall k :: 0 <= k < |s| - |r| ==> IsWhitespace(s[k])
    ensures r == [] || !IsWhitespace(r[0])
  {
    if s != [] && IsWhitespace(s[0]) then
      var r := TrimStart(s[1..]);
      assert forall k :: 1 <= k < |s| - |r| ==> s[k] == s[1..][k - 1];
      r
    else s
  }

  /** `trimEnd`: the prefix left after dropping trailing whitespace. */
  function TrimEnd(s: string): (r: string)
    ensures |r| <= |s| && r == s[..|r|]
    ensures forall k :: |r| <= k < |s| ==> IsWhitespace(s[k])
    ensures r == [] || !IsWhitespace(r[|r| - 1])
  {
    if s != [] && IsWhitespace(s[|s| - 1]) then TrimEnd(s[..|s| - 1]) else s
  }

  /** `String.prototype.trim`. */
  function Trim(s: string): string
  {
    TrimEnd(TrimStart(s))
  }

  /** ASCII part of `toLowerCase`. */
  function LowerChar(c: char): char
  {
    if 'A' <= c <= 'Z' then (c as int + 32) as char else c
  }

  /** ASCII part of `toUpperCase`. */
  function UpperChar(c: char): char
  {
    if 'a' <= c <= 'z' then (c as int - 32) as char else c
  }

  function Lower(s: string): (r: string)
    ensures |r| == |s| && forall k :: 0 <= k < |s| ==> r[k] == LowerChar(s[k])
  {
    seq(|s|, k requires 0 <= k < |s| => LowerChar(s[k]))
  }

  function Upper(s: string): (r: string)
    ensures |r| == |s| && forall k :: 0 <= k < |s| ==> r[k] == UpperChar(s[k])
  {
    seq(|s|, k requires 0 <= k < |s| => UpperChar(s[k]))
  }

  lemma LowerConcat(a: string, b: string)
    ensures Lower(a + b) == Lower(a) + Lower(b)
  {
  }

  /** Decimal rendering of a natural number, as a template literal prints it. */
  function NatToString(n: nat): (r: string)
    ensures |r| > 0 && forall k :: 0 <= k < |r| ==> '0' <= r[k] <= '9'
  {
    if n < 10 then [('0' as int + n) as char]
    else NatToString(n / 10) + [('0' as int + n % 10) as char]
  }
}
