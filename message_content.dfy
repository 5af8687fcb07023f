/**
 * The pure helpers of the chat view (frontend/src/MessageContent.tsx): the
 * title-casing of page names, the split of a reply into text and
 * `${{KEY:…}}` / `${{PAGE:…}}` tokens, the extraction of a token's
 * argument, the bullet clean-up of text parts and the lookup behind
 * "View Details".
 */
module MessageContent {
  import opened Wrappers
  import opened Text
  import opened External

  /*
   * toTitleCase
   */

  /**
   * `String.prototype.split(sep)` for a one-character separator: every
   * occurrence cuts, so empty pieces stay.
   */
  function Split(s: string, sep: char): (r: seq<string>)
    ensures |r| >= 1
    decreases |s|
  {
    if s == [] then [""]
    else
      var init := Split(s[..|s| - 1], sep);
      var x := s[|s| - 1];
      if x == sep then init + [""]
      else init[..|init| - 1] + [init[|init| - 1] + [x]]
  }

  /** Joining the pieces with the separator gives the string back. */
  lemma {:induction false} SplitJoin(s: string, sep: char)
    ensures Join(Split(s, sep), [sep]) == s
    decreases |s|
  {
    if s != [] {
      var u := s[..|s| - 1];
      var x := s[|s| - 1];
      var init := Split(u, sep);
      SplitJoin(u, sep);
      assert s == u + [x];
      if x == sep {
        JoinAppend(init, "", [sep]);
      } else {
        var last := init[|init| - 1];
        if |init| == 1 {
          assert Split(s, sep) == [last + [x]];
        } else {
          var front := init[..|init| - 1];
          assert init == front + [last];
          JoinAppend(front, last, [sep]);
          JoinAppend(front, last + [x], [sep]);
        }
      }
    }
  }

  /** No piece holds the separator. */
  lemma {:induction false} SplitPiecesAvoidSeparator(s: string, sep: char)
    ensures forall i, k :: 0 <= i < |Split(s, sep)| && 0 <= k < |Split(s, sep)[i]| ==> Split(s, sep)[i][k] != sep
    decreases |s|
  {
    if s != [] {
      SplitPiecesAvoidSeparator(s[..|s| - 1], sep);
    }
  }

  /** The last piece is empty exactly when the string is empty or ends with the separator. */
  lemma LastPieceEmpty(s: string, sep: char)
    ensures Split(s, sep)[|Split(s, sep)| - 1] == [] <==> (s == [] || s[|s| - 1] == sep)
  {
  }

  /** `word.charAt(0).toUpperCase() + word.slice(1)`. */
  function Capitalize(w: string): string
  {
    if w == [] then [] else [UpperChar(w[0])] + w[1..]
  }

  function CapitalizeAll(words: seq<string>): seq<string>
  {
    seq(|words|, i requires 0 <= i < |words| => Capitalize(words[i]))
  }

  /** `_` becomes a space. */
  function Spaced(c: char): char
  {
    if c == '_' then ' ' else c
  }

  /** `split(" ").map(…).join(" ")`: each space-separated word capitalised. */
  function CapitalizeWords(t: string): string
  {
    Join(CapitalizeAll(Split(t, ' ')), " ")
  }

  /** `toTitleCase(str)`: underscores to spaces, lower case, each space-separated word capitalised. */
  function ToTitleCase(str: string): string
  {
    CapitalizeWords(Lower(ReplaceAll(str, "_", " ")))
  }

  lemma CapitalizeAllPush(words: seq<string>, w: string)
    ensures CapitalizeAll(words + [w]) == CapitalizeAll(words) + [Capitalize(w)]
  {
  }

  /** Growing the last entry grows the joined text at its end. */
  lemma JoinExtendLast(parts: seq<string>, y: string, sep: string)
    requires |parts| > 0
    ensures Join(parts[..|parts| - 1] + [parts[|parts| - 1] + y], sep) == Join(parts, sep) + y
  {
    var front := parts[..|parts| - 1];
    var last := parts[|parts| - 1];
    if front == [] {
      assert front + [last + y] == [last + y];
      assert parts == [last];
    } else {
      assert parts == front + [last];
      JoinAppend(front, last, sep);
      JoinAppend(front, last + y, sep);
    }
  }

  /** One more character either opens a new, empty piece or extends the last one. */
  lemma SplitPush(t: string, x: char, sep: char)
    ensures x == sep ==> Split(t + [x], sep) == Split(t, sep) + [""]
    ensures x != sep ==> Split(t + [x], sep)
                         == Split(t, sep)[..|Split(t, sep)| - 1] + [Split(t, sep)[|Split(t, sep)| - 1] + [x]]
  {
    var s := t + [x];
    assert s[..|s| - 1] == t;
  }

  /** Capitalising a word with one more character. */
  lemma CapitalizePush(w: string, x: char)
    ensures Capitalize(w + [x]) == Capitalize(w) + [if w == [] then UpperChar(x) else x]
  {
    if w != [] {
      assert (w + [x])[1..] == w[1..] + [x];
    }
  }

  /** A space appended to `t` appends a space to its capitalised words. */
  lemma CapitalizedPushSpace(t: string)
    ensures CapitalizeWords(t + [' ']) == CapitalizeWords(t) + " "
  {
    var caps := CapitalizeAll(Split(t, ' '));
    SplitPush(t, ' ', ' ');
    CapitalizeAllPush(Split(t, ' '), "");
    JoinAppend(caps, "", " ");
  }

  /** Another character appended to `t` lands in its last word, upper-cased when it opens that word. */
  lemma CapitalizedPushLetter(t: string, x: char)
    requires x != ' '
    ensures CapitalizeWords(t + [x])
            == CapitalizeWords(t)
               + [if t == [] || t[|t| - 1] == ' ' then UpperChar(x) else x]
  {
    var init := Split(t, ' ');
    var caps := CapitalizeAll(init);
    var last := init[|init| - 1];
    var front := init[..|init| - 1];
    var c := if last == [] then UpperChar(x) else x;
    assert c == if t == [] || t[|t| - 1] == ' ' then UpperChar(x) else x by {
      LastPieceEmpty(t, ' ');
    }
    assert CapitalizeAll(Split(t + [x], ' ')) == caps[..|caps| - 1] + [caps[|caps| - 1] + [c]] by {
      SplitPush(t, x, ' ');
      assert init == front + [last];
      CapitalizeAllPush(front, last);
      CapitalizePush(last, x);
      CapitalizeAllPush(front, last + [x]);
    }
    JoinExtendLast(caps, [c], " ");
  }

  /**
   * Capitalising the space-separated words of `t` keeps every character
   * but the first of each word, which is upper-cased.
   */
  lemma {:induction false} CapitalizedWords(t: string)
    ensures CapitalizedFrom(CapitalizeWords(t), t)
    decreases |t|
  {
    if t != [] {
      var u := t[..|t| - 1];
      var x := t[|t| - 1];
      assert t == u + [x];
      CapitalizedWords(u);
      if x == ' ' {
        CapitalizedPushSpace(u);
      } else {
        CapitalizedPushLetter(u, x);
      }
      CapitalizedFromPush(CapitalizeWords(u), u, x);
    }
  }

  /**
   * `r` is `t` with the first character of each space-separated word
   * upper-cased and every other character kept.
   */
  predicate CapitalizedFrom(r: string, t: string)
  {
    |r| == |t|
    && forall k {:trigger r[k]} :: 0 <= k < |t| ==> r[k] == if k == 0 || t[k - 1] == ' ' then UpperChar(t[k]) else t[k]
  }

  lemma CapitalizedFromPush(r: string, t: string, x: char)
    requires CapitalizedFrom(r, t)
    ensures CapitalizedFrom(r + [if x != ' ' && (t == [] || t[|t| - 1] == ' ') then UpperChar(x) else x], t + [x])
  {
    var c := if x != ' ' && (t == [] || t[|t| - 1] == ' ') then UpperChar(x) else x;
    var r', t' := r + [c], t + [x];
    forall k | 0 <= k < |t'|
      ensures r'[k] == if k == 0 || t'[k - 1] == ' ' then UpperChar(t'[k]) else t'[k]
    {
      if k < |t| {
        assert r'[k] == r[k] && t'[k] == t[k];
        assert r[k] == if k == 0 || t[k - 1] == ' ' then UpperChar(t[k]) else t[k];
        if k > 0 {
          assert t'[k - 1] == t[k - 1];
        }
      } else {
        assert r'[k] == c && t'[k] == x;
        if x == ' ' {
          assert UpperChar(' ') == ' ';
        } else if t != [] {
          assert t'[k - 1] == t[|t| - 1];
        }
      }
    }
  }

  /** What `toTitleCase` makes of the character at `k`. */
  function TitleChar(str: string, k: nat): char
    requires k < |str|
  {
    if k == 0 || Spaced(str[k - 1]) == ' ' then UpperChar(LowerChar(Spaced(str[k])))
    else LowerChar(Spaced(str[k]))
  }

  /** The ASCII case maps fix spaces and underscores and settle after one round. */
  lemma CaseFacts(c: char)
    ensures LowerChar(c) == ' ' <==> c == ' '
    ensures UpperChar(LowerChar(c)) == ' ' <==> c == ' '
    ensures LowerChar(Spaced(c)) != '_' && UpperChar(LowerChar(Spaced(c))) != '_'
    ensures LowerChar(LowerChar(c)) == LowerChar(c)
    ensures UpperChar(LowerChar(UpperChar(LowerChar(c)))) == UpperChar(LowerChar(c))
    ensures UpperChar(UpperChar(LowerChar(c))) == UpperChar(LowerChar(c))
  {
  }

  /**
   * `toTitleCase` works character by character: same length, each
   * character lower-cased with `_` read as a space, and upper-cased where
   * a word starts.
   */
  lemma TitleCasePointwise(str: string)
    ensures |ToTitleCase(str)| == |str|
    ensures forall k :: 0 <= k < |str| ==> ToTitleCase(str)[k] == TitleChar(str, k)
  {
    ReplaceCharPointwise(str, '_', ' ');
    var spaced := ReplaceAll(str, "_", " ");
    var t := Lower(spaced);
    CapitalizedWords(t);
    var r := ToTitleCase(str);
    assert r == CapitalizeWords(t);
    forall k | 0 <= k < |str| ensures r[k] == TitleChar(str, k) {
      assert spaced[k] == Spaced(str[k]);
      assert t[k] == LowerChar(Spaced(str[k]));
      if k > 0 {
        assert spaced[k - 1] == Spaced(str[k - 1]);
        assert t[k - 1] == LowerChar(Spaced(str[k - 1]));
        CaseFacts(Spaced(str[k - 1]));
        assert r[k] == if t[k - 1] == ' ' then UpperChar(t[k]) else t[k];
      }
    }
  }

  /** No underscore survives. */
  lemma TitleCaseHasNoUnderscore(str: string)
    ensures forall k :: 0 <= k < |ToTitleCase(str)| ==> ToTitleCase(str)[k] != '_'
  {
    TitleCasePointwise(str);
    forall k | 0 <= k < |str| ensures ToTitleCase(str)[k] != '_' {
      CaseFacts(str[k]);
    }
  }

  /** A character of the result is a space exactly where the input had a space or `_`. */
  lemma TitleCaseKeepsSpaces(str: string, k: nat)
    requires k < |str|
    ensures k < |ToTitleCase(str)| && (ToTitleCase(str)[k] == ' ' <==> Spaced(str[k]) == ' ')
  {
    TitleCasePointwise(str);
    CaseFacts(Spaced(str[k]));
  }

  /** In each space-separated word of `r` the first character is upper-case and the others lower-case. */
  predicate WordsCapitalized(r: string)
  {
    forall k {:trigger r[k]} :: 0 <= k < |r| ==>
      if k == 0 || r[k - 1] == ' ' then UpperChar(r[k]) == r[k] else LowerChar(r[k]) == r[k]
  }

  /** Every word of the result is capitalised. */
  lemma TitleCaseWords(str: string)
    ensures WordsCapitalized(ToTitleCase(str))
  {
    var r := ToTitleCase(str);
    TitleCasePointwise(str);
    forall k | 0 <= k < |r|
      ensures if k == 0 || r[k - 1] == ' ' then UpperChar(r[k]) == r[k] else LowerChar(r[k]) == r[k]
    {
      assert r[k] == TitleChar(str, k);
      CaseFacts(Spaced(str[k]));
      if k > 0 {
        TitleCaseKeepsSpaces(str, k - 1);
      }
    }
  }

  /** Title-casing twice is title-casing once. */
  lemma TitleCaseIdempotent(str: string)
    ensures ToTitleCase(ToTitleCase(str)) == ToTitleCase(str)
  {
    var r := ToTitleCase(str);
    TitleCasePointwise(str);
    TitleCasePointwise(r);
    forall k | 0 <= k < |r| ensures ToTitleCase(r)[k] == r[k] {
      TitleCaseKeepsSpaces(str, k);
      CaseFacts(Spaced(str[k]));
      if k > 0 {
        TitleCaseKeepsSpaces(str, k - 1);
        TitleCaseKeepsSpaces(r, k - 1);
        assert Spaced(r[k - 1]) == ' ' <==> Spaced(str[k - 1]) == ' ';
      }
    }
  }

  /*
   * Tokens: `content.split(/(\${{KEY:[^}]+}}|\${{PAGE:[^}]+}})/g)`
   */

  const KeyOpen := "${{KEY:"
  const PageOpen := "${{PAGE:"
  const Close := "}}"

  predicate NoBrace(x: string)
  {
    forall k :: 0 <= k < |x| ==> x[k] != '}'
  }

  /** `t` is `open`, a non-empty argument without `}`, then `}}`. */
  predicate IsTokenOf(t: string, open: string)
  {
    |open| + 3 <= |t| && t[..|open|] == open && t[|t| - 2..] == Close && NoBrace(t[|open|..|t| - 2])
  }

  predicate IsToken(t: string)
  {
    IsTokenOf(t, KeyOpen) || IsTokenOf(t, PageOpen)
  }

  /** The argument of a token. */
  function Arg(t: string, open: string): string
    requires IsTokenOf(t, open)
  {
    t[|open|..|t| - 2]
  }

  /** Where `[^}]+}}` ends when matched at `a`: the run of non-`}` stops at the first `}`, which must be doubled. */
  function ArgEnd(s: string, a: nat): Option<nat>
    requires a <= |s|
  {
    match FirstIndexOf(s[a..], '}')
    case None => None
    case Some(j) => if j > 0 && a + j + 1 < |s| && s[a + j + 1] == '}' then Some(a + j + 2) else None
  }

  /** The end of a match of `open[^}]+}}` starting exactly at `q`, if there is one. */
  function MatchAt(s: string, q: nat, open: string): (r: Option<nat>)
    requires q <= |s|
    ensures r.Some? ==> q + |open| + 3 <= r.value <= |s|
  {
    if q + |open| <= |s| && s[q..q + |open|] == open then ArgEnd(s, q + |open|) else None
  }

  /** A slice of a slice is a slice. */
  lemma SliceOfSlice(s: string, q: nat, e: nat, i: nat, k: nat)
    requires q <= e <= |s| && i <= k <= e - q
    ensures s[q..e][i..k] == s[q + i..q + k]
  {
    forall m | 0 <= m < k - i ensures s[q..e][i..k][m] == s[q + i..q + k][m] {
      assert s[q..e][i..k][m] == s[q + i + m];
    }
  }

  /** A match of the regular expression at `q` up to `e` is a token. */
  lemma MatchIsToken(s: string, q: nat, open: string, e: nat)
    requires q <= e <= |s| && MatchAt(s, q, open) == Some(e)
    ensures IsTokenOf(s[q..e], open)
  {
    var t := s[q..e];
    var a := q + |open|;
    var j := FirstIndexOf(s[a..], '}').value;
    assert e == a + j + 2;
    SliceOfSlice(s, q, e, 0, |open|);
    SliceOfSlice(s, q, e, |t| - 2, |t|);
    assert t[|t| - 2..] == [s[a + j], s[a + j + 1]];
    SliceOfSlice(s, q, e, |open|, |t| - 2);
    SliceOfSlice(s, a, |s|, 0, j);
    assert t[|open|..|t| - 2] == s[a..][..j];
  }

  /** The first `c` in `x` is at `j` when `x[j]` is one and none comes earlier. */
  lemma FirstIndexIs(x: string, c: char, j: nat)
    requires j < |x| && x[j] == c && forall k :: 0 <= k < j ==> x[k] != c
    ensures FirstIndexOf(x, c) == Some(j)
  {
  }

  /** A brace-free run of `j > 0` characters at `a` followed by `}}` is what `[^}]+}}` matches there. */
  lemma ArgEndAt(s: string, a: nat, j: nat)
    requires 0 < j && a + j + 2 <= |s| && NoBrace(s[a..a + j]) && s[a + j] == '}' && s[a + j + 1] == '}'
    ensures ArgEnd(s, a) == Some(a + j + 2)
  {
    var rest := s[a..];
    SliceOfSlice(s, a, |s|, 0, j);
    forall k | 0 <= k < j ensures rest[k] != '}' {
      assert rest[k] == s[a..a + j][k];
    }
    FirstIndexIs(rest, '}', j);
  }

  /** A token at `q` up to `e` is what the regular expression matches there. */
  lemma TokenIsMatch(s: string, q: nat, open: string, e: nat)
    requires q <= e <= |s| && IsTokenOf(s[q..e], open)
    ensures MatchAt(s, q, open) == Some(e)
  {
    var t := s[q..e];
    var a := q + |open|;
    var j := e - 2 - a;
    assert s[q..a] == open by {
      SliceOfSlice(s, q, e, 0, |open|);
    }
    assert NoBrace(s[a..a + j]) by {
      SliceOfSlice(s, q, e, |open|, |t| - 2);
    }
    assert s[a + j] == '}' && s[a + j + 1] == '}' by {
      assert t[|t| - 2..] == Close;
      assert s[a + j] == t[|t| - 2] && s[a + j + 1] == t[|t| - 1];
    }
    hide IsTokenOf, NoBrace, FirstIndexOf;
    ArgEndAt(s, a, j);
  }

  /** The regular expression matches at `q` up to `e` exactly when `s[q..e]` is a token. */
  lemma MatchAtIsToken(s: string, q: nat, open: string, e: nat)
    requires q <= e <= |s|
    ensures MatchAt(s, q, open) == Some(e) <==> IsTokenOf(s[q..e], open)
  {
    if MatchAt(s, q, open) == Some(e) {
      MatchIsToken(s, q, open, e);
    }
    if IsTokenOf(s[q..e], open) {
      TokenIsMatch(s, q, open, e);
    }
  }

  /** A token at `q`, trying the KEY alternative first. */
  function TokenAt(s: string, q: nat): (r: Option<nat>)
    requires q <= |s|
    ensures r.Some? ==> q < r.value <= |s|
  {
    if MatchAt(s, q, KeyOpen).Some? then MatchAt(s, q, KeyOpen) else MatchAt(s, q, PageOpen)
  }

  /** No token starts at `q` exactly when no piece of `s` from `q` on is a token. */
  lemma TokenAtNone(s: string, q: nat)
    requires q <= |s|
    ensures TokenAt(s, q).None? <==> forall e :: q <= e <= |s| ==> !IsToken(s[q..e])
  {
    if TokenAt(s, q).None? {
      forall e | q <= e <= |s| ensures !IsToken(s[q..e]) {
        MatchAtIsToken(s, q, KeyOpen, e);
        MatchAtIsToken(s, q, PageOpen, e);
      }
    } else {
      var e := TokenAt(s, q).value;
      MatchAtIsToken(s, q, KeyOpen, e);
      MatchAtIsToken(s, q, PageOpen, e);
    }
  }

  /**
   * `String.prototype.split` with a regular expression that captures the
   * whole token: text from `p`, scanning for a token from `q`.
   */
  function SplitFrom(s: string, p: nat, q: nat): seq<string>
    requires p <= q <= |s|
    decreases |s| - q
  {
    if q == |s| then [s[p..]]
    else match TokenAt(s, q)
      case Some(e) => [s[p..q], s[q..e]] + SplitFrom(s, e, e)
      case None => SplitFrom(s, p, q + 1)
  }

  /** `content.split(…)`: text parts at even indices, tokens at odd ones. */
  function SplitTokens(content: string): seq<string>
  {
    SplitFrom(content, 0, 0)
  }

  function Concat(parts: seq<string>): string
  {
    if parts == [] then "" else parts[0] + Concat(parts[1..])
  }

  /** No piece of `t` is a token. */
  predicate NoTokenIn(t: string)
  {
    forall j, e :: 0 <= j <= e <= |t| ==> !IsToken(t[j..e])
  }

  /** No token of `s` starts at a position in `[p, q)`. */
  predicate NoTokenStarts(s: string, p: nat, q: nat)
  {
    forall j, e :: p <= j < q && j <= e <= |s| ==> !IsToken(s[j..e])
  }

  /** One step of the scan: a token at `q` closes the text part, otherwise the scan moves on. */
  lemma SplitFromStep(s: string, p: nat, q: nat)
    requires p <= q < |s|
    ensures TokenAt(s, q).Some? ==>
              SplitFrom(s, p, q) == [s[p..q], s[q..TokenAt(s, q).value]] + SplitFrom(s, TokenAt(s, q).value, TokenAt(s, q).value)
    ensures TokenAt(s, q).None? ==> SplitFrom(s, p, q) == SplitFrom(s, p, q + 1)
  {
  }

  lemma ConcatPair(a: string, b: string, rest: seq<string>)
    ensures Concat([a, b] + rest) == a + (b + Concat(rest))
  {
    assert ([a, b] + rest)[1..][1..] == rest;
  }

  /** Text, token, then parts that rejoin to the rest give the whole back. */
  lemma PiecesRejoin(s: string, p: nat, q: nat, e: nat, rest: seq<string>)
    requires p <= q <= e <= |s| && Concat(rest) == s[e..]
    ensures Concat([s[p..q], s[q..e]] + rest) == s[p..]
  {
    ConcatPair(s[p..q], s[q..e], rest);
    assert s[p..] == s[p..q] + (s[q..e] + s[e..]);
  }

  /** The parts of the split put back together give the text from `p` on. */
  lemma {:induction false} SplitFromConcat(s: string, p: nat, q: nat)
    requires p <= q <= |s|
    ensures Concat(SplitFrom(s, p, q)) == s[p..]
    decreases |s| - q
  {
    if q == |s| {
      assert Concat([s[p..]]) == s[p..] + Concat([]);
    } else {
      SplitFromStep(s, p, q);
      hide SplitFrom, TokenAt, Concat;
      if TokenAt(s, q).Some? {
        var e := TokenAt(s, q).value;
        SplitFromConcat(s, e, e);
        PiecesRejoin(s, p, q, e, SplitFrom(s, e, e));
      } else {
        SplitFromConcat(s, p, q + 1);
      }
    }
  }

  predicate Odd(n: nat)
  {
    n % 2 == 1
  }

  lemma OddPlusTwo(n: nat)
    requires Odd(n)
    ensures Odd(n + 2)
  {
  }

  /** Text and tokens alternate, starting and ending with text: the split has an odd number of parts. */
  lemma {:induction false} SplitFromOdd(s: string, p: nat, q: nat)
    requires p <= q <= |s|
    ensures Odd(|SplitFrom(s, p, q)|)
    decreases |s| - q
  {
    if q < |s| {
      SplitFromStep(s, p, q);
      hide SplitFrom, TokenAt, Odd;
      if TokenAt(s, q).Some? {
        var e := TokenAt(s, q).value;
        SplitFromOdd(s, e, e);
        assert |SplitFrom(s, p, q)| == |SplitFrom(s, e, e)| + 2;
        OddPlusTwo(|SplitFrom(s, e, e)|);
      } else {
        SplitFromOdd(s, p, q + 1);
      }
    }
  }

  /** Every odd part of the split is a token. */
  lemma {:induction false} SplitFromTokens(s: string, p: nat, q: nat)
    requires p <= q <= |s|
    ensures forall i :: 0 <= i < |SplitFrom(s, p, q)| && i % 2 == 1 ==> IsToken(SplitFrom(s, p, q)[i])
    decreases |s| - q
  {
    if q < |s| {
      SplitFromStep(s, p, q);
      if TokenAt(s, q).Some? {
        var e := TokenAt(s, q).value;
        MatchAtIsToken(s, q, KeyOpen, e);
        MatchAtIsToken(s, q, PageOpen, e);
        assert IsToken(s[q..e]);
        hide SplitFrom, TokenAt, MatchAt, IsToken;
        var r := SplitFrom(s, p, q);
        var rest := SplitFrom(s, e, e);
        SplitFromTokens(s, e, e);
        forall i | 0 <= i < |r| && i % 2 == 1 ensures IsToken(r[i]) {
          if i > 1 {
            assert r[i] == rest[i - 2];
          }
        }
      } else {
        hide SplitFrom, TokenAt;
        SplitFromTokens(s, p, q + 1);
      }
    }
  }

  /** No even part of the split holds a token. */
  lemma {:induction false} SplitFromText(s: string, p: nat, q: nat)
    requires p <= q <= |s| && NoTokenStarts(s, p, q)
    ensures forall i :: 0 <= i < |SplitFrom(s, p, q)| && i % 2 == 0 ==> NoTokenIn(SplitFrom(s, p, q)[i])
    decreases |s| - q
  {
    if q == |s| {
      TextPartHoldsNoToken(s, p, q);
      assert s[p..q] == s[p..];
    } else {
      SplitFromStep(s, p, q);
      if TokenAt(s, q).Some? {
        var e := TokenAt(s, q).value;
        TextPartHoldsNoToken(s, p, q);
        hide SplitFrom, TokenAt, NoTokenIn;
        var r := SplitFrom(s, p, q);
        var rest := SplitFrom(s, e, e);
        SplitFromText(s, e, e);
        forall i | 0 <= i < |r| && i % 2 == 0 ensures NoTokenIn(r[i]) {
          if i > 0 {
            assert r[i] == rest[i - 2];
          }
        }
      } else {
        NoTokenStartsExtend(s, p, q);
        hide SplitFrom, TokenAt, NoTokenStarts;
        SplitFromText(s, p, q + 1);
      }
    }
  }

  lemma NoTokenStartsExtend(s: string, p: nat, q: nat)
    requires p <= q < |s| && NoTokenStarts(s, p, q) && TokenAt(s, q).None?
    ensures NoTokenStarts(s, p, q + 1)
  {
    TokenAtNone(s, q);
  }

  /** A stretch where no token starts holds no token. */
  lemma TextPartHoldsNoToken(s: string, p: nat, q: nat)
    requires p <= q <= |s| && NoTokenStarts(s, p, q)
    ensures NoTokenIn(s[p..q])
  {
    var t := s[p..q];
    forall j, e | 0 <= j <= e <= |t| ensures !IsToken(t[j..e]) {
      if j < e {
        SliceOfSlice(s, p, q, j, e);
      }
    }
  }

  /** Where the part after a text part and a token starts, counted from the text part. */
  lemma ConcatPrefixShift(a: string, b: string, rest: seq<string>, i: nat)
    requires 2 <= i <= |rest| + 2
    ensures |Concat(([a, b] + rest)[..i])| == |a| + |b| + |Concat(rest[..i - 2])|
  {
    assert ([a, b] + rest)[..i] == [a, b] + rest[..i - 2];
    ConcatPair(a, b, rest[..i - 2]);
  }

  /**
   * No token of `s` starts inside an even part of `r`, at the position that
   * part has in `s` when `r` is laid out from `p`.
   */
  predicate TextPartsLeftmost(s: string, p: nat, r: seq<string>)
  {
    forall i :: 0 <= i < |r| && i % 2 == 0 ==>
      NoTokenStarts(s, p + |Concat(r[..i])|, p + |Concat(r[..i])| + |r[i]|)
  }

  /** The scan is leftmost: it never passes over a position where a token starts. */
  lemma {:induction false} SplitFromLeftmost(s: string, p: nat, q: nat)
    requires p <= q <= |s| && NoTokenStarts(s, p, q)
    ensures TextPartsLeftmost(s, p, SplitFrom(s, p, q))
    decreases |s| - q
  {
    if q == |s| {
      var r := SplitFrom(s, p, q);
      assert r == [s[p..]] && r[..0] == [];
    } else {
      SplitFromStep(s, p, q);
      hide SplitFrom, TokenAt, NoTokenStarts, TextPartsLeftmost;
      if TokenAt(s, q).Some? {
        var e := TokenAt(s, q).value;
        SplitFromLeftmost(s, e, e);
        LeftmostAfterToken(s, p, q, e, SplitFrom(s, e, e));
      } else {
        NoTokenStartsExtend(s, p, q);
        SplitFromLeftmost(s, p, q + 1);
      }
    }
  }

  /** A text part where no token starts and a token, followed by leftmost parts from `e` on, are leftmost. */
  lemma {:induction false} LeftmostAfterToken(s: string, p: nat, q: nat, e: nat, rest: seq<string>)
    requires p <= q <= e <= |s| && NoTokenStarts(s, p, q)
    requires TextPartsLeftmost(s, e, rest)
    ensures TextPartsLeftmost(s, p, [s[p..q], s[q..e]] + rest)
  {
    var r := [s[p..q], s[q..e]] + rest;
    assert Concat([]) == "";
    hide NoTokenStarts, Concat;
    forall i | 0 <= i < |r| && i % 2 == 0
      ensures NoTokenStarts(s, p + |Concat(r[..i])|, p + |Concat(r[..i])| + |r[i]|)
    {
      if i == 0 {
        assert r[..0] == [] && r[0] == s[p..q];
      } else {
        var k := i - 2;
        assert k % 2 == 0;
        assert NoTokenStarts(s, e + |Concat(rest[..k])|, e + |Concat(rest[..k])| + |rest[k]|);
        ConcatPrefixShift(s[p..q], s[q..e], rest, i);
        assert p + |Concat(r[..i])| == e + |Concat(rest[..k])|;
        assert r[i] == rest[k];
      }
    }
  }

  /**
   * `content.split(…)` gives the content back when joined, has an odd
   * number of parts, every odd part is a `${{KEY:x}}` or `${{PAGE:x}}`
   * token, no even part holds a token, and no token of `content` starts
   * inside an even part: the split is the leftmost one.
   */
  lemma SplitTokensParts(content: string)
    ensures var r := SplitTokens(content);
      Concat(r) == content && |r| % 2 == 1
      && (forall i :: 0 <= i < |r| && i % 2 == 1 ==> IsToken(r[i]))
      && (forall i :: 0 <= i < |r| && i % 2 == 0 ==> NoTokenIn(r[i]))
      && TextPartsLeftmost(content, 0, r)
  {
    SplitFromLeftmost(content, 0, 0);
    SplitFromConcat(content, 0, 0);
    SplitFromOdd(content, 0, 0);
    SplitFromTokens(content, 0, 0);
    SplitFromText(content, 0, 0);
  }

  /*
   * `part.match(/\${{KEY:([^}]+)}}/)?.[1]` and its PAGE twin
   */

  /** The argument of the leftmost `open[^}]+}}` match at or after `q`. */
  function FirstArg(s: string, open: string, q: nat): Option<string>
    requires q <= |s|
    decreases |s| - q
  {
    if q == |s| then None
    else match MatchAt(s, q, open)
      case Some(e) => Some(s[q + |open|..e - 2])
      case None => FirstArg(s, open, q + 1)
  }

  /** The search finds nothing exactly when no piece of `s` from `q` on is a token. */
  lemma {:induction false} FirstArgNone(s: string, open: string, q: nat)
    requires q <= |s|
    ensures FirstArg(s, open, q).None? <==> forall j, e :: q <= j <= e <= |s| ==> !IsTokenOf(s[j..e], open)
    decreases |s| - q
  {
    if q == |s| {
      forall j, e | q <= j <= e <= |s| ensures !IsTokenOf(s[j..e], open) {
        assert |s[j..e]| == 0;
      }
    } else {
      match MatchAt(s, q, open)
      case Some(e) =>
        MatchIsToken(s, q, open, e);
      case None =>
        FirstArgNone(s, open, q + 1);
        forall e | q <= e <= |s| ensures !IsTokenOf(s[q..e], open) {
          MatchAtIsToken(s, q, open, e);
        }
    }
  }

  /** No token with opening `open` starts in `s` at a position from `q` up to, not including, `j`. */
  predicate NoTokenOfBetween(s: string, open: string, q: nat, j: nat)
  {
    forall a, e :: q <= a < j && a <= e <= |s| ==> !IsTokenOf(s[a..e], open)
  }

  /**
   * What the search finds is the argument of the leftmost token in `s`
   * from `q` on, as `match` returns the leftmost match.
   */
  lemma {:induction false} FirstArgSome(s: string, open: string, q: nat)
    requires q <= |s| && FirstArg(s, open, q).Some?
    ensures exists j, e :: q <= j <= e <= |s| && IsTokenOf(s[j..e], open) && FirstArg(s, open, q).value == Arg(s[j..e], open)
                           && NoTokenOfBetween(s, open, q, j)
    decreases |s| - q
  {
    match MatchAt(s, q, open)
    case Some(e) =>
      MatchIsToken(s, q, open, e);
      assert FirstArg(s, open, q).value == Arg(s[q..e], open);
      assert NoTokenOfBetween(s, open, q, q);
    case None =>
      FirstArgSome(s, open, q + 1);
      var j, e :| q + 1 <= j <= e <= |s| && IsTokenOf(s[j..e], open) && FirstArg(s, open, q + 1).value == Arg(s[j..e], open)
                  && NoTokenOfBetween(s, open, q + 1, j);
      forall e' | q <= e' <= |s| ensures !IsTokenOf(s[q..e'], open) {
        MatchAtIsToken(s, q, open, e');
      }
      assert NoTokenOfBetween(s, open, q, j);
  }

  /** The detail key of a part; absent when the part holds no KEY token. */
  function ExtractKey(part: string): Option<string>
  {
    FirstArg(part, KeyOpen, 0)
  }

  /** The page name of a part, or "" when the part holds no PAGE token. */
  function ExtractPage(part: string): string
  {
    match FirstArg(part, PageOpen, 0)
    case Some(name) => name
    case None => ""
  }

  /** A whole token yields its own argument. */
  lemma TokenArgExtracted(t: string)
    ensures IsTokenOf(t, KeyOpen) ==> ExtractKey(t) == Some(Arg(t, KeyOpen))
    ensures IsTokenOf(t, PageOpen) ==> ExtractPage(t) == Arg(t, PageOpen) && ExtractPage(t) != ""
  {
    assert t[0..|t|] == t;
    if IsTokenOf(t, KeyOpen) {
      TokenIsMatch(t, 0, KeyOpen, |t|);
    }
    if IsTokenOf(t, PageOpen) {
      TokenIsMatch(t, 0, PageOpen, |t|);
    }
  }

  /** Without a PAGE token the page name falls back to "". */
  lemma PageFallsBackToEmpty(part: string)
    requires forall j, e :: 0 <= j <= e <= |part| ==> !IsTokenOf(part[j..e], PageOpen)
    ensures ExtractPage(part) == ""
  {
    FirstArgNone(part, PageOpen, 0);
  }

  /*
   * Bullets: `part.replace(/•/g, "-").replace(/(\n)- /g, "\n- ")`
   */

  const Bullet := '\U{2022}'

  function CleanBullets(part: string): string
  {
    ReplaceAll(ReplaceAll(part, [Bullet], "-"), "\n- ", "\n- ")
  }

  /**
   * Every bullet becomes a dash and nothing else changes: the second
   * replacement puts back exactly what it matched.
   */
  lemma CleanBulletsPointwise(part: string)
    ensures |CleanBullets(part)| == |part|
    ensures forall k :: 0 <= k < |part| ==> CleanBullets(part)[k] == if part[k] == Bullet then '-' else part[k]
  {
    ReplaceCharPointwise(part, Bullet, '-');
    ReplaceAllBySelf(ReplaceAll(part, [Bullet], "-"), "\n- ");
  }

  /*
   * What each part becomes
   */

  /** A "View Details" button, a "Go to" button with its title, or markdown text. */
  datatype Piece = DetailsButton(key: Option<string>) | PageButton(title: string) | Markdown(text: string)

  /** The branch taken for one part: it looks only at the part's first characters. */
  function Render(part: string): Piece
  {
    if StartsWith(part, KeyOpen) then DetailsButton(ExtractKey(part))
    else if StartsWith(part, PageOpen) then PageButton(ToTitleCase(ExtractPage(part)))
    else Markdown(CleanBullets(part))
  }

  /** Every token part becomes the button for its argument. */
  lemma TokenPartsBecomeButtons(content: string, i: nat)
    requires i < |SplitTokens(content)| && i % 2 == 1
    ensures var part := SplitTokens(content)[i];
      || (IsTokenOf(part, KeyOpen) && Render(part) == DetailsButton(Some(Arg(part, KeyOpen))))
      || (IsTokenOf(part, PageOpen) && Render(part) == PageButton(ToTitleCase(Arg(part, PageOpen))))
  {
    SplitTokensParts(content);
    TokenArgExtracted(SplitTokens(content)[i]);
  }

  /**
   * A reply that merely starts like a KEY token, as in `${{KEY:}} Sales
   * rose`, stays one text part, yet it starts with the KEY prefix: it
   * becomes a button with no key and its text is not shown.
   */
  lemma StrayKeyPrefixHidesText(rest: string)
    requires forall k :: 0 <= k < |rest| ==> rest[k] != '$'
    ensures SplitTokens("${{KEY:}}" + rest) == ["${{KEY:}}" + rest]
    ensures Render("${{KEY:}}" + rest) == DetailsButton(None)
  {
    var s := "${{KEY:}}" + rest;
    forall q | 0 <= q < |s| ensures MatchAt(s, q, KeyOpen).None? && MatchAt(s, q, PageOpen).None? {
      if q == 0 {
        assert s[7..][0] == '}';
        assert s[3] != PageOpen[3];
      } else {
        assert s[q] != '$';
        if q + |KeyOpen| <= |s| {
          assert s[q..q + |KeyOpen|][0] == s[q];
        }
        if q + |PageOpen| <= |s| {
          assert s[q..q + |PageOpen|][0] == s[q];
        }
      }
    }
    SplitFromSkips(s, 0, 0);
    FirstArgSkips(s, KeyOpen, 0);
    assert s[..|KeyOpen|] == KeyOpen;
  }

  /** The search passes positions where nothing matches. */
  lemma {:induction false} FirstArgSkips(s: string, open: string, q: nat)
    requires q <= |s|
    requires forall j :: q <= j < |s| ==> MatchAt(s, j, open).None?
    ensures FirstArg(s, open, q).None?
    decreases |s| - q
  {
    if q < |s| {
      FirstArgSkips(s, open, q + 1);
    }
  }

  /** Scanning past positions where no token starts. */
  lemma {:induction false} SplitFromSkips(s: string, p: nat, q: nat)
    requires p <= q <= |s|
    requires forall j :: q <= j < |s| ==> MatchAt(s, j, KeyOpen).None? && MatchAt(s, j, PageOpen).None?
    ensures SplitFrom(s, p, q) == [s[p..]]
    decreases |s| - q
  {
    if q < |s| {
      SplitFromSkips(s, p, q + 1);
    }
  }

  /**
   * The intended rendering: the part's position, not its first
   * characters, decides; tokens sit at odd positions.
   */
  function RenderAt(parts: seq<string>, i: nat): Piece
    requires i < |parts|
  {
    if i % 2 == 1 then Render(parts[i]) else Markdown(CleanBullets(parts[i]))
  }

  /**
   * With the position deciding, every text part is shown in full as
   * markdown, only its bullets turned into "-", and every token still
   * becomes its button.
   */
  lemma RenderAtShowsAllText(content: string, i: nat)
    requires i < |SplitTokens(content)|
    ensures var parts := SplitTokens(content);
      i % 2 == 0 ==> RenderAt(parts, i).Markdown?
                     && |RenderAt(parts, i).text| == |parts[i]|
                     && forall k :: 0 <= k < |parts[i]| ==>
                          RenderAt(parts, i).text[k] == if parts[i][k] == Bullet then '-' else parts[i][k]
    ensures var parts := SplitTokens(content);
      i % 2 == 1 ==> RenderAt(parts, i).DetailsButton? || RenderAt(parts, i).PageButton?
  {
    if i % 2 == 1 {
      TokenPartsBecomeButtons(content, i);
    } else {
      CleanBulletsPointwise(SplitTokens(content)[i]);
    }
  }

  /*
   * `handleDetailsClick`: `dataPool.find(item => item.group_key === key)`
   */

  /** A property read on a parsed object: a repeated name keeps its last value. */
  function Field(fields: seq<(string, Json)>, name: string): (r: Option<Json>)
    ensures r.None? <==> forall i :: 0 <= i < |fields| ==> fields[i].0 != name
    ensures r.Some? ==> exists i :: 0 <= i < |fields| && fields[i] == (name, r.value)
                                    && forall j :: i < j < |fields| ==> fields[j].0 != name
    decreases |fields|
  {
    if fields == [] then None
    else if fields[|fields| - 1].0 == name then Some(fields[|fields| - 1].1)
    else Field(fields[..|fields| - 1], name)
  }

  /**
   * `item.group_key === key`: reading a property of `null` throws (None);
   * only an object can hold a matching string.
   */
  function GroupKeyIs(item: Json, key: string): Option<bool>
  {
    match item
    case JNull => None
    case JObject(fields) => Some(Field(fields, "group_key") == Some(JString(key)))
    case _ => Some(false)
  }

  /** Every item in `items` is read without error and does not match. */
  predicate Misses(items: seq<Json>, key: string)
  {
    forall j :: 0 <= j < |items| ==> GroupKeyIs(items[j], key) == Some(false)
  }

  datatype Lookup = Found(item: Json) | NotFound | Throws

  /** `Array.prototype.find`: the first match, stopping at the first item that throws. */
  function FindByGroupKey(pool: seq<Json>, key: string): (r: Lookup)
    ensures r.NotFound? <==> Misses(pool, key)
    ensures r.Found? ==> exists i :: 0 <= i < |pool| && pool[i] == r.item
                                     && GroupKeyIs(pool[i], key) == Some(true) && Misses(pool[..i], key)
    ensures r.Throws? ==> exists i :: 0 <= i < |pool| && pool[i] == JNull && Misses(pool[..i], key)
    decreases |pool|
  {
    if pool == [] then NotFound
    else
      var rest := FindByGroupKey(pool[1..], key);
      MissesFront(pool, key);
      match GroupKeyIs(pool[0], key)
      case None => Throws
      case Some(true) => Found(pool[0])
      case Some(false) =>
        if rest.Found? then
          FoundLater(pool, key, rest.item);
          rest
        else if rest.Throws? then
          ThrowsLater(pool, key);
          rest
        else rest
  }

  /** An item that misses, then items that miss. */
  lemma MissesFront(pool: seq<Json>, key: string)
    requires pool != []
    ensures Misses(pool, key) <==> GroupKeyIs(pool[0], key) == Some(false) && Misses(pool[1..], key)
    ensures Misses(pool[..1], key) <==> GroupKeyIs(pool[0], key) == Some(false)
  {
    assert pool[..1] == [pool[0]];
    if GroupKeyIs(pool[0], key) == Some(false) && Misses(pool[1..], key) {
      forall j | 0 <= j < |pool| ensures GroupKeyIs(pool[j], key) == Some(false) {
        if j > 0 {
          assert pool[j] == pool[1..][j - 1];
        }
      }
    }
  }

  lemma FoundLater(pool: seq<Json>, key: string, item: Json)
    requires pool != [] && GroupKeyIs(pool[0], key) == Some(false)
    requires exists i :: 0 <= i < |pool[1..]| && pool[1..][i] == item
                         && GroupKeyIs(pool[1..][i], key) == Some(true) && Misses(pool[1..][..i], key)
    ensures exists i :: 0 <= i < |pool| && pool[i] == item
                        && GroupKeyIs(pool[i], key) == Some(true) && Misses(pool[..i], key)
  {
    var i :| 0 <= i < |pool[1..]| && pool[1..][i] == item
             && GroupKeyIs(pool[1..][i], key) == Some(true) && Misses(pool[1..][..i], key);
    MissesFront(pool[..i + 1], key);
    assert pool[..i + 1][1..] == pool[1..][..i];
  }

  lemma ThrowsLater(pool: seq<Json>, key: string)
    requires pool != [] && GroupKeyIs(pool[0], key) == Some(false)
    requires exists i :: 0 <= i < |pool[1..]| && pool[1..][i] == JNull && Misses(pool[1..][..i], key)
    ensures exists i :: 0 <= i < |pool| && pool[i] == JNull && Misses(pool[..i], key)
  {
    var i :| 0 <= i < |pool[1..]| && pool[1..][i] == JNull && Misses(pool[1..][..i], key);
    MissesFront(pool[..i + 1], key);
    assert pool[..i + 1][1..] == pool[1..][..i];
  }

  const DetailsPrefix := "Details for "
  const NoDetailsPrefix := "No details found for key: "

  /**
   * The alert a click on "View Details" raises: nothing for a missing or
   * empty key or when the lookup throws; otherwise the found item printed
   * by `stringify`, or the not-found notice.
   */
  function DetailsAlert(key: Option<string>, pool: seq<Json>, stringify: Json -> string): (r: Option<string>)
    ensures key.None? || key == Some("") ==> r.None?
    ensures key.Some? && key.value != "" && FindByGroupKey(pool, key.value).Found? ==>
              r == Some(DetailsPrefix + key.value + ":\n" + stringify(FindByGroupKey(pool, key.value).item))
    ensures key.Some? && key.value != "" && Misses(pool, key.value) ==> r == Some(NoDetailsPrefix + key.value)
    ensures key.Some? && key.value != "" && FindByGroupKey(pool, key.value).Throws? ==> r.None?
  {
    if key.None? || key.value == "" then None
    else match FindByGroupKey(pool, key.value)
      case Found(item) => Some(DetailsPrefix + key.value + ":\n" + stringify(item))
      case NotFound => Some(NoDetailsPrefix + key.value)
      case Throws => None
  }
}
