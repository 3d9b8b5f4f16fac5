/**
 * The Python `str` operations the translation service relies on, over
 * `string` (= `seq<char>`): `isspace`, ASCII `lower`/`upper`, `strip`,
 * whitespace `split`, `join`, `replace`, and `str(int)`.
 */
module Text {

  /** Python's `str.isspace` for one character. */
  predicate IsSpace(c: char) {
    || c == ' '
    || ('\t' <= c <= '\r')
    || ('\U{1C}' <= c <= '\U{1F}')
    || c == '\U{85}' || c == '\U{A0}' || c == '\U{1680}'
    || ('\U{2000}' <= c <= '\U{200A}')
    || c == '\U{2028}' || c == '\U{2029}' || c == '\U{202F}' || c == '\U{205F}' || c == '\U{3000}'
  }

  /** `c.lower()` for ASCII letters; every other character is left alone. */
  function LowerChar(c: char): char {
    if 'A' <= c <= 'Z' then (c as int + 32) as char else c
  }

  /** `c.upper()` for ASCII letters; every other character is left alone. */
  function UpperChar(c: char): char {
    if 'a' <= c <= 'z' then (c as int - 32) as char else c
  }

  function Lower(s: string): (r: string)
    ensures |r| == |s| && forall i :: 0 <= i < |s| ==> r[i] == LowerChar(s[i])
  {
    seq(|s|, i requires 0 <= i < |s| => LowerChar(s[i]))
  }

  function Upper(s: string): (r: string)
    ensures |r| == |s| && forall i :: 0 <= i < |s| ==> r[i] == UpperChar(s[i])
  {
    seq(|s|, i requires 0 <= i < |s| => UpperChar(s[i]))
  }

  /** Python's `str.lstrip()`: drops the leading whitespace and nothing else. */
  function LStrip(s: string): (r: string)
    ensures |r| <= |s| && r == s[|s| - |r|..]
    ensures r == [] || !IsSpace(r[0])
    ensures forall i :: 0 <= i < |s| - |r| ==> IsSpace(s[i])
    decreases |s|
  {
    if s != [] && IsSpace(s[0]) then LStrip(s[1..]) else s
  }

  /** Python's `str.rstrip()`: drops the trailing whitespace and nothing else. */
  function RStrip(s: string): (r: string)
    ensures |r| <= |s| && r == s[..|r|]
    ensures r == [] || !IsSpace(r[|r| - 1])
    ensures forall i :: |r| <= i < |s| ==> IsSpace(s[i])
    decreases |s|
  {
    if s != [] && IsSpace(s[|s| - 1]) then RStrip(s[..|s| - 1]) else s
  }

  /** Python's `str.strip()`. */
  function Strip(s: string): string {
    RStrip(LStrip(s))
  }

  /**
   * The stripped string has no whitespace at either end, is a piece of the
   * original (so its characters all come from it), and a string that
   * already has no whitespace at either end is left unchanged.
   */
  lemma StripSpec(s: string)
    ensures var r := Strip(s);
      && (r == [] || (!IsSpace(r[0]) && !IsSpace(r[|r| - 1])))
      && |r| <= |s|
      && (forall i :: 0 <= i < |r| ==> r[i] in s)
      && (s == [] || (!IsSpace(s[0]) && !IsSpace(s[|s| - 1])) ==> r == s)
  {
    var l := LStrip(s);
    var r := RStrip(l);
    assert r != [] ==> r[0] == l[0];
    forall i | 0 <= i < |r|
      ensures r[i] in s
    {
      assert r[i] == s[|s| - |l| + i];
    }
  }

  /** `s.endswith(suffix)`. */
  predicate EndsWith(s: string, suffix: string) {
    |suffix| <= |s| && s[|s| - |suffix|..] == suffix
  }

  /** `sub in s` for strings: `sub` occurs somewhere in `s`. */
  predicate Contains(s: string, sub: string)
    decreases |s|
  {
    (|sub| <= |s| && s[..|sub|] == sub) || (s != [] && Contains(s[1..], sub))
  }

  /** `sub` occurs in `s` starting at index `i`. */
  predicate OccursAt(s: string, sub: string, i: int) {
    0 <= i && i + |sub| <= |s| && s[i..i + |sub|] == sub
  }

  /** `Contains` finds exactly the substrings: `sub` occurs in `s` at some index. */
  lemma {:induction false} ContainsSpec(s: string, sub: string)
    ensures Contains(s, sub) <==> exists i :: OccursAt(s, sub, i)
    decreases |s|
  {
    if |sub| <= |s| && s[..|sub|] == sub {
      assert OccursAt(s, sub, 0);
    } else if s == [] {
    } else {
      ContainsSpec(s[1..], sub);
      if Contains(s, sub) {
        var j :| OccursAt(s[1..], sub, j);
        assert s[j + 1..j + 1 + |sub|] == s[1..][j..j + |sub|];
        assert OccursAt(s, sub, j + 1);
      }
      if i :| OccursAt(s, sub, i) {
        assert i != 0;
        assert s[1..][i - 1..i - 1 + |sub|] == s[i..i + |sub|];
        assert OccursAt(s[1..], sub, i - 1);
      }
    }
  }

  /** Whatever a string ends with, it still ends with once something is put in front of it. */
  lemma EndsWithPrefixed(prefix: string, s: string, suffix: string)
    requires EndsWith(s, suffix)
    ensures EndsWith(prefix + s, suffix)
  {
    var t := prefix + s;
    forall i | 0 <= i < |suffix|
      ensures t[|t| - |suffix| + i] == suffix[i]
    {
      assert t[|t| - |suffix| + i] == s[|s| - |suffix| + i];
    }
  }

  /** A string ends with itself. */
  lemma EndsWithSelf(s: string)
    ensures EndsWith(s, s)
  {
    assert s[0..] == s;
  }

  /** A word of `str.split()`: non-empty, with no whitespace in it. */
  predicate Word(w: string) {
    w != [] && forall i :: 0 <= i < |w| ==> !IsSpace(w[i])
  }

  /** The length of the run of non-whitespace characters that starts `s`. */
  function WordLength(s: string): (n: nat)
    ensures n <= |s|
    ensures forall i :: 0 <= i < n ==> !IsSpace(s[i])
    ensures n < |s| ==> IsSpace(s[n])
    decreases |s|
  {
    if s == [] || IsSpace(s[0]) then 0 else 1 + WordLength(s[1..])
  }

  /** Python's `str.split()` with no separator: the maximal whitespace-free runs, in order. */
  function Split(s: string): seq<string>
    decreases |s|
  {
    var t := LStrip(s);
    if t == [] then []
    else
      var n := WordLength(t);
      assert n >= 1 by {
        assert !IsSpace(t[0]);
      }
      [t[..n]] + Split(t[n..])
  }

  /** Python's `sep.join(parts)`. */
  function Join(parts: seq<string>, sep: string): string {
    if |parts| == 0 then ""
    else if |parts| == 1 then parts[0]
    else parts[0] + sep + Join(parts[1..], sep)
  }

  /** Python's `" ".join(s.split())`: every whitespace run becomes one plain space, ends trimmed. */
  function CollapseSpaces(s: string): string {
    Join(Split(s), " ")
  }

  /**
   * No whitespace at either end, and every whitespace character is a plain
   * space standing alone between two non-whitespace characters.
   */
  ghost predicate Normalized(s: string) {
    forall i :: 0 <= i < |s| && IsSpace(s[i]) ==> s[i] == ' ' && 0 < i < |s| - 1 && !IsSpace(s[i + 1])
  }

  /** Python's `s.replace(pat, rep)`: non-overlapping occurrences, left to right. */
  function Replace(s: string, pat: string, rep: string): string
    requires pat != []
    decreases |s|
  {
    if |s| < |pat| then s
    else if s[..|pat|] == pat then rep + Replace(s[|pat|..], pat, rep)
    else [s[0]] + Replace(s[1..], pat, rep)
  }

  /** Two characters agree on being whitespace and on being a plain space. */
  predicate SameShape(a: char, b: char) {
    IsSpace(a) == IsSpace(b) && (a == ' ') == (b == ' ')
  }

  function DigitChar(d: nat): (c: char)
    requires d < 10
    ensures '0' <= c <= '9'
  {
    ('0' as int + d) as char
  }

  function DigitValue(c: char): (d: nat)
    requires '0' <= c <= '9'
    ensures d < 10
  {
    c as int - '0' as int
  }

  predicate AllDigits(s: string) {
    forall i :: 0 <= i < |s| ==> '0' <= s[i] <= '9'
  }

  /** Python's `str(n)` for a non-negative integer. */
  function NatToString(n: nat): (r: string)
    ensures r != [] && AllDigits(r)
    decreases n
  {
    if n < 10 then [DigitChar(n)] else NatToString(n / 10) + [DigitChar(n % 10)]
  }

  /** Python's `str(n)`: a minus sign, then the decimal digits of the magnitude. */
  function IntToString(n: int): (r: string)
    ensures forall i :: 0 <= i < |r| ==> r[i] == '-' || '0' <= r[i] <= '9'
  {
    if n < 0 then "-" + NatToString(-n) else NatToString(n)
  }

  /** Reads decimal digits back (Python's `int(s)` on digit strings). */
  function ParseNat(s: string): nat
    requires AllDigits(s)
  {
    if s == [] then 0 else 10 * ParseNat(s[..|s| - 1]) + DigitValue(s[|s| - 1])
  }

  function ParseInt(s: string): int
    requires s != [] && (AllDigits(s) || (s[0] == '-' && AllDigits(s[1..])))
  {
    if s[0] == '-' then 0 - ParseNat(s[1..]) else ParseNat(s)
  }

  // ---------------------------------------------------------------------------
  // Lemmas
  // ---------------------------------------------------------------------------

  /** `lower()` and `upper()` keep every character's whitespace class. */
  lemma CaseKeepsShape(c: char)
    ensures SameShape(c, LowerChar(c)) && SameShape(c, UpperChar(c))
  {
  }

  /** Lower-casing leaves a string without ASCII capitals unchanged. */
  lemma LowerOfLowercase(s: string)
    requires forall j :: 0 <= j < |s| ==> !('A' <= s[j] <= 'Z')
    ensures Lower(s) == s
  {
  }

  /** A lower-cased string holds no ASCII capitals. */
  lemma LowerHasNoCapitals(s: string)
    ensures forall c :: c in Lower(s) ==> !('A' <= c <= 'Z')
  {
    var l := Lower(s);
    forall c | c in l
      ensures !('A' <= c <= 'Z')
    {
      var i :| 0 <= i < |l| && l[i] == c;
      assert c == LowerChar(s[i]);
    }
  }

  /** Appending one part to a non-empty join adds the separator and that part. */
  lemma {:induction false} JoinSnoc(parts: seq<string>, x: string, sep: string)
    requires parts != []
    ensures Join(parts + [x], sep) == Join(parts, sep) + sep + x
  {
    if |parts| == 1 {
      assert parts + [x] == [parts[0], x];
      assert [parts[0], x][1..] == [x];
    } else {
      assert (parts + [x])[0] == parts[0];
      assert (parts + [x])[1..] == parts[1..] + [x];
      JoinSnoc(parts[1..], x, sep);
    }
  }

  /** A join of one or more parts ends with the last part. */
  lemma JoinEndsWithLast(parts: seq<string>, sep: string)
    requires parts != []
    ensures EndsWith(Join(parts, sep), parts[|parts| - 1])
  {
    var last := parts[|parts| - 1];
    EndsWithSelf(last);
    if |parts| >= 2 {
      var front := parts[..|parts| - 1];
      assert parts == front + [last];
      JoinSnoc(front, last, sep);
      EndsWithPrefixed(Join(front, sep) + sep, last, last);
    }
  }

  /** Joining whitespace-free words with single spaces gives a normalized string. */
  lemma {:induction false} JoinWordsNormalized(ws: seq<string>)
    requires forall i :: 0 <= i < |ws| ==> Word(ws[i])
    ensures Normalized(Join(ws, " "))
    ensures |ws| > 0 ==> Join(ws, " ") != [] && !IsSpace(Join(ws, " ")[0])
  {
    if |ws| >= 2 {
      var w, j := ws[0], Join(ws[1..], " ");
      JoinWordsNormalized(ws[1..]);
      var s := w + " " + j;
      assert Join(ws, " ") == s;
      assert forall i :: 0 <= i < |w| ==> s[i] == w[i];
      assert s[0] == w[0];
      assert s[|w|] == ' ' && s[|w| + 1] == j[0];
      assert forall i :: |w| < i < |s| ==> s[i] == j[i - |w| - 1];
    }
  }

  /** `Split(s)` starts by skipping leading whitespace, so skipping it first changes nothing. */
  lemma SplitIgnoresLeadingSpace(s: string)
    ensures Split(LStrip(s)) == Split(s)
  {
    var t := LStrip(s);
    assert LStrip(t) == t;
  }

  /** A single word splits to itself. */
  lemma SplitWord(w: string)
    requires Word(w)
    ensures Split(w) == [w]
  {
    assert LStrip(w) == w;
    var n := WordLength(w);
    assert forall i :: 0 <= i < |w| ==> !IsSpace(w[i]);
    assert n == |w|;
    assert w[..n] == w && w[n..] == [];
    assert Split([]) == [];
  }

  /** The run of non-whitespace at the start of a word followed by whitespace is the word. */
  lemma WordLengthOfWord(w: string, rest: string)
    requires Word(w) && rest != [] && IsSpace(rest[0])
    ensures WordLength(w + rest) == |w|
  {
    var s := w + rest;
    assert forall i :: 0 <= i < |w| ==> s[i] == w[i];
    assert s[|w|] == rest[0];
  }

  /** A word, a space, then text that starts with a word: the first word splits off. */
  lemma SplitConsWord(w: string, j: string)
    requires Word(w) && j != [] && !IsSpace(j[0])
    ensures Split(w + " " + j) == [w] + Split(j)
  {
    var rest := " " + j;
    var s := w + rest;
    assert w + " " + j == s;
    assert s[0] == w[0];
    assert LStrip(s) == s;
    WordLengthOfWord(w, rest);
    assert s[..|w|] == w && s[|w|..] == rest;
    assert Split(s) == [w] + Split(rest);
    assert LStrip(rest) == LStrip(j) == j;
    SplitIgnoresLeadingSpace(rest);
  }

  /** Every piece `split()` returns is a non-empty run without whitespace. */
  lemma {:induction false} SplitWords(s: string)
    ensures forall i :: 0 <= i < |Split(s)| ==> Word(Split(s)[i])
    decreases |s|
  {
    var t := LStrip(s);
    if t != [] {
      var n := WordLength(t);
      assert !IsSpace(t[0]);
      SplitWords(t[n..]);
      var head, tail := t[..n], Split(t[n..]);
      assert Word(head);
      assert Split(s) == [head] + tail;
    }
  }

  /** Round trip: splitting words joined by single spaces gives the words back. */
  lemma {:induction false} SplitJoin(ws: seq<string>)
    requires forall i :: 0 <= i < |ws| ==> Word(ws[i])
    ensures Split(Join(ws, " ")) == ws
  {
    if |ws| == 0 {
      assert Split("") == [] by {
        assert LStrip("") == "";
      }
    } else if |ws| == 1 {
      SplitWord(ws[0]);
      assert ws == [ws[0]];
    } else {
      var w, rest := ws[0], ws[1..];
      assert forall i :: 0 <= i < |rest| ==> Word(rest[i]) by {
        assert forall i :: 0 <= i < |rest| ==> rest[i] == ws[i + 1];
      }
      SplitJoin(rest);
      SplitJoinStep(w, rest);
      JoinCons(ws, " ");
    }
  }

  /** A join of two or more parts is the first part, the separator, and the join of the rest. */
  lemma JoinCons(parts: seq<string>, sep: string)
    requires |parts| >= 2
    ensures Join(parts, sep) == parts[0] + sep + Join(parts[1..], sep)
    ensures parts == [parts[0]] + parts[1..]
  {
  }

  /** The inductive step of `SplitJoin`: a word joined in front splits off again. */
  lemma SplitJoinStep(w: string, rest: seq<string>)
    requires Word(w) && rest != [] && forall i :: 0 <= i < |rest| ==> Word(rest[i])
    requires Split(Join(rest, " ")) == rest
    ensures Split(w + " " + Join(rest, " ")) == [w] + rest
  {
    var j := Join(rest, " ");
    assert j != [] && !IsSpace(j[0]) by {
      JoinWordsNormalized(rest);
    }
    SplitConsWord(w, j);
  }

  /** `" ".join(s.split())` is normalized and keeps the words of `s`. */
  lemma CollapseSpacesSpec(s: string)
    ensures Normalized(CollapseSpaces(s))
    ensures Split(CollapseSpaces(s)) == Split(s)
  {
    SplitWords(s);
    JoinWordsNormalized(Split(s));
    SplitJoin(Split(s));
  }

  /** Collapsing whitespace twice is the same as once. */
  lemma CollapseSpacesIdempotent(s: string)
    ensures CollapseSpaces(CollapseSpaces(s)) == CollapseSpaces(s)
  {
    SplitWords(s);
    SplitJoin(Split(s));
  }

  /** A normalized string has no whitespace at its ends, so `strip()` leaves it alone. */
  lemma StripNormalized(s: string)
    requires Normalized(s)
    ensures Strip(s) == s
  {
    if s != [] {
      assert !IsSpace(s[0]);
      assert !IsSpace(s[|s| - 1]);
    }
  }

  /** Replacing a pattern by itself leaves the string unchanged. */
  lemma {:induction false} ReplaceSelf(s: string, pat: string)
    requires pat != []
    ensures Replace(s, pat, pat) == s
    decreases |s|
  {
    if |s| >= |pat| {
      if s[..|pat|] == pat {
        ReplaceSelf(s[|pat|..], pat);
        assert s == pat + s[|pat|..];
      } else {
        ReplaceSelf(s[1..], pat);
        assert s == [s[0]] + s[1..];
      }
    }
  }

  /**
   * A replacement whose pattern and replacement have the same length and the
   * same whitespace shape position by position keeps the length of the string
   * and the shape of every character.
   */
  lemma {:induction false} ReplaceKeepsShape(s: string, pat: string, rep: string)
    requires pat != [] && |pat| == |rep|
    requires forall j :: 0 <= j < |pat| ==> SameShape(pat[j], rep[j])
    ensures |Replace(s, pat, rep)| == |s|
    ensures forall k :: 0 <= k < |s| ==> SameShape(s[k], Replace(s, pat, rep)[k])
    decreases |s|
  {
    if |s| >= |pat| {
      var r := Replace(s, pat, rep);
      if s[..|pat|] == pat {
        var tail := Replace(s[|pat|..], pat, rep);
        ReplaceKeepsShape(s[|pat|..], pat, rep);
        assert r == rep + tail;
        forall k | 0 <= k < |s| ensures SameShape(s[k], r[k]) {
          if k < |pat| {
            assert s[k] == pat[k] && r[k] == rep[k];
          } else {
            assert s[k] == s[|pat|..][k - |pat|] && r[k] == tail[k - |pat|];
          }
        }
      } else {
        var tail := Replace(s[1..], pat, rep);
        ReplaceKeepsShape(s[1..], pat, rep);
        assert r == [s[0]] + tail;
        forall k | 0 <= k < |s| ensures SameShape(s[k], r[k]) {
          if k > 0 {
            assert s[k] == s[1..][k - 1] && r[k] == tail[k - 1];
          }
        }
      }
    }
  }

  /** Normalization depends only on the whitespace shape of each character. */
  lemma NormalizedByShape(s: string, r: string)
    requires Normalized(s) && |r| == |s|
    requires forall k :: 0 <= k < |s| ==> SameShape(s[k], r[k])
    ensures Normalized(r)
  {
    forall i | 0 <= i < |r| && IsSpace(r[i])
      ensures r[i] == ' ' && 0 < i < |r| - 1 && !IsSpace(r[i + 1])
    {
      assert SameShape(s[i], r[i]);
      assert SameShape(s[i + 1], r[i + 1]);
    }
  }

  /** Decimal digits read back to the number they were written from. */
  lemma {:induction false} ParseNatToString(n: nat)
    ensures ParseNat(NatToString(n)) == n
    decreases n
  {
    if n >= 10 {
      ParseNatToString(n / 10);
      var s := NatToString(n);
      assert s[..|s| - 1] == NatToString(n / 10);
    }
  }

  /** Round trip for `str(n)` on all integers. */
  lemma ParseIntToString(n: int)
    ensures var s := IntToString(n);
            s != [] && (AllDigits(s) || (s[0] == '-' && AllDigits(s[1..]))) && ParseInt(s) == n
  {
    var s := IntToString(n);
    if n < 0 {
      ParseNatToString(-n);
      assert s[1..] == NatToString(-n);
    } else {
      ParseNatToString(n);
    }
  }

  /** Distinct integers print differently. */
  lemma IntToStringInjective(a: int, b: int)
    requires IntToString(a) == IntToString(b)
    ensures a == b
  {
    ParseIntToString(a);
    ParseIntToString(b);
  }
}
