/**
  Character classes and the handful of Python string operations that the
  heading engines rely on (`str.strip`, `str.split`, `str.join`,
  `str.lower`, `str.capitalize`, `str.rsplit('.', 1)`, `re.sub`).

  Characters are ASCII-only in this model: whitespace is what `str.isspace()`
  and the regex class `\s` accept below U+0080, a letter is an ASCII letter,
  a digit is '0'..'9'.
*/
module Text {

  predicate IsSpace(c: char) {
    c == ' ' || c == '\t' || c == '\n' || c == '\r' || c == '\U{0B}' || c == '\U{0C}'
    || ('\U{1C}' <= c <= '\U{1F}')
  }

  predicate IsDigit(c: char) { '0' <= c <= '9' }

  predicate IsUpper(c: char) { 'A' <= c <= 'Z' }

  predicate IsLower(c: char) { 'a' <= c <= 'z' }

  /** `[A-Z]` under `re.IGNORECASE`. */
  predicate IsLetter(c: char) { IsUpper(c) || IsLower(c) }

  /** The regex class `\w`. */
  predicate IsWordChar(c: char) { IsLetter(c) || IsDigit(c) || c == '_' }

  function ToLower(c: char): char {
    if IsUpper(c) then (c as int + 32) as char else c
  }

  function ToUpper(c: char): char {
    if IsLower(c) then (c as int - 32) as char else c
  }

  /** `str.lower()` */
  function Lower(s: string): string {
    seq(|s|, i requires 0 <= i < |s| => ToLower(s[i]))
  }

  lemma {:induction false} LowerAppend(a: string, b: string)
    ensures Lower(a + b) == Lower(a) + Lower(b)
  {
    assert forall i :: 0 <= i < |a + b| ==> Lower(a + b)[i] == (Lower(a) + Lower(b))[i];
  }

  // ---------------------------------------------------------------- prefixes and substrings

  predicate StartsWith(s: string, p: string) {
    |p| <= |s| && s[..|p|] == p
  }

  /** `p in s` for strings: `p` occurs in `s` at some position. */
  predicate Contains(s: string, p: string)
    decreases |s|
  {
    StartsWith(s, p) || (s != [] && Contains(s[1..], p))
  }

  lemma {:induction false} ContainsSuffix(a: string, p: string)
    ensures Contains(a + p, p)
    decreases |a|
  {
    if a == [] {
      assert a + p == p;
    } else {
      assert (a + p)[1..] == a[1..] + p;
      ContainsSuffix(a[1..], p);
    }
  }

  /** A string that ends with `c` (`str.endswith(c)` for one character). */
  predicate EndsWithChar(s: string, c: char) {
    |s| > 0 && s[|s| - 1] == c
  }

  // ---------------------------------------------------------------- strip

  /** Number of leading whitespace characters. */
  function LeadingSpaces(s: string): (k: nat)
    ensures k <= |s|
    ensures forall i :: 0 <= i < k ==> IsSpace(s[i])
    ensures k < |s| ==> !IsSpace(s[k])
  {
    if s == [] || !IsSpace(s[0]) then 0 else 1 + LeadingSpaces(s[1..])
  }

  /** Number of trailing whitespace characters. */
  function TrailingSpaces(s: string): (k: nat)
    ensures k <= |s|
    ensures forall i :: |s| - k <= i < |s| ==> IsSpace(s[i])
    ensures k < |s| ==> !IsSpace(s[|s| - 1 - k])
  {
    if s == [] || !IsSpace(s[|s| - 1]) then 0 else 1 + TrailingSpaces(s[..|s| - 1])
  }

  /** `str.lstrip()` */
  function LStrip(s: string): string {
    s[LeadingSpaces(s)..]
  }

  /** `str.rstrip()` */
  function RStrip(s: string): string {
    s[..|s| - TrailingSpaces(s)]
  }

  /** `str.strip()`: what remains is empty exactly when `s` is all whitespace,
      and otherwise starts and ends with a non-whitespace character. */
  function Strip(s: string): (r: string)
    ensures |r| <= |s|
    ensures r != [] ==> !IsSpace(r[0]) && !IsSpace(r[|r| - 1])
    ensures r == [] <==> forall i :: 0 <= i < |s| ==> IsSpace(s[i])
    ensures forall c :: c in r ==> c in s
  {
    var l := LStrip(s);
    assert forall i :: 0 <= i < |l| ==> l[i] == s[LeadingSpaces(s) + i];
    RStrip(l)
  }

  /** Stripping a string that has no surrounding whitespace changes nothing. */
  lemma {:induction false} StripTrimmed(s: string)
    requires s != [] ==> !IsSpace(s[0]) && !IsSpace(s[|s| - 1])
    ensures Strip(s) == s
  {
    if s != [] {
      assert LeadingSpaces(s) == 0;
      assert LStrip(s) == s;
      assert TrailingSpaces(s) == 0;
    }
  }

  lemma {:induction false} StripIdempotent(s: string)
    ensures Strip(Strip(s)) == Strip(s)
  {
    StripTrimmed(Strip(s));
  }

  /** Every character is whitespace. */
  predicate AllSpace(s: string) {
    forall i :: 0 <= i < |s| ==> IsSpace(s[i])
  }

  // ---------------------------------------------------------------- split and join

  predicate NoSpace(w: string) {
    forall i :: 0 <= i < |w| ==> !IsSpace(w[i])
  }

  /** Length of the leading run of non-whitespace characters. */
  function TokenLength(s: string): (k: nat)
    ensures k <= |s|
    ensures forall i :: 0 <= i < k ==> !IsSpace(s[i])
    ensures k < |s| ==> IsSpace(s[k])
  {
    if s == [] || IsSpace(s[0]) then 0 else 1 + TokenLength(s[1..])
  }

  /** `str.split()` with no argument: the maximal runs of non-whitespace
      characters, in order.  Each word is non-empty and holds no whitespace;
      there are none exactly when `s` is all whitespace. */
  function Words(s: string): (ws: seq<string>)
    ensures forall w | w in ws :: w != [] && NoSpace(w)
    ensures ws == [] <==> AllSpace(s)
    decreases |s|
  {
    var t := LStrip(s);
    if t == [] then []
    else
      var k := TokenLength(t);
      var rest := Words(t[k..]);
      assert t[0] == s[LeadingSpaces(s)];
      [t[..k]] + rest
  }

  /** Every character of `w` occurs in `s`. */
  ghost predicate Within(w: string, s: string) {
    forall c | c in w :: c in s
  }

  lemma {:induction false} WithinSlice(s: string, i: nat, j: nat)
    requires i <= j <= |s|
    ensures Within(s[i..j], s)
  {
    forall c | c in s[i..j] ensures c in s {
      var m :| 0 <= m < j - i && s[i..j][m] == c;
      assert s[i + m] == c;
    }
  }

  /** Every character of every word is a character of the input. */
  lemma {:induction false} WordsChars(s: string)
    ensures forall w | w in Words(s) :: Within(w, s)
    decreases |s|
  {
    var t := LStrip(s);
    if t != [] {
      var k := TokenLength(t);
      var rest := t[k..];
      WordsChars(rest);
      WithinSlice(s, LeadingSpaces(s), |s|);
      assert s[LeadingSpaces(s)..|s|] == t;
      WithinSlice(t, 0, k);
      assert t[0..k] == t[..k];
      WithinSlice(t, k, |t|);
      assert t[k..|t|] == rest;
      assert Words(s) == [t[..k]] + Words(rest);
      forall w | w in Words(s) ensures Within(w, s) {
        if w != t[..k] {
          assert w in Words(rest);
        }
      }
    }
  }

  /** Stripping a trimmed text followed by one space gives the text back. */
  lemma {:induction false} StripSpaceAfter(j: string)
    requires j != [] && !IsSpace(j[0]) && !IsSpace(j[|j| - 1])
    ensures Strip(j + " ") == j
  {
    var s := j + " ";
    assert LeadingSpaces(s) == 0;
    assert LStrip(s) == s;
    assert TrailingSpaces(s[..|s| - 1]) == 0 by { assert s[..|s| - 1] == j; }
    assert TrailingSpaces(s) == 1;
    assert RStrip(s) == j;
  }

  /** Joining words that are non-empty and start and end with no space,
      adding one space and stripping gives the joined words back. */
  lemma {:induction false} StripJoinSpace(ws: seq<string>)
    requires ws != [] && forall i :: 0 <= i < |ws| ==> ws[i] != [] && !IsSpace(ws[i][0]) && !IsSpace(ws[i][|ws[i]| - 1])
    ensures Strip(Join(ws, " ") + " ") == Join(ws, " ")
  {
    JoinEnds(ws, " ");
    StripSpaceAfter(Join(ws, " "));
  }

  /** Sequence concatenation is associative. */
  lemma {:induction false} AppendAssoc<T>(a: seq<T>, b: seq<T>, c: seq<T>)
    ensures (a + b) + c == a + (b + c)
  {
  }

  /** Extending a prefix by its next element. */
  lemma {:induction false} TakeStep<T>(b: seq<T>, i: nat)
    requires i < |b|
    ensures b[..i + 1] == b[..i] + [b[i]]
  {
  }

  /** Extending a concatenation by the next element of its second part. */
  lemma {:induction false} PrefixStep<T>(a: seq<T>, b: seq<T>, i: nat)
    requires i < |b|
    ensures a + b[..i + 1] == (a + b[..i]) + [b[i]]
  {
    TakeStep(b, i);
    AppendAssoc(a, b[..i], [b[i]]);
  }

  /** `sep.join(ws)` */
  function Join(ws: seq<string>, sep: string): string {
    if ws == [] then "" else if |ws| == 1 then ws[0] else ws[0] + sep + Join(ws[1..], sep)
  }

  /** No leading, trailing or doubled whitespace, and every whitespace
      character is a plain space. */
  predicate SingleSpaced(s: string) {
    forall i :: 0 <= i < |s| && IsSpace(s[i]) ==> s[i] == ' ' && 0 < i < |s| - 1 && !IsSpace(s[i + 1])
  }

  /** Joining non-empty whitespace-free words with one space gives a
      single-spaced string that is empty only for no words, and whose
      characters are spaces or characters of the words. */
  lemma {:induction false} JoinWords(ws: seq<string>)
    requires forall w | w in ws :: w != [] && NoSpace(w)
    ensures var r := Join(ws, " ");
      && SingleSpaced(r)
      && (r == [] <==> ws == [])
      && (ws != [] ==> r != [] && ws[0] != [] && r[0] == ws[0][0])
      && forall c | c in r :: c == ' ' || exists w | w in ws :: c in w
  {
    if ws != [] {
      assert ws[0] in ws;
    }
    if |ws| > 1 {
      assert forall w | w in ws[1..] :: w in ws;
      JoinWords(ws[1..]);
      var rest := Join(ws[1..], " ");
      assert SingleSpaced(rest) && rest != [];
      var r := ws[0] + " " + rest;
      assert Join(ws, " ") == r;
      assert ws[1] in ws;
      assert forall k :: 0 <= k < |ws[0]| ==> r[k] == ws[0][k];
      forall i | 0 <= i < |r| && IsSpace(r[i])
        ensures r[i] == ' ' && 0 < i < |r| - 1 && !IsSpace(r[i + 1])
      {
        if i == |ws[0]| {
          assert r[i + 1] == rest[0] == ws[1][0];
        } else if i > |ws[0]| {
          var j := i - |ws[0]| - 1;
          assert r[i] == rest[j];
          assert rest[j] == ' ' && 0 < j < |rest| - 1;
          assert r[i + 1] == rest[j + 1];
        }
      }
      forall c | c in r ensures c == ' ' || exists w | w in ws :: c in w {
        if c in ws[0] {
        } else if c in rest {
          if c != ' ' {
            var w :| w in ws[1..] && c in w;
            assert w in ws;
          }
        }
      }
    } else if |ws| == 1 {
      assert ws[0] in ws;
      forall c | c in Join(ws, " ") ensures c == ' ' || exists w | w in ws :: c in w {
        assert c in ws[0];
      }
    }
  }

  // ---------------------------------------------------------------- other rewrites

  /** `str.capitalize()`: first character upper case, the rest lower case. */
  function Capitalize(w: string): string {
    if w == [] then [] else [ToUpper(w[0])] + Lower(w[1..])
  }

  /** Changing case maps letters to letters and every other character to
      itself. */
  lemma {:induction false} CaseChar(c: char)
    ensures IsLetter(c) ==> IsLetter(ToUpper(c)) && IsLetter(ToLower(c))
    ensures !IsLetter(c) ==> ToUpper(c) == c && ToLower(c) == c
  {
  }

  /** Capitalising keeps the length and maps letters to letters and every
      other character to itself. */
  lemma {:induction false} CapitalizeChars(w: string)
    ensures |Capitalize(w)| == |w|
    ensures forall i :: 0 <= i < |w| ==>
      (IsLetter(w[i]) ==> IsLetter(Capitalize(w)[i])) && (!IsLetter(w[i]) ==> Capitalize(w)[i] == w[i])
  {
    if w != [] {
      var r := Capitalize(w);
      assert |r| == |w|;
      forall i | 0 <= i < |w|
        ensures (IsLetter(w[i]) ==> IsLetter(r[i])) && (!IsLetter(w[i]) ==> r[i] == w[i])
      {
        CaseChar(w[i]);
        if i == 0 {
          assert r[0] == ToUpper(w[0]);
        } else {
          assert r[i] == Lower(w[1..])[i - 1] == ToLower(w[i]);
        }
      }
    }
  }

  /** `re.sub(r'\s+', ' ', s)`: every maximal whitespace run becomes one space. */
  function CollapseSpaces(s: string): (r: string)
    ensures forall c | c in r :: c == ' ' || c in s
    decreases |s|
  {
    if s == [] then []
    else if IsSpace(s[0]) then
      assert LeadingSpaces(s) > 0;
      " " + CollapseSpaces(LStrip(s))
    else [s[0]] + CollapseSpaces(s[1..])
  }

  /** `re.sub(r'[_-]', ' ', s)` */
  function SeparatorsToSpaces(s: string): string {
    seq(|s|, i requires 0 <= i < |s| => if s[i] == '_' || s[i] == '-' then ' ' else s[i])
  }

  /** `s.rsplit('.', 1)[0]`: everything before the last '.', or all of `s`
      when it holds no '.'. */
  function BeforeLastDot(s: string): (r: string)
    ensures '.' !in s ==> r == s
    ensures '.' in s ==> |r| < |s| && r == s[..|r|] && s[|r|] == '.' && '.' !in s[|r| + 1..]
  {
    if '.' !in s then s
    else if s[|s| - 1] == '.' then s[..|s| - 1]
    else
      assert '.' in s[..|s| - 1] by {
        var i :| 0 <= i < |s| && s[i] == '.';
        assert s[..|s| - 1][i] == '.';
      }
      BeforeLastDot(s[..|s| - 1])
  }

  /** `s.split(c)` for a one-character separator. */
  function SplitOn(s: string, c: char): (parts: seq<string>)
    ensures |parts| >= 1
    decreases |s|
  {
    if s == [] then [""]
    else
      var rest := SplitOn(s[1..], c);
      if s[0] == c then [""] + rest else [[s[0]] + rest[0]] + rest[1..]
  }

  /** `len(s.split(c)) > 1` holds exactly when `c` occurs in `s`. */
  lemma {:induction false} SplitOnCount(s: string, c: char)
    ensures |SplitOn(s, c)| > 1 <==> c in s
    decreases |s|
  {
    if s != [] {
      SplitOnCount(s[1..], c);
      assert c in s <==> s[0] == c || c in s[1..];
    }
  }

  /** `re.sub(r'[^\w\s]', '', s)`: only word and whitespace characters kept. */
  function WordAndSpaceChars(s: string): (r: string)
    ensures |r| <= |s|
  {
    if s == [] then []
    else (if IsWordChar(s[0]) || IsSpace(s[0]) then [s[0]] else []) + WordAndSpaceChars(s[1..])
  }

  /** Length of the leading run of digits. */
  function DigitRun(s: string): (k: nat)
    ensures k <= |s|
    ensures forall i :: 0 <= i < k ==> IsDigit(s[i])
    ensures k < |s| ==> !IsDigit(s[k])
  {
    if s == [] || !IsDigit(s[0]) then 0 else 1 + DigitRun(s[1..])
  }

  /** `re.match(r'\s+\d', s)`: at least one whitespace character, then a digit. */
  predicate SpacesThenDigit(s: string) {
    var k := LeadingSpaces(s);
    0 < k < |s| && IsDigit(s[k])
  }

  /** `any(w in s for w in ws)` */
  predicate ContainsAny(s: string, ws: seq<string>)
    decreases |ws|
  {
    ws != [] && (Contains(s, ws[0]) || ContainsAny(s, ws[1..]))
  }

  lemma {:induction false} ContainsAnyMember(s: string, ws: seq<string>)
    ensures ContainsAny(s, ws) <==> exists i :: 0 <= i < |ws| && Contains(s, ws[i])
    decreases |ws|
  {
    if ws != [] {
      ContainsAnyMember(s, ws[1..]);
      assert forall i :: 1 <= i < |ws| ==> ws[i] == ws[1..][i - 1];
    }
  }

  /** `re.match(r'(w1|w2|...)\s+\d', s)`: `s` starts with one of the words,
      then whitespace, then a digit. */
  predicate WordThenNumber(s: string, ws: seq<string>)
    decreases |ws|
  {
    ws != [] && ((StartsWith(s, ws[0]) && SpacesThenDigit(s[|ws[0]|..])) || WordThenNumber(s, ws[1..]))
  }

  /** `re.match(r'(w1|w2|...)', s)`: `s` starts with one of the words. */
  predicate StartsWithAny(s: string, ws: seq<string>)
    decreases |ws|
  {
    ws != [] && (StartsWith(s, ws[0]) || StartsWithAny(s, ws[1..]))
  }

  lemma {:induction false} WordThenNumberMember(s: string, ws: seq<string>)
    ensures WordThenNumber(s, ws) <==>
      exists i :: 0 <= i < |ws| && StartsWith(s, ws[i]) && SpacesThenDigit(s[|ws[i]|..])
    decreases |ws|
  {
    if ws != [] {
      WordThenNumberMember(s, ws[1..]);
      assert forall i :: 1 <= i < |ws| ==> ws[i] == ws[1..][i - 1];
    }
  }

  lemma {:induction false} StartsWithAnyMember(s: string, ws: seq<string>)
    ensures StartsWithAny(s, ws) <==> exists i :: 0 <= i < |ws| && StartsWith(s, ws[i])
    decreases |ws|
  {
    if ws != [] {
      StartsWithAnyMember(s, ws[1..]);
      assert forall i :: 1 <= i < |ws| ==> ws[i] == ws[1..][i - 1];
    }
  }

  /** `s.endswith(suffix)` */
  predicate EndsWith(s: string, suffix: string) {
    |suffix| <= |s| && s[|s| - |suffix|..] == suffix
  }

  /** A string ending in `suffix` contains it. */
  lemma {:induction false} EndsWithContains(s: string, suffix: string)
    requires EndsWith(s, suffix)
    ensures Contains(s, suffix)
  {
    var prefix := s[..|s| - |suffix|];
    assert s == prefix + suffix;
    ContainsSuffix(prefix, suffix);
  }

  /** Joining non-empty strings: the result starts with the first one's
      first character and ends with the last one's last character. */
  lemma {:induction false} JoinEnds(ws: seq<string>, sep: string)
    requires ws != [] && forall i :: 0 <= i < |ws| ==> ws[i] != []
    ensures var r := Join(ws, sep);
      r != [] && r[0] == ws[0][0] && r[|r| - 1] == ws[|ws| - 1][|ws[|ws| - 1]| - 1]
    decreases |ws|
  {
    if |ws| > 1 {
      JoinEnds(ws[1..], sep);
      assert ws[1..][|ws[1..]| - 1] == ws[|ws| - 1];
    }
  }

  /** Appending one more string to a join. */
  lemma {:induction false} JoinSnoc(ws: seq<string>, w: string, sep: string)
    requires ws != []
    ensures Join(ws + [w], sep) == Join(ws, sep) + sep + w
    decreases |ws|
  {
    if |ws| == 1 {
      assert (ws + [w])[1..] == [w];
    } else {
      assert (ws + [w])[1..] == ws[1..] + [w];
      JoinSnoc(ws[1..], w, sep);
    }
  }

  /** A text built by appending each of `ts` followed by one space. */
  function Spaced(ts: seq<string>): string {
    if ts == [] then "" else Spaced(ts[..|ts| - 1]) + ts[|ts| - 1] + " "
  }

  lemma {:induction false} SpacedSnoc(ts: seq<string>, t: string)
    ensures Spaced(ts + [t]) == Spaced(ts) + t + " "
  {
    assert (ts + [t])[..|ts|] == ts;
  }

  /** Appending each text and a space is joining them with single spaces,
      plus one trailing space. */
  lemma {:induction false} SpacedJoin(ts: seq<string>)
    requires ts != []
    ensures Spaced(ts) == Join(ts, " ") + " "
  {
    var init := ts[..|ts| - 1];
    if init == [] {
      assert ts == [ts[0]];
    } else {
      SpacedJoin(init);
      assert init + [ts[|ts| - 1]] == ts;
      JoinSnoc(init, ts[|ts| - 1], " ");
    }
  }

  /** Stripping texts that each have no white space at either end, appended
      with a space after each, gives them joined by single spaces; the result
      is empty exactly when there are no texts. */
  lemma {:induction false} StripSpaced(ts: seq<string>)
    requires forall i :: 0 <= i < |ts| ==> ts[i] != [] && !IsSpace(ts[i][0]) && !IsSpace(ts[i][|ts[i]| - 1])
    ensures Strip(Spaced(ts)) == Join(ts, " ")
    ensures Join(ts, " ") == [] <==> ts == []
  {
    if ts != [] {
      SpacedJoin(ts);
      StripJoinSpace(ts);
      JoinEnds(ts, " ");
    }
  }

  // ---------------------------------------------------------------- regular-expression pieces

  /** `re.match(r'\s+[A-Z]', s, re.IGNORECASE)` */
  predicate SpacesThenLetter(s: string) {
    var k := LeadingSpaces(s);
    0 < k < |s| && IsLetter(s[k])
  }

  /** `re.match(r'\.?\s+[A-Z]', s, re.IGNORECASE)` */
  predicate DotSpacesLetter(s: string) {
    if s != [] && s[0] == '.' then SpacesThenLetter(s[1..]) else SpacesThenLetter(s)
  }

  /** `\d+(\.\d+)*\.?\s+[A-Z]` with `groups` dot-separated numbers. */
  predicate NumberedHeading(s: string, groups: nat)
    decreases groups
  {
    var k := DigitRun(s);
    k > 0 &&
    if groups <= 1 then DotSpacesLetter(s[k..])
    else k < |s| && s[k] == '.' && NumberedHeading(s[k + 1..], groups - 1)
  }

  /** `^(chapter|section|part)\s+\d+` under IGNORECASE. */
  predicate ChapterHeading(s: string) {
    var t := Lower(s);
    WordThenNumber(t, ["chapter", "section", "part"])
  }

  // ---------------------------------------------------------------- capitalised words

  function CapitalizeAll(ws: seq<string>): seq<string> {
    seq(|ws|, i requires 0 <= i < |ws| => Capitalize(ws[i]))
  }

  /** Neither an underscore nor a hyphen. */
  predicate NoSeparator(s: string) {
    '_' !in s && '-' !in s
  }

  lemma {:induction false} CapitalizeAllWords(ws: seq<string>)
    requires forall w | w in ws :: w != [] && NoSpace(w) && NoSeparator(w)
    ensures forall w | w in CapitalizeAll(ws) :: w != [] && NoSpace(w) && NoSeparator(w)
  {
    forall w | w in CapitalizeAll(ws) ensures w != [] && NoSpace(w) && NoSeparator(w) {
      var i :| 0 <= i < |ws| && CapitalizeAll(ws)[i] == w;
      var v := ws[i];
      assert v in ws;
      CapitalizeChars(v);
      forall k | 0 <= k < |w| ensures !IsSpace(w[k]) && w[k] != '_' && w[k] != '-' {
        assert v[k] in v;
      }
    }
  }

  /** The joined, capitalised words of a name holding no '_' or '-'. */
  lemma {:induction false} JoinedWordsShape(title: string)
    requires NoSeparator(title)
    ensures var r := Join(CapitalizeAll(Words(title)), " ");
      NoSeparator(r) && SingleSpaced(r)
  {
    var ws := Words(title);
    WordsChars(title);
    assert forall w | w in ws :: NoSeparator(w);
    CapitalizeAllWords(ws);
    var cs := CapitalizeAll(ws);
    JoinWords(cs);
    var joined := Join(cs, " ");
    forall c | c in joined ensures c != '_' && c != '-' {
      if c != ' ' {
        var w :| w in cs && c in w;
      }
    }
  }

  /** The title both engines fall back on for an empty file name. */
  const Untitled := "Untitled Document"

  lemma {:induction false} UntitledShape()
    ensures Untitled != "" && NoSeparator(Untitled) && SingleSpaced(Untitled)
  {
    forall i | 0 <= i < |Untitled| && IsSpace(Untitled[i])
      ensures Untitled[i] == ' ' && 0 < i < |Untitled| - 1 && !IsSpace(Untitled[i + 1])
    {
      assert i == 8;
    }
  }
}
