/** The parts of Python's `str` that the pipeline relies on, on `seq<char>`:
    whitespace, `lower()`, `strip()`, `in` on strings, `split()`,
    `split('\n')` / `'\n'.join`, and decimal digits. */
module Text {
  import opened Wrappers

  /** The characters for which Python's `str.isspace()` holds; these are also
      the characters `\s` matches in a `str` regular expression and the ones
      `strip()` and `split()` remove. */
  predicate IsSpace(c: char) {
    || c == ' '
    || ('\t' <= c <= '\r')
    || ('\U{1C}' <= c <= '\U{1F}')
    || c == '\U{85}' || c == '\U{A0}' || c == '\U{1680}'
    || ('\U{2000}' <= c <= '\U{200A}')
    || c == '\U{2028}' || c == '\U{2029}' || c == '\U{202F}' || c == '\U{205F}' || c == '\U{3000}'
  }

  predicate NoSpace(s: string) {
    forall i :: 0 <= i < |s| ==> !IsSpace(s[i])
  }

  predicate AllSpace(s: string) {
    forall i :: 0 <= i < |s| ==> IsSpace(s[i])
  }

  /** `str.lower()` on the Basic Latin and Latin-1 letters (which covers the
      Portuguese accented capitals); every other character is kept. */
  function LowerChar(c: char): (r: char)
    ensures IsSpace(r) <==> IsSpace(c)
  {
    if 'A' <= c <= 'Z' || ('\U{C0}' <= c <= '\U{DE}' && c != '\U{D7}') then (c as int + 32) as char else c
  }

  function Lower(s: string): (r: string)
    ensures |r| == |s|
    ensures forall i :: 0 <= i < |s| ==> r[i] == LowerChar(s[i])
  {
    seq(|s|, i requires 0 <= i < |s| => LowerChar(s[i]))
  }

  lemma LowerCharIdempotent(c: char)
    ensures LowerChar(LowerChar(c)) == LowerChar(c)
  {
  }

  lemma LowerIdempotent(s: string)
    ensures Lower(Lower(s)) == Lower(s)
  {
    forall i | 0 <= i < |s| ensures Lower(Lower(s))[i] == Lower(s)[i] {
      LowerCharIdempotent(s[i]);
    }
  }

  lemma LowerSlice(s: string, i: nat, j: nat)
    requires i <= j <= |s|
    ensures Lower(s[i..j]) == Lower(s)[i..j]
  {
  }

  lemma LowerAppend(a: string, b: string)
    ensures Lower(a + b) == Lower(a) + Lower(b)
  {
  }

  /** `lstrip()`. */
  function TrimStart(s: string): (r: string)
    ensures |r| <= |s| && r == s[|s| - |r|..]
    ensures r != [] ==> !IsSpace(r[0])
    ensures AllSpace(s[..|s| - |r|])
  {
    if s != [] && IsSpace(s[0]) then
      var r := TrimStart(s[1..]);
      TrimStartStep(s, r);
      r
    else s
  }

  lemma TrimStartStep(s: string, r: string)
    requires s != [] && IsSpace(s[0]) && |r| <= |s| - 1
    requires r == s[1..][|s| - 1 - |r|..] && AllSpace(s[1..][..|s| - 1 - |r|])
    ensures r == s[|s| - |r|..] && AllSpace(s[..|s| - |r|])
  {
    assert s[1..][|s| - 1 - |r|..] == s[|s| - |r|..];
    assert s[..|s| - |r|] == [s[0]] + s[1..][..|s| - 1 - |r|];
  }

  /** `rstrip()`. */
  function TrimEnd(s: string): (r: string)
    ensures |r| <= |s| && r == s[..|r|]
    ensures r != [] ==> !IsSpace(r[|r| - 1])
    ensures AllSpace(s[|r|..])
  {
    if s != [] && IsSpace(s[|s| - 1]) then
      var r := TrimEnd(s[..|s| - 1]);
      TrimEndStep(s, r);
      r
    else s
  }

  lemma TrimEndStep(s: string, r: string)
    requires s != [] && IsSpace(s[|s| - 1]) && |r| <= |s| - 1
    requires r == s[..|s| - 1][..|r|] && AllSpace(s[..|s| - 1][|r|..])
    ensures r == s[..|r|] && AllSpace(s[|r|..])
  {
    assert s[..|s| - 1][..|r|] == s[..|r|];
    assert s[|r|..] == s[..|s| - 1][|r|..] + [s[|s| - 1]];
  }

  /** Where `strip()` starts its slice: the number of leading whitespace characters. */
  function StripStart(s: string): (n: nat)
    ensures n <= |s| && AllSpace(s[..n]) && (n < |s| ==> !IsSpace(s[n]))
  {
    |s| - |TrimStart(s)|
  }

  lemma HeadTail<T>(s: seq<T>)
    requires s != []
    ensures [s[0]] + s[1..] == s
  {
  }

  lemma AppendAssoc<T>(a: seq<T>, b: seq<T>, c: seq<T>)
    ensures a + b + c == a + (b + c)
  {
  }

  /** The leading whitespace of `a + b` is exactly `a` when `a` is all
      whitespace and `b` does not start with any. */
  lemma {:induction false} StripStartPrefix(a: string, b: string)
    requires AllSpace(a) && (b == [] || !IsSpace(b[0]))
    ensures StripStart(a + b) == |a|
  {
    if a == [] {
      assert a + b == b;
    } else {
      assert (a + b)[1..] == a[1..] + b;
      StripStartPrefix(a[1..], b);
    }
  }

  /** `strip()`: the result is a slice of `s` that neither starts nor ends with
      whitespace, and only whitespace lies outside it. */
  function Strip(s: string): (r: string)
    ensures r != [] ==> !IsSpace(r[0]) && !IsSpace(r[|r| - 1])
    ensures StripStart(s) + |r| <= |s| && r == s[StripStart(s)..StripStart(s) + |r|]
    ensures AllSpace(s[..StripStart(s)]) && AllSpace(s[StripStart(s) + |r|..])
  {
    var t := TrimStart(s);
    var r := TrimEnd(t);
    SliceOfSlice(s, |s| - |t|, r);
    r
  }

  /** A prefix of a suffix is a slice, and what follows it is the rest of the suffix. */
  lemma SliceOfSlice(s: string, k: nat, r: string)
    requires k <= |s| && |r| <= |s| - k && r == s[k..][..|r|]
    ensures r == s[k..k + |r|] && s[k + |r|..] == s[k..][|r|..]
    ensures r != [] ==> r[0] == s[k]
  {
  }

  predicate IsStripped(s: string) {
    s != [] ==> !IsSpace(s[0]) && !IsSpace(s[|s| - 1])
  }

  lemma StripOfStripped(s: string)
    requires IsStripped(s)
    ensures Strip(s) == s
  {
  }

  lemma StripIdempotent(s: string)
    ensures Strip(Strip(s)) == Strip(s)
  {
    StripOfStripped(Strip(s));
  }

  /** Lowering a stripped string keeps it stripped, and the other way round:
      `lower()` and `strip()` commute. */
  lemma StripLower(s: string)
    ensures Strip(Lower(s)) == Lower(Strip(s))
  {
    var t, lt := TrimStart(s), TrimStart(Lower(s));
    TrimStartLower(s);
    TrimEndLower(t);
  }

  lemma {:induction false} TrimStartLower(s: string)
    ensures TrimStart(Lower(s)) == Lower(TrimStart(s))
    decreases |s|
  {
    if s != [] && IsSpace(s[0]) {
      assert Lower(s)[1..] == Lower(s[1..]);
      TrimStartLower(s[1..]);
    }
  }

  lemma {:induction false} TrimEndLower(s: string)
    ensures TrimEnd(Lower(s)) == Lower(TrimEnd(s))
    decreases |s|
  {
    if s != [] && IsSpace(s[|s| - 1]) {
      assert Lower(s)[..|s| - 1] == Lower(s[..|s| - 1]);
      TrimEndLower(s[..|s| - 1]);
    }
  }

  /** `t in s` for strings: `t` occurs in `s` as a contiguous substring. */
  predicate OccursAt(s: string, i: nat, t: string) {
    i + |t| <= |s| && s[i..i + |t|] == t
  }

  predicate Contains(s: string, t: string) {
    exists i :: 0 <= i <= |s| - |t| && OccursAt(s, i, t)
  }

  lemma ContainsAppend(a: string, t: string, b: string)
    ensures Contains(a + t + b, t)
  {
    assert OccursAt(a + t + b, |a|, t);
  }

  /** The length of the longest whitespace-free prefix of `s`. */
  function WordLen(s: string): (n: nat)
    ensures n <= |s| && NoSpace(s[..n]) && (n < |s| ==> IsSpace(s[n]))
  {
    if s == [] || IsSpace(s[0]) then 0 else 1 + WordLen(s[1..])
  }

  /** `str.split()` with no argument: the maximal runs of non-whitespace
      characters, in order. */
  function SplitWords(s: string): (r: seq<string>)
    ensures forall k :: 0 <= k < |r| ==> r[k] != [] && NoSpace(r[k])
    decreases |s|
  {
    var t := TrimStart(s);
    if t == [] then []
    else
      var n := WordLen(t);
      var rest := SplitWords(t[n..]);
      WordsCons(t[..n], rest);
      [t[..n]] + rest
  }

  lemma {:induction false} SplitWordsJoined(a: string, b: string)
    requires a != [] && NoSpace(a)
    requires b == [] || IsSpace(b[0])
    ensures SplitWords(a + b) == [a] + SplitWords(b)
  {
    var s := a + b;
    assert TrimStart(s) == s;
    WordLenJoined(a, b);
    assert s[..|a|] == a && s[|a|..] == b;
  }

  /** Words with whitespace around and between them:
      `seps[0] + ws[0] + seps[1] + … + ws[n - 1] + seps[n]`. */
  function Spaced(ws: seq<string>, seps: seq<string>): string
    requires |seps| == |ws| + 1
  {
    if ws == [] then seps[0] else seps[0] + ws[0] + Spaced(ws[1..], seps[1..])
  }

  /** Non-empty words without whitespace. */
  predicate Words(ws: seq<string>) {
    forall k :: 0 <= k < |ws| ==> ws[k] != [] && NoSpace(ws[k])
  }

  lemma WordsCons(w: string, ws: seq<string>)
    requires w != [] && NoSpace(w) && Words(ws)
    ensures Words([w] + ws)
  {
    assert forall k :: 0 < k < |ws| + 1 ==> ([w] + ws)[k] == ws[k - 1];
  }

  /** Whitespace separators: all whitespace, and non-empty between two words. */
  predicate Separators(seps: seq<string>) {
    forall k :: 0 <= k < |seps| ==> AllSpace(seps[k]) && (0 < k < |seps| - 1 ==> seps[k] != [])
  }

  /** Leading whitespace does not change the split. */
  lemma SplitWordsLeading(a: string, b: string)
    requires AllSpace(a) && (b == [] || !IsSpace(b[0]))
    ensures SplitWords(a + b) == SplitWords(b)
  {
    StripStartPrefix(a, b);
    assert TrimStart(a + b) == b by {
      assert (a + b)[|a|..] == b;
    }
    assert TrimStart(b) == b;
  }

  /** After the first word, the rest of a spaced text is empty or starts
      with whitespace. */
  lemma SpacedTail(ws: seq<string>, seps: seq<string>)
    requires |seps| == |ws| + 1 && |ws| >= 1 && Words(ws) && Separators(seps)
    ensures var rest := Spaced(ws[1..], seps[1..]);
            && Spaced(ws, seps) == seps[0] + (ws[0] + rest)
            && (rest == [] || IsSpace(rest[0]))
            && Words(ws[1..]) && Separators(seps[1..])
            && ws[0] != [] && NoSpace(ws[0]) && AllSpace(seps[0])
  {
    var ws', seps' := ws[1..], seps[1..];
    var rest := Spaced(ws', seps');
    if ws' == [] {
      assert rest == seps'[0] && AllSpace(seps[1]);
    } else {
      assert seps[1] != [] && AllSpace(seps[1]);
      assert rest == seps'[0] + ws'[0] + Spaced(ws'[1..], seps'[1..]);
      assert rest[0] == seps[1][0];
    }
    assert Words(ws') by {
      forall k | 0 <= k < |ws'|
        ensures ws'[k] != [] && NoSpace(ws'[k])
      {
        assert ws'[k] == ws[k + 1];
      }
    }
    assert Separators(seps') by {
      forall k | 0 <= k < |seps'|
        ensures AllSpace(seps'[k]) && (0 < k < |seps'| - 1 ==> seps'[k] != [])
      {
        assert seps'[k] == seps[k + 1];
      }
    }
  }

  /** A blank text has no words. */
  lemma SplitWordsAllSpace(s: string)
    requires AllSpace(s)
    ensures SplitWords(s) == []
  {
    var t := TrimStart(s);
    if t != [] {
      assert t[0] == s[|s| - |t|];
    }
  }

  /** Any words joined by whitespace split back into exactly those words. */
  lemma {:induction false} SplitWordsSpaced(ws: seq<string>, seps: seq<string>)
    requires |seps| == |ws| + 1 && Words(ws) && Separators(seps)
    ensures SplitWords(Spaced(ws, seps)) == ws
  {
    if ws == [] {
      SplitWordsAllSpace(seps[0]);
    } else {
      SpacedTail(ws, seps);
      SplitWordsStep(seps[0], ws[0], Spaced(ws[1..], seps[1..]));
      SplitWordsSpaced(ws[1..], seps[1..]);
      HeadTail(ws);
    }
  }

  /** Leading whitespace, then a word, then whitespace or nothing: `split()`
      yields the word and then the words of the rest. */
  lemma SplitWordsStep(lead: string, w: string, rest: string)
    requires AllSpace(lead) && w != [] && NoSpace(w) && (rest == [] || IsSpace(rest[0]))
    ensures SplitWords(lead + (w + rest)) == [w] + SplitWords(rest)
  {
    SplitWordsLeading(lead, w + rest);
    SplitWordsJoined(w, rest);
  }

  /** The whitespace runs around the words of `split()`: the leading run,
      then the run after each word. */
  function Gaps(s: string): (r: seq<string>)
    ensures |r| == |SplitWords(s)| + 1
    decreases |s|
  {
    var t := TrimStart(s);
    var lead := s[..|s| - |t|];
    if t == [] then [lead] else [lead] + Gaps(t[WordLen(t)..])
  }

  /** The gaps are whitespace, and non-empty between two words. */
  lemma {:induction false} GapsSeparators(s: string)
    ensures Separators(Gaps(s))
    decreases |s|
  {
    var t := TrimStart(s);
    if t != [] {
      var rest := t[WordLen(t)..];
      assert rest == [] || IsSpace(rest[0]);
      var g := Gaps(rest);
      assert Separators(g) by {
        GapsSeparators(rest);
      }
      assert |g| >= 2 ==> g[0] != [] by {
        GapsHead(rest);
      }
      assert Gaps(s) == [s[..|s| - |t|]] + g;
      SeparatorsCons(s[..|s| - |t|], g);
    }
  }

  /** After a word, the next gap is non-empty when another word follows. */
  lemma GapsHead(s: string)
    requires s == [] || IsSpace(s[0])
    ensures |Gaps(s)| >= 2 ==> Gaps(s)[0] != []
  {
    if s != [] {
      var t := TrimStart(s);
      assert t != s;
      assert Gaps(s)[0] == s[..|s| - |t|];
    }
  }

  /** A blank in front of separators that start non-empty (when there is a
      word after them) keeps them separators. */
  lemma SeparatorsCons(lead: string, seps: seq<string>)
    requires AllSpace(lead) && Separators(seps) && (|seps| >= 2 ==> seps[0] != [])
    ensures Separators([lead] + seps)
  {
    var r := [lead] + seps;
    forall k | 0 < k < |r|
      ensures AllSpace(r[k]) && (k < |r| - 1 ==> r[k] != [])
    {
      assert r[k] == seps[k - 1];
    }
  }

  /** The text is its words, each between its gaps. */
  lemma {:induction false} GapsSpaced(s: string)
    ensures Spaced(SplitWords(s), Gaps(s)) == s
    decreases |s|
  {
    var t := TrimStart(s);
    var lead := s[..|s| - |t|];
    if t == [] {
      assert s == lead;
    } else {
      var n := WordLen(t);
      var rest := t[n..];
      assert SplitWords(s) == [t[..n]] + SplitWords(rest) by {
        assert n >= 1;
      }
      GapsSpaced(rest);
      SpacedCons(t[..n], SplitWords(rest), lead, Gaps(rest));
      SliceThree(s, |s| - |t|, n);
    }
  }

  /** Every text is its words joined by whitespace. */
  lemma SplitWordsSeparated(s: string)
    ensures exists seps :: |seps| == |SplitWords(s)| + 1 && Separators(seps) && Spaced(SplitWords(s), seps) == s
  {
    GapsSeparators(s);
    GapsSpaced(s);
  }

  lemma SpacedCons(w: string, ws: seq<string>, lead: string, seps: seq<string>)
    requires |seps| == |ws| + 1
    ensures Spaced([w] + ws, [lead] + seps) == lead + w + Spaced(ws, seps)
  {
    assert ([w] + ws)[1..] == ws && ([lead] + seps)[1..] == seps;
  }

  lemma SliceThree(s: string, k: nat, n: nat)
    requires k + n <= |s|
    ensures s == s[..k] + s[k..][..n] + s[k..][n..]
  {
    assert s[k..] == s[k..][..n] + s[k..][n..];
    assert s == s[..k] + s[k..];
  }

  /** Each word occurs in the text it was split from. */
  lemma SplitWordsOccur(s: string)
    ensures forall k :: 0 <= k < |SplitWords(s)| ==> Contains(s, SplitWords(s)[k])
  {
    GapsSpaced(s);
    forall k | 0 <= k < |SplitWords(s)|
      ensures Contains(s, SplitWords(s)[k])
    {
      SpacedContains(SplitWords(s), Gaps(s), k);
    }
  }

  lemma {:induction false} SpacedContains(ws: seq<string>, seps: seq<string>, i: nat)
    requires |seps| == |ws| + 1 && i < |ws|
    ensures Contains(Spaced(ws, seps), ws[i])
  {
    var rest := Spaced(ws[1..], seps[1..]);
    assert Spaced(ws, seps) == seps[0] + ws[0] + rest;
    if i == 0 {
      ContainsAppend(seps[0], ws[0], rest);
    } else {
      assert ws[1..][i - 1] == ws[i];
      SpacedContains(ws[1..], seps[1..], i - 1);
      ContainsAfter(seps[0] + ws[0], rest, ws[i]);
    }
  }

  lemma ContainsAfter(a: string, b: string, t: string)
    requires Contains(b, t)
    ensures Contains(a + b, t)
  {
    var i :| 0 <= i <= |b| - |t| && OccursAt(b, i, t);
    assert (a + b)[|a| + i..|a| + i + |t|] == b[i..i + |t|];
    assert OccursAt(a + b, |a| + i, t);
  }

  /** `split()` finds no word exactly in a blank text. */
  lemma SplitWordsBlank(s: string)
    ensures SplitWords(s) == [] <==> AllSpace(s)
  {
    if AllSpace(s) {
      SplitWordsSpaced([], [s]);
      assert Spaced([], [s]) == s;
    } else {
      SplitWordsSeparated(s);
    }
  }

  lemma {:induction false} WordLenJoined(a: string, b: string)
    requires NoSpace(a)
    requires b == [] || IsSpace(b[0])
    ensures WordLen(a + b) == |a|
  {
    if a == [] {
      assert a + b == b;
    } else {
      assert (a + b)[1..] == a[1..] + b;
      WordLenJoined(a[1..], b);
    }
  }

  function IndexOf(s: string, c: char): (r: Option<nat>)
    ensures r.None? <==> c !in s
    ensures r.Some? ==> r.value < |s| && s[r.value] == c && c !in s[..r.value]
  {
    if s == [] then None
    else if s[0] == c then Some(0)
    else match IndexOf(s[1..], c)
      case None => None
      case Some(i) => assert s[..i + 1] == [s[0]] + s[1..][..i]; Some(i + 1)
  }

  function LastIndexOf(s: string, c: char): (r: Option<nat>)
    ensures r.None? <==> c !in s
    ensures r.Some? ==> r.value < |s| && s[r.value] == c && c !in s[r.value + 1..]
  {
    if s == [] then None
    else if s[|s| - 1] == c then Some(|s| - 1)
    else match LastIndexOf(s[..|s| - 1], c)
      case None => assert s == s[..|s| - 1] + [s[|s| - 1]]; None
      case Some(i) => assert s[i + 1..] == s[..|s| - 1][i + 1..] + [s[|s| - 1]]; Some(i)
  }

  /** `s.split('\n')`: at least one piece, none containing a newline. */
  function SplitLines(s: string): (r: seq<string>)
    ensures |r| >= 1
    ensures forall k :: 0 <= k < |r| ==> '\n' !in r[k]
    decreases |s|
  {
    match IndexOf(s, '\n')
    case None => [s]
    case Some(i) => [s[..i]] + SplitLines(s[i + 1..])
  }

  /** `'\n'.join(lines)`. */
  function JoinLines(lines: seq<string>): string {
    if |lines| == 0 then ""
    else if |lines| == 1 then lines[0]
    else lines[0] + "\n" + JoinLines(lines[1..])
  }

  lemma {:induction false} JoinSplitLines(s: string)
    ensures JoinLines(SplitLines(s)) == s
    decreases |s|
  {
    match IndexOf(s, '\n')
    case None =>
    case Some(i) =>
      var rest := SplitLines(s[i + 1..]);
      assert SplitLines(s) == [s[..i]] + rest;
      assert JoinLines(SplitLines(s)) == s[..i] + "\n" + JoinLines(rest);
      JoinSplitLines(s[i + 1..]);
      assert s == s[..i] + "\n" + s[i + 1..];
  }

  function CountChar(s: string, c: char): nat {
    if s == [] then 0 else (if s[0] == c then 1 else 0) + CountChar(s[1..], c)
  }

  lemma {:induction false} CountCharAppend(a: string, b: string, c: char)
    ensures CountChar(a + b, c) == CountChar(a, c) + CountChar(b, c)
  {
    if a == [] {
      assert a + b == b;
    } else {
      assert (a + b)[1..] == a[1..] + b;
      CountCharAppend(a[1..], b, c);
    }
  }

  lemma {:induction false} CountCharAbsent(s: string, c: char)
    requires c !in s
    ensures CountChar(s, c) == 0
  {
    if s != [] { CountCharAbsent(s[1..], c); }
  }

  predicate IsSuffix(t: string, s: string) {
    |t| <= |s| && s[|s| - |t|..] == t
  }

  /** Joining a non-empty tail of a list of lines gives a suffix of the joined
      list, and the number of newlines is one less than the number of lines. */
  lemma {:induction false} JoinLinesTail(lines: seq<string>, k: nat)
    requires k < |lines|
    ensures IsSuffix(JoinLines(lines[k..]), JoinLines(lines))
    ensures k > 0 ==> var t, s := JoinLines(lines[k..]), JoinLines(lines);
                      |t| < |s| && s[|s| - |t| - 1] == '\n'
  {
    if k > 0 {
      var s, u, t := JoinLines(lines), JoinLines(lines[1..]), JoinLines(lines[k..]);
      assert lines[1..][k - 1..] == lines[k..];
      JoinLinesTail(lines[1..], k - 1);
      JoinLinesRest(lines);
      SuffixTrans(t, u, s);
    }
  }

  /** Dropping the first line drops it and the newline after it. */
  lemma JoinLinesRest(lines: seq<string>)
    requires |lines| >= 2
    ensures var s, u := JoinLines(lines), JoinLines(lines[1..]);
      IsSuffix(u, s) && s[|s| - |u| - 1] == '\n'
  {
    var s, u := JoinLines(lines), JoinLines(lines[1..]);
    assert s == lines[0] + "\n" + u;
  }

  lemma SuffixTrans(t: string, u: string, s: string)
    requires IsSuffix(t, u) && IsSuffix(u, s)
    ensures IsSuffix(t, s)
    ensures |t| < |u| ==> s[|s| - |t| - 1] == u[|u| - |t| - 1]
  {
    assert s[|s| - |t|..] == s[|s| - |u|..][|u| - |t|..];
  }

  lemma {:induction false} JoinLinesNewlines(lines: seq<string>)
    requires |lines| >= 1
    requires forall k :: 0 <= k < |lines| ==> '\n' !in lines[k]
    ensures CountChar(JoinLines(lines), '\n') == |lines| - 1
  {
    CountCharAbsent(lines[0], '\n');
    if |lines| > 1 {
      JoinLinesNewlines(lines[1..]);
      CountCharAppend(lines[0], "\n", '\n');
      CountCharAppend(lines[0] + "\n", JoinLines(lines[1..]), '\n');
    }
  }

  predicate IsDigit(c: char) {
    '0' <= c <= '9'
  }

  predicate AllDigits(s: string) {
    forall i :: 0 <= i < |s| ==> IsDigit(s[i])
  }

  /** `int(s)` for a string of ASCII digits. */
  function DigitsValue(s: string): nat
    requires AllDigits(s)
  {
    if s == [] then 0 else DigitsValue(s[..|s| - 1]) * 10 + (s[|s| - 1] as int - '0' as int)
  }

  function DigitChar(d: nat): (c: char)
    requires d < 10
    ensures IsDigit(c) && c as int - '0' as int == d
  {
    ('0' as int + d) as char
  }

  /** `f"{n:02d}"` for `n < 100`. */
  function Pad2(n: nat): (r: string)
    requires n < 100
    ensures |r| == 2 && AllDigits(r) && DigitsValue(r) == n
  {
    var r := [DigitChar(n / 10), DigitChar(n % 10)];
    assert r[..1] == [DigitChar(n / 10)] && r[..1][..0] == [];
    assert DigitsValue(r[..1]) == n / 10;
    r
  }

  /** `int(s)` of a concatenation: the digits of `a` are shifted left by the
      length of `b`. */
  function Pow10(n: nat): nat {
    if n == 0 then 1 else 10 * Pow10(n - 1)
  }

  lemma {:induction false} DigitsValueAppend(a: string, b: string)
    requires AllDigits(a) && AllDigits(b)
    ensures AllDigits(a + b)
    ensures DigitsValue(a + b) == DigitsValue(a) * Pow10(|b|) + DigitsValue(b)
    decreases |b|
  {
    if b == [] {
      assert a + b == a;
    } else {
      var b', l := b[..|b| - 1], b[|b| - 1] as int - '0' as int;
      assert (a + b)[..|a + b| - 1] == a + b';
      DigitsValueAppend(a, b');
      var x, p := DigitsValue(a), Pow10(|b'|);
      calc {
        DigitsValue(a + b);
        DigitsValue(a + b') * 10 + l;
        (x * p + DigitsValue(b')) * 10 + l;
        { ShiftDigit(x, p, DigitsValue(b')); }
        x * (p * 10) + (DigitsValue(b') * 10 + l);
        x * Pow10(|b|) + DigitsValue(b);
      }
    }
  }

  lemma ShiftDigit(x: nat, p: nat, q: nat)
    ensures (x * p + q) * 10 == x * (p * 10) + q * 10
  {
  }

  /** `s.replace(c, '')` for a single character `c`. */
  function RemoveChar(s: string, c: char): (r: string)
    ensures c !in r && |r| <= |s|
  {
    if s == [] then []
    else
      assert s == [s[0]] + s[1..];
      if s[0] == c then RemoveChar(s[1..], c)
      else [s[0]] + RemoveChar(s[1..], c)
  }

  /** Removing `c` keeps every other character, as often as it occurs. */
  lemma {:induction false} RemoveCharMultiset(s: string, c: char)
    ensures multiset(RemoveChar(s, c)) == multiset(s)[c := 0]
  {
    if s != [] {
      RemoveCharMultiset(s[1..], c);
      assert s == [s[0]] + s[1..];
    }
  }

  lemma {:induction false} RemoveCharAppend(a: string, b: string, c: char)
    ensures RemoveChar(a + b, c) == RemoveChar(a, c) + RemoveChar(b, c)
  {
    if a == [] {
      assert a + b == b;
    } else {
      assert (a + b)[1..] == a[1..] + b;
      RemoveCharAppend(a[1..], b, c);
    }
  }

  lemma {:induction false} RemoveCharAbsent(s: string, c: char)
    requires c !in s
    ensures RemoveChar(s, c) == s
  {
    if s != [] {
      RemoveCharAbsent(s[1..], c);
    }
  }

  /** Removing a whitespace character from a stripped string leaves it
      stripped: its first and last characters are not that character. */
  lemma RemoveCharStripped(s: string, c: char)
    requires IsStripped(s) && IsSpace(c)
    ensures IsStripped(RemoveChar(s, c))
  {
    if s != [] {
      var n := |s|;
      assert s == s[..n - 1] + [s[n - 1]];
      RemoveCharAppend(s[..n - 1], [s[n - 1]], c);
      assert RemoveChar([s[n - 1]], c) == [s[n - 1]];
    }
  }
}
