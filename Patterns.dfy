/** The few regular-expression shapes the headnote tagging searches for, all
    compiled with `re.IGNORECASE`: character alternatives (`[ÇC]`, or a single
    literal letter), a whitespace run `\s+`, and a word boundary `\b`. */
module Patterns {
  import opened Text

  datatype Atom =
    | Chars(alternatives: string)   // one character out of these, ignoring case
    | Spaces                        // `\s+`
    | WordBoundary                  // `\b`

  type Pattern = seq<Atom>

  /** `\w` on `str`: letters, digits and `_`; outside ASCII the Latin-1
      letters, superscript digits and vulgar fractions. */
  predicate IsWordChar(c: char) {
    || ('a' <= c <= 'z') || ('A' <= c <= 'Z') || ('0' <= c <= '9') || c == '_'
    || c == 'ª' || c == '²' || c == '³' || c == 'µ'
    || c == '¹' || c == 'º' || ('¼' <= c <= '¾')
    || ('À' <= c <= 'Ö') || ('Ø' <= c <= 'ö') || ('ø' <= c <= 'ÿ')
  }

  /** `\b` between positions `i - 1` and `i`. */
  predicate AtBoundary(s: string, i: nat)
    requires i <= |s|
  {
    (i > 0 && IsWordChar(s[i - 1])) != (i < |s| && IsWordChar(s[i]))
  }

  predicate CharMatches(c: char, alternatives: string) {
    LowerChar(c) in Lower(alternatives)
  }

  /** The pattern matches `s` starting at position `i` (and ending anywhere). */
  predicate MatchesAt(p: Pattern, s: string, i: nat)
    requires i <= |s|
    decreases |p|, |s| - i
  {
    if p == [] then true
    else match p[0]
      case Chars(alts) => i < |s| && CharMatches(s[i], alts) && MatchesAt(p[1..], s, i + 1)
      case WordBoundary => AtBoundary(s, i) && MatchesAt(p[1..], s, i)
      case Spaces => exists j :: i < j <= |s| && AllSpace(s[i..j]) && MatchesAt(p[1..], s, j)
  }

  /** `re.search(p, s, re.IGNORECASE) is not None`. */
  predicate Search(p: Pattern, s: string) {
    exists i :: 0 <= i <= |s| && MatchesAt(p, s, i)
  }

  /** A literal word, letter by letter. */
  function Word(w: string): (p: Pattern)
    ensures |p| == |w|
    ensures forall k :: 0 <= k < |w| ==> p[k] == Chars([w[k]])
  {
    seq(|w|, k requires 0 <= k < |w| => Chars([w[k]]))
  }

  /** A pattern starting with a character class, unfolded once. */
  lemma MatchesAtChars(alts: string, p: Pattern, s: string, i: nat)
    requires i <= |s|
    ensures MatchesAt([Chars(alts)] + p, s, i)
        <==> i < |s| && CharMatches(s[i], alts) && MatchesAt(p, s, i + 1)
  {
    assert ([Chars(alts)] + p)[1..] == p;
  }

  lemma CharMatchesLetter(c: char, d: char)
    ensures CharMatches(c, [d]) <==> LowerChar(c) == LowerChar(d)
  {
    assert Lower([d]) == [LowerChar(d)];
  }

  /** The text spells `w` from position `i` on, ignoring case. */
  predicate SpellsAt(s: string, i: nat, w: string) {
    i + |w| <= |s| && forall k :: 0 <= k < |w| ==> LowerChar(s[i + k]) == LowerChar(w[k])
  }

  lemma SpellsAtCons(s: string, i: nat, w: string)
    requires w != []
    ensures SpellsAt(s, i, w)
        <==> i < |s| && LowerChar(s[i]) == LowerChar(w[0]) && SpellsAt(s, i + 1, w[1..])
  {
    if i < |s| && LowerChar(s[i]) == LowerChar(w[0]) && SpellsAt(s, i + 1, w[1..]) {
      forall k | 0 <= k < |w|
        ensures LowerChar(s[i + k]) == LowerChar(w[k])
      {
        if k > 0 {
          assert w[1..][k - 1] == w[k];
        }
      }
    }
    if SpellsAt(s, i, w) {
      forall k | 0 <= k < |w[1..]|
        ensures LowerChar(s[i + 1 + k]) == LowerChar(w[1..][k])
      {
        assert w[1..][k] == w[k + 1];
      }
    }
  }

  /** A literal word matches exactly where the text spells it, ignoring case,
      and the rest of the pattern then continues after it. */
  lemma {:induction false} WordMatchesAt(w: string, rest: Pattern, s: string, i: nat)
    requires i <= |s|
    ensures MatchesAt(Word(w) + rest, s, i) <==> SpellsAt(s, i, w) && MatchesAt(rest, s, i + |w|)
    decreases |w|
  {
    if w == [] {
      assert Word(w) + rest == rest;
    } else {
      assert Word(w) + rest == [Chars([w[0]])] + (Word(w[1..]) + rest);
      MatchesAtChars([w[0]], Word(w[1..]) + rest, s, i);
      SpellsAtCons(s, i, w);
      if i < |s| {
        CharMatchesLetter(s[i], w[0]);
        WordMatchesAt(w[1..], rest, s, i + 1);
      }
    }
  }

  /** `\bW\b` for a word W made of word characters. */
  function WholeWord(w: string): (p: Pattern)
    ensures |p| == |w| + 2
  {
    [WordBoundary] + Word(w) + [WordBoundary]
  }

  /** The whole-word search finds exactly the occurrences of the word, in any
      case, with no word character immediately before or after. */
  lemma WholeWordMatchesAt(w: string, s: string, i: nat)
    requires w != [] && forall k :: 0 <= k < |w| ==> IsWordChar(w[k])
    requires i <= |s|
    ensures MatchesAt(WholeWord(w), s, i)
        <==> && SpellsAt(s, i, w)
             && (i == 0 || !IsWordChar(s[i - 1]))
             && (i + |w| == |s| || !IsWordChar(s[i + |w|]))
  {
    var p := WholeWord(w);
    assert p[0] == WordBoundary;
    assert p[1..] == Word(w) + [WordBoundary];
    WordMatchesAt(w, [WordBoundary], s, i);
    if SpellsAt(s, i, w) {
      assert MatchesAt([WordBoundary], s, i + |w|) <==> AtBoundary(s, i + |w|) by {
        assert [WordBoundary][1..] == [];
      }
      assert LowerChar(s[i + 0]) == LowerChar(w[0]);
      LowerWordChar(s[i], w[0]);
      var last := |w| - 1;
      assert LowerChar(s[i + last]) == LowerChar(w[last]);
      LowerWordChar(s[i + last], w[last]);
    }
  }

  lemma LowerWordChar(c: char, d: char)
    requires IsWordChar(d) && LowerChar(c) == LowerChar(d)
    ensures IsWordChar(c)
  {
  }

  // The headnote patterns

  /** `\bICMS\b`, `\bIPVA\b` and `\bITCD\b`. */
  function TaxPattern(tax: string): Pattern {
    WholeWord(tax)
  }

  /** `BENEF[IÍ]CIO\s+FISCAL`. */
  const BeneficioFiscal: Pattern :=
    Word("BENEF") + [Chars("IÍ")] + Word("CIO") + [Spaces] + Word("FISCAL")

  /** `ISEN[ÇC][ÃA]O`. */
  const Isencao: Pattern :=
    Word("ISEN") + [Chars("ÇC"), Chars("ÃA")] + Word("O")

  /** `SUBSTITUI[ÇC][ÃA]O\s+TRIBUT[ÁA]RIA`. */
  const SubstituicaoTributaria: Pattern :=
    Word("SUBSTITUI") + [Chars("ÇC"), Chars("ÃA")] + Word("O") + [Spaces]
    + Word("TRIBUT") + [Chars("ÁA")] + Word("RIA")

  /** `OBRIGA[ÇC][ÃA]O\s+ACESS[ÓO]RIA`. */
  const ObrigacaoAcessoria: Pattern :=
    Word("OBRIGA") + [Chars("ÇC"), Chars("ÃA")] + Word("O") + [Spaces]
    + Word("ACESS") + [Chars("ÓO")] + Word("RIA")
}
