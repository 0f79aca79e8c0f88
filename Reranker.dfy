/** `rerank_by_relevance` (server/modules/reranker.py): a multiplicative
    relevance score per retrieved chunk, then a stable sort by descending score
    and a `[:top_k]` slice. Scores are exact reals. */
module Reranker {
  import opened Wrappers
  import opened Text

  /** The chunk metadata keys the reranker reads; an absent key is `None`. */
  datatype Metadata = Metadata(
    relevanciaJuridica: Option<real>,
    palavrasChave: Option<string>,
    tipoTributo: Option<string>,
    decisao: Option<string>)

  datatype Chunk = Chunk(pageContent: string, metadata: Metadata)

  /** `set(query.lower().split())`. */
  function QueryTokens(queryLower: string): set<string> {
    set t | t in SplitWords(queryLower)
  }

  /** Every query token is a non-empty run without whitespace that occurs in
      the lower-cased query. */
  lemma QueryTokensOccur(queryLower: string)
    ensures forall t :: t in QueryTokens(queryLower) ==> t != [] && NoSpace(t) && Contains(queryLower, t)
  {
    SplitWordsOccur(queryLower);
  }

  /** Outcome words looked up in both the query and the chunk's `decisao`, in
      the order the source tries them. */
  const Decisoes: seq<string> := ["provido", "improvido", "parcial", "deferido", "indeferido"]

  // ---------------------------------------------------------------------------
  // The closed-form score

  /** Factor 1: `metadata.get('relevancia_juridica', 1.0)`. */
  function Relevancia(c: Chunk): real {
    match c.metadata.relevanciaJuridica
    case Some(w) => w
    case None => 1.0
  }

  /** The distinct query tokens longer than three characters that occur in the
      lower-cased content (factor 2 counts them). */
  function MatchingTokens(tokens: set<string>, chunkLower: string): set<string> {
    set t | t in tokens && |t| > 3 && Contains(chunkLower, t)
  }

  /** Factor 3: some query token longer than three characters occurs in the
      lower-cased, non-empty `palavras_chave`. */
  predicate MetadataKeywordMatch(tokens: set<string>, c: Chunk) {
    match c.metadata.palavrasChave
    case None => false
    case Some(p) => p != "" && exists t :: t in tokens && |t| > 3 && Contains(Lower(p), t)
  }

  /** Factor 4: the lower-cased, non-empty `tipo_tributo` occurs in the query. */
  predicate TaxMatch(queryLower: string, c: Chunk) {
    match c.metadata.tipoTributo
    case None => false
    case Some(t) => t != "" && Contains(queryLower, Lower(t))
  }

  /** Factor 5: some outcome word occurs both in the query and in the
      lower-cased, non-empty `decisao`. */
  predicate DecisionMatch(queryLower: string, c: Chunk) {
    match c.metadata.decisao
    case None => false
    case Some(d) => d != "" && exists k :: 0 <= k < |Decisoes| && Contains(queryLower, Decisoes[k]) && Contains(Lower(d), Decisoes[k])
  }

  predicate IsShort(c: Chunk) {
    |c.pageContent| < 100
  }

  /** Multiplies `x` by `f` when the factor applies. */
  function Apply(x: real, applies: bool, f: real): real {
    if applies then x * f else x
  }

  /** The score before the short-fragment penalty (factors 1 to 5). */
  function BoostedScore(c: Chunk, queryLower: string, tokens: set<string>): real {
    var m := |MatchingTokens(tokens, Lower(c.pageContent))|;
    var s1 := 1.0 * Relevancia(c);
    var s2 := Apply(s1, m > 0, 1.0 + 0.1 * (m as real));
    var s3 := Apply(s2, MetadataKeywordMatch(tokens, c), 1.3);
    var s4 := Apply(s3, TaxMatch(queryLower, c), 1.4);
    Apply(s4, DecisionMatch(queryLower, c), 1.3)
  }

  function ScoreOf(c: Chunk, queryLower: string, tokens: set<string>): real {
    Apply(BoostedScore(c, queryLower, tokens), IsShort(c), 0.5)
  }

  function Score(c: Chunk, query: string): real {
    ScoreOf(c, Lower(query), QueryTokens(Lower(query)))
  }

  function Scores(chunks: seq<Chunk>, query: string): (r: seq<real>)
    ensures |r| == |chunks|
    ensures forall i :: 0 <= i < |chunks| ==> r[i] == Score(chunks[i], query)
  {
    seq(|chunks|, i requires 0 <= i < |chunks| => Score(chunks[i], query))
  }

  // ---------------------------------------------------------------------------
  // Scoring one chunk, step by step as the source does

  lemma MatchingTokensAdd(done: set<string>, t: string, chunkLower: string)
    requires t !in done
    ensures |MatchingTokens(done + {t}, chunkLower)| ==
            |MatchingTokens(done, chunkLower)| + (if |t| > 3 && Contains(chunkLower, t) then 1 else 0)
  {
    if |t| > 3 && Contains(chunkLower, t) {
      assert MatchingTokens(done + {t}, chunkLower) == MatchingTokens(done, chunkLower) + {t};
    } else {
      assert MatchingTokens(done + {t}, chunkLower) == MatchingTokens(done, chunkLower);
    }
  }

  /** `sum(1 for token in query_tokens if len(token) > 3 and token in chunk_lower)`,
      visiting the set in an arbitrary order. */
  method CountMatchingTokens(tokens: set<string>, chunkLower: string) returns (matching: nat)
    ensures matching == |MatchingTokens(tokens, chunkLower)|
  {
    matching := 0;
    var pending := tokens;
    ghost var done: set<string> := {};
    while pending != {}
      invariant pending + done == tokens && pending !! done
      invariant matching == |MatchingTokens(done, chunkLower)|
      decreases |pending|
    {
      var token :| token in pending;
      MatchingTokensAdd(done, token, chunkLower);
      if |token| > 3 && Contains(chunkLower, token) {
        matching := matching + 1;
      }
      pending := pending - {token};
      done := done + {token};
    }
    assert done == tokens;
  }

  /** Factor 3's test: when `palavras_chave` is non-empty, the
      `for token in query_tokens: ... break` scan stops at the first token
      longer than three characters found in it. */
  method FindMetadataKeyword(tokens: set<string>, c: Chunk) returns (found: bool)
    ensures found == MetadataKeywordMatch(tokens, c)
  {
    found := false;
    if c.metadata.palavrasChave.Some? && c.metadata.palavrasChave.value != "" {
      var palavrasMeta := Lower(c.metadata.palavrasChave.value);
      var rest := tokens;
      while rest != {}
        invariant rest <= tokens
        invariant forall t :: t in tokens && t !in rest ==> !(|t| > 3 && Contains(palavrasMeta, t))
        decreases |rest|
      {
        var token :| token in rest;
        if |token| > 3 && Contains(palavrasMeta, token) {
          found := true;
          break;
        }
        rest := rest - {token};
      }
    }
  }

  /** Factor 5's test: when `decisao` is non-empty, the
      `for dec in decisoes: ... break` scan stops at the first outcome word
      found both in the query and in it. */
  method FindDecisionWord(queryLower: string, c: Chunk) returns (found: bool)
    ensures found == DecisionMatch(queryLower, c)
  {
    found := false;
    if c.metadata.decisao.Some? && c.metadata.decisao.value != "" {
      var decisaoLower := Lower(c.metadata.decisao.value);
      for k := 0 to |Decisoes|
        invariant forall j :: 0 <= j < k ==> !(Contains(queryLower, Decisoes[j]) && Contains(decisaoLower, Decisoes[j]))
      {
        var dec := Decisoes[k];
        if Contains(queryLower, dec) && Contains(decisaoLower, dec) {
          found := true;
          break;
        }
      }
    }
  }

  /** The body of the `for chunk in chunks` loop: the score starts at 1.0 and is
      multiplied, in order, by each factor that applies; factors 3 and 5 are
      applied at most once, at the first match. */
  method ComputeScore(c: Chunk, queryLower: string, tokens: set<string>) returns (score: real)
    ensures score == ScoreOf(c, queryLower, tokens)
  {
    score := 1.0;

    var relevancia := match c.metadata.relevanciaJuridica case Some(w) => w case None => 1.0;
    score := score * relevancia;

    var matching := CountMatchingTokens(tokens, Lower(c.pageContent));
    if matching > 0 {
      score := score * (1.0 + 0.1 * (matching as real));
    }
    ghost var s2 := score;
    assert s2 == Apply(1.0 * Relevancia(c), matching > 0, 1.0 + 0.1 * (matching as real));

    var metaFound := FindMetadataKeyword(tokens, c);
    if metaFound {
      score := score * 1.3;
    }
    assert score == Apply(s2, MetadataKeywordMatch(tokens, c), 1.3);
    ghost var s3 := score;

    var taxFound := c.metadata.tipoTributo.Some? && c.metadata.tipoTributo.value != ""
                    && Contains(queryLower, Lower(c.metadata.tipoTributo.value));
    assert taxFound == TaxMatch(queryLower, c);
    if taxFound {
      score := score * 1.4;
    }
    ghost var s4 := score;
    assert s4 == Apply(s3, TaxMatch(queryLower, c), 1.4);

    var decisionFound := FindDecisionWord(queryLower, c);
    if decisionFound {
      score := score * 1.3;
    }
    assert score == Apply(s4, DecisionMatch(queryLower, c), 1.3);
    assert score == BoostedScore(c, queryLower, tokens);

    if |c.pageContent| < 100 {
      score := score * 0.5;
    }
  }

  // ---------------------------------------------------------------------------
  // Ranking: descending score, ties in input order

  /** `i` is ranked ahead of `j`: a higher score, or an equal score and an
      earlier position in the input (Python's sort is stable, also with
      `reverse=True`). */
  predicate Before(keys: seq<real>, i: nat, j: nat)
    requires i < |keys| && j < |keys|
  {
    keys[i] > keys[j] || (keys[i] == keys[j] && i < j)
  }

  predicate InRange(keys: seq<real>, order: seq<nat>) {
    forall k :: 0 <= k < |order| ==> order[k] < |keys|
  }

  /** `order` lists input positions, each ranked ahead of every later one. */
  predicate Ranked(keys: seq<real>, order: seq<nat>) {
    && InRange(keys, order)
    && (forall k, l :: 0 <= k < l < |order| ==> Before(keys, order[k], order[l]))
  }

  /** `order` is the stable descending top of `keys`: ranked, and every input
      position left out is ranked behind every position kept. */
  predicate IsStableTopK(keys: seq<real>, order: seq<nat>) {
    && Ranked(keys, order)
    && (forall k, i :: 0 <= k < |order| && 0 <= i < |keys| && i !in order ==> Before(keys, order[k], i))
  }

  /** How many elements the slice `xs[:topK]` keeps of a list of length `n`; a
      negative `topK` counts from the end, as in Python. */
  function SliceEnd(n: nat, topK: int): (m: nat)
    ensures m <= n
    ensures topK >= 0 ==> m == if topK < n then topK else n
    ensures topK < 0 ==> m == if n + topK > 0 then n + topK else 0
  {
    if topK >= 0 then (if topK < n then topK else n)
    else if n + topK > 0 then n + topK else 0
  }

  function Identity(n: nat): (r: seq<nat>)
    ensures |r| == n && forall i :: 0 <= i < n ==> r[i] == i
  {
    seq(n, i requires 0 <= i < n => i)
  }

  /** The prefix `a[..i]` is ranked and holds exactly the positions below `i`;
      the rest of the array is untouched. */
  ghost predicate SortedUpTo(keys: seq<real>, a: seq<nat>, i: nat)
    requires i <= |a|
  {
    && (forall k :: 0 <= k < i ==> a[k] < i)
    && (forall k :: i <= k < |a| ==> a[k] == k)
    && (forall k, l :: 0 <= k < l < i ==> a[k] < |keys| && a[l] < |keys| && Before(keys, a[k], a[l]))
  }

  /** While position `i` is being inserted, it sits at `j`: the other positions
      up to `i` are ranked among themselves and `i` is ranked ahead of
      everything to its right. */
  ghost predicate Inserting(keys: seq<real>, b: seq<nat>, i: nat, j: nat) {
    && j <= i < |b| == |keys|
    && b[j] == i
    && (forall k :: 0 <= k <= i && k != j ==> b[k] < i)
    && (forall k :: i < k < |b| ==> b[k] == k)
    && (forall k, l :: 0 <= k < l <= i && k != j && l != j ==> Before(keys, b[k], b[l]))
    && (forall l :: j < l <= i ==> Before(keys, b[j], b[l]))
  }

  lemma InsertingStart(keys: seq<real>, b: seq<nat>, i: nat)
    requires i < |b| == |keys| && SortedUpTo(keys, b, i)
    ensures Inserting(keys, b, i, i)
  {
  }

  /** Swapping `i` one place left past a strictly smaller score keeps the
      insertion invariant. */
  lemma InsertingSwap(keys: seq<real>, b: seq<nat>, i: nat, j: nat)
    requires Inserting(keys, b, i, j) && 0 < j && keys[b[j - 1]] < keys[b[j]]
    ensures Inserting(keys, b[j - 1 := b[j]][j := b[j - 1]], i, j - 1)
  {
    var c := b[j - 1 := b[j]][j := b[j - 1]];
    forall k, l | 0 <= k < l <= i && k != j - 1 && l != j - 1
      ensures Before(keys, c[k], c[l])
    {
      if k == j {
        assert c[k] == b[j - 1];
      } else if l == j {
        assert c[l] == b[j - 1] && c[k] == b[k];
      }
    }
  }

  /** Once the element to its left has a score at least as high, the
      insertion is finished. */
  lemma InsertingDone(keys: seq<real>, b: seq<nat>, i: nat, j: nat)
    requires Inserting(keys, b, i, j)
    requires j == 0 || keys[b[j - 1]] >= keys[b[j]]
    ensures SortedUpTo(keys, b, i + 1)
  {
    forall k, l | 0 <= k < l < i + 1
      ensures Before(keys, b[k], b[l])
    {
      if l == j && k < j - 1 {
        BeforeTransitive(keys, b[k], b[j - 1], b[j]);
      }
    }
  }

  /** One step of the insertion sort: the element at `i` moves left past every
      element with a strictly smaller score. */
  method InsertAt(keys: seq<real>, a: array<nat>, i: nat)
    requires i < a.Length == |keys|
    requires SortedUpTo(keys, a[..], i)
    modifies a
    ensures SortedUpTo(keys, a[..], i + 1)
    ensures multiset(a[..]) == multiset(old(a[..]))
  {
    InsertingStart(keys, a[..], i);
    var j: nat := i;
    while j > 0 && keys[a[j - 1]] < keys[a[j]]
      invariant Inserting(keys, a[..], i, j)
      invariant multiset(a[..]) == multiset(old(a[..]))
    {
      InsertingSwap(keys, a[..], i, j);
      Swap(a, j - 1, j);
      j := j - 1;
    }
    InsertingDone(keys, a[..], i, j);
  }

  /** Exchanges `a[x]` and `a[y]`. */
  method Swap(a: array<nat>, x: nat, y: nat)
    requires x < y < a.Length
    modifies a
    ensures a[..] == old(a[..])[x := old(a[y])][y := old(a[x])]
    ensures multiset(a[..]) == multiset(old(a[..]))
  {
    a[x], a[y] := a[y], a[x];
  }

  lemma BeforeTransitive(keys: seq<real>, x: nat, y: nat, z: nat)
    requires x < |keys| && y < |keys| && z < |keys|
    requires Before(keys, x, y) && Before(keys, y, z)
    ensures Before(keys, x, z)
  {
  }

  /** `scored_chunks.sort(key=lambda x: x[0], reverse=True)`, on the positions
      of the chunks: an insertion sort that moves an element left past strictly
      smaller scores only, so equal scores keep their input order. */
  method StableSortByScore(keys: seq<real>, a: array<nat>)
    requires a[..] == Identity(|keys|)
    modifies a
    ensures Ranked(keys, a[..])
    ensures multiset(a[..]) == multiset(old(a[..]))
  {
    var i := 0;
    while i < a.Length
      invariant 0 <= i <= a.Length
      invariant SortedUpTo(keys, a[..], i)
      invariant multiset(a[..]) == multiset(old(a[..]))
    {
      InsertAt(keys, a, i);
      i := i + 1;
    }
  }

  function Pick<T>(xs: seq<T>, order: seq<nat>): (r: seq<T>)
    requires forall k :: 0 <= k < |order| ==> order[k] < |xs|
    ensures |r| == |order| && forall k :: 0 <= k < |order| ==> r[k] == xs[order[k]]
  {
    seq(|order|, k requires 0 <= k < |order| => xs[order[k]])
  }

  /** Removing the element at `p` removes one occurrence of it. */
  lemma MultisetRemove<T>(t: seq<T>, p: nat)
    requires p < |t|
    ensures multiset(t[..p] + t[p + 1..]) == multiset(t) - multiset{t[p]}
  {
    assert t == t[..p] + [t[p]] + t[p + 1..];
  }

  lemma PickRemove<T>(xs: seq<T>, t: seq<nat>, p: nat)
    requires forall k :: 0 <= k < |t| ==> t[k] < |xs|
    requires p < |t|
    ensures Pick(xs, t[..p] + t[p + 1..]) == Pick(xs, t)[..p] + Pick(xs, t)[p + 1..]
  {
    var u := t[..p] + t[p + 1..];
    var l, r := Pick(xs, u), Pick(xs, t)[..p] + Pick(xs, t)[p + 1..];
    assert |l| == |r|;
    forall k | 0 <= k < |l| ensures l[k] == r[k] {
      if k < p {
        assert u[k] == t[k];
      } else {
        assert u[k] == t[k + 1];
      }
    }
  }

  lemma PickRemoveMultiset<T>(xs: seq<T>, t: seq<nat>, p: nat)
    requires forall k :: 0 <= k < |t| ==> t[k] < |xs|
    requires p < |t|
    ensures multiset(Pick(xs, t)) == multiset(Pick(xs, t[..p] + t[p + 1..])) + multiset{xs[t[p]]}
  {
    var pt := Pick(xs, t);
    PickRemove(xs, t, p);
    MultisetRemove(pt, p);
    assert pt[p] in multiset(pt);
  }

  lemma TailsAgree(s: seq<nat>, t: seq<nat>, p: nat)
    requires |s| > 0 && p < |t| && t[p] == s[0]
    requires multiset(s) == multiset(t)
    ensures multiset(s[1..]) == multiset(t[..p] + t[p + 1..])
  {
    MultisetRemove(t, p);
    assert s == [s[0]] + s[1..];
  }

  /** Picking by two orderings that are permutations of each other gives two
      permutations of each other. */
  lemma {:induction false} PickPermutation<T>(xs: seq<T>, s: seq<nat>, t: seq<nat>)
    requires forall k :: 0 <= k < |s| ==> s[k] < |xs|
    requires forall k :: 0 <= k < |t| ==> t[k] < |xs|
    requires multiset(s) == multiset(t)
    ensures multiset(Pick(xs, s)) == multiset(Pick(xs, t))
    decreases |s|
  {
    if s == [] {
      assert |t| == |multiset(t)| == 0;
    } else {
      assert s[0] in multiset(t);
      var p :| 0 <= p < |t| && t[p] == s[0];
      var t' := t[..p] + t[p + 1..];
      assert multiset(Pick(xs, s[1..])) == multiset(Pick(xs, t')) by {
        TailsAgree(s, t, p);
        PickPermutation(xs, s[1..], t');
      }
      assert multiset(Pick(xs, t)) == multiset(Pick(xs, t')) + multiset{xs[s[0]]} by {
        PickRemoveMultiset(xs, t, p);
      }
      assert multiset(Pick(xs, s)) == multiset(Pick(xs, s[1..])) + multiset{xs[s[0]]} by {
        assert Pick(xs, s) == [xs[s[0]]] + Pick(xs, s[1..]);
      }
    }
  }

  /** Every input position missing from the first `m` positions of a
      permutation of the input positions occurs after them. */
  lemma MissingComesLater(keys: seq<real>, ranking: seq<nat>, m: nat, i: nat)
    requires |ranking| == |keys| && m <= |ranking| && i < |keys|
    requires multiset(ranking) == multiset(Identity(|keys|))
    requires i !in ranking[..m]
    ensures exists p :: m <= p < |ranking| && ranking[p] == i
  {
    assert Identity(|keys|)[i] == i;
    assert i in multiset(ranking);
    assert ranking == ranking[..m] + ranking[m..];
    assert i in ranking[m..];
  }

  /** The first `m` positions of a sorted permutation of the input positions
      form a stable top-`m`, and the chunks they pick are a sub-multiset. */
  lemma SortedPrefixIsTopK<T>(xs: seq<T>, keys: seq<real>, ranking: seq<nat>, m: nat)
    requires |keys| == |xs| && |ranking| == |xs| && m <= |ranking|
    requires Ranked(keys, ranking)
    requires multiset(ranking) == multiset(Identity(|keys|))
    ensures IsStableTopK(keys, ranking[..m])
    ensures multiset(Pick(xs, ranking[..m])) <= multiset(xs)
  {
    var order := ranking[..m];
    forall k, i | 0 <= k < |order| && 0 <= i < |keys| && i !in order
      ensures Before(keys, order[k], i)
    {
      MissingComesLater(keys, ranking, m, i);
      var p :| m <= p < |ranking| && ranking[p] == i;
      assert order[k] == ranking[k];
    }
    assert multiset(Pick(xs, ranking)) == multiset(xs) by {
      PickPermutation(xs, ranking, Identity(|keys|));
      assert Pick(xs, Identity(|keys|)) == xs;
    }
    assert Pick(xs, ranking) == Pick(xs, order) + Pick(xs, ranking[m..]);
  }

  /** The `for chunk in chunks` loop: one score per chunk, in input order. */
  method ScoreChunks(chunks: seq<Chunk>, query: string) returns (scores: seq<real>)
    ensures scores == Scores(chunks, query)
  {
    var queryLower := Lower(query);
    var queryTokens := QueryTokens(queryLower);
    scores := [];
    for i := 0 to |chunks|
      invariant scores == Scores(chunks[..i], query)
    {
      var score := ComputeScore(chunks[i], queryLower, queryTokens);
      ScoresSnoc(chunks, i, query);
      scores := scores + [score];
    }
    assert chunks[..|chunks|] == chunks;
  }

  lemma ScoresSnoc(chunks: seq<Chunk>, i: nat, query: string)
    requires i < |chunks|
    ensures Scores(chunks[..i + 1], query) == Scores(chunks[..i], query) + [Score(chunks[i], query)]
  {
    assert chunks[..i + 1] == chunks[..i] + [chunks[i]];
  }

  /** `rerank_by_relevance(chunks, query, top_k)`. The ghost `order` gives the
      input position of each returned chunk. */
  method RerankByRelevance(chunks: seq<Chunk>, query: string, topK: int) returns (result: seq<Chunk>, ghost order: seq<nat>)
    ensures chunks == [] ==> result == []
    ensures |result| == SliceEnd(|chunks|, topK)
    ensures multiset(result) <= multiset(chunks)
    ensures forall k, l :: 0 <= k < l < |result| ==> Score(result[k], query) >= Score(result[l], query)
    ensures IsStableTopK(Scores(chunks, query), order)
    ensures |order| == |result| && forall k :: 0 <= k < |result| ==> order[k] < |chunks| && result[k] == chunks[order[k]]
  {
    if chunks == [] {
      return [], [];
    }
    var scores := ScoreChunks(chunks, query);

    var ranking := new nat[|chunks|](i => i);
    assert ranking[..] == Identity(|chunks|);
    StableSortByScore(scores, ranking);

    var m := SliceEnd(|chunks|, topK);
    result := Pick(chunks, ranking[..m]);
    order := ranking[..m];
    SortedPrefixIsTopK(chunks, scores, ranking[..], m);
  }

  // ---------------------------------------------------------------------------
  // What the ranking contract determines

  /** Two stable top-`k` orderings of the same scores that agree before
      position `k` agree at `k`: the later one is never strictly ahead. */
  lemma NotAhead(keys: seq<real>, o1: seq<nat>, o2: seq<nat>, k: nat)
    requires IsStableTopK(keys, o1) && IsStableTopK(keys, o2)
    requires k < |o1| && k < |o2|
    requires o1[..k] == o2[..k]
    ensures !Before(keys, o1[k], o2[k])
  {
    var a := o1[k];
    assert a !in o1[..k] by {
      forall j | 0 <= j < k ensures o1[j] != a {
        assert Before(keys, o1[j], o1[k]);
      }
    }
    if a in o2 {
      assert o2 == o2[..k] + o2[k..];
      assert a in o2[k..];
      var p :| k <= p < |o2| && o2[p] == a;
      if p > k {
        assert Before(keys, o2[k], o2[p]);
      }
    } else {
      assert Before(keys, o2[k], a);
    }
  }

  /** The ranking contract has exactly one solution of each length: any two
      stable top-`k` orderings of the same scores are equal. */
  lemma {:induction false} StableTopKUnique(keys: seq<real>, o1: seq<nat>, o2: seq<nat>)
    requires IsStableTopK(keys, o1) && IsStableTopK(keys, o2) && |o1| == |o2|
    ensures o1 == o2
  {
    var k := 0;
    while k < |o1|
      invariant k <= |o1| && o1[..k] == o2[..k]
    {
      NotAhead(keys, o1, o2, k);
      NotAhead(keys, o2, o1, k);
      assert o1[k] == o2[k];
      assert o1[..k + 1] == o1[..k] + [o1[k]];
      assert o2[..k + 1] == o2[..k] + [o2[k]];
      k := k + 1;
    }
    assert o1 == o1[..k] && o2 == o2[..k];
  }

  /** The first position of a non-empty stable top-`k` is ranked ahead of
      every other input position. */
  lemma FirstRankedAhead(keys: seq<real>, order: seq<nat>, i: nat)
    requires IsStableTopK(keys, order) && |order| > 0 && i < |keys| && i != order[0]
    ensures Before(keys, order[0], i)
  {
    if i in order {
      var p :| 0 <= p < |order| && order[p] == i;
      assert p != 0;
    }
  }

  /** A chunk that outscores every other chunk is returned first whenever
      anything is returned. */
  lemma BestRankedFirst(keys: seq<real>, order: seq<nat>, best: nat)
    requires IsStableTopK(keys, order) && |order| > 0 && best < |keys|
    requires forall j :: 0 <= j < |keys| && j != best ==> keys[best] > keys[j]
    ensures order[0] == best
  {
    if order[0] != best {
      FirstRankedAhead(keys, order, best);
      assert false;
    }
  }

  /** Factor 6 halves the score of a short fragment, whatever the other
      factors are, and leaves longer chunks alone. */
  lemma ShortFragmentPenalty(c: Chunk, query: string)
    ensures IsShort(c) ==> Score(c, query) == 0.5 * BoostedScore(c, Lower(query), QueryTokens(Lower(query)))
    ensures !IsShort(c) ==> Score(c, query) == BoostedScore(c, Lower(query), QueryTokens(Lower(query)))
  {
  }
}
