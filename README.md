# Acórdão extraction and reranking, modelled in Dafny

This project models the deterministic core of a retrieval pipeline for the
decisions (acórdãos) of the tax appeals council of the State of Acre. It has
three parts.

- **The relevance reranker** (`rerank_by_relevance`). Each retrieved chunk gets
  a score that is a product of up to six factors. The chunks are then sorted
  by score, highest first, with Python's stable sort, and the first `top_k`
  are kept.
- **The schema** (`schemas.py`). It covers:
  - the two "before" validators, which normalise the outcome and the
    decision number;
  - the field constraints of `AcordaoDocumento`, as a validity predicate and
    as a validation function with its round trip;
  - the `ExtractionResult` record.
- **The deterministic parts of `AcordaoExtractor`** (`pdf_extractor.py`). These
  are:
  - text cleaning;
  - metadata collection and the Portuguese session-date conversion;
  - tax and theme tagging of the headnote (ementa);
  - the first-`{`-to-last-`}` scan of the language model's reply;
  - the signature block with de-duplication by name;
  - the assembly of errors, warnings and the result in `extract_acordao`.

Files:

- `Wrappers.dfy`: `Option` and `Result`.
- `Text.dfy`: Python string operations on `seq<char>`. These are `lower()`,
  `strip()`, `split()`, `split('\n')`, `'\n'.join`, `replace(' ', '')` and
  digit strings.
- `Reranker.dfy`: the reranker. Scores are exact `real`s. The sort is an
  in-place insertion sort of input positions in an `array`. A ghost ordering
  states the stable top-k.
- `Schemas.dfy`: the normalisers, the validity predicate, validation with its
  error list, ISO dates and `ExtractionResult`.
- `Patterns.dfy`: the few regular-expression shapes that headnote tagging
  uses:
  - case-insensitive letters and character classes;
  - `\s+`;
  - `\b`.

  It also has lemmas that reduce literal words and whole words to
  letter-by-letter spelling.
- `Extractor.dfy`: the extractor.

Imperative code in the source becomes methods with loops or step-by-step
state. Each method is proved equal to a specification function, and the
properties are proved about that function. This covers:

- the score loop;
- the sort;
- the metadata dictionary filled key by key;
- the keyword list built by `append`;
- the signature list with its duplicate check;
- the error list.

The pure chains become functions: `clean_text`, the normalisers, validation
and the JSON scan.

Three points where the code does not do what its own messages and comments
suggest. The model follows the code.

- **No signatures.** When no signature is found, `pdf_extractor.py:367-368`
  records only the warning "Nenhuma assinatura extraída". But
  `AcordaoDocumento.assinaturas` carries `min_items=1` (`schemas.py:75`), so
  building the document at `pdf_extractor.py:391` raises. The `except` branch
  (`pdf_extractor.py:402-408`) then returns one "Erro inesperado" error, with no
  warnings and no raw text. An extraction without signatures therefore never
  succeeds (`Schemas.NoSignaturesRejected`, `Extractor.AssembleResult`,
  `Extractor.ExtractAcordao`).
- **A missing `decisao`.** `pdf_extractor.py:358-365` checks only that the
  mandatory metadata, the headnote and the decision section were found. A
  decision section whose JSON reply lacks `decisao` passes those checks, and
  the required `decisao` field then fails validation. The result is the one
  "Erro inesperado: …" error of the `except` branch, like every other
  validation failure, not one of the named extraction errors.
- **Accents.** The docstring of `normalizar_decisao` (`schemas.py:41`) says
  that it removes accents. The code only lower-cases and strips, so
  `não provido` keeps its `ã`, and that accented spelling is the key the table
  looks up (`Schemas.NormalizarDecisaoGroups`).

## Model

| member | source | states |
|---|---|---|
| Text.Lower | server/modules/reranker.py:34 | `lower()` keeps the length and lowers each character |
| Text.SplitWords | server/modules/reranker.py:35 | `split()` yields non-empty words without whitespace |
| Text.SplitWordsSpaced | server/modules/reranker.py:35 | any non-empty whitespace-free words, joined by whitespace separators that are non-empty between two words, split back into exactly those words in order |
| Text.SplitWordsSeparated | server/modules/reranker.py:35 | every text is its words joined by such separators, so the words are the maximal runs without whitespace and nothing but whitespace is dropped |
| Text.SplitWordsBlank | server/modules/reranker.py:35 | there are no words exactly when the text is all whitespace |
| Text.SplitWordsOccur | server/modules/reranker.py:35 | every word occurs in the text it was split from |
| Text.Strip | server/modules/pdf_extractor.py:79 | `strip()` removes exactly the leading and trailing whitespace runs and leaves a result that neither starts nor ends with whitespace |
| Text.StripIdempotent | server/modules/schemas.py:43 | stripping twice is stripping once |
| Text.JoinSplitLines | server/modules/pdf_extractor.py:297-298 | joining the lines of a split with `'\n'` gives back the text |
| Text.RemoveChar | server/modules/schemas.py:94 | `replace(' ', '')` leaves no occurrence of the character and never lengthens the text |
| Text.RemoveCharMultiset | server/modules/schemas.py:94 | every other character is kept exactly as often as it occurs |
| Text.RemoveCharAppend | server/modules/schemas.py:94 | removal distributes over concatenation, so the kept characters stay in their order |
| Text.RemoveCharStripped | server/modules/schemas.py:94 | deleting a whitespace character from a stripped text leaves it stripped |
| Text.Pad2 | server/modules/pdf_extractor.py:153 | `:02d` of a number below 100 is two digits that read back as the number |
| Reranker.QueryTokens | server/modules/reranker.py:34-35 | the token set is the set of words of `split()` of the lower-cased query |
| Reranker.QueryTokensOccur | server/modules/reranker.py:34-35 | every token is a non-empty run without whitespace that occurs in the lower-cased query |
| Reranker.ScoreOf | server/modules/reranker.py:40-87 | the closed form of a chunk's score: relevance, times each boost that applies, halved for a short chunk |
| Reranker.Score | server/modules/reranker.py:34-87 | a chunk's score for a query is the closed form over the lower-cased query and its token set |
| Reranker.Scores | server/modules/reranker.py:39-87 | one score per chunk, in input order |
| Reranker.MatchingTokensAdd | server/modules/reranker.py:49 | the count of matching tokens grows by one exactly when the added token is longer than three characters and occurs in the content |
| Reranker.CountMatchingTokens | server/modules/reranker.py:49 | the loop counts exactly the distinct query tokens longer than three characters that occur in the lower-cased content |
| Reranker.FindMetadataKeyword | server/modules/reranker.py:57-63 | the loop with `break` finds a token exactly when some query token longer than three characters occurs in a non-empty `palavras_chave`, so the boost applies at most once |
| Reranker.FindDecisionWord | server/modules/reranker.py:72-79 | the loop with `break` succeeds exactly when some outcome word occurs in both the query and a non-empty `decisao`, so the boost applies at most once |
| Reranker.ComputeScore | server/modules/reranker.py:40-87 | the step-by-step score equals the closed form: relevance (default 1.0), times `1 + 0.1·m` when `m > 0`, times 1.3, 1.4 and 1.3 when the metadata, tax and decision factors apply, times 0.5 under 100 characters |
| Reranker.ShortFragmentPenalty | server/modules/reranker.py:82-85 | a short chunk's score is exactly half of the same chunk's boosted score, whatever the other factors; a long chunk keeps the boosted score |
| Reranker.SliceEnd | server/modules/reranker.py:101 | the length `xs[:top_k]` keeps: `min(top_k, n)` for `top_k >= 0`, and `max(n + top_k, 0)` for a negative `top_k` |
| Reranker.InsertAt | server/modules/reranker.py:91 | one insertion step extends the ranked prefix by one position and permutes the array |
| Reranker.StableSortByScore | server/modules/reranker.py:91 | the in-place sort leaves a permutation of the positions, ranked by descending score with ties in input order |
| Reranker.PickPermutation | server/modules/reranker.py:101 | picking chunks by two permuted orderings gives the same multiset |
| Reranker.SortedPrefixIsTopK | server/modules/reranker.py:91-101 | every prefix of the stable sort is the stable top-k, and the chunks picked by it are a sub-multiset of the input |
| Reranker.ScoreChunks | server/modules/reranker.py:37-88 | the loop appends the scores of the chunks in input order |
| Reranker.RerankByRelevance | server/modules/reranker.py:17-101 | empty input gives empty output; the length is that of `xs[:top_k]`; the result is a sub-multiset of the input, in non-increasing score order, and is the chunks at the positions of the stable top-k ordering |
| Reranker.StableTopKUnique | server/modules/reranker.py:91 | the stable top-k of a given length is unique, so equal scores keep input order and nothing else is possible |
| Reranker.BestRankedFirst | server/modules/reranker.py:91-101 | a chunk that strictly outscores all others comes first whenever anything is returned |
| Schemas.NormalizarDecisao | server/modules/schemas.py:38-55 | the result is empty or in normal form: lower-case, stripped and a fixed point of the synonym table |
| Schemas.CanonicalTargets | server/modules/schemas.py:45-53 | the table maps only to `improvido`, `provido` and `parcial`, and these three are in normal form |
| Schemas.NormalizarDecisaoGroups | server/modules/schemas.py:42-55 | the empty value comes back empty; otherwise, after `lower()` and `strip()`, `improvido`, `não provido` and `negado` give `improvido`, `provido` and `deferido` give `provido`, `provido parcialmente` and `parcialmente provido` give `parcial`, and any other value comes back lower-cased and stripped |
| Schemas.NormalizarDecisaoExample | server/modules/schemas.py:48 | `NEGADO` normalises to `improvido` |
| Schemas.NormalizarDecisaoFixed | server/modules/schemas.py:42-55 | a value in normal form is returned unchanged |
| Schemas.NormalizarDecisaoIdempotent | server/modules/schemas.py:38-55 | normalising twice is normalising once |
| Schemas.NormalizarAcordaoNumero | server/modules/schemas.py:89-95 | the result is stripped and has no `' '`, and it is the stripped value with its spaces deleted |
| Schemas.NormalizarAcordaoNumeroFixed | server/modules/schemas.py:92-95 | a number already in normal form is returned unchanged |
| Schemas.NormalizarAcordaoNumeroIdempotent | server/modules/schemas.py:89-95 | normalising twice is normalising once |
| Schemas.ParseIsoDate | server/modules/schemas.py:83-84 | a `date` field accepts a `YYYY-MM-DD` string only for a real calendar day, and formats that day back to the same string |
| Schemas.FormatIsoDate | server/modules/schemas.py:83-84 | a valid date's ISO form `YYYY-MM-DD`, year in four digits and month and day in two |
| Schemas.ParseFormatIsoDate | server/modules/schemas.py:83-84 | every valid date's ISO form parses back to that date |
| Schemas.FieldErrors | server/modules/schemas.py:14-87 | the list of failing fields is empty exactly when the record is acceptable |
| Schemas.Validate | server/modules/schemas.py:14-95 | validation succeeds exactly when the raw record is acceptable, with a non-empty error list otherwise; a validated document satisfies every constraint (texts at least 50 characters, names and titles at least 3, at least one signature, valid dates, normalised number and outcome) and holds the normalised number; the vote and the participant list keep a value of their declared type, are `None` for `null`, and default to `None` and `[]` when missing |
| Schemas.OptionalField | server/modules/schemas.py:35-36 | an optional field keeps a value of its declared type, is `None` for `null` and takes its default when the key is missing |
| Schemas.DumpField | server/modules/schemas.py:35-36 | dumping an optional field never gives a value of the wrong type, and reading the dump back gives the field again |
| Schemas.AcordaoTypesRejected | server/modules/schemas.py:33-36 | a decision that is missing, `null` or not a string, a vote that is not a string, or a participant list that is not a list of strings makes validation fail |
| Schemas.ValidateDump | server/modules/schemas.py:58-95 | dumping a valid document and validating the dump gives back the same document |
| Schemas.ValidateIdempotent | server/modules/schemas.py:89-95 | revalidating the dump of a validated document gives the same result |
| Schemas.NoSignaturesRejected | server/modules/schemas.py:75 | a record with an empty signature list never validates |
| Schemas.NewExtractionResult | server/modules/schemas.py:132-139 | a fresh result has no document, empty error and warning lists, and no raw text |
| Patterns.Search | server/modules/pdf_extractor.py:187-207 | `re.search`: the pattern matches at some position of the text |
| Patterns.WordMatchesAt | server/modules/pdf_extractor.py:199-202 | a literal word in a case-insensitive pattern matches exactly where the text spells it in any case, and the pattern then continues after it |
| Patterns.WholeWordMatchesAt | server/modules/pdf_extractor.py:187-193 | `\bW\b` matches exactly where the text spells W in any case with no word character just before or after |
| Extractor.CollapseBlankLines | server/modules/pdf_extractor.py:73 | `re.sub(r'\n\s*\n', '\n\n', text)`: from each newline, the whitespace up to the last newline of its run becomes `"\n\n"`, and a newline without a later one in its run is kept |
| Extractor.CollapseBlankLinesNoNewline | server/modules/pdf_extractor.py:73 | text without newlines passes the blank-line substitution unchanged |
| Extractor.CollapseBlankRun | server/modules/pdf_extractor.py:73 | a whitespace run holding two or more newlines becomes `"\n\n"` between its first and last newline, and the spaces after the last newline stay |
| Extractor.CollapseSingleNewline | server/modules/pdf_extractor.py:73 | a whitespace run holding a single newline is left alone |
| Extractor.CollapseSpaces | server/modules/pdf_extractor.py:74 | the result has no two consecutive spaces, never lengthens the text, keeps its first character, and keeps every non-space character in order |
| Extractor.CollapseSpaceRun | server/modules/pdf_extractor.py:74 | a run of one or more spaces becomes one space |
| Extractor.CollapseSpacesFixed | server/modules/pdf_extractor.py:74 | a text without double spaces is unchanged |
| Extractor.CollapseSpacesIdempotent | server/modules/pdf_extractor.py:74 | collapsing twice is collapsing once |
| Extractor.CleanText | server/modules/pdf_extractor.py:62-79 | the cleaned text has no leading or trailing whitespace |
| Extractor.CleanTextSpaces | server/modules/pdf_extractor.py:74-79 | when the header pattern removes nothing, the cleaned text has no two consecutive spaces |
| Extractor.MonthNumber | server/modules/pdf_extractor.py:146-151 | a month name in any case maps to its 1-based position among `janeiro` … `dezembro`, and any other word maps to nothing |
| Extractor.MonthNumberUpperCase | server/modules/pdf_extractor.py:151 | `MARÇO` is month 3 |
| Extractor.DataSessao | server/modules/pdf_extractor.py:143-153 | a date string exists exactly when the month name is known, and it is shaped `YYYY-MM-DD` with ASCII digits |
| Extractor.DataSessaoAccepted | server/modules/pdf_extractor.py:153 | the schema's date field accepts the session date exactly when it names a real day, and then reads back the captured day, month and year |
| Extractor.ExtractMetadataRegex | server/modules/pdf_extractor.py:91-156 | the dictionary has a key exactly for each search that matched (for the date, only when the month is known), holding the captured group, stripped for the free-text fields |
| Extractor.FirstTax | server/modules/pdf_extractor.py:187-195 | the chosen tax's pattern occurs in the line and no earlier tax's does; nothing is chosen only when no tax occurs |
| Extractor.TipoTributo | server/modules/pdf_extractor.py:184-195 | the tax type is the first of ICMS, IPVA and ITCD whose whole word occurs in the first line, or none |
| Extractor.TipoTributoCases | server/modules/pdf_extractor.py:186-195 | the tax type is ICMS, else IPVA, else ITCD, else none, by whole-word search of the first line |
| Extractor.Tagged | server/modules/pdf_extractor.py:205-207 | a label is tagged exactly when its theme's pattern occurs in the headnote |
| Extractor.TaggedInOrder | server/modules/pdf_extractor.py:198-207 | the tags follow the dictionary order |
| Extractor.LabelsDistinct | server/modules/pdf_extractor.py:182-203 | the theme labels are distinct and differ from the tax names |
| Extractor.KeywordsDistinct | server/modules/pdf_extractor.py:182-207 | the keywords (tax first, then themes) have no duplicates |
| Extractor.DetectTributo | server/modules/pdf_extractor.py:182-195 | the `if`/`elif` chain yields the priority tax and the one-element list of it |
| Extractor.DetectTemas | server/modules/pdf_extractor.py:205-207 | the loop appends exactly the tagged labels, in order, after the keywords so far |
| Extractor.ExtractEmenta | server/modules/pdf_extractor.py:175-213 | a headnote exactly when its section was found: the stripped text, the tax of the first line and, as keywords, the tax followed by the themes; the keywords are distinct and the tax, when set, is first |
| Extractor.ExtractJsonObject | server/modules/pdf_extractor.py:265-273 | a span exists exactly when some `}` follows some `{`, and it is the text from the first `{` to the last `}` inclusive |
| Extractor.Excerpt | server/modules/pdf_extractor.py:245 | `[:1500]` is a prefix of the text of exactly `min(len, 1500)` characters: the whole text when it is that short, its first 1500 characters otherwise |
| Extractor.ExtractAcordaoLlm | server/modules/pdf_extractor.py:226-277 | a decision exactly when the section was found, the completion returned, the brace span exists and it parsed; its text is the stripped section |
| Extractor.SignatureBlock | server/modules/pdf_extractor.py:297-298 | the last fifteen pieces of `split('\n')`, joined again with `'\n'` |
| Extractor.SignatureBlockIsTail | server/modules/pdf_extractor.py:297-298 | the signature block is a suffix of the text that starts a line (a newline precedes it unless it is the whole text), holds exactly `min(n, 14)` of the text's `n` newlines, so exactly its last fifteen lines, and is the whole text when that has fewer than fifteen lines |
| Extractor.AddSignature | server/modules/pdf_extractor.py:315-317 | after the duplicate check the name is present, and the list is either unchanged or extended by the new signature |
| Extractor.AddSignatureDistinct | server/modules/pdf_extractor.py:315-317 | the duplicate check keeps names pairwise distinct |
| Extractor.AddAllSpec | server/modules/pdf_extractor.py:312-324 | adding candidates in order keeps the list a prefix and its names distinct, makes every candidate's name present, and adds only candidates |
| Extractor.Signatures | server/modules/pdf_extractor.py:301-324 | the candidates of the three searches, added in order by the duplicate check |
| Extractor.SignaturesSpec | server/modules/pdf_extractor.py:301-324 | the signatures have distinct names, are all candidates of the three searches, and cover every candidate's name |
| Extractor.SignaturesPresidenteFirst | server/modules/pdf_extractor.py:302-304 | a Presidente found by its search is the first signature |
| Extractor.AddPresidente | server/modules/pdf_extractor.py:301-304 | the first search adds the stripped name as Presidente when it matches |
| Extractor.AddConselheiros | server/modules/pdf_extractor.py:306-317 | the loop over the `Conselheiro` matches adds each new name with its stripped title |
| Extractor.AddProcurador | server/modules/pdf_extractor.py:319-324 | the third search adds a new name as Procurador Fiscal |
| Extractor.ExtractAssinaturas | server/modules/pdf_extractor.py:289-327 | the signatures come from the last fifteen lines only, their names are distinct, and a Presidente found is first |
| Extractor.Missing | server/modules/pdf_extractor.py:355-356 | the missing fields are exactly the absent mandatory keys, in their listed order |
| Extractor.MissingFields | server/modules/pdf_extractor.py:355-356 | the mandatory fields whose search did not match, in the listed order |
| Extractor.MissingOfMatches | server/modules/pdf_extractor.py:355-356 | over a dictionary built by the metadata searches, the missing mandatory keys are exactly those whose search did not match, in order |
| Extractor.ListRepr | server/modules/pdf_extractor.py:359 | `str()` of a list of strings: `['a', 'b']` |
| Extractor.MissingMessage | server/modules/pdf_extractor.py:359 | the field error text: `Campos obrigatórios faltando: ` followed by the list of missing key names |
| Extractor.ExtractionErrors | server/modules/pdf_extractor.py:355-365 | the field error, then the headnote error, then the decision error, each only when its check fails |
| Extractor.ExtractionErrorsSpec | server/modules/pdf_extractor.py:355-368 | no error exactly when the mandatory fields, headnote and decision are all there; the field error comes first and names the missing keys; each of the other errors appears exactly when its part is missing; signatures never add one |
| Extractor.CollectErrors | server/modules/pdf_extractor.py:358-365 | the errors appended one by one are the error list above |
| Extractor.Documento | server/modules/pdf_extractor.py:382-388 | the record passed to validation: the metadata's text and person fields, the headnote, the decision, the signatures and the file name |
| Extractor.AssembleResult | server/modules/pdf_extractor.py:354-408 | with errors: failure with those errors, the warnings and the cleaned text; otherwise success exactly when the record validates, carrying the validated document and the warnings, else one "Erro inesperado" error; success never comes with errors or without a valid document, and never without signatures |
| Extractor.ExtractAcordao | server/modules/pdf_extractor.py:339-408 | a PDF read failure gives one "Erro inesperado" error and nothing else; otherwise the steps run on the cleaned text (the metadata dictionary has exactly the captured keys, the headnote is there exactly when its section was found, the decision is the LLM step's result, the signatures are those of the signature block); with an extraction error the result is the failure carrying exactly those errors, the warnings and the cleaned text, where a missing mandatory field makes the first error the field error, and a missing headnote or a failed LLM step adds its own error; with no extraction error, success holds exactly when validation accepts the assembled record, and then carries the validated document, no errors, the warnings and the cleaned text, and otherwise the result is one "Erro inesperado" error naming the failing fields; success always carries a valid document whose signatures are the extracted ones, and no signatures means no success |

## Left out

- Reading the PDF (`pdf_to_text`, pypdf) is modelled as a given text or the
  message of the exception it raises.
- The Groq chat completion is a given function from the excerpt to a reply,
  or to `None` when it raises. The prompt text around the excerpt, the model
  name, the temperature and the token limit are not modelled.
- `json.loads` is a given function from the brace span to the three fields,
  or to `None` when it raises or gives something other than an object. Each
  field is missing, `null`, of the declared type or of another type, and
  validation treats the four cases as pydantic does. Other keys of the
  object are not modelled.
- The regular-expression searches whose semantics need a full lazy regex
  engine are given as functions of the text they search:
  - the headnote and decision section boundaries
    (`pdf_extractor.py:169-173`, `226-230`);
  - the metadata captures, including the `Cons.` / `CONSELHEIRO`
    splitting of the relator and redator (`pdf_extractor.py:93-140`);
  - the three signature searches (`pdf_extractor.py:302`, `307-311`, `320`);
  - the repeated page-header pattern (`pdf_extractor.py:77`).

  The code around each of these searches is modelled.
- Extractor.CleanTextSpaces: holds only when the header pattern removes
  nothing, because the header removal is a given function and could join two
  spaces.
- `lower()` and `\w` are modelled on ASCII and Latin-1. `str.isspace` is
  modelled on its full character set. Case folding beyond Latin-1 and
  non-ASCII `\d` digits in the date capture are not modelled.
- Reranker scores are exact `real`s, not IEEE doubles, so rounding in the
  products is not modelled.
- The pydantic error text is a given function `describe` of the failing
  fields. A decision that is a non-empty non-string makes the validator at
  `schemas.py:38-43` raise an `AttributeError` rather than a validation
  error. The model reports it as a failing `acordao.decisao` field. Both
  end as one "Erro inesperado" error, and only the message text differs.
- Logging (`log.*`) has no effect on results and is left out.
- Reranker.RerankByRelevance: `top_k` is always passed. The default of 5 at
  `reranker.py:17` is a Python default argument, which Dafny methods do not
  have.
- The JSON cache of validated documents, the structural chunker
  (`add_documents_with_structured_chunking`, which is not part of this
  model), the vector store, the HTTP server and the user interface are left
  out.
