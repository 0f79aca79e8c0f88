/** The deterministic parts of `AcordaoExtractor` (server/modules/pdf_extractor.py):
    text cleaning, metadata and session date, headnote tagging, the JSON scan
    of the language model's reply, the signature block, and the assembly of
    the `ExtractionResult`. Reading the PDF, the regular-expression searches
    for sections and names, the chat-completion call and `json.loads` are
    given as inputs: values, or functions from the text they see. */
module Extractor {
  import opened Wrappers
  import opened Text
  import opened Patterns
  import opened Schemas

  // ---------------------------------------------------------------------------
  // `clean_text`

  /** `re.sub(r'\n\s*\n', '\n\n', s)`. At a newline, `\s*` takes the whole
      whitespace run after it and backs off to its last newline; a run with no
      further newline leaves the character alone. */
  function CollapseBlankLines(s: string): string
    decreases |s|
  {
    if s == [] then []
    else if s[0] == '\n' then
      match LastNewlineOfRun(s)
      case Some(k) => "\n\n" + CollapseBlankLines(s[k + 2..])
      case None => "\n" + CollapseBlankLines(s[1..])
    else [s[0]] + CollapseBlankLines(s[1..])
  }

  /** Text without newlines passes through unchanged. */
  lemma {:induction false} CollapseBlankLinesNoNewline(w: string, rest: string)
    requires '\n' !in w
    ensures CollapseBlankLines(w + rest) == w + CollapseBlankLines(rest)
  {
    if w != [] {
      assert (w + rest)[1..] == w[1..] + rest;
      CollapseBlankLinesNoNewline(w[1..], rest);
    } else {
      assert w + rest == rest;
    }
  }

  /** At a newline, how far the whitespace run after it reaches; `CollapseBlankLines`
      looks for a newline within it. */
  function RunAfterNewline(s: string): (run: string)
    requires s != []
    ensures |run| < |s| && run == s[1..1 + |run|] && AllSpace(run)
  {
    var n := StripStart(s[1..]);
    assert s[1..][..n] == s[1..1 + n];
    s[1..1 + n]
  }

  /** The last newline of that run, counted from the character after `s[0]`. */
  function LastNewlineOfRun(s: string): (r: Option<nat>)
    requires s != []
    ensures r.Some? ==> r.value + 2 <= |s|
  {
    LastIndexOf(RunAfterNewline(s), '\n')
  }

  lemma CollapseKeepsNewline(s: string)
    requires s != [] && s[0] == '\n' && '\n' !in RunAfterNewline(s)
    ensures CollapseBlankLines(s) == "\n" + CollapseBlankLines(s[1..])
  {
  }

  lemma CollapseMergesNewlines(s: string, k: nat)
    requires s != [] && s[0] == '\n' && LastNewlineOfRun(s) == Some(k)
    ensures k + 2 <= |s| && CollapseBlankLines(s) == "\n\n" + CollapseBlankLines(s[k + 2..])
  {
  }

  /** A whitespace run holding two or more newlines becomes `"\n\n"` from its
      first to its last newline; what follows the last newline is kept. */
  lemma CollapseBlankRun(w1: string, w2: string, rest: string)
    requires AllSpace(w1) && AllSpace(w2) && '\n' !in w2
    requires rest == [] || !IsSpace(rest[0])
    ensures CollapseBlankLines("\n" + w1 + "\n" + w2 + rest) == "\n\n" + w2 + CollapseBlankLines(rest)
  {
    var s := "\n" + w1 + "\n" + w2 + rest;
    BlankRunShape(w1, w2, rest);
    CollapseMergesNewlines(s, |w1|);
    CollapseBlankLinesNoNewline(w2, rest);
    AppendAssoc("\n\n", w2, CollapseBlankLines(rest));
  }

  lemma RunAfterNewlineIs(s: string, run: string, rest: string)
    requires s != [] && s[1..] == run + rest && StripStart(run + rest) == |run|
    ensures RunAfterNewline(s) == run
  {
    assert s[1..1 + |run|] == s[1..][..|run|] == (run + rest)[..|run|];
  }

  lemma BlankRunShape(w1: string, w2: string, rest: string)
    requires AllSpace(w1) && AllSpace(w2) && '\n' !in w2
    requires rest == [] || !IsSpace(rest[0])
    ensures var s := "\n" + w1 + "\n" + w2 + rest;
            && LastNewlineOfRun(s) == Some(|w1|)
            && s[|w1| + 2..] == w2 + rest
  {
    var s := "\n" + w1 + "\n" + w2 + rest;
    var run := w1 + "\n" + w2;
    var head := "\n" + w1 + "\n";
    assert s == head + (w2 + rest) by {
      AppendAssoc(head, w2, rest);
    }
    assert s[|w1| + 2..] == w2 + rest;
    assert s[1..] == run + rest by {
      AppendAssoc("\n", w1, "\n" + (w2 + rest));
      AppendAssoc("\n" + w1, "\n", w2 + rest);
      AppendAssoc(w1 + "\n", w2, rest);
      AppendAssoc(w1, "\n", w2 + rest);
      assert s == "\n" + (w1 + ("\n" + (w2 + rest)));
    }
    StripStartPrefix(run, rest);
    RunAfterNewlineIs(s, run, rest);
    assert LastIndexOf(run, '\n') == Some(|w1|) by {
      assert run[|w1|] == '\n' && run[|w1| + 1..] == w2;
    }
  }

  /** A newline whose following whitespace holds no other newline is kept,
      together with that whitespace. */
  lemma CollapseSingleNewline(w: string, rest: string)
    requires AllSpace(w) && '\n' !in w
    requires rest == [] || !IsSpace(rest[0])
    ensures CollapseBlankLines("\n" + w + rest) == "\n" + w + CollapseBlankLines(rest)
  {
    var s := "\n" + w + rest;
    RunAfterNewlineOf("\n", w, rest);
    CollapseKeepsNewline(s);
    CollapseBlankLinesNoNewline(w, rest);
    AppendAssoc("\n", w, CollapseBlankLines(rest));
  }

  lemma RunAfterNewlineOf(nl: string, w: string, rest: string)
    requires nl == "\n" && AllSpace(w) && (rest == [] || !IsSpace(rest[0]))
    ensures (nl + w + rest)[1..] == w + rest && RunAfterNewline(nl + w + rest) == w
  {
    var s := nl + w + rest;
    assert s[1..] == w + rest;
    StripStartPrefix(w, rest);
  }

  predicate NoDoubleSpace(s: string) {
    forall i :: 0 <= i < |s| - 1 ==> !(s[i] == ' ' && s[i + 1] == ' ')
  }

  /** `re.sub(r' +', ' ', s)`: each run of spaces becomes one space; no other
      character is touched. */
  function CollapseSpaces(s: string): (r: string)
    ensures |r| <= |s|
    ensures s != [] ==> r != [] && r[0] == s[0]
    ensures NoDoubleSpace(r)
    ensures RemoveChar(r, ' ') == RemoveChar(s, ' ')
  {
    if s == [] then []
    else if |s| >= 2 && s[0] == ' ' && s[1] == ' ' then CollapseSpaces(s[1..])
    else
      var r := [s[0]] + CollapseSpaces(s[1..]);
      assert r[1..] == CollapseSpaces(s[1..]);
      r
  }

  /** `n` spaces in a row. */
  function Spaces(n: nat): (r: string)
    ensures |r| == n && forall k :: 0 <= k < n ==> r[k] == ' '
  {
    seq(n, _ => ' ')
  }

  /** A run of one or more spaces collapses to a single space. */
  lemma {:induction false} CollapseSpaceRun(n: nat, rest: string)
    requires n >= 1 && (rest == [] || rest[0] != ' ')
    ensures CollapseSpaces(Spaces(n) + rest) == " " + CollapseSpaces(rest)
  {
    var s := Spaces(n) + rest;
    if n == 1 {
      assert s == [' '] + rest;
      assert s[1..] == rest;
    } else {
      assert s[1..] == Spaces(n - 1) + rest;
      CollapseSpaceRun(n - 1, rest);
    }
  }

  /** Text without two spaces in a row is a fixed point, so collapsing is
      idempotent. */
  lemma {:induction false} CollapseSpacesFixed(s: string)
    requires NoDoubleSpace(s)
    ensures CollapseSpaces(s) == s
  {
    if s != [] {
      assert NoDoubleSpace(s[1..]) by {
        forall i | 0 <= i < |s[1..]| - 1
          ensures !(s[1..][i] == ' ' && s[1..][i + 1] == ' ')
        {
          assert s[1..][i] == s[i + 1] && s[1..][i + 1] == s[i + 2];
        }
      }
      CollapseSpacesFixed(s[1..]);
      assert s == [s[0]] + s[1..];
    }
  }

  lemma CollapseSpacesIdempotent(s: string)
    ensures CollapseSpaces(CollapseSpaces(s)) == CollapseSpaces(s)
  {
    CollapseSpacesFixed(CollapseSpaces(s));
  }

  /** `clean_text`: blank lines, then space runs, then the repeated page
      header (a regular expression, given as `removeHeaders`), then `strip()`. */
  function CleanText(text: string, removeHeaders: string -> string): (r: string)
    ensures IsStripped(r)
  {
    Strip(removeHeaders(CollapseSpaces(CollapseBlankLines(text))))
  }

  /** When the header pattern finds nothing, the cleaned text keeps the
      single-space property of the space-collapsing step. */
  lemma CleanTextSpaces(text: string, removeHeaders: string -> string)
    requires removeHeaders(CollapseSpaces(CollapseBlankLines(text))) == CollapseSpaces(CollapseBlankLines(text))
    ensures NoDoubleSpace(CleanText(text, removeHeaders))
  {
    var t := CollapseSpaces(CollapseBlankLines(text));
    assert CleanText(text, removeHeaders) == Strip(t);
    StripNoDoubleSpace(t);
  }

  lemma StripNoDoubleSpace(t: string)
    requires NoDoubleSpace(t)
    ensures NoDoubleSpace(Strip(t))
  {
    var k := StripStart(t);
    NoDoubleSpaceSlice(t, k, k + |Strip(t)|);
  }

  lemma NoDoubleSpaceSlice(t: string, i: nat, j: nat)
    requires i <= j <= |t| && NoDoubleSpace(t)
    ensures NoDoubleSpace(t[i..j])
  {
    var r := t[i..j];
    forall p | 0 <= p < |r| - 1
      ensures !(r[p] == ' ' && r[p + 1] == ' ')
    {
      assert r[p] == t[i + p] && r[p + 1] == t[i + p + 1];
    }
  }

  // ---------------------------------------------------------------------------
  // `extract_metadata_regex`

  /** The groups of the session-date search `(\d{1,2})\s+de\s+(\w+)\s+de\s+(\d{4})`. */
  datatype DateMatch = DateMatch(dia: string, mesTexto: string, ano: string)

  type DateCapture = d: DateMatch | 1 <= |d.dia| <= 2 && AllDigits(d.dia) && |d.ano| == 4 && AllDigits(d.ano)
    witness DateMatch("10", "agosto", "2017")

  /** The first match of each metadata search, as captured: `acordao_numero`
      and `processo` as their group, the free-text fields before `strip()`,
      the relator and redator after the `Cons.` / `CONSELHEIRO` split. */
  datatype MetadataMatches = MetadataMatches(
    acordaoNumero: Option<string>,
    processo: Option<string>,
    recorrente: Option<string>,
    advogado: Option<string>,
    recorrida: Option<string>,
    procuradorFiscal: Option<string>,
    relator: Option<Relator>,
    redator: Option<Relator>,
    data: Option<DateCapture>)

  /** A value of the `metadata` dictionary: a string, or a `{'nome', 'tipo'}`
      dictionary. */
  datatype MetaValue = Str(text: string) | Person(person: Relator)

  /** The keys `extract_metadata_regex` can set. */
  datatype MetaKey =
    | AcordaoNumeroKey | ProcessoKey | RecorrenteKey | AdvogadoKey | RecorridaKey
    | ProcuradorFiscalKey | RelatorKey | RedatorKey | DataSessaoKey

  /** The dictionary key as the Python code spells it. */
  function KeyName(k: MetaKey): string {
    match k
    case AcordaoNumeroKey => "acordao_numero"
    case ProcessoKey => "processo"
    case RecorrenteKey => "recorrente"
    case AdvogadoKey => "advogado"
    case RecorridaKey => "recorrida"
    case ProcuradorFiscalKey => "procurador_fiscal"
    case RelatorKey => "relator"
    case RedatorKey => "redator"
    case DataSessaoKey => "data_sessao"
  }

  const MonthNames: seq<string> := [
    "janeiro", "fevereiro", "março", "abril", "maio", "junho",
    "julho", "agosto", "setembro", "outubro", "novembro", "dezembro"]

  /** The position of `x` in `xs`. */
  function Find(xs: seq<string>, x: string): (r: Option<nat>)
    ensures r.Some? ==> r.value < |xs| && xs[r.value] == x
    ensures r.None? ==> x !in xs
  {
    if xs == [] then None
    else if xs[0] == x then Some(0)
    else match Find(xs[1..], x)
      case None => None
      case Some(k) => Some(k + 1)
  }

  /** `meses.get(mes_texto.lower())`: the month number of a Portuguese month
      name in any case, or nothing for any other word. */
  function MonthNumber(name: string): (r: Option<nat>)
    ensures r.Some? ==> 1 <= r.value <= 12 && MonthNames[r.value - 1] == Lower(name)
    ensures r.None? ==> Lower(name) !in MonthNames
  {
    match Find(MonthNames, Lower(name))
    case None => None
    case Some(k) => Some(k + 1)
  }

  /** Month names are found in any case, accented capitals included. */
  lemma MonthNumberUpperCase()
    ensures MonthNumber("MARÇO") == Some(3)
  {
    assert Lower("MARÇO") == "março";
  }

  /** `f"{ano}-{mes:02d}-{int(dia):02d}"` when the month is known. */
  function DataSessao(d: DateCapture): (r: Option<string>)
    ensures r.Some? <==> MonthNumber(d.mesTexto).Some?
    ensures r.Some? ==> IsoShaped(r.value)
  {
    match MonthNumber(d.mesTexto)
    case None => None
    case Some(mes) =>
      DigitsValueBound(d.dia);
      var s := d.ano + "-" + Pad2(mes) + "-" + Pad2(DigitsValue(d.dia));
      DashedParts(d.ano, Pad2(mes), Pad2(DigitsValue(d.dia)));
      Some(s)
  }

  /** Where the parts of `a-b-c` lie, for a four-character `a` and
      two-character `b` and `c`. */
  lemma DashedParts(a: string, b: string, c: string)
    requires |a| == 4 && |b| == 2 && |c| == 2
    ensures var s := a + "-" + b + "-" + c;
            |s| == 10 && s[..4] == a && s[4] == '-' && s[5..7] == b && s[7] == '-' && s[8..] == c
  {
  }

  /** The calendar date a session date stands for. */
  function SessionDate(d: DateCapture, mes: nat): Date {
    Date(DigitsValue(d.ano), mes, DigitsValue(d.dia))
  }

  /** The schema accepts the session date exactly when it names a real day,
      and then reads back the day, month and year of the match. */
  lemma DataSessaoAccepted(d: DateCapture)
    requires MonthNumber(d.mesTexto).Some?
    ensures var date := SessionDate(d, MonthNumber(d.mesTexto).value);
            ParseIsoDate(DataSessao(d).value) == if ValidDate(date) then Some(date) else None
  {
    var mes := MonthNumber(d.mesTexto).value;
    DigitsValueBound(d.dia);
    DashedParts(d.ano, Pad2(mes), Pad2(DigitsValue(d.dia)));
  }

  /** The order in which `extract_metadata_regex` tries the keys. */
  function KeyIndex(k: MetaKey): (n: nat)
    ensures n < 9
  {
    match k
    case AcordaoNumeroKey => 0
    case ProcessoKey => 1
    case RecorrenteKey => 2
    case AdvogadoKey => 3
    case RecorridaKey => 4
    case ProcuradorFiscalKey => 5
    case RelatorKey => 6
    case RedatorKey => 7
    case DataSessaoKey => 8
  }

  function KeyAt(n: nat): (k: MetaKey)
    requires n < 9
    ensures KeyIndex(k) == n
  {
    [AcordaoNumeroKey, ProcessoKey, RecorrenteKey, AdvogadoKey, RecorridaKey,
     ProcuradorFiscalKey, RelatorKey, RedatorKey, DataSessaoKey][n]
  }

  /** What `extract_metadata_regex` stores under a key: the group of a match
      that was found, stripped for the free-text fields; the session date only
      when its month name is known; nothing otherwise. */
  function MetadataEntry(m: MetadataMatches, k: MetaKey): Option<MetaValue> {
    match k
    case AcordaoNumeroKey => Captured(m.acordaoNumero)
    case ProcessoKey => Captured(m.processo)
    case RecorrenteKey => CapturedStripped(m.recorrente)
    case AdvogadoKey => CapturedStripped(m.advogado)
    case RecorridaKey => CapturedStripped(m.recorrida)
    case ProcuradorFiscalKey => CapturedStripped(m.procuradorFiscal)
    case RelatorKey => CapturedPerson(m.relator)
    case RedatorKey => CapturedPerson(m.redator)
    case DataSessaoKey =>
      if m.data.Some? && DataSessao(m.data.value).Some? then Some(Str(DataSessao(m.data.value).value))
      else None
  }

  lemma KeyAtIndex(k: MetaKey)
    ensures KeyAt(KeyIndex(k)) == k
  {
  }

  /** The dictionary after the first `n` searches, given what each search
      stores, in the order they run. */
  ghost function Filled(entries: seq<Option<MetaValue>>, n: nat): map<MetaKey, MetaValue>
    requires n <= |entries| == 9
  {
    if n == 0 then map[]
    else
      var k := KeyAt(n - 1);
      if entries[n - 1].Some? then Filled(entries, n - 1)[k := entries[n - 1].value]
      else Filled(entries, n - 1)
  }

  /** After the first `n` searches the dictionary holds exactly the entries of
      the keys tried so far. */
  lemma {:induction false} FilledEntries(entries: seq<Option<MetaValue>>, n: nat)
    requires n <= |entries| == 9
    ensures forall k :: k in Filled(entries, n) <==> KeyIndex(k) < n && entries[KeyIndex(k)].Some?
    ensures forall k :: k in Filled(entries, n) ==> Filled(entries, n)[k] == entries[KeyIndex(k)].value
  {
    if n > 0 {
      FilledEntries(entries, n - 1);
      forall k | KeyIndex(k) == n - 1
        ensures k == KeyAt(n - 1)
      {
        KeyAtIndex(k);
      }
    }
  }

  /** `extract_metadata_regex`: a key for every search that matched, holding
      what `MetadataEntry` says, and no other key. */
  method ExtractMetadataRegex(m: MetadataMatches) returns (metadata: map<MetaKey, MetaValue>)
    ensures forall k :: k in metadata <==> MetadataEntry(m, k).Some?
    ensures forall k :: k in metadata ==> metadata[k] == MetadataEntry(m, k).value
  {
    ghost var entries := seq(9, i requires 0 <= i < 9 => MetadataEntry(m, KeyAt(i)));
    metadata := map[];
    metadata := Put(metadata, AcordaoNumeroKey, Captured(m.acordaoNumero), entries, 0);
    metadata := Put(metadata, ProcessoKey, Captured(m.processo), entries, 1);
    metadata := Put(metadata, RecorrenteKey, CapturedStripped(m.recorrente), entries, 2);
    metadata := Put(metadata, AdvogadoKey, CapturedStripped(m.advogado), entries, 3);
    metadata := Put(metadata, RecorridaKey, CapturedStripped(m.recorrida), entries, 4);
    metadata := Put(metadata, ProcuradorFiscalKey, CapturedStripped(m.procuradorFiscal), entries, 5);
    metadata := Put(metadata, RelatorKey, CapturedPerson(m.relator), entries, 6);
    metadata := Put(metadata, RedatorKey, CapturedPerson(m.redator), entries, 7);
    var date: Option<MetaValue> := None;
    if m.data.Some? {
      var mes := MonthNumber(m.data.value.mesTexto);
      if mes.Some? {
        date := Some(Str(DataSessao(m.data.value).value));
      }
    }
    metadata := Put(metadata, DataSessaoKey, date, entries, 8);
    FilledEntries(entries, 9);
    forall k
      ensures entries[KeyIndex(k)] == MetadataEntry(m, k)
    {
      KeyAtIndex(k);
    }
  }

  /** `if match: metadata[key] = value`, for the `n`-th search. */
  method Put(metadata: map<MetaKey, MetaValue>, key: MetaKey, value: Option<MetaValue>,
             ghost entries: seq<Option<MetaValue>>, ghost n: nat)
    returns (r: map<MetaKey, MetaValue>)
    requires n < |entries| == 9 && metadata == Filled(entries, n) && KeyAt(n) == key && value == entries[n]
    ensures r == Filled(entries, n + 1)
  {
    r := metadata;
    if value.Some? {
      r := r[key := value.value];
    }
  }

  function Captured(group: Option<string>): Option<MetaValue> {
    if group.Some? then Some(Str(group.value)) else None
  }

  function CapturedStripped(group: Option<string>): Option<MetaValue> {
    if group.Some? then Some(Str(Strip(group.value))) else None
  }

  function CapturedPerson(p: Option<Relator>): Option<MetaValue> {
    if p.Some? then Some(Person(p.value)) else None
  }

  // ---------------------------------------------------------------------------
  // `extract_ementa`

  /** `a` is `b` with some elements left out, in the same order. */
  predicate IsSubsequence<T(==)>(a: seq<T>, b: seq<T>)
    decreases |b|
  {
    if a == [] then true
    else if b == [] then false
    else (a[|a| - 1] == b[|b| - 1] && IsSubsequence(a[..|a| - 1], b[..|b| - 1]))
         || IsSubsequence(a, b[..|b| - 1])
  }

  predicate Distinct<T(==)>(xs: seq<T>) {
    forall i, j :: 0 <= i < j < |xs| ==> xs[i] != xs[j]
  }

  /** A subsequence of a list without repetitions has none either, and holds
      only elements of that list. */
  lemma {:induction false} SubsequenceDistinct<T>(a: seq<T>, b: seq<T>)
    requires IsSubsequence(a, b) && Distinct(b)
    ensures Distinct(a) && forall x :: x in a ==> x in b
    decreases |b|
  {
    if a != [] {
      var b' := b[..|b| - 1];
      assert Distinct(b') by {
        forall i, j | 0 <= i < j < |b'|
          ensures b'[i] != b'[j]
        {
          assert b'[i] == b[i] && b'[j] == b[j];
        }
      }
      if a[|a| - 1] == b[|b| - 1] && IsSubsequence(a[..|a| - 1], b') {
        var a' := a[..|a| - 1];
        SubsequenceDistinct(a', b');
        assert a == a' + [b[|b| - 1]];
        forall i | 0 <= i < |a'|
          ensures a'[i] != a[|a| - 1]
        {
          assert a'[i] in a';
          var k :| 0 <= k < |b'| && b'[k] == a'[i];
          assert b[k] == a'[i];
        }
      } else {
        SubsequenceDistinct(a, b');
      }
    }
  }

  /** The tax codes, in the order `extract_ementa` tries them. */
  const Tributos: seq<string> := ["ICMS", "IPVA", "ITCD"]

  /** The position of the first candidate found as a whole word in `line`. */
  function FirstTax(candidates: seq<string>, line: string): (r: Option<nat>)
    ensures r.Some? ==> && r.value < |candidates| && Search(TaxPattern(candidates[r.value]), line)
                        && forall j :: 0 <= j < r.value ==> !Search(TaxPattern(candidates[j]), line)
    ensures r.None? ==> forall j :: 0 <= j < |candidates| ==> !Search(TaxPattern(candidates[j]), line)
  {
    if candidates == [] then None
    else if Search(TaxPattern(candidates[0]), line) then Some(0)
    else match FirstTax(candidates[1..], line)
      case None => None
      case Some(k) => Some(k + 1)
  }

  /** `tipo_tributo` for a headnote whose first line is `line`. */
  function TipoTributo(line: string): Option<string> {
    match FirstTax(Tributos, line)
    case None => None
    case Some(k) => Some(Tributos[k])
  }

  /** The priority order unfolded: ICMS, else IPVA, else ITCD. */
  lemma TipoTributoCases(line: string)
    ensures TipoTributo(line) ==
      if Search(TaxPattern("ICMS"), line) then Some("ICMS")
      else if Search(TaxPattern("IPVA"), line) then Some("IPVA")
      else if Search(TaxPattern("ITCD"), line) then Some("ITCD")
      else None
  {
    var t1 := Tributos[1..];
    var t2 := t1[1..];
    assert Tributos[0] == "ICMS" && t1 == ["IPVA", "ITCD"] && t1[0] == "IPVA";
    assert t2 == ["ITCD"] && t2[0] == "ITCD" && t2[1..] == [];
    assert FirstTax(t2, line) == if Search(TaxPattern("ITCD"), line) then Some(0) else None;
    assert FirstTax(t1, line) == if Search(TaxPattern("IPVA"), line) then Some(0)
                                 else if Search(TaxPattern("ITCD"), line) then Some(1) else None;
  }

  function TaxTags(tipo: Option<string>): seq<string> {
    if tipo.Some? then [tipo.value] else []
  }

  /** The `temas` dictionary, in its insertion order. */
  const Temas: seq<(string, Pattern)> := [
    ("BENEFÍCIO FISCAL", BeneficioFiscal),
    ("ISENÇÃO", Isencao),
    ("SUBSTITUIÇÃO TRIBUTÁRIA", SubstituicaoTributaria),
    ("OBRIGAÇÃO ACESSÓRIA", ObrigacaoAcessoria)]

  function Labels(temas: seq<(string, Pattern)>): (r: seq<string>)
    ensures |r| == |temas| && forall k :: 0 <= k < |temas| ==> r[k] == temas[k].0
  {
    seq(|temas|, k requires 0 <= k < |temas| => temas[k].0)
  }

  /** The labels of the themes whose pattern occurs in `texto`, in list order. */
  function Tagged(temas: seq<(string, Pattern)>, texto: string): (r: seq<string>)
    ensures forall x :: x in r <==> exists k :: 0 <= k < |temas| && temas[k].0 == x && Search(temas[k].1, texto)
  {
    if temas == [] then []
    else
      var init, last := temas[..|temas| - 1], temas[|temas| - 1];
      var r := Tagged(init, texto) + (if Search(last.1, texto) then [last.0] else []);
      assert forall k :: 0 <= k < |init| ==> init[k] == temas[k];
      r
  }

  /** One more theme tried: its label is appended when its pattern is found. */
  lemma TaggedStep(temas: seq<(string, Pattern)>, k: nat, texto: string)
    requires k < |temas|
    ensures Tagged(temas[..k + 1], texto)
         == Tagged(temas[..k], texto) + (if Search(temas[k].1, texto) then [temas[k].0] else [])
  {
    assert temas[..k + 1][..k] == temas[..k];
  }

  lemma {:induction false} TaggedInOrder(temas: seq<(string, Pattern)>, texto: string)
    ensures IsSubsequence(Tagged(temas, texto), Labels(temas))
  {
    if temas != [] {
      var init := temas[..|temas| - 1];
      TaggedInOrder(init, texto);
      assert Labels(temas)[..|temas| - 1] == Labels(init);
      var r := Tagged(temas, texto);
      if !Search(temas[|temas| - 1].1, texto) {
        assert r == Tagged(init, texto);
      } else {
        assert r[..|r| - 1] == Tagged(init, texto);
      }
    }
  }

  /** The headnote labels: the four themes, and no theme named like a tax. */
  lemma LabelsDistinct()
    ensures Distinct(Labels(Temas))
    ensures forall t :: t in Tributos ==> t !in Labels(Temas)
  {
    var l := Labels(Temas);
    assert l == ["BENEFÍCIO FISCAL", "ISENÇÃO", "SUBSTITUIÇÃO TRIBUTÁRIA", "OBRIGAÇÃO ACESSÓRIA"];
  }

  /** The keywords of a headnote have no repetitions: the tax first, then each
      theme found at most once. */
  lemma KeywordsDistinct(tipo: Option<string>, texto: string)
    requires tipo.Some? ==> tipo.value in Tributos
    ensures Distinct(TaxTags(tipo) + Tagged(Temas, texto))
  {
    var themes := Tagged(Temas, texto);
    LabelsDistinct();
    TaggedInOrder(Temas, texto);
    SubsequenceDistinct(themes, Labels(Temas));
    var r := TaxTags(tipo) + themes;
    if tipo.Some? {
      forall i, j | 0 <= i < j < |r|
        ensures r[i] != r[j]
      {
        assert r[j] == themes[j - 1];
        if i > 0 {
          assert r[i] == themes[i - 1];
        }
      }
    } else {
      assert r == themes;
    }
  }

  /** The headnote built from a captured section: the stripped text, the tax
      of its first line, and the keywords. */
  function Headnote(section: string): Ementa {
    var texto := Strip(section);
    var tipo := TipoTributo(SplitLines(texto)[0]);
    Ementa(texto, TaxTags(tipo) + Tagged(Temas, texto), tipo)
  }

  /** `extract_ementa`, given the text its section search captured (or none):
      the tax of the first line by priority, then every theme found in the
      whole headnote, in dictionary order. */
  method ExtractEmenta(section: Option<string>) returns (ementa: Option<Ementa>)
    ensures ementa.Some? <==> section.Some?
    ensures ementa.Some? ==>
      var texto := Strip(section.value);
      var tipo := TipoTributo(SplitLines(texto)[0]);
      ementa.value == Ementa(texto, TaxTags(tipo) + Tagged(Temas, texto), tipo)
    ensures ementa.Some? ==> ementa.value == Headnote(section.value)
    ensures ementa.Some? ==> Distinct(ementa.value.palavrasChave)
    ensures ementa.Some? && ementa.value.tipoTributo.Some? ==>
      ementa.value.palavrasChave[0] == ementa.value.tipoTributo.value
  {
    if section.None? {
      return None;
    }
    var texto := Strip(section.value);
    var primeira := SplitLines(texto)[0];
    var tipo, palavras := DetectTributo(primeira);
    palavras := DetectTemas(Temas, texto, palavras);
    KeywordsDistinct(tipo, texto);
    ementa := Some(Ementa(texto, palavras, tipo));
  }

  /** The `if`/`elif` chain on the first line of the headnote. */
  method DetectTributo(primeira: string) returns (tipo: Option<string>, palavras: seq<string>)
    ensures tipo == TipoTributo(primeira) && palavras == TaxTags(tipo)
  {
    palavras := [];
    tipo := None;
    if Search(TaxPattern("ICMS"), primeira) {
      tipo := Some("ICMS");
      palavras := palavras + ["ICMS"];
    } else if Search(TaxPattern("IPVA"), primeira) {
      tipo := Some("IPVA");
      palavras := palavras + ["IPVA"];
    } else if Search(TaxPattern("ITCD"), primeira) {
      tipo := Some("ITCD");
      palavras := palavras + ["ITCD"];
    }
    TipoTributoCases(primeira);
  }

  /** The loop over the themes, appending every label whose pattern occurs. */
  method DetectTemas(temas: seq<(string, Pattern)>, texto: string, palavras0: seq<string>)
    returns (palavras: seq<string>)
    ensures palavras == palavras0 + Tagged(temas, texto)
  {
    palavras := palavras0;
    assert temas[..0] == [];
    for k := 0 to |temas|
      invariant palavras == palavras0 + Tagged(temas[..k], texto)
    {
      TaggedStep(temas, k, texto);
      if Search(temas[k].1, texto) {
        AppendAssoc(palavras0, Tagged(temas[..k], texto), [temas[k].0]);
        palavras := palavras + [temas[k].0];
      }
    }
    assert temas[..|temas|] == temas;
  }

  // ---------------------------------------------------------------------------
  // `extract_acordao_llm`

  /** `reply[i..j + 1]` runs from the first `{` to the last `}`. */
  predicate BraceSpan(reply: string, i: nat, j: nat) {
    && i < j < |reply| && reply[i] == '{' && reply[j] == '}'
    && '{' !in reply[..i] && '}' !in reply[j + 1..]
  }

  /** `re.search(r'\{.*\}', reply, re.DOTALL)`: the text from the first `{`
      to the last `}`, when some `}` follows the first `{`. */
  function ExtractJsonObject(reply: string): (r: Option<string>)
    ensures r.Some? <==> exists i, j :: 0 <= i < j < |reply| && reply[i] == '{' && reply[j] == '}'
    ensures r.Some? ==> exists i: nat, j: nat :: BraceSpan(reply, i, j) && r.value == reply[i..j + 1]
  {
    match IndexOf(reply, '{')
    case None => None
    case Some(i) =>
      match LastIndexOf(reply, '}')
      case None => None
      case Some(j) =>
        if i < j then
          assert BraceSpan(reply, i, j);
          Some(reply[i..j + 1])
        else
          None
  }

  /** The brace span is unique: the first `{` and the last `}` pin it down. */
  lemma BraceSpanUnique(reply: string, i: nat, j: nat, i': nat, j': nat)
    requires BraceSpan(reply, i, j) && BraceSpan(reply, i', j')
    ensures i == i' && j == j'
  {
  }

  /** What `json.loads` of the brace span yields, when it parses as an object:
      the three keys the prompt asks for, each missing, `null`, of the type
      `Acordao` declares, or of another type. */
  datatype LlmFields = LlmFields(decisao: JsonField<string>, votacao: JsonField<string>,
                                 participantes: JsonField<seq<string>>)

  /** `texto_acordao[:1500]`. */
  function Excerpt(texto: string): (r: string)
    ensures |r| == if |texto| <= 1500 then |texto| else 1500
    ensures r == texto[..|r|]
  {
    if |texto| <= 1500 then texto else texto[..1500]
  }

  /** `extract_acordao_llm`, given the section search, the chat completion of
      the prompt built around an excerpt (`None` when the call raises), and the
      JSON parser (`None` when it raises). The parsed object's
      `texto_completo` is replaced by the section text. */
  function ExtractAcordaoLlm(section: Option<string>, complete: string -> Option<string>,
                            parse: string -> Option<LlmFields>): (r: Option<AcordaoInput>)
    ensures r.Some? ==> section.Some? && r.value.textoCompleto == Strip(section.value)
    ensures r.Some? ==>
      var reply := complete(Excerpt(Strip(section.value)));
      && reply.Some?
      && ExtractJsonObject(Strip(reply.value)).Some?
      && parse(ExtractJsonObject(Strip(reply.value)).value) ==
           Some(LlmFields(r.value.decisao, r.value.votacao, r.value.participantes))
    ensures section.Some? && r.None? ==>
      var reply := complete(Excerpt(Strip(section.value)));
      reply.None? || ExtractJsonObject(Strip(reply.value)).None?
      || parse(ExtractJsonObject(Strip(reply.value)).value).None?
  {
    match section
    case None => None
    case Some(group) =>
      var texto := Strip(group);
      match complete(Excerpt(texto))
      case None => None
      case Some(reply) =>
        match ExtractJsonObject(Strip(reply))
        case None => None
        case Some(obj) =>
          match parse(obj)
          case None => None
          case Some(f) => Some(AcordaoInput(texto, f.decisao, f.votacao, f.participantes))
  }

  // ---------------------------------------------------------------------------
  // `extract_assinaturas`

  /** The signature searches over the signature block: the name before
      `Presidente`, the name and title of every `Conselheiro …` match in
      order, and the name before `Procurador Fiscal`, all before `strip()`. */
  datatype SignatureMatches = SignatureMatches(
    presidente: string -> Option<string>,
    conselheiros: string -> seq<(string, string)>,
    procurador: string -> Option<string>)

  /** `'\n'.join(text.split('\n')[-15:])`. */
  function SignatureBlock(text: string): string {
    var lines := SplitLines(text);
    JoinLines(lines[|lines| - (if |lines| < 15 then |lines| else 15)..])
  }

  /** The signature block is the end of the text that starts a line and
      holds its last fifteen lines (fourteen newlines), or the whole text when
      that has no more lines. */
  lemma SignatureBlockIsTail(text: string)
    ensures IsSuffix(SignatureBlock(text), text)
    ensures CountChar(SignatureBlock(text), '\n') == if CountChar(text, '\n') < 14 then CountChar(text, '\n') else 14
    ensures |SignatureBlock(text)| < |text| ==> text[|text| - |SignatureBlock(text)| - 1] == '\n'
    ensures CountChar(text, '\n') < 15 ==> SignatureBlock(text) == text
  {
    var lines := SplitLines(text);
    JoinSplitLines(text);
    LastLines(lines, text);
  }

  /** The same facts about any list of lines that joins to `text`. */
  lemma LastLines(lines: seq<string>, text: string)
    requires |lines| >= 1 && forall k :: 0 <= k < |lines| ==> '\n' !in lines[k]
    requires JoinLines(lines) == text
    ensures var block := JoinLines(lines[|lines| - (if |lines| < 15 then |lines| else 15)..]);
      && IsSuffix(block, text)
      && CountChar(block, '\n') == (if CountChar(text, '\n') < 14 then CountChar(text, '\n') else 14)
      && (|block| < |text| ==> text[|text| - |block| - 1] == '\n')
      && (CountChar(text, '\n') < 15 ==> block == text)
  {
    var k := |lines| - (if |lines| < 15 then |lines| else 15);
    JoinLinesNewlines(lines);
    JoinLinesNewlines(lines[k..]);
    JoinLinesTail(lines, k);
    if k == 0 {
      assert lines[k..] == lines;
    }
  }

  predicate HasName(assinaturas: seq<Assinatura>, nome: string) {
    exists k :: 0 <= k < |assinaturas| && assinaturas[k].nome == nome
  }

  predicate DistinctNames(assinaturas: seq<Assinatura>) {
    forall i, j :: 0 <= i < j < |assinaturas| ==> assinaturas[i].nome != assinaturas[j].nome
  }

  /** `if not any(a['nome'] == nome for a in assinaturas): assinaturas.append(…)`. */
  function AddSignature(assinaturas: seq<Assinatura>, a: Assinatura): (r: seq<Assinatura>)
    ensures HasName(r, a.nome)
    ensures r == assinaturas || r == assinaturas + [a]
  {
    if HasName(assinaturas, a.nome) then assinaturas
    else
      var r := assinaturas + [a];
      assert r[|assinaturas|] == a;
      r
  }

  /** Adding a signature keeps the names pairwise distinct. */
  lemma AddSignatureDistinct(assinaturas: seq<Assinatura>, a: Assinatura)
    requires DistinctNames(assinaturas)
    ensures DistinctNames(AddSignature(assinaturas, a))
  {
  }

  /** A name present in a list stays present in every extension of it. */
  lemma HasNameExtended(prev: seq<Assinatura>, r: seq<Assinatura>, nome: string)
    requires prev <= r && HasName(prev, nome)
    ensures HasName(r, nome)
  {
    var j :| 0 <= j < |prev| && prev[j].nome == nome;
    assert r[j] == prev[j];
  }

  /** The signatures each search proposes, in the order they are tried:
      the Presidente, every `Conselheiro …` match, the Procurador Fiscal. */
  function Presidente(nome: string): Assinatura {
    Assinatura(Strip(nome), "Presidente")
  }

  function Presidentes(block: string, m: SignatureMatches): seq<Assinatura> {
    match m.presidente(block)
    case Some(nome) => [Presidente(nome)]
    case None => []
  }

  function Conselheiro(match_: (string, string)): Assinatura {
    Assinatura(Strip(match_.0), Strip(match_.1))
  }

  function MapSeq<A, B>(f: A -> B, xs: seq<A>): (r: seq<B>)
    ensures |r| == |xs| && forall k :: 0 <= k < |xs| ==> r[k] == f(xs[k])
  {
    seq(|xs|, k requires 0 <= k < |xs| => f(xs[k]))
  }

  lemma MapSeqSnoc<A, B>(f: A -> B, xs: seq<A>, k: nat)
    requires k < |xs|
    ensures MapSeq(f, xs[..k + 1]) == MapSeq(f, xs[..k]) + [f(xs[k])]
  {
    var a, b := MapSeq(f, xs[..k + 1]), MapSeq(f, xs[..k]) + [f(xs[k])];
    forall i | 0 <= i < |a|
      ensures a[i] == b[i]
    {
      assert xs[..k + 1][i] == xs[i];
      if i < k {
        assert xs[..k][i] == xs[i];
      }
    }
  }

  function Conselheiros(ms: seq<(string, string)>): seq<Assinatura> {
    MapSeq(Conselheiro, ms)
  }

  function Procurador(nome: string): Assinatura {
    Assinatura(Strip(nome), "Procurador Fiscal")
  }

  function Procuradores(block: string, m: SignatureMatches): seq<Assinatura> {
    match m.procurador(block)
    case Some(nome) => [Procurador(nome)]
    case None => []
  }

  function Candidates(block: string, m: SignatureMatches): seq<Assinatura> {
    Presidentes(block, m) + Conselheiros(m.conselheiros(block)) + Procuradores(block, m)
  }

  /** The candidates added in order, each unless its name is already there. */
  function AddAll(assinaturas: seq<Assinatura>, novas: seq<Assinatura>): seq<Assinatura> {
    if novas == [] then assinaturas
    else AddSignature(AddAll(assinaturas, novas[..|novas| - 1]), novas[|novas| - 1])
  }

  lemma AddAllSnoc(assinaturas: seq<Assinatura>, novas: seq<Assinatura>, a: Assinatura)
    ensures AddAll(assinaturas, novas + [a]) == AddSignature(AddAll(assinaturas, novas), a)
  {
    assert (novas + [a])[..|novas|] == novas;
  }

  /** What adding the candidates does: the list before stays a prefix, names
      stay pairwise distinct, every candidate's name becomes present, and
      every new entry is a candidate. */
  lemma {:induction false} AddAllSpec(assinaturas: seq<Assinatura>, novas: seq<Assinatura>)
    requires DistinctNames(assinaturas)
    ensures var r := AddAll(assinaturas, novas);
            && DistinctNames(r)
            && assinaturas <= r
            && (forall k :: 0 <= k < |novas| ==> HasName(r, novas[k].nome))
            && (forall i :: |assinaturas| <= i < |r| ==> r[i] in novas)
  {
    if novas != [] {
      var init, last := novas[..|novas| - 1], novas[|novas| - 1];
      AddAllSpec(assinaturas, init);
      var prev := AddAll(assinaturas, init);
      var r := AddAll(assinaturas, novas);
      assert r == AddSignature(prev, last);
      AddSignatureDistinct(prev, last);
      assert prev <= r;
      forall k | 0 <= k < |novas|
        ensures HasName(r, novas[k].nome)
      {
        if k < |init| {
          assert init[k] == novas[k];
          HasNameExtended(prev, r, init[k].nome);
        }
      }
      forall i | |assinaturas| <= i < |r|
        ensures r[i] in novas
      {
        if i < |prev| {
          assert r[i] == prev[i] && prev[i] in init;
        } else {
          assert r[i] == last;
        }
      }
    }
  }

  /** The first candidate always comes first. */
  lemma {:induction false} AddAllFirst(novas: seq<Assinatura>)
    requires novas != []
    ensures |AddAll([], novas)| >= 1 && AddAll([], novas)[0] == novas[0]
  {
    var init := novas[..|novas| - 1];
    if init == [] {
      assert AddAll([], novas) == AddSignature([], novas[0]);
      assert !HasName([], novas[0].nome);
    } else {
      AddAllFirst(init);
      assert AddAll([], novas) == AddSignature(AddAll([], init), novas[|novas| - 1]);
    }
  }

  /** The signatures found in a signature block. */
  function Signatures(block: string, m: SignatureMatches): seq<Assinatura> {
    AddAll([], Candidates(block, m))
  }

  /** The signature list has pairwise distinct names, starts with the
      Presidente when that search matched, holds only what the searches
      proposed, and holds every name they proposed. */
  lemma SignaturesSpec(block: string, m: SignatureMatches)
    ensures var r := Signatures(block, m);
            && DistinctNames(r)
            && (forall i :: 0 <= i < |r| ==> r[i] in Candidates(block, m))
            && (forall a :: a in Candidates(block, m) ==> HasName(r, a.nome))
  {
    var c := Candidates(block, m);
    AddAllSpec([], c);
    forall a | a in c
      ensures HasName(Signatures(block, m), a.nome)
    {
      var k :| 0 <= k < |c| && c[k] == a;
    }
  }

  lemma SignaturesPresidenteFirst(block: string, m: SignatureMatches)
    requires m.presidente(block).Some?
    ensures var r := Signatures(block, m);
            |r| >= 1 && r[0] == Presidente(m.presidente(block).value)
  {
    var c := Candidates(block, m);
    assert c[0] == Presidentes(block, m)[0];
    AddAllFirst(c);
  }

  /** Adding two runs of candidates is adding the first, then the second. */
  lemma {:induction false} AddAllAppend(assinaturas: seq<Assinatura>, xs: seq<Assinatura>, ys: seq<Assinatura>)
    ensures AddAll(assinaturas, xs + ys) == AddAll(AddAll(assinaturas, xs), ys)
    decreases |ys|
  {
    if ys == [] {
      assert xs + ys == xs;
    } else {
      var init, last := ys[..|ys| - 1], ys[|ys| - 1];
      AddAllAppend(assinaturas, xs, init);
      assert (xs + ys)[..|xs + ys| - 1] == xs + init;
    }
  }

  /** The three searches' candidates can be added stage by stage. */
  lemma SignaturesByStage(block: string, m: SignatureMatches)
    ensures Signatures(block, m)
         == AddAll(AddAll(AddAll([], Presidentes(block, m)), Conselheiros(m.conselheiros(block))), Procuradores(block, m))
  {
    var p, c, q := Presidentes(block, m), Conselheiros(m.conselheiros(block)), Procuradores(block, m);
    AddAllAppend([], p + c, q);
    AddAllAppend([], p, c);
  }

  /** The loop over the `Conselheiro …` matches. */
  method AddConselheiros(assinaturas0: seq<Assinatura>, cs: seq<(string, string)>)
    returns (assinaturas: seq<Assinatura>)
    ensures assinaturas == AddAll(assinaturas0, Conselheiros(cs))
  {
    assinaturas := assinaturas0;
    assert Conselheiros(cs[..0]) == [];
    for k := 0 to |cs|
      invariant assinaturas == AddAll(assinaturas0, Conselheiros(cs[..k]))
    {
      var nome := Strip(cs[k].0);
      var cargo := Strip(cs[k].1);
      MapSeqSnoc(Conselheiro, cs, k);
      AddAllSnoc(assinaturas0, Conselheiros(cs[..k]), Assinatura(nome, cargo));
      if !HasName(assinaturas, nome) {
        assinaturas := assinaturas + [Assinatura(nome, cargo)];
      }
    }
    assert cs[..|cs|] == cs;
  }

  /** The `Presidente` search: its name, when found, opens the list. */
  method AddPresidente(block: string, m: SignatureMatches) returns (assinaturas: seq<Assinatura>)
    ensures assinaturas == AddAll([], Presidentes(block, m))
  {
    assinaturas := [];
    match m.presidente(block) {
      case Some(nome) =>
        var presidente := Presidente(nome);
        assert Presidentes(block, m) == [] + [presidente];
        AddAllSnoc([], [], presidente);
        assert !HasName([], presidente.nome);
        assinaturas := assinaturas + [presidente];
      case None =>
    }
  }

  /** The `Procurador Fiscal` search: its name is added unless already there. */
  method AddProcurador(assinaturas0: seq<Assinatura>, block: string, m: SignatureMatches)
    returns (assinaturas: seq<Assinatura>)
    ensures assinaturas == AddAll(assinaturas0, Procuradores(block, m))
  {
    assinaturas := assinaturas0;
    match m.procurador(block) {
      case Some(nome) =>
        var procurador := Procurador(nome);
        assert Procuradores(block, m) == [] + [procurador];
        AddAllSnoc(assinaturas0, [], procurador);
        if !HasName(assinaturas, procurador.nome) {
          assinaturas := assinaturas + [procurador];
        }
      case None =>
    }
  }

  /** `extract_assinaturas`: the three searches run over the last fifteen
      lines, and each name is added once. */
  method ExtractAssinaturas(text: string, m: SignatureMatches) returns (assinaturas: seq<Assinatura>)
    ensures assinaturas == Signatures(SignatureBlock(text), m)
    ensures DistinctNames(assinaturas)
    ensures m.presidente(SignatureBlock(text)).Some? ==>
      |assinaturas| >= 1 && assinaturas[0] == Presidente(m.presidente(SignatureBlock(text)).value)
  {
    var block := SignatureBlock(text);
    assinaturas := AddPresidente(block, m);
    assinaturas := AddConselheiros(assinaturas, m.conselheiros(block));
    assinaturas := AddProcurador(assinaturas, block, m);
    SignaturesByStage(block, m);
    SignaturesSpec(block, m);
    if m.presidente(block).Some? {
      SignaturesPresidenteFirst(block, m);
    }
  }

  // ---------------------------------------------------------------------------
  // `extract_acordao`

  const Obrigatorios: seq<MetaKey> := [AcordaoNumeroKey, ProcessoKey, RecorrenteKey]

  /** `[c for c in keys if c not in metadata]`. */
  function Missing(keys: seq<MetaKey>, metadata: map<MetaKey, MetaValue>): (r: seq<MetaKey>)
    ensures forall k :: k in r <==> k in keys && k !in metadata
    ensures IsSubsequence(r, keys)
  {
    if keys == [] then []
    else
      var init, last := keys[..|keys| - 1], keys[|keys| - 1];
      var prev := Missing(init, metadata);
      assert keys == init + [last];
      if last in metadata then
        assert IsSubsequence(prev, keys) by {
          assert keys[..|keys| - 1] == init;
          SubsequenceOfLonger(prev, init, last);
        }
        prev
      else
        var r := prev + [last];
        assert r[..|r| - 1] == prev;
        r
  }

  /** The mandatory fields whose search found nothing, in the order of
      `campos_obrigatorios`. */
  function MissingFields(m: MetadataMatches): seq<MetaKey> {
    (if m.acordaoNumero.None? then [AcordaoNumeroKey] else [])
    + (if m.processo.None? then [ProcessoKey] else [])
    + (if m.recorrente.None? then [RecorrenteKey] else [])
  }

  /** Over the metadata `extract_metadata_regex` builds, the missing mandatory
      fields are exactly those whose search did not match, in their order. */
  lemma MissingOfMatches(m: MetadataMatches, metadata: map<MetaKey, MetaValue>)
    requires forall k :: k in metadata <==> MetadataEntry(m, k).Some?
    ensures Missing(Obrigatorios, metadata) == MissingFields(m)
  {
    assert (AcordaoNumeroKey in metadata) == m.acordaoNumero.Some? by {
      assert MetadataEntry(m, AcordaoNumeroKey) == Captured(m.acordaoNumero);
    }
    assert (ProcessoKey in metadata) == m.processo.Some? by {
      assert MetadataEntry(m, ProcessoKey) == Captured(m.processo);
    }
    assert (RecorrenteKey in metadata) == m.recorrente.Some? by {
      assert MetadataEntry(m, RecorrenteKey) == CapturedStripped(m.recorrente);
    }
    MissingObrigatorios(metadata);
  }

  /** `Missing` over the mandatory fields, written out. */
  lemma MissingObrigatorios(metadata: map<MetaKey, MetaValue>)
    ensures Missing(Obrigatorios, metadata)
      == (if AcordaoNumeroKey in metadata then [] else [AcordaoNumeroKey])
         + (if ProcessoKey in metadata then [] else [ProcessoKey])
         + (if RecorrenteKey in metadata then [] else [RecorrenteKey])
  {
    assert Obrigatorios[..2] == [AcordaoNumeroKey, ProcessoKey];
    assert Obrigatorios[..2][..1] == [AcordaoNumeroKey];
    assert [AcordaoNumeroKey][..0] == [];
  }

  lemma SubsequenceOfLonger<T>(a: seq<T>, b: seq<T>, x: T)
    requires IsSubsequence(a, b)
    ensures IsSubsequence(a, b + [x])
  {
    if a != [] {
      assert (b + [x])[..|b|] == b;
    }
  }

  /** Python's `str()` of a list of strings: `['a', 'b']`. */
  function ListRepr(xs: seq<string>): string {
    "[" + Quoted(xs) + "]"
  }

  function Quoted(xs: seq<string>): string {
    if xs == [] then ""
    else if |xs| == 1 then "'" + xs[0] + "'"
    else "'" + xs[0] + "', " + Quoted(xs[1..])
  }

  function KeyNames(keys: seq<MetaKey>): seq<string> {
    seq(|keys|, i requires 0 <= i < |keys| => KeyName(keys[i]))
  }

  function MissingMessage(missing: seq<MetaKey>): string {
    "Campos obrigatórios faltando: " + ListRepr(KeyNames(missing))
  }

  const EmentaAusente := "Ementa não extraída"
  const AcordaoAusente := "Acórdão não extraído"
  const SemAssinaturas := "Nenhuma assinatura extraída"

  /** The errors of step 3 of `extract_acordao`, in the order they are added:
      an error for the mandatory fields, one for the headnote, one for the
      decision; signatures never add one. */
  function ExtractionErrors(metadata: map<MetaKey, MetaValue>, ementa: Option<Ementa>,
                            acordao: Option<AcordaoInput>): seq<string>
  {
    var faltando := Missing(Obrigatorios, metadata);
    ((if faltando != [] then [MissingMessage(faltando)] else [])
     + (if ementa.None? then [EmentaAusente] else []))
    + (if acordao.None? then [AcordaoAusente] else [])
  }

  /** There is no error exactly when the mandatory fields, the headnote and
      the decision are all there; the field error comes first and names the
      missing fields, and each of the other two errors appears exactly when
      its part is missing. */
  lemma ExtractionErrorsSpec(metadata: map<MetaKey, MetaValue>, ementa: Option<Ementa>, acordao: Option<AcordaoInput>)
    ensures var r := ExtractionErrors(metadata, ementa, acordao);
            && (r == [] <==> Missing(Obrigatorios, metadata) == [] && ementa.Some? && acordao.Some?)
            && (Missing(Obrigatorios, metadata) != [] ==> r[0] == MissingMessage(Missing(Obrigatorios, metadata)))
            && (EmentaAusente in r <==> ementa.None?)
            && (AcordaoAusente in r <==> acordao.None?)
            && |r| <= 3
  {
    var faltando := Missing(Obrigatorios, metadata);
    var first := if faltando != [] then [MissingMessage(faltando)] else [];
    assert forall e :: e in first ==> e[0] == 'C';
  }

  function Warnings(assinaturas: seq<Assinatura>): seq<string> {
    if assinaturas == [] then [SemAssinaturas] else []
  }

  function TextOf(metadata: map<MetaKey, MetaValue>, k: MetaKey): Option<string> {
    if k in metadata && metadata[k].Str? then Some(metadata[k].text) else None
  }

  function PersonOf(metadata: map<MetaKey, MetaValue>, k: MetaKey): Option<Relator> {
    if k in metadata && metadata[k].Person? then Some(metadata[k].person) else None
  }

  /** `{**metadata, 'ementa': …, 'acordao': …, 'assinaturas': …, 'source_file': …}`. */
  function Documento(metadata: map<MetaKey, MetaValue>, ementa: Ementa, acordao: AcordaoInput,
                     assinaturas: seq<Assinatura>, sourceFile: string): DocumentoInput
  {
    DocumentoInput(
      TextOf(metadata, AcordaoNumeroKey), TextOf(metadata, ProcessoKey), TextOf(metadata, RecorrenteKey),
      Some(ementa), Some(acordao), Some(assinaturas),
      TextOf(metadata, AdvogadoKey), TextOf(metadata, RecorridaKey), TextOf(metadata, ProcuradorFiscalKey),
      PersonOf(metadata, RelatorKey), PersonOf(metadata, RedatorKey),
      TextOf(metadata, DataSessaoKey), None, Some(sourceFile))
  }

  /** Step 3 of `extract_acordao`: the errors, appended one by one. */
  method CollectErrors(metadata: map<MetaKey, MetaValue>, ementa: Option<Ementa>, acordao: Option<AcordaoInput>)
    returns (errors: seq<string>)
    ensures errors == ExtractionErrors(metadata, ementa, acordao)
  {
    errors := [];
    var faltando := Missing(Obrigatorios, metadata);
    if faltando != [] {
      errors := errors + [MissingMessage(faltando)];
    }
    if ementa.None? {
      errors := errors + [EmentaAusente];
    }
    if acordao.None? {
      errors := errors + [AcordaoAusente];
    }
  }

  /** Steps 3 to 6 of `extract_acordao`: collect errors and warnings, stop with
      them if there is an error, otherwise validate the document. A validation
      failure is an exception, reported as one "Erro inesperado" error (its
      text from `describe`) without warnings or raw text. */
  method AssembleResult(cleaned: string, metadata: map<MetaKey, MetaValue>, ementa: Option<Ementa>,
                        acordao: Option<AcordaoInput>, assinaturas: seq<Assinatura>,
                        sourceFile: string, describe: seq<string> -> string)
    returns (result: ExtractionResult)
    ensures result.sourceFile == sourceFile
    ensures result.success <==> result.documento.Some?
    ensures result.success ==> result.errors == [] && Valid(result.documento.value)
    ensures !result.success ==> result.errors != []
    ensures assinaturas == [] ==> !result.success
    ensures ExtractionErrors(metadata, ementa, acordao) != [] ==>
      result == ExtractionResult(false, None, ExtractionErrors(metadata, ementa, acordao),
                                 Warnings(assinaturas), Some(cleaned), sourceFile)
    ensures ExtractionErrors(metadata, ementa, acordao) == [] ==>
      var inp := Documento(metadata, ementa.value, acordao.value, assinaturas, sourceFile);
      && (result.success <==> Acceptable(inp))
      && (result.success ==> result == ExtractionResult(true, Some(Validate(inp).value), [],
                                                       Warnings(assinaturas), Some(cleaned), sourceFile))
      && (!result.success ==> result == ExtractionResult(false, None, ["Erro inesperado: " + describe(FieldErrors(inp))],
                                                        [], None, sourceFile))
  {
    var errors := CollectErrors(metadata, ementa, acordao);
    ExtractionErrorsSpec(metadata, ementa, acordao);
    var warnings: seq<string> := [];
    if assinaturas == [] {
      warnings := warnings + [SemAssinaturas];
    }
    if errors != [] {
      return ExtractionResult(false, None, errors, warnings, Some(cleaned), sourceFile);
    }
    var inp := Documento(metadata, ementa.value, acordao.value, assinaturas, sourceFile);
    match Validate(inp) {
      case Failure(fields) =>
        result := NewExtractionResult(false, sourceFile).(errors := ["Erro inesperado: " + describe(fields)]);
      case Success(documento) =>
        result := ExtractionResult(true, Some(documento), [], warnings, Some(cleaned), sourceFile);
    }
  }

  /** Everything `extract_acordao` gets from outside: the PDF text (or the
      message of the exception reading it), and the regular-expression
      searches, the chat completion and the JSON parser as functions of the
      text they see. */
  datatype Environment = Environment(
    pdfText: Result<string, string>,
    removeHeaders: string -> string,
    metadataSearch: string -> MetadataMatches,
    ementaSection: string -> Option<string>,
    acordaoSection: string -> Option<string>,
    complete: string -> Option<string>,
    parse: string -> Option<LlmFields>,
    signatures: SignatureMatches,
    describe: seq<string> -> string,
    sourceFile: string)

  /** `extract_acordao`: the pipeline from PDF text to `ExtractionResult`.
      The ghost results are the cleaned text and what the four extraction
      steps return on it; the result is then fixed by them: with an extraction
      error it is the failure carrying those errors, and otherwise it is a
      success exactly when validation accepts the record built from them. */
  method ExtractAcordao(env: Environment)
    returns (result: ExtractionResult, ghost cleaned: string, ghost metadata: map<MetaKey, MetaValue>,
             ghost ementa: Option<Ementa>, ghost acordao: Option<AcordaoInput>, ghost assinaturas: seq<Assinatura>)
    ensures result.sourceFile == env.sourceFile
    ensures result.success <==> result.documento.Some?
    ensures result.success ==> result.errors == [] && Valid(result.documento.value)
    ensures !result.success ==> result.errors != []
    ensures env.pdfText.Failure? ==>
      result == ExtractionResult(false, None, ["Erro inesperado: " + env.pdfText.error], [], None, env.sourceFile)
    ensures env.pdfText.Success? ==>
      && cleaned == CleanText(env.pdfText.value, env.removeHeaders)
      && (forall k :: k in metadata <==> MetadataEntry(env.metadataSearch(cleaned), k).Some?)
      && (forall k :: k in metadata ==> metadata[k] == MetadataEntry(env.metadataSearch(cleaned), k).value)
      && (ementa.Some? <==> env.ementaSection(cleaned).Some?)
      && (ementa.Some? ==> ementa.value == Headnote(env.ementaSection(cleaned).value))
      && acordao == ExtractAcordaoLlm(env.acordaoSection(cleaned), env.complete, env.parse)
      && assinaturas == Signatures(SignatureBlock(cleaned), env.signatures)
    ensures env.pdfText.Success? ==>
      var faltando := MissingFields(env.metadataSearch(cleaned));
      && (faltando != [] ==> !result.success && result.errors[0] == MissingMessage(faltando))
      && (ementa.None? ==> !result.success && EmentaAusente in result.errors)
      && (acordao.None? ==> !result.success && AcordaoAusente in result.errors)
      && (faltando == [] && ementa.Some? && acordao.Some? <==> ExtractionErrors(metadata, ementa, acordao) == [])
    ensures env.pdfText.Success? && ExtractionErrors(metadata, ementa, acordao) != [] ==>
      result == ExtractionResult(false, None, ExtractionErrors(metadata, ementa, acordao), Warnings(assinaturas),
                                 Some(cleaned), env.sourceFile)
    ensures env.pdfText.Success? && ementa.Some? && acordao.Some? && ExtractionErrors(metadata, ementa, acordao) == [] ==>
      var inp := Documento(metadata, ementa.value, acordao.value, assinaturas, env.sourceFile);
      && (result.success <==> Acceptable(inp))
      && (result.success ==>
            result == ExtractionResult(true, Some(Validate(inp).value), [], Warnings(assinaturas), Some(cleaned), env.sourceFile))
      && (!result.success ==>
            result == ExtractionResult(false, None, ["Erro inesperado: " + env.describe(FieldErrors(inp))],
                                       [], None, env.sourceFile))
    ensures env.pdfText.Success? && result.rawMarkdown.Some? ==> result.rawMarkdown.value == cleaned
    ensures env.pdfText.Success? && result.success ==> result.documento.value.assinaturas == assinaturas
    ensures env.pdfText.Success? && assinaturas == [] ==> !result.success
  {
    match env.pdfText {
      case Failure(e) =>
        result := NewExtractionResult(false, env.sourceFile).(errors := ["Erro inesperado: " + e]);
        cleaned, metadata, ementa, acordao, assinaturas := "", map[], None, None, [];
      case Success(text) =>
        var limpo := CleanText(text, env.removeHeaders);
        var campos := ExtractMetadataRegex(env.metadataSearch(limpo));
        var cabecalho := ExtractEmenta(env.ementaSection(limpo));
        var decisao := ExtractAcordaoLlm(env.acordaoSection(limpo), env.complete, env.parse);
        var assinadas := ExtractAssinaturas(limpo, env.signatures);
        result := AssembleResult(limpo, campos, cabecalho, decisao, assinadas, env.sourceFile, env.describe);
        cleaned, metadata, ementa, acordao, assinaturas := limpo, campos, cabecalho, decisao, assinadas;
        MissingOfMatches(env.metadataSearch(cleaned), metadata);
        ExtractionErrorsSpec(metadata, ementa, acordao);
    }
  }
}
