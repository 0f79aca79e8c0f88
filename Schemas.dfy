/** The validated record of an acórdão (server/modules/schemas.py): the two
    field normalisers, the calendar dates the `date` fields accept, the field
    constraints as a validity predicate, the validation of a raw record, and
    the extraction result. */
module Schemas {
  import opened Wrappers
  import opened Text

  // ---------------------------------------------------------------------------
  // `Acordao.normalizar_decisao`

  /** The synonym table of the decision normaliser. */
  const DecisaoSinonimos: map<string, string> := map[
    "improvido" := "improvido",
    "não provido" := "improvido",
    "negado" := "improvido",
    "provido" := "provido",
    "deferido" := "provido",
    "provido parcialmente" := "parcial",
    "parcialmente provido" := "parcial"
  ]

  /** A decision in normal form: lower-case, stripped, and mapped to itself by
      the synonym table whenever the table knows it. */
  predicate IsCanonicalDecisao(v: string) {
    && Lower(v) == v
    && IsStripped(v)
    && (v in DecisaoSinonimos ==> DecisaoSinonimos[v] == v)
  }

  /** `normalizar_decisao`: an empty value is returned unchanged; any other
      value is lower-cased and stripped, then looked up in the synonym table,
      passing through when the table does not know it. */
  function NormalizarDecisao(v: string): (r: string)
    ensures IsCanonicalDecisao(r)
  {
    if v == "" then v
    else
      var w := Strip(Lower(v));
      if w in DecisaoSinonimos then
        CanonicalTargets();
        DecisaoSinonimos[w]
      else
        assert Lower(w) == w by {
          StripLower(Lower(v));
          LowerIdempotent(v);
        }
        w
  }

  /** The three values the table maps to are in normal form. */
  lemma CanonicalTargets()
    ensures forall k :: k in DecisaoSinonimos ==> DecisaoSinonimos[k] in {"improvido", "provido", "parcial"}
    ensures IsCanonicalDecisao("improvido") && IsCanonicalDecisao("provido") && IsCanonicalDecisao("parcial")
  {
    assert Lower("improvido") == "improvido";
    assert Lower("provido") == "provido";
    assert Lower("parcial") == "parcial";
  }

  /** The outcome groups of the synonym table, whatever the case and the
      surrounding whitespace of the value: three spellings of a dismissed
      appeal, two of a granted one, two of a partly granted one; any other
      non-empty value comes back lower-cased and stripped, and the empty value
      unchanged. */
  lemma NormalizarDecisaoGroups(v: string)
    ensures NormalizarDecisao(v) ==
      if v == "" then ""
      else
        var w := Strip(Lower(v));
        if w in {"improvido", "não provido", "negado"} then "improvido"
        else if w in {"provido", "deferido"} then "provido"
        else if w in {"provido parcialmente", "parcialmente provido"} then "parcial"
        else w
  {
    if v != "" {
      var w := Strip(Lower(v));
      assert NormalizarDecisao(v) == if w in DecisaoSinonimos then DecisaoSinonimos[w] else w;
      SinonimosGroup(w);
    }
  }

  /** The synonym table, read group by group. */
  lemma SinonimosGroup(w: string)
    ensures w in {"improvido", "não provido", "negado"} ==> w in DecisaoSinonimos && DecisaoSinonimos[w] == "improvido"
    ensures w in {"provido", "deferido"} ==> w in DecisaoSinonimos && DecisaoSinonimos[w] == "provido"
    ensures w in {"provido parcialmente", "parcialmente provido"} ==>
      w in DecisaoSinonimos && DecisaoSinonimos[w] == "parcial"
    ensures w !in {"improvido", "não provido", "negado", "provido", "deferido",
                   "provido parcialmente", "parcialmente provido"} ==>
      w !in DecisaoSinonimos
  {
    SinonimosLookup();
    assert DecisaoSinonimos.Keys == {"improvido", "não provido", "negado", "provido", "deferido",
                                     "provido parcialmente", "parcialmente provido"};
  }

  lemma SinonimosLookup()
    ensures DecisaoSinonimos["improvido"] == "improvido" && DecisaoSinonimos["não provido"] == "improvido"
    ensures DecisaoSinonimos["negado"] == "improvido"
    ensures DecisaoSinonimos["provido"] == "provido" && DecisaoSinonimos["deferido"] == "provido"
    ensures DecisaoSinonimos["provido parcialmente"] == "parcial"
    ensures DecisaoSinonimos["parcialmente provido"] == "parcial"
  {
  }

  lemma NormalizarDecisaoExample()
    ensures NormalizarDecisao("NEGADO") == "improvido"
  {
    assert Lower("NEGADO") == "negado";
    assert Strip("negado") == "negado" by {
      StripOfStripped("negado");
    }
  }

  /** A decision already in normal form is a fixed point. */
  lemma NormalizarDecisaoFixed(v: string)
    requires IsCanonicalDecisao(v)
    ensures NormalizarDecisao(v) == v
  {
    if v != "" {
      StripOfStripped(v);
    }
  }

  lemma NormalizarDecisaoIdempotent(v: string)
    ensures NormalizarDecisao(NormalizarDecisao(v)) == NormalizarDecisao(v)
  {
    NormalizarDecisaoFixed(NormalizarDecisao(v));
  }

  // ---------------------------------------------------------------------------
  // `AcordaoDocumento.normalizar_acordao_numero`

  predicate IsCanonicalNumero(v: string) {
    ' ' !in v && IsStripped(v)
  }

  /** `normalizar_acordao_numero`: an empty value is returned unchanged; any
      other value is stripped and loses every interior `' '`. */
  function NormalizarAcordaoNumero(v: string): (r: string)
    ensures IsCanonicalNumero(r)
    ensures r == RemoveChar(Strip(v), ' ')
  {
    if v == "" then v
    else
      RemoveCharStripped(Strip(v), ' ');
      RemoveChar(Strip(v), ' ')
  }

  lemma NormalizarAcordaoNumeroFixed(v: string)
    requires IsCanonicalNumero(v)
    ensures NormalizarAcordaoNumero(v) == v
  {
    StripOfStripped(v);
    RemoveCharAbsent(v, ' ');
  }

  lemma NormalizarAcordaoNumeroIdempotent(v: string)
    ensures NormalizarAcordaoNumero(NormalizarAcordaoNumero(v)) == NormalizarAcordaoNumero(v)
  {
    NormalizarAcordaoNumeroFixed(NormalizarAcordaoNumero(v));
  }

  // ---------------------------------------------------------------------------
  // Calendar dates, as Python's `date` accepts them

  datatype Date = Date(year: int, month: int, day: int)

  predicate IsLeapYear(y: int) {
    y % 4 == 0 && (y % 100 != 0 || y % 400 == 0)
  }

  function DaysInMonth(y: int, m: int): int {
    if m == 2 then (if IsLeapYear(y) then 29 else 28)
    else if m == 4 || m == 6 || m == 9 || m == 11 then 30
    else 31
  }

  predicate ValidDate(d: Date) {
    && 1 <= d.year <= 9999
    && 1 <= d.month <= 12
    && 1 <= d.day <= DaysInMonth(d.year, d.month)
  }

  /** `f"{n:04d}"` for `n < 10000`. */
  function Pad4(n: nat): (r: string)
    requires n < 10000
    ensures |r| == 4 && AllDigits(r) && DigitsValue(r) == n
  {
    var r := Pad2(n / 100) + Pad2(n % 100);
    DigitsValueAppend(Pad2(n / 100), Pad2(n % 100));
    r
  }

  lemma {:induction false} DigitsValueBound(s: string)
    requires AllDigits(s)
    ensures DigitsValue(s) < Pow10(|s|)
    decreases |s|
  {
    if s != [] {
      DigitsValueBound(s[..|s| - 1]);
    }
  }

  lemma Pad2OfDigits(t: string)
    requires |t| == 2 && AllDigits(t)
    ensures DigitsValue(t) < 100 && Pad2(DigitsValue(t)) == t
  {
    assert t[..1][..0] == [];
    assert DigitsValue(t[..1]) == t[0] as int - '0' as int;
  }

  lemma Pad4OfDigits(t: string)
    requires |t| == 4 && AllDigits(t)
    ensures DigitsValue(t) < 10000 && Pad4(DigitsValue(t)) == t
  {
    var a, b := t[..2], t[2..];
    assert t == a + b;
    DigitsValueAppend(a, b);
    Pad2OfDigits(a);
    Pad2OfDigits(b);
    var x, y := DigitsValue(a), DigitsValue(b);
    assert Pow10(|b|) == 100;
    assert DigitsValue(t) == x * 100 + y;
    DivideBy100(x, y);
  }

  lemma DivideBy100(x: nat, y: nat)
    requires y < 100
    ensures (x * 100 + y) / 100 == x && (x * 100 + y) % 100 == y
  {
  }

  /** `date.isoformat()`. */
  function FormatIsoDate(d: Date): string
    requires ValidDate(d)
  {
    Pad4(d.year) + "-" + Pad2(d.month) + "-" + Pad2(d.day)
  }

  /** The shape `YYYY-MM-DD` with ASCII digits. */
  predicate IsoShaped(s: string) {
    && |s| == 10
    && AllDigits(s[..4]) && s[4] == '-'
    && AllDigits(s[5..7]) && s[7] == '-'
    && AllDigits(s[8..])
  }

  /** A `date` field given a string `YYYY-MM-DD`: accepted exactly when it
      names a real calendar day. */
  function ParseIsoDate(s: string): (r: Option<Date>)
    ensures r.Some? ==> ValidDate(r.value) && FormatIsoDate(r.value) == s
  {
    if !IsoShaped(s) then None
    else
      var d := Date(DigitsValue(s[..4]), DigitsValue(s[5..7]), DigitsValue(s[8..]));
      if ValidDate(d) then
        Pad4OfDigits(s[..4]);
        Pad2OfDigits(s[5..7]);
        Pad2OfDigits(s[8..]);
        assert s == s[..4] + "-" + s[5..7] + "-" + s[8..];
        Some(d)
      else None
  }

  lemma ParseFormatIsoDate(d: Date)
    requires ValidDate(d)
    ensures ParseIsoDate(FormatIsoDate(d)) == Some(d)
  {
    var s := FormatIsoDate(d);
    assert s[..4] == Pad4(d.year) && s[5..7] == Pad2(d.month) && s[8..] == Pad2(d.day);
  }

  // ---------------------------------------------------------------------------
  // The records

  datatype Relator = Relator(nome: string, tipo: Option<string>)

  datatype Assinatura = Assinatura(nome: string, cargo: string)

  datatype Ementa = Ementa(textoCompleto: string, palavrasChave: seq<string>, tipoTributo: Option<string>)

  datatype Acordao = Acordao(textoCompleto: string, decisao: string, votacao: Option<string>,
                             participantes: Option<seq<string>>)

  datatype AcordaoDocumento = AcordaoDocumento(
    acordaoNumero: string,
    processo: string,
    recorrente: string,
    ementa: Ementa,
    acordao: Acordao,
    assinaturas: seq<Assinatura>,
    advogado: Option<string>,
    recorrida: Option<string>,
    procuradorFiscal: Option<string>,
    relator: Option<Relator>,
    redator: Option<Relator>,
    dataSessao: Option<Date>,
    dataPublicacao: Option<Date>,
    sourceFile: Option<string>)

  /** A key of a decoded JSON object: missing, `null`, a value of the type the
      field declares, or a value of any other type. */
  datatype JsonField<T> = Absent | Null | Given(value: T) | WrongType

  /** What `Acordao(**d)` receives: the section text and the three keys as
      they came out of the JSON object. */
  datatype AcordaoInput = AcordaoInput(textoCompleto: string, decisao: JsonField<string>,
                                       votacao: JsonField<string>, participantes: JsonField<seq<string>>)

  /** An `Optional[...]` field with a default: a missing key takes the
      default, `null` is `None`, and a value of the declared type is kept. */
  function OptionalField<T>(f: JsonField<T>, default: Option<T>): (r: Option<T>)
    requires !f.WrongType?
    ensures f.Given? ==> r == Some(f.value)
    ensures f.Null? ==> r == None
    ensures f.Absent? ==> r == default
  {
    match f
    case Absent => default
    case Null => None
    case Given(v) => Some(v)
  }

  /** What `AcordaoDocumento(**d)` receives: every key may be missing (`None`),
      and dates are still strings. */

  datatype DocumentoInput = DocumentoInput(
    acordaoNumero: Option<string>,
    processo: Option<string>,
    recorrente: Option<string>,
    ementa: Option<Ementa>,
    acordao: Option<AcordaoInput>,
    assinaturas: Option<seq<Assinatura>>,
    advogado: Option<string>,
    recorrida: Option<string>,
    procuradorFiscal: Option<string>,
    relator: Option<Relator>,
    redator: Option<Relator>,
    dataSessao: Option<string>,
    dataPublicacao: Option<string>,
    sourceFile: Option<string>)

  predicate ValidRelator(r: Option<Relator>) {
    r.Some? ==> |r.value.nome| >= 3
  }

  predicate ValidAssinaturas(a: seq<Assinatura>) {
    |a| >= 1 && forall k :: 0 <= k < |a| ==> |a[k].nome| >= 3 && |a[k].cargo| >= 3
  }

  /** The field constraints of a validated document: the minimum lengths, at
      least one signature, real calendar dates, and both normalised fields in
      normal form. */
  predicate Valid(d: AcordaoDocumento) {
    && IsCanonicalNumero(d.acordaoNumero)
    && |d.recorrente| >= 3
    && |d.ementa.textoCompleto| >= 50
    && |d.acordao.textoCompleto| >= 50
    && IsCanonicalDecisao(d.acordao.decisao)
    && ValidAssinaturas(d.assinaturas)
    && ValidRelator(d.relator) && ValidRelator(d.redator)
    && (d.dataSessao.Some? ==> ValidDate(d.dataSessao.value))
    && (d.dataPublicacao.Some? ==> ValidDate(d.dataPublicacao.value))
  }

  predicate DateAccepted(s: Option<string>) {
    s.Some? ==> ParseIsoDate(s.value).Some?
  }

  /** The conditions under which validation of a raw record succeeds: the
      required keys are present and every constraint holds. */
  predicate Acceptable(inp: DocumentoInput) {
    && inp.acordaoNumero.Some?
    && inp.processo.Some?
    && inp.recorrente.Some? && |inp.recorrente.value| >= 3
    && inp.ementa.Some? && |inp.ementa.value.textoCompleto| >= 50
    && inp.acordao.Some? && |inp.acordao.value.textoCompleto| >= 50 && inp.acordao.value.decisao.Given?
    && !inp.acordao.value.votacao.WrongType? && !inp.acordao.value.participantes.WrongType?
    && inp.assinaturas.Some? && ValidAssinaturas(inp.assinaturas.value)
    && ValidRelator(inp.relator) && ValidRelator(inp.redator)
    && DateAccepted(inp.dataSessao) && DateAccepted(inp.dataPublicacao)
  }

  function Check(ok: bool, field: string): seq<string> {
    if ok then [] else [field]
  }

  /** The locations of the failing fields, in declaration order. */
  function FieldErrors(inp: DocumentoInput): (r: seq<string>)
    ensures r == [] <==> Acceptable(inp)
  {
    Check(inp.acordaoNumero.Some?, "acordao_numero")
    + Check(inp.processo.Some?, "processo")
    + Check(inp.recorrente.Some? && |inp.recorrente.value| >= 3, "recorrente")
    + (if inp.ementa.None? then ["ementa"]
       else Check(|inp.ementa.value.textoCompleto| >= 50, "ementa.texto_completo"))
    + (if inp.acordao.None? then ["acordao"]
       else Check(|inp.acordao.value.textoCompleto| >= 50, "acordao.texto_completo")
            + Check(inp.acordao.value.decisao.Given?, "acordao.decisao")
            + Check(!inp.acordao.value.votacao.WrongType?, "acordao.votacao")
            + Check(!inp.acordao.value.participantes.WrongType?, "acordao.participantes"))
    + Check(inp.assinaturas.Some? && ValidAssinaturas(inp.assinaturas.value), "assinaturas")
    + Check(ValidRelator(inp.relator), "relator.nome")
    + Check(ValidRelator(inp.redator), "redator.nome")
    + Check(DateAccepted(inp.dataSessao), "data_sessao")
    + Check(DateAccepted(inp.dataPublicacao), "data_publicacao")
  }

  function ParseOptionalDate(s: Option<string>): Option<Date>
    requires DateAccepted(s)
  {
    if s.Some? then ParseIsoDate(s.value) else None
  }

  /** `AcordaoDocumento(**d)`: the "before" validators normalise
      `acordao_numero` and `decisao`, date strings become dates, and the record
      is accepted exactly when `Acceptable` holds; otherwise the error lists
      the failing fields. */
  function Validate(inp: DocumentoInput): (r: Result<AcordaoDocumento, seq<string>>)
    ensures r.Success? <==> Acceptable(inp)
    ensures r.Failure? ==> r.error != []
    ensures r.Success? ==> Valid(r.value)
    ensures r.Success? ==> && r.value.acordaoNumero == NormalizarAcordaoNumero(inp.acordaoNumero.value)
                           && r.value.processo == inp.processo.value
                           && r.value.recorrente == inp.recorrente.value
                           && r.value.ementa == inp.ementa.value
                           && r.value.acordao.textoCompleto == inp.acordao.value.textoCompleto
                           && r.value.acordao.decisao == NormalizarDecisao(inp.acordao.value.decisao.value)
                           && r.value.acordao.votacao == OptionalField(inp.acordao.value.votacao, None)
                           && r.value.acordao.participantes == OptionalField(inp.acordao.value.participantes, Some([]))
                           && r.value.assinaturas == inp.assinaturas.value
                           && r.value.relator == inp.relator && r.value.redator == inp.redator
                           && (r.value.dataSessao.Some? <==> inp.dataSessao.Some?)
  {
    var errors := FieldErrors(inp);
    if errors != [] then Failure(errors)
    else
      var a := inp.acordao.value;
      Success(AcordaoDocumento(
        NormalizarAcordaoNumero(inp.acordaoNumero.value),
        inp.processo.value,
        inp.recorrente.value,
        inp.ementa.value,
        Acordao(a.textoCompleto, NormalizarDecisao(a.decisao.value),
                OptionalField(a.votacao, None), OptionalField(a.participantes, Some([]))),
        inp.assinaturas.value,
        inp.advogado, inp.recorrida, inp.procuradorFiscal,
        inp.relator, inp.redator,
        ParseOptionalDate(inp.dataSessao),
        ParseOptionalDate(inp.dataPublicacao),
        inp.sourceFile))
  }

  function DumpDate(d: Option<Date>): Option<string>
    requires d.Some? ==> ValidDate(d.value)
  {
    if d.Some? then Some(FormatIsoDate(d.value)) else None
  }

  /** An optional field as `model_dump` writes it: `None` becomes `null`. */
  function DumpField<T>(v: Option<T>): (r: JsonField<T>)
    ensures !r.WrongType? && OptionalField(r, None) == v
  {
    if v.Some? then Given(v.value) else Null
  }

  /** `model_dump(mode='json')`: the raw record a document is read back from. */
  function Dump(d: AcordaoDocumento): DocumentoInput
    requires Valid(d)
  {
    DocumentoInput(
      Some(d.acordaoNumero), Some(d.processo), Some(d.recorrente), Some(d.ementa),
      Some(AcordaoInput(d.acordao.textoCompleto, Given(d.acordao.decisao),
                        DumpField(d.acordao.votacao), DumpField(d.acordao.participantes))),
      Some(d.assinaturas),
      d.advogado, d.recorrida, d.procuradorFiscal, d.relator, d.redator,
      DumpDate(d.dataSessao), DumpDate(d.dataPublicacao),
      d.sourceFile)
  }

  /** Validation is a round trip on valid documents: dumping one and
      validating the dump gives it back unchanged, since both normalisers fix
      normal forms and dates parse back from their ISO text. */
  lemma ValidateDump(d: AcordaoDocumento)
    requires Valid(d)
    ensures Validate(Dump(d)) == Success(d)
  {
    var inp := Dump(d);
    assert ParseOptionalDate(inp.dataSessao) == d.dataSessao by {
      if d.dataSessao.Some? {
        ParseFormatIsoDate(d.dataSessao.value);
      }
    }
    assert ParseOptionalDate(inp.dataPublicacao) == d.dataPublicacao by {
      if d.dataPublicacao.Some? {
        ParseFormatIsoDate(d.dataPublicacao.value);
      }
    }
    assert Acceptable(inp);
    assert NormalizarDecisao(d.acordao.decisao) == d.acordao.decisao by {
      NormalizarDecisaoFixed(d.acordao.decisao);
    }
    assert NormalizarAcordaoNumero(d.acordaoNumero) == d.acordaoNumero by {
      NormalizarAcordaoNumeroFixed(d.acordaoNumero);
    }
  }

  /** Validating a validated document again changes nothing. */
  lemma ValidateIdempotent(inp: DocumentoInput)
    requires Validate(inp).Success?
    ensures Validate(Dump(Validate(inp).value)) == Validate(inp)
  {
    ValidateDump(Validate(inp).value);
  }

  /** A record without signatures is never accepted (`min_items=1`). */
  lemma NoSignaturesRejected(inp: DocumentoInput)
    requires inp.assinaturas == Some([])
    ensures Validate(inp).Failure?
  {
  }

  /** A decision that is missing, `null` or not a string is never accepted,
      and neither is a vote that is not a string or a participant list that
      is not a list of strings. */
  lemma AcordaoTypesRejected(inp: DocumentoInput)
    requires inp.acordao.Some?
    requires || !inp.acordao.value.decisao.Given?
             || inp.acordao.value.votacao.WrongType?
             || inp.acordao.value.participantes.WrongType?
    ensures Validate(inp).Failure?
  {
  }

  // ---------------------------------------------------------------------------
  // `ExtractionResult`

  datatype ExtractionResult = ExtractionResult(
    success: bool,
    documento: Option<AcordaoDocumento>,
    errors: seq<string>,
    warnings: seq<string>,
    rawMarkdown: Option<string>,
    sourceFile: string)

  /** `ExtractionResult(success=…, source_file=…)`: the lists default to
      empty, the document and the raw text to absent. */
  function NewExtractionResult(success: bool, sourceFile: string): (r: ExtractionResult)
    ensures r.success == success && r.sourceFile == sourceFile
    ensures r.documento.None? && r.errors == [] && r.warnings == [] && r.rawMarkdown.None?
  {
    ExtractionResult(success, None, [], [], None, sourceFile)
  }
}
