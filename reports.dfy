/**
 * The read-only views over the appointment list: today's agenda and the two report
 * filters (on-screen results, with a month criterion, and the print view, without one).
 * Each is a list comprehension, so each result is an order-preserving subsequence of the
 * stored list.
 */
module Reports {
  import opened PyText
  import opened Comprehension
  import opened Appointments

  /** `agenda`: the records whose timestamp starts with the given `YYYY-MM-DD` date. */
  function Agenda(items: seq<Appointment>, today: string): (r: seq<Appointment>)
    ensures forall a :: a in r <==> a in items && StartsWith(a.data, today)
  {
    Filter((a: Appointment) => StartsWith(a.data, today), items)
  }

  /** The agenda keeps list order and every record of the day, each as often as it is stored. */
  lemma AgendaIsOrderedSelection(items: seq<Appointment>, today: string, a: Appointment)
    ensures IsSubsequence(Agenda(items, today), items)
    ensures multiset(Agenda(items, today))[a] == if StartsWith(a.data, today) then multiset(items)[a] else 0
  {
    FilterIsSubsequence((a: Appointment) => StartsWith(a.data, today), items);
    FilterMultiplicity((a: Appointment) => StartsWith(a.data, today), items, a);
  }

  /** The report form as posted: client name, plate, month and the ticked statuses. */
  datatype ReportForm = ReportForm(cliente: string, placa: string, mes: string, status: seq<string>)

  /** `f in ['', s[:len(f)]]`, the test applied to the (normalised) name and plate. */
  predicate TruncMatch(f: string, s: string)
  {
    f == "" || f == Take(s, |f|)
  }

  /** Client criterion: the lowered filter against the lowered stored name. */
  predicate NameMatches(cliente: string, nome: string)
  {
    TruncMatch(Lower(cliente), Lower(nome))
  }

  /** Plate criterion: the same test after removing hyphens and lowering, on both sides. */
  predicate PlateMatches(placa: string, stored: string)
  {
    TruncMatch(Lower(StripHyphens(placa)), Lower(StripHyphens(stored)))
  }

  /** Month criterion: `mes in ['', data[:7]]`. */
  predicate MonthMatches(mes: string, data: string)
  {
    mes == "" || mes == Take(data, 7)
  }

  /** Status criterion: `not statuses or status in statuses`. */
  predicate StatusMatches(statuses: seq<string>, status: string)
  {
    statuses == [] || status in statuses
  }

  /** The three criteria of the print view. */
  predicate PrintMatches(cliente: string, placa: string, statuses: seq<string>, a: Appointment)
  {
    NameMatches(cliente, a.nome) && PlateMatches(placa, a.placa) && StatusMatches(statuses, a.status)
  }

  /** The four criteria of the results view. */
  predicate Matches(form: ReportForm, a: Appointment)
  {
    NameMatches(form.cliente, a.nome) && PlateMatches(form.placa, a.placa) &&
    MonthMatches(form.mes, a.data) && StatusMatches(form.status, a.status)
  }

  /** `resultados`: exactly the records meeting all four criteria. */
  function Results(items: seq<Appointment>, form: ReportForm): (r: seq<Appointment>)
    ensures forall a :: a in r <==> a in items && Matches(form, a)
  {
    Filter((a: Appointment) => Matches(form, a), items)
  }

  /** `resultados_impressao`: exactly the records meeting the name, plate and status criteria. */
  function PrintResults(items: seq<Appointment>, cliente: string, placa: string, statuses: seq<string>): (r: seq<Appointment>)
    ensures forall a :: a in r <==> a in items && PrintMatches(cliente, placa, statuses, a)
  {
    Filter((a: Appointment) => PrintMatches(cliente, placa, statuses, a), items)
  }

  /** The results keep list order and every matching record, each as often as it is stored. */
  lemma ResultsIsOrderedSelection(items: seq<Appointment>, form: ReportForm, a: Appointment)
    ensures IsSubsequence(Results(items, form), items)
    ensures multiset(Results(items, form))[a] == if Matches(form, a) then multiset(items)[a] else 0
  {
    FilterIsSubsequence((a: Appointment) => Matches(form, a), items);
    FilterMultiplicity((a: Appointment) => Matches(form, a), items, a);
  }

  /** The print view is the results view with an empty month. */
  lemma PrintIsResultsWithoutMonth(items: seq<Appointment>, cliente: string, placa: string, statuses: seq<string>)
    ensures PrintResults(items, cliente, placa, statuses) == Results(items, ReportForm(cliente, placa, "", statuses))
  {
    FilterCongruence((a: Appointment) => PrintMatches(cliente, placa, statuses, a),
                     (a: Appointment) => Matches(ReportForm(cliente, placa, "", statuses), a), items);
  }

  /** An entirely empty form selects the whole list. */
  lemma EmptyFormSelectsAll(items: seq<Appointment>)
    ensures Results(items, ReportForm("", "", "", [])) == items
  {
    FilterKeepsAll((a: Appointment) => Matches(ReportForm("", "", "", []), a), items);
  }

  /**
   * The name test is a case-insensitive prefix test; a filter longer than the stored
   * name never matches.
   */
  lemma NameMatchesIsPrefix(cliente: string, nome: string)
    ensures NameMatches(cliente, nome) <==> StartsWith(Lower(nome), Lower(cliente))
    ensures |cliente| > |nome| ==> !NameMatches(cliente, nome)
  {
    TruncateCompareIsPrefix(Lower(cliente), Lower(nome));
  }

  /** "Jo" selects "John"; "Ana" does not select "An". */
  lemma NameExamples()
    ensures NameMatches("Jo", "John")
    ensures !NameMatches("Ana", "An")
    ensures NameMatches("ana", "Ana Paula")
  {
    assert Lower("Jo") == "jo" && Lower("John") == "john";
    assert Lower("ana") == "ana" && Lower("Ana Paula") == "ana paula";
    NameMatchesIsPrefix("Ana", "An");
  }

  /**
   * The plate test is a case-insensitive prefix test on the plates without hyphens; a filter
   * with more non-hyphen characters than the stored plate never matches.
   */
  lemma PlateMatchesIsPrefix(placa: string, stored: string)
    ensures PlateMatches(placa, stored) <==> StartsWith(Lower(StripHyphens(stored)), Lower(StripHyphens(placa)))
    ensures |StripHyphens(placa)| > |StripHyphens(stored)| ==> !PlateMatches(placa, stored)
  {
    TruncateCompareIsPrefix(Lower(StripHyphens(placa)), Lower(StripHyphens(stored)));
  }

  /** Hyphens in the stored plate make no difference to the plate test. */
  lemma PlateIgnoresStoredHyphens(placa: string, stored: string)
    ensures PlateMatches(placa, stored) <==> PlateMatches(placa, StripHyphens(stored))
  {
    StripHyphensIdempotent(stored);
  }

  /** "ab-1234" selects "AB1234" and "AB-1234" alike. */
  lemma PlateExamples()
    ensures PlateMatches("ab-1234", "AB1234")
    ensures PlateMatches("ab-1234", "AB-1234")
  {
    var f := "ab1234";
    assert StripHyphens("ab-1234") == f && Lower(f) == f;
    assert StripHyphens("AB1234") == "AB1234" && Lower("AB1234") == f;
    assert StripHyphens("AB-1234") == "AB1234";
    assert Take(f, 6) == f;
  }

  /** A plate filter longer than the stored plate, hyphens aside, selects nothing. */
  lemma PlateLongerFilterExample()
    ensures !PlateMatches("ab-1234", "AB-123")
  {
    assert StripHyphens("ab-1234") == "ab1234";
    assert StripHyphens("AB-123") == "AB123";
    PlateMatchesIsPrefix("ab-1234", "AB-123");
  }

  /**
   * With a full timestamp the month test is equality with its first seven characters;
   * a filter of more than seven characters selects nothing.
   */
  lemma MonthMatchesIsMonthPrefix(mes: string, data: string)
    requires mes != ""
    ensures 7 <= |data| ==> (MonthMatches(mes, data) <==> mes == data[..7])
    ensures 7 < |mes| ==> !MonthMatches(mes, data)
  {
  }

  /** A filter on Aceito selects no Pendente record. */
  lemma StatusFilterExcludes(items: seq<Appointment>, cliente: string, placa: string, mes: string)
    ensures forall a :: a in Results(items, ReportForm(cliente, placa, mes, [Aceito])) ==> a.status == Aceito
    ensures forall a :: a in Results(items, ReportForm(cliente, placa, mes, [Aceito])) ==> a.status != Pendente
  {
  }
}
