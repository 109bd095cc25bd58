/** The pure rules of the browser dashboard: how a stored CPF is displayed,
    which search parameters are sent, what a keystroke or a date change
    triggers, and when the pagination buttons are enabled. */
module Dashboard {
  import opened Wrappers
  import opened Text
  import opened Validators
  import opened Pagination
  import opened Handlers

  /** The `limit` the dashboard asks the listing for. */
  const PageSize: int := 20

  /** The shortest CPF or MAC fragment the dashboard searches for. */
  const MinSearchLength: int := 3

  // ------------------------------------------------------------------ formatCPF

  /** Eleven digits written `ddd.ddd.ddd-dd`. */
  function CpfMask(d: string): string
    requires |d| == 11
  {
    d[..3] + "." + d[3..6] + "." + d[6..9] + "-" + d[9..]
  }

  /** A CPF in the punctuated form: 14 characters, `.` at 3 and 7, `-` at
      11, digits everywhere else. */
  predicate IsMaskedCpf(m: string) {
    && |m| == 14
    && m[3] == '.' && m[7] == '.' && m[11] == '-'
    && forall i :: 0 <= i < 14 && i != 3 && i != 7 && i != 11 ==> IsDigit(m[i])
  }

  /** Masking eleven digits gives the punctuated form, and stripping its
      punctuation gives the digits back. */
  lemma CpfMaskRoundTrip(d: string)
    requires |d| == 11 && forall i :: 0 <= i < 11 ==> IsDigit(d[i])
    ensures IsMaskedCpf(CpfMask(d))
    ensures Digits(CpfMask(d)) == d
  {
    var a, b, c, e := d[..3], d[3..6], d[6..9], d[9..];
    assert d == a + b + c + e;
    DigitsOfDigits(a);
    DigitsOfDigits(b);
    DigitsOfDigits(c);
    DigitsOfDigits(e);
    DigitsOfNonDigits(".");
    DigitsOfNonDigits("-");
    DigitsAppend(a, ".");
    DigitsAppend(a + ".", b);
    DigitsAppend(a + "." + b, ".");
    DigitsAppend(a + "." + b + ".", c);
    DigitsAppend(a + "." + b + "." + c, "-");
    DigitsAppend(a + "." + b + "." + c + "-", e);
  }

  /** Every punctuated CPF is the mask of its own digits, and the server
      accepts it. */
  lemma MaskedCpfIsMaskOfDigits(m: string)
    requires IsMaskedCpf(m)
    ensures |Digits(m)| == 11 && m == CpfMask(Digits(m))
    ensures ValidCpf(m)
  {
    var d := m[..3] + m[4..7] + m[8..11] + m[12..];
    assert forall i :: 0 <= i < 11 ==> IsDigit(d[i]) by {
      forall i | 0 <= i < 11
        ensures IsDigit(d[i])
      {
        if i < 3 {
          assert d[i] == m[i];
        } else if i < 6 {
          assert d[i] == m[i + 1];
        } else if i < 9 {
          assert d[i] == m[i + 2];
        } else {
          assert d[i] == m[i + 3];
        }
      }
    }
    var k := CpfMask(d);
    assert |k| == 14;
    forall i | 0 <= i < 14
      ensures k[i] == m[i]
    {
      if i < 3 {
        assert k[i] == d[i];
      } else if i == 3 || i == 7 || i == 11 {
      } else if i < 7 {
        assert k[i] == d[i - 1];
      } else if i < 11 {
        assert k[i] == d[i - 2];
      } else {
        assert k[i] == d[i - 3];
      }
    }
    assert k == m;
    CpfMaskRoundTrip(d);
  }

  /** `formatCPF`: a dash for a missing or empty CPF; the punctuated form
      when the string holds exactly eleven digits; otherwise the string as
      it is. */
  function FormatCpf(cpf: Option<string>): (r: string)
    ensures !Truthy(cpf) ==> r == "-"
    ensures Truthy(cpf) && ValidCpf(cpf.value) ==> IsMaskedCpf(r) && Digits(r) == Digits(cpf.value)
    ensures Truthy(cpf) && !ValidCpf(cpf.value) ==> r == cpf.value
  {
    if !Truthy(cpf) then "-"
    else
      var digits := Digits(cpf.value);
      if |digits| == 11 then
        CpfMaskRoundTrip(digits);
        CpfMask(digits)
      else cpf.value
  }

  /** The display and the server agree: the dashboard shows the punctuated
      form exactly for the strings the server's CPF check accepts. */
  lemma FormatCpfAgreesWithServer(cpf: Option<string>)
    ensures IsMaskedCpf(FormatCpf(cpf)) <==> Truthy(cpf) && ValidCpf(cpf.value)
  {
    if Truthy(cpf) && !ValidCpf(cpf.value) && IsMaskedCpf(FormatCpf(cpf)) {
      MaskedCpfIsMaskOfDigits(cpf.value);
    }
  }

  /** Formatting what was already formatted changes nothing. */
  lemma FormatCpfIdempotent(cpf: Option<string>)
    ensures FormatCpf(Some(FormatCpf(cpf))) == FormatCpf(cpf)
  {
    var r := FormatCpf(cpf);
    if !Truthy(cpf) {
      DigitsOfNonDigits("-");
    } else if ValidCpf(cpf.value) {
      MaskedCpfIsMaskOfDigits(r);
    }
  }

  /** The server accepts a CPF sent in the punctuated form. */
  lemma PunctuatedCpfAccepted()
    ensures ValidCpf("123.456.789-01")
  {
    MaskedCpfIsMaskOfDigits("123.456.789-01");
  }

  /** Every CPF the server stores is displayed in the punctuated form, with
      its digits unchanged. */
  lemma StoredCpfDisplaysMasked(cpf: Option<string>, mac: Option<string>)
    requires PostLogs(cpf, mac).Insert?
    ensures IsMaskedCpf(FormatCpf(Some(PostLogs(cpf, mac).cpf)))
    ensures Digits(FormatCpf(Some(PostLogs(cpf, mac).cpf))) == Digits(cpf.value)
  {
  }

  // --------------------------------------------------------- search parameters

  datatype UrlParam = UrlParam(name: string, value: string)

  /** The early return of `searchLogs`: a CPF or a MAC fragment of one or two
      characters, with nothing else filled in. */
  predicate ShortFragmentAlone(cpf: string, mac: string, date: string) {
    || (0 < |cpf| < MinSearchLength && date == "" && mac == "")
    || (0 < |mac| < MinSearchLength && date == "" && cpf == "")
  }

  /** A parameter the dashboard may send for the given (trimmed) fields. */
  predicate Sendable(p: UrlParam, cpf: string, mac: string, date: string) {
    || (p == UrlParam("cpf", cpf) && |cpf| >= MinSearchLength)
    || (p == UrlParam("mac", mac) && |mac| >= MinSearchLength)
    || (p == UrlParam("date", date) && date != "")
  }

  /** `searchLogs`: the query parameters it fetches `/logs/search` with, or
      `None` when it returns without searching. CPF and MAC are trimmed and
      sent only from three characters on; the date is sent when set. */
  function SearchRequest(cpfField: string, macField: string, date: string): (r: Option<seq<UrlParam>>)
    ensures r.None? <==> ShortFragmentAlone(Trim(cpfField), Trim(macField), date)
    ensures r.Some? ==>
      forall i :: 0 <= i < |r.value| ==> Sendable(r.value[i], Trim(cpfField), Trim(macField), date)
    ensures r.Some? ==> (UrlParam("cpf", Trim(cpfField)) in r.value <==> |Trim(cpfField)| >= MinSearchLength)
    ensures r.Some? ==> (UrlParam("mac", Trim(macField)) in r.value <==> |Trim(macField)| >= MinSearchLength)
    ensures r.Some? ==> (UrlParam("date", date) in r.value <==> date != "")
    ensures r.Some? ==> forall i, j :: 0 <= i < j < |r.value| ==> r.value[i].name != r.value[j].name
  {
    var cpf, mac := Trim(cpfField), Trim(macField);
    if ShortFragmentAlone(cpf, mac, date) then None
    else
      var p1 := if |cpf| >= MinSearchLength then [UrlParam("cpf", cpf)] else [];
      var p2 := if |mac| >= MinSearchLength then [UrlParam("mac", mac)] else [];
      var p3 := if date != "" then [UrlParam("date", date)] else [];
      Some(p1 + p2 + p3)
  }

  /** The value `req.query` holds for `name` when the parameters are sent
      once each: the first one with that name, if any. */
  function Lookup(ps: seq<UrlParam>, name: string): (v: Option<string>)
    ensures v.None? <==> forall i :: 0 <= i < |ps| ==> ps[i].name != name
    ensures v.Some? ==> UrlParam(name, v.value) in ps
  {
    if ps == [] then None
    else if ps[0].name == name then Some(ps[0].value)
    else Lookup(ps[1..], name)
  }

  /** What the server makes of a search the dashboard sends. The date is
      sent but never read, so a search carrying only a date (the CPF and MAC
      fields shorter than three characters) is answered with the 400 error;
      otherwise the server filters on exactly the trimmed fields the
      dashboard sent. */
  lemma DashboardSearchAtServer(cpfField: string, macField: string, date: string)
    requires SearchRequest(cpfField, macField, date).Some?
    ensures var ps := SearchRequest(cpfField, macField, date).value;
      var cpf, mac := Trim(cpfField), Trim(macField);
      && (SearchLogs(Lookup(ps, "cpf"), Lookup(ps, "mac")).BadRequest?
          <==> |cpf| < MinSearchLength && |mac| < MinSearchLength)
      && Lookup(ps, "cpf") == (if |cpf| >= MinSearchLength then Some(cpf) else None)
      && Lookup(ps, "mac") == (if |mac| >= MinSearchLength then Some(mac) else None)
  {
    var ps := SearchRequest(cpfField, macField, date).value;
    var cpf, mac := Trim(cpfField), Trim(macField);
    LookupNamed(ps, "cpf", cpf);
    LookupNamed(ps, "mac", mac);
    assert Lookup(ps, "cpf").Some? ==> Lookup(ps, "cpf").value == cpf;
    assert Lookup(ps, "mac").Some? ==> Lookup(ps, "mac").value == mac;
  }

  /** On page load the date field is set to today and `searchLogs` runs
      with the CPF and MAC fields empty. It sends the date alone, which the
      server does not read, so the first listing is the 400 error instead
      of the day's records. */
  lemma InitialSearchRejected(today: string)
    requires today != ""
    ensures SearchRequest("", "", today) == Some([UrlParam("date", today)])
    ensures var ps := SearchRequest("", "", today).value;
      SearchLogs(Lookup(ps, "cpf"), Lookup(ps, "mac")) == BadRequest(MissingSearchParameter)
  {
    assert Trim("") == "";
    assert !ShortFragmentAlone("", "", today);
    var ps := [UrlParam("date", today)];
    assert [] + [] + ps == ps;
    assert Lookup(ps, "cpf") == None && Lookup(ps, "mac") == None;
  }

  /** With the date read as a filter, the server rejects a search the
      dashboard sends exactly when it carries no parameter at all, and the
      filters it applies are the trimmed fields and the date. */
  lemma DashboardSearchAtDatedServer(cpfField: string, macField: string, date: string)
    requires SearchRequest(cpfField, macField, date).Some?
    ensures var ps := SearchRequest(cpfField, macField, date).value;
      && (SearchLogsWithDate(Lookup(ps, "cpf"), Lookup(ps, "mac"), Lookup(ps, "date")).BadRequest?
          <==> ps == [])
      && Lookup(ps, "date") == (if date != "" then Some(date) else None)
  {
    var ps := SearchRequest(cpfField, macField, date).value;
    DashboardSearchAtServer(cpfField, macField, date);
    LookupNamed(ps, "date", date);
    assert Lookup(ps, "date").Some? ==> Lookup(ps, "date").value == date;
    if ps != [] {
      assert Sendable(ps[0], Trim(cpfField), Trim(macField), date);
    }
  }

  /** The page-load search against the dated server: one clause on the
      day, bound to today's date. */
  lemma InitialSearchAtDatedServer(today: string)
    requires today != ""
    ensures var ps := SearchRequest("", "", today).value;
      SearchLogsWithDate(Lookup(ps, "cpf"), Lookup(ps, "mac"), Lookup(ps, "date"))
        == Search([OnDay(1)], [today])
  {
    InitialSearchRejected(today);
    var ps := [UrlParam("date", today)];
    assert Lookup(ps, "date") == Some(today);
  }

  /** In a parameter list that holds at most one entry per name, looking a
      name up finds the entry with that name. */
  lemma {:induction false} LookupNamed(ps: seq<UrlParam>, name: string, value: string)
    requires forall i, j :: 0 <= i < j < |ps| ==> ps[i].name != ps[j].name
    ensures UrlParam(name, value) in ps ==> Lookup(ps, name) == Some(value)
  {
    if ps != [] && ps[0].name != name {
      assert forall i, j :: 0 <= i < j < |ps[1..]| ==> ps[1..][i].name != ps[1..][j].name by {
        forall i, j | 0 <= i < j < |ps[1..]|
          ensures ps[1..][i].name != ps[1..][j].name
        {
          assert ps[1..][i] == ps[i + 1] && ps[1..][j] == ps[j + 1];
        }
      }
      LookupNamed(ps[1..], name, value);
    } else if ps != [] && UrlParam(name, value) in ps {
      var k :| 0 <= k < |ps| && ps[k] == UrlParam(name, value);
      assert k == 0;
    }
  }

  /** The "Encontrados" figure `data.count || data.data.length`. */
  function DisplayedCount(count: int, data: seq<LogRecord>): (n: int)
    ensures count != 0 ==> n == count
    ensures count == 0 ==> n == |data|
  {
    if count != 0 then count else |data|
  }

  /** For a search the server answered, the figure shown is the number of
      rows received. */
  lemma DisplayedCountIsRows(o: Outcome, rows: seq<LogRecord>, count: int)
    requires o.Search?
    ensures var resp := Respond(o, StoreRows(rows, count));
      DisplayedCount(resp.body.count, resp.body.data) == |rows|
  {
  }

  // ---------------------------------------------------------------- auto search

  datatype InputKind = TextInput | DateInput

  /** What a keystroke or a date change leads to once the debounce delay is
      over: nothing, the first page of the plain listing, or `searchLogs`. */
  datatype AutoAction = Ignore | ReloadFirstPage | RunSearch

  /** `triggerAutoSearch`. A keystroke that leaves a one- or two-character
      fragment alone is ignored (and cancels the pending search); when every
      field is empty the plain listing is reloaded; otherwise the search runs. */
  function AutoSearch(kind: InputKind, cpfField: string, macField: string, date: string): (a: AutoAction)
    ensures a == ReloadFirstPage <==> Trim(cpfField) == "" && Trim(macField) == "" && date == ""
    ensures a == Ignore <==> kind == TextInput && SearchRequest(cpfField, macField, date).None?
  {
    var cpf, mac := Trim(cpfField), Trim(macField);
    if kind == TextInput
       && ((|cpf| > 0 && |cpf| < MinSearchLength && mac == "" && date == "")
           || (|mac| > 0 && |mac| < MinSearchLength && cpf == "" && date == ""))
    then Ignore
    else if cpf == "" && mac == "" && date == "" then ReloadFirstPage
    else RunSearch
  }

  /** A keystroke never leads to a search that `searchLogs` then drops. */
  lemma TypedSearchIsNeverDropped(cpfField: string, macField: string, date: string)
    requires AutoSearch(TextInput, cpfField, macField, date) == RunSearch
    ensures SearchRequest(cpfField, macField, date).Some?
  {
  }

  /** A date change is not filtered the same way: clearing the date while a
      two-character CPF is typed schedules a search that `searchLogs` then
      drops. */
  lemma DateChangeMayBeDropped()
    ensures AutoSearch(DateInput, "12", "", "") == RunSearch
    ensures SearchRequest("12", "", "").None?
  {
    assert Trim("12") == "12" && Trim("") == "";
  }

  // ----------------------------------------------------------------- pagination

  datatype PagerButtons = PagerButtons(previousDisabled: bool, previousPage: int,
                                       nextDisabled: bool, nextPage: int)

  /** The `pagination` block of a response, absent from error bodies. */
  function PaginationOf(b: Body): Option<PaginationInfo> {
    if b.PageBody? then Some(b.pagination) else None
  }

  /** `renderPagination`: without a pagination block it returns at once and
      the pagination area keeps what it showed (`None`); otherwise
      "Anterior" leads to the page before and is disabled from page 1 down,
      "Próxima" leads to the page after and is disabled from the last page on. */
  function RenderPagination(p: Option<PaginationInfo>): (r: Option<PagerButtons>)
    ensures r.None? <==> p.None?
    ensures r.Some? ==> r.value.previousPage == p.value.page - 1 && r.value.nextPage == p.value.page + 1
    ensures r.Some? ==> (r.value.previousDisabled <==> p.value.page <= 1)
    ensures r.Some? ==> (r.value.nextDisabled <==> p.value.page >= p.value.totalPages)
  {
    match p
    case None => None
    case Some(info) =>
      Some(PagerButtons(info.page <= 1, info.page - 1, info.page >= info.totalPages, info.page + 1))
  }

  /** On the first page of an empty listing both buttons are disabled. */
  lemma EmptyListingDisablesBoth(rows: seq<LogRecord>)
    ensures var resp := Respond(ListLogs(Some(1), Some(PageSize)), StoreRows(rows, 0));
      var b := RenderPagination(PaginationOf(resp.body));
      b.Some? && b.value.previousDisabled && b.value.nextDisabled
  {
    PageCountSign(0, PageSize);
  }

  /** End to end: on a page the dashboard asked for, "Próxima" is enabled
      exactly when the page it leads to has rows; "Anterior" is enabled only
      when it leads to a page the server serves as asked (not replaced by
      the default). */
  lemma PagerMatchesServer(page: int, rows: seq<LogRecord>, total: int)
    requires page >= 1 && total >= 0
    ensures var resp := Respond(ListLogs(Some(page), Some(PageSize)), StoreRows(rows, total));
      var b := RenderPagination(PaginationOf(resp.body)).value;
      && (!b.nextDisabled <==> ListLogs(Some(b.nextPage), Some(PageSize)).offset < total)
      && (!b.previousDisabled ==> ListLogs(Some(b.previousPage), Some(PageSize)).page == b.previousPage >= 1)
  {
    PageHasRowsIffCounted(page + 1, PageSize, total);
  }

  /** A listing request the store could not answer renders no buttons. */
  lemma FailedListingRendersNoPager(page: Option<int>, limit: Option<int>, cause: string)
    ensures RenderPagination(PaginationOf(Respond(ListLogs(page, limit), StoreFailed(cause)).body)).None?
  {
  }
}
