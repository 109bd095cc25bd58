/** The request handlers of the API. Each one validates its input, then
    either answers 400 without touching the store or hands one statement and
    its parameters to the store; `Respond` turns the store's answer into the
    HTTP response. The store itself is not modelled: its answer is an input. */
module Handlers {
  import opened Wrappers
  import opened Text
  import opened Validators
  import opened Pagination

  const MissingFields := "Campos obrigatórios: cpf, macaddress"
  const InvalidCpf := "CPF inválido. Deve conter 11 dígitos."
  const InvalidMac := "MAC Address inválido. Formato esperado: XX:XX:XX:XX:XX:XX"
  const MissingSearchParameter := "Informe pelo menos um parâmetro: cpf ou mac"
  const InternalError := "Erro interno do servidor"
  const LogCreated := "Log registrado com sucesso"

  const SearchHead := "SELECT * FROM logs WHERE 1=1"
  const SearchTail := " ORDER BY horario DESC LIMIT 100"

  /** One stored row; `horario` is the store's timestamp, kept opaque. */
  datatype LogRecord = LogRecord(id: int, cpf: string, macAddress: string, horario: int)

  datatype Column = CpfColumn | MacColumn

  /** ` AND <column> LIKE $<placeholder>`, or ` AND DATE(horario) =
      $<placeholder>` in the dated search of `SearchLogsWithDate`. */
  datatype Clause = Like(column: Column, placeholder: nat) | OnDay(placeholder: nat)

  /** What a handler decides before the store is involved: a 400 with its
      message, or the parameters of the one statement it runs. */
  datatype Outcome =
    | BadRequest(error: string)
    | Insert(cpf: string, mac: string)
    | ListPage(page: int, limit: int, offset: int)
    | Search(clauses: seq<Clause>, params: seq<string>)

  /** The store's answer to the statement: a failure with its cause, or the
      rows it returned together with the `COUNT(*)` the listing reads. */
  datatype StoreReply = StoreFailed(cause: string) | StoreRows(rows: seq<LogRecord>, count: int)

  datatype PaginationInfo = PaginationInfo(page: int, limit: int, total: int, totalPages: int)

  datatype Body =
    | ErrorBody(error: string)
    | CreatedBody(message: string, inserted: Option<LogRecord>)  // sent as `data`
    | PageBody(data: seq<LogRecord>, pagination: PaginationInfo)
    | SearchBody(data: seq<LogRecord>, count: int)

  datatype Response = Response(status: int, body: Body)

  // ---------------------------------------------------------------- POST /logs

  /** `POST /logs`: both fields must be present and non-empty, then the CPF
      must pass, then the MAC; the first failing check answers. On success
      the CPF is bound exactly as sent and the MAC upper-cased. */
  function PostLogs(cpf: Option<string>, macaddress: Option<string>): (r: Outcome)
    ensures r.BadRequest? || r.Insert?
    ensures r == BadRequest(MissingFields) <==> !Truthy(cpf) || !Truthy(macaddress)
    ensures r == BadRequest(InvalidCpf) <==>
      Truthy(cpf) && Truthy(macaddress) && !ValidCpf(cpf.value)
    ensures r == BadRequest(InvalidMac) <==>
      Truthy(cpf) && Truthy(macaddress) && ValidCpf(cpf.value) && !ValidMac(macaddress.value)
    ensures r.Insert? <==>
      Truthy(cpf) && Truthy(macaddress) && ValidCpf(cpf.value) && ValidMac(macaddress.value)
    ensures r.Insert? ==> r.cpf == cpf.value && r.mac == Upper(macaddress.value)
    ensures r.Insert? ==> ValidCpf(r.cpf) && ValidMac(r.mac) && Upper(r.mac) == r.mac
  {
    if !Truthy(cpf) || !Truthy(macaddress) then
      BadRequest(MissingFields)
    else if !ValidCpf(cpf.value) then
      BadRequest(InvalidCpf)
    else if !ValidMac(macaddress.value) then
      BadRequest(InvalidMac)
    else
      ValidMacUpper(macaddress.value);
      UpperIdempotent(macaddress.value);
      Insert(cpf.value, Upper(macaddress.value))
  }

  /** The server's test cases for `POST /logs` with a field missing. */
  lemma PostLogsMissingExamples()
    ensures PostLogs(None, Some("AA:BB:CC:DD:EE:FF")) == BadRequest(MissingFields)
    ensures PostLogs(Some("12345678901"), None) == BadRequest(MissingFields)
    ensures PostLogs(None, None) == BadRequest(MissingFields)
  {
  }

  /** The server's test case for `POST /logs` with a nine-digit CPF. */
  lemma PostLogsBadCpfExample()
    ensures PostLogs(Some("123456789"), Some("AA:BB:CC:DD:EE:FF")) == BadRequest(InvalidCpf)
  {
    assert !ValidCpf("123456789") by {
      ValidCpfAmidNonDigits("", "123456789", "");
      assert "" + "123456789" + "" == "123456789";
    }
  }

  /** The server's test case for `POST /logs` with a malformed MAC. */
  lemma PostLogsBadMacExample()
    ensures PostLogs(Some("12345678901"), Some("invalid-mac")) == BadRequest(InvalidMac)
  {
    assert ValidCpf("12345678901") by { CpfAcceptedExamples(); }
    assert !ValidMac("invalid-mac") by { MacRejectsWrongLength("invalid-mac"); }
    PostLogsRejectsMac("12345678901", "invalid-mac");
  }

  /** A valid CPF with a non-empty, malformed MAC gets the MAC message. */
  lemma PostLogsRejectsMac(cpf: string, mac: string)
    requires ValidCpf(cpf) && mac != "" && !ValidMac(mac)
    ensures PostLogs(Some(cpf), Some(mac)) == BadRequest(InvalidMac)
  {
  }

  /** Any pair that passes both checks is inserted: the CPF as sent, the
      MAC upper-cased. */
  lemma PostLogsInsertsValid(cpf: string, mac: string)
    requires ValidCpf(cpf) && ValidMac(mac)
    ensures PostLogs(Some(cpf), Some(mac)) == Insert(cpf, Upper(mac))
  {
  }

  lemma UpperMacExample()
    ensures Upper("aa:bb:cc:dd:ee:ff") == "AA:BB:CC:DD:EE:FF"
  {
  }

  /** The server's test case for `POST /logs` that checks the MAC is bound
      upper-cased and the CPF as sent. */
  lemma PostLogsInsertExample()
    ensures PostLogs(Some("12345678901"), Some("aa:bb:cc:dd:ee:ff"))
         == Insert("12345678901", "AA:BB:CC:DD:EE:FF")
  {
    assert ValidCpf("12345678901") by { CpfAcceptedExamples(); }
    assert ValidMac("aa:bb:cc:dd:ee:ff") by { MacAcceptedColonExamples(); }
    PostLogsInsertsValid("12345678901", "aa:bb:cc:dd:ee:ff");
    UpperMacExample();
  }

  // ----------------------------------------------------------------- GET /logs

  /** `GET /logs`: `page` and `limit` fall back to 1 and 50 when missing,
      not a number, or zero; the offset skips the rows of earlier pages. */
  function ListLogs(page: Option<int>, limit: Option<int>): (r: Outcome)
    ensures r.ListPage?
    ensures r.page != 0 && r.limit != 0
    ensures page.Some? && page.value != 0 ==> r.page == page.value
    ensures page.None? || page == Some(0) ==> r.page == DefaultPage
    ensures limit.Some? && limit.value != 0 ==> r.limit == limit.value
    ensures limit.None? || limit == Some(0) ==> r.limit == DefaultLimit
    ensures r.offset == PageOffset(r.page, r.limit)
  {
    var p := ParseOr(page, DefaultPage);
    var l := ParseOr(limit, DefaultLimit);
    ListPage(p, l, (p - 1) * l)
  }

  /** The server's test cases for `GET /logs`: the defaults, and page 2 of
      10 starting at row 10. */
  lemma ListLogsExamples()
    ensures ListLogs(None, None) == ListPage(1, 50, 0)
    ensures ListLogs(Some(2), Some(10)) == ListPage(2, 10, 10)
  {
  }

  // ---------------------------------------------------------- GET /logs/search

  /** The state of the search query while it is built: clauses so far,
      parameters so far, and the next placeholder number. */
  datatype SearchBuilder = SearchBuilder(clauses: seq<Clause>, params: seq<string>, nextIndex: nat)

  /** One parameter per clause, placeholders numbered `$1`, `$2`, … in order,
      and the next number one past the last. */
  predicate Numbered(b: SearchBuilder) {
    && |b.clauses| == |b.params|
    && b.nextIndex == |b.params| + 1
    && forall i :: 0 <= i < |b.clauses| ==> b.clauses[i].placeholder == i + 1
  }

  /** The `LIKE` pattern `%v%`. */
  function Wildcard(v: string): (w: string)
    ensures |w| == |v| + 2
    ensures w[0] == '%' && w[|w| - 1] == '%'
    ensures w[1..|w| - 1] == v
  {
    "%" + v + "%"
  }

  /** One `if (x) { query += …; params.push(…); paramIndex++; }` step. */
  function AddFilter(b: SearchBuilder, column: Column, value: string): (b': SearchBuilder)
    ensures Numbered(b) ==> Numbered(b')
    ensures |b'.clauses| == |b.clauses| + 1 && b'.clauses[..|b.clauses|] == b.clauses
    ensures b'.clauses[|b.clauses|] == Like(column, b.nextIndex)
    ensures b'.params == b.params + [Wildcard(value)]
  {
    SearchBuilder(b.clauses + [Like(column, b.nextIndex)], b.params + [Wildcard(value)], b.nextIndex + 1)
  }

  function Presence(v: Option<string>): nat {
    if Truthy(v) then 1 else 0
  }

  /** `GET /logs/search`: 400 when neither `cpf` nor `mac` is given;
      otherwise one `LIKE` clause per given filter, CPF first, with
      consecutive placeholders and `%`-wrapped parameters, the MAC
      upper-cased. Values are only ever bound, never spliced into the SQL. */
  function SearchLogs(cpf: Option<string>, mac: Option<string>): (r: Outcome)
    ensures r.BadRequest? || r.Search?
    ensures r.BadRequest? <==> !Truthy(cpf) && !Truthy(mac)
    ensures r.BadRequest? ==> r.error == MissingSearchParameter
    ensures r.Search? ==> |r.clauses| == |r.params| == Presence(cpf) + Presence(mac)
    ensures r.Search? ==> forall i :: 0 <= i < |r.clauses| ==> r.clauses[i].placeholder == i + 1
    ensures r.Search? && Truthy(cpf) ==>
      r.clauses[0] == Like(CpfColumn, 1) && r.params[0] == Wildcard(cpf.value)
    ensures r.Search? && Truthy(mac) ==>
      var last := |r.params| - 1;
      r.clauses[last] == Like(MacColumn, |r.params|) && r.params[last] == Wildcard(Upper(mac.value))
  {
    if !Truthy(cpf) && !Truthy(mac) then
      BadRequest(MissingSearchParameter)
    else
      var b0 := SearchBuilder([], [], 1);
      var b1 := if Truthy(cpf) then AddFilter(b0, CpfColumn, cpf.value) else b0;
      var b2 := if Truthy(mac) then AddFilter(b1, MacColumn, Upper(mac.value)) else b1;
      Search(b2.clauses, b2.params)
  }

  function ColumnName(c: Column): string {
    match c
    case CpfColumn => "cpf"
    case MacColumn => "mac_address"
  }

  function ClauseSql(c: Clause): string {
    match c
    case Like(column, n) => " AND " + ColumnName(column) + " LIKE $" + Decimal(n)
    case OnDay(n) => " AND DATE(horario) = $" + Decimal(n)
  }

  function ClausesSql(cs: seq<Clause>): string {
    if cs == [] then "" else ClauseSql(cs[0]) + ClausesSql(cs[1..])
  }

  /** The statement text handed to the store with the parameters. */
  function SearchSql(cs: seq<Clause>): string {
    SearchHead + ClausesSql(cs) + SearchTail
  }

  /** The statement text depends only on which filters are present, never on
      their values: no user text reaches the SQL. */
  lemma SearchSqlIgnoresValues(cpf1: Option<string>, mac1: Option<string>,
                               cpf2: Option<string>, mac2: Option<string>)
    requires Truthy(cpf1) == Truthy(cpf2) && Truthy(mac1) == Truthy(mac2)
    requires Truthy(cpf1) || Truthy(mac1)
    ensures SearchLogs(cpf1, mac1).clauses == SearchLogs(cpf2, mac2).clauses
    ensures SearchSql(SearchLogs(cpf1, mac1).clauses) == SearchSql(SearchLogs(cpf2, mac2).clauses)
  {
  }

  /** The server's test cases for `GET /logs/search` by one filter, and
      with none. */
  lemma SearchLogsSingleExamples()
    ensures SearchLogs(None, None) == BadRequest(MissingSearchParameter)
    ensures SearchLogs(Some("12345678901"), None).params == ["%12345678901%"]
    ensures SearchLogs(None, Some("aa:bb:cc")).params == ["%AA:BB:CC%"]
  {
    assert Wildcard("12345678901") == "%12345678901%";
    assert Upper("aa:bb:cc") == "AA:BB:CC";
    assert Wildcard("AA:BB:CC") == "%AA:BB:CC%";
  }

  /** With both filters the query has exactly two clauses, `$1` on the CPF
      and `$2` on the MAC. */
  lemma SearchLogsBoth(cpf: string, mac: string)
    requires cpf != "" && mac != ""
    ensures SearchLogs(Some(cpf), Some(mac))
         == Search([Like(CpfColumn, 1), Like(MacColumn, 2)], [Wildcard(cpf), Wildcard(Upper(mac))])
  {
  }

  /** The `WHERE` text a search by CPF alone adds, and the one a MAC in
      second place adds. */
  lemma ClauseTextExamples()
    ensures ClausesSql([Like(CpfColumn, 1)]) == " AND cpf LIKE $1"
    ensures ClausesSql([Like(MacColumn, 2)]) == " AND mac_address LIKE $2"
  {
    assert Decimal(1) == "1";
    assert Decimal(2) == "2";
    assert [Like(CpfColumn, 1)][1..] == [];
    assert [Like(MacColumn, 2)][1..] == [];
  }

  /** The server's test case for `GET /logs/search` by both filters. */
  lemma SearchLogsBothExample()
    ensures SearchLogs(Some("123"), Some("AA:BB")).params == ["%123%", "%AA:BB%"]
  {
    SearchLogsBoth("123", "AA:BB");
    UpperOfNoLower("AA:BB");
    assert Wildcard("123") == "%123%";
    assert Wildcard("AA:BB") == "%AA:BB%";
  }

  /** `GET /logs/search` as the dashboard's page load expects it to behave:
      `date` is a third filter, on the calendar day of `horario`, bound as
      the last parameter, and a request is rejected only when all three
      filters are missing. Without a date it is the search as written. */
  function SearchLogsWithDate(cpf: Option<string>, mac: Option<string>, date: Option<string>): (r: Outcome)
    ensures r.BadRequest? || r.Search?
    ensures r.BadRequest? <==> !Truthy(cpf) && !Truthy(mac) && !Truthy(date)
    ensures r.BadRequest? ==> r.error == MissingSearchParameter
    ensures !Truthy(date) ==> r == SearchLogs(cpf, mac)
    ensures r.Search? ==> |r.clauses| == |r.params| == Presence(cpf) + Presence(mac) + Presence(date)
    ensures r.Search? ==> forall i :: 0 <= i < |r.clauses| ==> r.clauses[i].placeholder == i + 1
    ensures r.Search? && Truthy(date) ==>
      var last := |r.params| - 1;
      r.clauses[last] == OnDay(|r.params|) && r.params[last] == date.value
    ensures r.Search? && Truthy(date) && (Truthy(cpf) || Truthy(mac)) ==>
      var filters := SearchLogs(cpf, mac);
      r.clauses == filters.clauses + [OnDay(|r.params|)] && r.params == filters.params + [date.value]
  {
    if !Truthy(date) then SearchLogs(cpf, mac)
    else
      var filters := if Truthy(cpf) || Truthy(mac) then SearchLogs(cpf, mac) else Search([], []);
      var n := |filters.clauses| + 1;
      Search(filters.clauses + [OnDay(n)], filters.params + [date.value])
  }

  // ------------------------------------------------------------------ Responses

  /** The response to a decision once the store has answered. A 400 never
      reaches the store; a store failure on a valid request is a 500 whose
      message does not reveal the cause; otherwise the listing carries its
      pagination block and the search its row count. */
  function Respond(o: Outcome, store: StoreReply): (r: Response)
    requires o.ListPage? ==> o.limit != 0
    ensures r.status == 400 <==> o.BadRequest?
    ensures o.BadRequest? ==> r.body == ErrorBody(o.error)
    ensures r.status == 500 <==> !o.BadRequest? && store.StoreFailed?
    ensures r.status == 500 ==> r.body == ErrorBody(InternalError)
    ensures r.status == 201 <==> o.Insert? && store.StoreRows?
    ensures r.status == 201 ==>
      r.body.CreatedBody? && (r.body.inserted.Some? <==> |store.rows| > 0)
    ensures r.status == 201 ==>
      r.body == CreatedBody(LogCreated, if |store.rows| > 0 then Some(store.rows[0]) else None)
    ensures r.status == 200 <==> (o.ListPage? || o.Search?) && store.StoreRows?
    ensures r.status == 200 && o.ListPage? ==>
      && r.body.PageBody? && r.body.data == store.rows
      && r.body.pagination.page == o.page && r.body.pagination.limit == o.limit
      && r.body.pagination.total == store.count
      && r.body.pagination.totalPages == CeilDiv(store.count, o.limit)
    ensures r.status == 200 && o.Search? ==>
      r.body.SearchBody? && r.body.data == store.rows && r.body.count == |r.body.data|
  {
    var failed := Response(500, ErrorBody(InternalError));
    match o
    case BadRequest(e) => Response(400, ErrorBody(e))
    case Insert(_, _) =>
      if store.StoreFailed? then failed
      else
        var first := if |store.rows| > 0 then Some(store.rows[0]) else None;
        Response(201, CreatedBody(LogCreated, first))
    case ListPage(page, limit, _) =>
      if store.StoreFailed? then failed
      else
        var info := PaginationInfo(page, limit, store.count, CeilDiv(store.count, limit));
        Response(200, PageBody(store.rows, info))
    case Search(_, _) =>
      if store.StoreFailed? then failed
      else Response(200, SearchBody(store.rows, |store.rows|))
  }

  /** A request rejected by validation gets the same 400 whatever the store
      would have done: the store is never consulted. */
  lemma RejectedNeverReachesStore(o: Outcome, s1: StoreReply, s2: StoreReply)
    requires o.BadRequest?
    ensures Respond(o, s1) == Respond(o, s2)
  {
  }

  /** The listing responses the server's tests expect: 100 rows make two
      default pages or ten pages of ten, and no rows make no pages. */
  lemma ListResponseExamples(rows: seq<LogRecord>)
    ensures Respond(ListLogs(None, None), StoreRows(rows, 100)).body.pagination
         == PaginationInfo(1, 50, 100, 2)
    ensures Respond(ListLogs(Some(2), Some(10)), StoreRows(rows, 100)).body.pagination
         == PaginationInfo(2, 10, 100, 10)
    ensures Respond(ListLogs(None, None), StoreRows(rows, 0)).body.pagination.totalPages == 0
  {
    PageCountExamples();
  }
}
