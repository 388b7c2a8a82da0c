/**
  Validation of the query string of `GET /operacoes`: the required
  parameters, the defaults, the page/size range check and the sort
  allow-list, applied in that order.
 */
module Validation {
  import opened Wrappers
  import opened JsString
  import opened JsNumber

  /** The query string as it arrives; `None` is a parameter that was not sent. */
  datatype Request = Request(
    codigoClassificador: Option<string>,
    dataContabil: Option<string>,
    page: Option<string>,
    size: Option<string>,
    sort: Option<string>)

  /** The normalised sort direction, the only text besides the column that enters the statement. */
  datatype Direction = Asc | Desc

  /**
    A request that passed validation. `sortColumn` keeps the case the caller
    wrote; only its lower-case form was checked against the allow-list.
   */
  datatype ValidRequest = ValidRequest(
    codigo: string,
    data: string,
    page: Num,
    size: Num,
    sortColumn: string,
    direction: Direction)

  /** The three 400 answers. */
  datatype ValidationError = MissingParameters | NonPositivePageOrSize | InvalidSortColumn

  const AllowedSortColumns: seq<string> := ["id", "descricao", "valor", "data_contabil"]

  const DefaultPage := "1"
  const DefaultSize := "10"
  const DefaultSort := "id,asc"
  const DefaultDirection := "asc"

  const InvalidSortPrefix := "Coluna de ordenação inválida. Permitidas: "

  /** The error text of each 400 answer. */
  function Message(e: ValidationError): string
  {
    match e
    case MissingParameters =>
      "Parâmetros obrigatórios ausentes. Por favor, forneça \"codigoClassificador\" e \"dataContabil\"."
    case NonPositivePageOrSize =>
      "Os parâmetros \"page\" e \"size\" devem ser números positivos."
    case InvalidSortColumn =>
      InvalidSortPrefix + Join(AllowedSortColumns, ", ")
  }

  /** The sort-column rejection names the four allowed columns, comma-separated, in allow-list order. */
  lemma InvalidSortMessageText()
    ensures Message(InvalidSortColumn) == InvalidSortPrefix + "id, descricao, valor, data_contabil"
  {
    var cs := AllowedSortColumns;
    assert cs[1..] == ["descricao", "valor", "data_contabil"];
    assert cs[1..][1..] == ["valor", "data_contabil"];
    assert cs[1..][1..][1..] == ["data_contabil"];
  }

  /** JavaScript truthiness of a query parameter: sent and not empty. */
  predicate Truthy(p: Option<string>)
  {
    p.Some? && p.value != ""
  }

  /** `p || fallback` */
  function Or(p: Option<string>, fallback: string): string
  {
    if Truthy(p) then p.value else fallback
  }

  /** `const [sortColumn, sortDirection = 'asc'] = sort.split(',')` */
  function SortTokens(sort: string): (string, string)
  {
    var parts := Split(sort, ',');
    (parts[0], if |parts| >= 2 then parts[1] else DefaultDirection)
  }

  /** `sortDirection.toLowerCase() === 'desc' ? 'DESC' : 'ASC'` */
  function NormaliseDirection(token: string): Direction
  {
    if Lower(token) == "desc" then Desc else Asc
  }

  /** `allowedSortColumns.includes(sortColumn.toLowerCase())` */
  predicate AllowedColumn(token: string)
  {
    Lower(token) in AllowedSortColumns
  }

  /** What every accepted request satisfies. */
  predicate Admissible(v: ValidRequest)
  {
    && v.codigo != ""
    && v.data != ""
    && !LessThan(v.page, 1)
    && !LessThan(v.size, 1)
    && AllowedColumn(v.sortColumn)
  }

  function PageOf(req: Request): Num
  {
    ParseInt(Or(req.page, DefaultPage))
  }

  function SizeOf(req: Request): Num
  {
    ParseInt(Or(req.size, DefaultSize))
  }

  function SortOf(req: Request): (string, string)
  {
    SortTokens(Or(req.sort, DefaultSort))
  }

  /**
    The handler's checks in source order: required parameters, then the
    page/size range, then the sort column. NaN (a page or size that is not
    a numeral) is not below 1 and passes.
   */
  function Validate(req: Request): (r: Result<ValidRequest, ValidationError>)
    ensures r.Ok? ==> Admissible(r.value)
    ensures r.Ok? ==> (&& Some(r.value.codigo) == req.codigoClassificador
                       && Some(r.value.data) == req.dataContabil
                       && r.value.page == PageOf(req) && r.value.size == SizeOf(req)
                       && r.value.sortColumn == SortOf(req).0)
    ensures r.Ok? ==> (r.value.direction == Desc <==> Lower(SortOf(req).1) == "desc")
  {
    Check(req.codigoClassificador, req.dataContabil, PageOf(req), SizeOf(req), SortOf(req))
  }

  /** The checks of Validate, on the parameters after defaulting and parsing. */
  function Check(codigo: Option<string>, data: Option<string>, page: Num, size: Num,
                 sort: (string, string)): Result<ValidRequest, ValidationError>
  {
    if !Truthy(codigo) || !Truthy(data) then
      Err(MissingParameters)
    else if LessThan(page, 1) || LessThan(size, 1) then
      Err(NonPositivePageOrSize)
    else if !AllowedColumn(sort.0) then
      Err(InvalidSortColumn)
    else
      Ok(ValidRequest(codigo.value, data.value, page, size, sort.0, NormaliseDirection(sort.1)))
  }

  /** A missing or empty required parameter is reported before anything else is looked at. */
  lemma MissingParametersFirst(req: Request)
    ensures Validate(req) == Err(MissingParameters)
        <==> !Truthy(req.codigoClassificador) || !Truthy(req.dataContabil)
  {
  }

  /** With the required parameters present, a page or size below 1 is reported whatever the sort says. */
  lemma PageSizeBeforeSort(req: Request)
    requires Truthy(req.codigoClassificador) && Truthy(req.dataContabil)
    ensures Validate(req) == Err(NonPositivePageOrSize)
        <==> LessThan(PageOf(req), 1) || LessThan(SizeOf(req), 1)
  {
  }

  /** The sort column is the last check: it rejects exactly the columns outside the allow-list. */
  lemma SortColumnChecked(req: Request)
    requires Truthy(req.codigoClassificador) && Truthy(req.dataContabil)
    requires !LessThan(PageOf(req), 1) && !LessThan(SizeOf(req), 1)
    ensures Validate(req).Ok? <==> Lower(SortOf(req).0) in AllowedSortColumns
    ensures Validate(req).Err? ==> Validate(req).error == InvalidSortColumn
  {
  }

  /** Sending an empty page, size or sort is the same as not sending it. */
  lemma EmptyIsAbsent(req: Request, empty: Request)
    requires empty.codigoClassificador == req.codigoClassificador
    requires empty.dataContabil == req.dataContabil
    requires empty.page == (if req.page == None then Some("") else req.page)
    requires empty.size == (if req.size == None then Some("") else req.size)
    requires empty.sort == (if req.sort == None then Some("") else req.sort)
    ensures Validate(empty) == Validate(req)
  {
    assert PageOf(empty) == PageOf(req);
    assert SizeOf(empty) == SizeOf(req);
    assert SortOf(empty) == SortOf(req);
  }

  /** The default sort string names the `id` column, ascending, and `id` is allowed. */
  lemma DefaultSortIsIdAscending()
    ensures SortTokens(DefaultSort) == ("id", "asc")
    ensures AllowedColumn("id") && NormaliseDirection("asc") == Asc
  {
    assert DefaultSort == Join(["id", "asc"], [',']);
    SplitJoin(["id", "asc"], ',');
    assert Lower("id") == "id";
    assert |Lower("asc")| == 3;
  }

  /** Without page, size and sort the handler uses page 1, size 10 and `id` ascending. */
  lemma Defaults(codigo: string, data: string)
    requires codigo != "" && data != ""
    ensures Validate(Request(Some(codigo), Some(data), None, None, None))
         == Ok(ValidRequest(codigo, data, Finite(1), Finite(10), "id", Asc))
  {
    var req := Request(Some(codigo), Some(data), None, None, None);
    assert PageOf(req) == Finite(1) by {
      assert DefaultPage == IntToString(1);
      ParseIntOfIntToString(1);
    }
    assert SizeOf(req) == Finite(10) by {
      assert DefaultSize == IntToString(10);
      ParseIntOfIntToString(10);
    }
    DefaultSortIsIdAscending();
  }

  /** A page and size written as numerals are read back as those numbers; with no sort, `id` ascending. */
  lemma NumericPageAndSize(codigo: string, data: string, page: int, size: int)
    requires codigo != "" && data != ""
    requires page >= 1 && size >= 1
    ensures Validate(Request(Some(codigo), Some(data), Some(IntToString(page)), Some(IntToString(size)), None))
         == Ok(ValidRequest(codigo, data, Finite(page), Finite(size), "id", Asc))
  {
    var req := Request(Some(codigo), Some(data), Some(IntToString(page)), Some(IntToString(size)), None);
    assert PageOf(req) == Finite(page) by { ParseIntOfIntToString(page); }
    assert SizeOf(req) == Finite(size) by { ParseIntOfIntToString(size); }
    DefaultSortIsIdAscending();
  }

  /** A page that is not a numeral parses to NaN, which the range check lets through. */
  lemma NonNumericPageAccepted(codigo: string, data: string, page: string)
    requires codigo != "" && data != ""
    requires page != "" && !IsDigit(page[0]) && !IsWhiteSpace(page[0]) && page[0] != '+' && page[0] != '-'
    ensures Validate(Request(Some(codigo), Some(data), Some(page), None, None)).Ok?
    ensures Validate(Request(Some(codigo), Some(data), Some(page), None, None)).value.page == NaN
  {
    ParseIntNotANumber("", "", page);
    assert "" + "" + page == page;
    Defaults(codigo, data);
  }

  /** `"column,direction"` splits into its two halves; a sort without a comma gets `asc`. */
  lemma SortTokensOf(column: string, direction: string)
    requires ',' !in column && ',' !in direction
    ensures SortTokens(column + "," + direction) == (column, direction)
    ensures SortTokens(column) == (column, DefaultDirection)
  {
    assert column + "," + direction == Join([column, direction], [',']);
    SplitJoin([column, direction], ',');
    SplitWithoutSeparator(column, ',');
  }

  /** `a` and `b` are equal up to the case of ASCII letters. */
  predicate EqualIgnoringCase(a: string, b: string)
  {
    |a| == |b| && forall i :: 0 <= i < |a| ==> LowerChar(a[i]) == LowerChar(b[i])
  }

  /** The direction is descending exactly for `desc` in any mix of cases, ascending for anything else. */
  lemma DescendingIff(token: string)
    ensures NormaliseDirection(token) == Desc <==> EqualIgnoringCase(token, "DESC")
  {
    if EqualIgnoringCase(token, "DESC") {
      assert Lower(token) == "desc";
    }
  }

  /** The allowed names are already in lower case. */
  lemma AllowedColumnsLower(i: int)
    requires 0 <= i < |AllowedSortColumns|
    ensures Lower(AllowedSortColumns[i]) == AllowedSortColumns[i]
  {
    var c := AllowedSortColumns[i];
    assert forall j :: 0 <= j < |c| ==> !IsUpper(c[j]);
    LowerFixedPoint(c);
  }

  /** Equal up to case means equal lower-case forms. */
  lemma EqualIgnoringCaseIff(a: string, b: string)
    ensures EqualIgnoringCase(a, b) <==> Lower(a) == Lower(b)
  {
    if Lower(a) == Lower(b) {
      forall i | 0 <= i < |a| ensures LowerChar(a[i]) == LowerChar(b[i]) {
        assert Lower(a)[i] == Lower(b)[i];
      }
    }
  }

  /** A column is accepted exactly when it spells an allowed column in some mix of cases. */
  lemma AllowedColumnIff(token: string)
    ensures AllowedColumn(token)
        <==> exists i :: 0 <= i < |AllowedSortColumns| && EqualIgnoringCase(token, AllowedSortColumns[i])
  {
    if i :| 0 <= i < |AllowedSortColumns| && EqualIgnoringCase(token, AllowedSortColumns[i]) {
      EqualIgnoringCaseIff(token, AllowedSortColumns[i]);
      AllowedColumnsLower(i);
    }
    if AllowedColumn(token) {
      var i :| 0 <= i < |AllowedSortColumns| && Lower(token) == AllowedSortColumns[i];
      AllowedColumnsLower(i);
      EqualIgnoringCaseIff(token, AllowedSortColumns[i]);
    }
  }

  /** Characters that can appear in an unquoted SQL identifier of the allow-list, in any case. */
  predicate IsIdentifierChar(c: char)
  {
    ('a' <= c <= 'z') || ('A' <= c <= 'Z') || c == '_'
  }

  /**
    An accepted sort column, although interpolated in the case the caller
    wrote it, is one of the allowed names up to case: its length is that
    name's and it holds nothing but letters and underscores.
   */
  lemma AllowedColumnIsIdentifier(token: string)
    requires AllowedColumn(token)
    ensures forall i :: 0 <= i < |token| ==> IsIdentifierChar(token[i])
    ensures |token| in {2, 5, 9, 13}
  {
    var c := Lower(token);
    var k :| 0 <= k < |AllowedSortColumns| && c == AllowedSortColumns[k];
    AllowedNameChars(k);
    forall i | 0 <= i < |token|
      ensures IsIdentifierChar(token[i])
    {
      assert c[i] == LowerChar(token[i]) && IsIdentifierChar(c[i]);
    }
  }

  /** Every allowed name is spelled with letters and underscores. */
  lemma AllowedNameChars(k: int)
    requires 0 <= k < |AllowedSortColumns|
    ensures forall j :: 0 <= j < |AllowedSortColumns[k]| ==> IsIdentifierChar(AllowedSortColumns[k][j])
  {
    var name := AllowedSortColumns[k];
    assert name == "id" || name == "descricao" || name == "valor" || name == "data_contabil";
  }
}
