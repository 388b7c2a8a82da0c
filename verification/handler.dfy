/**
  The `GET /operacoes` handler: validate, build the two statements, ask the
  store for the count and then for the page, and answer 200, 400 or 500.
 */
module Handler {
  import opened Wrappers
  import opened JsNumber
  import opened Validation
  import opened Pagination
  import opened Sql
  import opened Rows

  /**
    The store as the handler sees it: the text of the `count` cell answering
    the count statement, and the rows answering the page statement. `None`
    is any failure of the call (connection, SQL error, a missing count row).
   */
  datatype Store = Store(count: Statement -> Option<string>, select: Statement -> Option<seq<Row>>)

  /** The three answers: HTTP status 200, 400 and 500. */
  datatype Response =
    | Found(pagination: PageInfo, data: seq<Operacao>)
    | BadRequest(error: string)
    | ServerError(error: string)

  const InternalErrorMessage := "Erro interno do servidor."

  /** An answer together with the statements sent to the store, in the order they were sent. */
  datatype Exchange = Exchange(response: Response, sent: seq<Statement>)

  /**
    One request. A rejected request is answered 400 before any statement is
    sent; an accepted one is answered by Respond.
   */
  function Handle(req: Request, store: Store): (x: Exchange)
    ensures x.response.BadRequest? <==> Validate(req).Err?
    ensures x.response.BadRequest? ==> x.sent == [] && x.response.error == Message(Validate(req).error)
    ensures Validate(req).Ok? ==> x == Respond(Validate(req).value, store)
  {
    match Validate(req)
    case Err(e) => Exchange(BadRequest(Message(e)), [])
    case Ok(v) => Respond(v, store)
  }

  /**
    The answer to an accepted request. The count is sent first and the page
    second; a failing store call is answered 500 with no data, and what was
    sent is always a prefix of the two statements.
   */
  function Respond(v: ValidRequest, store: Store): (x: Exchange)
    requires Admissible(v)
    ensures !x.response.BadRequest?
    ensures x.response.ServerError? ==> x.response.error == InternalErrorMessage && 1 <= |x.sent| <= 2
    ensures x.response.Found? ==> |x.sent| == 2
    ensures 1 <= |x.sent| && x.sent <= [Render(Queries(v).0), Render(Queries(v).1)]
  {
    var countStatement := Render(Queries(v).0);
    var pageStatement := Render(Queries(v).1);
    match store.count(countStatement)
    case None => Exchange(ServerError(InternalErrorMessage), [countStatement])
    case Some(countText) =>
      var totalItems := ParseInt(countText);
      match store.select(pageStatement)
      case None => Exchange(ServerError(InternalErrorMessage), [countStatement, pageStatement])
      case Some(rows) =>
        Exchange(Found(MakePageInfo(totalItems, v.page, v.size), FormatResponse(rows)),
                 [countStatement, pageStatement])
  }

  /**
    Every statement that reaches the store is safe: its text holds only the
    handler's keywords and schema names, an allow-listed sort column (up to
    case) and ASC or DESC, and every placeholder has a value.
   */
  lemma SentStatementsAreSafe(req: Request, store: Store)
    ensures forall i :: 0 <= i < |Handle(req, store).sent| ==> Safe(Handle(req, store).sent[i])
  {
    if Validate(req).Ok? {
      var v := Validate(req).value;
      assert Handle(req, store) == Respond(v, store);
      RespondSendsSafeStatements(v, store);
    }
  }

  lemma RespondSendsSafeStatements(v: ValidRequest, store: Store)
    requires Admissible(v)
    ensures forall i :: 0 <= i < |Respond(v, store).sent| ==> Safe(Respond(v, store).sent[i])
  {
    var sent := Respond(v, store).sent;
    var both := [Render(Queries(v).0), Render(Queries(v).1)];
    QueriesAreSafe(v);
    forall i | 0 <= i < |sent| ensures Safe(sent[i]) {
      assert sent[i] == both[i];
    }
  }

  /**
    The statements of an accepted request: the count over the filter
    `[codigoClassificador, dataContabil]`, then the page over the same
    filter followed by the size and the offset `(page - 1) * size`.
   */
  lemma SentStatements(v: ValidRequest, store: Store)
    requires Admissible(v)
    ensures var x := Respond(v, store);
      && x.sent[0].params == [TextValue(v.codigo), TextValue(v.data)]
      && (|x.sent| == 2 ==>
            x.sent[1].params == x.sent[0].params + [NumberValue(v.size), NumberValue(Offset(v.page, v.size))])
  {
    SharedFilter(v);
  }

  /** A 500 answer comes from exactly a failing count or a failing page call, whichever it is. */
  lemma ServerErrorIff(v: ValidRequest, store: Store)
    requires Admissible(v)
    ensures Respond(v, store).response.ServerError?
        <==> store.count(Render(Queries(v).0)).None? || store.select(Render(Queries(v).1)).None?
  {
  }

  /** A 200 answer echoes the parsed page and size and carries one record per row the store returned. */
  lemma FoundEchoesRequest(v: ValidRequest, store: Store)
    requires Admissible(v)
    requires Respond(v, store).response.Found?
    ensures var r := Respond(v, store).response;
      && r.pagination.currentPage == v.page
      && r.pagination.pageSize == v.size
      && store.select(Render(Queries(v).1)).Some?
      && |r.data| == |store.select(Render(Queries(v).1)).value|
  {
  }

  /**
    Against a store whose count text reads as `items` matching rows and
    which answers the page statement as `LIMIT size OFFSET (page - 1) * size`
    would, the answer
    reports `items`, `ceil(items / size)` pages and the requested page and
    size; the page holds at most `size` records, and holds any exactly when
    it is one of the first `totalPages` pages.
   */
  lemma FoundPage(v: ValidRequest, store: Store, countText: string, items: nat, rows: seq<Row>)
    requires Admissible(v) && v.page.Finite? && v.size.Finite?
    requires store.count(Render(Queries(v).0)) == Some(countText) && ParseInt(countText) == Finite(items)
    requires store.select(Render(Queries(v).1)) == Some(rows)
    requires |rows| == RowsOnPage(items, (v.page.n - 1) * v.size.n, v.size.n)
    ensures var r := Respond(v, store).response;
      && r.Found?
      && r.pagination == PageInfo(Finite(items), Finite(CeilDiv(items, v.size.n)), v.page, v.size)
      && |r.data| <= v.size.n
      && (|r.data| > 0 <==> v.page.n <= CeilDiv(items, v.size.n))
  {
    PageNonEmptyIff(items, v.size.n, v.page.n);
  }

  /** The 200 answer in terms of what the store said. */
  lemma FoundFromStore(v: ValidRequest, store: Store, countText: string, rows: seq<Row>)
    requires Admissible(v)
    requires store.count(Render(Queries(v).0)) == Some(countText)
    requires store.select(Render(Queries(v).1)) == Some(rows)
    ensures Respond(v, store).response
         == Found(MakePageInfo(ParseInt(countText), v.page, v.size), FormatResponse(rows))
  {
  }

  /**
    Three matching rows, `page=1&size=2`, against a store that honours
    `LIMIT 2 OFFSET 0`: two records and
    `{totalItems: 3, totalPages: 2, currentPage: 1, pageSize: 2}`.
   */
  lemma ThreeRowsPageOneOfTwo(codigo: string, data: string, store: Store, rows: seq<Row>)
    requires codigo != "" && data != ""
    requires var v := ValidRequest(codigo, data, Finite(1), Finite(2), "id", Asc);
      && store.count(Render(Queries(v).0)) == Some("3")
      && store.select(Render(Queries(v).1)) == Some(rows)
      && |rows| == RowsOnPage(3, 0, 2)
    ensures var r := Handle(Request(Some(codigo), Some(data), Some("1"), Some("2"), None), store).response;
      && r.Found?
      && r.pagination == PageInfo(Finite(3), Finite(2), Finite(1), Finite(2))
      && |r.data| == 2
  {
    var req := Request(Some(codigo), Some(data), Some("1"), Some("2"), None);
    var v := ValidRequest(codigo, data, Finite(1), Finite(2), "id", Asc);
    assert Validate(req) == Ok(v) by {
      assert IntToString(1) == "1" && IntToString(2) == "2";
      NumericPageAndSize(codigo, data, 1, 2);
    }
    assert ParseInt("3") == Finite(3) by { ParseIntOfIntToString(3); assert IntToString(3) == "3"; }
    FoundFromStore(v, store, "3", rows);
    assert CeilDiv(3, 2) == 2 by { CeilDivUnique(3, 2, 2); }
  }

  /** No matching rows: a 200 answer with no records, no items and no pages. */
  lemma NoMatchingRows(v: ValidRequest, store: Store)
    requires Admissible(v) && v.size.Finite?
    requires store.count(Render(Queries(v).0)) == Some("0")
    requires store.select(Render(Queries(v).1)) == Some([])
    ensures var r := Respond(v, store).response;
      && r.Found? && r.data == []
      && r.pagination.totalItems == Finite(0) && r.pagination.totalPages == Finite(0)
  {
    assert ParseInt("0") == Finite(0) by { ParseIntOfIntToString(0); assert IntToString(0) == "0"; }
    FoundFromStore(v, store, "0", []);
    TotalPagesBounds(0, v.size.n);
  }
}
