/**
  The two statements the handler sends to the store: a row count and one
  page of rows, over one shared filter. Statement text is a sequence of
  tokens; caller-supplied values travel only as bind parameters, except the
  sort column and direction, which are written into the text after
  validation.
 */
module Sql {
  import opened Wrappers
  import opened JsString
  import opened JsNumber
  import opened Validation
  import opened Pagination

  /** One lexical element of a statement's text; `Placeholder(k)` is `$k`. */
  datatype Token = Keyword(word: string) | Ident(name: string) | Placeholder(index: nat)

  /** A value bound to a placeholder; it is never part of the text. */
  datatype BindValue = TextValue(text: string) | NumberValue(number: Num)

  /** A statement text with the values for its placeholders, `$1` first. */
  datatype Statement = Statement(text: seq<Token>, params: seq<BindValue>)

  /** Rows whose classifier code and operation date equal the two values. */
  datatype Filter = Filter(codigo: string, data: string)

  /** The two queries: the row count, and one sorted page of rows. */
  datatype Query =
    | Count(filter: Filter)
    | Page(filter: Filter, column: string, direction: Direction, limit: Num, offset: Num)

  /** `FROM t_operacao WHERE codigo_classificador = $1 AND data_operacao = $2` */
  const BaseQuery: seq<Token> := [
    Keyword("FROM"), Ident("t_operacao"),
    Keyword("WHERE"), Ident("codigo_classificador"), Keyword("="), Placeholder(1),
    Keyword("AND"), Ident("data_operacao"), Keyword("="), Placeholder(2)]

  const CountHead: seq<Token> := [Keyword("SELECT"), Keyword("COUNT(*)")]
  const PageHead: seq<Token> := [Keyword("SELECT"), Keyword("*")]

  /** `safeSortDirection` */
  function DirectionKeyword(d: Direction): string
  {
    if d == Desc then "DESC" else "ASC"
  }

  /** `ORDER BY <column> <direction> LIMIT $3 OFFSET $4` */
  function PageTail(column: string, direction: Direction): seq<Token>
  {
    [Keyword("ORDER BY"), Ident(column), Keyword(DirectionKeyword(direction)),
     Keyword("LIMIT"), Placeholder(3), Keyword("OFFSET"), Placeholder(4)]
  }

  /** `whereValues`: the filter's two values, in placeholder order. */
  function WhereValues(f: Filter): seq<BindValue>
  {
    [TextValue(f.codigo), TextValue(f.data)]
  }

  /** The statement text and bind values of a query. */
  function Render(q: Query): Statement
  {
    match q
    case Count(f) => Statement(CountHead + BaseQuery, WhereValues(f))
    case Page(f, column, direction, limit, offset) =>
      Statement(PageHead + BaseQuery + PageTail(column, direction),
                WhereValues(f) + [NumberValue(limit), NumberValue(offset)])
  }

  /** The queries of a validated request: one filter for both, the page limited to `size` rows from `(page - 1) * size`. */
  function Queries(v: ValidRequest): (qs: (Query, Query))
    ensures qs.0.Count? && qs.1.Page? && qs.0.filter == qs.1.filter
    ensures qs.1.limit == v.size && qs.1.offset == Offset(v.page, v.size)
    ensures qs.1.column == v.sortColumn && qs.1.direction == v.direction
  {
    var f := Filter(v.codigo, v.data);
    (Count(f), Page(f, v.sortColumn, v.direction, v.size, Offset(v.page, v.size)))
  }

  /** Reads a rendered statement back into the query it came from. */
  function Parse(s: Statement): Option<Query>
  {
    if |s.params| < 2 || !s.params[0].TextValue? || !s.params[1].TextValue? then None
    else
      var f := Filter(s.params[0].text, s.params[1].text);
      if s.text == CountHead + BaseQuery && |s.params| == 2 then Some(Count(f))
      else if |s.text| == 19 && s.text[..12] == PageHead + BaseQuery && s.text[13].Ident?
              && (s.text[14] == Keyword("ASC") || s.text[14] == Keyword("DESC"))
              && |s.params| == 4 && s.params[2].NumberValue? && s.params[3].NumberValue? then
        var d := if s.text[14] == Keyword("DESC") then Desc else Asc;
        if s.text[12..] == PageTail(s.text[13].name, d) then
          Some(Page(f, s.text[13].name, d, s.params[2].number, s.params[3].number))
        else None
      else None
  }

  /** Rendering loses nothing: the statement determines the query. */
  lemma ParseRender(q: Query)
    ensures Parse(Render(q)) == Some(q)
  {
    var s := Render(q);
    match q
    case Count(f) =>
    case Page(f, column, direction, limit, offset) =>
      assert s.text[..12] == PageHead + BaseQuery;
      assert s.text[12..] == PageTail(column, direction);
      assert s.text[13] == Ident(column);
      assert s.text[14] == Keyword(DirectionKeyword(direction));
  }

  /** The fixed words of the handler's SQL. */
  const Keywords: set<string> :=
    {"SELECT", "COUNT(*)", "*", "FROM", "WHERE", "=", "AND", "ORDER BY", "ASC", "DESC", "LIMIT", "OFFSET"}

  /** The table and filter columns the handler names. */
  const SchemaNames: set<string> := {"t_operacao", "codigo_classificador", "data_operacao"}

  /**
    A statement is safe when its text is built only from the handler's own
    keywords, its own schema names, sort columns that are allow-listed up to
    case, and placeholders that all have a bound value.
   */
  predicate SafeToken(t: Token, params: nat)
  {
    match t
    case Keyword(w) => w in Keywords
    case Ident(n) => n in SchemaNames || AllowedColumn(n)
    case Placeholder(k) => 1 <= k <= params
  }

  predicate Safe(s: Statement)
  {
    forall i :: 0 <= i < |s.text| ==> SafeToken(s.text[i], |s.params|)
  }

  /**
    Nothing but an allow-listed column (in the caller's case) and ASC/DESC
    reaches the text of either statement of an accepted request, and every
    placeholder has its value.
   */
  lemma QueriesAreSafe(v: ValidRequest)
    requires Admissible(v)
    ensures Safe(Render(Queries(v).0)) && Safe(Render(Queries(v).1))
  {
    var page := Render(Queries(v).1);
    forall i | 0 <= i < |page.text| ensures SafeToken(page.text[i], |page.params|) {
      if i == 13 {
        assert page.text[i] == Ident(v.sortColumn);
      }
    }
  }

  /** The count statement's text is the same for every request. */
  lemma CountTextFixed(v1: ValidRequest, v2: ValidRequest)
    ensures Render(Queries(v1).0).text == Render(Queries(v2).0).text
  {
  }

  /** The page statement's text varies with the sort column and direction and with nothing else. */
  lemma PageTextDependsOnlyOnSort(v1: ValidRequest, v2: ValidRequest)
    ensures Render(Queries(v1).1).text == Render(Queries(v2).1).text
        <==> v1.sortColumn == v2.sortColumn && v1.direction == v2.direction
  {
    var t1, t2 := Render(Queries(v1).1).text, Render(Queries(v2).1).text;
    if t1 == t2 {
      assert t1[13] == Ident(v1.sortColumn) && t2[13] == Ident(v2.sortColumn);
      assert t1[14] == Keyword(DirectionKeyword(v1.direction));
      assert t2[14] == Keyword(DirectionKeyword(v2.direction));
    }
  }

  /**
    Both statements use the identical filter: the page statement repeats the
    count statement's FROM/WHERE text and its two values, then binds the size
    as `$3` and the offset as `$4`.
   */
  lemma SharedFilter(v: ValidRequest)
    ensures var count, page := Render(Queries(v).0), Render(Queries(v).1);
      && count.text[2..] == BaseQuery && page.text[2..12] == BaseQuery
      && count.params == [TextValue(v.codigo), TextValue(v.data)]
      && page.params == count.params + [NumberValue(v.size), NumberValue(Offset(v.page, v.size))]
  {
    var page := Render(Queries(v).1);
    assert page.text[2..12] == BaseQuery;
  }
}
