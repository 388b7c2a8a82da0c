/**
  `formatResponse`: each row the store returns becomes a record of fixed
  shape. The two identifier columns go through `parseInt`, the amount through
  `parseFloat`, and every other field is copied as it is.
 */
module Rows {
  import opened JsNumber

  /** A column value as the database driver hands it over; numbers are represented by their decimal text. */
  datatype Cell = Null | Text(text: string)

  /** The columns of a `t_operacao` row that `formatResponse` reads. */
  datatype Row = Row(
    id: Cell,
    codigoClassificador: Cell,
    tituloClassificador: Cell,
    valorMovimento: Cell,
    dataAtualizacao: Cell,
    dataReferencia: Cell,
    dataProcessamento: Cell,
    dataOperacao: Cell,
    dataContabil: Cell,
    idCliente: Cell,
    cpfCliente: Cell,
    nomeCliente: Cell,
    produto: Cell,
    tipoCartao: Cell,
    redeOrigem: Cell,
    empresa: Cell,
    filial: Cell,
    codigoVencimento: Cell)

  /** `parseFloat(valor_movimento)`; floating point is not modelled, so the amount names the cell it is read from. */
  datatype Amount = FloatOf(source: Cell)

  /** One element of the `data` array of a 200 answer. */
  datatype Operacao = Operacao(
    id: Num,
    codigoClassificador: Cell,
    tituloClassificador: Cell,
    valorMovimento: Amount,
    dataAtualizacao: Cell,
    dataReferencia: Cell,
    dataProcessamento: Cell,
    dataOperacao: Cell,
    dataContabil: Cell,
    idCliente: Num,
    cpfCliente: Cell,
    nomeCliente: Cell,
    produto: Cell,
    tipoCartao: Cell,
    redeOrigem: Cell,
    empresa: Cell,
    filial: Cell,
    codigoVencimento: Cell)

  /** `parseInt(x)` of a cell: `null` becomes the text "null", which is NaN. */
  function ParseIntCell(c: Cell): Num
  {
    match c
    case Null => NaN
    case Text(s) => ParseIntNoRadix(s)
  }

  /** The record `formatResponse` builds from one row. */
  function Shape(r: Row): Operacao
  {
    Operacao(
      ParseIntCell(r.id), r.codigoClassificador, r.tituloClassificador, FloatOf(r.valorMovimento),
      r.dataAtualizacao, r.dataReferencia, r.dataProcessamento, r.dataOperacao, r.dataContabil,
      ParseIntCell(r.idCliente), r.cpfCliente, r.nomeCliente, r.produto, r.tipoCartao,
      r.redeOrigem, r.empresa, r.filial, r.codigoVencimento)
  }

  /** `rows.map(...)`: one record per row, in the order of the rows. */
  function FormatResponse(rows: seq<Row>): (out: seq<Operacao>)
    ensures |out| == |rows|
    ensures forall i :: 0 <= i < |rows| ==> out[i] == Shape(rows[i])
  {
    if |rows| == 0 then [] else [Shape(rows[0])] + FormatResponse(rows[1..])
  }

  /** The fields `formatResponse` copies without conversion, in record order. */
  function CopiedFields(r: Row): seq<Cell>
  {
    [r.codigoClassificador, r.tituloClassificador, r.dataAtualizacao, r.dataReferencia,
     r.dataProcessamento, r.dataOperacao, r.dataContabil, r.cpfCliente, r.nomeCliente,
     r.produto, r.tipoCartao, r.redeOrigem, r.empresa, r.filial, r.codigoVencimento]
  }

  function CopiedFieldsOf(o: Operacao): seq<Cell>
  {
    [o.codigoClassificador, o.tituloClassificador, o.dataAtualizacao, o.dataReferencia,
     o.dataProcessamento, o.dataOperacao, o.dataContabil, o.cpfCliente, o.nomeCliente,
     o.produto, o.tipoCartao, o.redeOrigem, o.empresa, o.filial, o.codigoVencimento]
  }

  /** Every non-numeric field of every record is the corresponding field of its row. */
  lemma FormatCopiesFields(rows: seq<Row>)
    ensures forall i :: 0 <= i < |rows| ==>
      CopiedFieldsOf(FormatResponse(rows)[i]) == CopiedFields(rows[i])
      && FormatResponse(rows)[i].valorMovimento.source == rows[i].valorMovimento
  {
  }

  /** Shaping distributes over concatenation: the output keeps the rows' order and splits where they split. */
  lemma {:induction false} FormatAppend(a: seq<Row>, b: seq<Row>)
    ensures FormatResponse(a + b) == FormatResponse(a) + FormatResponse(b)
  {
    var l, r := FormatResponse(a + b), FormatResponse(a) + FormatResponse(b);
    assert |l| == |r|;
    forall i | 0 <= i < |l| ensures l[i] == r[i] {
      if i < |a| {
        assert (a + b)[i] == a[i];
      } else {
        assert (a + b)[i] == b[i - |a|];
      }
    }
  }

  /** A cell holding the decimal text `String(n)`. */
  ghost predicate HoldsInteger(c: Cell)
  {
    c.Text? && exists n: int :: c.text == IntToString(n)
  }

  /** The inverse of ParseIntCell on cells that hold an integer. */
  function IntegerCell(n: Num): Cell
  {
    match n
    case Finite(k) => Text(IntToString(k))
    case NaN => Null
  }

  /** Puts a record back into row form: identifiers rewritten as decimal text, the amount as its source. */
  function Unshape(o: Operacao): Row
  {
    Row(
      IntegerCell(o.id), o.codigoClassificador, o.tituloClassificador, o.valorMovimento.source,
      o.dataAtualizacao, o.dataReferencia, o.dataProcessamento, o.dataOperacao, o.dataContabil,
      IntegerCell(o.idCliente), o.cpfCliente, o.nomeCliente, o.produto, o.tipoCartao,
      o.redeOrigem, o.empresa, o.filial, o.codigoVencimento)
  }

  lemma IntegerCellRoundTrip(c: Cell)
    requires HoldsInteger(c)
    ensures IntegerCell(ParseIntCell(c)) == c
  {
    var n: int :| c.text == IntToString(n);
    ParseIntNoRadixOfIntToString(n);
  }

  /**
    Shaping loses nothing from a row whose identifier columns hold integers:
    the row is recovered from its record. The amount is recovered only
    because `FloatOf` keeps the cell it was read from.
   */
  lemma ShapeRoundTrip(r: Row)
    requires HoldsInteger(r.id) && HoldsInteger(r.idCliente)
    ensures Unshape(Shape(r)) == r
  {
    IntegerCellRoundTrip(r.id);
    IntegerCellRoundTrip(r.idCliente);
  }

  /** The identifiers of a record are the integers its row holds. */
  lemma ShapeReadsIdentifiers(r: Row, id: int, idCliente: int)
    requires r.id == Text(IntToString(id)) && r.idCliente == Text(IntToString(idCliente))
    ensures Shape(r).id == Finite(id) && Shape(r).idCliente == Finite(idCliente)
  {
    ParseIntNoRadixOfIntToString(id);
    ParseIntNoRadixOfIntToString(idCliente);
  }
}
