/** How the page and the service meet over JSON. The two sides name the fields of a lote
    differently (the service reads `nome`, `dataEntrada`, `status`, ...; the page writes
    and reads `codigo_identificador`, `data_chegada`, `status`, ...), and both are modelled
    as written; these lemmas state what that means for a request or a listed row. */
module Interop {
  import opened JsValues
  import opened SqlValues
  import opened LoteTable
  import opened LoteService
  import opened ClientText
  import opened ClientApp

  /** A SQLite value as `res.json` writes it. */
  function SqlToJs(v: SqlValue): (j: JsValue)
    ensures j == Null <==> v == SqlNull
    ensures v.SqlInteger? ==> j == Num(v.i)
    ensures v.SqlText? ==> j == Str(v.t)
    ensures Bind(j) == v
  {
    match v
    case SqlNull => Null
    case SqlInteger(i) => Num(i)
    case SqlText(t) => Str(t)
  }

  /** A row as the JSON object the list and get-by-id routes send. */
  function RecordJson(r: Record): (o: JsObject)
    ensures o.Keys == {"id", "nome", "tipoAve", "quantidadeAves", "dataEntrada", "status"}
    ensures o["id"] == Num(r.id)
    ensures RequestOf(o) == LoteRequest(
      SqlToJs(r.lote.nome), SqlToJs(r.lote.tipoAve), SqlToJs(r.lote.quantidadeAves),
      SqlToJs(r.lote.dataEntrada), SqlToJs(r.lote.status))
  {
    map[
      "id" := Num(r.id),
      "nome" := SqlToJs(r.lote.nome),
      "tipoAve" := SqlToJs(r.lote.tipoAve),
      "quantidadeAves" := SqlToJs(r.lote.quantidadeAves),
      "dataEntrada" := SqlToJs(r.lote.dataEntrada),
      "status" := SqlToJs(r.lote.status)]
  }

  /** The row a create or update would store from a listed row's JSON is that row: JSON
      output and parameter binding are inverse on every row the table can hold. */
  lemma ListedRowEchoes(t: Table, id: int)
    requires Valid(t) && id in t.rows
    ensures RowOf(RequestOf(RecordJson(Record(id, t.rows[id])))) == t.rows[id]
  {
    var l := t.rows[id];
    var row := RowOf(RequestOf(RecordJson(Record(id, l))));
    assert IntegerSettled(l.quantidadeAves);
    assert row.quantidadeAves == l.quantidadeAves;
  }

  /** A listed row sent back unchanged to its own id is accepted whenever its required
      fields are truthy, and leaves the table exactly as it was. */
  lemma ListedRowUpdateIsNoOp(t: Table, id: int)
    requires Valid(t) && id in t.rows
    requires HasRequiredFields(RequestOf(RecordJson(Record(id, t.rows[id]))))
    ensures var r := UpdateLote(t, id, RequestOf(RecordJson(Record(id, t.rows[id]))), false);
      r.status == 200 && r.table == t
  {
    ListedRowEchoes(t, id);
    assert t.rows[id := t.rows[id]] == t.rows;
  }

  /** A listed row sent back as a create never stores anything: its `nome` is already held
      (409), or a required field is falsy (400). */
  lemma ListedRowCreateStoresNothing(t: Table, id: int, fault: bool)
    requires Valid(t) && id in t.rows
    ensures var r := CreateLote(t, RequestOf(RecordJson(Record(id, t.rows[id]))), fault);
      r.status in {400, 409, 500} && (!fault ==> r.status in {400, 409}) && r.table == t
  {
    ListedRowEchoes(t, id);
  }

  /** Whatever payload the page builds from whatever the user types, the service reads no
      `nome` and no `dataEntrada` from it, so creating or updating from the page is always
      answered 400 and the table does not change. */
  lemma PagePayloadRejected(t: Table, p: Payload, id: int, fault: bool)
    requires Valid(t)
    ensures var req := RequestOf(PayloadJson(p));
      && CreateLote(t, req, fault) == Reply(400, Error(MissingFields), t)
      && UpdateLote(t, id, req, fault) == Reply(400, Error(MissingFields), t)
  {
    var o := PayloadJson(p);
    assert "nome" !in o;
  }

  /** Every row of a valid table can be rendered, and its card shows the defaults for the
      fields the page looks for under its own names: the header reads "undefined", lineage
      and owner read N/A, and the bird count reads 0; the badge follows the row's status. */
  lemma ListedRowCard(t: Table, id: int)
    requires Valid(t) && id in t.rows
    ensures BadgeArgumentOk(Prop(RecordJson(Record(id, t.rows[id])), "status"))
    ensures var c := CardOf(RecordJson(Record(id, t.rows[id])));
      && c.header == "undefined"
      && c.linhagem == "N/A" && c.proprietario == "N/A"
      && c.quantidade == "0"
      && c.badge == StatusBadgeClass(SqlToJs(t.rows[id].status))
  {
  }

  /** A lote created with status "ativo" in any case is listed with the `bg-success`
      badge. */
  lemma CreatedActiveLoteBadge(t: Table, req: LoteRequest, s: string)
    requires Valid(t)
    requires req.status == Str(s) && SameIgnoringCase(s, "ativo")
    requires CreateLote(t, req, false).status == 201
    ensures var t1 := CreateLote(t, req, false).table;
      StatusBadgeClass(SqlToJs(t1.rows[t.nextId].status)) == "bg-success"
  {
    BadgeClassByStatus(Str(s));
  }

}
