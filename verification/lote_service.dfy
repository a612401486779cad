/** The five `/api/lotes` route handlers, each a pure function from the table and the
    request to the response status, the response body and the next table. `fault` stands
    for a storage failure other than a UNIQUE violation, which the handlers answer with 500. */
module LoteService {
  import opened Decimal
  import opened JsValues
  import opened SqlValues
  import opened LoteTable
  import opened LoteList

  /** The five body fields the handlers destructure; an absent field is `Undefined`. */
  datatype LoteRequest = LoteRequest(
    nome: JsValue,
    tipoAve: JsValue,
    quantidadeAves: JsValue,
    dataEntrada: JsValue,
    status: JsValue)

  /** `const { nome, tipoAve, quantidadeAves, dataEntrada, status } = req.body` */
  function RequestOf(body: JsObject): (req: LoteRequest)
    ensures req.nome == Prop(body, "nome") && req.tipoAve == Prop(body, "tipoAve")
    ensures req.quantidadeAves == Prop(body, "quantidadeAves")
    ensures req.dataEntrada == Prop(body, "dataEntrada") && req.status == Prop(body, "status")
  {
    LoteRequest(
      Prop(body, "nome"), Prop(body, "tipoAve"), Prop(body, "quantidadeAves"),
      Prop(body, "dataEntrada"), Prop(body, "status"))
  }

  datatype Failure = MissingFields | DuplicateNome | NotFound | StorageError

  datatype Body =
    | Lotes(records: seq<Record>)
    | Found(record: Record)
    | Created(loteId: int, echo: LoteRequest)
    | Deleted(id: int)
    | Updated(id: int, echo: LoteRequest)
    | Error(failure: Failure)

  datatype Reply = Reply(status: int, body: Body, table: Table)

  /** The validation `!nome || !dataEntrada || !status` rejects. */
  predicate HasRequiredFields(req: LoteRequest)
    ensures HasRequiredFields(req) <==>
      req.nome !in FalsyValues && req.dataEntrada !in FalsyValues && req.status !in FalsyValues
  {
    Truthy(req.nome) && Truthy(req.dataEntrada) && Truthy(req.status)
  }

  /** The row INSERT and UPDATE store for a request: every parameter is bound, then
      converted by its column's declared type. */
  function RowOf(req: LoteRequest): (row: Lote)
    ensures Truthy(req.nome) ==> row.nome.SqlText?
    ensures Truthy(req.dataEntrada) ==> row.dataEntrada.SqlText?
    ensures Truthy(req.status) ==> row.status.SqlText?
    ensures TextColumnStores(req.nome, row.nome) && TextColumnStores(req.tipoAve, row.tipoAve)
    ensures TextColumnStores(req.dataEntrada, row.dataEntrada)
    ensures TextColumnStores(req.status, row.status)
    ensures IntegerColumnStores(req.quantidadeAves, row.quantidadeAves)
    ensures !row.nome.SqlInteger? && !row.tipoAve.SqlInteger?
    ensures !row.dataEntrada.SqlInteger? && !row.status.SqlInteger?
    ensures IntegerSettled(row.quantidadeAves)
  {
    Lote(
      TextAffinity(Bind(req.nome)),
      TextAffinity(Bind(req.tipoAve)),
      IntegerAffinity(Bind(req.quantidadeAves)),
      TextAffinity(Bind(req.dataEntrada)),
      TextAffinity(Bind(req.status)))
  }

  function Fail(status: int, failure: Failure, t: Table): Reply {
    Reply(status, Error(failure), t)
  }

  /** A bird count sent as the decimal text of an integer is stored as that integer. */
  lemma CountTextStoredAsInteger(req: LoteRequest, n: int)
    requires req.quantidadeAves == Str(IntToDecimal(n))
    ensures RowOf(req).quantidadeAves == SqlInteger(n)
  {
    IntegerTextRoundTrip(n);
  }

  /** GET /api/lotes */
  function ListLotes(t: Table, fault: bool): (r: Reply)
    requires Valid(t)
    ensures r.table == t
    ensures fault ==> r.status == 500
    ensures !fault ==> r.status == 200 && r.body.Lotes?
    ensures !fault ==> SortedDesc(r.body.records)
    ensures !fault ==> forall x :: multiset(r.body.records)[x] == (if InTable(t, x) then 1 else 0)
  {
    if fault then Fail(500, StorageError, t)
    else Reply(200, Lotes(ListRecords(t)), t)
  }

  /** GET /api/lotes/:id */
  function GetLote(t: Table, id: int, fault: bool): (r: Reply)
    requires Valid(t)
    ensures r.table == t
    ensures r.status == 200 <==> !fault && id in t.rows
    ensures r.status == 404 <==> !fault && id !in t.rows
    ensures fault ==> r.status == 500
    ensures r.status == 200 ==> r.body == Found(Record(id, t.rows[id]))
  {
    if fault then Fail(500, StorageError, t)
    else if id in t.rows then Reply(200, Found(Record(id, t.rows[id])), t)
    else Fail(404, NotFound, t)
  }

  /** POST /api/lotes */
  function CreateLote(t: Table, req: LoteRequest, fault: bool): (r: Reply)
    requires Valid(t)
    ensures Valid(r.table)
    ensures r.status in {201, 400, 409, 500}
    ensures r.status == 400 <==> !HasRequiredFields(req)
    ensures r.status == 500 <==> HasRequiredFields(req) && fault
    ensures r.status == 409 <==>
      HasRequiredFields(req) && !fault && exists id :: id in t.rows && t.rows[id].nome == RowOf(req).nome
    ensures r.status == 201 <==>
      HasRequiredFields(req) && !fault && !exists id :: id in t.rows && t.rows[id].nome == RowOf(req).nome
    ensures r.status != 201 ==> r.table == t
    ensures r.status == 201 ==>
      && r.body == Created(t.nextId, req)
      && (forall id :: id in t.rows ==> id < r.body.loteId)
      && r.table.rows.Keys == t.rows.Keys + {r.body.loteId}
      && r.table.rows[r.body.loteId] == RowOf(req)
      && (forall id :: id in t.rows ==> r.table.rows[id] == t.rows[id])
      && r.table.nextId > r.body.loteId
  {
    if !HasRequiredFields(req) then Fail(400, MissingFields, t)
    else if fault then Fail(500, StorageError, t)
    else
      var row := RowOf(req);
      if NomeStored(t.rows, row.nome) then Fail(409, DuplicateNome, t)
      else
        var id := t.nextId;
        Reply(201, Created(id, req), Table(t.rows[id := row], id + 1))
  }

  /** DELETE /api/lotes/:id */
  function DeleteLote(t: Table, id: int, fault: bool): (r: Reply)
    requires Valid(t)
    ensures Valid(r.table)
    ensures r.status == 200 <==> !fault && id in t.rows
    ensures r.status == 404 <==> !fault && id !in t.rows
    ensures fault ==> r.status == 500
    ensures r.status != 200 ==> r.table == t
    ensures r.status == 200 ==>
      && r.body == Deleted(id)
      && r.table.rows.Keys == t.rows.Keys - {id}
      && (forall k :: k in r.table.rows ==> r.table.rows[k] == t.rows[k])
      && r.table.nextId == t.nextId
  {
    if fault then Fail(500, StorageError, t)
    else if id in t.rows then Reply(200, Deleted(id), Table(t.rows - {id}, t.nextId))
    else Fail(404, NotFound, t)
  }

  /** PUT /api/lotes/:id */
  function UpdateLote(t: Table, id: int, req: LoteRequest, fault: bool): (r: Reply)
    requires Valid(t)
    ensures Valid(r.table)
    ensures r.status in {200, 400, 404, 409, 500}
    ensures r.status == 400 <==> !HasRequiredFields(req)
    ensures r.status == 500 <==> HasRequiredFields(req) && fault
    ensures r.status == 404 <==> HasRequiredFields(req) && !fault && id !in t.rows
    ensures r.status == 409 <==>
      && HasRequiredFields(req) && !fault && id in t.rows
      && exists k :: k in t.rows && k != id && t.rows[k].nome == RowOf(req).nome
    ensures r.status == 200 <==>
      && HasRequiredFields(req) && !fault && id in t.rows
      && !exists k :: k in t.rows && k != id && t.rows[k].nome == RowOf(req).nome
    ensures r.status != 200 ==> r.table == t
    ensures r.status == 200 ==>
      && r.body == Updated(id, req)
      && id in t.rows
      && r.table.rows.Keys == t.rows.Keys
      && r.table.rows[id] == RowOf(req)
      && r.table.nextId == t.nextId
      && (forall k :: k in t.rows && k != id ==> r.table.rows[k] == t.rows[k])
  {
    if !HasRequiredFields(req) then Fail(400, MissingFields, t)
    else if fault then Fail(500, StorageError, t)
    else if id !in t.rows then Fail(404, NotFound, t)
    else
      var row := RowOf(req);
      if NomeHeldByOther(t.rows, row.nome, id) then Fail(409, DuplicateNome, t)
      else Reply(200, Updated(id, req), Table(t.rows[id := row], t.nextId))
  }

}
