/** Properties that relate several calls of the route handlers. */
module ServiceProperties {
  import opened JsValues
  import opened SqlValues
  import opened LoteTable
  import opened LoteService

  /** A created lote is found under the id the creation returned, with the submitted
      fields as stored. */
  lemma CreateThenGet(t: Table, req: LoteRequest)
    requires Valid(t)
    requires CreateLote(t, req, false).status == 201
    ensures GetLote(CreateLote(t, req, false).table, CreateLote(t, req, false).body.loteId, false)
      == Reply(200, Found(Record(t.nextId, RowOf(req))), CreateLote(t, req, false).table)
  {
  }

  /** Creating a second lote under a `nome` just created is a conflict, and the table keeps
      only the first. */
  lemma CreateDuplicateConflicts(t: Table, first: LoteRequest, second: LoteRequest)
    requires Valid(t)
    requires CreateLote(t, first, false).status == 201
    requires HasRequiredFields(second) && RowOf(second).nome == RowOf(first).nome
    ensures var t1 := CreateLote(t, first, false).table;
      CreateLote(t1, second, false) == Reply(409, Error(DuplicateNome), t1)
  {
    var t1 := CreateLote(t, first, false).table;
    assert t1.rows[t.nextId].nome == RowOf(second).nome;
  }

  /** Updating a lote without changing its `nome` never conflicts. */
  lemma UpdateKeepingNomeSucceeds(t: Table, id: int, req: LoteRequest)
    requires Valid(t)
    requires id in t.rows && HasRequiredFields(req)
    requires RowOf(req).nome == t.rows[id].nome
    ensures UpdateLote(t, id, req, false).status == 200
  {
  }

  /** A deleted lote is gone, and a later creation does not get its id back. */
  lemma DeleteThenGetAndCreate(t: Table, id: int, req: LoteRequest)
    requires Valid(t)
    requires id in t.rows
    ensures var t1 := DeleteLote(t, id, false).table;
      && GetLote(t1, id, false).status == 404
      && (CreateLote(t1, req, false).status == 201 ==> CreateLote(t1, req, false).body.loteId != id)
  {
  }

  /** Deleting an absent id is "not found" and changes nothing. */
  lemma DeleteAbsentIsNoOp(t: Table, id: int)
    requires Valid(t)
    requires id !in t.rows
    ensures DeleteLote(t, id, false) == Reply(404, Error(NotFound), t)
  {
  }

  /** Creating then deleting a lote restores the rows, but not the id counter. */
  lemma CreateThenDelete(t: Table, req: LoteRequest)
    requires Valid(t)
    requires CreateLote(t, req, false).status == 201
    ensures var t1 := CreateLote(t, req, false).table;
      && DeleteLote(t1, t.nextId, false).table.rows == t.rows
      && DeleteLote(t1, t.nextId, false).table.nextId == t.nextId + 1
  {
    var t2 := DeleteLote(CreateLote(t, req, false).table, t.nextId, false).table;
    assert t2.rows.Keys == t.rows.Keys;
  }

}
