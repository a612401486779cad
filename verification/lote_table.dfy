/** The `lotes` table: rows keyed by an AUTOINCREMENT integer id, with a NOT NULL UNIQUE
    `nome` column. */
module LoteTable {
  import opened SqlValues

  /** One row's columns other than the id, as stored (after binding and affinity). */
  datatype Lote = Lote(
    nome: SqlValue,
    tipoAve: SqlValue,
    quantidadeAves: SqlValue,
    dataEntrada: SqlValue,
    status: SqlValue)

  /** A row together with its id, as `SELECT *` returns it. */
  datatype Record = Record(id: int, lote: Lote)

  /** The table's rows, plus the id AUTOINCREMENT hands out next: one more than the largest
      id ever assigned, so it never decreases, even when rows are deleted. */
  datatype Table = Table(rows: map<int, Lote>, nextId: int)

  /** The table the model starts from. */
  const Empty: Table := Table(map[], 1)

  /** Every id lies below `nextId` (AUTOINCREMENT ids start at 1). */
  ghost predicate IdsBelowNext(t: Table) {
    && t.nextId >= 1
    && forall id :: id in t.rows ==> 1 <= id < t.nextId
  }

  /** `nome` is NOT NULL and UNIQUE: no two rows share one. */
  ghost predicate NomesUnique(rows: map<int, Lote>) {
    && (forall id :: id in rows ==> rows[id].nome != SqlNull)
    && (forall i, j :: i in rows && j in rows && rows[i].nome == rows[j].nome ==> i == j)
  }

  /** The columns declared TEXT never hold an integer: affinity turns one into text. */
  ghost predicate TextColumnsHoldText(rows: map<int, Lote>) {
    forall id :: id in rows ==>
      && !rows[id].nome.SqlInteger? && !rows[id].tipoAve.SqlInteger?
      && !rows[id].dataEntrada.SqlInteger? && !rows[id].status.SqlInteger?
  }

  /** The column declared INTEGER never holds text that spells an integer. */
  ghost predicate CountColumnSettled(rows: map<int, Lote>) {
    forall id :: id in rows ==> IntegerSettled(rows[id].quantidadeAves)
  }

  /** What the schema guarantees of every state of the table. */
  ghost predicate Valid(t: Table) {
    && IdsBelowNext(t) && NomesUnique(t.rows)
    && TextColumnsHoldText(t.rows) && CountColumnSettled(t.rows)
  }

  /** Some row already holds `nome`: inserting it again would fail the UNIQUE constraint. */
  predicate NomeStored(rows: map<int, Lote>, nome: SqlValue) {
    exists id :: id in rows && rows[id].nome == nome
  }

  /** Some row other than `except` holds `nome`: storing `nome` in row `except` would fail
      the UNIQUE constraint. */
  predicate NomeHeldByOther(rows: map<int, Lote>, nome: SqlValue, except: int) {
    exists id :: id in rows && id != except && rows[id].nome == nome
  }

  /** `r` is one of the table's rows. */
  ghost predicate InTable(t: Table, r: Record) {
    r.id in t.rows && t.rows[r.id] == r.lote
  }

}
