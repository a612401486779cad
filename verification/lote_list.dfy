/** `SELECT * FROM lotes ORDER BY dataEntrada DESC`: every row once, sorted by
    `dataEntrada` from the largest to the smallest. */
module LoteList {
  import opened SqlValues
  import opened LoteTable

  /** The rows with ids in [lo, hi), in increasing id order. */
  function Scan(rows: map<int, Lote>, lo: int, hi: int): (s: seq<Record>)
    ensures forall r :: multiset(s)[r] == (if r.id in rows && rows[r.id] == r.lote && lo <= r.id < hi then 1 else 0)
    decreases hi - lo
  {
    if lo >= hi then []
    else
      var rest := Scan(rows, lo + 1, hi);
      if lo in rows then [Record(lo, rows[lo])] + rest else rest
  }

  /** `s` lists rows from the largest `dataEntrada` to the smallest. */
  ghost predicate SortedDesc(s: seq<Record>) {
    forall i, j :: 0 <= i < j < |s| ==> SqlLeq(s[j].lote.dataEntrada, s[i].lote.dataEntrada)
  }

  /** Places `r` into a list sorted by descending `dataEntrada`. */
  function InsertDesc(r: Record, s: seq<Record>): (s': seq<Record>)
    requires SortedDesc(s)
    ensures SortedDesc(s')
    ensures multiset(s') == multiset(s) + multiset{r}
    ensures forall x :: x in s' ==> x == r || x in s
    decreases |s|
  {
    if s == [] then [r]
    else if SqlLeq(s[0].lote.dataEntrada, r.lote.dataEntrada) then
      var s' := [r] + s;
      assert SortedDesc(s') by {
        forall i, j | 0 <= i < j < |s'|
          ensures SqlLeq(s'[j].lote.dataEntrada, s'[i].lote.dataEntrada)
        {
          if i == 0 && j > 1 {
            SqlLeqTransitive(s[j - 1].lote.dataEntrada, s[0].lote.dataEntrada, r.lote.dataEntrada);
          }
        }
      }
      s'
    else
      var rest := InsertDesc(r, s[1..]);
      var s' := [s[0]] + rest;
      assert SortedDesc(s') by {
        SqlLeqTotal(s[0].lote.dataEntrada, r.lote.dataEntrada);
        forall i, j | 0 <= i < j < |s'|
          ensures SqlLeq(s'[j].lote.dataEntrada, s'[i].lote.dataEntrada)
        {
          if i == 0 {
            assert s'[j] in rest;
          }
        }
      }
      assert s == [s[0]] + s[1..];
      s'
  }

  /** Insertion sort by descending `dataEntrada`. */
  function SortDesc(s: seq<Record>): (s': seq<Record>)
    ensures SortedDesc(s')
    ensures multiset(s') == multiset(s)
    decreases |s|
  {
    if s == [] then []
    else
      assert s == [s[0]] + s[1..];
      InsertDesc(s[0], SortDesc(s[1..]))
  }

  /** The rows the list query returns, in the order it returns them. Rows with equal
      `dataEntrada` keep increasing id order only as an artefact of this model; the query
      itself leaves their order open. */
  function ListRecords(t: Table): (s: seq<Record>)
    requires IdsBelowNext(t)
    ensures SortedDesc(s)
    ensures forall r :: multiset(s)[r] == (if InTable(t, r) then 1 else 0)
  {
    SortDesc(Scan(t.rows, 1, t.nextId))
  }

  /** A record listed at two positions occurs at least twice in the list's multiset. */
  lemma RepeatedRecordCount(s: seq<Record>, i: int, j: int)
    requires 0 <= i < j < |s| && s[i] == s[j]
    ensures multiset(s)[s[i]] >= 2
  {
    assert s == s[..j] + s[j..];
    assert s[i] in s[..j];
    assert s[j] in s[j..];
  }

  /** The list holds every row of the table, nothing else, and no row twice. */
  lemma ListRecordsExactlyOnce(t: Table)
    requires IdsBelowNext(t)
    ensures forall k :: 0 <= k < |ListRecords(t)| ==> InTable(t, ListRecords(t)[k])
    ensures forall id :: id in t.rows ==> Record(id, t.rows[id]) in ListRecords(t)
    ensures forall i, j :: 0 <= i < j < |ListRecords(t)| ==> ListRecords(t)[i].id != ListRecords(t)[j].id
  {
    var s := ListRecords(t);
    forall k | 0 <= k < |s|
      ensures InTable(t, s[k])
    {
      assert multiset(s)[s[k]] > 0;
    }
    forall id | id in t.rows
      ensures Record(id, t.rows[id]) in s
    {
      assert InTable(t, Record(id, t.rows[id]));
    }
    forall i, j | 0 <= i < j < |s|
      ensures s[i].id != s[j].id
    {
      if s[i].id == s[j].id {
        assert multiset(s)[s[i]] > 0 && multiset(s)[s[j]] > 0;
        RepeatedRecordCount(s, i, j);
        assert false;
      }
    }
  }

}
