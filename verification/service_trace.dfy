/** Sequences of requests against the service, starting from the empty table: every state
    reached satisfies the schema's guarantees, and AUTOINCREMENT never hands out an id twice. */
module ServiceTrace {
  import opened LoteTable
  import opened LoteService

  datatype Request =
    | ListAll
    | GetById(id: int)
    | Create(body: LoteRequest)
    | Delete(id: int)
    | Update(id: int, body: LoteRequest)

  /** One request, and whether the store fails while serving it. */
  datatype Call = Call(request: Request, fault: bool)

  /** Routes a request to its handler. */
  function Handle(t: Table, c: Call): (r: Reply)
    requires Valid(t)
    ensures Valid(r.table)
    ensures r.table.nextId >= t.nextId
    ensures r.body.Created? ==> r.status == 201 && r.body.loteId == t.nextId && r.table.nextId == t.nextId + 1
    ensures !r.body.Created? ==> r.table.nextId == t.nextId
  {
    match c.request
    case ListAll => ListLotes(t, c.fault)
    case GetById(id) => GetLote(t, id, c.fault)
    case Create(body) => CreateLote(t, body, c.fault)
    case Delete(id) => DeleteLote(t, id, c.fault)
    case Update(id, body) => UpdateLote(t, id, body, c.fault)
  }

  /** Serves the calls in order; returns the final table and the replies. */
  function Run(t: Table, calls: seq<Call>): (out: (Table, seq<Reply>))
    requires Valid(t)
    ensures Valid(out.0)
    ensures |out.1| == |calls|
    ensures out.0.nextId >= t.nextId
    decreases |calls|
  {
    if calls == [] then (t, [])
    else
      var r := Handle(t, calls[0]);
      var rest := Run(r.table, calls[1..]);
      (rest.0, [r] + rest.1)
  }

  /** The ids handed out by the successful creations among `replies`, in order. */
  function CreatedIds(replies: seq<Reply>): seq<int> {
    if replies == [] then []
    else if replies[0].body.Created? then [replies[0].body.loteId] + CreatedIds(replies[1..])
    else CreatedIds(replies[1..])
  }

  /** Every state reachable from the empty table satisfies the schema's guarantees. */
  lemma ReachableValid(calls: seq<Call>)
    ensures Valid(Run(Empty, calls).0)
  {
  }

  /** The ids created along a run strictly increase, all lie at or above the counter the
      run started from (so above every id the starting table ever held), and all lie below
      the final counter. Hence no id is handed out twice, and none is reused after a delete. */
  lemma {:induction false} CreatedIdsFresh(t: Table, calls: seq<Call>)
    requires Valid(t)
    ensures IncreasingWithin(CreatedIds(Run(t, calls).1), t.nextId, Run(t, calls).0.nextId)
    decreases |calls|
  {
    if calls != [] {
      var r := Handle(t, calls[0]);
      var rest := Run(r.table, calls[1..]);
      CreatedIdsFresh(r.table, calls[1..]);
      assert Run(t, calls) == (rest.0, [r] + rest.1);
      CreatedIdsStep(t.nextId, r, rest.1, r.table.nextId, rest.0.nextId);
    }
  }

  /** `ids` strictly increase and all lie in [lo, hi). */
  ghost predicate IncreasingWithin(ids: seq<int>, lo: int, hi: int) {
    && (forall i, j :: 0 <= i < j < |ids| ==> ids[i] < ids[j])
    && (forall i :: 0 <= i < |ids| ==> lo <= ids[i] < hi)
  }

  /** One step of the induction: a reply that created id `start` (advancing the counter to
      `mid`) followed by replies whose ids are increasing and within [mid, end). */
  lemma CreatedIdsStep(start: int, r: Reply, rest: seq<Reply>, mid: int, end: int)
    requires r.body.Created? ==> r.body.loteId == start && mid == start + 1
    requires !r.body.Created? ==> mid == start
    requires mid <= end
    requires IncreasingWithin(CreatedIds(rest), mid, end)
    ensures IncreasingWithin(CreatedIds([r] + rest), start, end)
  {
    var tail := CreatedIds(rest);
    assert ([r] + rest)[0] == r && ([r] + rest)[1..] == rest;
    var ids := CreatedIds([r] + rest);
    if r.body.Created? {
      assert ids == [start] + tail;
      forall i | 0 <= i < |ids|
        ensures start <= ids[i] < end
      {
        if i > 0 {
          assert ids[i] == tail[i - 1];
        }
      }
    } else {
      assert ids == tail;
    }
  }

}
