/** The browser page's decisions: the badge class for a status, the payload built from the
    add/edit form and when it is sent, the POST/PUT choice made from the single
    "lote being edited" slot, how that slot changes, the defaults a lote card displays, and
    the confirmation that gates a deletion. */
module ClientApp {
  import opened Optional
  import opened Decimal
  import opened JsValues
  import opened ClientText

  // ---------------------------------------------------------------------------------------
  // getStatusBadgeClass

  /** `status ? status.toLowerCase() : ''` only runs without a TypeError when `status` is
      falsy or a string. */
  predicate BadgeArgumentOk(status: JsValue) {
    !Truthy(status) || status.Str?
  }

  function StatusBadgeClass(status: JsValue): (cls: string)
    requires BadgeArgumentOk(status)
    ensures cls in {"bg-success", "bg-secondary", "bg-light text-dark"}
    ensures !Truthy(status) ==> cls == "bg-light text-dark"
  {
    var key := if Truthy(status) then ToLower(status.s) else "";
    if key == "ativo" then "bg-success"
    else if key == "inativo" then "bg-secondary"
    else "bg-light text-dark"
  }

  /** Lower-casing `s` yields a lower-case word exactly when `s` is that word up to case. */
  lemma ToLowerEqualsIff(s: string, word: string)
    requires forall i :: 0 <= i < |word| ==> LowerChar(word[i]) == word[i]
    ensures ToLower(s) == word <==> SameIgnoringCase(s, word)
  {
    if SameIgnoringCase(s, word) {
      assert forall i :: 0 <= i < |word| ==> ToLower(s)[i] == word[i];
    }
  }

  /** The badge is `bg-success` for "ativo" and `bg-secondary` for "inativo", whatever the
      case of their letters, and `bg-light text-dark` for anything else, including null and
      the empty string. */
  lemma BadgeClassByStatus(status: JsValue)
    requires BadgeArgumentOk(status)
    ensures StatusBadgeClass(status) == "bg-success" <==>
      status.Str? && SameIgnoringCase(status.s, "ativo")
    ensures StatusBadgeClass(status) == "bg-secondary" <==>
      status.Str? && SameIgnoringCase(status.s, "inativo")
    ensures StatusBadgeClass(status) == "bg-light text-dark" <==>
      !(status.Str? && (SameIgnoringCase(status.s, "ativo") || SameIgnoringCase(status.s, "inativo")))
  {
    if status.Str? {
      ToLowerEqualsIff(status.s, "ativo");
      ToLowerEqualsIff(status.s, "inativo");
    }
  }

  /** The status the form sends (upper-cased) gets the same badge as the status typed. */
  lemma BadgeIgnoresUpperCasing(s: string)
    ensures StatusBadgeClass(Str(ToUpper(s))) == StatusBadgeClass(Str(s))
  {
    LowerOfUpper(s);
  }

  // ---------------------------------------------------------------------------------------
  // The add/edit form and its payload

  /** The `.value` of each form field, as typed. */
  datatype FormInput = FormInput(
    codigo: string,
    dataNascimento: string,
    linhagem: string,
    proprietario: string,
    quantidade: string,
    dataChegada: string,
    status: string)

  /** `quantidade_aves` as the page computes it: `null` for an empty field, otherwise the
      result of `parseInt`, which may be NaN. */
  datatype Quantity = NoQuantity | Count(n: int) | NotANumber

  /** The `dadosLote` object. */
  datatype Payload = Payload(
    codigoIdentificador: string,
    dataNascimento: string,
    linhagem: string,
    proprietario: string,
    quantidadeAves: Quantity,
    dataChegada: string,
    status: string)

  function QuantityOf(field: string): (q: Quantity)
    ensures q == NoQuantity <==> field == ""
    ensures field != "" && ParseInt(field) == None ==> q == NotANumber
    ensures field != "" && ParseInt(field).Some? ==> q == Count(ParseInt(field).value)
  {
    if field == "" then NoQuantity
    else match ParseInt(field)
      case Some(n) => Count(n)
      case None => NotANumber
  }

  /** Builds `dadosLote` from the form: the code, lineage and owner trimmed, the status
      upper-cased, both dates as typed, and the bird count parsed. */
  function BuildPayload(f: FormInput): (p: Payload)
    ensures IsTrimOf(p.codigoIdentificador, f.codigo)
    ensures IsTrimOf(p.linhagem, f.linhagem)
    ensures IsTrimOf(p.proprietario, f.proprietario)
    ensures p.dataNascimento == f.dataNascimento && p.dataChegada == f.dataChegada
    ensures SameIgnoringCase(p.status, f.status)
    ensures forall i :: 0 <= i < |p.status| ==> !('a' <= p.status[i] <= 'z')
    ensures p.quantidadeAves == QuantityOf(f.quantidade)
  {
    ToUpperMeaning(f.status);
    Payload(
      Trim(f.codigo), f.dataNascimento, Trim(f.linhagem), Trim(f.proprietario),
      QuantityOf(f.quantidade), f.dataChegada, ToUpper(f.status))
  }

  /** A bird count typed as a decimal integer is sent as that integer. */
  lemma QuantityRoundTrip(field: string, n: int)
    requires field == IntToDecimal(n)
    ensures QuantityOf(field) == Count(n)
  {
    ParseIntRoundTrip(n);
  }

  /** `!codigo_identificador || !data_chegada || !status` rejects the payload. */
  predicate PayloadComplete(p: Payload)
    ensures PayloadComplete(p) <==>
      Truthy(Str(p.codigoIdentificador)) && Truthy(Str(p.dataChegada)) && Truthy(Str(p.status))
  {
    p.codigoIdentificador != "" && p.dataChegada != "" && p.status != ""
  }

  /** The page sends a request exactly when the code holds a character other than white
      space and the arrival date and status fields are not empty (the last two are not
      trimmed, so a status of a single blank passes). */
  lemma PayloadCompleteIff(f: FormInput)
    ensures PayloadComplete(BuildPayload(f)) <==>
      !AllWhiteSpace(f.codigo) && f.dataChegada != "" && f.status != ""
  {
    TrimEmptyIffWhiteSpace(f.codigo);
  }

  /** `JSON.stringify(dadosLote)`: NaN is written as null. */
  function PayloadJson(p: Payload): (o: JsObject)
    ensures o.Keys == {"codigo_identificador", "data_nascimento", "linhagem", "proprietario",
                       "quantidade_aves", "data_chegada", "status"}
    ensures o["quantidade_aves"] == Null <==> !p.quantidadeAves.Count?
    ensures p.quantidadeAves.Count? ==> o["quantidade_aves"] == Num(p.quantidadeAves.n)
    ensures o["codigo_identificador"] == Str(p.codigoIdentificador)
    ensures o["data_nascimento"] == Str(p.dataNascimento)
    ensures o["linhagem"] == Str(p.linhagem) && o["proprietario"] == Str(p.proprietario)
    ensures o["data_chegada"] == Str(p.dataChegada) && o["status"] == Str(p.status)
  {
    map[
      "codigo_identificador" := Str(p.codigoIdentificador),
      "data_nascimento" := Str(p.dataNascimento),
      "linhagem" := Str(p.linhagem),
      "proprietario" := Str(p.proprietario),
      "quantidade_aves" := (match p.quantidadeAves case Count(n) => Num(n) case _ => Null),
      "data_chegada" := Str(p.dataChegada),
      "status" := Str(p.status)]
  }

  // ---------------------------------------------------------------------------------------
  // Requests and the edit slot

  datatype HttpMethod = GET | POST | PUT | DELETE

  datatype HttpRequest = HttpRequest(verb: HttpMethod, url: string, body: Option<JsObject>)

  const LotesUrl: string := "/api/lotes"

  /** `/api/lotes/${loteId}` */
  function LoteUrl(loteId: string): string {
    LotesUrl + "/" + loteId
  }

  /** The POST or PUT request a complete payload is sent with: `if (idLoteParaEditar)`
      chooses PUT on the lote being edited, otherwise POST on the collection. */
  function SubmitRequest(editing: Option<string>, p: Payload): (req: HttpRequest)
    ensures req.body == Some(PayloadJson(p))
    ensures req.verb == PUT <==> editing.Some? && editing.value != ""
    ensures req.verb == PUT ==> req.url == LoteUrl(editing.value)
    ensures req.verb != PUT ==> req.verb == POST && req.url == LotesUrl
  {
    if editing.Some? && editing.value != "" then HttpRequest(PUT, LoteUrl(editing.value), Some(PayloadJson(p)))
    else HttpRequest(POST, LotesUrl, Some(PayloadJson(p)))
  }

  /** The page's session state: `idLoteParaEditar`, null in create mode. */
  datatype ClientState = ClientState(editing: Option<string>)

  const Initial: ClientState := ClientState(None)

  /** What the user does, with the outcomes the page cannot decide itself: whether the edit
      fetch succeeded, whether the submit request succeeded, and the answer to `confirm`. */
  datatype ClientEvent =
    | EditClicked(loteId: string, fetchOk: bool)
    | Submitted(form: FormInput, responseOk: bool)
    | DeleteClicked(loteId: string, confirmed: bool, responseOk: bool)

  /** The next state and the requests the page issues, in order. */
  datatype Effect = Effect(state: ClientState, requests: seq<HttpRequest>)

  /** The slot only ever holds an id read from a card's non-empty `data-lote-id`. */
  predicate SlotWellFormed(s: ClientState) {
    s.editing.Some? ==> s.editing.value != ""
  }

  /** Whether the page sends the form at all. */
  predicate SubmitAllowed(form: FormInput) {
    PayloadComplete(BuildPayload(form))
  }

  /** The submit handler once the payload is built: refuse an incomplete payload, otherwise
      send it, and on success clear the slot and reload the list. */
  function SubmitStep(s: ClientState, p: Payload, responseOk: bool): (out: Effect)
    ensures !PayloadComplete(p) ==> out == Effect(s, [])
    ensures out.state == if PayloadComplete(p) && responseOk then ClientState(None) else s
    ensures forall k :: 0 <= k < |out.requests| ==> out.requests[k].verb != DELETE
    // A complete payload is sent, as JSON, with the request the slot selects; a success
    // then reloads the list.
    ensures PayloadComplete(p) ==> |out.requests| >= 1 && out.requests[0] == SubmitRequest(s.editing, p)
    ensures PayloadComplete(p) ==>
      out.requests[1..] == (if responseOk then [HttpRequest(GET, LotesUrl, None)] else [])
  {
    if !PayloadComplete(p) then Effect(s, [])
    else
      var send := SubmitRequest(s.editing, p);
      if responseOk then Effect(ClientState(None), [send, HttpRequest(GET, LotesUrl, None)])
      else Effect(s, [send])
  }

  function Step(s: ClientState, e: ClientEvent): (out: Effect)
    ensures SlotWellFormed(s) ==> SlotWellFormed(out.state)
    // The slot is set only by a successful edit fetch and cleared only by a successful submit.
    ensures out.state != s ==>
      || (e.EditClicked? && e.loteId != "" && e.fetchOk && out.state.editing == Some(e.loteId))
      || (e.Submitted? && e.responseOk && SubmitAllowed(e.form) && out.state.editing == None)
    // A failed submit leaves the slot as it was.
    ensures e.Submitted? && !e.responseOk ==> out.state == s
    // No DELETE without a non-empty id and a confirmation.
    ensures forall k :: 0 <= k < |out.requests| && out.requests[k].verb == DELETE ==>
      e.DeleteClicked? && e.loteId != "" && e.confirmed
    // No POST or PUT without a complete payload.
    ensures forall k :: 0 <= k < |out.requests| && out.requests[k].verb in {POST, PUT} ==>
      e.Submitted? && SubmitAllowed(e.form)
  {
    match e
    case EditClicked(loteId, fetchOk) =>
      if loteId == "" then Effect(s, [])
      else
        var fetch := HttpRequest(GET, LoteUrl(loteId), None);
        if fetchOk then Effect(ClientState(Some(loteId)), [fetch]) else Effect(s, [fetch])
    case Submitted(form, responseOk) =>
      SubmitStep(s, BuildPayload(form), responseOk)
    case DeleteClicked(loteId, confirmed, responseOk) =>
      if loteId == "" || !confirmed then Effect(s, [])
      else
        var remove := HttpRequest(DELETE, LoteUrl(loteId), None);
        if responseOk then Effect(s, [remove, HttpRequest(GET, LotesUrl, None)])
        else Effect(s, [remove])
  }

  /** The slot's transitions: an edit click with a non-empty id sets it to that id when the
      fetch succeeds; a submit clears it when the payload is complete and the request
      succeeds; nothing else, a failed fetch or a failed submit included, changes it. */
  lemma SlotTransitions(s: ClientState, e: ClientEvent)
    ensures e.EditClicked? ==>
      (Step(s, e).state.editing == if e.loteId != "" && e.fetchOk then Some(e.loteId) else s.editing)
    ensures e.Submitted? ==>
      (Step(s, e).state.editing == if SubmitAllowed(e.form) && e.responseOk then None else s.editing)
    ensures e.DeleteClicked? ==> Step(s, e).state == s
  {
  }

  /** A click on a card's delete button issues a DELETE on that lote exactly when the card
      carries an id and the user confirms, and never touches the edit slot. */
  lemma DeleteNeedsConfirmation(s: ClientState, loteId: string, confirmed: bool, ok: bool)
    ensures var out := Step(s, DeleteClicked(loteId, confirmed, ok));
      && (HttpRequest(DELETE, LoteUrl(loteId), None) in out.requests <==> loteId != "" && confirmed)
      && (loteId == "" || !confirmed ==> out.requests == [])
      && out.state == s
  {
  }

  /** Replays the user's actions from the page's initial state. */
  function RunClient(s: ClientState, events: seq<ClientEvent>): (out: (ClientState, seq<HttpRequest>))
    ensures SlotWellFormed(s) ==> SlotWellFormed(out.0)
    decreases |events|
  {
    if events == [] then (s, [])
    else
      var first := Step(s, events[0]);
      var rest := RunClient(first.state, events[1..]);
      (rest.0, first.requests + rest.1)
  }

  /** In every state the page reaches, a valid submit is a PUT on the edited lote exactly
      when a lote is being edited, and a POST on the collection otherwise. */
  lemma {:induction false} SubmitDispatchReachable(events: seq<ClientEvent>, form: FormInput, ok: bool)
    requires !AllWhiteSpace(form.codigo) && form.dataChegada != "" && form.status != ""
    ensures var s := RunClient(Initial, events).0;
      var req := Step(s, Submitted(form, ok)).requests[0];
      && (req.verb == PUT <==> s.editing.Some?)
      && (s.editing.Some? ==> req.url == LoteUrl(s.editing.value))
      && (s.editing.None? ==> req.verb == POST && req.url == LotesUrl)
  {
    PayloadCompleteIff(form);
    assert SlotWellFormed(Initial);
  }

  /** Only a successful submit clears the slot, and dismissing the modal is no event of the
      page: once an edit has been opened, the next complete submit, whatever the user meant
      by it, is a PUT on that lote, even after unrelated clicks in between. */
  lemma EditSlotOutlivesDismissal(loteId: string, others: seq<ClientEvent>, form: FormInput, ok: bool)
    requires loteId != ""
    requires forall k :: 0 <= k < |others| ==> others[k].DeleteClicked?
    requires !AllWhiteSpace(form.codigo) && form.dataChegada != "" && form.status != ""
    ensures RunClient(Initial, [EditClicked(loteId, true)] + others).0 == ClientState(Some(loteId))
    ensures var req := Step(ClientState(Some(loteId)), Submitted(form, ok)).requests[0];
      req.verb == PUT && req.url == LoteUrl(loteId)
  {
    EditThenDeletes(loteId, others);
    SubmitFormWhileEditing(loteId, form, ok);
  }

  lemma EditThenDeletes(loteId: string, others: seq<ClientEvent>)
    requires loteId != ""
    requires forall k :: 0 <= k < |others| ==> others[k].DeleteClicked?
    ensures RunClient(Initial, [EditClicked(loteId, true)] + others).0 == ClientState(Some(loteId))
  {
    assert ([EditClicked(loteId, true)] + others)[1..] == others;
    DeletesKeepSlot(ClientState(Some(loteId)), others);
  }

  lemma SubmitFormWhileEditing(loteId: string, form: FormInput, ok: bool)
    requires loteId != ""
    requires !AllWhiteSpace(form.codigo) && form.dataChegada != "" && form.status != ""
    ensures var req := Step(ClientState(Some(loteId)), Submitted(form, ok)).requests[0];
      req.verb == PUT && req.url == LoteUrl(loteId)
  {
    PayloadCompleteIff(form);
  }

  /** Delete clicks never move the slot. */
  lemma {:induction false} DeletesKeepSlot(s: ClientState, events: seq<ClientEvent>)
    requires forall k :: 0 <= k < |events| ==> events[k].DeleteClicked?
    ensures RunClient(s, events).0 == s
    decreases |events|
  {
    if events != [] {
      DeletesKeepSlot(Step(s, events[0]).state, events[1..]);
    }
  }

  // ---------------------------------------------------------------------------------------
  // A lote card

  /** The text fields of a card (dates are left out: they go through locale formatting). */
  datatype Card = Card(
    header: string,
    linhagem: string,
    proprietario: string,
    quantidade: string,
    status: string,
    badge: string,
    loteId: string)

  /** `${v || 'N/A'}`: a falsy value shows N/A and a truthy one its text, so the card reads
      N/A exactly for a falsy value or the string "N/A" itself. */
  function OrNotAvailable(v: JsValue): (r: string)
    ensures !Truthy(v) ==> r == "N/A"
    ensures Truthy(v) ==> r == ToJsString(v)
    ensures r == "N/A" <==> !Truthy(v) || v == Str("N/A")
  {
    if Truthy(v) then ToJsString(v) else "N/A"
  }

  /** `${v === null || v === undefined ? 0 : v}`: only null and undefined are replaced, so
      the card reads 0 exactly for those, the number 0 and the string "0". */
  function CountOrZero(v: JsValue): (r: string)
    ensures v.Null? || v.Undefined? ==> r == "0"
    ensures v.Num? ==> r == IntToDecimal(v.n)
    ensures v.Str? ==> r == v.s
    ensures r == "0" <==> v.Null? || v.Undefined? || v == Num(0) || v == Str("0")
  {
    if v.Null? || v.Undefined? then "0" else ToJsString(v)
  }

  /** The card `carregarLotes` renders for one lote object. */
  function CardOf(lote: JsObject): (c: Card)
    requires BadgeArgumentOk(Prop(lote, "status"))
    // Header: the code as text, "undefined" when the object has none.
    ensures "codigo_identificador" !in lote ==> c.header == "undefined"
    ensures Prop(lote, "codigo_identificador").Str? ==> c.header == lote["codigo_identificador"].s
    // Lineage and owner: N/A for a falsy value, the text of a truthy one.
    ensures !Truthy(Prop(lote, "linhagem")) ==> c.linhagem == "N/A"
    ensures Truthy(Prop(lote, "linhagem")) ==> c.linhagem == ToJsString(lote["linhagem"])
    ensures !Truthy(Prop(lote, "proprietario")) ==> c.proprietario == "N/A"
    ensures Truthy(Prop(lote, "proprietario")) ==> c.proprietario == ToJsString(lote["proprietario"])
    // Bird count: 0 for a null or missing count, otherwise the count as it came.
    ensures Prop(lote, "quantidade_aves").Null? || "quantidade_aves" !in lote ==> c.quantidade == "0"
    ensures Prop(lote, "quantidade_aves").Num? ==> c.quantidade == IntToDecimal(lote["quantidade_aves"].n)
    ensures Prop(lote, "quantidade_aves").Str? ==> c.quantidade == lote["quantidade_aves"].s
    // Status text and badge.
    ensures Prop(lote, "status").Str? ==> c.status == lote["status"].s
    ensures c.badge in {"bg-success", "bg-secondary", "bg-light text-dark"}
    ensures c.badge == "bg-success" <==>
      Prop(lote, "status").Str? && SameIgnoringCase(lote["status"].s, "ativo")
    ensures c.badge == "bg-secondary" <==>
      Prop(lote, "status").Str? && SameIgnoringCase(lote["status"].s, "inativo")
    // The edit and delete buttons carry the id as text.
    ensures Prop(lote, "id").Num? ==> c.loteId == IntToDecimal(lote["id"].n)
    ensures "id" !in lote ==> c.loteId == "undefined"
  {
    BadgeClassByStatus(Prop(lote, "status"));
    Card(
      ToJsString(Prop(lote, "codigo_identificador")),
      OrNotAvailable(Prop(lote, "linhagem")),
      OrNotAvailable(Prop(lote, "proprietario")),
      CountOrZero(Prop(lote, "quantidade_aves")),
      ToJsString(Prop(lote, "status")),
      StatusBadgeClass(Prop(lote, "status")),
      ToJsString(Prop(lote, "id")))
  }

}
