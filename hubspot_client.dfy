/** The single-contact upsert of `HubspotClient`: build one request body, try
    an update by identifier, fall back to a create on a 404, and correct a
    lifecycle stage that HubSpot refused to move backwards. */
module SingleContact {
  import opened Common
  import opened Text
  import opened Remote
  import opened Hubspot

  /** The two endpoints, as recorded calls: a PATCH addressed by identifier
      value and `idProperty`, and a POST. */
  datatype SingleCall =
    | UpdateContact(identifierValue: string, idProperty: string, properties: Props)
    | CreateContact(properties: Props)

  type SingleApi = ScriptedClient<SingleCall, ContactResponse>

  /** The framework's transaction context: a map written by `setTransaction`. */
  class TransactionContext {
    var transaction: map<string, string>

    constructor (transaction: map<string, string>)
      ensures this.transaction == transaction
    {
      this.transaction := transaction;
    }

    method SetTransaction(key: string, value: string)
      modifies this
      ensures transaction == old(transaction)[key := value]
    {
      transaction := transaction[key := value];
    }
  }

  /** `identifier_type`, defaulting to `'email'`. */
  function IdentifierType(p: Payload): (t: string)
    ensures p.identifierType.None? ==> t == "email"
    ensures p.identifierType.Some? ==> t == p.identifierType.value
  {
    match p.identifierType
    case Some(t) => t
    case None => "email"
  }

  /** `buildSingleContactRequestBody`: the object literal is evaluated left to
      right, so the identifier under its dynamic key is overridden by a later
      `website` or `lifecyclestage` key and by the flattened custom properties. */
  function BuildSingleContactRequestBody(p: Payload): (body: Props)
    ensures body.Keys == LeadingKeys + {IdentifierType(p), "website", "lifecyclestage"} + p.properties.Keys
    ensures forall k :: k in p.properties ==> body[k] == Some(p.properties[k])
  {
    var withId := LeadingFields(p)[IdentifierType(p) := Some(p.email)];
    withId["website" := p.website]["lifecyclestage" := LowerOpt(p.lifecyclestage)] + Spread(p.properties)
  }

  /** Where a custom property does not override it: the identifier value sits
      under the identifier type's key unless that key is `website` or
      `lifecyclestage`, the stage is lower-cased, `email` is only sent when
      it is the identifier type (or a custom property). */
  lemma RequestBodyFields(p: Payload)
    ensures var body := BuildSingleContactRequestBody(p);
      && (IdentifierType(p) !in p.properties && IdentifierType(p) !in {"website", "lifecyclestage"} ==>
            body[IdentifierType(p)] == Some(p.email))
      && ("lifecyclestage" !in p.properties ==> body["lifecyclestage"] == LowerOpt(p.lifecyclestage))
      && ("website" !in p.properties ==> body["website"] == p.website)
      && ("email" in body <==> IdentifierType(p) == "email" || "email" in p.properties)
  {
    var withId := LeadingFields(p)[IdentifierType(p) := Some(p.email)];
    var standard := withId["website" := p.website]["lifecyclestage" := LowerOpt(p.lifecyclestage)];
    assert BuildSingleContactRequestBody(p) == standard + Spread(p.properties);
    assert "email" in standard <==> IdentifierType(p) == "email";
  }

  /** Every leading field that neither the identifier key nor a custom
      property replaces is sent as the payload gives it. */
  lemma RequestBodyLeadingFields(p: Payload)
    ensures var body := BuildSingleContactRequestBody(p);
      forall k :: k in LeadingKeys && k != IdentifierType(p) && k !in p.properties ==>
        body[k] == LeadingFields(p)[k]
  {
    var withId := LeadingFields(p)[IdentifierType(p) := Some(p.email)];
    var standard := withId["website" := p.website]["lifecyclestage" := LowerOpt(p.lifecyclestage)];
    var body := BuildSingleContactRequestBody(p);
    assert body == standard + Spread(p.properties);
    forall k | k in LeadingKeys && k != IdentifierType(p) && k !in p.properties
      ensures body[k] == LeadingFields(p)[k]
    {
      assert k != "website" && k != "lifecyclestage";
      assert body[k] == standard[k] == withId[k];
    }
  }

  /** What one `createOrUpdateSingleContact` does: the calls in order, the
      values written to `contact_id` in order, and what it returns or throws. */
  datatype Trace = Trace(calls: seq<SingleCall>, contactIds: seq<string>, result: Reply<ContactResponse>)

  /** The calls and `contact_id` writes of `t`, preceded by earlier ones. */
  function Prepend(calls: seq<SingleCall>, ids: seq<string>, t: Trace): (r: Trace)
    ensures r.result == t.result && |r.calls| == |calls| + |t.calls|
  {
    Trace(calls + t.calls, ids + t.contactIds, t.result)
  }

  /** The `catch` block: a 404 leads to one create with the same body, any
      other error is rethrown. */
  function Recover(e: RequestError, body: Props, rest: seq<Reply<ContactResponse>>): (t: Trace)
    ensures e.status != Some(404) ==> t.calls == [] && t.contactIds == [] && t.result == Failed(e)
    ensures e.status == Some(404) ==> t.calls == [CreateContact(body)] && t.result == NextReply(rest)
    ensures t.result.Ok? ==> t.contactIds == [t.result.data.id]
    ensures t.result.Failed? ==> t.contactIds == []
  {
    if e.status == Some(404) then
      var created := NextReply(rest);
      Trace([CreateContact(body)], if created.Ok? then [created.data.id] else [], created)
    else Trace([], [], Failed(e))
  }

  /** The correction of a lifecycle stage HubSpot did not move: reset it to
      the empty string, then send the original body again. The final update
      is returned without `await`, so its rejection escapes the `catch`. */
  function StageRetry(body: Props, idValue: string, idType: string,
                      rest: seq<Reply<ContactResponse>>): (t: Trace)
    ensures 1 <= |t.calls| <= 2
    ensures t.calls[0] == UpdateContact(idValue, idType, body["lifecyclestage" := Some("")])
    ensures |t.calls| == 2 ==> t.calls[1] in {UpdateContact(idValue, idType, body), CreateContact(body)}
    ensures NextReply(rest).Ok? ==> t.result == NextReply(Drop(rest, 1)) && t.contactIds == []
    ensures |t.contactIds| <= 1 && (t.contactIds != [] ==> t.result.Ok? && t.contactIds == [t.result.data.id])
  {
    var reset := UpdateContact(idValue, idType, body["lifecyclestage" := Some("")]);
    match NextReply(rest)
    case Failed(e) => Prepend([reset], [], Recover(e, body, Drop(rest, 1)))
    case Ok(_) => Trace([reset, UpdateContact(idValue, idType, body)], [], NextReply(Drop(rest, 1)))
  }

  /** What follows an update HubSpot accepted: its id is cached; with no
      stage to set, or the stage echoed back as wanted, its response is
      returned, otherwise the stage correction runs. */
  function Accepted(response: ContactResponse, body: Props, idValue: string, idType: string,
                    stage: Option<string>, rest: seq<Reply<ContactResponse>>): (t: Trace)
    ensures |t.contactIds| >= 1 && t.contactIds[0] == response.id
    ensures !HasStage(stage) ==> t == Trace([], [response.id], Ok(response))
    ensures HasStage(stage) && Get(response.properties, "lifecyclestage") == Defined(Lower(stage.value)) ==>
      t == Trace([], [response.id], Ok(response))
    ensures t.calls != [] ==> t.calls[0] == UpdateContact(idValue, idType, body["lifecyclestage" := Some("")])
  {
    if !HasStage(stage) || Get(response.properties, "lifecyclestage") == Defined(Lower(stage.value))
    then Trace([], [response.id], Ok(response))
    else Prepend([], [response.id], StageRetry(body, idValue, idType, rest))
  }

  /** The protocol of `createOrUpdateSingleContact` once the request body is
      built, against the replies `script`. */
  function Protocol(body: Props, idValue: string, idType: string, stage: Option<string>,
                    script: seq<Reply<ContactResponse>>): (t: Trace)
    ensures 1 <= |t.calls| <= 3 && t.calls[0] == UpdateContact(idValue, idType, body)
    ensures !HasStage(stage) ==> |t.calls| <= 2
    ensures NextReply(script).Ok? ==> |t.contactIds| >= 1 && t.contactIds[0] == NextReply(script).data.id
    ensures NextReply(script).Failed? && NextReply(script).error.status != Some(404) ==>
      t.calls == [UpdateContact(idValue, idType, body)] && t.result == NextReply(script)
  {
    var update := UpdateContact(idValue, idType, body);
    match NextReply(script)
    case Failed(e) => Prepend([update], [], Recover(e, body, Drop(script, 1)))
    case Ok(response) => Prepend([update], [], Accepted(response, body, idValue, idType, stage, Drop(script, 1)))
  }

  /** Calls that each carry `body` or `body` with the stage reset to `''`,
      whose updates are addressed by `idValue` and `idType`, and in which a
      create can only come last. */
  ghost predicate WellAddressed(calls: seq<SingleCall>, body: Props, idValue: string, idType: string)
  {
    && (forall i :: 0 <= i < |calls| ==> calls[i].properties in {body, body["lifecyclestage" := Some("")]})
    && (forall i :: 0 <= i < |calls| && calls[i].UpdateContact? ==>
          calls[i].identifierValue == idValue && calls[i].idProperty == idType)
    && (forall i :: 0 <= i < |calls| && calls[i].CreateContact? ==> i == |calls| - 1)
  }

  lemma WellAddressedPrepend(calls: seq<SingleCall>, body: Props, idValue: string, idType: string)
    requires WellAddressed(calls, body, idValue, idType)
    ensures WellAddressed([UpdateContact(idValue, idType, body)] + calls, body, idValue, idType)
  {
    var all := [UpdateContact(idValue, idType, body)] + calls;
    forall i | 1 <= i < |all|
      ensures all[i] == calls[i - 1]
    {
    }
  }

  lemma RecoverWellAddressed(e: RequestError, body: Props, rest: seq<Reply<ContactResponse>>,
                             idValue: string, idType: string)
    ensures var calls := Recover(e, body, rest).calls;
      && WellAddressed(calls, body, idValue, idType)
      && forall i :: 0 <= i < |calls| ==> calls[i].properties == body
  {
  }

  lemma StageRetryWellAddressed(body: Props, idValue: string, idType: string, rest: seq<Reply<ContactResponse>>)
    ensures WellAddressed(StageRetry(body, idValue, idType, rest).calls, body, idValue, idType)
  {
    if NextReply(rest).Failed? {
      RecoverWellAddressed(NextReply(rest).error, body, Drop(rest, 1), idValue, idType);
      WellAddressedPrepend(Recover(NextReply(rest).error, body, Drop(rest, 1)).calls, body, idValue, idType);
    }
  }

  /** Every call of the protocol carries `body`, or `body` with the stage
      reset to `''`; every update is addressed by `idValue` and `idType`;
      a create can only be the last call; without a stage, no reset is sent. */
  lemma ProtocolCalls(body: Props, idValue: string, idType: string, stage: Option<string>,
                      script: seq<Reply<ContactResponse>>)
    ensures WellAddressed(Protocol(body, idValue, idType, stage, script).calls, body, idValue, idType)
    ensures !HasStage(stage) ==>
      var calls := Protocol(body, idValue, idType, stage, script).calls;
      forall i :: 0 <= i < |calls| ==> calls[i].properties == body
  {
    var t := Protocol(body, idValue, idType, stage, script);
    var tail: seq<SingleCall>;
    match NextReply(script)
    case Failed(e) =>
      tail := Recover(e, body, Drop(script, 1)).calls;
      RecoverWellAddressed(e, body, Drop(script, 1), idValue, idType);
    case Ok(response) =>
      var a := Accepted(response, body, idValue, idType, stage, Drop(script, 1));
      if HasStage(stage) && Get(response.properties, "lifecyclestage") != Defined(Lower(stage.value)) {
        assert a.calls == StageRetry(body, idValue, idType, Drop(script, 1)).calls;
        StageRetryWellAddressed(body, idValue, idType, Drop(script, 1));
      } else {
        assert a.calls == [];
      }
      tail := a.calls;
    assert t.calls == [UpdateContact(idValue, idType, body)] + tail;
    WellAddressedPrepend(tail, body, idValue, idType);
  }

  /** The protocol of `createOrUpdateSingleContact` for payload `p`. */
  function SingleUpsert(p: Payload, script: seq<Reply<ContactResponse>>): (t: Trace)
    ensures var body := BuildSingleContactRequestBody(p);
      forall i :: 0 <= i < |t.calls| ==>
        t.calls[i].properties in {body, body["lifecyclestage" := Some("")]}
    ensures forall i :: 0 <= i < |t.calls| && t.calls[i].UpdateContact? ==>
      t.calls[i].identifierValue == p.email && t.calls[i].idProperty == IdentifierType(p)
    ensures !HasStage(p.lifecyclestage) ==>
      forall i :: 0 <= i < |t.calls| ==> t.calls[i].properties == BuildSingleContactRequestBody(p)
  {
    ProtocolCalls(BuildSingleContactRequestBody(p), p.email, IdentifierType(p), p.lifecyclestage, script);
    Protocol(BuildSingleContactRequestBody(p), p.email, IdentifierType(p), p.lifecyclestage, script)
  }

  /** The transaction map after `contact_id` has been written with each of `ids`. */
  function Recorded(transaction: map<string, string>, ids: seq<string>): (t: map<string, string>)
    ensures ids == [] ==> t == transaction
    ensures ids != [] ==> t == transaction["contact_id" := ids[|ids| - 1]]
  {
    if ids == [] then transaction else transaction["contact_id" := ids[|ids| - 1]]
  }

  lemma RecordedAppend(transaction: map<string, string>, a: seq<string>, b: seq<string>)
    ensures Recorded(Recorded(transaction, a), b) == Recorded(transaction, a + b)
  {
    if b != [] {
      assert (a + b)[|a + b| - 1] == b[|b| - 1];
    } else {
      assert a + b == a;
    }
  }

  /** The first call is always an update addressed by the identifier value,
      with `idProperty` the identifier type (`'email'` by default). */
  lemma FirstCallIsUpdate(p: Payload, script: seq<Reply<ContactResponse>>)
    ensures var t := SingleUpsert(p, script);
      |t.calls| >= 1 && t.calls[0] == UpdateContact(p.email, IdentifierType(p), BuildSingleContactRequestBody(p))
    ensures p.identifierType.None? ==> SingleUpsert(p, script).calls[0].idProperty == "email"
  {
  }

  /** A successful first update records its id as `contact_id` before any
      lifecycle handling; with no stage to set, or with the stage echoed back
      as wanted, that update is the only call and its response is returned. */
  lemma UpdateAccepted(p: Payload, script: seq<Reply<ContactResponse>>)
    requires NextReply(script).Ok?
    ensures SingleUpsert(p, script).contactIds[0] == NextReply(script).data.id
    ensures !HasStage(p.lifecyclestage) ||
            Get(NextReply(script).data.properties, "lifecyclestage") == Defined(Lower(p.lifecyclestage.value)) ==>
      var t := SingleUpsert(p, script);
      |t.calls| == 1 && t.contactIds == [NextReply(script).data.id] && t.result == NextReply(script)
  {
  }

  /** On a stage mismatch two more updates follow: the same body with the
      stage reset to `''`, then the original body, whose reply is returned as
      is — even a 404 there leads to no create. */
  lemma StageMismatchResetsThenRetries(p: Payload, script: seq<Reply<ContactResponse>>)
    requires NextReply(script).Ok? && HasStage(p.lifecyclestage)
    requires Get(NextReply(script).data.properties, "lifecyclestage") != Defined(Lower(p.lifecyclestage.value))
    requires NextReply(Drop(script, 1)).Ok?
    ensures var t := SingleUpsert(p, script);
      var body := BuildSingleContactRequestBody(p);
      && t.calls == [UpdateContact(p.email, IdentifierType(p), body),
                     UpdateContact(p.email, IdentifierType(p), body["lifecyclestage" := Some("")]),
                     UpdateContact(p.email, IdentifierType(p), body)]
      && t.result == NextReply(Drop(script, 2))
      && t.contactIds == [NextReply(script).data.id]
  {
  }

  /** A 404 on the first update, or on the awaited reset, leads to exactly one
      create with the same body, whose id becomes `contact_id`. */
  lemma NotFoundCreates(p: Payload, script: seq<Reply<ContactResponse>>)
    requires NextReply(script).Failed? && NextReply(script).error.status == Some(404)
    ensures var t := SingleUpsert(p, script);
      && t.calls == [UpdateContact(p.email, IdentifierType(p), BuildSingleContactRequestBody(p)),
                     CreateContact(BuildSingleContactRequestBody(p))]
      && t.result == NextReply(Drop(script, 1))
      && (t.result.Ok? ==> t.contactIds == [t.result.data.id])
      && (t.result.Failed? ==> t.contactIds == [])
  {
  }

  lemma ResetNotFoundCreates(p: Payload, script: seq<Reply<ContactResponse>>)
    requires NextReply(script).Ok? && HasStage(p.lifecyclestage)
    requires Get(NextReply(script).data.properties, "lifecyclestage") != Defined(Lower(p.lifecyclestage.value))
    requires NextReply(Drop(script, 1)).Failed? && NextReply(Drop(script, 1)).error.status == Some(404)
    ensures var t := SingleUpsert(p, script);
      && |t.calls| == 3 && t.calls[2] == CreateContact(BuildSingleContactRequestBody(p))
      && t.result == NextReply(Drop(script, 2))
      && (t.result.Ok? ==> t.contactIds == [NextReply(script).data.id, t.result.data.id])
  {
  }

  /** Any other error of the first update is rethrown: no create, no `contact_id`. */
  lemma OtherErrorRethrown(p: Payload, script: seq<Reply<ContactResponse>>)
    requires NextReply(script).Failed? && NextReply(script).error.status != Some(404)
    ensures var t := SingleUpsert(p, script);
      t.calls == [UpdateContact(p.email, IdentifierType(p), BuildSingleContactRequestBody(p))] &&
      t.contactIds == [] && t.result == NextReply(script)
  {
  }

  /** Across every run: one to three calls, at most one create and only as the
      last call, and only a successful reply ever yields a `contact_id`. */
  lemma CallShape(p: Payload, script: seq<Reply<ContactResponse>>)
    ensures var t := SingleUpsert(p, script);
      && 1 <= |t.calls| <= 3
      && (forall i :: 0 <= i < |t.calls| && t.calls[i].CreateContact? ==> i == |t.calls| - 1)
      && |t.contactIds| <= 2
      && (t.result.Ok? ==> t.contactIds != [])
  {
  }

  /** `HubspotClient`; its `settings` are read by none of the modelled code. */
  class HubspotClient {
    const request: SingleApi

    constructor (request: SingleApi)
      ensures this.request == request
    {
      this.request := request;
    }

    /** `updateSingleContact`. */
    method UpdateSingleContact(properties: Props, identifierValue: string, identifierType: string)
      returns (reply: Reply<ContactResponse>)
      modifies request
      ensures request.calls == old(request.calls) + [UpdateContact(identifierValue, identifierType, properties)]
      ensures reply == NextReply(old(request.script)) && request.script == Drop(old(request.script), 1)
    {
      reply := request.Request(UpdateContact(identifierValue, identifierType, properties));
    }

    /** `createSingleContact`. */
    method CreateSingleContact(properties: Props) returns (reply: Reply<ContactResponse>)
      modifies request
      ensures request.calls == old(request.calls) + [CreateContact(properties)]
      ensures reply == NextReply(old(request.script)) && request.script == Drop(old(request.script), 1)
    {
      reply := request.Request(CreateContact(properties));
    }

    /** `createOrUpdateSingleContact`. */
    method CreateOrUpdateSingleContact(payload: Payload, transactionContext: TransactionContext?)
      returns (result: Reply<ContactResponse>)
      modifies request, transactionContext
      ensures var t := SingleUpsert(payload, old(request.script));
        && request.calls == old(request.calls) + t.calls
        && request.script == Drop(old(request.script), |t.calls|)
        && result == t.result
        && (transactionContext != null ==>
              transactionContext.transaction == Recorded(old(transactionContext.transaction), t.contactIds))
    {
      var singleContactRequestBody := BuildSingleContactRequestBody(payload);
      result := UpsertWithBody(singleContactRequestBody, payload.email, IdentifierType(payload),
                               payload.lifecyclestage, transactionContext);
    }

    /** The body of `createOrUpdateSingleContact` after the request body is built. */
    method UpsertWithBody(body: Props, identifierValue: string, identifierType: string,
                          lifecyclestage: Option<string>, transactionContext: TransactionContext?)
      returns (result: Reply<ContactResponse>)
      modifies request, transactionContext
      ensures var t := Protocol(body, identifierValue, identifierType, lifecyclestage, old(request.script));
        && request.calls == old(request.calls) + t.calls
        && request.script == Drop(old(request.script), |t.calls|)
        && result == t.result
        && (transactionContext != null ==>
              transactionContext.transaction == Recorded(old(transactionContext.transaction), t.contactIds))
    {
      ghost var script := request.script;
      var response := UpdateSingleContact(body, identifierValue, identifierType);
      ghost var rest: Trace;
      if response.Failed? {
        rest := Recover(response.error, body, request.script);
        result := CatchUpdateFailure(response.error, body, transactionContext);
      } else {
        rest := Accepted(response.data, body, identifierValue, identifierType, lifecyclestage, request.script);
        result := HandleAcceptedUpdate(response.data, body, identifierValue, identifierType,
                                       lifecyclestage, transactionContext);
      }
      DropDrop(script, 1, |rest.calls|);
      assert request.calls == old(request.calls) + [UpdateContact(identifierValue, identifierType, body)] + rest.calls;
      if transactionContext != null {
        RecordedAppend(old(transactionContext.transaction), [], rest.contactIds);
      }
    }

    /** The rest of the `try` of `createOrUpdateSingleContact` after the
        update was accepted. */
    method HandleAcceptedUpdate(response: ContactResponse, body: Props, identifierValue: string,
                                identifierType: string, lifecyclestage: Option<string>,
                                transactionContext: TransactionContext?)
      returns (result: Reply<ContactResponse>)
      modifies request, transactionContext
      ensures var t := Accepted(response, body, identifierValue, identifierType, lifecyclestage, old(request.script));
        && request.calls == old(request.calls) + t.calls
        && request.script == Drop(old(request.script), |t.calls|)
        && result == t.result
        && (transactionContext != null ==>
              transactionContext.transaction == Recorded(old(transactionContext.transaction), t.contactIds))
    {
      if transactionContext != null {
        transactionContext.SetTransaction("contact_id", response.id);
      }
      if !HasStage(lifecyclestage) {
        return Ok(response);
      }
      var currentLCS := Get(response.properties, "lifecyclestage");
      var hasLCSChanged := currentLCS == Defined(Lower(lifecyclestage.value));
      if hasLCSChanged {
        return Ok(response);
      }
      ghost var rest := StageRetry(body, identifierValue, identifierType, request.script);
      result := RetryLifecycleStage(body, identifierValue, identifierType, transactionContext);
      if transactionContext != null {
        RecordedAppend(old(transactionContext.transaction), [response.id], rest.contactIds);
      }
    }

    /** The lifecycle-stage correction inside the `try` of `createOrUpdateSingleContact`. */
    method RetryLifecycleStage(body: Props, identifierValue: string, identifierType: string,
                               transactionContext: TransactionContext?)
      returns (result: Reply<ContactResponse>)
      modifies request, transactionContext
      ensures var t := StageRetry(body, identifierValue, identifierType, old(request.script));
        && request.calls == old(request.calls) + t.calls
        && request.script == Drop(old(request.script), |t.calls|)
        && result == t.result
        && (transactionContext != null ==>
              transactionContext.transaction == Recorded(old(transactionContext.transaction), t.contactIds))
    {
      ghost var script := request.script;
      var resetReply := UpdateSingleContact(body["lifecyclestage" := Some("")], identifierValue, identifierType);
      if resetReply.Ok? {
        result := UpdateSingleContact(body, identifierValue, identifierType);
        DropDrop(script, 1, 1);
        return;
      }
      ghost var rest := Recover(resetReply.error, body, request.script);
      result := CatchUpdateFailure(resetReply.error, body, transactionContext);
      DropDrop(script, 1, |rest.calls|);
      if transactionContext != null {
        RecordedAppend(old(transactionContext.transaction), [], rest.contactIds);
      }
    }

    /** The `catch` block of `createOrUpdateSingleContact`: a 404 leads to a
        create with the same body, whose id is cached; anything else is rethrown. */
    method CatchUpdateFailure(ex: RequestError, body: Props, transactionContext: TransactionContext?)
      returns (result: Reply<ContactResponse>)
      modifies request, transactionContext
      ensures var t := Recover(ex, body, old(request.script));
        && request.calls == old(request.calls) + t.calls
        && request.script == Drop(old(request.script), |t.calls|)
        && result == t.result
        && (transactionContext != null ==>
              transactionContext.transaction == Recorded(old(transactionContext.transaction), t.contactIds))
    {
      if ex.status == Some(404) {
        result := CreateSingleContact(body);
        if result.Ok? && transactionContext != null {
          transactionContext.SetTransaction("contact_id", result.data.id);
        }
        return;
      }
      result := Failed(ex);
    }
  }
}
