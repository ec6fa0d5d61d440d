/** The batched contact upsert of the HubSpot `upsertContact` action: a map of
    pending upserts keyed by lower-cased identifier, folded together with a
    batch-read response into `create` / `update` decisions, and the lifecycle
    stage reset-and-retry pass that follows a batch update. */
module UpsertContact {
  import opened Common
  import opened Text
  import opened Remote
  import opened Hubspot

  /** `ContactsUpsertMapItem.action`; `Undetermined` is the source's `'undefined'`. */
  datatype Action = Undetermined | Create | Update

  /** `ContactsUpsertMapItem`: the action, `payload.id` and `payload.properties`. */
  datatype UpsertItem = UpsertItem(action: Action, id: Option<string>, properties: Props)

  /** `ContactErrorResponse`, with `context.ids` as `ids`. */
  datatype ContactError = ContactError(status: string, category: string, message: string, ids: seq<string>)

  /** `ContactBatchResponse`, the `data` of a batch call. */
  datatype ContactBatchResponse = ContactBatchResponse(
    status: string,
    results: seq<ContactResponse>,
    numErrors: Option<int>,
    errors: Option<seq<ContactError>>)

  /** The JSON body of a batch read. */
  datatype ReadInput = ReadInput(id: string)
  datatype BatchReadRequest = BatchReadRequest(properties: seq<string>, idProperty: string, inputs: seq<ReadInput>)

  /** `ContactUpdateRequestPayload`. */
  datatype UpdateInput = UpdateInput(id: string, properties: Props)

  /** The three batch endpoints, as recorded calls. */
  datatype BatchCall =
    | ReadBatch(read: BatchReadRequest)
    | CreateBatch(creates: seq<Props>)
    | UpdateBatch(updates: seq<UpdateInput>)

  type BatchApi = ScriptedClient<BatchCall, ContactBatchResponse>

  /** What reconciling a read response can throw. */
  datatype ReconcileError =
    | Integration(error: IntegrationError)
      // the TypeError of `contactsUpsertMap[id].action = ...` for an id that is not a key
    | MissingContact(id: string)

  predicate Distinct(s: seq<string>)
  {
    forall i, j :: 0 <= i < j < |s| ==> s[i] != s[j]
  }

  /** `Record<string, ContactsUpsertMapItem>`, with its keys in insertion order
      (the order `Object.keys` lists them in). */
  class ContactsUpsertMap {
    var keys: seq<string>
    var items: map<string, UpsertItem>

    ghost predicate Valid()
      reads this
    {
      Distinct(keys) && forall k :: k in items <==> k in keys
    }

    constructor ()
      ensures Valid() && keys == [] && items == map[]
    {
      keys := [];
      items := map[];
    }

    /** `contactsUpsertMap[key] = item`: a new key goes last, an old one keeps its place. */
    method Put(key: string, item: UpsertItem)
      requires Valid()
      modifies this
      ensures Valid()
      ensures keys == if key in old(items) then old(keys) else old(keys) + [key]
      ensures items == old(items)[key := item]
    {
      if key !in items {
        keys := keys + [key];
      }
      items := items[key := item];
    }
  }

  // ---------------------------------------------------------------------
  // mapUpsertContactPayload

  const StandardKeys: set<string> := LeadingKeys + {"email", "website", "lifecyclestage"}

  /** The standard fields of the `properties` object, before the spread. */
  function StandardFields(p: Payload): (props: Props)
    ensures props.Keys == StandardKeys
  {
    LeadingFields(p)["email" := Some(Lower(p.email))]["website" := p.website]
                    ["lifecyclestage" := LowerOpt(p.lifecyclestage)]
  }

  /** The `properties` object built for one payload: the flattened custom
      properties are spread last, over the standard fields. */
  function ContactProperties(p: Payload): (props: Props)
    ensures props.Keys == StandardKeys + p.properties.Keys
    ensures forall k :: k in p.properties ==> props[k] == Some(p.properties[k])
  {
    StandardFields(p) + Spread(p.properties)
  }

  /** Every standard field no custom property overrides: the leading fields
      as given, the email and lifecycle stage lower-cased, the website kept. */
  lemma ContactPropertiesFields(p: Payload)
    ensures var props := ContactProperties(p);
      && (forall k :: k in LeadingKeys && k !in p.properties ==> props[k] == LeadingFields(p)[k])
      && ("email" !in p.properties ==> props["email"] == Some(Lower(p.email)))
      && ("lifecyclestage" !in p.properties ==> props["lifecyclestage"] == LowerOpt(p.lifecyclestage))
      && ("website" !in p.properties ==> props["website"] == p.website)
  {
    var standard := StandardFields(p);
    var props := ContactProperties(p);
    forall k | k in StandardKeys && k !in p.properties
      ensures props[k] == standard[k]
    {
    }
    forall k | k in LeadingKeys
      ensures standard[k] == LeadingFields(p)[k]
    {
      assert k != "email" && k != "website" && k != "lifecyclestage";
    }
  }

  /** The entry a payload starts as: action undetermined, no id. */
  function NewItem(p: Payload): UpsertItem
  {
    UpsertItem(Undetermined, None, ContactProperties(p))
  }

  /** The entries after the loop has stored every payload of `ps`, in order. */
  function Mapped(ps: seq<Payload>): (m: map<string, UpsertItem>)
    ensures forall k :: k in m ==> m[k].action == Undetermined && m[k].id == None
    ensures |m| <= |ps|
  {
    if ps == [] then map[]
    else
      var last := ps[|ps| - 1];
      Mapped(ps[..|ps| - 1])[Lower(last.email) := NewItem(last)]
  }

  /** The key order after the loop has stored every payload of `ps`. */
  function KeyOrder(ps: seq<Payload>): (keys: seq<string>)
    ensures Distinct(keys)
    ensures forall k :: k in keys <==> k in Mapped(ps)
  {
    if ps == [] then []
    else
      var prefix := ps[..|ps| - 1];
      var key := Lower(ps[|ps| - 1].email);
      if key in Mapped(prefix) then KeyOrder(prefix) else KeyOrder(prefix) + [key]
  }

  /** Later payloads only append keys: the order of an earlier prefix stays
      at the front. */
  lemma {:induction false} KeyOrderPrefix(ps: seq<Payload>, i: nat)
    requires i <= |ps|
    ensures KeyOrder(ps[..i]) <= KeyOrder(ps)
    decreases |ps|
  {
    if i < |ps| {
      var prefix := ps[..|ps| - 1];
      assert prefix[..i] == ps[..i];
      KeyOrderPrefix(prefix, i);
    } else {
      assert ps[..i] == ps;
    }
  }

  /** Keys are listed in the order of their first occurrence: a payload whose
      identifier is new takes the place right after every key seen before it. */
  lemma FirstOccurrenceOrder(ps: seq<Payload>, i: nat)
    requires i < |ps|
    requires Lower(ps[i].email) !in Mapped(ps[..i])
    ensures |KeyOrder(ps[..i])| < |KeyOrder(ps)|
    ensures KeyOrder(ps)[|KeyOrder(ps[..i])|] == Lower(ps[i].email)
  {
    var upto := ps[..i + 1];
    assert upto[..|upto| - 1] == ps[..i] && upto[|upto| - 1] == ps[i];
    assert KeyOrder(upto) == KeyOrder(ps[..i]) + [Lower(ps[i].email)];
    KeyOrderPrefix(ps, i + 1);
  }

  /** Every key is the lower-cased identifier of some payload, and every
      payload's lower-cased identifier is a key. */
  lemma {:induction false} MappedKeys(ps: seq<Payload>, k: string)
    ensures k in Mapped(ps) <==> exists i :: 0 <= i < |ps| && Lower(ps[i].email) == k
  {
    if ps != [] {
      var prefix := ps[..|ps| - 1];
      MappedKeys(prefix, k);
      if k in Mapped(prefix) {
        var i :| 0 <= i < |prefix| && Lower(prefix[i].email) == k;
        assert ps[i] == prefix[i];
      }
      if exists i :: 0 <= i < |ps| && Lower(ps[i].email) == k {
        var i :| 0 <= i < |ps| && Lower(ps[i].email) == k;
        if i < |prefix| {
          assert prefix[i] == ps[i];
        }
      }
    }
  }

  /** Identifiers equal up to case collapse into one entry; the last payload
      with that identifier wins. */
  lemma {:induction false} MappedLastWins(ps: seq<Payload>, i: nat)
    requires i < |ps|
    requires forall j :: i < j < |ps| ==> Lower(ps[j].email) != Lower(ps[i].email)
    ensures Lower(ps[i].email) in Mapped(ps)
    ensures Mapped(ps)[Lower(ps[i].email)] == NewItem(ps[i])
  {
    if i < |ps| - 1 {
      var prefix := ps[..|ps| - 1];
      assert prefix[i] == ps[i];
      forall j | i < j < |prefix|
        ensures Lower(prefix[j].email) != Lower(prefix[i].email)
      {
        assert prefix[j] == ps[j];
      }
      MappedLastWins(prefix, i);
    }
  }

  /** `mapUpsertContactPayload`. */
  method MapUpsertContactPayload(payloads: seq<Payload>) returns (m: ContactsUpsertMap)
    ensures fresh(m) && m.Valid()
    ensures m.keys == KeyOrder(payloads) && m.items == Mapped(payloads)
  {
    m := new ContactsUpsertMap();
    for i := 0 to |payloads|
      invariant m.Valid()
      invariant m.keys == KeyOrder(payloads[..i]) && m.items == Mapped(payloads[..i])
    {
      var contact := payloads[i];
      assert payloads[..i + 1][..i] == payloads[..i];
      m.Put(Lower(contact.email), NewItem(contact));
    }
    assert payloads[..|payloads|] == payloads;
  }

  // ---------------------------------------------------------------------
  // readContactsBatch, createContactsBatch, updateContactsBatch

  /** The body of the batch read for `emails`. */
  function ReadRequest(emails: seq<string>): (r: BatchReadRequest)
    ensures r.idProperty == "email"
    ensures r.properties == ["email", "lifecyclestage", "hs_additional_emails"]
    ensures |r.inputs| == |emails|
    ensures forall i :: 0 <= i < |emails| ==> r.inputs[i].id == emails[i]
  {
    BatchReadRequest(["email", "lifecyclestage", "hs_additional_emails"], "email",
                     seq(|emails|, i requires 0 <= i < |emails| => ReadInput(emails[i])))
  }

  method ReadContactsBatch(api: BatchApi, emails: seq<string>) returns (reply: Reply<ContactBatchResponse>)
    modifies api
    ensures api.calls == old(api.calls) + [ReadBatch(ReadRequest(emails))]
    ensures reply == NextReply(old(api.script)) && api.script == Drop(old(api.script), 1)
  {
    reply := api.Request(ReadBatch(ReadRequest(emails)));
  }

  method CreateContactsBatch(api: BatchApi, inputs: seq<Props>) returns (reply: Reply<ContactBatchResponse>)
    modifies api
    ensures api.calls == old(api.calls) + [CreateBatch(inputs)]
    ensures reply == NextReply(old(api.script)) && api.script == Drop(old(api.script), 1)
  {
    reply := api.Request(CreateBatch(inputs));
  }

  method UpdateContactsBatch(api: BatchApi, inputs: seq<UpdateInput>) returns (reply: Reply<ContactBatchResponse>)
    modifies api
    ensures api.calls == old(api.calls) + [UpdateBatch(inputs)]
    ensures reply == NextReply(old(api.script)) && api.script == Drop(old(api.script), 1)
  {
    reply := api.Request(UpdateBatch(inputs));
  }

  // ---------------------------------------------------------------------
  // createPayloadToUpdateContact

  /** The template literal `${value}`. */
  function TemplateString(v: Nullable<string>): (s: string)
    ensures v.Defined? ==> s == v.value
    ensures v == Undefined ==> s == "undefined"
    ensures v == Null ==> s == "null"
  {
    match v
    case Undefined => "undefined"
    case Null => "null"
    case Defined(s) => s
  }

  /** The key a read result marks for update, if any: the primary email when
      it is a key, else the first key (in key order) among the `;`-separated
      additional emails; a falsy choice marks nothing. */
  function MatchedKey(keys: seq<string>, r: ContactResponse): (k: Option<string>)
    ensures k.Some? ==> k.value in keys && k.value != ""
    ensures TemplateString(Get(r.properties, "email")) in keys ==>
      k == if Truthy(Get(r.properties, "email")) then Some(Get(r.properties, "email").value) else None
    ensures TemplateString(Get(r.properties, "email")) !in keys && k.Some? ==>
      Truthy(Get(r.properties, "hs_additional_emails")) &&
      k.value in Split(Get(r.properties, "hs_additional_emails").value, ';')
    ensures TemplateString(Get(r.properties, "email")) !in keys && Truthy(Get(r.properties, "hs_additional_emails")) ==>
      var secondary := Split(Get(r.properties, "hs_additional_emails").value, ';');
      forall i :: 0 <= i < |keys| && keys[i] in secondary && (forall j :: 0 <= j < i ==> keys[j] !in secondary) ==>
        k == if keys[i] != "" then Some(keys[i]) else None
    ensures TemplateString(Get(r.properties, "email")) !in keys && !Truthy(Get(r.properties, "hs_additional_emails")) ==>
      k == None
  {
    var primary := Get(r.properties, "email");
    if TemplateString(primary) !in keys then
      var additional := Get(r.properties, "hs_additional_emails");
      if Truthy(additional) then
        var secondary := Split(additional.value, ';');
        match FindIndex(keys, key => key in secondary)
        case Some(i) => if keys[i] != "" then Some(keys[i]) else None
        case None => None
      else None
    else if Truthy(primary) then Some(primary.value)
    else None
  }

  /** One iteration of the loop over read results. */
  function ApplyResult(keys: seq<string>, items: map<string, UpsertItem>, r: ContactResponse): (m: map<string, UpsertItem>)
    ensures m.Keys == items.Keys
    ensures forall k :: k in items && MatchedKey(keys, r) != Some(k) ==> m[k] == items[k]
    ensures forall k :: k in items && MatchedKey(keys, r) == Some(k) ==>
      m[k] == items[k].(action := Update, id := Some(r.id))
  {
    match MatchedKey(keys, r)
    case Some(k) => if k in items then items[k := items[k].(action := Update, id := Some(r.id))] else items
    case None => items
  }

  /** The entries after the loop over `rs`. */
  function ApplyResults(keys: seq<string>, items: map<string, UpsertItem>, rs: seq<ContactResponse>): (m: map<string, UpsertItem>)
    ensures m.Keys == items.Keys
    decreases |rs|
  {
    if rs == [] then items
    else ApplyResult(keys, ApplyResults(keys, items, rs[..|rs| - 1]), rs[|rs| - 1])
  }

  /** The last result in `rs` that matches key `k`. */
  function LastMatch(keys: seq<string>, rs: seq<ContactResponse>, k: string): (j: Option<nat>)
    ensures j.Some? ==> j.value < |rs| && MatchedKey(keys, rs[j.value]) == Some(k)
    ensures j.Some? ==> forall i :: j.value < i < |rs| ==> MatchedKey(keys, rs[i]) != Some(k)
    ensures j.None? ==> forall i :: 0 <= i < |rs| ==> MatchedKey(keys, rs[i]) != Some(k)
    decreases |rs|
  {
    if rs == [] then None
    else if MatchedKey(keys, rs[|rs| - 1]) == Some(k) then Some(|rs| - 1)
    else
      var j := LastMatch(keys, rs[..|rs| - 1], k);
      assert forall i :: 0 <= i < |rs| - 1 ==> rs[..|rs| - 1][i] == rs[i];
      j
  }

  /** Each entry ends up as it was, or — if some result matched it — as
      `update` with the id of the last result that matched it; the properties
      are never touched. */
  lemma {:induction false} ApplyResultsLastMatch(keys: seq<string>, items: map<string, UpsertItem>, rs: seq<ContactResponse>, k: string)
    requires k in items
    ensures ApplyResults(keys, items, rs)[k] ==
      match LastMatch(keys, rs, k)
      case None => items[k]
      case Some(j) => items[k].(action := Update, id := Some(rs[j].id))
  {
    if rs != [] {
      ApplyResultsLastMatch(keys, items, rs[..|rs| - 1], k);
    }
  }

  /** Feeding the same read results in twice gives the same entries as once. */
  lemma ApplyResultsIdempotent(keys: seq<string>, items: map<string, UpsertItem>, rs: seq<ContactResponse>)
    ensures ApplyResults(keys, ApplyResults(keys, items, rs), rs) == ApplyResults(keys, items, rs)
  {
    var once := ApplyResults(keys, items, rs);
    var twice := ApplyResults(keys, once, rs);
    forall k | k in items
      ensures twice[k] == once[k]
    {
      ApplyResultsLastMatch(keys, items, rs, k);
      ApplyResultsLastMatch(keys, once, rs, k);
    }
  }

  /** `createPayloadToUpdateContact`. */
  method CreatePayloadToUpdateContact(readResponse: ContactBatchResponse, m: ContactsUpsertMap)
    requires m.Valid()
    modifies m
    ensures m.Valid() && m.keys == old(m.keys)
    ensures m.items == ApplyResults(old(m.keys), old(m.items), readResponse.results)
  {
    var results := readResponse.results;
    for i := 0 to |results|
      invariant m.Valid() && m.keys == old(m.keys)
      invariant m.items == ApplyResults(m.keys, old(m.items), results[..i])
    {
      var result := results[i];
      assert results[..i + 1][..i] == results[..i];
      var email: Option<string> := None;
      var primary := Get(result.properties, "email");
      if TemplateString(primary) !in m.items {
        var additional := Get(result.properties, "hs_additional_emails");
        if Truthy(additional) {
          var secondaryEmails := Split(additional.value, ';');
          email := Find(m.keys, key => key in secondaryEmails);
        }
      } else {
        email := if primary.Defined? then Some(primary.value) else None;
      }
      if email.Some? && email.value != "" {
        m.Put(email.value, m.items[email.value].(action := Update, id := Some(result.id)));
      }
    }
    assert results[..|results|] == results;
  }

  // ---------------------------------------------------------------------
  // updateActionsForBatchedContacts

  predicate IsNotFound(e: ContactError)
    ensures IsNotFound(e) ==> e.status == "error" && e.category == "OBJECT_NOT_FOUND"
  {
    e.status == "error" && e.category == "OBJECT_NOT_FOUND"
  }

  /** `if (readResponse.data?.numErrors && readResponse.data.errors)`. */
  predicate ErrorsExamined(resp: ContactBatchResponse)
    ensures ErrorsExamined(resp) ==> resp.errors.Some?
    ensures resp.numErrors == Some(0) || resp.numErrors.None? ==> !ErrorsExamined(resp)
  {
    resp.numErrors.Some? && resp.numErrors.value != 0 && resp.errors.Some?
  }

  /** The number of leading ids of `ids` that are in `present`. */
  function FirstMissing(ids: seq<string>, present: set<string>): (n: nat)
    ensures n <= |ids|
    ensures forall i :: 0 <= i < n ==> ids[i] in present
    ensures n < |ids| ==> ids[n] !in present
  {
    if ids == [] || ids[0] !in present then 0 else 1 + FirstMissing(ids[1..], present)
  }

  /** The loop over `error.context.ids`: each becomes `create`, until an id
      that is no key throws. */
  function MarkCreate(items: map<string, UpsertItem>, ids: seq<string>): (r: (map<string, UpsertItem>, Outcome<ReconcileError>))
    ensures r.0.Keys == items.Keys
    decreases |ids|
  {
    if ids == [] then (items, Pass)
    else if ids[0] !in items then (items, Fail(MissingContact(ids[0])))
    else MarkCreate(items[ids[0] := items[ids[0]].(action := Create)], ids[1..])
  }

  /** The ids before the first missing one become `create` and nothing else
      changes; the call throws exactly when some id is not a key. */
  lemma {:induction false} MarkCreateEffect(items: map<string, UpsertItem>, ids: seq<string>)
    ensures var n := FirstMissing(ids, items.Keys);
      && MarkCreate(items, ids).1 == (if n == |ids| then Pass else Fail(MissingContact(ids[n])))
      && forall k :: k in items ==>
           MarkCreate(items, ids).0[k] == if k in ids[..n] then items[k].(action := Create) else items[k]
    decreases |ids|
  {
    if ids != [] && ids[0] in items {
      var next := items[ids[0] := items[ids[0]].(action := Create)];
      assert next.Keys == items.Keys;
      MarkCreateEffect(next, ids[1..]);
      var n := FirstMissing(ids, items.Keys);
      assert n == 1 + FirstMissing(ids[1..], next.Keys);
      assert ids[..n] == [ids[0]] + ids[1..][..n - 1];
    }
  }

  /** The loop over `errors`. */
  function ApplyErrors(items: map<string, UpsertItem>, errors: seq<ContactError>): (r: (map<string, UpsertItem>, Outcome<ReconcileError>))
    ensures r.0.Keys == items.Keys
    decreases |errors|
  {
    if errors == [] then (items, Pass)
    else if IsNotFound(errors[0]) then
      var marked := MarkCreate(items, errors[0].ids);
      if marked.1.Fail? then marked else ApplyErrors(marked.0, errors[1..])
    else (items, Fail(Integration(IntegrationError(errors[0].message, errors[0].category, 400))))
  }

  /** What `updateActionsForBatchedContacts` leaves in the map and whether it
      throws: results first, then errors when they are examined at all. */
  function ApplyReadResponse(keys: seq<string>, items: map<string, UpsertItem>, resp: ContactBatchResponse): (r: (map<string, UpsertItem>, Outcome<ReconcileError>))
    ensures r.0.Keys == items.Keys
    ensures !ErrorsExamined(resp) ==> r.1 == Pass
    ensures resp.results == [] && !ErrorsExamined(resp) ==> r == (items, Pass)
  {
    var afterResults := if |resp.results| > 0 then ApplyResults(keys, items, resp.results) else items;
    if ErrorsExamined(resp) then ApplyErrors(afterResults, resp.errors.value) else (afterResults, Pass)
  }

  /** Error lists processed in two parts: the second part starts where a
      passing first part left the entries. */
  lemma {:induction false} ApplyErrorsAppend(items: map<string, UpsertItem>, a: seq<ContactError>, b: seq<ContactError>)
    requires ApplyErrors(items, a).1.Pass?
    ensures ApplyErrors(items, a + b) == ApplyErrors(ApplyErrors(items, a).0, b)
    decreases |a|
  {
    if a != [] {
      assert (a + b)[0] == a[0] && (a + b)[1..] == a[1..] + b;
      ApplyErrorsAppend(MarkCreate(items, a[0].ids).0, a[1..], b);
    } else {
      assert a + b == b;
    }
  }

  /** Which ids the loop over `errors` marks as `create`, and whether it
      throws, told from the set of keys alone: a not-found error marks its
      ids up to the first one that is no key, and any other error stops the
      loop with an `IntegrationError`. */
  function ErrorMarks(present: set<string>, errors: seq<ContactError>): (r: (set<string>, Outcome<ReconcileError>))
    ensures forall x :: x in r.0 ==> exists i :: 0 <= i < |errors| && x in errors[i].ids
    decreases |errors|
  {
    if errors == [] then ({}, Pass)
    else if IsNotFound(errors[0]) then
      var ids := errors[0].ids;
      var n := FirstMissing(ids, present);
      if n < |ids| then ((set x | x in ids[..n]), Fail(MissingContact(ids[n])))
      else
        var rest := ErrorMarks(present, errors[1..]);
        assert forall x :: x in rest.0 ==> exists i :: 1 <= i < |errors| && x in errors[i].ids by {
          forall x | x in rest.0 ensures exists i :: 1 <= i < |errors| && x in errors[i].ids {
            var i :| 0 <= i < |errors[1..]| && x in errors[1..][i].ids;
            assert errors[i + 1] == errors[1..][i];
          }
        }
        ((set x | x in ids) + rest.0, rest.1)
    else ({}, Fail(Integration(IntegrationError(errors[0].message, errors[0].category, 400))))
  }

  /** The loop over errors marks exactly the ids `ErrorMarks` names and has
      its outcome; every other entry is left as it was. */
  lemma {:induction false} ApplyErrorsMarks(items: map<string, UpsertItem>, errors: seq<ContactError>)
    ensures ApplyErrors(items, errors).1 == ErrorMarks(items.Keys, errors).1
    ensures forall k :: k in items ==>
      ApplyErrors(items, errors).0[k] ==
        if k in ErrorMarks(items.Keys, errors).0 then items[k].(action := Create) else items[k]
    decreases |errors|
  {
    if errors != [] && IsNotFound(errors[0]) {
      var ids := errors[0].ids;
      MarkCreateEffect(items, ids);
      var n := FirstMissing(ids, items.Keys);
      var marked := MarkCreate(items, ids);
      if n == |ids| {
        assert ids[..n] == ids;
        ApplyErrorsMarks(marked.0, errors[1..]);
      }
    }
  }

  /** An entry that no read result matches and no error names is left as it
      was, whether or not the reconciliation throws; in particular it stays
      `'undefined'`. */
  lemma UnmatchedEntryUnchanged(keys: seq<string>, items: map<string, UpsertItem>, resp: ContactBatchResponse, k: string)
    requires k in items
    requires forall i :: 0 <= i < |resp.results| ==> MatchedKey(keys, resp.results[i]) != Some(k)
    requires resp.errors.Some? ==> forall i :: 0 <= i < |resp.errors.value| ==> k !in resp.errors.value[i].ids
    ensures ApplyReadResponse(keys, items, resp).0[k] == items[k]
  {
    var afterResults := if |resp.results| > 0 then ApplyResults(keys, items, resp.results) else items;
    if |resp.results| > 0 {
      ApplyResultsLastMatch(keys, items, resp.results, k);
    }
    if ErrorsExamined(resp) {
      ApplyErrorsMarks(afterResults, resp.errors.value);
    }
  }

  /** Reconciling the same read response twice leaves the map and the outcome
      as reconciling it once: results re-applied reproduce their `update`,
      and the errors mark and throw at the same place again. */
  lemma ReconcileIdempotent(keys: seq<string>, items: map<string, UpsertItem>, resp: ContactBatchResponse)
    ensures ApplyReadResponse(keys, ApplyReadResponse(keys, items, resp).0, resp) == ApplyReadResponse(keys, items, resp)
  {
    var rs := resp.results;
    var first := ApplyReadResponse(keys, items, resp);
    var second := ApplyReadResponse(keys, first.0, resp);
    var a1 := if |rs| > 0 then ApplyResults(keys, items, rs) else items;
    var a2 := if |rs| > 0 then ApplyResults(keys, first.0, rs) else first.0;
    if !ErrorsExamined(resp) {
      if |rs| > 0 {
        ApplyResultsIdempotent(keys, items, rs);
      }
    } else {
      var errors := resp.errors.value;
      ApplyErrorsMarks(a1, errors);
      ApplyErrorsMarks(a2, errors);
      assert first == ApplyErrors(a1, errors);
      assert second == ApplyErrors(a2, errors);
      assert a1.Keys == items.Keys && a2.Keys == items.Keys;
      forall k | k in items
        ensures second.0[k] == first.0[k]
      {
        if |rs| > 0 {
          ApplyResultsLastMatch(keys, items, rs, k);
          ApplyResultsLastMatch(keys, first.0, rs, k);
          match LastMatch(keys, rs, k)
          case None =>
          case Some(j) => assert a2[k] == a1[k];
        }
      }
      assert second.0 == first.0;
    }
  }

  /** Not-found errors whose ids are all keys: nothing throws, and exactly
      the listed entries become `create`. */
  lemma {:induction false} NotFoundMarksCreate(items: map<string, UpsertItem>, errors: seq<ContactError>, k: string)
    requires forall i :: 0 <= i < |errors| ==> IsNotFound(errors[i])
    requires forall i, j :: 0 <= i < |errors| && 0 <= j < |errors[i].ids| ==> errors[i].ids[j] in items
    requires k in items
    ensures ApplyErrors(items, errors).1 == Pass
    ensures ApplyErrors(items, errors).0[k] ==
      if exists i :: 0 <= i < |errors| && k in errors[i].ids then items[k].(action := Create) else items[k]
    decreases |errors|
  {
    if errors != [] {
      var ids := errors[0].ids;
      MarkCreateEffect(items, ids);
      var n := FirstMissing(ids, items.Keys);
      assert ids[..n] == ids;
      var marked := MarkCreate(items, ids).0;
      forall i, j | 0 <= i < |errors[1..]| && 0 <= j < |errors[1..][i].ids|
        ensures errors[1..][i].ids[j] in marked
      {
        assert errors[1..][i] == errors[i + 1];
      }
      NotFoundMarksCreate(marked, errors[1..], k);
      if exists i :: 0 <= i < |errors[1..]| && k in errors[1..][i].ids {
        var i :| 0 <= i < |errors[1..]| && k in errors[1..][i].ids;
        assert errors[i + 1] == errors[1..][i];
      }
      if exists i :: 0 <= i < |errors| && k in errors[i].ids {
        var i :| 0 <= i < |errors| && k in errors[i].ids;
        if i > 0 {
          assert errors[1..][i - 1] == errors[i];
        }
      }
    }
  }

  /** The first error that is not a not-found error throws
      `IntegrationError(message, category, 400)`, and the `create` marks made
      by the errors before it stay in the map. */
  lemma FatalErrorThrows(items: map<string, UpsertItem>, errors: seq<ContactError>, i: nat)
    requires i < |errors| && !IsNotFound(errors[i])
    requires ApplyErrors(items, errors[..i]).1.Pass?
    ensures ApplyErrors(items, errors).1 == Fail(Integration(IntegrationError(errors[i].message, errors[i].category, 400)))
    ensures ApplyErrors(items, errors).0 == ApplyErrors(items, errors[..i]).0
  {
    assert errors == errors[..i] + errors[i..];
    ApplyErrorsAppend(items, errors[..i], errors[i..]);
  }

  /** A batch in which HubSpot knows none of the contacts: one not-found
      error listing every key turns every entry into `create`. */
  lemma AllNotFoundCreatesAll(m: ContactsUpsertMap, resp: ContactBatchResponse, k: string)
    requires m.Valid()
    requires resp.results == [] && ErrorsExamined(resp)
    requires |resp.errors.value| == 1 && IsNotFound(resp.errors.value[0]) && resp.errors.value[0].ids == m.keys
    requires k in m.items
    ensures ApplyReadResponse(m.keys, m.items, resp).1 == Pass
    ensures ApplyReadResponse(m.keys, m.items, resp).0[k] == m.items[k].(action := Create)
  {
    NotFoundMarksCreate(m.items, resp.errors.value, k);
    assert k in resp.errors.value[0].ids;
  }

  /** The inner loop of `updateActionsForBatchedContacts` over one not-found
      error's `context.ids`. */
  method MarkIdsAsCreate(ids: seq<string>, m: ContactsUpsertMap) returns (outcome: Outcome<ReconcileError>)
    requires m.Valid()
    modifies m
    ensures m.Valid() && m.keys == old(m.keys)
    ensures (m.items, outcome) == MarkCreate(old(m.items), ids)
  {
    var j := 0;
    while j < |ids|
      invariant 0 <= j <= |ids|
      invariant m.Valid() && m.keys == old(m.keys)
      invariant MarkCreate(m.items, ids[j..]) == MarkCreate(old(m.items), ids)
    {
      var id := ids[j];
      assert ids[j..][0] == id && ids[j..][1..] == ids[j + 1..];
      if id !in m.items {
        return Fail(MissingContact(id));
      }
      m.Put(id, m.items[id].(action := Create));
      j := j + 1;
    }
    outcome := Pass;
  }

  /** `updateActionsForBatchedContacts`: the map is changed in place, so a
      throw leaves the changes made before it. */
  method UpdateActionsForBatchedContacts(readResponse: ContactBatchResponse, m: ContactsUpsertMap) returns (outcome: Outcome<ReconcileError>)
    requires m.Valid()
    modifies m
    ensures m.Valid() && m.keys == old(m.keys)
    ensures (m.items, outcome) == ApplyReadResponse(old(m.keys), old(m.items), readResponse)
  {
    if |readResponse.results| > 0 {
      CreatePayloadToUpdateContact(readResponse, m);
    }
    ghost var afterResults := m.items;
    outcome := Pass;
    if ErrorsExamined(readResponse) {
      var errors := readResponse.errors.value;
      var i := 0;
      while i < |errors|
        invariant 0 <= i <= |errors|
        invariant m.Valid() && m.keys == old(m.keys)
        invariant outcome == Pass
        invariant ApplyErrors(m.items, errors[i..]) == ApplyErrors(afterResults, errors)
      {
        var error := errors[i];
        assert errors[i..][0] == error && errors[i..][1..] == errors[i + 1..];
        if IsNotFound(error) {
          outcome := MarkIdsAsCreate(error.ids, m);
          if outcome.Fail? {
            return;
          }
        } else {
          outcome := Fail(Integration(IntegrationError(error.message, error.category, 400)));
          return;
        }
        i := i + 1;
      }
      assert errors[i..] == [];
    }
  }

  // ---------------------------------------------------------------------
  // checkAndRetryUpdatingLifecycleStage

  /** `Object.keys(contactsUpsertMap).find(key => contactsUpsertMap[key].payload.id == id)`. */
  function KeyForId(keys: seq<string>, items: map<string, UpsertItem>, id: string): (k: Option<string>)
    ensures k.Some? ==> k.value in keys && k.value in items && items[k.value].id == Some(id)
    ensures k.Some? ==>
      exists i :: 0 <= i < |keys| && keys[i] == k.value &&
        forall j :: 0 <= j < i ==> !(keys[j] in items && items[keys[j]].id == Some(id))
    ensures k.None? ==> forall key :: key in keys && key in items ==> items[key].id != Some(id)
  {
    Find(keys, key => key in items && items[key].id == Some(id))
  }

  /** The stage the entry matched by an update result wants; `None` when no
      entry matches, when the matched key is falsy, or when it wants none. */
  function DesiredStage(keys: seq<string>, items: map<string, UpsertItem>, r: ContactResponse): (d: Option<string>)
    ensures d.Some? ==> KeyForId(keys, items, r.id).Some? && KeyForId(keys, items, r.id).value != ""
    ensures d.Some? ==> var k := KeyForId(keys, items, r.id).value;
      "lifecyclestage" in items[k].properties && items[k].properties["lifecyclestage"] == d
    ensures var key := KeyForId(keys, items, r.id);
      key.Some? && key.value != "" && "lifecyclestage" in items[key.value].properties ==>
        d == items[key.value].properties["lifecyclestage"]
    ensures var key := KeyForId(keys, items, r.id);
      !(key.Some? && key.value != "" && "lifecyclestage" in items[key.value].properties) ==> d == None
  {
    match KeyForId(keys, items, r.id)
    case Some(k) =>
      if k != "" && "lifecyclestage" in items[k].properties then items[k].properties["lifecyclestage"] else None
    case None => None
  }

  /** `desiredLifeCycleStage && desiredLifeCycleStage !== currentLifeCycleStage`. */
  predicate NeedsStageRetry(desired: Option<string>, current: Nullable<string>)
    ensures NeedsStageRetry(desired, current) ==> desired.Some? && desired.value != ""
    ensures desired.Some? && current == Defined(desired.value) ==> !NeedsStageRetry(desired, current)
  {
    desired.Some? && desired.value != "" && current != Defined(desired.value)
  }

  /** A contact whose lifecycle stage must be reset and set again. */
  datatype StageFix = StageFix(id: string, stage: string)

  /** The contacts of the update results, in result order, whose stage did not take. */
  function StageFixes(keys: seq<string>, items: map<string, UpsertItem>, rs: seq<ContactResponse>): (fixes: seq<StageFix>)
    ensures |fixes| <= |rs|
    ensures forall i :: 0 <= i < |fixes| ==> fixes[i].stage != ""
    decreases |rs|
  {
    if rs == [] then []
    else
      var prev := StageFixes(keys, items, rs[..|rs| - 1]);
      var r := rs[|rs| - 1];
      var desired := DesiredStage(keys, items, r);
      if NeedsStageRetry(desired, Get(r.properties, "lifecyclestage")) then prev + [StageFix(r.id, desired.value)]
      else prev
  }

  /** A contact is corrected exactly when some update result carries its id,
      its entry wants a non-empty stage and the echoed stage differs. */
  lemma {:induction false} StageFixesExact(keys: seq<string>, items: map<string, UpsertItem>, rs: seq<ContactResponse>, fix: StageFix)
    ensures fix in StageFixes(keys, items, rs) <==>
      exists j :: 0 <= j < |rs| && rs[j].id == fix.id && DesiredStage(keys, items, rs[j]) == Some(fix.stage) &&
        NeedsStageRetry(Some(fix.stage), Get(rs[j].properties, "lifecyclestage"))
    decreases |rs|
  {
    if rs != [] {
      var prefix := rs[..|rs| - 1];
      StageFixesExact(keys, items, prefix, fix);
      forall j | 0 <= j < |prefix|
        ensures prefix[j] == rs[j]
      {
      }
    }
  }

  /** `resetLifeCycleStagePayload`: each contact's stage set to `''`. */
  function ResetPayload(fixes: seq<StageFix>): (inputs: seq<UpdateInput>)
    ensures |inputs| == |fixes|
    ensures forall i :: 0 <= i < |fixes| ==> inputs[i] == UpdateInput(fixes[i].id, map["lifecyclestage" := Some("")])
  {
    seq(|fixes|, i requires 0 <= i < |fixes| => UpdateInput(fixes[i].id, map["lifecyclestage" := Some("")]))
  }

  /** `retryLifeCycleStagePayload`: each contact's desired stage again. */
  function RetryPayload(fixes: seq<StageFix>): (inputs: seq<UpdateInput>)
    ensures |inputs| == |fixes|
    ensures forall i :: 0 <= i < |fixes| ==> inputs[i] == UpdateInput(fixes[i].id, map["lifecyclestage" := Some(fixes[i].stage)])
  {
    seq(|fixes|, i requires 0 <= i < |fixes| => UpdateInput(fixes[i].id, map["lifecyclestage" := Some(fixes[i].stage)]))
  }

  /** The reset and retry lists pair up: same length, same ids in the same
      order, `''` against a non-empty desired stage. */
  lemma ResetRetryPaired(fixes: seq<StageFix>)
    requires forall j :: 0 <= j < |fixes| ==> fixes[j].stage != ""
    ensures |ResetPayload(fixes)| == |RetryPayload(fixes)|
    ensures forall i :: 0 <= i < |fixes| ==>
      && ResetPayload(fixes)[i].id == RetryPayload(fixes)[i].id
      && ResetPayload(fixes)[i].properties["lifecyclestage"] == Some("")
      && RetryPayload(fixes)[i].properties["lifecyclestage"] != Some("")
  {
  }

  /** One more update result adds at most its own fix. */
  lemma StageFixesStep(keys: seq<string>, items: map<string, UpsertItem>, rs: seq<ContactResponse>, i: nat)
    requires i < |rs|
    ensures var desired := DesiredStage(keys, items, rs[i]);
      StageFixes(keys, items, rs[..i + 1]) ==
        StageFixes(keys, items, rs[..i]) +
          if NeedsStageRetry(desired, Get(rs[i].properties, "lifecyclestage")) then [StageFix(rs[i].id, desired.value)] else []
  {
    assert rs[..i + 1][..i] == rs[..i];
  }

  /** Both payloads grow by one input for one more fix. */
  lemma PayloadsAppend(fixes: seq<StageFix>, f: StageFix)
    ensures ResetPayload(fixes + [f]) == ResetPayload(fixes) + [UpdateInput(f.id, map["lifecyclestage" := Some("")])]
    ensures RetryPayload(fixes + [f]) == RetryPayload(fixes) + [UpdateInput(f.id, map["lifecyclestage" := Some(f.stage)])]
  {
  }

  /** The loop of `checkAndRetryUpdatingLifecycleStage` that fills the two lists. */
  method LifecycleStagePayloads(updateResults: seq<ContactResponse>, m: ContactsUpsertMap)
    returns (reset: seq<UpdateInput>, retry: seq<UpdateInput>)
    ensures reset == ResetPayload(StageFixes(m.keys, m.items, updateResults))
    ensures retry == RetryPayload(StageFixes(m.keys, m.items, updateResults))
  {
    reset, retry := [], [];
    for i := 0 to |updateResults|
      invariant reset == ResetPayload(StageFixes(m.keys, m.items, updateResults[..i]))
      invariant retry == RetryPayload(StageFixes(m.keys, m.items, updateResults[..i]))
    {
      var result := updateResults[i];
      StageFixesStep(m.keys, m.items, updateResults, i);
      var key := KeyForId(m.keys, m.items, result.id);
      var desired: Option<string> := None;
      if key.Some? && key.value != "" && "lifecyclestage" in m.items[key.value].properties {
        desired := m.items[key.value].properties["lifecyclestage"];
      }
      var current := Get(result.properties, "lifecyclestage");
      assert desired == DesiredStage(m.keys, m.items, result);
      if desired.Some? && desired.value != "" && current != Defined(desired.value) {
        PayloadsAppend(StageFixes(m.keys, m.items, updateResults[..i]), StageFix(result.id, desired.value));
        reset := reset + [UpdateInput(result.id, map["lifecyclestage" := Some("")])];
        retry := retry + [UpdateInput(result.id, map["lifecyclestage" := Some(desired.value)])];
      }
    }
    assert updateResults[..|updateResults|] == updateResults;
  }

  /** The follow-up calls and their outcome: none for an empty retry list,
      otherwise the reset batch, then — if it succeeded — the retry batch. */
  function RetryCalls(fixes: seq<StageFix>, script: seq<Reply<ContactBatchResponse>>): (r: (seq<BatchCall>, Outcome<RequestError>))
    ensures |r.0| <= 2
    ensures forall i :: 0 <= i < |r.0| ==> r.0[i].UpdateBatch? && |r.0[i].updates| == |fixes|
  {
    if |fixes| == 0 then ([], Pass)
    else
      var reset := UpdateBatch(ResetPayload(fixes));
      match NextReply(script)
      case Failed(e) => ([reset], Fail(e))
      case Ok(_) =>
        var retry := UpdateBatch(RetryPayload(fixes));
        match NextReply(Drop(script, 1))
        case Failed(e) => ([reset, retry], Fail(e))
        case Ok(_) => ([reset, retry], Pass)
  }

  /** At most two follow-up calls, reset before retry; no call without a
      contact to correct, and the retry is only sent after a successful reset. */
  lemma RetryCallsOrder(fixes: seq<StageFix>, script: seq<Reply<ContactBatchResponse>>)
    ensures var (calls, outcome) := RetryCalls(fixes, script);
      && |calls| <= 2
      && (calls == [] <==> fixes == [])
      && (|calls| >= 1 ==> calls[0] == UpdateBatch(ResetPayload(fixes)))
      && (|calls| == 2 <==> fixes != [] && NextReply(script).Ok?)
      && (|calls| == 2 ==> calls[1] == UpdateBatch(RetryPayload(fixes)))
      && (outcome.Pass? <==> fixes == [] || (NextReply(script).Ok? && NextReply(Drop(script, 1)).Ok?))
  {
  }

  /** `checkAndRetryUpdatingLifecycleStage`. */
  method CheckAndRetryUpdatingLifecycleStage(api: BatchApi, updateContactResponse: ContactBatchResponse, m: ContactsUpsertMap)
    returns (outcome: Outcome<RequestError>)
    modifies api
    ensures var (calls, o) := RetryCalls(StageFixes(m.keys, m.items, updateContactResponse.results), old(api.script));
      && api.calls == old(api.calls) + calls
      && api.script == Drop(old(api.script), |calls|)
      && outcome == o
  {
    var reset, retry := LifecycleStagePayloads(updateContactResponse.results, m);
    outcome := Pass;
    if |retry| > 0 {
      var resetReply := UpdateContactsBatch(api, reset);
      if resetReply.Failed? {
        outcome := Fail(resetReply.error);
        return;
      }
      var retryReply := UpdateContactsBatch(api, retry);
      if retryReply.Failed? {
        outcome := Fail(retryReply.error);
      }
    }
  }
}
