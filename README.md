# Destination actions: HubSpot contact upsert, Snap and Pipedrive helpers, in Dafny

This project models four pieces of the destination adapters of a
customer-data routing platform and proves properties of them.

- **HubSpot batched upsert** (`hubspot/upsertContact/index.ts`). A batch of
  contact payloads becomes a map of pending upserts. The map is keyed by
  lower-cased email and kept in insertion order, as `Object.keys` lists it.
  A batch-read response decides, entry by entry, between `update` (with the
  HubSpot id) and `create`. After a batch update, a lifecycle stage that
  HubSpot refused to move backwards is corrected in two follow-up batch
  updates: one resets the stage to `''` and one sets it again. The map is a
  class (`UpsertContact.ContactsUpsertMap`) that the methods change in place,
  each loop being a Dafny loop. Each method is proved equal to a function
  over the old state, and the properties are lemmas about those functions.
- **HubSpot single-contact upsert** (`hubspot/hubspot-client.ts`). It builds
  one request body, tries an update by identifier, and creates the contact
  after a 404. A stage that did not take is reset and then sent again. The
  first successful id is cached as `contact_id` in the transaction context.
  `SingleContact.SingleUpsert` gives the exact sequence of calls, the
  `contact_id` writes and the result for any list of remote replies.
  `HubspotClient.CreateOrUpdateSingleContact` is proved to follow it.
- **Snap conversion helpers** (`snap-conversions-api/reportConversionEvent/utils.ts`).
  These are pure functions:
  - the null/undefined test, `box` and `emptyToUndefined`;
  - `isHashedEmail`, a scan proved equal to "64 consecutive hex characters
    somewhere";
  - the `;`-joined serialiser `transformProperty`, with its split round trip;
  - `hashEmailSafe`;
  - the two misconfigured-field error raisers.
- **Pipedrive** (`pipedrive/utils.ts`): `addCustomFieldsFromPayloadToEntity`
  as an in-place merge onto an entity object.

The remote API is a `Remote.ScriptedClient`. It records every request and
answers each one with the next reply of a script given up front. Once the
script is used up, every further request fails with no HTTP status.

JavaScript semantics are written out where the code depends on them:
- truthiness: `''`, `null`, `undefined` and `0` are falsy;
- the template literal `${v}` turns `undefined` and `null` into the strings
  `"undefined"` and `"null"`;
- `String(undefined)` is `"undefined"`;
- `split` of `''` gives `['']`;
- assigning into a missing map entry throws a `TypeError`
  (`UpsertContact.ReconcileError.MissingContact`);
- the final single-contact update is returned without `await`, so its
  rejection is not caught by the surrounding `catch`.

How failures behave in the code:
- The first read error that is not `OBJECT_NOT_FOUND` throws an
  `IntegrationError` for the whole batch. No per-record report is made.
- A 404 on a single-contact update leads straight to a create inside the
  same call. No later attempt is involved.
- An entry that no read result matches and no not-found error names keeps
  its action `'undefined'`. Nothing throws for it, and with no errors to
  examine the reconciliation passes (`UpsertContact.UnmatchedEntryUnchanged`,
  `UpsertContact.ApplyReadResponse`).

## Model

| member | source | states |
|---|---|---|
| Common.FindIndex | packages/destination-actions/src/destinations/hubspot/upsertContact/index.ts:394 | the index of the first element satisfying the predicate; no earlier element satisfies it; none is found exactly when no element satisfies it |
| Common.Find | packages/destination-actions/src/destinations/hubspot/upsertContact/index.ts:394 | `Array.prototype.find`: a found value is in the list, satisfies the predicate and sits at an index before which no element satisfies it; nothing is found exactly when no element does |
| Text.Lower | packages/destination-actions/src/destinations/hubspot/upsertContact/index.ts:287 | `toLowerCase` keeps the length and lower-cases each character (ASCII letters) |
| Text.LowerIdempotent | packages/destination-actions/src/destinations/hubspot/upsertContact/index.ts:287 | a lower-cased string has no upper-case letter, and lower-casing it again changes nothing |
| Text.Split | packages/destination-actions/src/destinations/hubspot/upsertContact/index.ts:393 | `split(s, ';')` yields at least one segment, and no segment contains the separator |
| Text.SplitJoin | packages/destination-actions/src/destinations/snap-conversions-api/reportConversionEvent/utils.ts:20-28 | splitting the join of at least one separator-free segment gives back exactly those segments |
| Text.JoinSplit | packages/destination-actions/src/destinations/hubspot/upsertContact/index.ts:393 | joining the segments of a split restores the original string |
| Text.Strip | packages/destination-actions/src/destinations/snap-conversions-api/reportConversionEvent/utils.ts:26 | `replace(/;/g, '')` leaves no `;` and keeps every other character with its multiplicity, so the length drops by the number of `;` |
| Text.StripAppend | packages/destination-actions/src/destinations/snap-conversions-api/reportConversionEvent/utils.ts:26 | removal works piecewise, `Strip(a + b) == Strip(a) + Strip(b)`, so the kept characters stay in their order |
| Text.StripOne | packages/destination-actions/src/destinations/snap-conversions-api/reportConversionEvent/utils.ts:26 | a single character is dropped when it is the removed one and kept otherwise |
| Text.StripAbsent | packages/destination-actions/src/destinations/snap-conversions-api/reportConversionEvent/utils.ts:26 | a string without `;` is left unchanged |
| Text.IntToString | packages/destination-actions/src/destinations/snap-conversions-api/reportConversionEvent/utils.ts:25 | `Number.prototype.toString` of an integer: digits only, a leading `-` exactly for negative numbers, and the digits read back as the number (`SignedValue(r) == n`) |
| Text.NatToString | packages/destination-actions/src/destinations/snap-conversions-api/reportConversionEvent/utils.ts:25 | the decimal digits of a natural number: non-empty, digits only, no leading zero for a positive number, and reading back as the number (`DecimalValue(r) == n`) |
| Text.Join | packages/destination-actions/src/destinations/snap-conversions-api/reportConversionEvent/utils.ts:28 | `join(';')`: no segments give `''`; the first segment starts the output; each later segment follows one separator after the join of the ones before |
| Remote.NextReply | packages/destination-actions/src/destinations/hubspot/upsertContact/index.ts:258-261 | a request receives the next scripted reply; an exhausted script yields a failure without status |
| Remote.DropDrop | packages/destination-actions/src/destinations/hubspot/upsertContact/index.ts:376-379 | answering `a` and then `b` requests consumes the script exactly as answering `a + b` |
| Remote.Drop | packages/destination-actions/src/destinations/hubspot/upsertContact/index.ts:258-261 | consuming `n` replies drops exactly the first `n` of the script, or all of them when fewer remain |
| Remote.ScriptedClient.Request | packages/destination-actions/src/destinations/hubspot/upsertContact/index.ts:258-261 | each request is appended to the call log, answered by the next reply, and consumes it |
| Common.Get | packages/destination-actions/src/destinations/hubspot/upsertContact/index.ts:355 | reading a property that the object omits gives `undefined`, a present one gives its value |
| Hubspot.LowerOpt | packages/destination-actions/src/destinations/hubspot/upsertContact/index.ts:305 | `value?.toLowerCase()`: undefined stays undefined, a string is lower-cased |
| Hubspot.Spread | packages/destination-actions/src/destinations/hubspot/upsertContact/index.ts:306 | the spread of flattened custom properties defines exactly their keys, with their values |
| UpsertContact.ContactsUpsertMap.Put | packages/destination-actions/src/destinations/hubspot/upsertContact/index.ts:287-309 | storing an entry keeps keys distinct and in step with the entries; a new key goes last, and an existing key keeps its place |
| UpsertContact.ContactProperties | packages/destination-actions/src/destinations/hubspot/upsertContact/index.ts:293-307 | the stored properties have the twelve standard keys plus the custom keys, and every custom property overrides the standard field of its name |
| UpsertContact.StandardFields | packages/destination-actions/src/destinations/hubspot/upsertContact/index.ts:293-305 | the fields before the spread have exactly the nine leading keys plus `email`, `website` and `lifecyclestage` |
| UpsertContact.ContactPropertiesFields | packages/destination-actions/src/destinations/hubspot/upsertContact/index.ts:293-306 | where no custom property overrides it, each of the nine leading fields keeps its `LeadingFields` value, which is the payload value of its name (`Hubspot.LeadingFieldsValues`), `email` and `lifecyclestage` are lower-cased and `website` is kept |
| UpsertContact.Mapped | packages/destination-actions/src/destinations/hubspot/upsertContact/index.ts:285-310 | every entry starts with action `'undefined'` and no id, and there are at most as many entries as payloads |
| UpsertContact.KeyOrder | packages/destination-actions/src/destinations/hubspot/upsertContact/index.ts:285-287 | the key order lists each entry's key exactly once |
| UpsertContact.KeyOrderPrefix | packages/destination-actions/src/destinations/hubspot/upsertContact/index.ts:285-287 | later payloads only append keys: the key order of any prefix of the payloads is a prefix of the final order |
| UpsertContact.FirstOccurrenceOrder | packages/destination-actions/src/destinations/hubspot/upsertContact/index.ts:285-287 | keys follow first occurrence: a payload whose identifier is new takes the place right after every key seen before it |
| UpsertContact.MappedKeys | packages/destination-actions/src/destinations/hubspot/upsertContact/index.ts:286-287 | a string is a key exactly when it is the lower-cased email of some payload |
| UpsertContact.MappedLastWins | packages/destination-actions/src/destinations/hubspot/upsertContact/index.ts:286-309 | payloads whose emails are equal ignoring case collapse into one entry, built from the last of them |
| UpsertContact.MapUpsertContactPayload | packages/destination-actions/src/destinations/hubspot/upsertContact/index.ts:282-313 | the loop builds a fresh, well-formed map whose keys and entries are those of `KeyOrder` and `Mapped` |
| UpsertContact.ReadRequest | packages/destination-actions/src/destinations/hubspot/upsertContact/index.ts:250-256 | the batch read asks by `idProperty` `'email'` for `email`, `lifecyclestage` and `hs_additional_emails`, with one input per email in order |
| UpsertContact.ReadContactsBatch | packages/destination-actions/src/destinations/hubspot/upsertContact/index.ts:249-262 | exactly one batch-read call with that body is made, and its reply is returned |
| UpsertContact.CreateContactsBatch | packages/destination-actions/src/destinations/hubspot/upsertContact/index.ts:264-271 | exactly one batch-create call with the given inputs is made, and its reply is returned |
| UpsertContact.UpdateContactsBatch | packages/destination-actions/src/destinations/hubspot/upsertContact/index.ts:273-280 | exactly one batch-update call with the given inputs is made, and its reply is returned |
| UpsertContact.TemplateString | packages/destination-actions/src/destinations/hubspot/upsertContact/index.ts:390 | the lookup key of `${result.properties.email}`: a defined string is used as is, undefined becomes `"undefined"` and null becomes `"null"` |
| UpsertContact.MatchedKey | packages/destination-actions/src/destinations/hubspot/upsertContact/index.ts:388-399 | a matched key is a non-empty existing key; a primary email that is a key wins (when truthy); otherwise the first key in key order found among the `;`-split additional emails wins; without truthy additional emails nothing matches |
| UpsertContact.ApplyResult | packages/destination-actions/src/destinations/hubspot/upsertContact/index.ts:399-404 | one read result: only the matched entry changes, to action `update` with the result's id; every other entry is kept and no key is added or removed |
| UpsertContact.ApplyResults | packages/destination-actions/src/destinations/hubspot/upsertContact/index.ts:387-405 | applying read results never adds or removes a key |
| UpsertContact.LastMatch | packages/destination-actions/src/destinations/hubspot/upsertContact/index.ts:387-404 | the last read result matching a key, and no later result matches it |
| UpsertContact.ApplyResultsLastMatch | packages/destination-actions/src/destinations/hubspot/upsertContact/index.ts:387-404 | an entry no result matched is unchanged; a matched entry becomes `update` with the id of the last result matching it, and its properties are untouched |
| UpsertContact.ApplyResultsIdempotent | packages/destination-actions/src/destinations/hubspot/upsertContact/index.ts:387-404 | applying the same read results twice gives the same map as applying them once |
| UpsertContact.CreatePayloadToUpdateContact | packages/destination-actions/src/destinations/hubspot/upsertContact/index.ts:383-407 | the loop leaves the key order unchanged and the entries equal to `ApplyResults` over the read results |
| UpsertContact.FirstMissing | packages/destination-actions/src/destinations/hubspot/upsertContact/index.ts:331-333 | the length of the leading run of ids that are keys |
| UpsertContact.MarkCreate | packages/destination-actions/src/destinations/hubspot/upsertContact/index.ts:331-334 | marking ids as `create` never adds or removes a key |
| UpsertContact.MarkCreateEffect | packages/destination-actions/src/destinations/hubspot/upsertContact/index.ts:331-334 | the ids before the first missing one become `create`, and nothing else changes; it throws exactly when some id is not a key, naming the first such id |
| UpsertContact.ApplyErrors | packages/destination-actions/src/destinations/hubspot/upsertContact/index.ts:327-339 | processing errors never adds or removes a key |
| UpsertContact.ApplyReadResponse | packages/destination-actions/src/destinations/hubspot/upsertContact/index.ts:315-342 | reconciling a read response (results first, then errors when examined) never adds or removes a key; with no errors to examine it passes, and with no results either the map is unchanged |
| UpsertContact.ErrorsExamined | packages/destination-actions/src/destinations/hubspot/upsertContact/index.ts:327 | errors are examined only when an error list is present, and never when `numErrors` is missing or 0 |
| UpsertContact.IsNotFound | packages/destination-actions/src/destinations/hubspot/upsertContact/index.ts:329 | an error handled as not-found has status `error` and category `OBJECT_NOT_FOUND`; every other error takes the throwing branch |
| UpsertContact.ErrorMarks | packages/destination-actions/src/destinations/hubspot/upsertContact/index.ts:328-338 | which ids the error loop marks `create` and where it throws, from the key set alone: every marked id is named by some error |
| UpsertContact.ApplyErrorsMarks | packages/destination-actions/src/destinations/hubspot/upsertContact/index.ts:328-338 | the error loop marks exactly the ids of `ErrorMarks` as `create`, leaves every other entry, and ends with its outcome |
| UpsertContact.UnmatchedEntryUnchanged | packages/destination-actions/src/destinations/hubspot/upsertContact/index.ts:315-342 | an entry that no read result matches and no error names comes out unchanged, so it keeps action `'undefined'`, whether or not the reconciliation throws |
| UpsertContact.ReconcileIdempotent | packages/destination-actions/src/destinations/hubspot/upsertContact/index.ts:315-342 | reconciling the same read response twice gives the same map and the same outcome as reconciling it once |
| UpsertContact.ApplyErrorsAppend | packages/destination-actions/src/destinations/hubspot/upsertContact/index.ts:328-339 | after a passing prefix of errors, the rest is processed from the map that prefix left |
| UpsertContact.NotFoundMarksCreate | packages/destination-actions/src/destinations/hubspot/upsertContact/index.ts:329-334 | with only not-found errors whose ids are keys, nothing throws, and exactly the listed entries become `create` |
| UpsertContact.FatalErrorThrows | packages/destination-actions/src/destinations/hubspot/upsertContact/index.ts:335-338 | the first error that is not a not-found error throws `IntegrationError(message, category, 400)`, and the `create` marks made before it persist |
| UpsertContact.AllNotFoundCreatesAll | packages/destination-actions/src/destinations/hubspot/upsertContact/index.ts:321-334 | a response without results and with one not-found error listing every key turns every entry into `create` |
| UpsertContact.MarkIdsAsCreate | packages/destination-actions/src/destinations/hubspot/upsertContact/index.ts:331-334 | the inner loop leaves the map and the outcome equal to `MarkCreate` |
| UpsertContact.UpdateActionsForBatchedContacts | packages/destination-actions/src/destinations/hubspot/upsertContact/index.ts:315-342 | the map changed in place and the outcome equal `ApplyReadResponse` on the old map, including what earlier steps changed before a throw |
| UpsertContact.KeyForId | packages/destination-actions/src/destinations/hubspot/upsertContact/index.ts:353 | a found key is the first key in key order whose entry carries the result's id; none is found exactly when no entry carries it |
| UpsertContact.DesiredStage | packages/destination-actions/src/destinations/hubspot/upsertContact/index.ts:354 | a desired stage exists exactly for a non-empty matched key whose entry stores a `lifecyclestage`, and it is that stored value; otherwise there is none |
| UpsertContact.NeedsStageRetry | packages/destination-actions/src/destinations/hubspot/upsertContact/index.ts:357 | a correction is needed only for a non-empty desired stage, and never when the echoed stage equals it |
| UpsertContact.StageFixes | packages/destination-actions/src/destinations/hubspot/upsertContact/index.ts:352-372 | at most one correction per update result, always with a non-empty stage |
| UpsertContact.StageFixesExact | packages/destination-actions/src/destinations/hubspot/upsertContact/index.ts:352-371 | a contact is corrected exactly when some update result carries its id, its entry wants a non-empty stage, and the echoed stage differs |
| UpsertContact.StageFixesStep | packages/destination-actions/src/destinations/hubspot/upsertContact/index.ts:352-371 | one more update result adds at most its own correction, at the end |
| UpsertContact.ResetPayload | packages/destination-actions/src/destinations/hubspot/upsertContact/index.ts:358-363 | one reset input per correction, in order, with the same id and `lifecyclestage: ''` |
| UpsertContact.RetryPayload | packages/destination-actions/src/destinations/hubspot/upsertContact/index.ts:365-370 | one retry input per correction, in order, with the same id and the desired stage |
| UpsertContact.ResetRetryPaired | packages/destination-actions/src/destinations/hubspot/upsertContact/index.ts:357-370 | the reset and retry lists have equal length and the same ids at each position; resets carry `''` and retries a non-empty stage |
| UpsertContact.LifecycleStagePayloads | packages/destination-actions/src/destinations/hubspot/upsertContact/index.ts:349-372 | the loop builds exactly the reset and retry payloads of `StageFixes` over the update results |
| UpsertContact.RetryCallsOrder | packages/destination-actions/src/destinations/hubspot/upsertContact/index.ts:373-380 | at most two follow-up calls; none exactly when nothing needs correcting; the reset comes first, and the retry only after a successful reset; it passes exactly when every call made succeeded |
| UpsertContact.RetryCalls | packages/destination-actions/src/destinations/hubspot/upsertContact/index.ts:373-380 | at most two follow-up calls, each a batch update with one input per contact to correct |
| UpsertContact.CheckAndRetryUpdatingLifecycleStage | packages/destination-actions/src/destinations/hubspot/upsertContact/index.ts:343-381 | the calls made, the script consumed and the outcome are those of `RetryCalls` on the contacts to correct |
| SingleContact.TransactionContext.SetTransaction | packages/destination-actions/src/destinations/hubspot/hubspot-client.ts:90 | `setTransaction` writes one key of the transaction map |
| SingleContact.IdentifierType | packages/destination-actions/src/destinations/hubspot/hubspot-client.ts:52 | the identifier type is `'email'` unless the payload names one |
| Hubspot.LeadingFields | packages/destination-actions/src/destinations/hubspot/hubspot-client.ts:41-51 | the nine name and address fields that come first in the literal, under exactly those nine keys |
| Hubspot.LeadingFieldsValues | packages/destination-actions/src/destinations/hubspot/hubspot-client.ts:43-51 | each of the nine leading fields carries the payload value of the same name |
| SingleContact.BuildSingleContactRequestBody | packages/destination-actions/src/destinations/hubspot/hubspot-client.ts:41-57 | the body's keys are the nine leading fields, the identifier type, `website`, `lifecyclestage` and the custom keys; every custom property overrides the field of its name |
| SingleContact.RequestBodyFields | packages/destination-actions/src/destinations/hubspot/hubspot-client.ts:42-56 | unless overridden, the identifier value sits under the identifier type's key, the stage is lower-cased and `website` is kept; `email` is sent exactly when it is the identifier type or a custom property |
| SingleContact.RequestBodyLeadingFields | packages/destination-actions/src/destinations/hubspot/hubspot-client.ts:42-55 | every leading field that neither the identifier key nor a custom property replaces is sent with its `LeadingFields` value, the payload value of its name |
| SingleContact.Prepend | packages/destination-actions/src/destinations/hubspot/hubspot-client.ts:85-115 | earlier calls before a later trace keep that trace's result and add up in number |
| SingleContact.Recover | packages/destination-actions/src/destinations/hubspot/hubspot-client.ts:107-115 | the `catch`: a non-404 error is rethrown with no call; a 404 leads to one create with the same body, answered by the next reply; an id is cached exactly for a successful create |
| SingleContact.StageRetry | packages/destination-actions/src/destinations/hubspot/hubspot-client.ts:101-104 | the correction sends the body with the stage reset to `''` first, then one more call (the original update, or a create after a 404); after an accepted reset the final reply is returned and nothing is cached |
| SingleContact.Accepted | packages/destination-actions/src/destinations/hubspot/hubspot-client.ts:90-105 | after an accepted update its id is cached first; with no stage to set, or the stage echoed as wanted, its response is returned with no further call; otherwise the first further call is the reset |
| SingleContact.Protocol | packages/destination-actions/src/destinations/hubspot/hubspot-client.ts:85-115 | one to three calls, the first the update by identifier; with no stage at most two; a successful update caches its id first; any other error of the update is rethrown after it alone |
| SingleContact.ProtocolCalls | packages/destination-actions/src/destinations/hubspot/hubspot-client.ts:85-115 | every call of the protocol is well addressed, and with no stage to set every call carries the unchanged body |
| SingleContact.SingleUpsert | packages/destination-actions/src/destinations/hubspot/hubspot-client.ts:81-116 | for a payload: every call carries the built body or that body with the stage reset, every update is addressed by the payload's email and identifier type, and without a stage every call carries the built body |
| SingleContact.Recorded | packages/destination-actions/src/destinations/hubspot/hubspot-client.ts:90 | the transaction map after caching ids holds the last cached id as `contact_id` and is unchanged when none was cached |
| SingleContact.RecordedAppend | packages/destination-actions/src/destinations/hubspot/hubspot-client.ts:111 | caching ids in two rounds is caching them all at once |
| SingleContact.FirstCallIsUpdate | packages/destination-actions/src/destinations/hubspot/hubspot-client.ts:86-87 | the first call is always an update addressed by the identifier value, with `idProperty` the identifier type (`'email'` by default) |
| SingleContact.UpdateAccepted | packages/destination-actions/src/destinations/hubspot/hubspot-client.ts:87-106 | a successful update caches its id first; with no stage to set, or with the stage echoed as wanted, it is the only call and its response is returned |
| SingleContact.StageMismatchResetsThenRetries | packages/destination-actions/src/destinations/hubspot/hubspot-client.ts:97-104 | on a stage mismatch the same body is sent with the stage reset to `''`, then once more unchanged, and the last reply is returned as is |
| SingleContact.NotFoundCreates | packages/destination-actions/src/destinations/hubspot/hubspot-client.ts:107-112 | a 404 on the first update leads to exactly one create with the same body; its id is cached when it succeeds |
| SingleContact.ResetNotFoundCreates | packages/destination-actions/src/destinations/hubspot/hubspot-client.ts:102-112 | a 404 on the awaited reset also leads to one create with the same body, whose id is cached after the first one |
| SingleContact.OtherErrorRethrown | packages/destination-actions/src/destinations/hubspot/hubspot-client.ts:108-114 | any other error of the first update is rethrown, with no create and no cached id |
| SingleContact.CallShape | packages/destination-actions/src/destinations/hubspot/hubspot-client.ts:81-116 | one to three calls; a create only as the last call; at most two cached ids; a success always caches an id |
| SingleContact.HubspotClient.UpdateSingleContact | packages/destination-actions/src/destinations/hubspot/hubspot-client.ts:59-69 | exactly one update call addressed by identifier value and type, answered by the next reply |
| SingleContact.HubspotClient.CreateSingleContact | packages/destination-actions/src/destinations/hubspot/hubspot-client.ts:71-79 | exactly one create call with the body, answered by the next reply |
| SingleContact.HubspotClient.CreateOrUpdateSingleContact | packages/destination-actions/src/destinations/hubspot/hubspot-client.ts:81-116 | the calls made, the script consumed, the result and the transaction map are exactly those of `SingleUpsert` |
| SingleContact.HubspotClient.UpsertWithBody | packages/destination-actions/src/destinations/hubspot/hubspot-client.ts:85-115 | after the body is built: calls, result and cached ids are those of `Protocol` |
| SingleContact.HubspotClient.HandleAcceptedUpdate | packages/destination-actions/src/destinations/hubspot/hubspot-client.ts:90-105 | after an accepted update: the id cached, then calls, result and cached ids are those of `Accepted` |
| SingleContact.HubspotClient.RetryLifecycleStage | packages/destination-actions/src/destinations/hubspot/hubspot-client.ts:101-104 | the reset and the un-awaited final update follow `StageRetry`, and a failed reset goes to the `catch` |
| SingleContact.HubspotClient.CatchUpdateFailure | packages/destination-actions/src/destinations/hubspot/hubspot-client.ts:107-115 | the `catch` follows `Recover`: a create after a 404, its id cached, otherwise the error rethrown |
| SnapUtils.IsNullOrUndefined | packages/destination-actions/src/destinations/snap-conversions-api/reportConversionEvent/utils.ts:4 | holds exactly for `null` and `undefined` |
| SnapUtils.Box | packages/destination-actions/src/destinations/snap-conversions-api/reportConversionEvent/utils.ts:51 | `[v]` for a present value and `[]` exactly for null or undefined, so never more than one element |
| SnapUtils.ScanHex | packages/destination-actions/src/destinations/snap-conversions-api/reportConversionEvent/utils.ts:14 | a left-to-right scan that counts the current run of hex characters finds a run of 64 exactly when the string contains one |
| SnapUtils.IsHashedEmail | packages/destination-actions/src/destinations/snap-conversions-api/reportConversionEvent/utils.ts:14 | holds exactly when the string contains 64 consecutive characters of `[0-9a-fA-F]`, anywhere |
| SnapUtils.ShortIsNotHashed | packages/destination-actions/src/destinations/snap-conversions-api/reportConversionEvent/utils.ts:14 | a string shorter than 64 characters (such as `'undefined'`) is never taken for a hash |
| SnapUtils.HashedEmailEmbedded | packages/destination-actions/src/destinations/snap-conversions-api/reportConversionEvent/utils.ts:14 | the pattern is unanchored: text around a hash does not stop it matching |
| SnapUtils.Segment | packages/destination-actions/src/destinations/snap-conversions-api/reportConversionEvent/utils.ts:22-26 | an item's text never contains `;`; missing or null gives `''`; a number gives its decimal form; a string gives its characters other than `;` |
| SnapUtils.Segments | packages/destination-actions/src/destinations/snap-conversions-api/reportConversionEvent/utils.ts:20-27 | one segment per item, in item order |
| SnapUtils.TransformProperty | packages/destination-actions/src/destinations/snap-conversions-api/reportConversionEvent/utils.ts:16-28 | for a single item, the output is that item's segment with no separator |
| SnapUtils.TransformPropertySplit | packages/destination-actions/src/destinations/snap-conversions-api/reportConversionEvent/utils.ts:20-28 | splitting the output on `;` gives back exactly one sanitised segment per item; no items gives `''`, which splits to one empty segment |
| SnapUtils.PlainStringKept | packages/destination-actions/src/destinations/snap-conversions-api/reportConversionEvent/utils.ts:26 | a single string value without `;` passes through unchanged |
| SnapUtils.JsString | packages/destination-actions/src/destinations/snap-conversions-api/reportConversionEvent/utils.ts:31 | `String(email)` gives the string itself, and `'undefined'` for undefined |
| SnapUtils.Hash | packages/destination-actions/src/destinations/snap-conversions-api/reportConversionEvent/utils.ts:6-12 | undefined stays undefined; a string gives its digest |
| SnapUtils.HashEmailSafe | packages/destination-actions/src/destinations/snap-conversions-api/reportConversionEvent/utils.ts:30-31 | undefined stays undefined; an already hashed e-mail is returned unchanged; any other e-mail is replaced by its digest |
| SnapUtils.HashEmailSafeIdempotent | packages/destination-actions/src/destinations/snap-conversions-api/reportConversionEvent/utils.ts:30-31 | when the digest always looks hashed, a second safe hashing changes nothing |
| SnapUtils.EmptyToUndefined | packages/destination-actions/src/destinations/snap-conversions-api/reportConversionEvent/utils.ts:33-34 | `''` and undefined give undefined; every other value is kept |
| SnapUtils.EmptyToUndefinedIdempotent | packages/destination-actions/src/destinations/snap-conversions-api/reportConversionEvent/utils.ts:33-34 | applying it twice is applying it once, and it never yields `''` |
| SnapUtils.RaiseMisconfiguredRequiredFieldErrorIf | packages/destination-actions/src/destinations/snap-conversions-api/reportConversionEvent/utils.ts:36-40 | throws exactly when the condition holds, with code `'Misconfigured required field'` and status 400 |
| SnapUtils.RaiseMisconfiguredRequiredFieldErrorIfNullOrUndefined | packages/destination-actions/src/destinations/snap-conversions-api/reportConversionEvent/utils.ts:47-49 | throws exactly for null or undefined, with the same error; on success the value is present |
| Pipedrive.WithCustomFields | packages/destination-actions/src/destinations/pipedrive/utils.ts:3-8 | with no custom fields the entity is unchanged; otherwise its keys are the old keys plus the custom keys, each custom key takes its custom value, and other keys keep their old values |
| Pipedrive.WithCustomFieldsIdempotent | packages/destination-actions/src/destinations/pipedrive/utils.ts:7 | merging the same custom fields twice gives the same entity as merging once |
| Pipedrive.WithCustomFieldsKeepsKeys | packages/destination-actions/src/destinations/pipedrive/utils.ts:7 | no property of the entity is ever removed |
| Pipedrive.AddCustomFieldsFromPayloadToEntity | packages/destination-actions/src/destinations/pipedrive/utils.ts:3-8 | the entity's properties become exactly `WithCustomFields` of the old ones |

## Left out

- HTTP: URLs, methods and JSON encoding of the batch and single-contact
  endpoints. A request is a recorded call, a response is a scripted reply,
  and the HTTP status is a field of the error.
- A script that runs out yields a failure without status ("no response").
  The real system would wait on the network instead.
- The action's `perform` (hubspot/upsertContact/index.ts:223-232) is not
  modelled. It is debug code with hard-coded payloads, and it calls a client
  method that does not exist. The create/update list building it would feed
  exists only as commented-out code.
- The field catalogue and mapping defaults of the action (the `fields` block)
  are not modelled. The framework evaluates them, and they have no logic of
  their own.
- `flattenObject` (hubspot/utils) is not part of this model. A payload's
  `properties` field stands for its already-flattened output, a map from
  strings to strings.
- SHA-256 in `hash` is given as the function parameter `digest`.
- `SnapUtils.Segment` covers integer numbers only. Non-integer and
  exponent-notation `Number.toString` output involves floating point and is
  not modelled.
- `Text.Lower` lower-cases ASCII letters only, not the rest of Unicode.
- `Object.keys` order is modelled as insertion order. The JavaScript rule that
  integer-like keys come first is not modelled. Neither are keys inherited
  from the object prototype, such as `constructor`.
- `identifier_type` is modelled as present or absent. An explicit `null`,
  which `??` would also replace by `'email'` in the body, is not modelled.
- `Hubspot.LeadingFields`: its own contract only fixes the key set; the
  values are stated by `Hubspot.LeadingFieldsValues`, so that proofs about
  the map of payloads stay small.
- `SnapUtils.TransformProperty`: its own contract only covers the
  single-item case. The general statement is `SnapUtils.TransformPropertySplit`.
- `SingleContact.HubspotClient`: its `settings` field is not modelled, because
  none of the modelled code reads it.
- The transaction context is modelled only as the map written by
  `setTransaction`.
- Concurrency is not modelled. Every `await` is a sequential step.
