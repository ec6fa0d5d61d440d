/** Pipedrive's copy of a payload's custom fields onto the entity about to be
    sent (`Object.assign` onto the entity object, in place). */
module Pipedrive {
  import opened Common

  /** `{ custom_fields?: { [k: string]: unknown } }`. */
  datatype PayloadWithCustomFields<V> = PayloadWithCustomFields(customFields: Nullable<map<string, V>>)

  /** The entity object whose own properties `Object.assign` overwrites. */
  class Entity<V> {
    var fields: map<string, V>

    constructor (fields: map<string, V>)
      ensures this.fields == fields
    {
      this.fields := fields;
    }
  }

  /** The entity's properties after the merge: without custom fields (an
      object is always truthy, so only `null` and `undefined` skip) nothing
      changes; otherwise every custom field is written over the entity. */
  function WithCustomFields<V>(fields: map<string, V>, payload: PayloadWithCustomFields<V>): (r: map<string, V>)
    ensures !payload.customFields.Defined? ==> r == fields
    ensures payload.customFields.Defined? ==>
      var custom := payload.customFields.value;
      && r.Keys == fields.Keys + custom.Keys
      && (forall k :: k in custom ==> r[k] == custom[k])
      && (forall k :: k in fields && k !in custom ==> r[k] == fields[k])
  {
    if !payload.customFields.Defined? then fields else fields + payload.customFields.value
  }

  /** Merging the same custom fields a second time changes nothing. */
  lemma WithCustomFieldsIdempotent<V>(fields: map<string, V>, payload: PayloadWithCustomFields<V>)
    ensures WithCustomFields(WithCustomFields(fields, payload), payload) == WithCustomFields(fields, payload)
  {
  }

  /** The merge only adds or overwrites: no property of the entity is removed. */
  lemma WithCustomFieldsKeepsKeys<V>(fields: map<string, V>, payload: PayloadWithCustomFields<V>)
    ensures fields.Keys <= WithCustomFields(fields, payload).Keys
  {
  }

  /** `addCustomFieldsFromPayloadToEntity`. */
  method AddCustomFieldsFromPayloadToEntity<V>(payload: PayloadWithCustomFields<V>, entity: Entity<V>)
    modifies entity
    ensures entity.fields == WithCustomFields(old(entity.fields), payload)
  {
    if !payload.customFields.Defined? {
      return;
    }
    entity.fields := entity.fields + payload.customFields.value;
  }
}
