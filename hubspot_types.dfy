/** The HubSpot records shared by the batched and the single-contact upsert. */
module Hubspot {
  import opened Common
  import opened Text

  /** Contact properties sent to HubSpot: a field left `undefined` is `None`. */
  type Props = map<string, Option<string>>

  /** One resolved `upsertContact` payload. `email` holds the identifier value,
      whichever identifier type it belongs to. `properties` stands for
      `flattenObject(payload.properties)`: custom properties already flattened
      to strings. */
  datatype Payload = Payload(
    email: string,
    identifierType: Option<string>,
    company: Option<string>,
    firstname: Option<string>,
    lastname: Option<string>,
    phone: Option<string>,
    address: Option<string>,
    city: Option<string>,
    state: Option<string>,
    country: Option<string>,
    zip: Option<string>,
    website: Option<string>,
    lifecyclestage: Option<string>,
    properties: map<string, string>)

  /** A contact as HubSpot returns it: its id and the properties it echoes. */
  datatype ContactResponse = ContactResponse(id: string, properties: map<string, Nullable<string>>)

  /** The nine name and address fields that both request builders copy first. */
  const LeadingKeys: set<string> := {"company", "firstname", "lastname", "phone", "address", "city",
                                     "state", "country", "zip"}

  /** The leading fields of a payload, each under its own name. */
  function LeadingFields(p: Payload): (m: Props)
    ensures m.Keys == LeadingKeys
  {
    map["company" := p.company, "firstname" := p.firstname, "lastname" := p.lastname,
        "phone" := p.phone, "address" := p.address, "city" := p.city, "state" := p.state,
        "country" := p.country, "zip" := p.zip]
  }

  /** Each leading field carries the payload's value of the same name. */
  lemma LeadingFieldsValues(p: Payload)
    ensures var m := LeadingFields(p);
      && m["company"] == p.company && m["firstname"] == p.firstname && m["lastname"] == p.lastname
      && m["phone"] == p.phone && m["address"] == p.address && m["city"] == p.city
      && m["state"] == p.state && m["country"] == p.country && m["zip"] == p.zip
  {
  }

  /** `value?.toLowerCase()`. */
  function LowerOpt(value: Option<string>): (r: Option<string>)
    ensures r.None? <==> value.None?
    ensures value.Some? ==> r.value == Lower(value.value)
  {
    match value
    case None => None
    case Some(s) => Some(Lower(s))
  }

  /** The spread `...flattenObject(payload.properties)`: every value is defined. */
  function Spread(flat: map<string, string>): (r: Props)
    ensures r.Keys == flat.Keys
    ensures forall k :: k in flat ==> r[k] == Some(flat[k])
  {
    map k | k in flat :: Some(flat[k])
  }

  /** The truthiness test `if (payload.lifecyclestage)`. */
  predicate HasStage(value: Option<string>)
  {
    value.Some? && value.value != ""
  }
}
