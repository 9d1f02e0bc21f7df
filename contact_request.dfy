/** The `ContactRequest` document schema and the collection that stores its documents
    (backend/models/ContactRequest.js). */
module ContactRequestModel {
  import opened Wrappers
  import opened JsSemantics

  const NameMaxLength := 120
  const WhatsappMaxLength := 32
  const MessageMaxLength := 2000

  /** The four user-facing fields, as the contact route hands them to `create`. */
  datatype ContactFields = ContactFields(name: string, email: string, whatsapp: string, message: string)

  /** A stored document: the fields after the schema's setters, plus the identifier and the
      `timestamps` that the store assigns. The schema defines no other field. */
  datatype ContactRequest = ContactRequest(id: nat, fields: ContactFields, createdAt: int, updatedAt: int)

  /** One failed validator of the schema. */
  datatype SchemaError = NameRequired | NameTooLong | EmailRequired | WhatsappTooLong | MessageTooLong

  /** The schema's setters: every field is trimmed, the email is also lower-cased. */
  function Normalize(f: ContactFields): (r: ContactFields)
    ensures IsNormal(r)
    ensures |r.name| <= |f.name| && |r.email| <= |f.email|
    ensures |r.whatsapp| <= |f.whatsapp| && |r.message| <= |f.message|
  {
    ToLowerKeepsTrimmed(Trim(f.email));
    ContactFields(Trim(f.name), ToLower(Trim(f.email)), Trim(f.whatsapp), Trim(f.message))
  }

  /** What the setters guarantee of a document. */
  predicate IsNormal(f: ContactFields) {
    && IsTrimmed(f.name) && IsTrimmed(f.email) && IsTrimmed(f.whatsapp) && IsTrimmed(f.message)
    && forall k :: 0 <= k < |f.email| ==> !IsUpperAscii(f.email[k])
  }

  /** The validators: `name` and `email` required (a required string may not be empty), and
      the three `maxlength` bounds. */
  predicate Conforms(f: ContactFields) {
    && f.name != "" && |f.name| <= NameMaxLength
    && f.email != ""
    && |f.whatsapp| <= WhatsappMaxLength
    && |f.message| <= MessageMaxLength
  }

  /** Every failing validator of a document, in path order. */
  function Violations(f: ContactFields): (errs: seq<SchemaError>)
    ensures errs == [] <==> Conforms(f)
  {
    (if f.name == "" then [NameRequired] else []) +
    (if |f.name| > NameMaxLength then [NameTooLong] else []) +
    (if f.email == "" then [EmailRequired] else []) +
    (if |f.whatsapp| > WhatsappMaxLength then [WhatsappTooLong] else []) +
    (if |f.message| > MessageMaxLength then [MessageTooLong] else [])
  }

  /** Building a document as `create` does: the setters run, then every validator runs on the
      set values; the document is kept only when none fails. */
  function Cast(f: ContactFields): (r: Result<ContactFields, seq<SchemaError>>)
    ensures r.Ok? <==>
      && Trim(f.name) != "" && |Trim(f.name)| <= NameMaxLength
      && Trim(f.email) != ""
      && |Trim(f.whatsapp)| <= WhatsappMaxLength
      && |Trim(f.message)| <= MessageMaxLength
    ensures r.Ok? ==> IsNormal(r.value) && Conforms(r.value)
    ensures r.Ok? ==>
      && r.value.name == Trim(f.name) && r.value.email == ToLower(Trim(f.email))
      && r.value.whatsapp == Trim(f.whatsapp) && r.value.message == Trim(f.message)
    ensures r.Err? ==> r.error != []
  {
    var d := Normalize(f);
    var errs := Violations(d);
    if errs == [] then Ok(d) else Err(errs)
  }

  /** Normalising a normalised document changes nothing. */
  lemma NormalizeIdempotent(f: ContactFields)
    ensures Normalize(Normalize(f)) == Normalize(f)
  {
    TrimIdempotent(f.name);
    TrimIdempotent(f.whatsapp);
    TrimIdempotent(f.message);
    var e := Trim(f.email);
    TrimToLowerCommute(e);
    TrimIdempotent(f.email);
    ToLowerIdempotent(e);
  }

  /** A stored document passes the schema again unchanged, so saving it again would store
      the same values. */
  lemma CastIdempotent(f: ContactFields)
    requires Cast(f).Ok?
    ensures Cast(Cast(f).value) == Cast(f)
  {
    NormalizeIdempotent(f);
  }

  /** A document as it can exist in the collection. */
  predicate IsStoredDocument(d: ContactRequest) {
    IsNormal(d.fields) && Conforms(d.fields) && d.updatedAt == d.createdAt
  }

  /** What the collection keeps of its documents: each is numbered by its position and
      passed the schema. */
  predicate WellNumbered(s: seq<ContactRequest>) {
    forall i :: 0 <= i < |s| ==> s[i].id == i && IsStoredDocument(s[i])
  }

  /** Appending the next document keeps the numbering. */
  lemma AppendKeepsNumbering(s: seq<ContactRequest>, c: ContactRequest)
    requires WellNumbered(s) && c.id == |s| && IsStoredDocument(c)
    ensures WellNumbered(s + [c])
  {
    forall i | 0 <= i < |s| + 1 ensures (s + [c])[i].id == i && IsStoredDocument((s + [c])[i]) {
      if i < |s| { assert (s + [c])[i] == s[i]; }
    }
  }

  /** Why `create` failed: the schema rejected the document, or the database did not
      take the write. */
  datatype CreateError = Invalid(errors: seq<SchemaError>) | StoreUnavailable

  /** The collection of contact requests, in insertion order. Identifiers are assigned by
      the store; the model numbers documents in creation order. */
  class ContactCollection {
    var records: seq<ContactRequest>

    ghost predicate Valid()
      reads this
    {
      WellNumbered(records)
    }

    constructor ()
      ensures Valid() && records == []
    {
      records := [];
    }

    /** `ContactRequest.create(f)`. Validation runs first; `reachable` says whether the
        database then accepts the write. Creation is atomic: a failure stores nothing. */
    method Create(f: ContactFields, now: int, reachable: bool) returns (r: Result<ContactRequest, CreateError>)
      requires Valid()
      modifies this
      ensures Valid()
      ensures Cast(f).Err? ==> r == Err(Invalid(Cast(f).error)) && records == old(records)
      ensures Cast(f).Ok? && !reachable ==> r == Err(StoreUnavailable) && records == old(records)
      ensures Cast(f).Ok? && reachable ==>
        && r == Ok(ContactRequest(|old(records)|, Cast(f).value, now, now))
        && records == old(records) + [r.value]
    {
      var doc := Cast(f);
      if doc.Err? {
        return Err(Invalid(doc.error));
      }
      if !reachable {
        return Err(StoreUnavailable);
      }
      var c := ContactRequest(|records|, doc.value, now, now);
      AppendKeepsNumbering(records, c);
      records := records + [c];
      return Ok(c);
    }
  }
}
