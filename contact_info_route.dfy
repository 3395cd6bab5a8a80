/** src/app/api/portfolio/contact-info/route.ts: the public read of the
    contact details and the guarded create-or-update. The availability string
    is checked against the schema's enumeration when the document is saved;
    a rejected value fails the save. */
module ContactInfoRoute {
  import opened JsValues
  import opened Http
  import opened Portfolio
  import Auth
  import Ordering

  /** The fields POST reads from `request.json()`. */
  datatype ContactInfoBody = ContactInfoBody(
    email: Option<string>,
    phone: Option<string>,
    location: Option<string>,
    linkedin: Option<string>,
    github: Option<string>,
    twitter: Option<string>,
    website: Option<string>,
    availability: Option<string>)

  const EmailRequiredMessage := "Email is required"

  function CreatedAt(c: ContactInfo): int {
    c.createdAt
  }

  /** The request carries an availability the schema's enumeration rejects. */
  predicate BadAvailability(b: ContactInfoBody) {
    Truthy(b.availability) && ParseAvailability(b.availability.value).None?
  }

  /** The stored record after an update: the email is overwritten and every
      other field keeps its stored value unless the request carries a truthy
      one (`phone || contactInfo.phone`, ...). */
  function Merge(o: ContactInfo, b: ContactInfoBody): (r: ContactInfo)
    requires Truthy(b.email) && !BadAvailability(b)
    ensures r.id == o.id && r.createdAt == o.createdAt && r.email == b.email.value
    ensures !Truthy(b.phone) ==> r.phone == o.phone
    ensures Truthy(b.phone) ==> r.phone == b.phone
    ensures !Truthy(b.location) ==> r.location == o.location
    ensures Truthy(b.location) ==> r.location == b.location
    ensures !Truthy(b.linkedin) ==> r.linkedin == o.linkedin
    ensures Truthy(b.linkedin) ==> r.linkedin == b.linkedin
    ensures !Truthy(b.github) ==> r.github == o.github
    ensures Truthy(b.github) ==> r.github == b.github
    ensures !Truthy(b.twitter) ==> r.twitter == o.twitter
    ensures Truthy(b.twitter) ==> r.twitter == b.twitter
    ensures !Truthy(b.website) ==> r.website == o.website
    ensures Truthy(b.website) ==> r.website == b.website
    ensures !Truthy(b.availability) ==> r.availability == o.availability
    ensures Truthy(b.availability) ==> AvailabilityName(r.availability) == b.availability.value
    ensures ContactInfoMeetsSchema(r)
  {
    var availability := OrElse(b.availability, AvailabilityName(o.availability));
    var parsed := ParseAvailability(availability);
    AvailabilityRoundTrip(o.availability);
    o.(email := b.email.value,
       phone := Or(b.phone, o.phone),
       location := Or(b.location, o.location),
       linkedin := Or(b.linkedin, o.linkedin),
       github := Or(b.github, o.github),
       twitter := Or(b.twitter, o.twitter),
       website := Or(b.website, o.website),
       availability := parsed.value)
  }

  /** The record a first POST creates: the fields as given, availability
      defaulting to Available. */
  function Create(b: ContactInfoBody, id: nat, now: int): (r: ContactInfo)
    requires Truthy(b.email) && !BadAvailability(b)
    ensures r.id == id && r.createdAt == now && r.email == b.email.value
    ensures r.phone == b.phone && r.location == b.location && r.linkedin == b.linkedin
    ensures r.github == b.github && r.twitter == b.twitter && r.website == b.website
    ensures !Truthy(b.availability) ==> r.availability == Available
    ensures Truthy(b.availability) ==> AvailabilityName(r.availability) == b.availability.value
    ensures ContactInfoMeetsSchema(r)
  {
    var parsed := ParseAvailability(OrElse(b.availability, DefaultAvailability));
    ContactInfo(id, b.email.value, b.phone, b.location, b.linkedin, b.github, b.twitter, b.website, parsed.value, now)
  }

  class ContactInfoStore {
    var docs: seq<ContactInfo>
    var nextId: nat

    ghost predicate Valid()
      reads this
    {
      forall i :: 0 <= i < |docs| ==> ContactInfoMeetsSchema(docs[i]) && docs[i].id < nextId
    }

    constructor ()
      ensures Valid() && docs == [] && nextId == 0
    {
      docs := [];
      nextId := 0;
    }

    /** GET: the record created last, or null when there is none. */
    method Get() returns (r: Option<ContactInfo>)
      ensures r.None? <==> docs == []
      ensures r.Some? ==> r.value in docs && forall c :: c in docs ==> c.createdAt <= r.value.createdAt
    {
      r := Ordering.Newest(docs, CreatedAt);
    }

    /** POST: guard, body, email, then update of the first stored record or
        creation of one; a save the schema rejects changes nothing. */
    method Post(req: Auth.Request, jwt: Auth.Jwt, body: Option<ContactInfoBody>, now: int)
      returns (reply: Reply<ContactInfo>)
      requires Valid()
      modifies this
      ensures Valid()
      ensures Auth.RequireAuth(req, jwt).Rejected? ==>
        reply == Error(401, UnauthorizedMessage) && docs == old(docs) && nextId == old(nextId)
      ensures Auth.RequireAuth(req, jwt).Authenticated? && body.None? ==>
        reply == Error(500, InternalErrorMessage) && docs == old(docs) && nextId == old(nextId)
      ensures Auth.RequireAuth(req, jwt).Authenticated? && body.Some? && !Truthy(body.value.email) ==>
        reply == Error(400, EmailRequiredMessage) && docs == old(docs) && nextId == old(nextId)
      ensures Auth.RequireAuth(req, jwt).Authenticated? && body.Some? && Truthy(body.value.email) && BadAvailability(body.value) ==>
        reply == Error(500, InternalErrorMessage) && docs == old(docs) && nextId == old(nextId)
      ensures Auth.RequireAuth(req, jwt).Authenticated? && body.Some? && Truthy(body.value.email) && !BadAvailability(body.value) ==>
        && reply.Ok? && reply.status == 200 && |docs| >= 1 && reply.value == docs[0]
        && (old(docs) != [] ==>
              |docs| == |old(docs)| && docs[1..] == old(docs)[1..] && nextId == old(nextId)
              && docs[0] == Merge(old(docs)[0], body.value))
        && (old(docs) == [] ==>
              docs == [Create(body.value, old(nextId), now)] && nextId == old(nextId) + 1)
    {
      if Auth.RequireAuth(req, jwt).Rejected? {
        return Error(401, UnauthorizedMessage);
      }
      if body.None? {
        return Error(500, InternalErrorMessage);
      }
      var b := body.value;
      if !Truthy(b.email) {
        return Error(400, EmailRequiredMessage);
      }
      if |docs| > 0 {
        var info := docs[0];
        info := info.(email := b.email.value);
        info := info.(phone := Or(b.phone, info.phone));
        info := info.(location := Or(b.location, info.location));
        info := info.(linkedin := Or(b.linkedin, info.linkedin));
        info := info.(github := Or(b.github, info.github));
        info := info.(twitter := Or(b.twitter, info.twitter));
        info := info.(website := Or(b.website, info.website));
        var availability := ParseAvailability(OrElse(b.availability, AvailabilityName(info.availability)));
        if availability.None? {
          // the save is rejected by the enumeration check
          return Error(500, InternalErrorMessage);
        }
        info := info.(availability := availability.value);
        assert info == Merge(docs[0], b);
        docs := docs[0 := info];
        reply := Ok(200, info);
      } else {
        var availability := ParseAvailability(OrElse(b.availability, DefaultAvailability));
        if availability.None? {
          return Error(500, InternalErrorMessage);
        }
        var info := ContactInfo(nextId, b.email.value, b.phone, b.location, b.linkedin, b.github, b.twitter,
                                b.website, availability.value, now);
        docs := [info];
        nextId := nextId + 1;
        reply := Ok(200, info);
      }
    }
  }
}
