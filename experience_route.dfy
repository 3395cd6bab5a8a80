/** src/app/api/portfolio/experience/route.ts: the public sorted listing and
    the guarded creation of an experience entry. Dates arrive as strings and
    are cast by the store; that cast is the parameter `castDate` (the date in
    milliseconds, or nothing when the string is not a date, which fails the
    save). An absent or empty `endDate` is stored as no date. */
module ExperienceRoute {
  import opened JsValues
  import opened Http
  import opened Portfolio
  import Auth
  import Ordering

  /** The fields POST reads from `request.json()`. */
  datatype ExperienceBody = ExperienceBody(
    company: Option<string>,
    position: Option<string>,
    location: Option<string>,
    startDate: Option<string>,
    endDate: Option<string>,
    current: Option<bool>,
    description: Option<string>,
    technologies: Option<seq<string>>,
    achievements: Option<seq<string>>,
    companyLogo: Option<string>,
    order: Option<int>)

  type DateCast = string -> Option<int>

  const RequiredMessage := "Company, position, start date, and description are required"

  predicate HasRequiredFields(b: ExperienceBody) {
    Truthy(b.company) && Truthy(b.position) && Truthy(b.startDate) && Truthy(b.description)
  }

  /** `sort({ order: 1, startDate: -1 })`: the later start comes first among
      entries with the same `order`. */
  function ExperienceKey(e: Experience): Ordering.Key {
    Ordering.Key(e.order, -e.startDate)
  }

  /** A date the store cannot cast fails the save. */
  predicate SchemaRejects(b: ExperienceBody, castDate: DateCast)
    requires Truthy(b.startDate)
  {
    castDate(b.startDate.value).None? || (Truthy(b.endDate) && castDate(b.endDate.value).None?)
  }

  /** The entry a valid request creates, with the defaults applied. */
  function NewExperience(b: ExperienceBody, castDate: DateCast, id: nat, now: int): (r: Experience)
    requires HasRequiredFields(b) && !SchemaRejects(b, castDate)
    ensures r.id == id && r.createdAt == now
    ensures r.company == b.company.value && r.position == b.position.value && r.description == b.description.value
    ensures r.location == b.location && r.companyLogo == b.companyLogo
    ensures castDate(b.startDate.value) == Some(r.startDate)
    ensures !Truthy(b.endDate) ==> r.endDate.None?
    ensures Truthy(b.endDate) ==> castDate(b.endDate.value) == r.endDate
    ensures r.current <==> b.current == Some(true)
    ensures b.technologies.None? ==> r.technologies == []
    ensures b.technologies.Some? ==> r.technologies == b.technologies.value
    ensures b.achievements.None? ==> r.achievements == []
    ensures b.achievements.Some? ==> r.achievements == b.achievements.value
    ensures b.order.None? || b.order == Some(0) ==> r.order == 0
    ensures b.order.Some? ==> r.order == b.order.value
    ensures ExperienceMeetsSchema(r)
  {
    var endDate := if Truthy(b.endDate) then castDate(b.endDate.value) else None;
    Experience(id, b.company.value, b.position.value, b.location, castDate(b.startDate.value).value, endDate,
               BoolOrFalse(b.current), b.description.value, ArrayOrEmpty(b.technologies),
               ArrayOrEmpty(b.achievements), b.companyLogo, NumberOr(b.order, DefaultOrder), now)
  }

  class ExperienceStore {
    var docs: seq<Experience>
    var nextId: nat

    ghost predicate Valid()
      reads this
    {
      && (forall i :: 0 <= i < |docs| ==> ExperienceMeetsSchema(docs[i]) && docs[i].id < nextId)
      && (forall i, j :: 0 <= i < j < |docs| ==> docs[i].id != docs[j].id)
    }

    constructor ()
      ensures Valid() && docs == [] && nextId == 0
    {
      docs := [];
      nextId := 0;
    }

    /** GET: every entry, by `order` ascending and then latest start first. */
    method Get() returns (r: seq<Experience>)
      ensures multiset(r) == multiset(docs)
      ensures Ordering.SortedBy(r, ExperienceKey)
    {
      r := Ordering.SortBy(docs, ExperienceKey);
    }

    /** POST: guard, body, required fields, then the save; there is no
        uniqueness check. */
    method Post(req: Auth.Request, jwt: Auth.Jwt, castDate: DateCast, body: Option<ExperienceBody>, now: int)
      returns (reply: Reply<Experience>)
      requires Valid()
      modifies this
      ensures Valid()
      ensures Auth.RequireAuth(req, jwt).Rejected? ==>
        reply == Error(401, UnauthorizedMessage) && docs == old(docs) && nextId == old(nextId)
      ensures Auth.RequireAuth(req, jwt).Authenticated? && body.None? ==>
        reply == Error(500, InternalErrorMessage) && docs == old(docs) && nextId == old(nextId)
      ensures Auth.RequireAuth(req, jwt).Authenticated? && body.Some? ==>
        var b := body.value;
        && (!HasRequiredFields(b) ==>
              reply == Error(400, RequiredMessage) && docs == old(docs) && nextId == old(nextId))
        && (HasRequiredFields(b) && SchemaRejects(b, castDate) ==>
              reply == Error(500, InternalErrorMessage) && docs == old(docs) && nextId == old(nextId))
        && (HasRequiredFields(b) && !SchemaRejects(b, castDate) ==>
              && docs == old(docs) + [NewExperience(b, castDate, old(nextId), now)]
              && nextId == old(nextId) + 1
              && reply == Ok(201, NewExperience(b, castDate, old(nextId), now)))
    {
      if Auth.RequireAuth(req, jwt).Rejected? {
        return Error(401, UnauthorizedMessage);
      }
      if body.None? {
        return Error(500, InternalErrorMessage);
      }
      var b := body.value;
      if !Truthy(b.company) || !Truthy(b.position) || !Truthy(b.startDate) || !Truthy(b.description) {
        return Error(400, RequiredMessage);
      }
      var startDate := castDate(b.startDate.value);
      var endDate: Option<int> := None;
      if Truthy(b.endDate) {
        endDate := castDate(b.endDate.value);
        if endDate.None? {
          // the save is rejected by the date cast
          return Error(500, InternalErrorMessage);
        }
      }
      if startDate.None? {
        return Error(500, InternalErrorMessage);
      }
      var entry := Experience(nextId, b.company.value, b.position.value, b.location, startDate.value, endDate,
                              BoolOrFalse(b.current), b.description.value, ArrayOrEmpty(b.technologies),
                              ArrayOrEmpty(b.achievements), b.companyLogo, NumberOr(b.order, DefaultOrder), now);
      docs := docs + [entry];
      nextId := nextId + 1;
      reply := Ok(201, entry);
    }
  }

  /** Two identical valid requests both insert: the second finds the first
      stored and still creates a distinct entry. */
  method PostTwice(req: Auth.Request, jwt: Auth.Jwt, castDate: DateCast, body: ExperienceBody, now: int)
    returns (first: Reply<Experience>, second: Reply<Experience>, count: nat)
    requires Auth.RequireAuth(req, jwt).Authenticated?
    requires HasRequiredFields(body) && !SchemaRejects(body, castDate)
    ensures first.Ok? && first.status == 201 && second.Ok? && second.status == 201
    ensures first.value.id != second.value.id
    ensures count == 2
  {
    var store := new ExperienceStore();
    first := store.Post(req, jwt, castDate, Some(body), now);
    second := store.Post(req, jwt, castDate, Some(body), now);
    count := |store.docs|;
  }
}
