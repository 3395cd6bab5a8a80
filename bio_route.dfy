/** src/app/api/portfolio/bio/route.ts: the public read of the bio and the
    guarded create-or-update. The bio collection is a field of `BioStore`;
    the clock is the parameter `now`. */
module BioRoute {
  import opened JsValues
  import opened Http
  import opened Portfolio
  import Auth
  import Ordering

  /** The fields POST reads from `request.json()`. */
  datatype BioBody = BioBody(
    title: Option<string>,
    subtitle: Option<string>,
    description: Option<string>,
    profileImage: Option<string>,
    resumeLink: Option<string>)

  predicate HasRequiredFields(b: BioBody) {
    Truthy(b.title) && Truthy(b.subtitle) && Truthy(b.description)
  }

  const RequiredMessage := "Title, subtitle, and description are required"

  function CreatedAt(b: Bio): int {
    b.createdAt
  }

  /** The stored bio after an update: the three required fields are
      overwritten, and each link keeps its stored value unless the request
      carries a truthy one (`profileImage || bio.profileImage`). */
  function Merge(o: Bio, b: BioBody): (r: Bio)
    requires HasRequiredFields(b)
    ensures r.id == o.id && r.createdAt == o.createdAt
    ensures r.title == b.title.value && r.subtitle == b.subtitle.value && r.description == b.description.value
    ensures Truthy(b.profileImage) ==> r.profileImage == b.profileImage
    ensures !Truthy(b.profileImage) ==> r.profileImage == o.profileImage
    ensures Truthy(b.resumeLink) ==> r.resumeLink == b.resumeLink
    ensures !Truthy(b.resumeLink) ==> r.resumeLink == o.resumeLink
    ensures BioMeetsSchema(r)
  {
    o.(title := b.title.value, subtitle := b.subtitle.value, description := b.description.value,
       profileImage := Or(b.profileImage, o.profileImage), resumeLink := Or(b.resumeLink, o.resumeLink))
  }

  /** Repeating an update changes nothing further. */
  lemma MergeIdempotent(o: Bio, b: BioBody)
    requires HasRequiredFields(b)
    ensures Merge(Merge(o, b), b) == Merge(o, b)
  {
  }

  /** The request passes every check of POST. */
  predicate Accepted(req: Auth.Request, jwt: Auth.Jwt, body: Option<BioBody>) {
    Auth.RequireAuth(req, jwt).Authenticated? && body.Some? && HasRequiredFields(body.value)
  }

  class BioStore {
    var docs: seq<Bio>
    var nextId: nat

    ghost predicate Valid()
      reads this
    {
      forall i :: 0 <= i < |docs| ==> BioMeetsSchema(docs[i]) && docs[i].id < nextId
    }

    constructor ()
      ensures Valid() && docs == [] && nextId == 0
    {
      docs := [];
      nextId := 0;
    }

    /** GET: the bio created last, or null when there is none. */
    method Get() returns (r: Option<Bio>)
      ensures r.None? <==> docs == []
      ensures r.Some? ==> r.value in docs && forall b :: b in docs ==> b.createdAt <= r.value.createdAt
    {
      r := Ordering.Newest(docs, CreatedAt);
    }

    /** POST: the guard first, then the body, then the required fields; the
        first stored bio is updated with `||`-coalescing of the two optional
        links, or a bio is created when there is none. */
    method Post(req: Auth.Request, jwt: Auth.Jwt, body: Option<BioBody>, now: int) returns (reply: Reply<Bio>)
      requires Valid()
      modifies this
      ensures Valid()
      ensures Auth.RequireAuth(req, jwt).Rejected? ==>
        reply == Error(401, UnauthorizedMessage) && docs == old(docs) && nextId == old(nextId)
      ensures Auth.RequireAuth(req, jwt).Authenticated? && body.None? ==>
        reply == Error(500, InternalErrorMessage) && docs == old(docs) && nextId == old(nextId)
      ensures Auth.RequireAuth(req, jwt).Authenticated? && body.Some? && !HasRequiredFields(body.value) ==>
        reply == Error(400, RequiredMessage) && docs == old(docs) && nextId == old(nextId)
      ensures Accepted(req, jwt, body) ==>
        && reply.Ok? && reply.status == 200 && |docs| >= 1 && reply.value == docs[0]
        && |docs| == if |old(docs)| >= 1 then |old(docs)| else 1
      ensures Accepted(req, jwt, body) && old(docs) != [] ==>
        var b, o := body.value, old(docs)[0];
        && |docs| == |old(docs)| && docs[1..] == old(docs)[1..] && nextId == old(nextId)
        && docs[0] == Merge(o, b)
      ensures Accepted(req, jwt, body) && old(docs) == [] ==>
        var b := body.value;
        && docs == [Bio(old(nextId), b.title.value, b.subtitle.value, b.description.value, b.profileImage, b.resumeLink, now)]
        && nextId == old(nextId) + 1
    {
      if Auth.RequireAuth(req, jwt).Rejected? {
        return Error(401, UnauthorizedMessage);
      }
      if body.None? {
        return Error(500, InternalErrorMessage);
      }
      var b := body.value;
      if !Truthy(b.title) || !Truthy(b.subtitle) || !Truthy(b.description) {
        return Error(400, RequiredMessage);
      }
      if |docs| > 0 {
        var bio := docs[0];
        bio := bio.(title := b.title.value);
        bio := bio.(subtitle := b.subtitle.value);
        bio := bio.(description := b.description.value);
        bio := bio.(profileImage := Or(b.profileImage, bio.profileImage));
        bio := bio.(resumeLink := Or(b.resumeLink, bio.resumeLink));
        docs := docs[0 := bio];
        reply := Ok(200, bio);
      } else {
        var bio := Bio(nextId, b.title.value, b.subtitle.value, b.description.value, b.profileImage, b.resumeLink, now);
        docs := [bio];
        nextId := nextId + 1;
        reply := Ok(200, bio);
      }
    }
  }
}
