/** src/app/api/portfolio/projects/route.ts: the public sorted listing and the
    guarded creation of a project with its duplicate-title check. The
    duplicate check compares titles ignoring the case of ASCII letters. */
module ProjectsRoute {
  import opened JsValues
  import opened Http
  import opened Portfolio
  import Auth
  import Ordering
  import Text

  /** The fields POST reads from `request.json()`. */
  datatype ProjectBody = ProjectBody(
    title: Option<string>,
    description: Option<string>,
    shortDescription: Option<string>,
    technologies: Option<seq<string>>,
    githubUrl: Option<string>,
    liveUrl: Option<string>,
    image: Option<string>,
    featured: Option<bool>,
    status: Option<string>,
    order: Option<int>)

  const RequiredMessage := "Title and description are required"
  const DuplicateMessage := "Project with this title already exists"

  /** `sort({ order: 1, createdAt: -1 })`: the newer of two projects with the
      same `order` comes first. */
  function ProjectKey(p: Project): Ordering.Key {
    Ordering.Key(p.order, -p.createdAt)
  }

  predicate TitleTaken(docs: seq<Project>, title: string) {
    exists i :: 0 <= i < |docs| && Text.EqualsIgnoreCase(docs[i].title, title)
  }

  /** The status (after its default) is outside the schema's enumeration. */
  predicate SchemaRejects(b: ProjectBody) {
    ParseStatus(OrElse(b.status, DefaultStatus)).None?
  }

  /** The project a valid request creates, with the defaults applied. */
  function NewProject(b: ProjectBody, id: nat, now: int): (r: Project)
    requires Truthy(b.title) && Truthy(b.description) && !SchemaRejects(b)
    ensures r.id == id && r.createdAt == now && r.title == b.title.value && r.description == b.description.value
    ensures r.shortDescription == b.shortDescription && r.githubUrl == b.githubUrl
    ensures r.liveUrl == b.liveUrl && r.image == b.image
    ensures b.technologies.None? ==> r.technologies == []
    ensures b.technologies.Some? ==> r.technologies == b.technologies.value
    ensures r.featured <==> b.featured == Some(true)
    ensures !Truthy(b.status) ==> r.status == Completed
    ensures Truthy(b.status) ==> StatusName(r.status) == b.status.value
    ensures b.order.None? || b.order == Some(0) ==> r.order == 0
    ensures b.order.Some? ==> r.order == b.order.value
    ensures ProjectMeetsSchema(r)
  {
    Project(id, b.title.value, b.description.value, b.shortDescription, ArrayOrEmpty(b.technologies),
            b.githubUrl, b.liveUrl, b.image, BoolOrFalse(b.featured),
            ParseStatus(OrElse(b.status, DefaultStatus)).value, NumberOr(b.order, DefaultOrder), now)
  }

  /** A request with only a title and a description gets every default:
      no technologies, not featured, Completed, order 0. */
  lemma MinimalRequestDefaults(title: string, description: string, id: nat, now: int)
    requires title != "" && description != ""
    ensures var b := ProjectBody(Some(title), Some(description), None, None, None, None, None, None, None, None);
            !SchemaRejects(b) &&
            var p := NewProject(b, id, now);
            p.technologies == [] && !p.featured && p.status == Completed && p.order == 0
  {
  }

  class ProjectStore {
    var docs: seq<Project>
    var nextId: nat

    /** Every stored project meets the schema, ids are distinct and below the
        next one, and no two titles are equal ignoring case. */
    ghost predicate Valid()
      reads this
    {
      && (forall i :: 0 <= i < |docs| ==> ProjectMeetsSchema(docs[i]) && docs[i].id < nextId)
      && (forall i, j :: 0 <= i < j < |docs| ==> docs[i].id != docs[j].id)
      && (forall i, j :: 0 <= i < j < |docs| ==> !Text.EqualsIgnoreCase(docs[i].title, docs[j].title))
    }

    constructor ()
      ensures Valid() && docs == [] && nextId == 0
    {
      docs := [];
      nextId := 0;
    }

    /** GET: every project, by `order` ascending and then newest first. */
    method Get() returns (r: seq<Project>)
      ensures multiset(r) == multiset(docs)
      ensures Ordering.SortedBy(r, ProjectKey)
    {
      r := Ordering.SortBy(docs, ProjectKey);
    }

    /** POST: guard, body, required fields, duplicate title, then the save. */
    method Post(req: Auth.Request, jwt: Auth.Jwt, body: Option<ProjectBody>, now: int) returns (reply: Reply<Project>)
      requires Valid()
      modifies this
      ensures Valid()
      ensures Auth.RequireAuth(req, jwt).Rejected? ==>
        reply == Error(401, UnauthorizedMessage) && docs == old(docs) && nextId == old(nextId)
      ensures Auth.RequireAuth(req, jwt).Authenticated? && body.None? ==>
        reply == Error(500, InternalErrorMessage) && docs == old(docs) && nextId == old(nextId)
      ensures Auth.RequireAuth(req, jwt).Authenticated? && body.Some? ==>
        var b := body.value;
        && (!Truthy(b.title) || !Truthy(b.description) ==>
              reply == Error(400, RequiredMessage) && docs == old(docs) && nextId == old(nextId))
        && (Truthy(b.title) && Truthy(b.description) && TitleTaken(old(docs), b.title.value) ==>
              reply == Error(400, DuplicateMessage) && docs == old(docs) && nextId == old(nextId))
        && (Truthy(b.title) && Truthy(b.description) && !TitleTaken(old(docs), b.title.value) && SchemaRejects(b) ==>
              reply == Error(500, InternalErrorMessage) && docs == old(docs) && nextId == old(nextId))
        && (Truthy(b.title) && Truthy(b.description) && !TitleTaken(old(docs), b.title.value) && !SchemaRejects(b) ==>
              && docs == old(docs) + [NewProject(b, old(nextId), now)] && nextId == old(nextId) + 1
              && reply == Ok(201, NewProject(b, old(nextId), now)))
    {
      if Auth.RequireAuth(req, jwt).Rejected? {
        return Error(401, UnauthorizedMessage);
      }
      if body.None? {
        return Error(500, InternalErrorMessage);
      }
      var b := body.value;
      if !Truthy(b.title) || !Truthy(b.description) {
        return Error(400, RequiredMessage);
      }
      var title := b.title.value;
      if TitleTaken(docs, title) {
        return Error(400, DuplicateMessage);
      }
      var status := ParseStatus(OrElse(b.status, DefaultStatus));
      if status.None? {
        // the save is rejected by the enumeration check
        return Error(500, InternalErrorMessage);
      }
      var project := Project(nextId, title, b.description.value, b.shortDescription, ArrayOrEmpty(b.technologies),
                             b.githubUrl, b.liveUrl, b.image, BoolOrFalse(b.featured), status.value,
                             NumberOr(b.order, DefaultOrder), now);
      docs := docs + [project];
      nextId := nextId + 1;
      reply := Ok(201, project);
    }
  }
}
