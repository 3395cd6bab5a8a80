/** src/app/api/portfolio/skills/route.ts: the public sorted listing and the
    guarded creation of a skill with its duplicate-name check. The duplicate
    check compares names ignoring the case of ASCII letters. */
module SkillsRoute {
  import opened JsValues
  import opened Http
  import opened Portfolio
  import Auth
  import Ordering
  import Text

  /** The fields POST reads from `request.json()`. */
  datatype SkillBody = SkillBody(
    name: Option<string>,
    category: Option<string>,
    level: Option<string>,
    icon: Option<string>,
    order: Option<int>)

  const RequiredMessage := "Name and category are required"
  const DuplicateMessage := "Skill already exists"

  /** `sort({ order: 1, createdAt: 1 })`. */
  function SkillKey(s: Skill): Ordering.Key {
    Ordering.Key(s.order, s.createdAt)
  }

  /** Some stored skill has this name, ignoring case. */
  predicate NameTaken(docs: seq<Skill>, name: string) {
    exists i :: 0 <= i < |docs| && Text.EqualsIgnoreCase(docs[i].name, name)
  }

  /** The category or the level (after its default) is outside the schema's
      enumeration, so the save is rejected. */
  predicate SchemaRejects(b: SkillBody)
    requires Truthy(b.category)
  {
    ParseCategory(b.category.value).None? || ParseLevel(OrElse(b.level, DefaultLevel)).None?
  }

  /** The skill a valid request creates, with the schema defaults applied. */
  function NewSkill(b: SkillBody, id: nat, now: int): (r: Skill)
    requires Truthy(b.name) && Truthy(b.category) && !SchemaRejects(b)
    ensures r.id == id && r.createdAt == now && r.name == b.name.value && r.icon == b.icon
    ensures CategoryName(r.category) == b.category.value
    ensures !Truthy(b.level) ==> r.level == Intermediate
    ensures Truthy(b.level) ==> LevelName(r.level) == b.level.value
    ensures b.order.None? || b.order == Some(0) ==> r.order == 0
    ensures b.order.Some? ==> r.order == b.order.value
    ensures SkillMeetsSchema(r)
  {
    Skill(id, b.name.value, ParseCategory(b.category.value).value, ParseLevel(OrElse(b.level, DefaultLevel)).value,
          b.icon, NumberOr(b.order, DefaultOrder), now)
  }

  class SkillStore {
    var docs: seq<Skill>
    var nextId: nat

    /** Every stored skill meets the schema, ids are distinct and below the
        next one, and no two names are equal ignoring case. */
    ghost predicate Valid()
      reads this
    {
      && (forall i :: 0 <= i < |docs| ==> SkillMeetsSchema(docs[i]) && docs[i].id < nextId)
      && (forall i, j :: 0 <= i < j < |docs| ==> docs[i].id != docs[j].id)
      && (forall i, j :: 0 <= i < j < |docs| ==> !Text.EqualsIgnoreCase(docs[i].name, docs[j].name))
    }

    constructor ()
      ensures Valid() && docs == [] && nextId == 0
    {
      docs := [];
      nextId := 0;
    }

    /** GET: every skill, by `order` and then by creation time, both ascending. */
    method Get() returns (r: seq<Skill>)
      ensures multiset(r) == multiset(docs)
      ensures Ordering.SortedBy(r, SkillKey)
    {
      r := Ordering.SortBy(docs, SkillKey);
    }

    /** POST: guard, body, required fields, duplicate name, then the save. */
    method Post(req: Auth.Request, jwt: Auth.Jwt, body: Option<SkillBody>, now: int) returns (reply: Reply<Skill>)
      requires Valid()
      modifies this
      ensures Valid()
      ensures Auth.RequireAuth(req, jwt).Rejected? ==>
        reply == Error(401, UnauthorizedMessage) && docs == old(docs) && nextId == old(nextId)
      ensures Auth.RequireAuth(req, jwt).Authenticated? && body.None? ==>
        reply == Error(500, InternalErrorMessage) && docs == old(docs) && nextId == old(nextId)
      ensures Auth.RequireAuth(req, jwt).Authenticated? && body.Some? ==>
        var b := body.value;
        && (!Truthy(b.name) || !Truthy(b.category) ==>
              reply == Error(400, RequiredMessage) && docs == old(docs) && nextId == old(nextId))
        && (Truthy(b.name) && Truthy(b.category) && NameTaken(old(docs), b.name.value) ==>
              reply == Error(400, DuplicateMessage) && docs == old(docs) && nextId == old(nextId))
        && (Truthy(b.name) && Truthy(b.category) && !NameTaken(old(docs), b.name.value) && SchemaRejects(b) ==>
              reply == Error(500, InternalErrorMessage) && docs == old(docs) && nextId == old(nextId))
        && (Truthy(b.name) && Truthy(b.category) && !NameTaken(old(docs), b.name.value) && !SchemaRejects(b) ==>
              && docs == old(docs) + [NewSkill(b, old(nextId), now)] && nextId == old(nextId) + 1
              && reply == Ok(201, NewSkill(b, old(nextId), now)))
    {
      if Auth.RequireAuth(req, jwt).Rejected? {
        return Error(401, UnauthorizedMessage);
      }
      if body.None? {
        return Error(500, InternalErrorMessage);
      }
      var b := body.value;
      if !Truthy(b.name) || !Truthy(b.category) {
        return Error(400, RequiredMessage);
      }
      var name := b.name.value;
      if NameTaken(docs, name) {
        return Error(400, DuplicateMessage);
      }
      var category := ParseCategory(b.category.value);
      var level := ParseLevel(OrElse(b.level, DefaultLevel));
      if category.None? || level.None? {
        // the save is rejected by the enumeration check
        return Error(500, InternalErrorMessage);
      }
      var skill := Skill(nextId, name, category.value, level.value, b.icon, NumberOr(b.order, DefaultOrder), now);
      docs := docs + [skill];
      nextId := nextId + 1;
      reply := Ok(201, skill);
    }
  }

  /** A second creation of a name that differs from a stored one only in the
      case of its letters is a duplicate. */
  lemma CaseVariantIsDuplicate(docs: seq<Skill>, stored: Skill, name: string)
    requires stored in docs
    requires Text.ToLower(name) == Text.ToLower(stored.name)
    ensures NameTaken(docs, name)
  {
    var i :| 0 <= i < |docs| && docs[i] == stored;
  }
}
