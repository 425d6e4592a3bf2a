/** The profile store and the request handlers over it. The store holds at
    most one profile: it is absent or present. Creating is the only way from
    absent to present, deleting the only way back; reading, updating and the
    three views leave it as it is or keep it present. The document collection
    the handlers call (`findOne`, `save`, `findOneAndUpdate`,
    `findOneAndDelete`) is the field `current`. */
module Store {
  import opened Wrappers
  import opened Text
  import opened Schema
  import opened Queries
  import opened SkillRanking
  import opened Http
  import opened ErrorHandler

  const ProfileNotFound := Response(404, Failed("Profile not found", None))
  const ProfileExists := Response(409, Failed("Profile already exists", None))
  const SkillRequired := Response(400, Failed("Skill query parameter is required", None))
  const QueryRequired := Response(400, Failed("Search query is required", None))

  /** The error a failed validation raises and passes on to the error handler. */
  function ValidationFailure(errors: seq<ValidatorError>): Error {
    Error("ValidationError", "Validation failed", None, errors)
  }

  /** A query parameter counts as given when it is present and non-empty. */
  predicate Given(param: Option<string>) {
    param.Some? && param.value != ""
  }

  class ProfileStore {
    /** The one stored profile, if any. */
    var current: Option<Profile>

    /** Every stored profile has passed the schema's validators. */
    ghost predicate Valid()
      reads this
    {
      current.Some? ==> Schema.Valid(current.value)
    }

    /** An empty collection. */
    constructor ()
      ensures Valid() && current == None
    {
      current := None;
    }

    /** POST /api/profile. */
    method CreateProfile(body: ProfileInput) returns (r: Response)
      requires Valid()
      modifies this
      ensures Valid()
      ensures old(current).Some? ==> r == ProfileExists && current == old(current)
      ensures old(current).None? && NewProfile(body).Err? ==>
        current == None && r == HandleError(ValidationFailure(NewProfile(body).error))
      ensures old(current).None? && NewProfile(body).Ok? ==>
        current == Some(NewProfile(body).value)
        && r == Response(201, Done(Some("Profile created"), ProfileData(NewProfile(body).value)))
    {
      if current.Some? {
        return ProfileExists;
      }
      var created := NewProfile(body);
      if created.Err? {
        return HandleError(ValidationFailure(created.error));
      }
      current := Some(created.value);
      r := Response(201, Done(Some("Profile created"), ProfileData(created.value)));
    }

    /** GET /api/profile: 404 exactly when the store is absent. */
    method GetProfile() returns (r: Response)
      requires Valid()
      ensures r.code == 404 <==> current.None?
      ensures r.code == 200 ==> r.body.Done? && r.body.data.ProfileData? && Schema.Valid(r.body.data.profile)
      ensures current.None? ==> r == ProfileNotFound
      ensures current.Some? ==> r == Response(200, Done(None, ProfileData(current.value)))
    {
      if current.None? {
        return ProfileNotFound;
      }
      r := Response(200, Done(None, ProfileData(current.value)));
    }

    /** PUT /api/profile. The update validators run on the given fields
        before the collection is consulted. */
    method UpdateProfile(body: ProfileInput) returns (r: Response)
      requires Valid()
      modifies this
      ensures Valid()
      ensures UpdateErrors(body) != [] ==>
        current == old(current) && r == HandleError(ValidationFailure(UpdateErrors(body)))
      ensures UpdateErrors(body) == [] && old(current).None? ==>
        current == None && r == ProfileNotFound
      ensures UpdateErrors(body) == [] && old(current).Some? ==>
        current == Some(Merge(old(current).value, body))
        && r == Response(200, Done(Some("Profile updated"), ProfileData(current.value)))
    {
      var errors := UpdateErrors(body);
      if errors != [] {
        return HandleError(ValidationFailure(errors));
      }
      if current.None? {
        return ProfileNotFound;
      }
      MergePreservesValid(current.value, body);
      current := Some(Merge(current.value, body));
      r := Response(200, Done(Some("Profile updated"), ProfileData(current.value)));
    }

    /** DELETE /api/profile: the store is absent afterwards, and the response
        carries what it held. */
    method DeleteProfile() returns (r: Response)
      modifies this
      ensures Valid() && current == None
      ensures old(current).None? ==> r == ProfileNotFound
      ensures old(current).Some? ==>
        r == Response(200, Done(Some("Profile deleted"), ProfileData(old(current).value)))
    {
      var deleted := current;
      current := None;
      if deleted.None? {
        return ProfileNotFound;
      }
      r := Response(200, Done(Some("Profile deleted"), ProfileData(deleted.value)));
    }

    /** GET /api/projects?skill=S. A missing or empty skill is refused before
        the store is looked at. */
    method GetProjectsBySkill(skill: Option<string>) returns (r: Response)
      ensures !Given(skill) ==> r == SkillRequired
      ensures Given(skill) && current.None? ==> r == ProfileNotFound
      ensures Given(skill) && current.Some? ==>
        r.code == 200 && r.body.Done? && r.body.note.None? && r.body.data.ProjectsData?
        && r.body.data.skill == skill.value
        && r.body.data.count == |r.body.data.projects|
        && r.body.data.projects == ProjectsBySkill(current.value.projects, skill.value)
    {
      if !Given(skill) {
        return SkillRequired;
      }
      if current.None? {
        return ProfileNotFound;
      }
      var projects := ProjectsBySkill(current.value.projects, skill.value);
      r := Response(200, Done(None, ProjectsData(skill.value, |projects|, projects)));
    }

    /** GET /api/skills/top. */
    method GetTopSkills() returns (r: Response)
      ensures current.None? ==> r == ProfileNotFound
      ensures current.Some? ==>
        r.code == 200 && r.body.Done? && r.body.note.None? && r.body.data.TopSkillsData?
        && var top, projects := r.body.data.ranking, current.value.projects;
        (forall t :: t in SkillsOf(top) <==> t in AllTech(projects))
        && DistinctSkills(top)
        && (forall i :: 0 <= i < |top| ==> top[i].count == Occurrences(projects, top[i].skill))
        && Total(top) == |AllTech(projects)|
        && ByCountDesc(top)
    {
      if current.None? {
        return ProfileNotFound;
      }
      var top := TopSkills(current.value.projects);
      r := Response(200, Done(None, TopSkillsData(top)));
    }

    /** GET /api/search?q=Q. A missing or empty query is refused before the
        store is looked at; the echoed query is lower-cased. */
    method Search(q: Option<string>) returns (r: Response)
      ensures !Given(q) ==> r == QueryRequired
      ensures Given(q) && current.None? ==> r == ProfileNotFound
      ensures Given(q) && current.Some? ==>
        r.code == 200 && r.body.Found?
        && r.body.query == Lower(q.value)
        && r.body.results == Queries.Search(current.value, q.value)
    {
      if !Given(q) {
        return QueryRequired;
      }
      if current.None? {
        return ProfileNotFound;
      }
      r := Response(200, Found(Lower(q.value), Queries.Search(current.value, q.value)));
    }
  }
}
