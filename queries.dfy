/** The read-only views computed from a loaded profile: the projects built
    with a given skill, and the free-text search over name, skills and
    projects. */
module Queries {
  import opened Text
  import opened Seqs
  import opened Schema

  /** Some entry of the project's tech stack equals `skill`, ignoring case.
      The comparison is whole-string equality, not a substring test. */
  predicate UsesSkill(p: Project, skill: string) {
    exists tech :: tech in p.techStack && Lower(tech) == Lower(skill)
  }

  /** The projects whose tech stack lists `skill`, ignoring case, in profile
      order. */
  function ProjectsBySkill(projects: seq<Project>, skill: string): (r: seq<Project>)
    ensures Subsequence(r, projects)
    ensures forall p :: p in r <==> p in projects && UsesSkill(p, skill)
    ensures forall p :: multiset(r)[p] == if UsesSkill(p, skill) then multiset(projects)[p] else 0
  {
    Filter(projects, p => UsesSkill(p, skill))
  }

  /** The filter depends on the skill only through its lower-case form:
      "react" and "React" select the same projects. */
  lemma ProjectsBySkillIgnoresCase(projects: seq<Project>, a: string, b: string)
    requires Lower(a) == Lower(b)
    ensures ProjectsBySkill(projects, a) == ProjectsBySkill(projects, b)
  {
    FilterCongruent(projects, p => UsesSkill(p, a), p => UsesSkill(p, b));
  }

  /** Selection by skill is whole-entry equality: a stack entry selects the
      project for `skill` only if it has exactly as many characters, so a
      proper prefix such as "Reac" never matches "React". This rests on the
      ASCII-only `Lower`, which keeps lengths; JavaScript's full Unicode
      `toLowerCase` can lengthen a string ("İ" becomes two code units). */
  lemma UsesSkillNeedsSameLength(p: Project, skill: string)
    requires UsesSkill(p, skill)
    ensures exists tech :: tech in p.techStack && |tech| == |skill|
  {
    var tech :| tech in p.techStack && Lower(tech) == Lower(skill);
    assert |Lower(tech)| == |tech| && |Lower(skill)| == |skill|;
  }

  /** The one entry `nameMatch` can hold. */
  datatype NameHit = NameHit(kind: string, value: string)

  datatype SearchResult = SearchResult(
    nameMatch: seq<NameHit>,
    skillsMatch: seq<string>,
    projectsMatch: seq<Project>)

  /** The project's title or description contains `query` once lower-cased. */
  predicate ProjectMentions(p: Project, query: string) {
    Includes(Lower(p.title), query) || Includes(Lower(p.description), query)
  }

  /** The skill contains `query` once lower-cased. */
  predicate SkillMentions(skill: string, query: string) {
    Includes(Lower(skill), query)
  }

  /** The skills that contain `query` once lower-cased, in profile order. */
  function SkillsMatching(skills: seq<string>, query: string): (r: seq<string>)
    ensures Subsequence(r, skills)
    ensures forall s :: s in r <==> s in skills && SkillMentions(s, query)
    ensures forall s :: multiset(r)[s] == if SkillMentions(s, query) then multiset(skills)[s] else 0
  {
    Filter(skills, s => SkillMentions(s, query))
  }

  /** The projects whose title or description contains `query` once
      lower-cased, in profile order. */
  function ProjectsMatching(projects: seq<Project>, query: string): (r: seq<Project>)
    ensures Subsequence(r, projects)
    ensures forall p :: p in r <==> p in projects && ProjectMentions(p, query)
    ensures forall p :: multiset(r)[p] == if ProjectMentions(p, query) then multiset(projects)[p] else 0
  {
    Filter(projects, p => ProjectMentions(p, query))
  }

  /** Search of the profile for `q`: the query is lower-cased once and looked
      for as a substring of the lower-cased name, each skill, and each
      project's title or description. */
  function Search(profile: Profile, q: string): (r: SearchResult)
    ensures |r.nameMatch| <= 1
    ensures r.nameMatch != [] <==> Includes(Lower(profile.name), Lower(q))
    ensures r.nameMatch != [] ==> r.nameMatch[0] == NameHit("name", profile.name)
    ensures r.skillsMatch == SkillsMatching(profile.skills, Lower(q))
    ensures r.projectsMatch == ProjectsMatching(profile.projects, Lower(q))
  {
    var query := Lower(q);
    SearchResult(
      if Includes(Lower(profile.name), query) then [NameHit("name", profile.name)] else [],
      SkillsMatching(profile.skills, query),
      ProjectsMatching(profile.projects, query))
  }

  /** Search ignores the case of the query, and its matches ignore the case
      of the searched text: a skill matches exactly when its lower-case form
      contains the lower-case query. */
  lemma SearchIgnoresCase(profile: Profile, a: string, b: string)
    requires Lower(a) == Lower(b)
    ensures Search(profile, a) == Search(profile, b)
  {
  }

  /** A query that occurs in no searched text finds nothing in any group. */
  lemma SearchNoHit(profile: Profile, q: string)
    requires !Includes(Lower(profile.name), Lower(q))
    requires forall s :: s in profile.skills ==> !SkillMentions(s, Lower(q))
    requires forall p :: p in profile.projects ==> !ProjectMentions(p, Lower(q))
    ensures Search(profile, q) == SearchResult([], [], [])
  {
  }
}
