/** The JSON responses the service sends: a status code and a body whose
    `status` field is "success" or "error". */
module Http {
  import opened Wrappers
  import opened Schema
  import opened Queries
  import opened SkillRanking

  /** The `data` field of a successful response. */
  datatype Payload =
    | ProfileData(profile: Profile)
    | ProjectsData(skill: string, count: nat, projects: seq<Project>)
    | TopSkillsData(ranking: seq<SkillCount>)

  datatype Body =
    /** `{status: "success", message?, data}`; `note` is the message */
    | Done(note: Option<string>, data: Payload)
    /** `{status: "success", query, data}`, the search response */
    | Found(query: string, results: SearchResult)
    /** `{status: "error", message, details?}` */
    | Failed(message: string, details: Option<seq<string>>)
  {
    /** The body's `status` field. */
    function Status(): (s: string)
      ensures s == "error" <==> Failed?
      ensures s == "success" <==> !Failed?
    {
      if Failed? then "error" else "success"
    }
  }

  datatype Response = Response(code: int, body: Body)
}
