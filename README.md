# Profile store — a Dafny model

This project models the back end of a single-profile portfolio service. The
service keeps at most one profile document. It offers create, read, update and
delete over that document. It also offers three read-only views of it:

- the projects built with a given skill;
- the skills ranked by how often projects use them;
- a case-insensitive text search over the name, the skills and the projects.

Errors are turned into JSON error bodies by one error-handling middleware.

The model is organised by the program's own structure:

- `wrappers.dfy` (`Wrappers`): `Option` and `Result`.
- `text.dfy` (`Text`): the JavaScript string operations the code uses.
  - `toLowerCase` covers ASCII letters only.
  - `includes` is modelled with a proof that it finds a matching window.
  - `trim` removes the ECMAScript white-space and line-terminator characters.
- `seqs.dfy` (`Seqs`): `Array.prototype.filter`, proved to keep the order and
  every occurrence of each kept element.
- `schema.dfy` (`Schema`): the profile document and its validation.
  - The `Profile`, `Project`, `Education` and `Links` records.
  - The `trim` and `lowercase` setters, the two `required` validators, and the
    e-mail pattern `/.+\@.+\..+/`.
  - The pattern has a declarative form (`EmailShape`) and a scanning matcher
    (`MatchesEmail`), proved equivalent.
  - Building a new document (`NewProfile`), and the `$set` update with its
    update validators (`UpdateErrors`, `Merge`).
- `queries.dfy` (`Queries`): the skill filter and the search.
- `ranking.dfy` (`SkillRanking`): the skill ranking.
  - The dictionary is built by nested loops (`Tally`, `TallyStack`).
  - It is then ordered by count (`SortByCount`).
  - The model proves that each distinct tech-stack string is listed once with
    its exact number of occurrences, that the counts sum to the number of
    entries, and that counts never increase along the list.
- `http.dfy` (`Http`): the response bodies, whose `status` field is
  `"success"` or `"error"`.
- `error_handler.dfy` (`ErrorHandler`): the error middleware and the
  route-not-found handler.
- `store.dfy` (`Store`): the class `ProfileStore`.
  - Its one field `current: Option<Profile>` stands for the document
    collection.
  - There is one method per HTTP handler. Each states the response and the new
    state for every branch.
  - `Valid()` says that every stored profile has passed validation. Every
    method that writes the field keeps it.

The view handlers and `GetProfile` have no `modifies` clause, so the verifier
checks that they never change the store. Creating is the only method that can
take the store from absent to present. Deleting always leaves it absent.

An update goes through `findOneAndUpdate` with `runValidators`. It casts
the update and runs the update validators before it reaches the collection.
So an update body that fails validation gets 400 even when no profile
exists, and a valid body on an absent store gets 404.
`Store.ProfileStore.UpdateProfile` states this order.

## Model

| member | source | states |
|---|---|---|
| `Text.Lower` | backend/src/controllers/profileController.js:102 | `toLowerCase` keeps the length and lower-cases each character; no capital letter remains |
| `Text.LowerIdempotent` | backend/src/controllers/profileController.js:173-187 | lower-casing an already lower-cased query or field changes nothing, so comparing lower-cased values is case-insensitive |
| `Text.LowerFixedPoint` | backend/src/models/Profile.js:13 | a string is its own lower-case form exactly when it holds no capital letter |
| `Text.Includes` | backend/src/controllers/profileController.js:181 | `includes` is true exactly when some window of the text equals the query |
| `Text.Trim` | backend/src/models/Profile.js:8 | `trim` returns a middle slice with only white space cut from either side and no white space left at either end |
| `Text.TrimIdempotent` | backend/src/models/Profile.js:8 | trimming a stored (trimmed) name again changes nothing |
| `Text.TrimEmptyIff` | backend/src/models/Profile.js:5-9 | the trimmed name is empty exactly when the given name is all white space |
| `Seqs.Filter` | backend/src/controllers/profileController.js:100-104 | `filter` returns an order-preserving subsequence holding every occurrence of each kept element and nothing else |
| `Seqs.FilterAppend` | backend/src/controllers/profileController.js:186-195 | filtering distributes over concatenation, which fixes the order of the kept elements |
| `Schema.MatchesEmail` | backend/src/models/Profile.js:14 | the scanning matcher accepts exactly the strings in which the unanchored pattern finds a match: a `.`-character, `@`, at least one `.`-character, a dot, and one more `.`-character |
| `Schema.CheckName` | backend/src/models/Profile.js:5-9 | the name passes `required` exactly when it is given and not all white space; otherwise the error is the `required` message for path `name` |
| `Schema.CheckEmail` | backend/src/models/Profile.js:10-15 | the e-mail passes exactly when it is given and its lower-case form matches the pattern; a missing or empty e-mail fails `required`, and any other failure is the `match` error carrying the lower-cased value |
| `Schema.Valid` | backend/src/models/Profile.js:5-15 | a stored document has a non-empty trimmed name and a lower-case e-mail that matches the pattern |
| `Schema.Failures` | backend/src/models/Profile.js:5-15 | the failing validators: the list is empty exactly when every check passes, and holds exactly the failing checks' errors |
| `Schema.FailuresCount` | backend/src/models/Profile.js:5-15 | each failing check contributes its error exactly once: an error occurs in the list as often as a check yields it |
| `Schema.CreateErrors` | backend/src/models/Profile.js:5-15 | a new document has no validation error exactly when the name is present and not blank and the lower-cased e-mail matches. The list holds exactly the errors of the failing fields, no two for the same path: a missing or blank name and a missing or empty e-mail give `required`, a malformed e-mail gives the `match` error with its lower-cased value, and a passing field adds nothing |
| `Schema.NewProfile` | backend/src/models/Profile.js:3-43 | a document is built exactly when validation passes. It is valid, its name is trimmed and its e-mail lower-cased. Omitted `skills`, `education` and `projects` default to empty, and omitted `links` to no links. On failure the error list is non-empty |
| `Schema.MissingRequiredRejected` | backend/src/models/Profile.js:5-15 | a body without a name or without an e-mail is never turned into a document, and the error names the missing path |
| `Schema.UpdateErrors` | backend/src/controllers/profileController.js:57-60 | the update validators check only the fields the body gives: a given name must not be blank, and a given e-mail must match once lower-cased. The list holds exactly the errors those given fields' validators report, no two for the same path |
| `Schema.Merge` | backend/src/controllers/profileController.js:57 | the `$set` update of the stored document by the request body; what it does is stated by the five lemmas below |
| `Schema.MergeOverwrites` | backend/src/controllers/profileController.js:57 | an update replaces each given top-level field wholesale, after its setter, and leaves every omitted field unchanged |
| `Schema.MergePreservesValid` | backend/src/controllers/profileController.js:57-60 | an update that passes its validators keeps a valid document valid |
| `Schema.MergeIdempotent` | backend/src/controllers/profileController.js:57 | sending the same update twice gives the same document as sending it once |
| `Schema.MergeNothing` | backend/src/controllers/profileController.js:57 | an empty update body leaves the document unchanged |
| `Schema.MergeAllFieldsIsNew` | backend/src/controllers/profileController.js:57 | an update that gives every field yields the document that creating from the same body would |
| `Queries.ProjectsBySkill` | backend/src/controllers/profileController.js:100-104 | the result is the order-preserving subsequence of the projects whose tech stack has an entry equal to the skill when both are lower-cased, with every occurrence kept |
| `Queries.ProjectsBySkillIgnoresCase` | backend/src/controllers/profileController.js:100-104 | the result depends on the skill only through its lower-case form |
| `Queries.UsesSkillNeedsSameLength` | backend/src/controllers/profileController.js:101-103 | selection is whole-entry equality, not a substring test: a selecting entry has exactly the skill's length. This rests on ASCII-only lower-casing, which keeps lengths |
| `Queries.SkillsMatching` | backend/src/controllers/profileController.js:186-188 | `skillsMatch` is the order-preserving subsequence of the skills whose lower-case form contains the query |
| `Queries.ProjectsMatching` | backend/src/controllers/profileController.js:191-195 | `projectsMatch` is the order-preserving subsequence of the projects whose lower-cased title or description contains the query |
| `Queries.Search` | backend/src/controllers/profileController.js:173-195 | `nameMatch` holds at most one hit, holds one exactly when the lower-cased name contains the lower-cased query, and that hit is `{type: "name", value: name}`. The other two groups are the filters above, applied to the lower-cased query |
| `Queries.SearchIgnoresCase` | backend/src/controllers/profileController.js:173 | two queries with the same lower-case form give the same results |
| `Queries.SearchNoHit` | backend/src/controllers/profileController.js:173-195 | a query found in no name, skill, title or description gives three empty groups |
| `SkillRanking.Bump` | backend/src/controllers/profileController.js:135 | the corrected step adds the entry as a key with count 1 if it is new, adds 1 to its count otherwise, and changes no other key |
| `SkillRanking.TallyStep` | backend/src/controllers/profileController.js:135 | one `skillCount[tech] = (skillCount[tech] \|\| 0) + 1` keeps the dictionary the exact tally of the entries seen so far |
| `SkillRanking.TallyStack` | backend/src/controllers/profileController.js:134-136 | the inner loop adds one project's tech stack to the tally |
| `SkillRanking.Tally` | backend/src/controllers/profileController.js:131-137 | after both loops, the keys are the distinct tech-stack strings, each once. Each maps to its exact number of occurrences, and the counts sum to the number of entries |
| `SkillRanking.Entries` | backend/src/controllers/profileController.js:139-140 | `Object.entries(...).map` gives one `{skill, count}` per key, in key order, carrying that key's count |
| `SkillRanking.EntriesTotal` | backend/src/controllers/profileController.js:139-140 | the `{skill, count}` entries carry the same total as the dictionary |
| `SkillRanking.SortByCount` | backend/src/controllers/profileController.js:141 | the sort returns a permutation ordered by count, non-increasing. It keeps the total, and keeps skills distinct when they were |
| `SkillRanking.RankingOfTally` | backend/src/controllers/profileController.js:139-141 | sorting the tally's entries lists exactly the tech-stack strings, each once, with its count, summing to the number of entries |
| `SkillRanking.TopSkills` | backend/src/controllers/profileController.js:131-141 | the ranking lists each distinct tech-stack string (case-sensitive) exactly once, with its number of occurrences. The counts sum to the number of entries and never increase along the list |
| `SkillRanking.BumpAsWritten` | backend/src/controllers/profileController.js:135 | the step on a plain object: `__proto__` is never stored; a new inherited name such as `toString` gets the inherited function's text with "1" appended (for `constructor`, the `Object` function's); any other new entry gets 1; a stored number goes up by 1 and a stored string gets "1" appended; no other key changes |
| `SkillRanking.TallyAsWritten` | backend/src/controllers/profileController.js:131-137 | the as-written dictionary's keys are exactly the entries seen other than `__proto__` |
| `SkillRanking.TallyAsWrittenCounts` | backend/src/controllers/profileController.js:131-137 | as written, every entry that is not an inherited `Object.prototype` name is counted exactly, as a number, so the divergence is confined to those names |
| `SkillRanking.ProtoEntryLostAsWritten` | backend/src/controllers/profileController.js:131-137 | as written, a tech-stack entry `__proto__` leaves the dictionary empty, although the entry occurs once; the corrected tally lists it with count 1 |
| `SkillRanking.ConstructorCountAsWritten` | backend/src/controllers/profileController.js:135 | as written, the entry `constructor` is given the string "function Object() { [native code] }1" rather than a count; the corrected tally counts it 1 |
| `Http.Body.Status` | backend/src/controllers/profileController.js:15-24 | the body's `status` is "error" exactly for an error body and "success" otherwise |
| `ErrorHandler.Messages` | backend/src/middlewares/errorHandler.js:8 | `details` has exactly one message per validator error, in order |
| `ErrorHandler.HandleError` | backend/src/middlewares/errorHandler.js:1-23 | a `ValidationError` gives 400 "Validation error" with one detail per error, whatever its status. Otherwise a `CastError` gives 400 "Invalid ID format". Any other error gives its status if set and non-zero, else 500, and its message if non-empty, else "Internal Server Error". The body always has `status: "error"` |
| `ErrorHandler.UnclassifiedIsInternal` | backend/src/middlewares/errorHandler.js:19-21 | an unclassified error with no status and no message becomes 500 "Internal Server Error" |
| `ErrorHandler.RouteNotFound` | backend/src/middlewares/errorHandler.js:25-30 | an unmatched route gets 404 "Route not found" with `status: "error"` |
| `Store.ProfileStore.CreateProfile` | backend/src/controllers/profileController.js:9-31 | with a profile present: 409 and the store unchanged. With none: either 201 and the store holds exactly the new validated document, or the validation error response and the store stays absent |
| `Store.ProfileStore.GetProfile` | backend/src/controllers/profileController.js:34-52 | 404 exactly when the store is absent, otherwise 200 with the stored profile, which is valid: trimmed non-empty name, lower-case e-mail matching the pattern. The store is never changed |
| `Store.ProfileStore.UpdateProfile` | backend/src/controllers/profileController.js:55-77 | a body failing the update validators gives the validation error response and changes nothing. Otherwise an absent store gives 404 and stays absent, and a present one becomes the merged document, returned with 200 |
| `Store.ProfileStore.DeleteProfile` | backend/src/controllers/profileController.js:208-227 | the store is absent afterwards. The response is 404 if it was absent already, else 200 with the document it held |
| `Store.ProfileStore.GetProjectsBySkill` | backend/src/controllers/profileController.js:80-117 | a missing or empty skill gives 400 whether or not a profile exists. Otherwise an absent store gives 404, else 200 with the skill as given, the filtered projects and their number |
| `Store.ProfileStore.GetTopSkills` | backend/src/controllers/profileController.js:120-150 | 404 when absent, else 200 with a ranking meeting every property of `TopSkills` |
| `Store.ProfileStore.Search` | backend/src/controllers/profileController.js:153-205 | a missing or empty query gives 400 whether or not a profile exists. Otherwise an absent store gives 404, else 200 with the lower-cased query echoed and the search results |

## Left out

- The document database and its network calls are replaced by the field `current`. A failure of the database is not modelled. In the code it reaches the error handler like any other error.
- Timestamps (`createdAt`, `updatedAt`) and the document id are not modelled, because they come from the clock and the database.
- `getHealth` (`GET /health`) is not modelled. It is a constant liveness reply that never touches the store.
- `console.error` logging in the error handler is a side effect only and is not modelled.
- Two concurrent creates can both see an absent store. Handlers here run one at a time, so this race is not modelled.
- Lower-casing covers ASCII letters only. Characters outside A–Z are not case-folded as `toLowerCase` would fold them.
- Request values are modelled as strings or as omitted. Several things follow from that:
  - mongoose casting of numbers or other types to strings is not modelled;
  - `null` field values are not modelled;
  - unknown body fields, which strict mode drops, are not modelled;
  - a query parameter given as an array, which crashes `toLowerCase` and reaches the 500 path, is not modelled.
- A project's `title` and `description` are modelled as strings. A project without them makes `search` throw, and that 500 path is not modelled.
- Only the top-level `$set` form of an update body is modelled. Update operators such as `$push` or `$unset` are not.
- `SkillRanking.TopSkills`: does not state the order among skills with equal counts. That order depends on `Object.entries` key order, which lists integer-like keys first, and on the runtime's sort. The model keeps keys in first-appearance order and uses an insertion sort.
- `ErrorHandler.HandleError`: the model does not cover a `ValidationError` whose `errors` field is missing. In the code, `Object.values(undefined)` then throws inside the handler.
- `Schema.CreateErrors`: the validator errors are listed name first, then e-mail. The code's `err.errors` uses the order in which mongoose records them, and the model does not constrain that order further.
- The `message` of the validation error passed to the error handler is a placeholder. The handler replaces it with "Validation error".

## Findings

| source | as written | input that shows it | evidently intended | confidence | as-written member | corrected member |
|---|---|---|---|---|---|---|
| backend/src/controllers/profileController.js:131-137 | `skillCount` is a plain object literal, so `skillCount[tech]` reads inherited `Object.prototype` properties. For `constructor` (and `toString`, `valueOf`, …) the inherited function is truthy, and `+ 1` makes the count a string. For `__proto__` the assignment of a string is ignored, so the skill disappears. `SkillRanking.BumpAsWritten` and `SkillRanking.TallyAsWritten` model this | a project whose `techStack` is `["__proto__"]` or `["constructor"]` | every distinct tech-stack string counted as a number, e.g. with `Object.create(null)` or a `Map` | high for the behaviour; not executed | `SkillRanking.ProtoEntryLostAsWritten` | `SkillRanking.TopSkills` |
