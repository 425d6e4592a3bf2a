/** The profile document: its shape, the normalising setters (`trim` on the
    name, `lowercase` on the e-mail), its validators (both fields required,
    the e-mail pattern) and the defaults of the omitted fields. */
module Schema {
  import opened Wrappers
  import opened Text

  datatype Education = Education(college: Option<string>, degree: Option<string>, year: Option<string>)

  datatype Project = Project(
    title: string,
    description: string,
    techStack: seq<string>,
    github: Option<string>,
    live: Option<string>)

  datatype Links = Links(github: Option<string>, linkedin: Option<string>, portfolio: Option<string>)

  /** A stored profile, after setters and defaults have been applied. */
  datatype Profile = Profile(
    name: string,
    email: string,
    education: seq<Education>,
    skills: seq<string>,
    projects: seq<Project>,
    links: Links)

  /** A request body: every top-level field may be omitted. */
  datatype ProfileInput = ProfileInput(
    name: Option<string>,
    email: Option<string>,
    education: Option<seq<Education>>,
    skills: Option<seq<string>>,
    projects: Option<seq<Project>>,
    links: Option<Links>)

  /** One failing validator: the path it guards and its message. */
  datatype ValidatorError = ValidatorError(path: string, message: string)

  const NoFields := ProfileInput(None, None, None, None, None, None)
  const NoLinks := Links(None, None, None)

  // ---------------------------------------------------------------------
  // The e-mail pattern /.+\@.+\..+/, tested without anchors.

  /** The characters the regular-expression `.` matches: all but the
      ECMAScript line terminators. */
  predicate IsRegexDot(c: char) {
    c != '\n' && c != '\r' && c != '\U{2028}' && c != '\U{2029}'
  }

  /** Every character of `s` strictly between `b` and `c` matches `.`. */
  predicate DotsBetween(s: string, b: int, c: int)
    requires 0 <= b && c <= |s|
  {
    forall k :: b < k < c ==> IsRegexDot(s[k])
  }

  /** The pattern matches with its `@` at index `b` and its `\.` at index `c`:
      one `.`-character before the `@`, at least one between the two, and one
      after the dot. */
  predicate EmailShapeAt(s: string, b: int, c: int) {
    1 <= b && b + 2 <= c && c + 2 <= |s|
    && s[b] == '@' && s[c] == '.'
    && IsRegexDot(s[b - 1]) && DotsBetween(s, b, c) && IsRegexDot(s[c + 1])
  }

  /** The regular expression finds a match somewhere in `s`. */
  ghost predicate EmailShape(s: string) {
    exists b, c :: EmailShapeAt(s, b, c)
  }

  /** Scans for a dot at index `k` or later that completes a match whose `@`
      is at `b`, given that the characters between them so far match `.`. */
  function DotFrom(s: string, b: int, k: int): (r: bool)
    requires 1 <= b && b < k <= |s| && DotsBetween(s, b, k)
    ensures r <==> exists c :: k <= c && EmailShapeAt(s, b, c)
    decreases |s| - k
  {
    if k + 2 > |s| then
      false
    else if s[k] == '.' && b + 2 <= k && IsRegexDot(s[k + 1]) && s[b] == '@' && IsRegexDot(s[b - 1]) then
      assert EmailShapeAt(s, b, k);
      true
    else if !IsRegexDot(s[k]) then
      assert forall c :: k < c <= |s| ==> !DotsBetween(s, b, c);
      false
    else
      DotFrom(s, b, k + 1)
  }

  /** Scans for an `@` at index `b` or later that starts a match. */
  function AtFrom(s: string, b: nat): (r: bool)
    requires 1 <= b
    ensures r <==> exists b', c :: b <= b' && EmailShapeAt(s, b', c)
    decreases |s| - b
  {
    if b + 3 >= |s| then
      false
    else if s[b] == '@' && IsRegexDot(s[b - 1]) && DotFrom(s, b, b + 1) then
      true
    else
      assert !exists c :: EmailShapeAt(s, b, c) by {
        if s[b] == '@' && IsRegexDot(s[b - 1]) {
          assert !DotFrom(s, b, b + 1);
        }
      }
      AtFrom(s, b + 1)
  }

  /** `/.+\@.+\..+/.test(s)`. */
  function MatchesEmail(s: string): (r: bool)
    ensures r <==> EmailShape(s)
  {
    AtFrom(s, 1)
  }

  // ---------------------------------------------------------------------
  // Validators and setters.

  function RequiredMessage(path: string): string {
    "Path `" + path + "` is required."
  }

  function InvalidMessage(path: string, value: string): string {
    "Path `" + path + "` is invalid (" + value + ")."
  }

  /** The `name` setter: trim. */
  function SetName(v: string): string { Trim(v) }

  /** The `email` setter: lowercase. */
  function SetEmail(v: string): string { Lower(v) }

  /** The validators of `name`, run on the value after its setter (`None`: the
      field is missing). A string is present for `required` when non-empty. */
  function CheckName(v: Option<string>): (r: Option<ValidatorError>)
    ensures r.None? <==> v.Some? && !AllSpace(v.value)
    ensures r.Some? ==> r.value == ValidatorError("name", RequiredMessage("name"))
  {
    TrimEmptyIff(v.GetOr(""));
    if v.None? || SetName(v.value) == "" then Some(ValidatorError("name", RequiredMessage("name")))
    else None
  }

  /** The validators of `email`, in schema order: `required`, then `match`,
      both on the lower-cased value. */
  function CheckEmail(v: Option<string>): (r: Option<ValidatorError>)
    ensures r.None? <==> v.Some? && EmailShape(Lower(v.value))
    ensures r.Some? && (v.None? || v.value == "") ==> r.value == ValidatorError("email", RequiredMessage("email"))
    ensures r.Some? && v.Some? && v.value != "" ==> r.value == ValidatorError("email", InvalidMessage("email", Lower(v.value)))
  {
    if v.None? || SetEmail(v.value) == "" then Some(ValidatorError("email", RequiredMessage("email")))
    else if !MatchesEmail(SetEmail(v.value)) then Some(ValidatorError("email", InvalidMessage("email", SetEmail(v.value))))
    else None
  }

  /** The failing validators of a list of checks, in order. */
  function Failures(checks: seq<Option<ValidatorError>>): (r: seq<ValidatorError>)
    ensures |r| <= |checks|
    ensures r == [] <==> forall i :: 0 <= i < |checks| ==> checks[i].None?
    ensures forall e :: e in r <==> Some(e) in checks
  {
    if checks == [] then []
    else
      assert checks == [checks[0]] + checks[1..];
      (if checks[0].Some? then [checks[0].value] else []) + Failures(checks[1..])
  }

  /** Each failing check contributes its error once: an error occurs in the
      failures as often as a check yields it. */
  lemma {:induction false} FailuresCount(checks: seq<Option<ValidatorError>>)
    ensures forall e :: multiset(Failures(checks))[e] == multiset(checks)[Some(e)]
  {
    if checks != [] {
      FailuresCount(checks[1..]);
      assert checks == [checks[0]] + checks[1..];
      var head := if checks[0].Some? then [checks[0].value] else [];
      assert Failures(checks) == head + Failures(checks[1..]);
      forall e ensures multiset(Failures(checks))[e] == multiset(checks)[Some(e)] {
        assert multiset(head)[e] == multiset([checks[0]])[Some(e)];
      }
    }
  }

  /** The failures of a name check and an e-mail check: each error that
      occurs, name first. */
  lemma FailuresOfTwo(name: Option<ValidatorError>, email: Option<ValidatorError>)
    ensures Failures([name, email])
            == (if name.Some? then [name.value] else []) + (if email.Some? then [email.value] else [])
  {
    assert [name, email][1..] == [email];
    assert [email][1..] == [];
  }

  /** The invariant every stored profile keeps: a non-empty trimmed name and a
      lower-case e-mail matching the pattern. */
  ghost predicate Valid(p: Profile) {
    p.name != "" && Trim(p.name) == p.name
    && Lower(p.email) == p.email && EmailShape(p.email)
  }

  // ---------------------------------------------------------------------
  // Creating a document.

  /** The validation errors of a new document built from `input`. */
  function CreateErrors(input: ProfileInput): (r: seq<ValidatorError>)
    ensures r == [] <==> input.name.Some? && !AllSpace(input.name.value)
                         && input.email.Some? && EmailShape(Lower(input.email.value))
    ensures ValidatorError("name", RequiredMessage("name")) in r <==> input.name.None? || AllSpace(input.name.value)
    ensures input.email.None? ==> ValidatorError("email", RequiredMessage("email")) in r
    ensures input.email == Some("") ==> ValidatorError("email", RequiredMessage("email")) in r
    ensures input.email.Some? && input.email.value != "" && !EmailShape(Lower(input.email.value)) ==>
              ValidatorError("email", InvalidMessage("email", Lower(input.email.value))) in r
    ensures forall e :: e in r <==> Some(e) == CheckName(input.name) || Some(e) == CheckEmail(input.email)
    ensures |r| <= 2
    ensures forall i, j :: 0 <= i < j < |r| ==> r[i].path != r[j].path
  {
    var name, email := CheckName(input.name), CheckEmail(input.email);
    FailuresOfTwo(name, email);
    var r := Failures([name, email]);
    CreateErrorsFacts(input, r);
    r
  }

  /** The properties of the create-time error list, given its two parts. */
  lemma CreateErrorsFacts(input: ProfileInput, r: seq<ValidatorError>)
    requires r == (if CheckName(input.name).Some? then [CheckName(input.name).value] else [])
                  + (if CheckEmail(input.email).Some? then [CheckEmail(input.email).value] else [])
    ensures r == [] <==> input.name.Some? && !AllSpace(input.name.value)
                         && input.email.Some? && EmailShape(Lower(input.email.value))
    ensures ValidatorError("name", RequiredMessage("name")) in r <==> input.name.None? || AllSpace(input.name.value)
    ensures input.email.None? ==> ValidatorError("email", RequiredMessage("email")) in r
    ensures input.email == Some("") ==> ValidatorError("email", RequiredMessage("email")) in r
    ensures input.email.Some? && input.email.value != "" && !EmailShape(Lower(input.email.value)) ==>
              ValidatorError("email", InvalidMessage("email", Lower(input.email.value))) in r
    ensures forall e :: e in r <==> Some(e) == CheckName(input.name) || Some(e) == CheckEmail(input.email)
    ensures |r| <= 2
    ensures forall i, j :: 0 <= i < j < |r| ==> r[i].path != r[j].path
  {
    var name, email := CheckName(input.name), CheckEmail(input.email);
    if name.Some? && email.Some? {
      assert r == [name.value, email.value];
    } else if name.Some? {
      assert r == [name.value];
    } else if email.Some? {
      assert r == [email.value];
    }
  }

  /** `new Profile(input)` followed by its validation: setters and defaults
      applied, or the list of failing validators. */
  function NewProfile(input: ProfileInput): (r: Result<Profile, seq<ValidatorError>>)
    ensures r.Ok? <==> CreateErrors(input) == []
    ensures r.Err? ==> r.error == CreateErrors(input) && r.error != []
    ensures r.Ok? ==> Valid(r.value)
    ensures r.Ok? ==> r.value.name == Trim(input.name.value) && r.value.email == Lower(input.email.value)
    ensures r.Ok? ==> r.value.skills == input.skills.GetOr([]) && r.value.education == input.education.GetOr([])
                      && r.value.projects == input.projects.GetOr([]) && r.value.links == input.links.GetOr(NoLinks)
  {
    var errors := CreateErrors(input);
    if errors != [] then Err(errors)
    else
      var p := Profile(
        SetName(input.name.value), SetEmail(input.email.value),
        input.education.GetOr([]), input.skills.GetOr([]),
        input.projects.GetOr([]), input.links.GetOr(NoLinks));
      TrimIdempotent(input.name.value);
      TrimEmptyIff(input.name.value);
      LowerIdempotent(input.email.value);
      Ok(p)
  }

  /** A document missing its name or its e-mail is never created. */
  lemma MissingRequiredRejected(input: ProfileInput)
    requires input.name.None? || input.email.None?
    ensures NewProfile(input).Err?
    ensures input.name.None? ==> ValidatorError("name", RequiredMessage("name")) in NewProfile(input).error
    ensures input.email.None? ==> ValidatorError("email", RequiredMessage("email")) in NewProfile(input).error
  {
  }

  // ---------------------------------------------------------------------
  // Updating a document: `$set` of the given top-level fields.

  /** The update validators: only the paths the update names are checked. */
  function UpdateErrors(patch: ProfileInput): (r: seq<ValidatorError>)
    ensures r == [] <==> (patch.name.Some? ==> !AllSpace(patch.name.value))
                         && (patch.email.Some? ==> EmailShape(Lower(patch.email.value)))
    ensures forall e :: e in r <==> (patch.name.Some? && Some(e) == CheckName(patch.name))
                                    || (patch.email.Some? && Some(e) == CheckEmail(patch.email))
    ensures forall i, j :: 0 <= i < j < |r| ==> r[i].path != r[j].path
  {
    var r := Failures([UpdateCheck(patch.name, CheckName), UpdateCheck(patch.email, CheckEmail)]);
    UpdateErrorsFacts(patch, r);
    r
  }

  /** An update validator runs only on a path the update sets. */
  function UpdateCheck(v: Option<string>, check: Option<string> -> Option<ValidatorError>): Option<ValidatorError> {
    if v.Some? then check(v) else None
  }

  /** The properties of the update-time error list, given its two parts. */
  lemma UpdateErrorsFacts(patch: ProfileInput, r: seq<ValidatorError>)
    requires r == Failures([UpdateCheck(patch.name, CheckName), UpdateCheck(patch.email, CheckEmail)])
    ensures r == [] <==> (patch.name.Some? ==> !AllSpace(patch.name.value))
                         && (patch.email.Some? ==> EmailShape(Lower(patch.email.value)))
    ensures forall e :: e in r <==> (patch.name.Some? && Some(e) == CheckName(patch.name))
                                    || (patch.email.Some? && Some(e) == CheckEmail(patch.email))
    ensures forall i, j :: 0 <= i < j < |r| ==> r[i].path != r[j].path
  {
    FailuresOfTwo(UpdateCheck(patch.name, CheckName), UpdateCheck(patch.email, CheckEmail));
  }

  /** The document after `$set` of every field `patch` gives, with the
      setters applied to the new values. */
  function Merge(p: Profile, patch: ProfileInput): Profile {
    Profile(
      if patch.name.Some? then SetName(patch.name.value) else p.name,
      if patch.email.Some? then SetEmail(patch.email.value) else p.email,
      patch.education.GetOr(p.education),
      patch.skills.GetOr(p.skills),
      patch.projects.GetOr(p.projects),
      patch.links.GetOr(p.links))
  }

  /** Omitted fields keep their value; given ones are replaced wholesale
      (after the setter), with no merging of nested lists or objects. */
  lemma MergeOverwrites(p: Profile, patch: ProfileInput)
    ensures var r := Merge(p, patch);
      (patch.name.None? ==> r.name == p.name)
      && (patch.name.Some? ==> r.name == Trim(patch.name.value))
      && (patch.email.None? ==> r.email == p.email)
      && (patch.email.Some? ==> r.email == Lower(patch.email.value))
      && (patch.education.None? ==> r.education == p.education)
      && (patch.education.Some? ==> r.education == patch.education.value)
      && (patch.skills.None? ==> r.skills == p.skills)
      && (patch.skills.Some? ==> r.skills == patch.skills.value)
      && (patch.projects.None? ==> r.projects == p.projects)
      && (patch.projects.Some? ==> r.projects == patch.projects.value)
      && (patch.links.None? ==> r.links == p.links)
      && (patch.links.Some? ==> r.links == patch.links.value)
  {
  }

  /** An update that passes its validators keeps a valid document valid. */
  lemma MergePreservesValid(p: Profile, patch: ProfileInput)
    requires Valid(p) && UpdateErrors(patch) == []
    ensures Valid(Merge(p, patch))
  {
    if patch.name.Some? {
      TrimIdempotent(patch.name.value);
      TrimEmptyIff(patch.name.value);
    }
    if patch.email.Some? {
      LowerIdempotent(patch.email.value);
    }
  }

  /** Applying the same update twice is applying it once. */
  lemma MergeIdempotent(p: Profile, patch: ProfileInput)
    ensures Merge(Merge(p, patch), patch) == Merge(p, patch)
  {
    var once := Merge(p, patch);
    var twice := Merge(once, patch);
    if patch.name.Some? { TrimIdempotent(patch.name.value); }
    assert twice.name == once.name;
    if patch.email.Some? { LowerIdempotent(patch.email.value); }
    assert twice.email == once.email;
  }

  /** An empty update changes nothing. */
  lemma MergeNothing(p: Profile)
    ensures Merge(p, NoFields) == p
  {
  }

  /** Updating with every field given yields the document that creating from
      the same body would: an update that names all fields is a re-creation. */
  lemma MergeAllFieldsIsNew(p: Profile, input: ProfileInput)
    requires input.name.Some? && input.email.Some? && input.education.Some?
             && input.skills.Some? && input.projects.Some? && input.links.Some?
    requires NewProfile(input).Ok?
    ensures Merge(p, input) == NewProfile(input).value
  {
  }
}
