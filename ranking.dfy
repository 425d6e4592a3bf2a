/** The skill-frequency ranking: a tally of every tech-stack entry across
    all projects, listed by count, highest first. */
module SkillRanking {
  import opened Schema

  datatype SkillCount = SkillCount(skill: string, count: nat)

  /** Every tech-stack entry of `projects`, project by project, in order. */
  function AllTech(projects: seq<Project>): seq<string> {
    if projects == [] then []
    else AllTech(projects[..|projects| - 1]) + projects[|projects| - 1].techStack
  }

  /** One more project adds its tech stack at the end. */
  lemma AllTechSnoc(projects: seq<Project>, i: nat)
    requires i < |projects|
    ensures AllTech(projects[..i + 1]) == AllTech(projects[..i]) + projects[i].techStack
  {
    assert projects[..i + 1][..i] == projects[..i];
  }

  /** How many tech-stack entries across all projects equal `t` exactly
      (case matters). */
  function Occurrences(projects: seq<Project>, t: string): nat {
    multiset(AllTech(projects))[t]
  }

  /** The skills of a ranking, in order. */
  function SkillsOf(entries: seq<SkillCount>): (r: seq<string>)
    ensures |r| == |entries|
    ensures forall i :: 0 <= i < |entries| ==> r[i] == entries[i].skill
  {
    if entries == [] then [] else SkillsOf(entries[..|entries| - 1]) + [entries[|entries| - 1].skill]
  }

  /** The sum of the counts of a ranking. */
  function Total(entries: seq<SkillCount>): nat {
    if entries == [] then 0 else Total(entries[..|entries| - 1]) + entries[|entries| - 1].count
  }

  /** No skill is listed twice. */
  predicate DistinctSkills(entries: seq<SkillCount>) {
    forall i, j :: 0 <= i < j < |entries| ==> entries[i].skill != entries[j].skill
  }

  /** Counts never increase along the ranking. */
  predicate ByCountDesc(entries: seq<SkillCount>) {
    forall i, j :: 0 <= i < j < |entries| ==> entries[i].count >= entries[j].count
  }

  // ---------------------------------------------------------------------
  // The tally: a dictionary from skill to count, and its keys in the order
  // they were first added.

  /** The sum of the counts the dictionary `m` holds for `keys`. */
  function SumOver(keys: seq<string>, m: map<string, nat>): nat
    requires forall k :: k in keys ==> k in m
  {
    if keys == [] then 0 else SumOver(keys[..|keys| - 1], m) + m[keys[|keys| - 1]]
  }

  /** The entries of the dictionary, key by key: `Object.entries` mapped to
      `{skill, count}`. */
  function Entries(keys: seq<string>, m: map<string, nat>): (r: seq<SkillCount>)
    requires forall k :: k in keys ==> k in m
    ensures |r| == |keys|
    ensures forall i :: 0 <= i < |keys| ==> r[i] == SkillCount(keys[i], m[keys[i]])
  {
    if keys == [] then [] else Entries(keys[..|keys| - 1], m) + [SkillCount(keys[|keys| - 1], m[keys[|keys| - 1]])]
  }

  lemma {:induction false} EntriesTotal(keys: seq<string>, m: map<string, nat>)
    requires forall k :: k in keys ==> k in m
    ensures Total(Entries(keys, m)) == SumOver(keys, m)
  {
    if keys != [] {
      var n := |keys| - 1;
      EntriesTotal(keys[..n], m);
      assert Entries(keys, m)[..n] == Entries(keys[..n], m);
    }
  }

  /** Changing the dictionary outside `keys` leaves their sum alone. */
  lemma {:induction false} SumOverFrame(keys: seq<string>, m: map<string, nat>, m': map<string, nat>)
    requires forall k :: k in keys ==> k in m && k in m' && m[k] == m'[k]
    ensures SumOver(keys, m) == SumOver(keys, m')
  {
    if keys != [] {
      SumOverFrame(keys[..|keys| - 1], m, m');
    }
  }

  /** Adding one to the count of a key listed once adds one to the sum. */
  lemma {:induction false} SumOverIncrement(keys: seq<string>, m: map<string, nat>, t: string)
    requires forall k :: k in keys ==> k in m
    requires forall i, j :: 0 <= i < j < |keys| ==> keys[i] != keys[j]
    requires t in keys
    ensures SumOver(keys, m[t := m[t] + 1]) == SumOver(keys, m) + 1
  {
    var n := |keys| - 1;
    var m' := m[t := m[t] + 1];
    if keys[n] == t {
      assert t !in keys[..n];
      SumOverFrame(keys[..n], m, m');
    } else {
      assert t in keys[..n];
      SumOverIncrement(keys[..n], m, t);
    }
  }

  // ---------------------------------------------------------------------
  // Ordering by count.

  /** Where `e` goes in a ranking: before the first entry whose count is not
      larger than its own. */
  function InsertPos(e: SkillCount, sorted: seq<SkillCount>): (k: nat)
    ensures k <= |sorted|
    ensures forall i :: 0 <= i < k ==> sorted[i].count > e.count
    ensures k < |sorted| ==> sorted[k].count <= e.count
  {
    if sorted == [] || sorted[0].count <= e.count then 0 else 1 + InsertPos(e, sorted[1..])
  }

  /** `sorted` with `e` placed at its position. */
  function Insert(e: SkillCount, sorted: seq<SkillCount>): (r: seq<SkillCount>)
    ensures ByCountDesc(sorted) ==> ByCountDesc(r)
  {
    var k := InsertPos(e, sorted);
    var r := sorted[..k] + [e] + sorted[k..];
    if ByCountDesc(sorted) then
      assert forall i :: 0 <= i < |r| ==> r[i] == if i < k then sorted[i] else if i == k then e else sorted[i - 1];
      assert forall i :: k < i < |r| ==> r[i].count <= e.count;
      r
    else
      r
  }

  lemma TotalAppend(a: seq<SkillCount>, b: seq<SkillCount>)
    ensures Total(a + b) == Total(a) + Total(b)
    decreases |b|
  {
    if b == [] {
      assert a + b == a;
    } else {
      var n := |b| - 1;
      assert (a + b)[..|a + b| - 1] == a + b[..n];
      assert (a + b)[|a + b| - 1] == b[n];
      TotalAppend(a, b[..n]);
    }
  }

  /** Inserting into a ranking with distinct skills an entry whose skill
      differs from all of theirs keeps the skills distinct. */
  lemma SortStepDistinct(entries: seq<SkillCount>, rest: seq<SkillCount>, k: nat, r: seq<SkillCount>)
    requires entries != [] && DistinctSkills(entries)
    requires multiset(rest) == multiset(entries[1..]) && DistinctSkills(rest)
    requires k <= |rest| && r == rest[..k] + [entries[0]] + rest[k..]
    ensures DistinctSkills(r)
  {
    var e := entries[0];
    forall i, j | 0 <= i < j < |r| ensures r[i].skill != r[j].skill {
      if i != k && j != k {
        var i' := if i < k then i else i - 1;
        var j' := if j < k then j else j - 1;
        assert r[i] == rest[i'] && r[j] == rest[j'];
      } else {
        var o := if i == k then j else i;
        var o' := if o < k then o else o - 1;
        assert r[o] == rest[o'];
        assert rest[o'] in multiset(rest);
        assert rest[o'] in entries[1..];
        var p :| 0 <= p < |entries[1..]| && entries[1..][p] == rest[o'];
        assert entries[p + 1] == r[o] && entries[0] == e;
      }
    }
  }

  /** Insertion adds `e` to the entries and its count to the total. */
  lemma InsertAdds(e: SkillCount, sorted: seq<SkillCount>)
    ensures multiset(Insert(e, sorted)) == multiset(sorted) + multiset{e}
    ensures |Insert(e, sorted)| == |sorted| + 1
    ensures Total(Insert(e, sorted)) == Total(sorted) + e.count
  {
    var k := InsertPos(e, sorted);
    assert sorted == sorted[..k] + sorted[k..];
    TotalAppend(sorted[..k] + [e], sorted[k..]);
    TotalAppend(sorted[..k], [e]);
    TotalAppend(sorted[..k], sorted[k..]);
    assert Total([e]) == e.count by { assert [e][..0] == []; }
  }

  /** `entries` ordered by count, highest first: a permutation of the entries
      that keeps the total and lists no skill twice if the input did not. */
  function SortByCount(entries: seq<SkillCount>): (r: seq<SkillCount>)
    ensures ByCountDesc(r)
    ensures multiset(r) == multiset(entries)
    ensures |r| == |entries|
    ensures Total(r) == Total(entries)
    ensures DistinctSkills(entries) ==> DistinctSkills(r)
  {
    if entries == [] then []
    else
      var rest := SortByCount(entries[1..]);
      SortStep(entries, rest);
      Insert(entries[0], rest)
  }

  /** One step of the insertion sort: inserting the first entry into a
      sorted permutation of the others gives a sorted permutation of all. */
  lemma SortStep(entries: seq<SkillCount>, rest: seq<SkillCount>)
    requires entries != [] && ByCountDesc(rest)
    requires multiset(rest) == multiset(entries[1..]) && |rest| == |entries| - 1
    requires Total(rest) == Total(entries[1..])
    requires DistinctSkills(entries[1..]) ==> DistinctSkills(rest)
    ensures ByCountDesc(Insert(entries[0], rest))
    ensures multiset(Insert(entries[0], rest)) == multiset(entries)
    ensures |Insert(entries[0], rest)| == |entries|
    ensures Total(Insert(entries[0], rest)) == Total(entries)
    ensures DistinctSkills(entries) ==> DistinctSkills(Insert(entries[0], rest))
  {
    var e := entries[0];
    var r := Insert(e, rest);
    InsertAdds(e, rest);
    assert entries == [e] + entries[1..];
    TotalAppend([e], entries[1..]);
    assert Total([e]) == e.count by { assert [e][..0] == []; }
    if DistinctSkills(entries) {
      SortStepDistinct(entries, rest, InsertPos(e, rest), r);
    }
  }

  // ---------------------------------------------------------------------
  // The handler's computation.

  lemma PrefixSnoc<T>(s: seq<T>, j: nat)
    requires j < |s|
    ensures s[..j + 1] == s[..j] + [s[j]]
  {
  }

  /** The dictionary's keys are the listed keys, which are the entries seen. */
  ghost predicate SameKeys(keys: seq<string>, counts: map<string, nat>, seen: seq<string>) {
    (forall t :: t in counts <==> t in keys) && (forall t :: t in keys <==> t in seen)
  }

  /** No key is listed twice. */
  predicate NoRepeats(keys: seq<string>) {
    forall a, b :: 0 <= a < b < |keys| ==> keys[a] != keys[b]
  }

  /** Each key maps to its number of occurrences among the entries seen. */
  ghost predicate CountsOf(counts: map<string, nat>, seen: seq<string>) {
    forall t :: t in counts ==> counts[t] == multiset(seen)[t]
  }

  /** `keys` and `counts` are the dictionary built from the entries `seen`:
      its keys are the distinct entries in order of first appearance, each
      mapped to its number of occurrences. */
  ghost predicate TallyOf(keys: seq<string>, counts: map<string, nat>, seen: seq<string>) {
    SameKeys(keys, counts, seen) && NoRepeats(keys) && CountsOf(counts, seen)
    && SumOver(keys, counts) == |seen|
  }

  /** `skillCount[tech] = (skillCount[tech] || 0) + 1`. */
  function Bump(counts: map<string, nat>, tech: string): (r: map<string, nat>)
    ensures forall t :: t in r <==> t in counts || t == tech
    ensures forall t :: t in counts && t != tech ==> r[t] == counts[t]
    ensures tech !in counts ==> r[tech] == 1
    ensures tech in counts ==> r[tech] == counts[tech] + 1
  {
    counts[tech := (if tech in counts then counts[tech] else 0) + 1]
  }

  /** The key order after `Bump`: a new key goes last. */
  function KeysAfterBump(keys: seq<string>, counts: map<string, nat>, tech: string): seq<string> {
    if tech in counts then keys else keys + [tech]
  }

  /** Counting one more occurrence of a known key. */
  lemma TallyKnown(keys: seq<string>, counts: map<string, nat>, seen: seq<string>, tech: string)
    requires TallyOf(keys, counts, seen) && tech in counts
    ensures TallyOf(keys, counts[tech := counts[tech] + 1], seen + [tech])
  {
    SumOverIncrement(keys, counts, tech);
  }

  /** Counting the first occurrence of a new key. */
  lemma TallyFresh(keys: seq<string>, counts: map<string, nat>, seen: seq<string>, tech: string)
    requires TallyOf(keys, counts, seen) && tech !in counts
    ensures TallyOf(keys + [tech], counts[tech := 1], seen + [tech])
  {
    var keys', counts', seen' := keys + [tech], counts[tech := 1], seen + [tech];
    assert tech !in seen;
    assert SameKeys(keys', counts', seen');
    forall a, b | 0 <= a < b < |keys'| ensures keys'[a] != keys'[b] {
      assert keys'[a] == keys[a];
      if b == |keys| {
        assert keys[a] in keys;
      } else {
        assert keys'[b] == keys[b];
      }
    }
    assert NoRepeats(keys');
    assert multiset(seen') == multiset(seen) + multiset{tech};
    assert CountsOf(counts', seen');
    SumOverFrame(keys, counts, counts');
    assert keys'[..|keys|] == keys;
    assert SumOver(keys', counts') == SumOver(keys, counts') + 1;
    assert SumOver(keys', counts') == |seen'|;
  }

  /** One step of the loop keeps the dictionary the tally of the entries
      seen so far. */
  lemma TallyStep(keys: seq<string>, counts: map<string, nat>, seen: seq<string>, stack: seq<string>, j: nat)
    requires j < |stack| && TallyOf(keys, counts, seen + stack[..j])
    ensures TallyOf(KeysAfterBump(keys, counts, stack[j]), Bump(counts, stack[j]), seen + stack[..j + 1])
  {
    PrefixSnoc(stack, j);
    assert seen + stack[..j + 1] == seen + stack[..j] + [stack[j]];
    if stack[j] in counts {
      TallyKnown(keys, counts, seen + stack[..j], stack[j]);
    } else {
      TallyFresh(keys, counts, seen + stack[..j], stack[j]);
    }
  }

  /** The inner `forEach`: counts each entry of one tech stack into the
      dictionary, so that it becomes the tally of `seen` followed by `stack`. */
  method TallyStack(stack: seq<string>, keys0: seq<string>, counts0: map<string, nat>, ghost seen: seq<string>)
    returns (keys: seq<string>, counts: map<string, nat>)
    requires TallyOf(keys0, counts0, seen)
    ensures TallyOf(keys, counts, seen + stack)
  {
    keys, counts := keys0, counts0;
    var j := 0;
    while j < |stack|
      invariant 0 <= j <= |stack|
      invariant TallyOf(keys, counts, seen + stack[..j])
    {
      TallyStep(keys, counts, seen, stack, j);
      keys, counts := KeysAfterBump(keys, counts, stack[j]), Bump(counts, stack[j]);
      j := j + 1;
    }
    assert stack[..j] == stack;
  }

  /** The dictionary the nested `forEach` loops build: for each tech-stack
      entry of each project, in order, its count goes up by one, starting from
      nothing. `keys` lists the dictionary's keys in the order they were added. */
  method Tally(projects: seq<Project>) returns (keys: seq<string>, counts: map<string, nat>)
    ensures TallyOf(keys, counts, AllTech(projects))
  {
    counts := map[];
    keys := [];
    var i := 0;
    while i < |projects|
      invariant 0 <= i <= |projects|
      invariant TallyOf(keys, counts, AllTech(projects[..i]))
    {
      keys, counts := TallyStack(projects[i].techStack, keys, counts, AllTech(projects[..i]));
      AllTechSnoc(projects, i);
      i := i + 1;
    }
    assert projects[..i] == projects;
  }

  /** Two permutations of each other hold the same entries. */
  lemma SameMembers(a: seq<SkillCount>, b: seq<SkillCount>)
    requires multiset(a) == multiset(b)
    ensures forall x :: x in a <==> x in b
  {
    forall x ensures x in a <==> x in b {
      assert x in a <==> x in multiset(a);
      assert x in b <==> x in multiset(b);
    }
  }

  /** A skill is listed exactly when some entry carries it. */
  lemma SkillsOfMember(entries: seq<SkillCount>, t: string)
    ensures t in SkillsOf(entries) <==> exists x :: x in entries && x.skill == t
  {
    if t in SkillsOf(entries) {
      var a :| 0 <= a < |entries| && SkillsOf(entries)[a] == t;
      assert entries[a] in entries;
    }
    if exists x :: x in entries && x.skill == t {
      var x :| x in entries && x.skill == t;
      var a :| 0 <= a < |entries| && entries[a] == x;
      assert SkillsOf(entries)[a] == t;
    }
  }

  /** The entries of a dictionary list its keys once each, with their counts. */
  lemma EntriesFacts(keys: seq<string>, counts: map<string, nat>)
    requires forall k :: k in keys ==> k in counts
    requires forall a, b :: 0 <= a < b < |keys| ==> keys[a] != keys[b]
    ensures DistinctSkills(Entries(keys, counts))
    ensures forall x :: x in Entries(keys, counts) ==> x.skill in keys && x.count == counts[x.skill]
    ensures forall t :: t in keys ==> SkillCount(t, counts[t]) in Entries(keys, counts)
  {
    var entries := Entries(keys, counts);
    forall t | t in keys ensures SkillCount(t, counts[t]) in entries {
      var a :| 0 <= a < |keys| && keys[a] == t;
      assert entries[a] == SkillCount(t, counts[t]);
    }
  }

  /** Ordering the dictionary's entries by count keeps what the tally says:
      the listed skills are exactly the entries, each once, with its count. */
  lemma RankingOfTally(projects: seq<Project>, keys: seq<string>, counts: map<string, nat>, top: seq<SkillCount>)
    requires TallyOf(keys, counts, AllTech(projects))
    requires top == SortByCount(Entries(keys, counts))
    ensures forall t :: t in SkillsOf(top) <==> t in AllTech(projects)
    ensures DistinctSkills(top)
    ensures forall i :: 0 <= i < |top| ==> top[i].count == Occurrences(projects, top[i].skill)
    ensures Total(top) == |AllTech(projects)|
  {
    var entries := Entries(keys, counts);
    EntriesTotal(keys, counts);
    EntriesFacts(keys, counts);
    SameMembers(top, entries);
    forall t ensures t in SkillsOf(top) <==> t in AllTech(projects) {
      SkillsOfMember(top, t);
      if t in keys {
        assert SkillCount(t, counts[t]) in top;
      }
    }
    forall a | 0 <= a < |top| ensures top[a].count == Occurrences(projects, top[a].skill) {
      assert top[a] in entries;
    }
  }

  /** The top-skills list of `projects`: each distinct tech-stack string once,
      with its number of occurrences, ordered by count, highest first. Ties are
      left in no particular order. */
  method TopSkills(projects: seq<Project>) returns (top: seq<SkillCount>)
    ensures forall t :: t in SkillsOf(top) <==> t in AllTech(projects)
    ensures DistinctSkills(top)
    ensures forall i :: 0 <= i < |top| ==> top[i].count == Occurrences(projects, top[i].skill)
    ensures Total(top) == |AllTech(projects)|
    ensures ByCountDesc(top)
  {
    var keys, counts := Tally(projects);
    top := SortByCount(Entries(keys, counts));
    RankingOfTally(projects, keys, counts, top);
  }

  // ---------------------------------------------------------------------
  // The dictionary as written: a plain object literal, which inherits the
  // properties of `Object.prototype`.

  /** A value stored in the as-written dictionary: a number, or the string
      that `+ 1` makes of an inherited function. */
  datatype JsValue = Number(n: nat) | Str(s: string)

  /** The names `Object.prototype` provides, which `skillCount[tech]` reads
      through before `tech` has been stored. */
  const InheritedNames: set<string> := {
    "constructor", "hasOwnProperty", "isPrototypeOf", "propertyIsEnumerable",
    "toLocaleString", "toString", "valueOf", "__defineGetter__",
    "__defineSetter__", "__lookupGetter__", "__lookupSetter__", "__proto__"}

  /** The source text of the inherited function `({})[name]`: the method of
      that name, except that `constructor` is the `Object` function. */
  function InheritedSource(name: string): (r: string)
    ensures name == "constructor" ==> r == "function Object() { [native code] }"
    ensures name != "constructor" ==> r == "function " + name + "() { [native code] }"
  {
    "function " + (if name == "constructor" then "Object" else name) + "() { [native code] }"
  }

  /** `skillCount[tech] = (skillCount[tech] || 0) + 1` on a plain object. An
      inherited function is truthy, so `+ 1` appends "1" to its source text; an
      assignment to `__proto__` of a string is ignored. */
  function BumpAsWritten(m: map<string, JsValue>, tech: string): (r: map<string, JsValue>)
    ensures forall t :: t in r <==> t in m || (t == tech && tech != "__proto__")
    ensures forall t :: t in m && t != tech ==> r[t] == m[t]
    ensures tech in InheritedNames && tech != "__proto__" && tech !in m ==> r[tech] == Str(InheritedSource(tech) + "1")
    ensures tech !in InheritedNames && tech !in m ==> r[tech] == Number(1)
    ensures tech != "__proto__" && tech in m && m[tech].Number? ==> r[tech] == Number(m[tech].n + 1)
    ensures tech != "__proto__" && tech in m && m[tech].Str? ==> r[tech] == Str(m[tech].s + "1")
  {
    if tech == "__proto__" then m
    else if tech in m then
      m[tech := match m[tech] case Number(n) => Number(n + 1) case Str(s) => Str(s + "1")]
    else if tech in InheritedNames then
      m[tech := Str(InheritedSource(tech) + "1")]
    else
      m[tech := Number(1)]
  }

  /** The as-written dictionary after counting `techs` in order: its keys are
      the entries seen, except "__proto__", which never becomes one. */
  function TallyAsWritten(techs: seq<string>): (r: map<string, JsValue>)
    ensures forall t :: t in r <==> t in techs && t != "__proto__"
  {
    if techs == [] then map[]
    else
      var init := techs[..|techs| - 1];
      assert techs == init + [techs[|techs| - 1]];
      BumpAsWritten(TallyAsWritten(init), techs[|techs| - 1])
  }

  /** The divergence is confined to the inherited names: as written, any
      other entry is counted exactly, as a number. */
  lemma {:induction false} TallyAsWrittenCounts(techs: seq<string>, t: string)
    requires t !in InheritedNames && t in techs
    ensures t in TallyAsWritten(techs) && TallyAsWritten(techs)[t] == Number(multiset(techs)[t])
  {
    var init := techs[..|techs| - 1];
    var last := techs[|techs| - 1];
    assert techs == init + [last];
    assert TallyAsWritten(techs) == BumpAsWritten(TallyAsWritten(init), last);
    assert multiset(techs) == multiset(init) + multiset{last};
    assert t != "__proto__";
    var before := TallyAsWritten(init);
    if last != t {
      TallyAsWrittenCounts(init, t);
      assert multiset(techs)[t] == multiset(init)[t];
      assert TallyAsWritten(techs)[t] == before[t];
    } else if t in init {
      TallyAsWrittenCounts(init, t);
      assert multiset(techs)[t] == before[t].n + 1;
      assert TallyAsWritten(techs)[t] == Number(before[t].n + 1);
    } else {
      assert t !in before;
      assert multiset(techs)[t] == 1;
      assert TallyAsWritten(techs)[t] == Number(1);
    }
  }

  /** A project whose tech stack is `stack` and nothing else. */
  function StackOnly(stack: seq<string>): Project {
    Project("", "", stack, Wrappers.None, Wrappers.None)
  }

  /** As written, a tech-stack entry "__proto__" is never counted, so the
      ranking misses a skill the projects use; the corrected tally lists it
      once with count 1. */
  lemma ProtoEntryLostAsWritten(keys: seq<string>, counts: map<string, nat>)
    requires TallyOf(keys, counts, AllTech([StackOnly(["__proto__"])]))
    ensures TallyAsWritten(AllTech([StackOnly(["__proto__"])])) == map[]
    ensures Occurrences([StackOnly(["__proto__"])], "__proto__") == 1
    ensures "__proto__" in keys && "__proto__" in counts && counts["__proto__"] == 1
  {
    var all := AllTech([StackOnly(["__proto__"])]);
    assert [StackOnly(["__proto__"])][..0] == [];
    assert all == ["__proto__"];
    assert all[..0] == [];
    assert multiset(all)["__proto__"] == 1;
  }

  /** As written, "constructor" in a tech stack gets the string
      "function Object() { [native code] }1", not a number, as its count; the corrected tally counts it 1. */
  lemma ConstructorCountAsWritten(keys: seq<string>, counts: map<string, nat>)
    requires TallyOf(keys, counts, AllTech([StackOnly(["constructor"])]))
    ensures TallyAsWritten(AllTech([StackOnly(["constructor"])]))["constructor"]
            == Str("function Object() { [native code] }1")
    ensures "constructor" in counts && counts["constructor"] == 1
  {
    var all := AllTech([StackOnly(["constructor"])]);
    assert [StackOnly(["constructor"])][..0] == [];
    assert all == ["constructor"];
    assert all[..0] == [];
    assert multiset(all)["constructor"] == 1;
  }
}
