/** What the two unit-catalogue scripts share: the Unit record and its
    category enum, the syllabus item they read, the `\s+` to `-` slugging of
    unit numbers, the "has simulations" test, and a reference first-match
    keyword classifier against which both category functions are checked. */
module UnitCatalogue {
  import opened Strings

  /** The `category` enum of the Unit model. */
  const UnitCategories: set<string> := {"mechanics", "thermodynamics", "electromagnetism", "optics", "modern-physics", "other"}

  /** One entry of the syllabus list; `titleHi` may be absent. */
  datatype SyllabusItem = SyllabusItem(unit: string, title: string, titleHi: Option<string>)

  /** A stored unit, keyed by its `unitId`. The `updatedAt` timestamp is not modelled. */
  datatype UnitRecord = UnitRecord(
    unitNumber: string,
    title: string,
    titleHi: Option<string>,
    category: string,
    hasSimulations: bool,
    isVisible: bool)

  /** The syllabus fields the schema requires are present (non-empty). */
  predicate Complete(item: SyllabusItem) {
    item.unit != "" && item.title != ""
  }

  /** The unit data a script writes under the id `id`. */
  datatype Entry = Entry(id: string, data: UnitRecord)

  function EntryIds(es: seq<Entry>): set<string> {
    set e | e in es :: e.id
  }

  /** No entry in `es[i + 1..n]` has the id of `es[i]`. */
  predicate LastWithId(es: seq<Entry>, i: int, n: int)
    requires 0 <= i < n <= |es|
  {
    forall j :: i < j < n ==> es[j].id != es[i].id
  }

  lemma EntryIdsStep(es: seq<Entry>, n: nat)
    requires n < |es|
    ensures EntryIds(es[..n + 1]) == EntryIds(es[..n]) + {es[n].id}
  {
    assert es[..n + 1] == es[..n] + [es[n]];
  }

  /** The schema validation a write must pass: the required strings are
      non-empty, the id after its `trim` setter. The category enum is not
      part of it: every category a script computes is in the enum. */
  predicate Storable(id: string, u: UnitRecord) {
    !AllSpace(id) && u.unitNumber != "" && u.title != ""
  }

  /** A storable prefix followed by a storable entry is a longer storable prefix. */
  lemma StepStorable(es: seq<Entry>, n: nat)
    requires n < |es| && forall i :: 0 <= i < n ==> Storable(es[i].id, es[i].data)
    requires Storable(es[n].id, es[n].data)
    ensures forall i :: 0 <= i < n + 1 ==> Storable(es[i].id, es[i].data)
  {
  }

  /** `replace(/\s+/g, '-')`: every maximal whitespace run becomes one `-`. */
  function DashRuns(s: string): (r: string)
    ensures NoSpace(r)
    ensures |r| <= |s|
    ensures r == [] <==> s == []
  {
    DashRunsAfter(s, false)
  }

  /** The replacement scan; `inRun` says whether the previous character was
      whitespace, in which case a further whitespace character adds nothing. */
  function DashRunsAfter(s: string, inRun: bool): (r: string)
    ensures NoSpace(r)
    ensures |r| <= |s|
    ensures !inRun ==> (r == [] <==> s == [])
  {
    if s == [] then []
    else if IsSpace(s[0]) then (if inRun then "" else "-") + DashRunsAfter(s[1..], true)
    else [s[0]] + DashRunsAfter(s[1..], false)
  }

  /** A string without whitespace is left as it is. */
  lemma {:induction false} DashRunsNoSpace(s: string, inRun: bool)
    requires NoSpace(s)
    ensures DashRunsAfter(s, inRun) == s
    decreases |s|
  {
    if s != [] {
      assert !IsSpace(s[0]);
      assert NoSpace(s[1..]) by {
        forall k | 0 <= k < |s[1..]| ensures !IsSpace(s[1..][k]) { assert s[1..][k] == s[k + 1]; }
      }
      DashRunsNoSpace(s[1..], false);
    }
  }

  /** A run of whitespace, followed by the end or by a non-whitespace
      character, contributes a single dash. */
  lemma {:induction false} DashRunsLeadingRun(w: string, b: string, inRun: bool)
    requires w != [] && AllSpace(w)
    requires b == [] || !IsSpace(b[0])
    ensures DashRunsAfter(w + b, inRun) == (if inRun then "" else "-") + DashRunsAfter(b, false)
    decreases |w|
  {
    var s := w + b;
    assert s[0] == w[0] && IsSpace(s[0]);
    assert s[1..] == w[1..] + b;
    if |w| == 1 {
      assert s[1..] == b;
      if b != [] {
        assert DashRunsAfter(b, true) == DashRunsAfter(b, false);
      }
    } else {
      assert AllSpace(w[1..]) by {
        forall k | 0 <= k < |w[1..]| ensures IsSpace(w[1..][k]) { assert w[1..][k] == w[k + 1]; }
      }
      DashRunsLeadingRun(w[1..], b, true);
    }
  }

  /** A whitespace run between a whitespace-free word and the rest collapses
      to one dash; with `DashRunsNoSpace` this fixes the result on every input. */
  lemma {:induction false} DashRunsRun(a: string, w: string, b: string)
    requires NoSpace(a)
    requires w != [] && AllSpace(w)
    requires b == [] || !IsSpace(b[0])
    ensures DashRuns(a + w + b) == a + "-" + DashRuns(b)
    decreases |a|
  {
    assert a + w + b == a + (w + b);
    WordPrefix(a, w + b);
    DashRunsLeadingRun(w, b, false);
  }

  /** A whitespace-free prefix is copied through unchanged. */
  lemma {:induction false} WordPrefix(a: string, t: string)
    requires NoSpace(a)
    ensures DashRunsAfter(a + t, false) == a + DashRunsAfter(t, false)
    decreases |a|
  {
    if a == [] {
      assert a + t == t;
    } else {
      var s := a + t;
      assert s[0] == a[0] && !IsSpace(s[0]);
      assert s[1..] == a[1..] + t;
      assert NoSpace(a[1..]) by {
        forall k | 0 <= k < |a[1..]| ensures !IsSpace(a[1..][k]) { assert a[1..][k] == a[k + 1]; }
      }
      WordPrefix(a[1..], t);
      assert [a[0]] + a[1..] == a;
    }
  }

  /** Title keywords that mark a unit as having simulations. */
  const SimulationTopics: seq<string> := ["kinematics", "electrostatics", "gravitation"]

  /** `words.some(w => t.includes(w))`. */
  predicate SomeIncluded(t: string, words: seq<string>) {
    words != [] && (Contains(t, words[0]) || SomeIncluded(t, words[1..]))
  }

  /** `unitsWithSimulations.some(sim => title.toLowerCase().includes(sim))`. */
  predicate HasSimulations(title: string) {
    SomeIncluded(Lower(title), SimulationTopics)
  }

  /** `some` holds exactly when one of the words occurs. */
  lemma {:induction false} SomeIncludedIff(t: string, words: seq<string>)
    ensures SomeIncluded(t, words) <==> exists k :: 0 <= k < |words| && Contains(t, words[k])
    decreases |words|
  {
    if words != [] {
      SomeIncludedIff(t, words[1..]);
      if SomeIncluded(t, words[1..]) {
        var k :| 0 <= k < |words[1..]| && Contains(t, words[1..][k]);
        assert words[k + 1] == words[1..][k];
      }
      if exists k :: 0 <= k < |words| && Contains(t, words[k]) {
        var k :| 0 <= k < |words| && Contains(t, words[k]);
        if k > 0 { assert words[1..][k - 1] == words[k]; }
      }
    }
  }

  lemma HasSimulationsIff(title: string)
    ensures HasSimulations(title) <==>
              Contains(Lower(title), "kinematics") || Contains(Lower(title), "electrostatics") || Contains(Lower(title), "gravitation")
  {
    var t := Lower(title);
    SomeIncludedIff(t, SimulationTopics);
    if Contains(t, "kinematics") { assert SimulationTopics[0] == "kinematics"; }
    if Contains(t, "electrostatics") { assert SimulationTopics[1] == "electrostatics"; }
    if Contains(t, "gravitation") { assert SimulationTopics[2] == "gravitation"; }
  }

  /** A keyword test of a first-match classifier, optionally vetoed by another word. */
  datatype Trigger = Trigger(word: string, unless: Option<string>)

  predicate Fires(tr: Trigger, t: string) {
    Contains(t, tr.word) && (tr.unless.None? || !Contains(t, tr.unless.value))
  }

  predicate AnyFires(triggers: seq<Trigger>, t: string) {
    triggers != [] && (Fires(triggers[0], t) || AnyFires(triggers[1..], t))
  }

  datatype Rule = Rule(category: string, triggers: seq<Trigger>)

  /** `r` is what a first-match scan yields when rule `k` is the first that fires
      (`k == |rules|`: none fires and `r` is the fallback). */
  predicate FirstMatchAt(rules: seq<Rule>, fallback: string, t: string, k: int, r: string) {
    && 0 <= k <= |rules|
    && (forall j :: 0 <= j < k ==> !AnyFires(rules[j].triggers, t))
    && (k < |rules| ==> AnyFires(rules[k].triggers, t) && r == rules[k].category)
    && (k == |rules| ==> r == fallback)
  }

  /** The category of the first rule one of whose triggers fires, or `fallback`. */
  function Classify(rules: seq<Rule>, fallback: string, t: string): (r: string)
    ensures exists k :: FirstMatchAt(rules, fallback, t, k, r)
  {
    if rules == [] then
      assert FirstMatchAt(rules, fallback, t, 0, fallback);
      fallback
    else if AnyFires(rules[0].triggers, t) then
      assert FirstMatchAt(rules, fallback, t, 0, rules[0].category);
      rules[0].category
    else
      var r := Classify(rules[1..], fallback, t);
      ghost var k :| FirstMatchAt(rules[1..], fallback, t, k, r);
      assert FirstMatchAt(rules, fallback, t, k + 1, r) by {
        forall j | 0 <= j < k + 1 ensures !AnyFires(rules[j].triggers, t) {
          if j > 0 { assert rules[j] == rules[1..][j - 1]; }
        }
      }
      r
  }

  lemma ClassifyStep(rules: seq<Rule>, fallback: string, t: string)
    requires rules != []
    ensures Classify(rules, fallback, t) ==
              if AnyFires(rules[0].triggers, t) then rules[0].category else Classify(rules[1..], fallback, t)
  {
  }

  lemma AnyFiresOne(triggers: seq<Trigger>, t: string)
    requires |triggers| == 1
    ensures AnyFires(triggers, t) <==> Fires(triggers[0], t)
  {
    assert !AnyFires(triggers[1..], t);
  }

  lemma AnyFiresTwo(triggers: seq<Trigger>, t: string)
    requires |triggers| == 2
    ensures AnyFires(triggers, t) <==> Fires(triggers[0], t) || Fires(triggers[1], t)
  {
    AnyFiresOne(triggers[1..], t);
  }

  lemma AnyFiresFour(triggers: seq<Trigger>, t: string)
    requires |triggers| == 4
    ensures AnyFires(triggers, t) <==>
              Fires(triggers[0], t) || Fires(triggers[1], t) || Fires(triggers[2], t) || Fires(triggers[3], t)
  {
    AnyFiresTwo(triggers[2..], t);
    assert triggers[1..][1..] == triggers[2..];
  }

  lemma AnyFiresFive(triggers: seq<Trigger>, t: string)
    requires |triggers| == 5
    ensures AnyFires(triggers, t) <==>
              Fires(triggers[0], t) || Fires(triggers[1], t) || Fires(triggers[2], t) || Fires(triggers[3], t) || Fires(triggers[4], t)
  {
    AnyFiresFour(triggers[1..], t);
  }

  /** Unrolling `Classify` over a table of five rules. */
  lemma ClassifyFive(rules: seq<Rule>, fallback: string, t: string)
    requires |rules| == 5
    ensures Classify(rules, fallback, t) ==
              if AnyFires(rules[0].triggers, t) then rules[0].category
              else if AnyFires(rules[1].triggers, t) then rules[1].category
              else if AnyFires(rules[2].triggers, t) then rules[2].category
              else if AnyFires(rules[3].triggers, t) then rules[3].category
              else if AnyFires(rules[4].triggers, t) then rules[4].category
              else fallback
  {
    ClassifyStep(rules, fallback, t);
    ClassifyStep(rules[1..], fallback, t);
    ClassifyStep(rules[2..], fallback, t);
    ClassifyStep(rules[3..], fallback, t);
    ClassifyStep(rules[4..], fallback, t);
    assert rules[1..][1..] == rules[2..] && rules[2..][1..] == rules[3..] && rules[3..][1..] == rules[4..];
    assert rules[4..][1..] == [];
  }

  /** A plain keyword. */
  function Word(w: string): Trigger {
    Trigger(w, None)
  }
}
