/** The clean rebuild of the unit catalogue: every stored unit is deleted,
    then one visible unit is created per syllabus item, in order, under an
    id that is the slugged unit number without the `unit-` prefix. */
module CleanAndSync {
  import opened Strings
  import opened UnitCatalogue
  import SyncFromFrontend

  /** `getCategoryFromTitle`: ordered substring tests on the lowercased title. */
  function Category(title: string): (r: string)
    ensures r in UnitCategories
  {
    var t := Lower(title);
    if Contains(t, "experimental") then "other"
    else if Contains(t, "therm") || Contains(t, "gas") then "thermodynamics"
    else if Contains(t, "electric") || Contains(t, "magnetic") || Contains(t, "current") || Contains(t, "ac") || Contains(t, "induction") then "electromagnetism"
    else if Contains(t, "optic") || (Contains(t, "wave") && !Contains(t, "oscillation")) then "optics"
    else if Contains(t, "atom") || Contains(t, "dual") || Contains(t, "device") || Contains(t, "nucle") then "modern-physics"
    else "mechanics"
  }

  /** The rules of `Category`: `wave` is an optics keyword unless the title also mentions `oscillation`. */
  const Rules: seq<Rule> := [
    Rule("other", [Word("experimental")]),
    Rule("thermodynamics", [Word("therm"), Word("gas")]),
    Rule("electromagnetism", [Word("electric"), Word("magnetic"), Word("current"), Word("ac"), Word("induction")]),
    Rule("optics", [Word("optic"), Trigger("wave", Some("oscillation"))]),
    Rule("modern-physics", [Word("atom"), Word("dual"), Word("device"), Word("nucle")])
  ]

  /** `Category` is the first-match classifier over `Rules`, falling back to mechanics. */
  lemma CategoryIsFirstMatch(title: string)
    ensures Category(title) == Classify(Rules, "mechanics", Lower(title))
  {
    var t := Lower(title);
    ClassifyFive(Rules, "mechanics", t);
    RulesFire(t);
  }

  /** What each rule's trigger list amounts to. */
  lemma RulesFire(t: string)
    ensures AnyFires(Rules[0].triggers, t) <==> Contains(t, "experimental")
    ensures AnyFires(Rules[1].triggers, t) <==> Contains(t, "therm") || Contains(t, "gas")
    ensures AnyFires(Rules[2].triggers, t) <==>
              Contains(t, "electric") || Contains(t, "magnetic") || Contains(t, "current") || Contains(t, "ac") || Contains(t, "induction")
    ensures AnyFires(Rules[3].triggers, t) <==> Contains(t, "optic") || (Contains(t, "wave") && !Contains(t, "oscillation"))
    ensures AnyFires(Rules[4].triggers, t) <==>
              Contains(t, "atom") || Contains(t, "dual") || Contains(t, "device") || Contains(t, "nucle")
  {
    AnyFiresOne(Rules[0].triggers, t);
    AnyFiresTwo(Rules[1].triggers, t);
    AnyFiresFive(Rules[2].triggers, t);
    AnyFiresTwo(Rules[3].triggers, t);
    AnyFiresFour(Rules[4].triggers, t);
  }

  /** The two unit classifiers differ only through `induction`, `wave`,
      `electronic` and `device`: a title mentioning none of them gets the
      same category from both. */
  lemma ClassifiersAgree(title: string)
    requires !Contains(Lower(title), "induction") && !Contains(Lower(title), "wave")
    requires !Contains(Lower(title), "electronic") && !Contains(Lower(title), "device")
    ensures Category(title) == SyncFromFrontend.Category(title)
  {
  }

  /** The `unitId`: the lowercased unit number with its whitespace runs as dashes. */
  function UnitId(unit: string): (r: string)
    ensures NoSpace(r)
    ensures |r| <= |unit|
    ensures r == [] <==> unit == []
  {
    DashRuns(Lower(unit))
  }

  /** The frontend sync's ids are these ids behind a `unit-` prefix. */
  lemma FrontendIdIsPrefixed(unit: string)
    ensures SyncFromFrontend.UnitId(unit) == "unit-" + UnitId(unit)
    ensures RemoveFirst(SyncFromFrontend.UnitId(unit), "unit-") == UnitId(unit)
  {
    var s := SyncFromFrontend.UnitId(unit);
    assert OccursAt(s, "unit-", 0);
    assert IndexOf(s, "unit-") == Some(0);
    assert s[5..] == UnitId(unit);
  }

  function Id(item: SyllabusItem): string {
    UnitId(item.unit)
  }

  function UnitIds(items: seq<SyllabusItem>): set<string> {
    set item | item in items :: Id(item)
  }

  /** The unit created for a syllabus item. */
  function Record(item: SyllabusItem): UnitRecord {
    UnitRecord(item.unit, item.title, item.titleHi, Category(item.title), HasSimulations(item.title), true)
  }

  /** A created unit passes schema validation exactly when the item is complete. */
  lemma RecordStorable(item: SyllabusItem)
    ensures Storable(Id(item), Record(item)) <==> Complete(item)
  {
    var id := Id(item);
    if id != [] {
      assert !IsSpace(id[0]);
    }
  }

  function Entries(items: seq<SyllabusItem>): (es: seq<Entry>)
    ensures |es| == |items|
    ensures forall i :: 0 <= i < |items| ==> es[i].id == Id(items[i])
  {
    if items == [] then [] else [Entry(Id(items[0]), Record(items[0]))] + Entries(items[1..])
  }

  lemma {:induction false} EntriesAt(items: seq<SyllabusItem>, i: nat)
    requires i < |items|
    ensures Entries(items)[i] == Entry(Id(items[i]), Record(items[i]))
    decreases i
  {
    if i > 0 {
      EntriesAt(items[1..], i - 1);
    }
  }

  /** Entries whose ids are pairwise different. */
  predicate DistinctIds(es: seq<Entry>) {
    forall i, j :: 0 <= i < j < |es| ==> es[i].id != es[j].id
  }

  /** The first `n` entries have pairwise different ids. */
  predicate DistinctBefore(es: seq<Entry>, n: nat)
    requires n <= |es|
  {
    forall i, j :: 0 <= i < j < n ==> es[i].id != es[j].id
  }

  /** What the create loop has established after creating `es[..n]` into the emptied store. */
  ghost predicate Created(es: seq<Entry>, n: nat, cur: map<string, UnitRecord>) {
    && n <= |es|
    && (forall i :: 0 <= i < n ==> Storable(es[i].id, es[i].data))
    && DistinctBefore(es, n)
    && cur.Keys == EntryIds(es[..n])
    && |cur| == n
    && (forall i :: 0 <= i < n ==> cur[es[i].id] == es[i].data)
    && (forall id :: id in cur ==> cur[id].isVisible)
  }

  lemma CreatedStart(es: seq<Entry>)
    ensures Created(es, 0, map[])
  {
    assert EntryIds(es[..0]) == {};
  }

  /** What `Unit.create` of a new id `e.id` does to the store. */
  ghost predicate Inserted(cur: map<string, UnitRecord>, e: Entry, next: map<string, UnitRecord>) {
    && next.Keys == cur.Keys + {e.id}
    && |next| == |cur| + 1
    && next[e.id] == e.data
    && (forall id :: id in cur ==> next[id] == cur[id])
  }

  lemma Insert(cur: map<string, UnitRecord>, e: Entry)
    requires e.id !in cur
    ensures Inserted(cur, e, cur[e.id := e.data])
  {
    assert cur[e.id := e.data].Keys == cur.Keys + {e.id};
  }

  lemma CreatedStep(es: seq<Entry>, n: nat, cur: map<string, UnitRecord>, next: map<string, UnitRecord>)
    requires Created(es, n, cur) && n < |es|
    requires Storable(es[n].id, es[n].data) && es[n].id !in cur && es[n].data.isVisible
    requires Inserted(cur, es[n], next)
    ensures Created(es, n + 1, next)
  {
    StepStorable(es, n);
    StepDistinct(es, n);
    StepKeys(es, n, cur, next);
    StepRecords(es, n, cur, next);
    StepVisible(cur, es[n], next);
  }

  lemma StepKeys(es: seq<Entry>, n: nat, cur: map<string, UnitRecord>, next: map<string, UnitRecord>)
    requires n < |es| && cur.Keys == EntryIds(es[..n]) && Inserted(cur, es[n], next)
    ensures next.Keys == EntryIds(es[..n + 1])
  {
    EntryIdsStep(es, n);
  }

  lemma StepVisible(cur: map<string, UnitRecord>, e: Entry, next: map<string, UnitRecord>)
    requires forall id :: id in cur ==> cur[id].isVisible
    requires Inserted(cur, e, next) && e.data.isVisible
    ensures forall id :: id in next ==> next[id].isVisible
  {
  }

  lemma StepDistinct(es: seq<Entry>, n: nat)
    requires n < |es| && DistinctBefore(es, n) && es[n].id !in EntryIds(es[..n])
    ensures DistinctBefore(es, n + 1)
  {
    forall i | 0 <= i < n ensures es[i].id != es[n].id {
      assert es[..n][i] == es[i];
    }
  }

  lemma StepRecords(es: seq<Entry>, n: nat, cur: map<string, UnitRecord>, next: map<string, UnitRecord>)
    requires n < |es| && cur.Keys == EntryIds(es[..n]) && Inserted(cur, es[n], next)
    requires forall i :: 0 <= i < n ==> cur[es[i].id] == es[i].data
    ensures forall i :: 0 <= i < n + 1 ==> next[es[i].id] == es[i].data
  {
    forall i | 0 <= i < n ensures es[i].id in cur {
      assert es[..n][i] == es[i];
    }
  }

  /** An id already created is a duplicate: the entries are not distinct. */
  lemma DuplicateStops(es: seq<Entry>, n: nat)
    requires n < |es| && es[n].id in EntryIds(es[..n])
    ensures !DistinctIds(es)
  {
    var e :| e in es[..n] && e.id == es[n].id;
    var i :| 0 <= i < n && es[..n][i] == e;
    assert es[i].id == es[n].id;
  }

  lemma CreatedDone(es: seq<Entry>, cur: map<string, UnitRecord>)
    requires Created(es, |es|, cur)
    ensures DistinctIds(es)
    ensures cur.Keys == EntryIds(es)
    ensures forall i :: 0 <= i < |es| ==> es[i].id in cur
  {
    forall i | 0 <= i < |es| ensures es[i].id in cur { assert es[..|es|][i] == es[i]; }
    assert es[..|es|] == es;
  }

  /** The create loop: it stops at the first entry that fails validation or
      repeats an id already created (the unique index on `unitId`). */
  method CreateLoop(es: seq<Entry>) returns (n: nat, db': map<string, UnitRecord>)
    requires forall i :: 0 <= i < |es| ==> es[i].data.isVisible
    ensures Created(es, n, db')
    ensures n < |es| ==> !Storable(es[n].id, es[n].data) || es[n].id in EntryIds(es[..n])
  {
    db' := map[];
    n := 0;
    CreatedStart(es);
    while n < |es|
      invariant Created(es, n, db')
    {
      if !Storable(es[n].id, es[n].data) || es[n].id in db' {
        return;
      }
      Insert(db', es[n]);
      CreatedStep(es, n, db', db'[es[n].id := es[n].data]);
      db' := db'[es[n].id := es[n].data];
      n := n + 1;
    }
  }

  /** Deleting every unit and creating the entries in order. */
  method CreateAll(es: seq<Entry>) returns (ok: bool, db': map<string, UnitRecord>)
    requires forall i :: 0 <= i < |es| ==> es[i].data.isVisible
    ensures ok <==> (forall i :: 0 <= i < |es| ==> Storable(es[i].id, es[i].data)) && DistinctIds(es)
    ensures db'.Keys <= EntryIds(es)
    ensures forall id :: id in db' ==> db'[id].isVisible
    ensures ok ==> db'.Keys == EntryIds(es) && |db'| == |es|
    ensures ok ==> forall i :: 0 <= i < |es| ==> es[i].id in db' && db'[es[i].id] == es[i].data
  {
    var n;
    n, db' := CreateLoop(es);
    ok := n == |es|;
    assert db'.Keys <= EntryIds(es) by {
      forall id | id in db' ensures id in EntryIds(es) {
        var e :| e in es[..n] && e.id == id;
        assert e in es;
      }
    }
    if ok {
      CreatedDone(es, db');
    } else if Storable(es[n].id, es[n].data) {
      DuplicateStops(es, n);
    }
  }

  /** The ids of the items are pairwise different. */
  predicate DistinctItemIds(items: seq<SyllabusItem>) {
    forall i, j :: 0 <= i < j < |items| ==> Id(items[i]) != Id(items[j])
  }

  lemma EntriesDistinct(items: seq<SyllabusItem>)
    ensures DistinctIds(Entries(items)) <==> DistinctItemIds(items)
  {
  }

  lemma EntriesIds(items: seq<SyllabusItem>)
    ensures EntryIds(Entries(items)) == UnitIds(items)
  {
    var es := Entries(items);
    forall id | id in UnitIds(items) ensures id in EntryIds(es) {
      var i :| 0 <= i < |items| && Id(items[i]) == id;
      assert es[i] in es;
    }
    forall id | id in EntryIds(es) ensures id in UnitIds(items) {
      var i :| 0 <= i < |es| && es[i].id == id;
      assert items[i] in items;
    }
  }

  lemma EntriesVisible(items: seq<SyllabusItem>)
    ensures forall i :: 0 <= i < |Entries(items)| ==> Entries(items)[i].data.isVisible
  {
    forall i | 0 <= i < |items| ensures Entries(items)[i].data.isVisible {
      EntriesAt(items, i);
    }
  }

  lemma EntriesStorable(items: seq<SyllabusItem>)
    ensures (forall i :: 0 <= i < |items| ==> Storable(Entries(items)[i].id, Entries(items)[i].data)) <==>
            (forall i :: 0 <= i < |items| ==> Complete(items[i]))
  {
    var es := Entries(items);
    forall i | 0 <= i < |items|
      ensures Storable(es[i].id, es[i].data) <==> Complete(items[i])
    {
      EntriesAt(items, i);
      RecordStorable(items[i]);
    }
  }

  lemma EntriesRecords(items: seq<SyllabusItem>, db': map<string, UnitRecord>)
    requires forall i :: 0 <= i < |items| ==> Entries(items)[i].id in db' && db'[Entries(items)[i].id] == Entries(items)[i].data
    ensures forall i :: 0 <= i < |items| ==> Id(items[i]) in db' && db'[Id(items[i])] == Record(items[i])
  {
    var es := Entries(items);
    forall i | 0 <= i < |items| ensures Id(items[i]) in db' && db'[Id(items[i])] == Record(items[i]) {
      EntriesAt(items, i);
      assert db'[es[i].id] == es[i].data;
    }
  }

  /** The whole script, from whatever store `db` held: all of it is deleted
      first. It succeeds exactly when every item is complete and no two items
      share an id, and then the store holds one visible unit per item and
      nothing else; when it fails (exit status 1) it holds only the units
      created before the failing one. */
  method Rebuild(db: map<string, UnitRecord>, items: seq<SyllabusItem>) returns (ok: bool, db': map<string, UnitRecord>)
    ensures ok <==> (forall i :: 0 <= i < |items| ==> Complete(items[i])) && DistinctItemIds(items)
    ensures db'.Keys <= UnitIds(items)
    ensures forall id :: id in db' ==> db'[id].isVisible
    ensures ok ==> db'.Keys == UnitIds(items) && |db'| == |items|
    ensures ok ==> forall i :: 0 <= i < |items| ==> Id(items[i]) in db' && db'[Id(items[i])] == Record(items[i])
  {
    var es := Entries(items);
    EntriesVisible(items);
    EntriesStorable(items);
    EntriesDistinct(items);
    EntriesIds(items);
    ok, db' := CreateAll(es);
    if ok {
      EntriesRecords(items, db');
    }
  }
}
