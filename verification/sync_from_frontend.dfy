/** The frontend-to-database unit sync: every syllabus item is classified,
    slugged into a `unit-` prefixed id, and created visible or updated in
    place with its visibility kept. */
module SyncFromFrontend {
  import opened Strings
  import opened UnitCatalogue

  /** `getCategoryFromUnit`: ordered substring tests on the lowercased title. */
  function Category(title: string): (r: string)
    ensures r in UnitCategories
  {
    var t := Lower(title);
    if Contains(t, "experimental") then "other"
    else if Contains(t, "therm") || Contains(t, "gas") then "thermodynamics"
    else if Contains(t, "electric") || Contains(t, "magnetic") || Contains(t, "ac") || Contains(t, "current") then "electromagnetism"
    else if Contains(t, "optic") || (Contains(t, "wave") && Contains(t, "electromagnetic")) then "optics"
    else if Contains(t, "atom") || Contains(t, "dual") || Contains(t, "electronic") || Contains(t, "nucle") then "modern-physics"
    else "mechanics"
  }

  /** The rules `Category` applies in effect: the `wave`-and-`electromagnetic`
      test can never fire, since such a title already matched `magnetic`. */
  const Rules: seq<Rule> := [
    Rule("other", [Word("experimental")]),
    Rule("thermodynamics", [Word("therm"), Word("gas")]),
    Rule("electromagnetism", [Word("electric"), Word("magnetic"), Word("ac"), Word("current")]),
    Rule("optics", [Word("optic")]),
    Rule("modern-physics", [Word("atom"), Word("dual"), Word("electronic"), Word("nucle")])
  ]

  lemma MagneticInElectromagnetic(t: string)
    ensures Contains(t, "electromagnetic") ==> Contains(t, "magnetic")
  {
    if Contains(t, "electromagnetic") {
      assert "electromagnetic"[7..15] == "magnetic";
      ContainsTransitive(t, "electromagnetic", "magnetic", 7);
    }
  }

  /** `Category` is the first-match classifier over `Rules`, falling back to mechanics. */
  lemma CategoryIsFirstMatch(title: string)
    ensures Category(title) == Classify(Rules, "mechanics", Lower(title))
  {
    var t := Lower(title);
    MagneticInElectromagnetic(t);
    ClassifyFive(Rules, "mechanics", t);
    RulesFire(t);
  }

  /** What each rule's trigger list amounts to. */
  lemma RulesFire(t: string)
    ensures AnyFires(Rules[0].triggers, t) <==> Contains(t, "experimental")
    ensures AnyFires(Rules[1].triggers, t) <==> Contains(t, "therm") || Contains(t, "gas")
    ensures AnyFires(Rules[2].triggers, t) <==>
              Contains(t, "electric") || Contains(t, "magnetic") || Contains(t, "ac") || Contains(t, "current")
    ensures AnyFires(Rules[3].triggers, t) <==> Contains(t, "optic")
    ensures AnyFires(Rules[4].triggers, t) <==>
              Contains(t, "atom") || Contains(t, "dual") || Contains(t, "electronic") || Contains(t, "nucle")
  {
    AnyFiresOne(Rules[0].triggers, t);
    AnyFiresTwo(Rules[1].triggers, t);
    AnyFiresFour(Rules[2].triggers, t);
    AnyFiresOne(Rules[3].triggers, t);
    AnyFiresFour(Rules[4].triggers, t);
  }

  /** The `unitId`: `unit-` and the lowercased unit number with its whitespace runs as dashes. */
  function UnitId(unit: string): (r: string)
    ensures StartsWith(r, "unit-")
    ensures NoSpace(r)
  {
    var slug := DashRuns(Lower(unit));
    assert ("unit-" + slug)[..5] == "unit-";
    "unit-" + slug
  }

  function Id(item: SyllabusItem): string {
    UnitId(item.unit)
  }

  function UnitIds(items: seq<SyllabusItem>): set<string> {
    set item | item in items :: Id(item)
  }

  /** The unit data built from a syllabus item, with the given visibility. */
  function Derived(item: SyllabusItem, isVisible: bool): UnitRecord {
    UnitRecord(item.unit, item.title, item.titleHi, Category(item.title), HasSimulations(item.title), isVisible)
  }

  /** The `unitData` object of one loop iteration, under its id. */
  function Prepare(item: SyllabusItem): Entry {
    Entry(Id(item), Derived(item, true))
  }

  /** The entries the loop writes, in syllabus order. */
  function Prepared(items: seq<SyllabusItem>): (es: seq<Entry>)
    ensures |es| == |items|
    ensures forall i :: 0 <= i < |items| ==> es[i].id == Id(items[i])
  {
    if items == [] then [] else [Prepare(items[0])] + Prepared(items[1..])
  }

  lemma {:induction false} PreparedAt(items: seq<SyllabusItem>, i: nat)
    requires i < |items|
    ensures Prepared(items)[i] == Prepare(items[i])
    decreases i
  {
    if i > 0 {
      PreparedAt(items[1..], i - 1);
    }
  }

  lemma PreparedIds(items: seq<SyllabusItem>)
    ensures EntryIds(Prepared(items)) == UnitIds(items)
  {
    var es := Prepared(items);
    forall id | id in UnitIds(items) ensures id in EntryIds(es) {
      var i :| 0 <= i < |items| && Id(items[i]) == id;
      assert es[i] in es;
    }
    forall id | id in EntryIds(es) ensures id in UnitIds(items) {
      var i :| 0 <= i < |es| && es[i].id == id;
      assert items[i] in items;
    }
  }

  /** A derived unit passes schema validation exactly when the item is complete. */
  lemma DerivedStorable(item: SyllabusItem, isVisible: bool)
    ensures Storable(Id(item), Derived(item, isVisible)) <==> Complete(item)
  {
    var id := Id(item);
    assert id != "" by {
      assert StartsWith(id, "unit-");
    }
    TrimNoSpace(id);
  }

  datatype Write = Created | Updated

  /** One iteration of the sync loop: an existing unit has every syllabus-derived
      field overwritten and is saved, a new one is created as prepared (visible);
      the write is rejected (None) when validation fails. */
  method Upsert(db: map<string, UnitRecord>, e: Entry) returns (r: Option<(map<string, UnitRecord>, Write)>)
    ensures r.None? <==> !Storable(e.id, e.data)
    ensures r.Some? ==> r.value.0.Keys == db.Keys + {e.id}
    ensures r.Some? ==> (r.value.1 == Created <==> e.id !in db)
    ensures r.Some? && e.id in db ==> r.value.0[e.id] == e.data.(isVisible := db[e.id].isVisible)
    ensures r.Some? && e.id !in db ==> r.value.0[e.id] == e.data
    ensures r.Some? ==> forall id :: id in db && id != e.id ==> r.value.0[id] == db[id]
  {
    if e.id in db {
      var existing := db[e.id];
      var saved := existing.(
        unitNumber := e.data.unitNumber,
        title := e.data.title,
        titleHi := e.data.titleHi,
        category := e.data.category,
        hasSimulations := e.data.hasSimulations);
      r := if Storable(e.id, saved) then Some((db[e.id := saved], Updated)) else None;
    } else {
      r := if Storable(e.id, e.data) then Some((db[e.id := e.data], Created)) else None;
    }
  }

  /** What one successful `Upsert` of `e` into `cur` guarantees about `next`. */
  ghost predicate Upserted(cur: map<string, UnitRecord>, e: Entry, next: map<string, UnitRecord>, w: Write) {
    && next.Keys == cur.Keys + {e.id}
    && (w == Created <==> e.id !in cur)
    && (e.id in cur ==> next[e.id] == e.data.(isVisible := cur[e.id].isVisible))
    && (e.id !in cur ==> next[e.id] == e.data)
    && (forall id :: id in cur && id != e.id ==> next[id] == cur[id])
  }

  /** What the sync loop has established after writing `es[..n]` into `cur`. */
  ghost predicate UpsertedPrefix(db: map<string, UnitRecord>, es: seq<Entry>, n: nat, cur: map<string, UnitRecord>)
    requires n <= |es|
  {
    && cur.Keys == db.Keys + EntryIds(es[..n])
    && (forall id :: id in db ==> cur[id].isVisible == db[id].isVisible)
    && (forall id :: id in cur && id !in db ==> cur[id].isVisible)
    && (forall id :: id in db && id !in EntryIds(es[..n]) ==> cur[id] == db[id])
    && (forall i :: 0 <= i < n && LastWithId(es, i, n) ==> cur[es[i].id] == es[i].data.(isVisible := cur[es[i].id].isVisible))
  }

  lemma CardinalityStep<T>(a: set<T>, x: T, d: set<T>)
    ensures |(a + {x}) - d| == |a - d| + (if x in a || x in d then 0 else 1)
  {
    if x in a || x in d {
      assert (a + {x}) - d == a - d;
    } else {
      assert (a + {x}) - d == (a - d) + {x};
    }
  }

  /** The number of created units grows exactly when the id is new. */
  lemma CountStep(db: map<string, UnitRecord>, es: seq<Entry>, n: nat, cur: map<string, UnitRecord>, w: Write)
    requires n < |es| && cur.Keys == db.Keys + EntryIds(es[..n]) && (w == Created <==> es[n].id !in cur)
    ensures |EntryIds(es[..n + 1]) - db.Keys| == |EntryIds(es[..n]) - db.Keys| + (if w == Created then 1 else 0)
  {
    EntryIdsStep(es, n);
    CardinalityStep(EntryIds(es[..n]), es[n].id, db.Keys);
  }

  lemma StepKeys(db: map<string, UnitRecord>, es: seq<Entry>, n: nat, cur: map<string, UnitRecord>, next: map<string, UnitRecord>, w: Write)
    requires n < |es| && UpsertedPrefix(db, es, n, cur) && Upserted(cur, es[n], next, w)
    ensures next.Keys == db.Keys + EntryIds(es[..n + 1])
  {
    EntryIdsStep(es, n);
  }

  lemma StepVisibility(db: map<string, UnitRecord>, es: seq<Entry>, n: nat, cur: map<string, UnitRecord>, next: map<string, UnitRecord>, w: Write)
    requires n < |es| && UpsertedPrefix(db, es, n, cur) && Upserted(cur, es[n], next, w)
    requires es[n].data.isVisible
    ensures forall id :: id in db ==> next[id].isVisible == db[id].isVisible
    ensures forall id :: id in next && id !in db ==> next[id].isVisible
  {
  }

  lemma StepOthers(db: map<string, UnitRecord>, es: seq<Entry>, n: nat, cur: map<string, UnitRecord>, next: map<string, UnitRecord>, w: Write)
    requires n < |es| && UpsertedPrefix(db, es, n, cur) && Upserted(cur, es[n], next, w)
    ensures forall id :: id in db && id !in EntryIds(es[..n + 1]) ==> next[id] == db[id]
  {
    EntryIdsStep(es, n);
  }

  lemma StepRecord(db: map<string, UnitRecord>, es: seq<Entry>, n: nat, cur: map<string, UnitRecord>, next: map<string, UnitRecord>, w: Write, i: nat)
    requires n < |es| && UpsertedPrefix(db, es, n, cur) && Upserted(cur, es[n], next, w)
    requires i < n + 1 && LastWithId(es, i, n + 1)
    ensures es[i].id in next
    ensures next[es[i].id] == es[i].data.(isVisible := next[es[i].id].isVisible)
  {
    var id := es[i].id;
    if i < n {
      assert LastWithId(es, i, n) && id != es[n].id;
      assert es[..n][i] == es[i];
      assert id in EntryIds(es[..n]);
      assert next[id] == cur[id];
    } else if id in cur {
      assert next[id] == es[n].data.(isVisible := cur[id].isVisible);
    } else {
      assert next[id] == es[n].data;
    }
  }

  lemma StepRecords(db: map<string, UnitRecord>, es: seq<Entry>, n: nat, cur: map<string, UnitRecord>, next: map<string, UnitRecord>, w: Write)
    requires n < |es| && UpsertedPrefix(db, es, n, cur) && Upserted(cur, es[n], next, w)
    ensures forall i :: 0 <= i < n + 1 && LastWithId(es, i, n + 1) ==>
              && es[i].id in next
              && next[es[i].id] == es[i].data.(isVisible := next[es[i].id].isVisible)
  {
    forall i | 0 <= i < n + 1 && LastWithId(es, i, n + 1)
      ensures es[i].id in next
      ensures next[es[i].id] == es[i].data.(isVisible := next[es[i].id].isVisible)
    {
      StepRecord(db, es, n, cur, next, w, i);
    }
  }

  lemma Step(db: map<string, UnitRecord>, es: seq<Entry>, n: nat, cur: map<string, UnitRecord>, next: map<string, UnitRecord>, w: Write)
    requires n < |es| && UpsertedPrefix(db, es, n, cur) && Upserted(cur, es[n], next, w)
    requires es[n].data.isVisible
    ensures UpsertedPrefix(db, es, n + 1, next)
  {
    StepKeys(db, es, n, cur, next, w);
    StepVisibility(db, es, n, cur, next, w);
    StepOthers(db, es, n, cur, next, w);
    StepRecords(db, es, n, cur, next, w);
  }

  /** The loop invariant of `UpsertAll` after `n` successful writes. */
  ghost predicate Progress(db: map<string, UnitRecord>, es: seq<Entry>, n: nat, cur: map<string, UnitRecord>, created: nat, updated: nat) {
    && n <= |es|
    && (forall i :: 0 <= i < n ==> Storable(es[i].id, es[i].data))
    && created + updated == n
    && created == |EntryIds(es[..n]) - db.Keys|
    && UpsertedPrefix(db, es, n, cur)
  }

  lemma ProgressStart(db: map<string, UnitRecord>, es: seq<Entry>)
    ensures Progress(db, es, 0, db, 0, 0)
  {
    assert EntryIds(es[..0]) == {};
  }

  lemma ProgressStep(db: map<string, UnitRecord>, es: seq<Entry>, n: nat, cur: map<string, UnitRecord>, created: nat, updated: nat,
                     next: map<string, UnitRecord>, w: Write)
    requires Progress(db, es, n, cur, created, updated) && n < |es|
    requires Storable(es[n].id, es[n].data) && Upserted(cur, es[n], next, w) && es[n].data.isVisible
    ensures Progress(db, es, n + 1, next, if w == Created then created + 1 else created, if w == Updated then updated + 1 else updated)
  {
    Step(db, es, n, cur, next, w);
    CountStep(db, es, n, cur, w);
    StepStorable(es, n);
  }

  /** What holds of the store whenever the loop stops, early or not. */
  lemma ProgressBounds(db: map<string, UnitRecord>, es: seq<Entry>, n: nat, cur: map<string, UnitRecord>, created: nat, updated: nat)
    requires Progress(db, es, n, cur, created, updated)
    ensures db.Keys <= cur.Keys <= db.Keys + EntryIds(es)
    ensures forall id :: id in db ==> cur[id].isVisible == db[id].isVisible
    ensures forall id :: id in cur && id !in db ==> cur[id].isVisible
    ensures forall id :: id in db && id !in EntryIds(es) ==> cur[id] == db[id]
  {
    PrefixIds(es, n);
  }

  lemma ProgressDone(db: map<string, UnitRecord>, es: seq<Entry>, cur: map<string, UnitRecord>, created: nat, updated: nat)
    requires Progress(db, es, |es|, cur, created, updated)
    ensures forall i :: 0 <= i < |es| ==> Storable(es[i].id, es[i].data)
    ensures created + updated == |es|
    ensures created == |EntryIds(es) - db.Keys|
    ensures cur.Keys == db.Keys + EntryIds(es)
    ensures forall i :: 0 <= i < |es| && LastWithId(es, i, |es|) ==>
              cur[es[i].id] == es[i].data.(isVisible := cur[es[i].id].isVisible)
  {
    assert es[..|es|] == es;
  }

  lemma PrefixIds(es: seq<Entry>, n: nat)
    requires n <= |es|
    ensures EntryIds(es[..n]) <= EntryIds(es)
  {
    forall id | id in EntryIds(es[..n]) ensures id in EntryIds(es) {
      var e :| e in es[..n] && e.id == id;
    }
  }

  /** The write loop proper: it returns how far it got, stopping at the first
      entry that fails validation. */
  method WriteLoop(db: map<string, UnitRecord>, es: seq<Entry>)
    returns (n: nat, db': map<string, UnitRecord>, created: nat, updated: nat)
    requires forall i :: 0 <= i < |es| ==> es[i].data.isVisible
    ensures Progress(db, es, n, db', created, updated)
    ensures n < |es| ==> !Storable(es[n].id, es[n].data)
  {
    db' := db;
    created, updated := 0, 0;
    n := 0;
    ProgressStart(db, es);
    while n < |es|
      invariant Progress(db, es, n, db', created, updated)
    {
      var step := Upsert(db', es[n]);
      if step.None? {
        return;
      }
      assert Upserted(db', es[n], step.value.0, step.value.1);
      ProgressStep(db, es, n, db', created, updated, step.value.0, step.value.1);
      db' := step.value.0;
      if step.value.1 == Created {
        created := created + 1;
      } else {
        updated := updated + 1;
      }
      n := n + 1;
    }
  }

  /** The writes of the sync run over prepared entries; they stop at the
      first one that fails validation. */
  method UpsertAll(db: map<string, UnitRecord>, es: seq<Entry>)
    returns (ok: bool, db': map<string, UnitRecord>, created: nat, updated: nat)
    requires forall i :: 0 <= i < |es| ==> es[i].data.isVisible
    ensures ok <==> forall i :: 0 <= i < |es| ==> Storable(es[i].id, es[i].data)
    ensures ok ==> created + updated == |es|
    ensures ok ==> created == |EntryIds(es) - db.Keys|
    ensures ok ==> db'.Keys == db.Keys + EntryIds(es)
    ensures db.Keys <= db'.Keys <= db.Keys + EntryIds(es)
    ensures forall id :: id in db ==> db'[id].isVisible == db[id].isVisible
    ensures forall id :: id in db' && id !in db ==> db'[id].isVisible
    ensures forall id :: id in db && id !in EntryIds(es) ==> db'[id] == db[id]
    ensures ok ==> forall i :: 0 <= i < |es| && LastWithId(es, i, |es|) ==>
              db'[es[i].id] == es[i].data.(isVisible := db'[es[i].id].isVisible)
  {
    var n;
    n, db', created, updated := WriteLoop(db, es);
    ProgressBounds(db, es, n, db', created, updated);
    ok := n == |es|;
    if ok {
      ProgressDone(db, es, db', created, updated);
    }
  }

  /** No later item shares the id of `items[i]`: its record is the one that stays. */
  predicate LastItemWithId(items: seq<SyllabusItem>, i: int)
    requires 0 <= i < |items|
  {
    forall j :: i < j < |items| ==> Id(items[j]) != Id(items[i])
  }

  lemma PreparedVisible(items: seq<SyllabusItem>)
    ensures forall i :: 0 <= i < |Prepared(items)| ==> Prepared(items)[i].data.isVisible
  {
    forall i | 0 <= i < |items| ensures Prepared(items)[i].data.isVisible {
      PreparedAt(items, i);
    }
  }

  /** The prepared entries all pass validation exactly when every item is complete. */
  lemma PreparedStorable(items: seq<SyllabusItem>)
    ensures (forall i :: 0 <= i < |items| ==> Storable(Prepared(items)[i].id, Prepared(items)[i].data)) <==>
            (forall i :: 0 <= i < |items| ==> Complete(items[i]))
  {
    var es := Prepared(items);
    forall i | 0 <= i < |items|
      ensures Storable(es[i].id, es[i].data) <==> Complete(items[i])
    {
      PreparedAt(items, i);
      DerivedStorable(items[i], true);
    }
  }

  /** The stored record of an item written last under its id is derived from that item. */
  lemma PreparedRecords(items: seq<SyllabusItem>, db': map<string, UnitRecord>)
    requires forall i :: 0 <= i < |items| && LastWithId(Prepared(items), i, |items|) ==>
               Prepared(items)[i].id in db' &&
               db'[Prepared(items)[i].id] == Prepared(items)[i].data.(isVisible := db'[Prepared(items)[i].id].isVisible)
    ensures forall i :: 0 <= i < |items| && LastItemWithId(items, i) ==>
              Id(items[i]) in db' && db'[Id(items[i])] == Derived(items[i], db'[Id(items[i])].isVisible)
  {
    var es := Prepared(items);
    forall i | 0 <= i < |items| && LastItemWithId(items, i)
      ensures Id(items[i]) in db' && db'[Id(items[i])] == Derived(items[i], db'[Id(items[i])].isVisible)
    {
      PreparedAt(items, i);
      var id := es[i].id;
      assert LastWithId(es, i, |es|);
      var v := db'[id].isVisible;
      assert db'[id] == es[i].data.(isVisible := v);
      DerivedVisibility(items[i], v);
    }
  }

  lemma DerivedVisibility(item: SyllabusItem, v: bool)
    ensures Prepare(item).data.(isVisible := v) == Derived(item, v)
  {
  }

  /** The whole script over a store `db`: `ok` is false when it stopped at an
      item that failed validation (the script exits with status 1, keeping
      the writes made so far). */
  method Sync(db: map<string, UnitRecord>, items: seq<SyllabusItem>)
    returns (ok: bool, db': map<string, UnitRecord>, created: nat, updated: nat)
    ensures ok <==> forall i :: 0 <= i < |items| ==> Complete(items[i])
    ensures ok ==> created + updated == |items|
    ensures ok ==> created == |UnitIds(items) - db.Keys|
    ensures ok ==> db'.Keys == db.Keys + UnitIds(items)
    ensures db.Keys <= db'.Keys <= db.Keys + UnitIds(items)
    ensures forall id :: id in db ==> db'[id].isVisible == db[id].isVisible
    ensures forall id :: id in db' && id !in db ==> db'[id].isVisible
    ensures forall id :: id in db && id !in UnitIds(items) ==> db'[id] == db[id]
    ensures ok ==> forall i :: 0 <= i < |items| && LastItemWithId(items, i) ==>
              Id(items[i]) in db' && db'[Id(items[i])] == Derived(items[i], db'[Id(items[i])].isVisible)
  {
    var es := Prepared(items);
    PreparedVisible(items);
    PreparedStorable(items);
    PreparedIds(items);
    ok, db', created, updated := UpsertAll(db, es);
    if ok {
      PreparedRecords(items, db');
    }
  }
}
