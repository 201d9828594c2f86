/** Discovery of lab components and their upsert into the simulation
    catalogue: a component file name becomes a display name and a kebab-case
    simulation id, and each discovered component is created, updated or left
    untouched in the store. */
module AutoSyncSimulations {
  import opened Strings

  /** The `category` enum of the Simulation model. */
  const SimulationCategories: set<string> := {"kinematics", "electrostatics", "gravitation", "experimental", "others"}

  /** The scanned folders, in scan order, named by the category they give their components. */
  const ScannedCategories: seq<string> := ["kinematics", "electrostatics", "gravitation", "experimental"]

  /** Whether a file in a scanned folder is a simulation component. */
  predicate IsComponentFile(file: string) {
    EndsWith(file, "Lab.vue") || EndsWith(file, "Motion.vue")
  }

  /** The first `Lab.vue`, then the first remaining `.vue`, removed. */
  function Base(file: string): string {
    RemoveFirst(RemoveFirst(file, "Lab.vue"), ".vue")
  }

  function Marked(c: char, mark: char): string {
    if IsUpper(c) then [mark, c] else [c]
  }

  /** `replace(/([A-Z])/g, mark + '$1')`: `mark` inserted before every ASCII capital. */
  function MarkCapitals(s: string, mark: char): (r: string)
    ensures |r| >= |s|
    ensures s != [] ==> r != [] && r[|r| - 1] == s[|s| - 1]
    ensures forall c :: c in r ==> c in s || c == mark
  {
    if s == [] then [] else Marked(s[0], mark) + MarkCapitals(s[1..], mark)
  }

  /** `substring(1)`. */
  function DropFirst(s: string): (r: string)
    ensures s == [] ==> r == []
    ensures s != [] ==> r == s[1..]
  {
    if s == [] then [] else s[1..]
  }

  /** The `name` of a discovered component. */
  function DisplayName(file: string): string {
    Trim(MarkCapitals(Base(file), ' '))
  }

  /** The `simulationId` of a discovered component. */
  function SimulationId(file: string): (r: string)
    ensures forall i :: 0 <= i < |r| ==> !IsUpper(r[i])
  {
    DropFirst(Lower(MarkCapitals(Base(file), '-')))
  }

  function ReplaceChar(s: string, from: char, to: char): (r: string)
    ensures |r| == |s|
    ensures forall i :: 0 <= i < |s| ==> r[i] == (if s[i] == from then to else s[i])
  {
    if s == [] then [] else [if s[0] == from then to else s[0]] + ReplaceChar(s[1..], from, to)
  }

  lemma {:induction false} SpaceMarksBecomeDashes(s: string)
    requires ' ' !in s
    ensures ReplaceChar(MarkCapitals(s, ' '), ' ', '-') == MarkCapitals(s, '-')
    decreases |s|
  {
    if s != [] {
      SpaceMarksBecomeDashes(s[1..]);
      ReplaceCharAppend(Marked(s[0], ' '), MarkCapitals(s[1..], ' '), ' ', '-');
      assert ReplaceChar(Marked(s[0], ' '), ' ', '-') == Marked(s[0], '-');
    }
  }

  lemma ReplaceCharAppend(a: string, b: string, from: char, to: char)
    ensures ReplaceChar(a + b, from, to) == ReplaceChar(a, from, to) + ReplaceChar(b, from, to)
  {
    var l, r, x := ReplaceChar(a + b, from, to), ReplaceChar(a, from, to), ReplaceChar(b, from, to);
    assert forall i :: 0 <= i < |l| ==> l[i] == (r + x)[i];
  }

  lemma TrimOneLeadingSpace(x: string)
    requires x != [] && !IsSpace(x[0]) && !IsSpace(x[|x| - 1])
    ensures Trim([' '] + x) == x
  {
    var s := [' '] + x;
    var r := Trim(s);
    var i, j :| && 0 <= i <= j <= |s| && r == s[i..j]
                && (forall k :: 0 <= k < i ==> IsSpace(s[k]))
                && (forall k :: j <= k < |s| ==> IsSpace(s[k]));
    assert s[1] == x[0] && s[|s| - 1] == x[|x| - 1];
    assert i <= 1 && j == |s|;
    assert r == s[1..];
  }

  /** A capitalised, whitespace-free base gets one leading space, which `trim` removes. */
  lemma SpacedDisplayName(b: string)
    requires b != [] && IsUpper(b[0]) && NoSpace(b)
    ensures Trim(MarkCapitals(b, ' ')) == MarkCapitals(b, ' ')[1..]
  {
    var spaced := MarkCapitals(b, ' ');
    var x := [b[0]] + MarkCapitals(b[1..], ' ');
    assert spaced == [' '] + x;
    assert x[|x| - 1] == spaced[|spaced| - 1] == b[|b| - 1];
    assert !IsSpace(b[0]) && !IsSpace(b[|b| - 1]);
    TrimOneLeadingSpace(x);
    assert x == spaced[1..];
  }

  /** For a capitalised, whitespace-free base, the id is the display name
      lower-cased with its spaces turned into dashes. */
  lemma IdIsKebabName(file: string)
    requires Base(file) != [] && IsUpper(Base(file)[0])
    requires NoSpace(Base(file))
    ensures SimulationId(file) == Lower(ReplaceChar(DisplayName(file), ' ', '-'))
  {
    var b := Base(file);
    var spaced := MarkCapitals(b, ' ');
    var dashed := MarkCapitals(b, '-');
    SpacedDisplayName(b);
    assert DisplayName(file) == spaced[1..];
    assert ' ' !in b by {
      forall k | 0 <= k < |b| ensures b[k] != ' ' { assert !IsSpace(b[k]); }
    }
    SpaceMarksBecomeDashes(b);
    assert ReplaceChar(spaced[1..], ' ', '-') == dashed[1..];
    assert Lower(dashed)[1..] == Lower(dashed[1..]);
  }

  /** A base that does not start with a capital loses its first character. */
  lemma LowercaseStartIsLost(file: string)
    requires Base(file) != [] && !IsUpper(Base(file)[0])
    ensures SimulationId(file) == Lower(MarkCapitals(Base(file)[1..], '-'))
  {
    var b := Base(file);
    assert MarkCapitals(b, '-') == [b[0]] + MarkCapitals(b[1..], '-');
    assert Lower(MarkCapitals(b, '-'))[1..] == Lower(MarkCapitals(b[1..], '-'));
  }

  datatype Discovered = Discovered(simulationId: string, name: string, category: string)

  function DiscoverFolder(category: string, files: seq<string>): (r: seq<Discovered>)
    ensures |r| <= |files|
    ensures forall d :: d in r ==> d.category == category
  {
    if files == [] then []
    else
      var rest := DiscoverFolder(category, files[1..]);
      if IsComponentFile(files[0])
      then [Discovered(SimulationId(files[0]), DisplayName(files[0]), category)] + rest
      else rest
  }

  /** Within one folder, a file is discovered iff it is a component file. */
  lemma {:induction false} DiscoverFolderExactly(category: string, files: seq<string>)
    ensures forall f :: f in files && IsComponentFile(f) ==>
              Discovered(SimulationId(f), DisplayName(f), category) in DiscoverFolder(category, files)
    ensures forall d :: d in DiscoverFolder(category, files) ==>
              exists f :: f in files && IsComponentFile(f) && d == Discovered(SimulationId(f), DisplayName(f), category)
  {
    if files != [] {
      DiscoverFolderExactly(category, files[1..]);
      forall d | d in DiscoverFolder(category, files)
        ensures exists f :: f in files && IsComponentFile(f) && d == Discovered(SimulationId(f), DisplayName(f), category)
      {
        if d !in DiscoverFolder(category, files[1..]) {
          assert d == Discovered(SimulationId(files[0]), DisplayName(files[0]), category);
        } else {
          var f :| f in files[1..] && IsComponentFile(f) && d == Discovered(SimulationId(f), DisplayName(f), category);
          assert f in files;
        }
      }
    }
  }

  function DiscoverFrom(categories: seq<string>, listing: map<string, seq<string>>): (r: seq<Discovered>)
    ensures forall d :: d in r ==> d.category in categories
  {
    if categories == [] then []
    else
      var c := categories[0];
      var here := if c in listing then DiscoverFolder(c, listing[c]) else [];
      here + DiscoverFrom(categories[1..], listing)
  }

  /** `autoDiscoverSimulations`: `listing` maps each scanned category to the
      files of its folder; a category without an entry is a missing folder,
      which is skipped. Every category it gives is one of the model's. */
  function Discover(listing: map<string, seq<string>>): (r: seq<Discovered>)
    ensures forall d :: d in r ==> d.category in SimulationCategories
  {
    DiscoverFrom(ScannedCategories, listing)
  }

  /** A file is discovered iff it is a component file of a folder that exists. */
  lemma {:induction false} DiscoverFromExactly(categories: seq<string>, listing: map<string, seq<string>>)
    ensures forall c, f :: c in categories && c in listing && f in listing[c] && IsComponentFile(f) ==>
              Discovered(SimulationId(f), DisplayName(f), c) in DiscoverFrom(categories, listing)
    ensures forall d :: d in DiscoverFrom(categories, listing) ==>
              exists c, f :: c in categories && c in listing && f in listing[c] && IsComponentFile(f)
                             && d == Discovered(SimulationId(f), DisplayName(f), c)
  {
    if categories != [] {
      var c0 := categories[0];
      DiscoverFromExactly(categories[1..], listing);
      if c0 in listing { DiscoverFolderExactly(c0, listing[c0]); }
      var here := if c0 in listing then DiscoverFolder(c0, listing[c0]) else [];
      var there := DiscoverFrom(categories[1..], listing);
      assert DiscoverFrom(categories, listing) == here + there;
      forall c, f | c in categories && c in listing && f in listing[c] && IsComponentFile(f)
        ensures Discovered(SimulationId(f), DisplayName(f), c) in DiscoverFrom(categories, listing)
      {
        if c == c0 {
          assert Discovered(SimulationId(f), DisplayName(f), c) in here;
        } else {
          assert c in categories[1..];
        }
      }
      forall d | d in DiscoverFrom(categories, listing)
        ensures exists c, f :: c in categories && c in listing && f in listing[c] && IsComponentFile(f)
                               && d == Discovered(SimulationId(f), DisplayName(f), c)
      {
        if d in here {
          var f :| f in listing[c0] && IsComponentFile(f) && d == Discovered(SimulationId(f), DisplayName(f), c0);
        } else {
          assert d in there;
          var c, f :| c in categories[1..] && c in listing && f in listing[c] && IsComponentFile(f)
                      && d == Discovered(SimulationId(f), DisplayName(f), c);
          assert c in categories;
        }
      }
    }
  }

  lemma DiscoverExactly(listing: map<string, seq<string>>)
    ensures forall c, f :: c in ScannedCategories && c in listing && f in listing[c] && IsComponentFile(f) ==>
              Discovered(SimulationId(f), DisplayName(f), c) in Discover(listing)
    ensures forall d :: d in Discover(listing) ==>
              exists c, f :: c in ScannedCategories && c in listing && f in listing[c] && IsComponentFile(f)
                             && d == Discovered(SimulationId(f), DisplayName(f), c)
  {
    DiscoverFromExactly(ScannedCategories, listing);
  }

  datatype SimRecord = SimRecord(name: string, category: string, isVisible: bool)

  datatype Change = Created | Updated | Untouched

  /** The Simulation schema's validators on a write: `simulationId` is
      required after its `trim` setter, `name` is required. */
  predicate SimStorable(id: string, name: string) {
    !AllSpace(id) && name != ""
  }

  /** Every stored simulation once passed the schema. */
  predicate StoreValid(db: map<string, SimRecord>) {
    forall id :: id in db ==> SimStorable(id, db[id].name)
  }

  /** One iteration of the sync loop; `None` when the write it attempts
      (`create`, or `save` after a change) fails validation and throws. */
  function SyncOne(db: map<string, SimRecord>, sim: Discovered): (res: Option<(map<string, SimRecord>, Change)>)
    ensures StoreValid(db) ==> (res.None? <==> !SimStorable(sim.simulationId, sim.name))
    ensures res.Some? && StoreValid(db) ==> StoreValid(res.value.0)
    ensures res.Some? ==> res.value.0.Keys == db.Keys + {sim.simulationId}
    ensures res.Some? ==> res.value.0[sim.simulationId].name == sim.name && res.value.0[sim.simulationId].category == sim.category
    ensures res.Some? && sim.simulationId in db ==> res.value.0[sim.simulationId].isVisible == db[sim.simulationId].isVisible
    ensures res.Some? && sim.simulationId !in db ==> res.value.0[sim.simulationId].isVisible && res.value.1 == Created
    ensures res.Some? ==> forall id :: id in db && id != sim.simulationId ==> res.value.0[id] == db[id]
    ensures res.Some? ==> (res.value.1 == Untouched <==> res.value.0 == db)
  {
    var id := sim.simulationId;
    if id in db then
      var existing := db[id];
      if existing.name != sim.name || existing.category != sim.category then
        if SimStorable(id, sim.name) then Some((db[id := existing.(name := sim.name, category := sim.category)], Updated))
        else None
      else
        Some((db, Untouched))
    else if SimStorable(id, sim.name) then Some((db[id := SimRecord(sim.name, sim.category, true)], Created))
    else None
  }

  function IdsOf(ds: seq<Discovered>): set<string> {
    set d | d in ds :: d.simulationId
  }

  /** No item in `ds[i + 1..n]` has the id of `ds[i]`. */
  predicate LastWithId(ds: seq<Discovered>, i: int, n: int)
    requires 0 <= i < n <= |ds|
  {
    forall j :: i < j < n ==> ds[j].simulationId != ds[i].simulationId
  }

  lemma LastWithIdShrinks(ds: seq<Discovered>, i: int, n: int)
    requires 0 <= i < n < |ds| && LastWithId(ds, i, n + 1)
    ensures LastWithId(ds, i, n) && ds[i].simulationId != ds[n].simulationId
  {
  }

  datatype Tally = Tally(created: nat, updated: nat, untouched: nat)

  function Count(tally: Tally, change: Change): Tally {
    match change
    case Created => tally.(created := tally.created + 1)
    case Updated => tally.(updated := tally.updated + 1)
    case Untouched => tally.(untouched := tally.untouched + 1)
  }

  /** A file named just `Lab.vue` is a component whose display name is
      empty, so the sync refuses its write whatever the store holds. */
  lemma BareLabRefused(db: map<string, SimRecord>, category: string)
    requires StoreValid(db)
    ensures IsComponentFile("Lab.vue") && DisplayName("Lab.vue") == ""
    ensures SyncOne(db, Discovered(SimulationId("Lab.vue"), DisplayName("Lab.vue"), category)).None?
  {
    assert OccursAt("Lab.vue", "Lab.vue", 0);
    assert RemoveFirst("Lab.vue", "Lab.vue") == "";
  }

  /** What the sync loop has established after processing `ds[..n]` into `cur`. */
  ghost predicate SyncedPrefix(db: map<string, SimRecord>, ds: seq<Discovered>, n: nat, cur: map<string, SimRecord>)
    requires n <= |ds|
  {
    && StoreValid(cur)
    && (forall i :: 0 <= i < n ==> SimStorable(ds[i].simulationId, ds[i].name))
    && cur.Keys == db.Keys + IdsOf(ds[..n])
    && (forall id :: id in db ==> cur[id].isVisible == db[id].isVisible)
    && (forall id :: id in cur && id !in db ==> cur[id].isVisible)
    && (forall id :: id in db && id !in IdsOf(ds[..n]) ==> cur[id] == db[id])
    && (forall i :: 0 <= i < n && LastWithId(ds, i, n) ==>
          cur[ds[i].simulationId].name == ds[i].name && cur[ds[i].simulationId].category == ds[i].category)
  }

  lemma IdsOfStep(ds: seq<Discovered>, n: nat)
    requires n < |ds|
    ensures IdsOf(ds[..n + 1]) == IdsOf(ds[..n]) + {ds[n].simulationId}
  {
    assert ds[..n + 1] == ds[..n] + [ds[n]];
  }

  lemma IdsOfPrefix(ds: seq<Discovered>, n: nat)
    requires n <= |ds|
    ensures IdsOf(ds[..n]) <= IdsOf(ds)
  {
    forall id | id in IdsOf(ds[..n]) ensures id in IdsOf(ds) {
      var d :| d in ds[..n] && d.simulationId == id;
    }
  }

  /** The store after one accepted step. */
  function Next(cur: map<string, SimRecord>, sim: Discovered): map<string, SimRecord>
    requires StoreValid(cur) && SimStorable(sim.simulationId, sim.name)
  {
    SyncOne(cur, sim).value.0
  }

  lemma SyncStepName(db: map<string, SimRecord>, ds: seq<Discovered>, n: nat, cur: map<string, SimRecord>, i: nat)
    requires n < |ds| && SyncedPrefix(db, ds, n, cur) && SimStorable(ds[n].simulationId, ds[n].name)
    requires i < n + 1 && LastWithId(ds, i, n + 1)
    ensures ds[i].simulationId in Next(cur, ds[n])
    ensures Next(cur, ds[n])[ds[i].simulationId].name == ds[i].name
    ensures Next(cur, ds[n])[ds[i].simulationId].category == ds[i].category
  {
    if i < n {
      LastWithIdShrinks(ds, i, n);
      assert ds[..n][i] == ds[i];
      assert ds[i].simulationId in IdsOf(ds[..n]);
    }
  }

  lemma SyncStepNames(db: map<string, SimRecord>, ds: seq<Discovered>, n: nat, cur: map<string, SimRecord>)
    requires n < |ds| && SyncedPrefix(db, ds, n, cur) && SimStorable(ds[n].simulationId, ds[n].name)
    ensures forall i :: 0 <= i < n + 1 && LastWithId(ds, i, n + 1) ==>
              && ds[i].simulationId in Next(cur, ds[n])
              && Next(cur, ds[n])[ds[i].simulationId].name == ds[i].name
              && Next(cur, ds[n])[ds[i].simulationId].category == ds[i].category
  {
    forall i | 0 <= i < n + 1 && LastWithId(ds, i, n + 1)
      ensures ds[i].simulationId in Next(cur, ds[n])
      ensures Next(cur, ds[n])[ds[i].simulationId].name == ds[i].name
      ensures Next(cur, ds[n])[ds[i].simulationId].category == ds[i].category
    {
      SyncStepName(db, ds, n, cur, i);
    }
  }

  lemma SyncStepKeys(db: map<string, SimRecord>, ds: seq<Discovered>, n: nat, cur: map<string, SimRecord>)
    requires n < |ds| && SyncedPrefix(db, ds, n, cur) && SimStorable(ds[n].simulationId, ds[n].name)
    ensures Next(cur, ds[n]).Keys == db.Keys + IdsOf(ds[..n + 1])
  {
    IdsOfStep(ds, n);
  }

  lemma SyncStepVisibility(db: map<string, SimRecord>, ds: seq<Discovered>, n: nat, cur: map<string, SimRecord>)
    requires n < |ds| && SyncedPrefix(db, ds, n, cur) && SimStorable(ds[n].simulationId, ds[n].name)
    ensures forall id :: id in db ==> Next(cur, ds[n])[id].isVisible == db[id].isVisible
    ensures forall id :: id in Next(cur, ds[n]) && id !in db ==> Next(cur, ds[n])[id].isVisible
  {
  }

  lemma SyncStepOthers(db: map<string, SimRecord>, ds: seq<Discovered>, n: nat, cur: map<string, SimRecord>)
    requires n < |ds| && SyncedPrefix(db, ds, n, cur) && SimStorable(ds[n].simulationId, ds[n].name)
    ensures forall id :: id in db && id !in IdsOf(ds[..n + 1]) ==> Next(cur, ds[n])[id] == db[id]
  {
    IdsOfStep(ds, n);
  }

  lemma SyncStepStorable(ds: seq<Discovered>, n: nat)
    requires n < |ds| && forall i :: 0 <= i < n ==> SimStorable(ds[i].simulationId, ds[i].name)
    requires SimStorable(ds[n].simulationId, ds[n].name)
    ensures forall i :: 0 <= i < n + 1 ==> SimStorable(ds[i].simulationId, ds[i].name)
  {
  }

  lemma SyncStep(db: map<string, SimRecord>, ds: seq<Discovered>, n: nat, cur: map<string, SimRecord>)
    requires n < |ds| && SyncedPrefix(db, ds, n, cur) && SimStorable(ds[n].simulationId, ds[n].name)
    ensures SyncedPrefix(db, ds, n + 1, Next(cur, ds[n]))
  {
    SyncStepStorable(ds, n);
    SyncStepKeys(db, ds, n, cur);
    SyncStepVisibility(db, ds, n, cur);
    SyncStepOthers(db, ds, n, cur);
    SyncStepNames(db, ds, n, cur);
  }

  /** The sync loop proper: it returns how far it got, stopping at the
      first component whose write the schema refuses. */
  method SyncLoop(db: map<string, SimRecord>, discovered: seq<Discovered>)
    returns (n: nat, db': map<string, SimRecord>, tally: Tally)
    requires StoreValid(db)
    ensures n <= |discovered| && SyncedPrefix(db, discovered, n, db')
    ensures tally.created + tally.updated + tally.untouched == n
    ensures n < |discovered| ==> !SimStorable(discovered[n].simulationId, discovered[n].name)
  {
    db' := db;
    tally := Tally(0, 0, 0);
    n := 0;
    while n < |discovered|
      invariant n <= |discovered|
      invariant tally.created + tally.updated + tally.untouched == n
      invariant SyncedPrefix(db, discovered, n, db')
    {
      var step := SyncOne(db', discovered[n]);
      if step.None? {
        return;
      }
      SyncStep(db, discovered, n, db');
      db' := step.value.0;
      tally := Count(tally, step.value.1);
      n := n + 1;
    }
  }

  /** `autoSyncSimulations` over a store whose records all passed the
      schema: each discovered component, in order, is created visible when
      its id is new, has only name and category rewritten when either
      differs, and is otherwise counted as untouched. A write the schema
      refuses throws, and the script exits with status 1 (`ok` false)
      after the writes before it. */
  method AutoSync(db: map<string, SimRecord>, discovered: seq<Discovered>)
    returns (ok: bool, db': map<string, SimRecord>, tally: Tally)
    requires StoreValid(db)
    ensures ok <==> forall i :: 0 <= i < |discovered| ==> SimStorable(discovered[i].simulationId, discovered[i].name)
    ensures ok ==> tally.created + tally.updated + tally.untouched == |discovered|
    ensures ok ==> db'.Keys == db.Keys + IdsOf(discovered)
    ensures db.Keys <= db'.Keys <= db.Keys + IdsOf(discovered) && StoreValid(db')
    ensures forall id :: id in db ==> db'[id].isVisible == db[id].isVisible
    ensures forall id :: id in db' && id !in db ==> db'[id].isVisible
    ensures forall id :: id in db && id !in IdsOf(discovered) ==> db'[id] == db[id]
    ensures ok ==> forall i :: 0 <= i < |discovered| && LastWithId(discovered, i, |discovered|) ==>
              db'[discovered[i].simulationId].name == discovered[i].name
              && db'[discovered[i].simulationId].category == discovered[i].category
    ensures !ok ==> exists n :: 0 <= n < |discovered| && SyncedPrefix(db, discovered, n, db')
                                && !SimStorable(discovered[n].simulationId, discovered[n].name)
  {
    var n;
    n, db', tally := SyncLoop(db, discovered);
    IdsOfPrefix(discovered, n);
    ok := n == |discovered|;
    if ok {
      assert discovered[..n] == discovered;
    }
  }
}
