/** The NoSQL-operator filter of the backend: every object key that starts
    with `$` or contains `.` is dropped, at every depth of a JSON-like value
    (and a `__proto__` key leaves no member, since the filtered copy is
    built by assignment into a fresh object), and the request's body,
    query and params are replaced by their filtered forms. */
module MongoSanitize {
  import opened Strings

  /** A parsed request value. An object is its own enumerable keys in
      enumeration order. */
  datatype Json =
    | Undefined
    | Null
    | Bool(b: bool)
    | Num(n: real)
    | Str(s: string)
    | Arr(items: seq<Json>)
    | Obj(members: seq<Member>)

  datatype Member = Member(key: string, value: Json)

  /** A key that could carry a query operator or a dotted path. */
  predicate Blocked(key: string) {
    StartsWith(key, "$") || Contains(key, ".")
  }

  /** The own key `__proto__`: assigning it into a fresh object sets the
      object's prototype instead of adding a member. */
  const ProtoKey: string := "__proto__"

  /** A key that becomes a member of the sanitized object: not blocked, and
      not the prototype key. */
  predicate Kept(key: string) {
    !Blocked(key) && key != ProtoKey
  }

  function Keys(ms: seq<Member>): set<string> {
    set i | 0 <= i < |ms| :: ms[i].key
  }

  /** Object keys are distinct, at every depth. */
  predicate WellFormed(v: Json) {
    match v
    case Arr(items) => forall i :: 0 <= i < |items| ==> WellFormed(items[i])
    case Obj(ms) =>
      && (forall i, j :: 0 <= i < j < |ms| ==> ms[i].key != ms[j].key)
      && (forall i :: 0 <= i < |ms| ==> WellFormed(ms[i].value))
    case _ => true
  }

  /** No object at any depth has a key that sanitizing would not keep. */
  predicate Clean(v: Json) {
    match v
    case Arr(items) => forall i :: 0 <= i < |items| ==> Clean(items[i])
    case Obj(ms) => forall i :: 0 <= i < |ms| ==> Kept(ms[i].key) && Clean(ms[i].value)
    case _ => true
  }

  /** `sanitizeValue`. */
  function Sanitize(v: Json): (r: Json)
    ensures Clean(r)
    ensures v.Arr? <==> r.Arr?
    ensures v.Obj? <==> r.Obj?
    ensures !v.Arr? && !v.Obj? ==> r == v
    decreases v, 1
  {
    match v
    case Arr(items) => Arr(SanitizeItems(items))
    case Obj(ms) => Obj(SanitizeMembers(ms))
    case _ => v
  }

  /** Arrays are mapped element by element. */
  function SanitizeItems(items: seq<Json>): (r: seq<Json>)
    ensures |r| == |items|
    ensures forall i :: 0 <= i < |r| ==> Clean(r[i])
    decreases items, 0
  {
    if items == [] then [] else [Sanitize(items[0])] + SanitizeItems(items[1..])
  }

  /** Object members with blocked keys are skipped, a `__proto__` member
      leaves no member behind, and the rest keep their order. */
  function SanitizeMembers(ms: seq<Member>): (r: seq<Member>)
    ensures |r| <= |ms|
    ensures forall i :: 0 <= i < |r| ==> Kept(r[i].key) && Clean(r[i].value)
    ensures Keys(r) <= Keys(ms)
    decreases ms, 0
  {
    if ms == [] then []
    else
      var rest := SanitizeMembers(ms[1..]);
      assert Keys(ms[1..]) <= Keys(ms) by {
        forall k | k in Keys(ms[1..]) ensures k in Keys(ms) {
          var i :| 0 <= i < |ms[1..]| && ms[1..][i].key == k;
          assert ms[i + 1].key == k;
        }
      }
      if !Kept(ms[0].key) then rest
      else
        var r := [Member(ms[0].key, Sanitize(ms[0].value))] + rest;
        assert Keys(r) <= {ms[0].key} + Keys(rest) by {
          forall k | k in Keys(r) ensures k in {ms[0].key} + Keys(rest) {
            var i :| 0 <= i < |r| && r[i].key == k;
            if i > 0 { assert rest[i - 1].key == k; }
          }
        }
        r
  }

  lemma {:induction false} SanitizeItemsElementwise(items: seq<Json>)
    ensures forall i :: 0 <= i < |items| ==> SanitizeItems(items)[i] == Sanitize(items[i])
    decreases items
  {
    if items != [] {
      SanitizeItemsElementwise(items[1..]);
      assert forall i :: 1 <= i < |items| ==> items[1..][i - 1] == items[i];
    }
  }

  /** Arrays keep their length and order: element i of the result is element i sanitized. */
  lemma ArraysElementwise(items: seq<Json>)
    ensures Sanitize(Arr(items)).Arr?
    ensures |Sanitize(Arr(items)).items| == |items|
    ensures forall i :: 0 <= i < |items| ==> Sanitize(Arr(items)).items[i] == Sanitize(items[i])
  {
    SanitizeItemsElementwise(items);
  }

  /** Every member whose key is kept survives, mapped to its sanitized value. */
  lemma {:induction false} MembersPreserved(ms: seq<Member>)
    ensures forall i :: 0 <= i < |ms| && Kept(ms[i].key) ==>
              Member(ms[i].key, Sanitize(ms[i].value)) in SanitizeMembers(ms)
    decreases ms
  {
    if ms != [] {
      MembersPreserved(ms[1..]);
      assert forall i :: 1 <= i < |ms| ==> ms[1..][i - 1] == ms[i];
    }
  }

  /** ... and every member of the result comes from a member of the input. */
  lemma {:induction false} MembersFromInput(ms: seq<Member>)
    ensures forall m :: m in SanitizeMembers(ms) ==>
              exists i :: 0 <= i < |ms| && Kept(ms[i].key) && m == Member(ms[i].key, Sanitize(ms[i].value))
    decreases ms
  {
    if ms != [] {
      MembersFromInput(ms[1..]);
      forall m | m in SanitizeMembers(ms)
        ensures exists i :: 0 <= i < |ms| && Kept(ms[i].key) && m == Member(ms[i].key, Sanitize(ms[i].value))
      {
        if m in SanitizeMembers(ms[1..]) {
          var j :| 0 <= j < |ms[1..]| && Kept(ms[1..][j].key) && m == Member(ms[1..][j].key, Sanitize(ms[1..][j].value));
          assert ms[j + 1] == ms[1..][j];
        } else {
          assert m == Member(ms[0].key, Sanitize(ms[0].value));
        }
      }
    }
  }

  /** An object's surviving keys are exactly its kept keys. */
  lemma ObjectKeys(ms: seq<Member>)
    ensures Sanitize(Obj(ms)).Obj?
    ensures Keys(Sanitize(Obj(ms)).members) == set k | k in Keys(ms) && Kept(k)
  {
    var r := SanitizeMembers(ms);
    MembersPreserved(ms);
    MembersFromInput(ms);
    forall k | k in Keys(ms) && Kept(k) ensures k in Keys(r) {
      var i :| 0 <= i < |ms| && ms[i].key == k;
      var j :| 0 <= j < |r| && r[j] == Member(k, Sanitize(ms[i].value));
    }
    forall k | k in Keys(r) ensures k in Keys(ms) && Kept(k) {
      var j :| 0 <= j < |r| && r[j].key == k;
      assert r[j] in r;
    }
  }

  /** A `__proto__` member never becomes a member of the result, while any
      other unblocked key does. */
  lemma ProtoKeyDropped(ms: seq<Member>)
    ensures ProtoKey !in Keys(Sanitize(Obj(ms)).members)
    ensures forall k :: k in Keys(ms) && !Blocked(k) && k != ProtoKey ==> k in Keys(Sanitize(Obj(ms)).members)
  {
    ObjectKeys(ms);
  }

  /** A member list whose keys are distinct stays so after sanitizing. */
  lemma {:induction false} MembersDistinct(ms: seq<Member>)
    requires forall i, j :: 0 <= i < j < |ms| ==> ms[i].key != ms[j].key
    ensures forall i, j :: 0 <= i < j < |SanitizeMembers(ms)| ==> SanitizeMembers(ms)[i].key != SanitizeMembers(ms)[j].key
    decreases ms
  {
    if ms != [] {
      MembersDistinct(ms[1..]);
      var rest := SanitizeMembers(ms[1..]);
      if Kept(ms[0].key) {
        forall j | 0 <= j < |rest| ensures rest[j].key != ms[0].key {
          assert rest[j].key in Keys(rest);
          var i :| 0 <= i < |ms[1..]| && ms[1..][i].key == rest[j].key;
          assert ms[i + 1].key == rest[j].key;
        }
      }
    }
  }

  /** Sanitizing keeps keys distinct at every depth. */
  lemma {:induction false} SanitizeWellFormed(v: Json)
    requires WellFormed(v)
    ensures WellFormed(Sanitize(v))
    decreases v
  {
    match v
    case Arr(items) =>
      SanitizeItemsElementwise(items);
      forall i | 0 <= i < |items| ensures WellFormed(Sanitize(items[i])) {
        SanitizeWellFormed(items[i]);
      }
    case Obj(ms) =>
      MembersDistinct(ms);
      MembersFromInput(ms);
      forall m | m in SanitizeMembers(ms) ensures WellFormed(m.value) {
        var i :| 0 <= i < |ms| && Kept(ms[i].key) && m == Member(ms[i].key, Sanitize(ms[i].value));
        SanitizeWellFormed(ms[i].value);
      }
      assert forall i :: 0 <= i < |SanitizeMembers(ms)| ==> SanitizeMembers(ms)[i] in SanitizeMembers(ms);
    case _ =>
  }

  /** A value with only kept keys, at every depth, is left exactly as it is. */
  lemma {:induction false} SanitizeCleanIsIdentity(v: Json)
    requires Clean(v)
    ensures Sanitize(v) == v
    decreases v, 1
  {
    match v
    case Arr(items) => ItemsCleanIsIdentity(items);
    case Obj(ms) => MembersCleanIsIdentity(ms);
    case _ =>
  }

  lemma {:induction false} ItemsCleanIsIdentity(items: seq<Json>)
    requires forall i :: 0 <= i < |items| ==> Clean(items[i])
    ensures SanitizeItems(items) == items
    decreases items, 0
  {
    if items != [] {
      SanitizeCleanIsIdentity(items[0]);
      ItemsCleanIsIdentity(items[1..]);
    }
  }

  lemma {:induction false} MembersCleanIsIdentity(ms: seq<Member>)
    requires forall i :: 0 <= i < |ms| ==> Kept(ms[i].key) && Clean(ms[i].value)
    ensures SanitizeMembers(ms) == ms
    decreases ms, 0
  {
    if ms != [] {
      SanitizeCleanIsIdentity(ms[0].value);
      MembersCleanIsIdentity(ms[1..]);
    }
  }

  /** Sanitizing twice is sanitizing once. */
  lemma Idempotent(v: Json)
    ensures Sanitize(Sanitize(v)) == Sanitize(v)
  {
    SanitizeCleanIsIdentity(Sanitize(v));
  }

  /** The parts of a request the middleware touches; `Undefined` where a part is absent. */
  datatype Request = Request(body: Json, query: Json, params: Json)

  /** The guard `x && typeof x === 'object'`: a non-null object or array. */
  predicate IsObject(v: Json) {
    v.Arr? || v.Obj?
  }

  /** Deleting every own key of `target` and then assigning every key of `source`. */
  function ClearAndAssign(target: Json, source: Json): (r: Json)
    requires target.Obj? && source.Obj?
    ensures r.Obj? && r.members == source.members
  {
    var cleared := Obj([]);
    Obj(cleared.members + source.members)
  }

  /** The middleware returned by `mongoSanitize()`: the body is replaced
      wholesale, query and params are emptied and refilled in place. */
  function Middleware(req: Request): (r: Request)
    ensures Clean(r.body) && Clean(r.query) && Clean(r.params)
    ensures IsObject(req.body) ==> r.body == Sanitize(req.body)
    ensures !IsObject(req.body) ==> r.body == req.body
    ensures req.query.Obj? ==> r.query.Obj? && Keys(r.query.members) == set k | k in Keys(req.query.members) && Kept(k)
    ensures req.params.Obj? ==> r.params.Obj? && Keys(r.params.members) == set k | k in Keys(req.params.members) && Kept(k)
  {
    ObjectKeysOf(req.query);
    ObjectKeysOf(req.params);
    Request(
      if IsObject(req.body) then Sanitize(req.body) else req.body,
      Refill(req.query),
      Refill(req.params))
  }

  /** In-place replacement of a query or params container. */
  function Refill(v: Json): (r: Json)
    ensures Clean(r)
    ensures r == Sanitize(v)
  {
    match v
    case Obj(_) => ClearAndAssign(v, Sanitize(v))
    case Arr(_) => Sanitize(v)
    case _ => v
  }

  lemma ObjectKeysOf(v: Json)
    ensures v.Obj? ==> Keys(Sanitize(v).members) == set k | k in Keys(v.members) && Kept(k)
  {
    if v.Obj? { ObjectKeys(v.members); }
  }
}
