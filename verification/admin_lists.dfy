/** The admin list store, as both front ends define it: the user,
    simulation and unit lists the panel shows, and the fetch, toggle and
    sync actions over them. Each action is given the reply to the request
    it sends. */
module AdminLists {
  import opened Strings
  import opened Client

  /** A listed document: its `_id`, its restriction flag (users only) and its other fields. */
  datatype Doc = Doc(id: string, isRestricted: bool, fields: map<string, string>)

  datatype List = Users | Simulations | Units

  datatype State = State(users: seq<Doc>, simulations: seq<Doc>, units: seq<Doc>, loading: bool, error: Option<string>)

  const Initial := State([], [], [], false, None)

  function Get(s: State, l: List): seq<Doc> {
    match l
    case Users => s.users
    case Simulations => s.simulations
    case Units => s.units
  }

  function Put(s: State, l: List, docs: seq<Doc>): (r: State)
    ensures Get(r, l) == docs
    ensures forall m :: m != l ==> Get(r, m) == Get(s, m)
    ensures r.loading == s.loading && r.error == s.error
  {
    match l
    case Users => s.(users := docs)
    case Simulations => s.(simulations := docs)
    case Units => s.(units := docs)
  }

  /** Whether two states show the same three lists. */
  predicate SameLists(s: State, t: State) {
    s.users == t.users && s.simulations == t.simulations && s.units == t.units
  }

  function Noun(l: List): string {
    match l
    case Users => "users"
    case Simulations => "simulations"
    case Units => "units"
  }

  /** The error a failed call records: the server's `message`, or the fallback. */
  function Failed(s: State, body: ErrorBody, fallback: string): (r: State)
    ensures SameLists(r, s) && r.loading == s.loading
    ensures r.error == Some(Or(body.message, fallback))
  {
    s.(error := Some(Or(body.message, fallback)))
  }

  /** `fetchUsers`, `fetchSimulations`, `fetchUnits`: the reply replaces the
      list; a failure keeps it and records the error; a success leaves an
      earlier error in place. */
  function Fetch(s: State, l: List, response: Response<seq<Doc>>): (r: State)
    ensures !r.loading
    ensures response.Success? ==> Get(r, l) == response.data && r.error == s.error
    ensures response.Failure? ==> Get(r, l) == Get(s, l) && r.error == Some(Or(response.body.message, "Failed to fetch " + Noun(l)))
    ensures forall m :: m != l ==> Get(r, m) == Get(s, m)
  {
    match response
    case Success(docs) => Put(s, l, docs).(loading := false)
    case Failure(body, _) => Failed(s, body, "Failed to fetch " + Noun(l)).(loading := false)
  }

  /** The first position of a document with this id, if any (`findIndex`). */
  function FindIndex(docs: seq<Doc>, id: string): (r: Option<nat>)
    ensures r.Some? ==> r.value < |docs| && docs[r.value].id == id
    ensures r.Some? ==> forall k :: 0 <= k < r.value ==> docs[k].id != id
    ensures r.None? <==> forall k :: 0 <= k < |docs| ==> docs[k].id != id
  {
    if docs == [] then None
    else if docs[0].id == id then Some(0)
    else
      var rest := FindIndex(docs[1..], id);
      if rest.None? then None else Some(rest.value + 1)
  }

  /** The first document with this id replaced; no match, no change. */
  function ReplaceFirst(docs: seq<Doc>, id: string, doc: Doc): (r: seq<Doc>)
    ensures |r| == |docs|
    ensures (forall k :: 0 <= k < |docs| ==> docs[k].id != id) ==> r == docs
    ensures forall k :: 0 <= k < |docs| && docs[k].id == id && (forall j :: 0 <= j < k ==> docs[j].id != id) ==> r[k] == doc
    ensures forall k :: 0 <= k < |docs| && (docs[k].id != id || exists j :: 0 <= j < k && docs[j].id == id) ==> r[k] == docs[k]
  {
    var i := FindIndex(docs, id);
    if i.None? then docs else docs[i.value := doc]
  }

  /** The first match depends on the ids alone. */
  lemma SameIdsSameIndex(a: seq<Doc>, b: seq<Doc>, id: string)
    requires |a| == |b| && forall k :: 0 <= k < |a| ==> a[k].id == b[k].id
    ensures FindIndex(a, id) == FindIndex(b, id)
  {
    var i, j := FindIndex(a, id), FindIndex(b, id);
    if i.Some? {
      assert b[i.value].id == id;
    }
    if j.Some? {
      assert a[j.value].id == id;
    }
  }

  /** Replacing with the same document again is replacing once, when the new
      document keeps the id. */
  lemma ReplaceFirstIdempotent(docs: seq<Doc>, id: string, doc: Doc)
    requires doc.id == id
    ensures ReplaceFirst(ReplaceFirst(docs, id, doc), id, doc) == ReplaceFirst(docs, id, doc)
  {
    var i := FindIndex(docs, id);
    if i.Some? {
      SameIdsSameIndex(docs, docs[i.value := doc], id);
    }
  }

  /** `toggleUserRestriction`: on success the first user with this id gets
      the requested flag and the action returns true; on failure it returns
      false and the lists stay. */
  function ToggleUserRestriction(s: State, id: string, restricted: bool, response: Response<()>): (r: (State, bool))
    ensures r.1 <==> response.Success?
    ensures r.0.simulations == s.simulations && r.0.units == s.units && r.0.loading == s.loading
    ensures !r.1 ==> SameLists(r.0, s) && r.0.error == Some(Or(response.body.message, "Failed to update user"))
    ensures r.1 ==> r.0.error == s.error && |r.0.users| == |s.users|
    ensures r.1 && FindIndex(s.users, id).None? ==> r.0.users == s.users
    ensures r.1 && FindIndex(s.users, id).Some? ==>
              var i := FindIndex(s.users, id).value;
              r.0.users == s.users[i := s.users[i].(isRestricted := restricted)]
  {
    match response
    case Success(_) =>
      var i := FindIndex(s.users, id);
      if i.None? then (s, true)
      else (s.(users := s.users[i.value := s.users[i.value].(isRestricted := restricted)]), true)
    case Failure(body, _) => (Failed(s, body, "Failed to update user"), false)
  }

  /** A restriction flag set twice is set once, and flipping it back
      restores the list. */
  lemma RestrictionRoundTrip(s: State, id: string, restricted: bool)
    ensures var once := ToggleUserRestriction(s, id, restricted, Success(())).0;
            ToggleUserRestriction(once, id, restricted, Success(())).0 == once
    ensures var i := FindIndex(s.users, id);
            i.Some? ==>
              var t := ToggleUserRestriction(s, id, restricted, Success(())).0;
              ToggleUserRestriction(t, id, s.users[i.value].isRestricted, Success(())).0 == s
  {
    var i := FindIndex(s.users, id);
    if i.Some? {
      var u := s.users[i.value := s.users[i.value].(isRestricted := restricted)];
      SameIdsSameIndex(s.users, u, id);
      assert u[i.value := u[i.value].(isRestricted := s.users[i.value].isRestricted)] == s.users;
    }
  }

  /** `toggleSimulation` and `toggleUnit`: on success the first document
      with this id is replaced by the returned one. */
  function ToggleDoc(s: State, l: List, id: string, response: Response<Doc>): (r: (State, bool))
    requires l != Users
    ensures r.1 <==> response.Success?
    ensures r.0.loading == s.loading && forall m :: m != l ==> Get(r.0, m) == Get(s, m)
    ensures r.1 ==> Get(r.0, l) == ReplaceFirst(Get(s, l), id, response.data) && r.0.error == s.error
    ensures !r.1 ==> SameLists(r.0, s) && r.0.error == Some(Or(response.body.message, ToggleFallback(l)))
  {
    match response
    case Success(doc) => (Put(s, l, ReplaceFirst(Get(s, l), id, doc)), true)
    case Failure(body, _) => (Failed(s, body, ToggleFallback(l)), false)
  }

  function ToggleFallback(l: List): string {
    match l
    case Users => "Failed to update user"
    case Simulations => "Failed to toggle simulation"
    case Units => "Failed to toggle unit"
  }

  /** `syncSimulations` and `syncUnits`: after an accepted sync the list is
      fetched again (a failed re-fetch is recorded by the fetch itself and
      the sync still returns true); a refused sync returns false. */
  function Sync(s: State, l: List, post: Response<()>, refetch: Response<seq<Doc>>): (r: (State, bool))
    requires l != Users
    ensures r.1 <==> post.Success?
    ensures r.1 ==> r.0 == Fetch(s, l, refetch)
    ensures !r.1 ==> SameLists(r.0, s) && r.0.loading == s.loading
                     && r.0.error == Some(Or(post.body.message, "Failed to sync " + Noun(l)))
  {
    match post
    case Success(_) => (Fetch(s, l, refetch), true)
    case Failure(body, _) => (Failed(s, body, "Failed to sync " + Noun(l)), false)
  }

  /** `autoDiscoverSimulations` (learner-site store only): no list changes. */
  function AutoDiscover(s: State, post: Response<()>): (r: (State, bool))
    ensures r.1 <==> post.Success?
    ensures SameLists(r.0, s) && r.0.loading == s.loading
    ensures r.1 ==> r.0 == s
    ensures !r.1 ==> r.0.error == Some(Or(post.body.message, "Failed to auto-discover simulations"))
  {
    match post
    case Success(_) => (s, true)
    case Failure(body, _) => (Failed(s, body, "Failed to auto-discover simulations"), false)
  }

  /** A sync whose re-fetch succeeds shows exactly what the server returned. */
  lemma SyncShowsServerList(s: State, l: List, docs: seq<Doc>)
    requires l != Users
    ensures var r := Sync(s, l, Success(()), Success(docs));
            r.1 && Get(r.0, l) == docs && !r.0.loading
  {
  }

  /** Loading is over after every fetch and every sync, whatever the replies. */
  lemma LoadingSettles(s: State, l: List, post: Response<()>, refetch: Response<seq<Doc>>)
    requires l != Users
    ensures !Fetch(s, l, refetch).loading
    ensures post.Success? ==> !Sync(s, l, post, refetch).0.loading
  {
  }
}
