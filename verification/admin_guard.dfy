/** The admin panel's navigation guard over its route table. A route
    record's `meta` is merged into its children's the way the router does
    it (a child's own keys override), and the guard reads the merged flags. */
module AdminGuard {
  import opened Strings

  /** Route meta: a key is absent, or present with a value. */
  datatype Meta = Meta(requiresAuth: Option<bool>, guestOnly: Option<bool>)

  const NoMeta := Meta(None, None)

  datatype Record = Record(path: string, meta: Meta, children: seq<Record>)

  /** The admin route table. */
  const Table: seq<Record> := [
    Record("/login", Meta(None, Some(true)), []),
    Record("/", Meta(Some(true), None), [
      Record("", NoMeta, []),
      Record("users", NoMeta, []),
      Record("simulations", NoMeta, []),
      Record("units", NoMeta, [])
    ])
  ]

  /** `Object.assign(parent, child)` on meta objects. */
  function Merge(parent: Meta, child: Meta): (r: Meta)
    ensures child.requiresAuth.Some? ==> r.requiresAuth == child.requiresAuth
    ensures child.requiresAuth.None? ==> r.requiresAuth == parent.requiresAuth
    ensures child.guestOnly.Some? ==> r.guestOnly == child.guestOnly
    ensures child.guestOnly.None? ==> r.guestOnly == parent.guestOnly
  {
    Meta(if child.requiresAuth.Some? then child.requiresAuth else parent.requiresAuth,
         if child.guestOnly.Some? then child.guestOnly else parent.guestOnly)
  }

  /** Merging behaves as `Object.assign` does on flat objects: an empty meta
      changes nothing on either side, merging is associative, merging a meta
      into itself gives it back, and a later merge wins over an earlier one. */
  lemma MergeLaws(a: Meta, b: Meta, c: Meta)
    ensures Merge(a, NoMeta) == a && Merge(NoMeta, a) == a
    ensures Merge(Merge(a, b), c) == Merge(a, Merge(b, c))
    ensures Merge(a, a) == a
    ensures Merge(Merge(a, b), b) == Merge(a, b)
  {
  }

  /** A page the router can land on: its full path and merged meta. */
  datatype Page = Page(path: string, meta: Meta)

  function JoinPath(parent: string, child: string): string {
    if child == "" then parent
    else if parent != "" && parent[|parent| - 1] == '/' then parent + child
    else parent + "/" + child
  }

  /** The pages of the children of a record, with the record's meta merged in. */
  function ChildPages(parentPath: string, parentMeta: Meta, children: seq<Record>): (r: seq<Page>)
    ensures |r| == |children|
    ensures forall k :: 0 <= k < |r| ==> r[k].meta == Merge(parentMeta, children[k].meta)
  {
    if children == [] then []
    else [Page(JoinPath(parentPath, children[0].path), Merge(parentMeta, children[0].meta))]
         + ChildPages(parentPath, parentMeta, children[1..])
  }

  /** The pages of the table: a record without children is a page; a record
      with children is reached through them. */
  function Pages(table: seq<Record>): seq<Page> {
    if table == [] then []
    else
      var r := table[0];
      (if r.children == [] then [Page(r.path, r.meta)] else ChildPages(r.path, r.meta, r.children))
      + Pages(table[1..])
  }

  predicate Flag(b: Option<bool>) {
    b == Some(true)
  }

  datatype Decision = Proceed | Redirect(path: string)

  /** `beforeEach`: signed-out visitors of a protected page go to `/login`;
      signed-in visitors of a guest page go to `/`; everyone else proceeds.
      `signedIn` is the store's `isAuthenticated`. */
  function Guard(to: Meta, signedIn: bool): (r: Decision)
    ensures r == Redirect("/login") <==> Flag(to.requiresAuth) && !signedIn
    ensures r == Redirect("/") <==> !(Flag(to.requiresAuth) && !signedIn) && Flag(to.guestOnly) && signedIn
    ensures r.Redirect? ==> r.path == "/login" || r.path == "/"
  {
    if Flag(to.requiresAuth) && !signedIn then Redirect("/login")
    else if Flag(to.guestOnly) && signedIn then Redirect("/")
    else Proceed
  }

  const LoginPage := Page("/login", Meta(None, Some(true)))
  const HomePage := Page("/", Meta(Some(true), None))

  const Protected := Meta(Some(true), None)

  /** A child path is appended after the parent's slash. */
  lemma DashboardPaths()
    ensures JoinPath("/", "") == "/" && JoinPath("/", "users") == "/users"
    ensures JoinPath("/", "simulations") == "/simulations" && JoinPath("/", "units") == "/units"
  {
  }

  /** The dashboard's children inherit its protection. */
  lemma DashboardPages()
    ensures ChildPages("/", Protected, Table[1].children) ==
              [HomePage, Page("/users", Protected), Page("/simulations", Protected), Page("/units", Protected)]
  {
    var m := Protected;
    var kids := Table[1].children;
    DashboardPaths();
    assert kids[3..][1..] == [];
    assert ChildPages("/", m, kids[3..]) == [Page("/units", m)];
    assert kids[2..][1..] == kids[3..];
    assert ChildPages("/", m, kids[2..]) == [Page("/simulations", m), Page("/units", m)];
    assert kids[1..][1..] == kids[2..];
    assert ChildPages("/", m, kids[1..]) == [Page("/users", m), Page("/simulations", m), Page("/units", m)];
  }

  /** The table's pages: the login page and the four dashboard pages. */
  lemma TablePages()
    ensures Pages(Table) == [LoginPage, HomePage, Page("/users", Protected), Page("/simulations", Protected),
                             Page("/units", Protected)]
  {
    DashboardPages();
    assert Pages(Table[2..]) == [];
    assert Pages(Table[1..]) == ChildPages("/", Protected, Table[1].children);
  }

  /** Every dashboard page is closed to signed-out visitors, and the login
      page to signed-in ones. */
  lemma GuardOnTable(p: Page, signedIn: bool)
    requires p in Pages(Table)
    ensures Guard(p.meta, signedIn) == if p.path == "/login" then (if signedIn then Redirect("/") else Proceed)
                                       else (if signedIn then Proceed else Redirect("/login"))
  {
    TablePages();
  }

  /** The page a redirect leads to lets the same visitor through, so the
      guard never redirects twice in a row. */
  lemma RedirectSettles(to: Meta, signedIn: bool)
    ensures LoginPage in Pages(Table) && HomePage in Pages(Table)
    ensures Guard(to, signedIn).Redirect? ==>
              var target := if Guard(to, signedIn).path == "/login" then LoginPage else HomePage;
              target.path == Guard(to, signedIn).path && Guard(target.meta, signedIn) == Proceed
  {
    TablePages();
  }

  /** A page marked both ways sends a signed-out visitor to `/login`: the
      protection test comes first. */
  lemma ProtectionFirst(signedIn: bool)
    ensures Guard(Meta(Some(true), Some(true)), signedIn) == if signedIn then Redirect("/") else Redirect("/login")
  {
  }
}
