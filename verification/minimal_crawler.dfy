/** The earlier, unpaginated crawl of
    `final_minimal_header_hierarchy_sankey_app.py`. It builds the same
    records as the paginated crawl, by different rules: every endpoint is
    read once, whatever its status; and within a directory, every group
    with a usable id is paired with every directory user with a usable
    id, whose fields come from the directory listing itself (group
    membership is never fetched). */
module MinimalCrawler {
  import opened Api
  import opened Records
  import opened Pagination

  /** `requests.get(url).json().get("data", [])`: one response, its status
      unchecked, `data` defaulting to the empty list. */
  function Read(server: Server, url: string): seq<Item>
  {
    server(url).body.Data()
  }

  /** The users loop of one group: one visit per directory user with a
      usable id. */
  function PairsOutput(v: GroupVisit, users: seq<Item>): Output
    decreases |users|
  {
    if users == [] then NO_OUTPUT
    else
      var prev := PairsOutput(v, users[..|users| - 1]);
      var u := users[|users| - 1];
      var userId := AccountKey(u);
      if !Truthy(userId) then prev else prev.Then(Emit(v, userId.value, u))
  }

  /** The normalised id of a group. */
  function GroupKey(g: Item): Option<string>
  {
    ExtractGuid(g.Get("id"))
  }

  function GroupOutput(server: Server, orgId: string, dirId: string, dirName: string, users: seq<Item>, g: Item): Output
  {
    if !Truthy(GroupKey(g)) then NO_OUTPUT
    else PairsOutput(GroupVisitOf(server, orgId, dirId, dirName, g), users)
  }

  function GroupsOutput(server: Server, orgId: string, dirId: string, dirName: string, users: seq<Item>,
                        groups: seq<Item>): Output
    decreases |groups|
  {
    if groups == [] then NO_OUTPUT
    else
      GroupsOutput(server, orgId, dirId, dirName, users, groups[..|groups| - 1])
        .Then(GroupOutput(server, orgId, dirId, dirName, users, groups[|groups| - 1]))
  }

  function DirectoryOutput(server: Server, orgId: string, d: Item): Output
  {
    var dirId := ExtractGuid(d.Get("directoryId"));
    if !Truthy(dirId) then NO_OUTPUT
    else
      var groups := Read(server, GroupsUrl(orgId, dirId.value));
      var users := Read(server, UsersUrl(orgId, dirId.value));
      GroupsOutput(server, orgId, dirId.value, d.GetOr("name", UNKNOWN_DIRECTORY), users, groups)
  }

  function DirectoriesOutput(server: Server, orgId: string, dirs: seq<Item>): Output
    decreases |dirs|
  {
    if dirs == [] then NO_OUTPUT
    else
      DirectoriesOutput(server, orgId, dirs[..|dirs| - 1]).Then(DirectoryOutput(server, orgId, dirs[|dirs| - 1]))
  }

  function CrawlOutput(server: Server, orgId: string): Output
  {
    DirectoriesOutput(server, orgId, Read(server, DirectoriesUrl(orgId)))
  }

  // ----- the crawl as the source runs it -----

  method VisitGroup(server: Server, orgId: string, dirId: string, dirName: string, users: seq<Item>,
                    g: Item, p: Progress) returns (q: Progress)
    ensures q == p.After(GroupOutput(server, orgId, dirId, dirName, users, g))
  {
    var grpId := GroupKey(g);
    var grpName := g.GetOr("name", UNKNOWN_GROUP);
    if !Truthy(grpId) {
      AfterNothing(p);
      return p;
    }
    var roles := Read(server, RoleAssignmentsUrl(orgId, dirId, grpId.value));
    var roleNames := RoleNames(roles);
    var v := GroupVisit(dirId, dirName, grpId.value, grpName, roleNames);
    q := VisitPairs(v, users, p);
  }

  /** The users loop: every directory user with a usable id is visited
      with its own directory record. */
  method VisitPairs(v: GroupVisit, users: seq<Item>, p: Progress) returns (q: Progress)
    ensures q == p.After(PairsOutput(v, users))
  {
    q := p;
    AfterNothing(p);
    for k := 0 to |users|
      invariant q == p.After(PairsOutput(v, users[..k]))
    {
      ghost var done := PairsOutput(v, users[..k]);
      assert users[..k + 1][..k] == users[..k];
      var userId := AccountKey(users[k]);
      if Truthy(userId) {
        assert PairsOutput(v, users[..k + 1]) == done.Then(Emit(v, userId.value, users[k]));
        AfterThen(p, done, Emit(v, userId.value, users[k]));
        q := EmitMember(v, userId.value, users[k], q);
      } else {
        assert PairsOutput(v, users[..k + 1]) == done;
      }
    }
    assert users[..|users|] == users;
  }

  method VisitDirectory(server: Server, orgId: string, d: Item, p: Progress) returns (q: Progress)
    ensures q == p.After(DirectoryOutput(server, orgId, d))
  {
    var dirId := ExtractGuid(d.Get("directoryId"));
    var dirName := d.GetOr("name", UNKNOWN_DIRECTORY);
    if !Truthy(dirId) {
      AfterNothing(p);
      return p;
    }
    var groups := Read(server, GroupsUrl(orgId, dirId.value));
    var users := Read(server, UsersUrl(orgId, dirId.value));
    q := VisitGroups(server, orgId, dirId.value, dirName, users, groups, p);
  }

  /** The groups loop of one directory. */
  method VisitGroups(server: Server, orgId: string, dirId: string, dirName: string, users: seq<Item>,
                     groups: seq<Item>, p: Progress) returns (q: Progress)
    ensures q == p.After(GroupsOutput(server, orgId, dirId, dirName, users, groups))
  {
    q := p;
    AfterNothing(p);
    for j := 0 to |groups|
      invariant q == p.After(GroupsOutput(server, orgId, dirId, dirName, users, groups[..j]))
    {
      ghost var done := GroupsOutput(server, orgId, dirId, dirName, users, groups[..j]);
      ghost var step := GroupOutput(server, orgId, dirId, dirName, users, groups[j]);
      assert groups[..j + 1][..j] == groups[..j];
      assert GroupsOutput(server, orgId, dirId, dirName, users, groups[..j + 1]) == done.Then(step);
      AfterThen(p, done, step);
      q := VisitGroup(server, orgId, dirId, dirName, users, groups[j], q);
    }
    assert groups[..|groups|] == groups;
  }

  /** The "Start Crawl" handler of the earlier revision. */
  method Crawl(server: Server, orgId: string, snapshot: Option<seq<HierarchyRecord>>) returns (p: Progress)
    ensures p == Start(snapshot).After(CrawlOutput(server, orgId))
  {
    p := Start(snapshot);
    var directories := Read(server, DirectoriesUrl(orgId));
    AfterNothing(p);
    if directories == [] {
      // nothing to crawl: the source only warns
      return;
    }
    var start := p;
    for i := 0 to |directories|
      invariant p == start.After(DirectoriesOutput(server, orgId, directories[..i]))
    {
      ghost var done := DirectoriesOutput(server, orgId, directories[..i]);
      ghost var step := DirectoryOutput(server, orgId, directories[i]);
      assert directories[..i + 1][..i] == directories[..i];
      assert DirectoriesOutput(server, orgId, directories[..i + 1]) == done.Then(step);
      AfterThen(start, done, step);
      p := VisitDirectory(server, orgId, directories[i], p);
    }
    assert directories[..|directories|] == directories;
  }

  // ----- properties of the crawl -----

  /** The groups of a listing whose normalised id is usable, in order. */
  function ValidGroups(groups: seq<Item>): (r: seq<Item>)
    ensures forall k :: 0 <= k < |r| ==> Truthy(GroupKey(r[k]))
    ensures |r| <= |groups|
    decreases |groups|
  {
    if groups == [] then []
    else
      var n := |groups| - 1;
      var prev := ValidGroups(groups[..n]);
      if Truthy(GroupKey(groups[n])) then prev + [groups[n]] else prev
  }

  /** The usable groups of `a + b` are those of `a`, then those of `b`. */
  lemma {:induction false} ValidGroupsAppend(a: seq<Item>, b: seq<Item>)
    ensures ValidGroups(a + b) == ValidGroups(a) + ValidGroups(b)
    decreases |b|
  {
    if b == [] {
      assert a + b == a;
    } else {
      var n := |b| - 1;
      var init, x := b[..n], b[n];
      assert b == init + [x];
      assert a + b == (a + init) + [x];
      var last := if Truthy(GroupKey(x)) then [x] else [];
      calc {
        ValidGroups(a + b);
        ValidGroups((a + init) + [x]);
        { ValidGroupsSnoc(a + init, x); }
        ValidGroups(a + init) + last;
        { ValidGroupsAppend(a, init); }
        ValidGroups(a) + ValidGroups(init) + last;
        ValidGroups(a) + (ValidGroups(init) + last);
        { ValidGroupsSnoc(init, x); }
        ValidGroups(a) + ValidGroups(init + [x]);
      }
    }
  }

  /** One more group is kept, at the end, exactly when it has an id. */
  lemma ValidGroupsSnoc(xs: seq<Item>, x: Item)
    ensures ValidGroups(xs + [x])
      == ValidGroups(xs) + (if Truthy(GroupKey(x)) then [x] else [])
  {
    var ys := xs + [x];
    assert ys[..|ys| - 1] == xs;
  }

  /** Exactly the entries with a usable id are kept: each kept entry comes
      from the input, and each input entry with an id is kept. */
  lemma {:induction false} ValidGroupsMembers(xs: seq<Item>)
    ensures forall k :: 0 <= k < |ValidGroups(xs)| ==> ValidGroups(xs)[k] in xs
    ensures forall k :: 0 <= k < |xs| && Truthy(GroupKey(xs[k])) ==> xs[k] in ValidGroups(xs)
    decreases |xs|
  {
    if xs != [] {
      var n := |xs| - 1;
      ValidGroupsMembers(xs[..n]);
      assert forall k :: 0 <= k < n ==> xs[k] == xs[..n][k];
    }
  }

  /** Within one group: one record per directory user with a usable id, in
      listing order, built from that user's own directory record. */
  lemma {:induction false} PairsRecords(v: GroupVisit, users: seq<Item>)
    ensures var o := PairsOutput(v, users);
      var valid := ValidMembers(users);
      && |o.records| == |valid|
      && forall k :: 0 <= k < |valid| ==> o.records[k] == Entry(v, AccountKey(valid[k]).value, valid[k])
    decreases |users|
  {
    if users != [] {
      var prefix := users[..|users| - 1];
      PairsRecords(v, prefix);
    }
  }

  /** The records of one directory laid out group-major: `|vg| * |vu|`
      records, the one at `i * |vu| + j` pairing the i-th group with the
      j-th user. */
  predicate Grid(records: seq<HierarchyRecord>, dirId: string, vg: seq<Item>, vu: seq<Item>)
  {
    && |records| == |vg| * |vu|
    && forall i, j :: 0 <= i < |vg| && 0 <= j < |vu| ==>
         && i * |vu| + j < |records|
         && Pairs(Cell(records, |vu|, i, j), dirId, vg[i], vu[j])
  }

  /** The record at row `i`, column `j` of a grid `m` records wide. */
  function Cell(records: seq<HierarchyRecord>, m: nat, i: nat, j: nat): HierarchyRecord
    requires i * m + j < |records|
  {
    records[i * m + j]
  }

  /** `r` is the record of user `u` in group `g` of directory `dirId`. */
  predicate Pairs(r: HierarchyRecord, dirId: string, g: Item, u: Item)
  {
    r.directoryId == dirId && GroupKey(g) == Some(r.groupId) && AccountKey(u) == Some(r.userId)
  }

  /** One more group's block of records extends the grid by one row. */
  lemma GridSnoc(records: seq<HierarchyRecord>, block: seq<HierarchyRecord>, dirId: string,
                 vg: seq<Item>, g: Item, vu: seq<Item>)
    requires Grid(records, dirId, vg, vu)
    requires |block| == |vu|
    requires forall j :: 0 <= j < |vu| ==> Pairs(block[j], dirId, g, vu[j])
    ensures Grid(records + block, dirId, vg + [g], vu)
  {
    var n, m := |vg|, |vu|;
    var all := records + block;
    var vg' := vg + [g];
    MulSucc(n, m);
    forall i, j | 0 <= i < n + 1 && 0 <= j < m
      ensures i * m + j < |all|
      ensures Pairs(Cell(all, m, i, j), dirId, vg'[i], vu[j])
    {
      var k := i * m + j;
      if i < n {
        MulLess(i, n, m);
        assert Pairs(Cell(records, m, i, j), dirId, vg[i], vu[j]);
        assert Cell(all, m, i, j) == Cell(records, m, i, j);
        assert vg'[i] == vg[i];
      } else {
        assert k == |records| + j;
        assert Cell(all, m, i, j) == block[j];
        assert vg'[i] == g;
      }
    }
  }

  lemma MulLess(i: nat, n: nat, m: nat)
    requires i < n
    ensures i * m + m <= n * m
  {
    MulSucc(i, m);
    assert (i + 1) * m <= n * m;
  }

  /** The last group of a listing either adds nothing or its block of
      (group, user) records. */
  lemma GroupsSnoc(server: Server, orgId: string, dirId: string, dirName: string,
                   users: seq<Item>, groups: seq<Item>)
    requires groups != []
    ensures var g := groups[|groups| - 1];
      var prefix := groups[..|groups| - 1];
      var before := GroupsOutput(server, orgId, dirId, dirName, users, prefix);
      var o := GroupsOutput(server, orgId, dirId, dirName, users, groups);
      && (!Truthy(GroupKey(g)) ==>
            && o == before && ValidGroups(groups) == ValidGroups(prefix)
            && RoleCounts(server, orgId, dirId, groups) == RoleCounts(server, orgId, dirId, prefix))
      && (Truthy(GroupKey(g)) ==>
            var v := GroupVisitOf(server, orgId, dirId, dirName, g);
            && ValidGroups(groups) == ValidGroups(prefix) + [g]
            && o == before.Then(PairsOutput(v, users))
            && RoleCounts(server, orgId, dirId, groups) == RoleCounts(server, orgId, dirId, prefix) + [|v.roleNames|])
  {
    var prefix := groups[..|groups| - 1];
    var before := GroupsOutput(server, orgId, dirId, dirName, users, prefix);
    assert before.Then(NO_OUTPUT) == before by {
      assert before.records + [] == before.records;
      assert before.rows + [] == before.rows;
    }
  }

  /** The visit of a group with a usable id, its role names read once. */
  function GroupVisitOf(server: Server, orgId: string, dirId: string, dirName: string, g: Item): GroupVisit
    requires Truthy(GroupKey(g))
  {
    var grpId := GroupKey(g).value;
    GroupVisit(dirId, dirName, grpId, g.GetOr("name", UNKNOWN_GROUP),
               RoleNames(Read(server, RoleAssignmentsUrl(orgId, dirId, grpId))))
  }

  /** Within one directory: (groups with a usable id) x (users with a
      usable id) records, group-major: the record at i * m + j pairs the
      i-th such group with the j-th such user. */
  lemma {:induction false} GroupsRecords(server: Server, orgId: string, dirId: string, dirName: string,
                                         users: seq<Item>, groups: seq<Item>)
    ensures Grid(GroupsOutput(server, orgId, dirId, dirName, users, groups).records,
                 dirId, ValidGroups(groups), ValidMembers(users))
    decreases |groups|
  {
    if groups != [] {
      var prefix := groups[..|groups| - 1];
      var g := groups[|groups| - 1];
      GroupsRecords(server, orgId, dirId, dirName, users, prefix);
      GroupsSnoc(server, orgId, dirId, dirName, users, groups);
      if Truthy(GroupKey(g)) {
        var v := GroupVisitOf(server, orgId, dirId, dirName, g);
        PairsRecords(v, users);
        GridSnoc(GroupsOutput(server, orgId, dirId, dirName, users, prefix).records, PairsOutput(v, users).records,
                 dirId, ValidGroups(prefix), g, ValidMembers(users));
      }
    }
  }

  /** Each (group, user) pair adds `|role names|` group rows and then
      `|platform roles|` ORG-LEVEL rows, so a directory user's platform
      roles are emitted once per valid group of its directory: the rows of
      one directory number m * (role names over its valid groups) plus
      (valid groups) * (platform roles of its m valid users). */
  lemma GroupsRowCount(server: Server, orgId: string, dirId: string, dirName: string,
                       users: seq<Item>, groups: seq<Item>)
    ensures |GroupsOutput(server, orgId, dirId, dirName, users, groups).rows|
      == |ValidMembers(users)| * Sum(RoleCounts(server, orgId, dirId, groups))
         + |ValidGroups(groups)| * PlatformRoleTotal(ValidMembers(users))
  {
    var m := |ValidMembers(users)|;
    var t := PlatformRoleTotal(ValidMembers(users));
    var ns := RoleCounts(server, orgId, dirId, groups);
    GroupsRowTotal(server, orgId, dirId, dirName, users, groups);
    RowsPerGroupIs(m, t, ns);
    RoleCountsLength(server, orgId, dirId, groups);
  }

  /** The number of role names of each group with a usable id, in order. */
  function RoleCounts(server: Server, orgId: string, dirId: string, groups: seq<Item>): seq<nat>
    decreases |groups|
  {
    if groups == [] then []
    else
      var g := groups[|groups| - 1];
      var prev := RoleCounts(server, orgId, dirId, groups[..|groups| - 1]);
      if !Truthy(GroupKey(g)) then prev
      else prev + [|RoleNames(Read(server, RoleAssignmentsUrl(orgId, dirId, GroupKey(g).value)))|]
  }

  lemma {:induction false} RoleCountsLength(server: Server, orgId: string, dirId: string, groups: seq<Item>)
    ensures |RoleCounts(server, orgId, dirId, groups)| == |ValidGroups(groups)|
    decreases |groups|
  {
    if groups != [] {
      RoleCountsLength(server, orgId, dirId, groups[..|groups| - 1]);
    }
  }

  function Sum(ns: seq<nat>): nat
    decreases |ns|
  {
    if ns == [] then 0 else Sum(ns[..|ns| - 1]) + ns[|ns| - 1]
  }

  /** `m * n + t` rows for each group of `n` role names. */
  function RowsPerGroup(m: nat, t: nat, ns: seq<nat>): nat
    decreases |ns|
  {
    if ns == [] then 0 else RowsPerGroup(m, t, ns[..|ns| - 1]) + m * ns[|ns| - 1] + t
  }

  lemma {:induction false} RowsPerGroupIs(m: nat, t: nat, ns: seq<nat>)
    ensures RowsPerGroup(m, t, ns) == m * Sum(ns) + |ns| * t
    decreases |ns|
  {
    if ns != [] {
      var prefix := ns[..|ns| - 1];
      RowsPerGroupIs(m, t, prefix);
      MulAdd(m, Sum(prefix), ns[|ns| - 1]);
      MulSucc(|prefix|, t);
    }
  }

  lemma {:induction false} GroupsRowTotal(server: Server, orgId: string, dirId: string, dirName: string,
                                          users: seq<Item>, groups: seq<Item>)
    ensures |GroupsOutput(server, orgId, dirId, dirName, users, groups).rows|
      == RowsPerGroup(|ValidMembers(users)|, PlatformRoleTotal(ValidMembers(users)),
                      RoleCounts(server, orgId, dirId, groups))
    decreases |groups|
  {
    if groups != [] {
      var prefix := groups[..|groups| - 1];
      var g := groups[|groups| - 1];
      GroupsRowTotal(server, orgId, dirId, dirName, users, prefix);
      GroupsSnoc(server, orgId, dirId, dirName, users, groups);
      if Truthy(GroupKey(g)) {
        var v := GroupVisitOf(server, orgId, dirId, dirName, g);
        var ns := RoleCounts(server, orgId, dirId, prefix);
        PairsRowCount(v, users);
        assert (ns + [|v.roleNames|])[..|ns|] == ns;
      }
    }
  }

  /** Rows of one group: m * |role names| + the platform roles of the m
      users. */
  lemma PairsRowCount(v: GroupVisit, users: seq<Item>)
    ensures |PairsOutput(v, users).rows|
      == |ValidMembers(users)| * |v.roleNames| + PlatformRoleTotal(ValidMembers(users))
  {
    PairsRowTotal(v, users);
    TimesIsProduct(|ValidMembers(users)|, |v.roleNames|);
  }

  lemma {:induction false} PairsRowTotal(v: GroupVisit, users: seq<Item>)
    ensures |PairsOutput(v, users).rows|
      == Times(|ValidMembers(users)|, |v.roleNames|) + PlatformRoleTotal(ValidMembers(users))
    decreases |users|
  {
    if users != [] {
      var prefix := users[..|users| - 1];
      var u := users[|users| - 1];
      PairsRowTotal(v, prefix);
      var valid := ValidMembers(prefix);
      var before := PairsOutput(v, prefix);
      if Truthy(AccountKey(u)) {
        var step := Emit(v, AccountKey(u).value, u);
        assert PairsOutput(v, users) == before.Then(step);
        MemberRowsLength(v, AccountKey(u).value, u);
        assert |step.rows| == |v.roleNames| + |u.PlatformRoles()|;
        assert ValidMembers(users) == valid + [u];
        assert (valid + [u])[..|valid|] == valid;
        assert PlatformRoleTotal(valid + [u]) == PlatformRoleTotal(valid) + |u.PlatformRoles()|;
        assert Times(|valid| + 1, |v.roleNames|) == Times(|valid|, |v.roleNames|) + |v.roleNames|;
      } else {
        assert PairsOutput(v, users) == before;
        assert ValidMembers(users) == valid;
      }
    }
  }

  /** How many platform roles these users hold. */
  function PlatformRoleTotal(users: seq<Item>): nat
    decreases |users|
  {
    if users == [] then 0 else PlatformRoleTotal(users[..|users| - 1]) + |users[|users| - 1].PlatformRoles()|
  }

  /** An empty directory listing adds nothing (the source warns instead). */
  lemma NoDirectoriesNoRecords(server: Server, orgId: string)
    requires Read(server, DirectoriesUrl(orgId)) == []
    ensures CrawlOutput(server, orgId) == NO_OUTPUT
  {
  }

  /** The single read keeps the first page's items whatever the status,
      where `paginate` keeps nothing from a failed response; on a lone
      successful page the two agree. */
  lemma ReadVersusPaginate(server: Server, url: string, fuel: nat)
    requires url != "" && fuel > 0
    ensures server(url).status != 200 ==>
      Collect(server, Some(url), fuel) == [] && Read(server, url) == server(url).body.Data()
    ensures server(url).status == 200 && !Truthy(server(url).body.next) ==>
      Collect(server, Some(url), fuel) == Read(server, url)
  {
    if server(url).status == 200 && !Truthy(server(url).body.next) {
      assert Collect(server, None, fuel - 1) == [];
      assert Read(server, url) + [] == Read(server, url);
    }
  }

  lemma {:induction false} PairsValid(v: GroupVisit, users: seq<Item>)
    requires ValidVisit(v)
    ensures ValidOutput(PairsOutput(v, users))
    decreases |users|
  {
    if users != [] {
      var u := users[|users| - 1];
      PairsValid(v, users[..|users| - 1]);
      var userId := AccountKey(u);
      if Truthy(userId) {
        EmitValid(v, userId.value, u);
        ThenValid(PairsOutput(v, users[..|users| - 1]), Emit(v, userId.value, u));
      }
    }
  }

  lemma {:induction false} GroupsValid(server: Server, orgId: string, dirId: string, dirName: string,
                                       users: seq<Item>, groups: seq<Item>)
    requires ValidId(dirId)
    ensures ValidOutput(GroupsOutput(server, orgId, dirId, dirName, users, groups))
    decreases |groups|
  {
    if groups != [] {
      var g := groups[|groups| - 1];
      GroupsValid(server, orgId, dirId, dirName, users, groups[..|groups| - 1]);
      if Truthy(GroupKey(g)) {
        PairsValid(GroupVisitOf(server, orgId, dirId, dirName, g), users);
      }
      ThenValid(GroupsOutput(server, orgId, dirId, dirName, users, groups[..|groups| - 1]),
                GroupOutput(server, orgId, dirId, dirName, users, g));
    }
  }

  lemma {:induction false} DirectoriesValid(server: Server, orgId: string, dirs: seq<Item>)
    ensures ValidOutput(DirectoriesOutput(server, orgId, dirs))
    decreases |dirs|
  {
    if dirs != [] {
      var d := dirs[|dirs| - 1];
      DirectoriesValid(server, orgId, dirs[..|dirs| - 1]);
      var dirId := ExtractGuid(d.Get("directoryId"));
      if Truthy(dirId) {
        GroupsValid(server, orgId, dirId.value, d.GetOr("name", UNKNOWN_DIRECTORY),
                    Read(server, UsersUrl(orgId, dirId.value)), Read(server, GroupsUrl(orgId, dirId.value)));
      }
      ThenValid(DirectoriesOutput(server, orgId, dirs[..|dirs| - 1]), DirectoryOutput(server, orgId, d));
    }
  }

  /** Every record and row of an earlier-revision crawl is well formed. */
  lemma CrawlRecordsValid(server: Server, orgId: string)
    ensures ValidOutput(CrawlOutput(server, orgId))
  {
    DirectoriesValid(server, orgId, Read(server, DirectoriesUrl(orgId)));
  }
}
