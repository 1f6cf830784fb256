/** The paginated crawl of `hierarchy_sankey.py`: directories, then per
    directory its groups and its users, then per group its role
    assignments and its members. Every member with a usable id adds one
    hierarchy record (after which the snapshot is rewritten with the whole
    list) and its role-mapping rows. Each endpoint is read with `paginate`,
    bounded by the same `fuel`. */
module Crawler {
  import opened Strings
  import opened Api
  import opened Records
  import opened Pagination

  // ----- the user lookup of one directory -----

  /** `{extract_guid(u.get("accountId")): u for u in users}` */
  function UserMap(users: seq<Item>): map<Option<string>, Item>
    decreases |users|
  {
    if users == [] then map[]
    else UserMap(users[..|users| - 1])[AccountKey(users[|users| - 1]) := users[|users| - 1]]
  }

  /** The lookup has a key exactly for the normalised account ids present. */
  lemma {:induction false} UserMapKeys(users: seq<Item>, key: Option<string>)
    ensures key in UserMap(users) <==> exists i :: 0 <= i < |users| && AccountKey(users[i]) == key
    decreases |users|
  {
    if users != [] {
      var n := |users|;
      var prefix := users[..n - 1];
      UserMapKeys(prefix, key);
      if AccountKey(users[n - 1]) != key && key in UserMap(users) {
        var i :| 0 <= i < n - 1 && AccountKey(prefix[i]) == key;
        assert AccountKey(users[i]) == key;
      }
      if AccountKey(users[n - 1]) != key && exists i :: 0 <= i < n && AccountKey(users[i]) == key {
        var i :| 0 <= i < n && AccountKey(users[i]) == key;
        assert AccountKey(prefix[i]) == key;
      }
    }
  }

  /** The later of two users with the same normalised account id wins:
      a key maps to the LAST user carrying it. */
  lemma {:induction false} UserMapLastWins(users: seq<Item>, i: nat)
    requires i < |users|
    requires forall j :: i < j < |users| ==> AccountKey(users[j]) != AccountKey(users[i])
    ensures AccountKey(users[i]) in UserMap(users)
    ensures UserMap(users)[AccountKey(users[i])] == users[i]
    decreases |users|
  {
    var n := |users|;
    if i < n - 1 {
      var prefix := users[..n - 1];
      assert prefix[i] == users[i];
      forall j | i < j < |prefix| ensures AccountKey(prefix[j]) != AccountKey(prefix[i]) {
        assert prefix[j] == users[j];
      }
      UserMapLastWins(prefix, i);
    }
  }

  /** `user_map.get(user_id, u)` */
  function Resolve(userMap: map<Option<string>, Item>, userId: string, stub: Item): Item
  {
    if Some(userId) in userMap then userMap[Some(userId)] else stub
  }

  /** A group member resolves to the last directory user with its
      normalised id when there is one, and to its own stub otherwise. */
  lemma MemberResolution(users: seq<Item>, userId: string, stub: Item)
    ensures (forall i :: 0 <= i < |users| ==> AccountKey(users[i]) != Some(userId)) ==>
      Resolve(UserMap(users), userId, stub) == stub
    ensures forall i ::
      (0 <= i < |users| && AccountKey(users[i]) == Some(userId)
       && (forall j :: i < j < |users| ==> AccountKey(users[j]) != Some(userId)))
      ==> Resolve(UserMap(users), userId, stub) == users[i]
  {
    UserMapKeys(users, Some(userId));
    forall i | 0 <= i < |users| && AccountKey(users[i]) == Some(userId)
        && (forall j :: i < j < |users| ==> AccountKey(users[j]) != Some(userId))
      ensures Resolve(UserMap(users), userId, stub) == users[i]
    {
      UserMapLastWins(users, i);
    }
  }

  // ----- what the crawl appends, level by level -----

  /** The members loop of one group. */
  function MembersOutput(v: GroupVisit, userMap: map<Option<string>, Item>, members: seq<Item>): Output
    decreases |members|
  {
    if members == [] then NO_OUTPUT
    else
      var prev := MembersOutput(v, userMap, members[..|members| - 1]);
      var u := members[|members| - 1];
      var userId := AccountKey(u);
      if !Truthy(userId) then prev
      else prev.Then(Emit(v, userId.value, Resolve(userMap, userId.value, u)))
  }

  /** One group: skipped without a usable id, else its role assignments
      and its members are fetched and the members visited. */
  function GroupOutput(server: Server, orgId: string, fuel: nat, dirId: string, dirName: string,
                       userMap: map<Option<string>, Item>, g: Item): Output
  {
    var grpId := ExtractGuid(g.Get("id"));
    if !Truthy(grpId) then NO_OUTPUT
    else
      var roles := Collect(server, Some(RoleAssignmentsUrl(orgId, dirId, grpId.value)), fuel);
      var members := Collect(server, Some(GroupUsersUrl(orgId, dirId, grpId.value)), fuel);
      var v := GroupVisit(dirId, dirName, grpId.value, g.GetOr("name", UNKNOWN_GROUP), RoleNames(roles));
      MembersOutput(v, userMap, members)
  }

  function GroupsOutput(server: Server, orgId: string, fuel: nat, dirId: string, dirName: string,
                        userMap: map<Option<string>, Item>, groups: seq<Item>): Output
    decreases |groups|
  {
    if groups == [] then NO_OUTPUT
    else
      GroupsOutput(server, orgId, fuel, dirId, dirName, userMap, groups[..|groups| - 1])
        .Then(GroupOutput(server, orgId, fuel, dirId, dirName, userMap, groups[|groups| - 1]))
  }

  /** One directory: skipped without a usable id, else its groups and its
      users are fetched and the groups visited against the user lookup. */
  function DirectoryOutput(server: Server, orgId: string, fuel: nat, d: Item): Output
  {
    var dirId := ExtractGuid(d.Get("directoryId"));
    if !Truthy(dirId) then NO_OUTPUT
    else
      var groups := Collect(server, Some(GroupsUrl(orgId, dirId.value)), fuel);
      var users := Collect(server, Some(UsersUrl(orgId, dirId.value)), fuel);
      GroupsOutput(server, orgId, fuel, dirId.value, d.GetOr("name", UNKNOWN_DIRECTORY), UserMap(users), groups)
  }

  function DirectoriesOutput(server: Server, orgId: string, fuel: nat, dirs: seq<Item>): Output
    decreases |dirs|
  {
    if dirs == [] then NO_OUTPUT
    else
      DirectoriesOutput(server, orgId, fuel, dirs[..|dirs| - 1])
        .Then(DirectoryOutput(server, orgId, fuel, dirs[|dirs| - 1]))
  }

  /** Everything one press of "Start Crawl" appends. */
  function CrawlOutput(server: Server, orgId: string, fuel: nat): Output
  {
    DirectoriesOutput(server, orgId, fuel, Collect(server, Some(DirectoriesUrl(orgId)), fuel))
  }

  // ----- the crawl as the source runs it -----

  method VisitGroup(server: Server, orgId: string, fuel: nat, dirId: string, dirName: string,
                    userMap: map<Option<string>, Item>, g: Item, p: Progress) returns (q: Progress)
    ensures q == p.After(GroupOutput(server, orgId, fuel, dirId, dirName, userMap, g))
  {
    var grpId := ExtractGuid(g.Get("id"));
    var grpName := g.GetOr("name", UNKNOWN_GROUP);
    if !Truthy(grpId) {
      AfterNothing(p);
      return p;
    }
    var roles := Paginate(server, RoleAssignmentsUrl(orgId, dirId, grpId.value), fuel);
    var roleNames := RoleNames(roles);
    var groupUsers := Paginate(server, GroupUsersUrl(orgId, dirId, grpId.value), fuel);
    var v := GroupVisit(dirId, dirName, grpId.value, grpName, roleNames);
    q := VisitMembers(v, userMap, groupUsers, p);
  }

  /** The members loop: each member with a usable id is looked up in the
      directory's users and visited; the others are skipped. */
  method VisitMembers(v: GroupVisit, userMap: map<Option<string>, Item>, members: seq<Item>, p: Progress)
    returns (q: Progress)
    ensures q == p.After(MembersOutput(v, userMap, members))
  {
    q := p;
    AfterNothing(p);
    for k := 0 to |members|
      invariant q == p.After(MembersOutput(v, userMap, members[..k]))
    {
      ghost var done := MembersOutput(v, userMap, members[..k]);
      assert members[..k + 1][..k] == members[..k];
      var userId := AccountKey(members[k]);
      if Truthy(userId) {
        var full := Resolve(userMap, userId.value, members[k]);
        assert MembersOutput(v, userMap, members[..k + 1]) == done.Then(Emit(v, userId.value, full));
        AfterThen(p, done, Emit(v, userId.value, full));
        q := EmitMember(v, userId.value, full, q);
      } else {
        assert MembersOutput(v, userMap, members[..k + 1]) == done;
      }
    }
    assert members[..|members|] == members;
  }

  method VisitDirectory(server: Server, orgId: string, fuel: nat, d: Item, p: Progress) returns (q: Progress)
    ensures q == p.After(DirectoryOutput(server, orgId, fuel, d))
  {
    var dirId := ExtractGuid(d.Get("directoryId"));
    var dirName := d.GetOr("name", UNKNOWN_DIRECTORY);
    if !Truthy(dirId) {
      AfterNothing(p);
      return p;
    }
    var groups := Paginate(server, GroupsUrl(orgId, dirId.value), fuel);
    var users := Paginate(server, UsersUrl(orgId, dirId.value), fuel);
    var userMap := UserMap(users);
    q := VisitGroups(server, orgId, fuel, dirId.value, dirName, userMap, groups, p);
  }

  /** The groups loop of one directory. */
  method VisitGroups(server: Server, orgId: string, fuel: nat, dirId: string, dirName: string,
                     userMap: map<Option<string>, Item>, groups: seq<Item>, p: Progress) returns (q: Progress)
    ensures q == p.After(GroupsOutput(server, orgId, fuel, dirId, dirName, userMap, groups))
  {
    q := p;
    AfterNothing(p);
    for j := 0 to |groups|
      invariant q == p.After(GroupsOutput(server, orgId, fuel, dirId, dirName, userMap, groups[..j]))
    {
      ghost var done := GroupsOutput(server, orgId, fuel, dirId, dirName, userMap, groups[..j]);
      ghost var step := GroupOutput(server, orgId, fuel, dirId, dirName, userMap, groups[j]);
      assert groups[..j + 1][..j] == groups[..j];
      assert GroupsOutput(server, orgId, fuel, dirId, dirName, userMap, groups[..j + 1]) == done.Then(step);
      AfterThen(p, done, step);
      q := VisitGroup(server, orgId, fuel, dirId, dirName, userMap, groups[j], q);
    }
    assert groups[..|groups|] == groups;
  }

  /** The "Start Crawl" handler: load the snapshot if the file exists, then
      walk every directory. Records loaded from the snapshot stay in front
      of the new ones, and the file is rewritten after every new record. */
  method Crawl(server: Server, orgId: string, snapshot: Option<seq<HierarchyRecord>>, fuel: nat)
    returns (p: Progress)
    ensures p == Start(snapshot).After(CrawlOutput(server, orgId, fuel))
  {
    p := Start(snapshot);
    var directories := Paginate(server, DirectoriesUrl(orgId), fuel);
    AfterNothing(p);
    if directories == [] {
      // nothing to crawl: the source only warns
      return;
    }
    var start := p;
    for i := 0 to |directories|
      invariant p == start.After(DirectoriesOutput(server, orgId, fuel, directories[..i]))
    {
      ghost var done := DirectoriesOutput(server, orgId, fuel, directories[..i]);
      ghost var step := DirectoryOutput(server, orgId, fuel, directories[i]);
      assert directories[..i + 1][..i] == directories[..i];
      assert DirectoriesOutput(server, orgId, fuel, directories[..i + 1]) == done.Then(step);
      AfterThen(start, done, step);
      p := VisitDirectory(server, orgId, fuel, directories[i], p);
    }
    assert directories[..|directories|] == directories;
  }

  // ----- properties of the crawl -----

  /** One record per member with a usable id, in member order, each
      carrying the group and the member's resolved details. */
  lemma {:induction false} MembersRecords(v: GroupVisit, userMap: map<Option<string>, Item>, members: seq<Item>)
    ensures var o := MembersOutput(v, userMap, members);
      var valid := ValidMembers(members);
      && |o.records| == |valid|
      && forall k :: 0 <= k < |valid| ==>
           var userId := AccountKey(valid[k]).value;
           o.records[k] == Entry(v, userId, Resolve(userMap, userId, valid[k]))
    decreases |members|
  {
    if members != [] {
      var prefix := members[..|members| - 1];
      MembersRecords(v, userMap, prefix);
    }
  }

  /** Role rows of one group: every member with a usable id gets one row
      per group role name and one per platform role of its resolved
      record, so a group with r roles and m such members has m * r group
      rows besides the platform-role rows. */
  lemma MembersRowCount(v: GroupVisit, userMap: map<Option<string>, Item>, members: seq<Item>)
    ensures |MembersOutput(v, userMap, members).rows|
      == |ValidMembers(members)| * |v.roleNames| + PlatformRoleCount(userMap, ValidMembers(members))
  {
    MembersRowTotal(v, userMap, members);
    TimesIsProduct(|ValidMembers(members)|, |v.roleNames|);
  }

  lemma {:induction false} MembersRowTotal(v: GroupVisit, userMap: map<Option<string>, Item>, members: seq<Item>)
    ensures |MembersOutput(v, userMap, members).rows|
      == Times(|ValidMembers(members)|, |v.roleNames|) + PlatformRoleCount(userMap, ValidMembers(members))
    decreases |members|
  {
    if members != [] {
      var prefix := members[..|members| - 1];
      var u := members[|members| - 1];
      MembersRowTotal(v, userMap, prefix);
      var valid := ValidMembers(prefix);
      var before := MembersOutput(v, userMap, prefix);
      if Truthy(AccountKey(u)) {
        var userId := AccountKey(u).value;
        var full := Resolve(userMap, userId, u);
        var step := Emit(v, userId, full);
        assert MembersOutput(v, userMap, members) == before.Then(step);
        MemberRowsLength(v, userId, full);
        assert |step.rows| == |v.roleNames| + |full.PlatformRoles()|;
        assert ValidMembers(members) == valid + [u];
        assert (valid + [u])[..|valid|] == valid;
        assert PlatformRoleCount(userMap, valid + [u]) == PlatformRoleCount(userMap, valid) + |full.PlatformRoles()|;
        assert Times(|valid| + 1, |v.roleNames|) == Times(|valid|, |v.roleNames|) + |v.roleNames|;
      } else {
        assert MembersOutput(v, userMap, members) == before;
        assert ValidMembers(members) == valid;
      }
    }
  }

  /** How many platform roles the resolved records of these members hold. */
  function PlatformRoleCount(userMap: map<Option<string>, Item>, members: seq<Item>): nat
    requires forall k :: 0 <= k < |members| ==> AccountKey(members[k]).Some?
    decreases |members|
  {
    if members == [] then 0
    else
      var u := members[|members| - 1];
      var userId := AccountKey(u).value;
      PlatformRoleCount(userMap, members[..|members| - 1]) + |Resolve(userMap, userId, u).PlatformRoles()|
  }

  lemma {:induction false} MembersValid(v: GroupVisit, userMap: map<Option<string>, Item>, members: seq<Item>)
    requires ValidVisit(v)
    ensures ValidOutput(MembersOutput(v, userMap, members))
    decreases |members|
  {
    if members != [] {
      var u := members[|members| - 1];
      MembersValid(v, userMap, members[..|members| - 1]);
      var userId := AccountKey(u);
      if Truthy(userId) {
        EmitValid(v, userId.value, Resolve(userMap, userId.value, u));
        ThenValid(MembersOutput(v, userMap, members[..|members| - 1]), Emit(v, userId.value, Resolve(userMap, userId.value, u)));
      }
    }
  }

  lemma {:induction false} GroupsValid(server: Server, orgId: string, fuel: nat, dirId: string, dirName: string,
                                       userMap: map<Option<string>, Item>, groups: seq<Item>)
    requires ValidId(dirId)
    ensures ValidOutput(GroupsOutput(server, orgId, fuel, dirId, dirName, userMap, groups))
    decreases |groups|
  {
    if groups != [] {
      var g := groups[|groups| - 1];
      GroupsValid(server, orgId, fuel, dirId, dirName, userMap, groups[..|groups| - 1]);
      var grpId := ExtractGuid(g.Get("id"));
      if Truthy(grpId) {
        var roles := Collect(server, Some(RoleAssignmentsUrl(orgId, dirId, grpId.value)), fuel);
        var members := Collect(server, Some(GroupUsersUrl(orgId, dirId, grpId.value)), fuel);
        MembersValid(GroupVisit(dirId, dirName, grpId.value, g.GetOr("name", UNKNOWN_GROUP), RoleNames(roles)), userMap, members);
      }
      ThenValid(GroupsOutput(server, orgId, fuel, dirId, dirName, userMap, groups[..|groups| - 1]),
                GroupOutput(server, orgId, fuel, dirId, dirName, userMap, g));
    }
  }

  lemma {:induction false} DirectoriesValid(server: Server, orgId: string, fuel: nat, dirs: seq<Item>)
    ensures ValidOutput(DirectoriesOutput(server, orgId, fuel, dirs))
    decreases |dirs|
  {
    if dirs != [] {
      var d := dirs[|dirs| - 1];
      DirectoriesValid(server, orgId, fuel, dirs[..|dirs| - 1]);
      var dirId := ExtractGuid(d.Get("directoryId"));
      if Truthy(dirId) {
        var groups := Collect(server, Some(GroupsUrl(orgId, dirId.value)), fuel);
        var users := Collect(server, Some(UsersUrl(orgId, dirId.value)), fuel);
        GroupsValid(server, orgId, fuel, dirId.value, d.GetOr("name", UNKNOWN_DIRECTORY), UserMap(users), groups);
      }
      ThenValid(DirectoriesOutput(server, orgId, fuel, dirs[..|dirs| - 1]), DirectoryOutput(server, orgId, fuel, d));
    }
  }

  /** Every record of a crawl has non-empty, colon-free directory, group
      and user ids and a user name equal to its non-empty email; every
      role row likewise. */
  lemma CrawlRecordsValid(server: Server, orgId: string, fuel: nat)
    ensures ValidOutput(CrawlOutput(server, orgId, fuel))
  {
    DirectoriesValid(server, orgId, fuel, Collect(server, Some(DirectoriesUrl(orgId)), fuel));
  }

  /** Resuming does not deduplicate: a second run against the same server,
      started from the snapshot the first one left, appends a whole new
      traversal after the records already there. */
  lemma ResumeRepeatsTraversal(server: Server, orgId: string, snapshot: Option<seq<HierarchyRecord>>, fuel: nat)
    ensures var o := CrawlOutput(server, orgId, fuel);
      var first := Start(snapshot).After(o);
      var second := Start(first.snapshot).After(o);
      o.records != [] ==> second.hierarchy == Start(snapshot).hierarchy + o.records + o.records
  {
  }
}
