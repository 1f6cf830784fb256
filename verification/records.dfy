/** What both crawler revisions share: identifier normalisation, the two
    record shapes, the projection of one (group, user) visit into one
    hierarchy record and its role-mapping rows, and the crawl's mutable
    state (the two in-memory lists and the snapshot file). */
module Records {
  import opened Strings
  import opened Api

  /** `extract_guid`: the text after the last colon of a URN-style id, the
      input unchanged when it has no colon, and `None` for an absent id.
      A normalised id never holds a colon. */
  function ExtractGuid(urn: Option<string>): (r: Option<string>)
    ensures r.Some? <==> urn.Some?
    ensures r.Some? ==> ':' !in r.value
  {
    match urn
    case None => None
    case Some(s) =>
      SplitLast(s, ':');
      if s != "" && ':' in s then Some(Last(Split(s, ':'))) else Some(s)
  }

  /** Without a colon the id is kept as it is; with one, the result is the
      suffix of the input that follows its last colon, so an id ending in
      a colon normalises to the empty string. */
  lemma ExtractGuidSuffix(s: string)
    ensures ':' !in s ==> ExtractGuid(Some(s)) == Some(s)
    ensures ':' in s ==>
      var r := ExtractGuid(Some(s)).value;
      |r| < |s| && s[|s| - |r|..] == r && s[|s| - |r| - 1] == ':'
    ensures |s| > 0 && s[|s| - 1] == ':' ==> ExtractGuid(Some(s)) == Some("")
  {
    SplitLast(s, ':');
  }

  /** The normalised `accountId` of a user record. */
  function AccountKey(u: Item): Option<string>
  {
    ExtractGuid(u.Get("accountId"))
  }

  /** The users of a listing whose normalised account id is usable, in
      order: the ones the crawl visits. */
  function ValidMembers(us: seq<Item>): (r: seq<Item>)
    ensures forall k :: 0 <= k < |r| ==> Truthy(AccountKey(r[k]))
    ensures |r| <= |us|
    decreases |us|
  {
    if us == [] then []
    else
      var n := |us| - 1;
      var prev := ValidMembers(us[..n]);
      if Truthy(AccountKey(us[n])) then prev + [us[n]] else prev
  }

  /** The filter works listing by listing: the usable users of `a + b` are
      those of `a`, then those of `b`. */
  lemma {:induction false} ValidMembersAppend(a: seq<Item>, b: seq<Item>)
    ensures ValidMembers(a + b) == ValidMembers(a) + ValidMembers(b)
    decreases |b|
  {
    if b == [] {
      assert a + b == a;
    } else {
      var n := |b| - 1;
      var init, x := b[..n], b[n];
      assert b == init + [x];
      assert a + b == (a + init) + [x];
      var last := if Truthy(AccountKey(x)) then [x] else [];
      calc {
        ValidMembers(a + b);
        ValidMembers((a + init) + [x]);
        { ValidMembersSnoc(a + init, x); }
        ValidMembers(a + init) + last;
        { ValidMembersAppend(a, init); }
        ValidMembers(a) + ValidMembers(init) + last;
        ValidMembers(a) + (ValidMembers(init) + last);
        { ValidMembersSnoc(init, x); }
        ValidMembers(a) + ValidMembers(init + [x]);
      }
    }
  }

  /** One more user is kept exactly when it has an id. */
  lemma ValidMembersSnoc(xs: seq<Item>, x: Item)
    ensures ValidMembers(xs + [x])
      == ValidMembers(xs) + (if Truthy(AccountKey(x)) then [x] else [])
  {
    var ys := xs + [x];
    assert ys[..|ys| - 1] == xs;
  }

  /** Exactly the entries with a usable id are kept: each kept entry comes
      from the input, and each input entry with an id is kept. */
  lemma {:induction false} ValidMembersMembers(xs: seq<Item>)
    ensures forall k :: 0 <= k < |ValidMembers(xs)| ==> ValidMembers(xs)[k] in xs
    ensures forall k :: 0 <= k < |xs| && Truthy(AccountKey(xs[k])) ==> xs[k] in ValidMembers(xs)
    decreases |xs|
  {
    if xs != [] {
      var n := |xs| - 1;
      ValidMembersMembers(xs[..n]);
      assert forall k :: 0 <= k < n ==> xs[k] == xs[..n][k];
    }
  }

  /** A normalised id the crawl can use: present, non-empty, colon-free. */
  predicate ValidId(id: string)
  {
    id != "" && ':' !in id
  }

  datatype HierarchyRecord = HierarchyRecord(
    directoryId: string, directoryName: string,
    groupId: string, groupName: string,
    userId: string, userName: string, userEmail: string,
    notes: string, platformRoles: string)

  datatype RoleRow = RoleRow(
    userId: string, userName: string, userEmail: string,
    groupId: string, groupName: string, roleKey: string)

  const ORG_LEVEL_ID := "ORG-LEVEL"
  const ORG_LEVEL_NAME := "Organization-wide"
  const UNKNOWN_ROLE := "unknown-role"
  const UNKNOWN_DIRECTORY := "Unknown Directory"
  const UNKNOWN_GROUP := "Unknown Group"

  /** The group being walked: its directory, itself and its role names. */
  datatype GroupVisit = GroupVisit(
    dirId: string, dirName: string,
    grpId: string, grpName: string,
    roleNames: seq<string>)

  predicate ValidVisit(v: GroupVisit)
  {
    ValidId(v.dirId) && ValidId(v.grpId)
  }

  /** `[r.get("roleKey", "unknown-role") for r in roles if r]` */
  function RoleNames(roles: seq<Item>): seq<string>
    decreases |roles|
  {
    if roles == [] then []
    else if roles[0].IsEmpty() then RoleNames(roles[1..])
    else [roles[0].GetOr("roleKey", UNKNOWN_ROLE)] + RoleNames(roles[1..])
  }

  /** Role names keep the non-empty assignments in order, one name each:
      their `roleKey`, or `unknown-role` when it is missing. */
  lemma {:induction false} RoleNamesOfNonEmpty(roles: seq<Item>)
    requires forall i :: 0 <= i < |roles| ==> !roles[i].IsEmpty()
    ensures |RoleNames(roles)| == |roles|
    ensures forall i :: 0 <= i < |roles| ==>
      RoleNames(roles)[i] == (if "roleKey" in roles[i].text then roles[i].text["roleKey"] else UNKNOWN_ROLE)
    decreases |roles|
  {
    if roles != [] {
      RoleNamesOfNonEmpty(roles[1..]);
    }
  }

  /** Role names work record by record: the names of `a + b` are those of
      `a`, then those of `b`. */
  lemma {:induction false} RoleNamesAppend(a: seq<Item>, b: seq<Item>)
    ensures RoleNames(a + b) == RoleNames(a) + RoleNames(b)
    decreases |a|
  {
    if a == [] {
      assert a + b == b;
    } else {
      assert (a + b)[1..] == a[1..] + b;
      RoleNamesAppend(a[1..], b);
    }
  }

  /** One record gives no name when it is empty, and otherwise its
      `roleKey`, or `unknown-role` when that is missing. */
  lemma RoleNamesOne(r: Item)
    ensures r.IsEmpty() ==> RoleNames([r]) == []
    ensures !r.IsEmpty() ==> RoleNames([r]) == [r.GetOr("roleKey", UNKNOWN_ROLE)]
  {
    assert [r][1..] == [];
  }

  /** Empty role-assignment records add no role name. */
  lemma {:induction false} RoleNamesSkipsEmpty(roles: seq<Item>, more: seq<Item>)
    requires forall i :: 0 <= i < |more| ==> more[i].IsEmpty()
    ensures RoleNames(roles + more) == RoleNames(roles)
    decreases |roles|
  {
    if roles == [] {
      EmptyRolesHaveNoNames(more);
      assert roles + more == more;
    } else {
      assert (roles + more)[1..] == roles[1..] + more;
      RoleNamesSkipsEmpty(roles[1..], more);
    }
  }

  lemma {:induction false} EmptyRolesHaveNoNames(more: seq<Item>)
    requires forall i :: 0 <= i < |more| ==> more[i].IsEmpty()
    ensures RoleNames(more) == []
    decreases |more|
  {
    if more != [] {
      EmptyRolesHaveNoNames(more[1..]);
    }
  }

  /** `u_full.get("email") or user_id` */
  function UserEmail(userId: string, u: Item): (r: string)
    ensures userId != "" ==> r != ""
    ensures Truthy(u.Get("email")) ==> r == u.text["email"]
    ensures !Truthy(u.Get("email")) ==> r == userId
  {
    Or(u.Get("email"), userId)
  }

  /** `user_email or u_full.get("name") or u_full.get("nickname") or user_id`:
      since the email falls back to the (non-empty) user id, the chain
      never gets past the email. */
  function UserName(userId: string, u: Item): (r: string)
    ensures userId != "" ==> r == UserEmail(userId, u)
  {
    var email := UserEmail(userId, u);
    if email != "" then email
    else Or(u.Get("name"), Or(u.Get("nickname"), userId))
  }

  /** The hierarchy record for one visited (group, user) pair. */
  function Entry(v: GroupVisit, userId: string, u: Item): (r: HierarchyRecord)
    ensures r.directoryId == v.dirId && r.groupId == v.grpId && r.userId == userId
    ensures r.directoryName == v.dirName && r.groupName == v.grpName
    ensures r.userEmail == UserEmail(userId, u)
    ensures userId != "" ==> r.userName == r.userEmail != ""
    ensures r.notes == Join(v.roleNames, ", ")
    ensures r.platformRoles == Join(u.PlatformRoles(), ", ")
  {
    HierarchyRecord(
      v.dirId, v.dirName, v.grpId, v.grpName,
      userId, UserName(userId, u), UserEmail(userId, u),
      Join(v.roleNames, ", "), Join(u.PlatformRoles(), ", "))
  }

  /** The rows of the "Group roles" loop: one per role name, in order. */
  function GroupRoleRows(v: GroupVisit, userId: string, u: Item, names: seq<string>): seq<RoleRow>
    decreases |names|
  {
    if names == [] then []
    else
      GroupRoleRows(v, userId, u, names[..|names| - 1])
        + [RoleRow(userId, UserName(userId, u), UserEmail(userId, u), v.grpId, v.grpName, names[|names| - 1])]
  }

  /** The rows of the "Platform (org-level) roles" loop: one per role. */
  function OrgRoleRows(userId: string, u: Item, roles: seq<string>): seq<RoleRow>
    decreases |roles|
  {
    if roles == [] then []
    else
      OrgRoleRows(userId, u, roles[..|roles| - 1])
        + [RoleRow(userId, UserName(userId, u), UserEmail(userId, u), ORG_LEVEL_ID, ORG_LEVEL_NAME, roles[|roles| - 1])]
  }

  /** All role-mapping rows appended for one visited (group, user) pair. */
  function MemberRows(v: GroupVisit, userId: string, u: Item): seq<RoleRow>
  {
    GroupRoleRows(v, userId, u, v.roleNames) + OrgRoleRows(userId, u, u.PlatformRoles())
  }

  lemma {:induction false} GroupRoleRowsAt(v: GroupVisit, userId: string, u: Item, names: seq<string>)
    ensures |GroupRoleRows(v, userId, u, names)| == |names|
    ensures forall i :: 0 <= i < |names| ==>
      GroupRoleRows(v, userId, u, names)[i]
        == RoleRow(userId, UserName(userId, u), UserEmail(userId, u), v.grpId, v.grpName, names[i])
    decreases |names|
  {
    if names != [] {
      GroupRoleRowsAt(v, userId, u, names[..|names| - 1]);
    }
  }

  lemma {:induction false} OrgRoleRowsAt(userId: string, u: Item, roles: seq<string>)
    ensures |OrgRoleRows(userId, u, roles)| == |roles|
    ensures forall i :: 0 <= i < |roles| ==>
      OrgRoleRows(userId, u, roles)[i]
        == RoleRow(userId, UserName(userId, u), UserEmail(userId, u), ORG_LEVEL_ID, ORG_LEVEL_NAME, roles[i])
    decreases |roles|
  {
    if roles != [] {
      OrgRoleRowsAt(userId, u, roles[..|roles| - 1]);
    }
  }

  /** For one visited member: first one row per group role name, in order,
      carrying the group; then one `ORG-LEVEL` / `Organization-wide` row per
      platform role of the user, in order. */
  lemma MemberRowsShape(v: GroupVisit, userId: string, u: Item)
    ensures var rows := MemberRows(v, userId, u);
      var n := |v.roleNames|;
      && |rows| == n + |u.PlatformRoles()|
      && (forall i :: 0 <= i < n ==>
            rows[i].groupId == v.grpId && rows[i].groupName == v.grpName && rows[i].roleKey == v.roleNames[i])
      && (forall i :: n <= i < |rows| ==>
            rows[i].groupId == ORG_LEVEL_ID && rows[i].groupName == ORG_LEVEL_NAME
            && rows[i].roleKey == u.PlatformRoles()[i - n])
      && (forall i :: 0 <= i < |rows| ==>
            rows[i].userId == userId && rows[i].userName == UserName(userId, u)
            && rows[i].userEmail == UserEmail(userId, u))
  {
    GroupRoleRowsAt(v, userId, u, v.roleNames);
    OrgRoleRowsAt(userId, u, u.PlatformRoles());
  }

  lemma MemberRowsLength(v: GroupVisit, userId: string, u: Item)
    ensures |MemberRows(v, userId, u)| == |v.roleNames| + |u.PlatformRoles()|
  {
    GroupRoleRowsAt(v, userId, u, v.roleNames);
    OrgRoleRowsAt(userId, u, u.PlatformRoles());
  }

  /** What a stretch of the crawl adds: hierarchy records and role rows. */
  datatype Output = Output(records: seq<HierarchyRecord>, rows: seq<RoleRow>)
  {
    function Then(next: Output): Output
    {
      Output(records + next.records, rows + next.rows)
    }
  }

  const NO_OUTPUT := Output([], [])

  /** What visiting one member adds. */
  function Emit(v: GroupVisit, userId: string, u: Item): Output
  {
    Output([Entry(v, userId, u)], MemberRows(v, userId, u))
  }

  /** The crawl's mutable state: `hierarchy_data`, `roles_mapping` and the
      content of the snapshot file (`None` while there is no file). */
  datatype Progress = Progress(
    hierarchy: seq<HierarchyRecord>,
    roles: seq<RoleRow>,
    snapshot: Option<seq<HierarchyRecord>>)
  {
    /** The state after the records and rows of `o` are appended one by one,
        the snapshot being overwritten with the whole list after each
        record; with no record the file is left as it was. */
    function After(o: Output): (p: Progress)
      ensures |p.hierarchy| == |hierarchy| + |o.records| && p.hierarchy[..|hierarchy|] == hierarchy
      ensures |p.roles| == |roles| + |o.rows| && p.roles[..|roles|] == roles
      ensures o.records != [] ==> p.snapshot == Some(p.hierarchy)
      ensures o.records == [] ==> p.snapshot == snapshot
    {
      var h := hierarchy + o.records;
      Progress(h, roles + o.rows, if o.records == [] then snapshot else Some(h))
    }

    /** The snapshot file holds exactly the in-memory list. */
    predicate InSync()
    {
      snapshot == Some(hierarchy)
    }
  }

  /** `hierarchy_data = []`, replaced by the snapshot's records when the
      file exists; `roles_mapping = []`. */
  function Start(snapshot: Option<seq<HierarchyRecord>>): (p: Progress)
    ensures snapshot.Some? ==> p.InSync()
    ensures snapshot.None? ==> p.hierarchy == [] && p.snapshot.None?
    ensures p.roles == []
  {
    Progress(if snapshot.Some? then snapshot.value else [], [], snapshot)
  }

  /** Appending two stretches one after the other is appending both. */
  lemma AfterThen(p: Progress, a: Output, b: Output)
    ensures p.After(a).After(b) == p.After(a.Then(b))
  {
    assert p.hierarchy + a.records + b.records == p.hierarchy + (a.records + b.records);
    assert p.roles + a.rows + b.rows == p.roles + (a.rows + b.rows);
    if b.records == [] {
      assert a.records + b.records == a.records;
      assert p.hierarchy + a.records + b.records == p.hierarchy + a.records;
    }
  }

  /** Once in sync, the snapshot stays in sync whatever is appended. */
  lemma AfterKeepsInSync(p: Progress, o: Output)
    requires p.InSync()
    ensures p.After(o).InSync()
  {
    if o.records == [] {
      assert p.hierarchy + o.records == p.hierarchy;
    }
  }

  /** A record is well formed when its three ids are usable normalised ids
      and its user name equals its (non-empty) email. */
  predicate ValidRecord(r: HierarchyRecord)
  {
    ValidId(r.directoryId) && ValidId(r.groupId) && ValidId(r.userId)
    && r.userName == r.userEmail && r.userEmail != ""
  }

  predicate ValidRow(r: RoleRow)
  {
    ValidId(r.userId) && ValidId(r.groupId) && r.userName == r.userEmail && r.userEmail != ""
  }

  predicate ValidOutput(o: Output)
  {
    (forall i :: 0 <= i < |o.records| ==> ValidRecord(o.records[i]))
    && (forall i :: 0 <= i < |o.rows| ==> ValidRow(o.rows[i]))
  }

  lemma ThenValid(a: Output, b: Output)
    requires ValidOutput(a) && ValidOutput(b)
    ensures ValidOutput(a.Then(b))
  {
    var c := a.Then(b);
    forall i | 0 <= i < |c.records| ensures ValidRecord(c.records[i]) {
      if i >= |a.records| { assert c.records[i] == b.records[i - |a.records|]; }
    }
    forall i | 0 <= i < |c.rows| ensures ValidRow(c.rows[i]) {
      if i >= |a.rows| { assert c.rows[i] == b.rows[i - |a.rows|]; }
    }
  }

  /** Visiting a member with a usable id inside a group with usable ids
      yields only well-formed records and rows. */
  lemma EmitValid(v: GroupVisit, userId: string, u: Item)
    requires ValidVisit(v) && ValidId(userId)
    ensures ValidOutput(Emit(v, userId, u))
  {
    MemberRowsShape(v, userId, u);
  }

  // ----- appending one visited member, as both crawlers do -----

  lemma AfterNothing(p: Progress)
    ensures p.After(NO_OUTPUT) == p
  {
    assert p.hierarchy + [] == p.hierarchy;
    assert p.roles + [] == p.roles;
  }

  /** The "Group roles" loop: one row per role name of the group. */
  method AppendGroupRoleRows(v: GroupVisit, userId: string, u: Item, rows: seq<RoleRow>) returns (rows': seq<RoleRow>)
    ensures rows' == rows + GroupRoleRows(v, userId, u, v.roleNames)
  {
    var userEmail := UserEmail(userId, u);
    var userName := UserName(userId, u);
    rows' := rows;
    for i := 0 to |v.roleNames|
      invariant rows' == rows + GroupRoleRows(v, userId, u, v.roleNames[..i])
    {
      assert v.roleNames[..i + 1][..i] == v.roleNames[..i];
      rows' := rows' + [RoleRow(userId, userName, userEmail, v.grpId, v.grpName, v.roleNames[i])];
    }
    assert v.roleNames[..|v.roleNames|] == v.roleNames;
  }

  /** The "Platform (org-level) roles" loop: one `ORG-LEVEL` row per
      platform role of the user. */
  method AppendOrgRoleRows(userId: string, u: Item, rows: seq<RoleRow>) returns (rows': seq<RoleRow>)
    ensures rows' == rows + OrgRoleRows(userId, u, u.PlatformRoles())
  {
    var userEmail := UserEmail(userId, u);
    var userName := UserName(userId, u);
    var platformRoles := u.PlatformRoles();
    rows' := rows;
    for i := 0 to |platformRoles|
      invariant rows' == rows + OrgRoleRows(userId, u, platformRoles[..i])
    {
      assert platformRoles[..i + 1][..i] == platformRoles[..i];
      rows' := rows' + [RoleRow(userId, userName, userEmail, ORG_LEVEL_ID, ORG_LEVEL_NAME, platformRoles[i])];
    }
    assert platformRoles[..|platformRoles|] == platformRoles;
  }

  /** Visiting one member: append its record, rewrite the snapshot with the
      whole list, then append its group-role and platform-role rows. */
  method EmitMember(v: GroupVisit, userId: string, u: Item, p: Progress) returns (q: Progress)
    ensures q == p.After(Emit(v, userId, u))
  {
    var hierarchy := p.hierarchy + [Entry(v, userId, u)];
    var snapshot := Some(hierarchy);
    var roles := AppendGroupRoleRows(v, userId, u, p.roles);
    roles := AppendOrgRoleRows(userId, u, roles);
    q := Progress(hierarchy, roles, snapshot);
    assert roles == p.roles + MemberRows(v, userId, u);
  }

  // ----- counting -----

  /** `a * b` by repeated addition. The row-count proofs go by induction
      over long unfoldings of the crawl; stated with `Times`, their steps
      are linear, and `TimesIsProduct` turns the result into a product. */
  function Times(a: nat, b: nat): nat
    decreases a
  {
    if a == 0 then 0 else Times(a - 1, b) + b
  }

  lemma {:induction false} TimesIsProduct(a: nat, b: nat)
    ensures Times(a, b) == a * b
    decreases a
  {
    if a > 0 {
      TimesIsProduct(a - 1, b);
      MulSucc(a - 1, b);
    }
  }

  lemma MulSucc(a: nat, b: nat)
    ensures (a + 1) * b == a * b + b
  {
  }

  lemma MulAdd(a: nat, b: nat, c: nat)
    ensures a * b + a * c == a * (b + c)
  {
  }
}
