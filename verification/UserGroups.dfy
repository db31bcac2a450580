/**
 User groups and memberships: what a session may grant, and the four actions that change the
 store. The group store is a list, the user store a map; an action is one atomic step.
 */
module UserGroups {
  import opened Text

  const GLOBAL_PERMISSIONS: seq<string> := ["manage-users", "manage-sites", "manage-groups"]
  const SITE_PERMISSIONS: seq<string> := [
    "view-all-deployments", "create-deployments", "delete-deployments", "manage-deployments", "manage-templates",
    "manage-backups", "manage-snapshots", "manage-alerts", "manage-security", "manage-settings"]

  datatype SiteAccess = SiteAccess(siteId: string, permissions: seq<string>)

  datatype Group = Group(id: string, name: string, isAdmin: bool, globalPermissions: seq<string>, siteAccess: seq<SiteAccess>)

  datatype User = User(storedAdmin: bool, groupIds: seq<string>)

  datatype Store = Store(groups: seq<Group>, users: map<string, User>)

  /** One thing a user may be allowed: a permission everywhere, or on one site. */
  datatype Grant = Everywhere(permission: string) | OnSite(siteId: string, permission: string)

  // ---- Effective permissions ----

  /** What a group gives its members, admin rights aside. */
  predicate Gives(g: Group, grant: Grant) {
    match grant
    case Everywhere(p) => p in g.globalPermissions && p in GLOBAL_PERMISSIONS
    case OnSite(s, p) => exists i :: 0 <= i < |g.siteAccess| && g.siteAccess[i].siteId == s && p in g.siteAccess[i].permissions
  }

  predicate InGroup(st: Store, user: string, i: int) {
    0 <= i < |st.groups| && user in st.users && st.groups[i].id in st.users[user].groupIds
  }

  predicate InAdminGroup(st: Store, user: string) {
    exists i :: 0 <= i < |st.groups| && InGroup(st, user, i) && st.groups[i].isAdmin
  }

  predicate IsAdmin(st: Store, user: string) {
    (user in st.users && st.users[user].storedAdmin) || InAdminGroup(st, user)
  }

  /** Whether one of the user's groups gives the grant. */
  predicate Has(st: Store, user: string, grant: Grant) {
    exists i :: 0 <= i < |st.groups| && InGroup(st, user, i) && Gives(st.groups[i], grant)
  }

  /** The session's view: an admin holds every permission. */
  predicate Holds(st: Store, user: string, grant: Grant) {
    IsAdmin(st, user) || Has(st, user, grant)
  }

  // ---- What a session may grant ----

  predicate CanGrant(st: Store, actor: string, g: Group) {
    || IsAdmin(st, actor)
    || (&& !g.isAdmin
        && (forall k :: 0 <= k < |g.globalPermissions| ==> Holds(st, actor, Everywhere(g.globalPermissions[k])))
        && (forall i, k :: 0 <= i < |g.siteAccess| && 0 <= k < |g.siteAccess[i].permissions| ==>
              Holds(st, actor, OnSite(g.siteAccess[i].siteId, g.siteAccess[i].permissions[k]))))
  }

  predicate MayManageGroups(st: Store, actor: string) {
    actor in st.users && Holds(st, actor, Everywhere("manage-groups"))
  }

  // ---- Forms ----

  datatype Field = Field(key: string, value: string)

  /** FormData.get: the first value of a key, or "". */
  function GetField(form: seq<Field>, key: string): string {
    if form == [] then "" else if form[0].key == key then form[0].value else GetField(form[1..], key)
  }

  /** A comma-separated list, trimmed, with unknown names dropped. */
  function Allowed(parts: seq<string>, known: seq<string>): (r: seq<string>)
    ensures forall i :: 0 <= i < |r| ==> r[i] in known
  {
    if parts == [] then []
    else if Trim(parts[0]) in known then [Trim(parts[0])] + Allowed(parts[1..], known)
    else Allowed(parts[1..], known)
  }

  function ParsePermissions(raw: string, known: seq<string>): (r: seq<string>)
    ensures forall i :: 0 <= i < |r| ==> r[i] in known
  {
    Allowed(Split(raw, ','), known)
  }

  const SITE := "site-"
  const ENABLED := "-enabled"

  function EnabledKey(siteId: string): string { SITE + siteId + ENABLED }
  function PermissionsKey(siteId: string): string { SITE + siteId + "-permissions" }

  predicate IsLineBreak(c: char) {
    c == '\n' || c == '\r' || c == '\U{2028}' || c == '\U{2029}'
  }

  /** site-<id>-enabled, where the id is not empty and holds no line break. */
  predicate IsEnabledKey(key: string) {
    && |key| > |SITE| + |ENABLED| && key[..|SITE|] == SITE && key[|key| - |ENABLED|..] == ENABLED
    && forall i :: |SITE| <= i < |key| - |ENABLED| ==> !IsLineBreak(key[i])
  }

  function SiteIdOf(key: string): string
    requires IsEnabledKey(key)
  {
    key[|SITE|..|key| - |ENABLED|]
  }

  /** Site ids named by the form, each once, in order of first appearance. */
  function SiteIds(form: seq<Field>): seq<string> {
    if form == [] then []
    else
      var ids, key := SiteIds(form[..|form| - 1]), form[|form| - 1].key;
      if IsEnabledKey(key) && SiteIdOf(key) !in ids then ids + [SiteIdOf(key)] else ids
  }

  function EntriesFor(form: seq<Field>, ids: seq<string>): seq<SiteAccess> {
    if ids == [] then []
    else
      var before, id := EntriesFor(form, ids[..|ids| - 1]), ids[|ids| - 1];
      var permissions := ParsePermissions(GetField(form, PermissionsKey(id)), SITE_PERMISSIONS);
      if GetField(form, EnabledKey(id)) == "true" && permissions != [] then before + [SiteAccess(id, permissions)] else before
  }

  function SiteAccessOf(form: seq<Field>): seq<SiteAccess> {
    EntriesFor(form, SiteIds(form))
  }

  method ParseSiteAccess(form: seq<Field>) returns (entries: seq<SiteAccess>)
    ensures entries == SiteAccessOf(form)
  {
    var ids: seq<string> := [];
    for n := 0 to |form|
      invariant ids == SiteIds(form[..n])
    {
      assert form[..n + 1][..n] == form[..n];
      var key := form[n].key;
      if IsEnabledKey(key) && SiteIdOf(key) !in ids {
        ids := ids + [SiteIdOf(key)];
      }
    }
    assert form[..|form|] == form;
    entries := [];
    for n := 0 to |ids|
      invariant entries == EntriesFor(form, ids[..n])
    {
      assert ids[..n + 1][..n] == ids[..n];
      if GetField(form, EnabledKey(ids[n])) != "true" {
        continue;
      }
      var permissions := ParsePermissions(GetField(form, PermissionsKey(ids[n])), SITE_PERMISSIONS);
      if |permissions| > 0 {
        entries := entries + [SiteAccess(ids[n], permissions)];
      }
    }
    assert ids[..|ids|] == ids;
  }

  // ---- What a form's site access says ----

  lemma {:induction false} AllowedExactly(parts: seq<string>, known: seq<string>, p: string)
    ensures p in Allowed(parts, known) <==> p in known && exists i :: 0 <= i < |parts| && Trim(parts[i]) == p
  {
    if parts != [] {
      var rest := parts[1..];
      AllowedExactly(rest, known, p);
      assert forall i :: 1 <= i < |parts| ==> parts[i] == rest[i - 1];
      if i :| 0 <= i < |parts| && Trim(parts[i]) == p { assert i > 0 ==> Trim(rest[i - 1]) == p; }
    }
  }

  /** An id the enabled-field pattern can capture. */
  predicate Capturable(siteId: string) {
    siteId != "" && forall i :: 0 <= i < |siteId| ==> !IsLineBreak(siteId[i])
  }

  lemma KeysMatchIds(key: string, siteId: string)
    ensures IsEnabledKey(key) && SiteIdOf(key) == siteId <==> Capturable(siteId) && key == EnabledKey(siteId)
  {
    if IsEnabledKey(key) && SiteIdOf(key) == siteId {
      assert key == SITE + siteId + ENABLED;
      assert forall i :: 0 <= i < |siteId| ==> siteId[i] == key[i + |SITE|];
    }
    if Capturable(siteId) && key == EnabledKey(siteId) {
      assert key[..|SITE|] == SITE && key[|key| - |ENABLED|..] == ENABLED && key[|SITE|..|key| - |ENABLED|] == siteId;
      assert forall i :: |SITE| <= i < |key| - |ENABLED| ==> key[i] == siteId[i - |SITE|];
    }
  }

  predicate HasKey(form: seq<Field>, key: string) {
    exists i :: 0 <= i < |form| && form[i].key == key
  }

  lemma {:induction false} SiteIdsExactly(form: seq<Field>, siteId: string)
    ensures siteId in SiteIds(form) <==> Capturable(siteId) && HasKey(form, EnabledKey(siteId))
  {
    if form != [] {
      var before, key := form[..|form| - 1], form[|form| - 1].key;
      SiteIdsExactly(before, siteId);
      KeysMatchIds(key, siteId);
      if HasKey(form, EnabledKey(siteId)) {
        var i :| 0 <= i < |form| && form[i].key == EnabledKey(siteId);
        assert i < |before| ==> before[i].key == EnabledKey(siteId);
      }
      if HasKey(before, EnabledKey(siteId)) {
        var i :| 0 <= i < |before| && before[i].key == EnabledKey(siteId);
        assert form[i].key == EnabledKey(siteId);
      }
    }
  }

  lemma {:induction false} ReadIsPresent(form: seq<Field>, key: string)
    requires GetField(form, key) != ""
    ensures HasKey(form, key)
  {
    if form[0].key == key {
    } else {
      ReadIsPresent(form[1..], key);
      var i :| 0 <= i < |form[1..]| && form[1..][i].key == key;
      assert form[i + 1].key == key;
    }
  }

  predicate Lists(entries: seq<SiteAccess>, siteId: string, p: string) {
    exists i :: 0 <= i < |entries| && entries[i].siteId == siteId && p in entries[i].permissions
  }

  predicate Enabled(form: seq<Field>, siteId: string, p: string) {
    && GetField(form, EnabledKey(siteId)) == "true"
    && p in ParsePermissions(GetField(form, PermissionsKey(siteId)), SITE_PERMISSIONS)
  }

  lemma ListsSnoc(entries: seq<SiteAccess>, e: SiteAccess, siteId: string, p: string)
    ensures Lists(entries + [e], siteId, p)
            <==> Lists(entries, siteId, p) || (e.siteId == siteId && p in e.permissions)
  {
    var all := entries + [e];
    assert forall i :: 0 <= i < |entries| ==> all[i] == entries[i];
    assert all[|entries|] == e;
  }

  lemma {:induction false} EntriesExactly(form: seq<Field>, ids: seq<string>, siteId: string, p: string)
    ensures Lists(EntriesFor(form, ids), siteId, p) <==> siteId in ids && Enabled(form, siteId, p)
  {
    if ids != [] {
      var init, id := ids[..|ids| - 1], ids[|ids| - 1];
      EntriesExactly(form, init, siteId, p);
      assert siteId in ids <==> siteId in init || siteId == id;
      ListsSnoc(EntriesFor(form, init),
                SiteAccess(id, ParsePermissions(GetField(form, PermissionsKey(id)), SITE_PERMISSIONS)), siteId, p);
    }
  }

  /** Some piece of a comma-separated list trims to p. */
  predicate HasPiece(raw: string, p: string) {
    var pieces := Split(raw, ',');
    exists i :: 0 <= i < |pieces| && Trim(pieces[i]) == p
  }

  /**
   The parsed site access lists a permission on a site exactly when the site's switch reads "true",
   its id can be captured, and some piece of its permission field trims to that site permission.
   */
  lemma {:induction false} SiteAccessExactly(form: seq<Field>, siteId: string, p: string)
    ensures Lists(SiteAccessOf(form), siteId, p) <==>
            && Capturable(siteId) && GetField(form, EnabledKey(siteId)) == "true"
            && p in SITE_PERMISSIONS && HasPiece(GetField(form, PermissionsKey(siteId)), p)
  {
    var on, raw := GetField(form, EnabledKey(siteId)), GetField(form, PermissionsKey(siteId));
    EntriesExactly(form, SiteIds(form), siteId, p);
    SiteIdsExactly(form, siteId);
    ParsedExactly(raw, SITE_PERMISSIONS, p);
    if on != "" { ReadIsPresent(form, EnabledKey(siteId)); }
  }

  lemma ParsedExactly(raw: string, known: seq<string>, p: string)
    ensures p in ParsePermissions(raw, known) <==> p in known && HasPiece(raw, p)
  {
    AllowedExactly(Split(raw, ','), known, p);
  }

  // ---- The actions on values ----

  datatype Action =
    | Create(form: seq<Field>, freshId: string)
    | Update(groupId: string, form: seq<Field>)
    | Delete(groupId: string)
    | SetMembership(userId: string, groupIds: seq<string>)

  /** The group a form describes: an admin group keeps no explicit permissions. */
  function Described(form: seq<Field>, id: string): Group {
    var isAdmin := GetField(form, "isAdmin") == "true";
    Group(id, Trim(GetField(form, "name")), isAdmin,
          if isAdmin then [] else ParsePermissions(GetField(form, "globalPermissions"), GLOBAL_PERMISSIONS),
          if isAdmin then [] else SiteAccessOf(form))
  }

  /** What the form asks for, before an admin group's permissions are dropped. */
  function Requested(form: seq<Field>): Group {
    Group("", "", GetField(form, "isAdmin") == "true",
          ParsePermissions(GetField(form, "globalPermissions"), GLOBAL_PERMISSIONS), SiteAccessOf(form))
  }

  function IndexOfId(groups: seq<Group>, id: string): (r: int)
    ensures -1 <= r < |groups|
    ensures r >= 0 ==> groups[r].id == id
    ensures r < 0 ==> forall i :: 0 <= i < |groups| ==> groups[i].id != id
  {
    if groups == [] then -1
    else if groups[0].id == id then 0
    else
      var rest := IndexOfId(groups[1..], id);
      if rest < 0 then
        assert forall i :: 1 <= i < |groups| ==> groups[i] == groups[1..][i - 1];
        -1
      else rest + 1
  }

  /** A group other than the one with id exceptId carries the name, ignoring case. */
  predicate NameTaken(groups: seq<Group>, name: string, exceptId: string, useExcept: bool) {
    exists i :: 0 <= i < |groups| && !(useExcept && groups[i].id == exceptId) && Lower(groups[i].name) == Lower(name)
  }

  /** Names of the groups that exist among ids, in store order. */
  function ValidIds(groups: seq<Group>, ids: seq<string>): (r: seq<string>)
    ensures forall id :: id in r ==> id in ids
    ensures forall i :: 0 <= i < |groups| && groups[i].id in ids ==> groups[i].id in r
  {
    if groups == [] then []
    else
      var rest := ValidIds(groups[1..], ids);
      assert forall i :: 1 <= i < |groups| ==> groups[i] == groups[1..][i - 1];
      if groups[0].id in ids then [groups[0].id] + rest else rest
  }

  predicate AnyAdmin(groups: seq<Group>, ids: seq<string>) {
    exists i :: 0 <= i < |groups| && groups[i].id in ids && groups[i].isAdmin
  }

  /** Every group whose membership the request would change can be granted by the actor. */
  predicate ChangesGrantable(st: Store, actor: string, before: seq<string>, after: seq<string>) {
    forall i :: 0 <= i < |st.groups| && (st.groups[i].id in after) != (st.groups[i].id in before) ==>
      CanGrant(st, actor, st.groups[i])
  }

  predicate CreateAllowed(st: Store, actor: string, form: seq<Field>) {
    && MayManageGroups(st, actor)
    && Trim(GetField(form, "name")) != ""
    && CanGrant(st, actor, Requested(form))
    && !NameTaken(st.groups, Trim(GetField(form, "name")), "", false)
  }

  predicate UpdateAllowed(st: Store, actor: string, groupId: string, form: seq<Field>) {
    var i := IndexOfId(st.groups, groupId);
    && MayManageGroups(st, actor) && groupId != "" && i >= 0
    && Trim(GetField(form, "name")) != ""
    && CanGrant(st, actor, st.groups[i]) && CanGrant(st, actor, Requested(form))
    && !NameTaken(st.groups, Trim(GetField(form, "name")), groupId, true)
  }

  predicate DeleteAllowed(st: Store, actor: string, groupId: string) {
    var i := IndexOfId(st.groups, groupId);
    MayManageGroups(st, actor) && groupId != "" && i >= 0 && CanGrant(st, actor, st.groups[i])
  }

  predicate MembershipAllowed(st: Store, actor: string, userId: string, groupIds: seq<string>) {
    && MayManageGroups(st, actor) && userId != "" && userId in st.users
    && (AnyAdmin(st.groups, groupIds) ==> IsAdmin(st, actor))
    && (userId == actor ==> IsAdmin(st, actor))
    && (IsAdmin(st, userId) ==> IsAdmin(st, actor))
    && ChangesGrantable(st, actor, st.users[userId].groupIds, groupIds)
  }

  /** The store after one action; a refused action changes nothing. */
  function Apply(st: Store, actor: string, a: Action): Store {
    match a
    case Create(form, freshId) =>
      if CreateAllowed(st, actor, form) then st.(groups := st.groups + [Described(form, freshId)]) else st
    case Update(groupId, form) =>
      if UpdateAllowed(st, actor, groupId, form) then
        st.(groups := st.groups[IndexOfId(st.groups, groupId) := Described(form, groupId)])
      else st
    case Delete(groupId) =>
      if DeleteAllowed(st, actor, groupId) then
        var i := IndexOfId(st.groups, groupId);
        st.(groups := st.groups[..i] + st.groups[i + 1..])
      else st
    case SetMembership(userId, groupIds) =>
      if MembershipAllowed(st, actor, userId, groupIds) then
        st.(users := st.users[userId := User(AnyAdmin(st.groups, groupIds), ValidIds(st.groups, groupIds))])
      else st
  }

  datatype Request = Request(actor: string, action: Action)

  function Run(st: Store, requests: seq<Request>): Store
    decreases |requests|
  {
    if requests == [] then st else Run(Apply(st, requests[0].actor, requests[0].action), requests[1..])
  }

  // ---- No action reaches beyond its actor ----

  /** The grant is out of the actor's reach, and so is admin. */
  ghost predicate Beyond(st: Store, actor: string, grant: Grant) {
    !IsAdmin(st, actor) && !Has(st, actor, grant)
  }

  lemma GrantableGivesWhatIsHeld(st: Store, actor: string, g: Group, grant: Grant)
    requires CanGrant(st, actor, g) && !IsAdmin(st, actor) && Gives(g, grant)
    ensures Has(st, actor, grant)
  {
    match grant {
      case Everywhere(p) =>
        var k :| 0 <= k < |g.globalPermissions| && g.globalPermissions[k] == p;
        assert Holds(st, actor, Everywhere(g.globalPermissions[k]));
      case OnSite(s, p) =>
        var i :| 0 <= i < |g.siteAccess| && g.siteAccess[i].siteId == s && p in g.siteAccess[i].permissions;
        var k :| 0 <= k < |g.siteAccess[i].permissions| && g.siteAccess[i].permissions[k] == p;
        assert Holds(st, actor, OnSite(g.siteAccess[i].siteId, g.siteAccess[i].permissions[k]));
    }
  }

  lemma GrantableGivesNothingBeyond(st: Store, actor: string, g: Group, grant: Grant)
    requires CanGrant(st, actor, g) && Beyond(st, actor, grant)
    ensures !g.isAdmin && !Gives(g, grant)
  {
    if Gives(g, grant) { GrantableGivesWhatIsHeld(st, actor, g, grant); }
  }

  /** A group that gives neither the grant nor admin. */
  ghost predicate Inert(g: Group, grant: Grant) {
    !g.isAdmin && !Gives(g, grant)
  }

  lemma DescribedIsRequested(st: Store, actor: string, form: seq<Field>, id: string, grant: Grant)
    requires CanGrant(st, actor, Requested(form)) && Beyond(st, actor, grant)
    ensures Inert(Described(form, id), grant)
  {
    GrantableGivesNothingBeyond(st, actor, Requested(form), grant);
  }

  /** What one user holds of a grant, of admin groups and of admin rights. */
  ghost predicate SameFor(st: Store, st': Store, user: string, grant: Grant) {
    && (Has(st, user, grant) <==> Has(st', user, grant))
    && (InAdminGroup(st, user) <==> InAdminGroup(st', user))
    && (IsAdmin(st, user) <==> IsAdmin(st', user))
  }

  lemma CreateIsInert(st: Store, g: Group, user: string, grant: Grant)
    requires Inert(g, grant)
    ensures SameFor(st, st.(groups := st.groups + [g]), user, grant)
  {
    var st' := st.(groups := st.groups + [g]);
    assert forall i :: 0 <= i < |st.groups| ==> st'.groups[i] == st.groups[i] && InGroup(st', user, i) == InGroup(st, user, i);
  }

  lemma UpdateIsInert(st: Store, k: nat, g: Group, user: string, grant: Grant)
    requires k < |st.groups| && Inert(st.groups[k], grant) && Inert(g, grant)
    ensures SameFor(st, st.(groups := st.groups[k := g]), user, grant)
  {
    var st' := st.(groups := st.groups[k := g]);
    assert forall i :: 0 <= i < |st.groups| && i != k ==>
        st'.groups[i] == st.groups[i] && InGroup(st', user, i) == InGroup(st, user, i);
  }

  lemma DeleteIsInert(st: Store, k: nat, user: string, grant: Grant)
    requires k < |st.groups| && Inert(st.groups[k], grant)
    ensures SameFor(st, st.(groups := st.groups[..k] + st.groups[k + 1..]), user, grant)
  {
    var st' := st.(groups := st.groups[..k] + st.groups[k + 1..]);
    forall i | 0 <= i < |st.groups| && i != k
      ensures var j := if i < k then i else i - 1;
              st'.groups[j] == st.groups[i] && InGroup(st', user, j) == InGroup(st, user, i)
    {
    }
    DeleteKeepsHas(st, st', k, user, grant);
    DeleteKeepsAdmin(st, st', k, user);
  }

  /** st' lacks the group at k and is st otherwise, seen by one user. */
  ghost predicate Lacking(st: Store, st': Store, k: nat, user: string) {
    && k < |st.groups| && |st'.groups| == |st.groups| - 1
    && forall i :: 0 <= i < |st.groups| && i != k ==>
         var j := if i < k then i else i - 1;
         st'.groups[j] == st.groups[i] && InGroup(st', user, j) == InGroup(st, user, i)
  }

  lemma DeleteKeepsHas(st: Store, st': Store, k: nat, user: string, grant: Grant)
    requires Lacking(st, st', k, user) && !Gives(st.groups[k], grant)
    ensures Has(st, user, grant) <==> Has(st', user, grant)
  {
    if Has(st, user, grant) {
      var i :| 0 <= i < |st.groups| && InGroup(st, user, i) && Gives(st.groups[i], grant);
      var j := if i < k then i else i - 1;
      assert InGroup(st', user, j) && Gives(st'.groups[j], grant);
    }
    if Has(st', user, grant) {
      var j :| 0 <= j < |st'.groups| && InGroup(st', user, j) && Gives(st'.groups[j], grant);
      var i := if j < k then j else j + 1;
      assert InGroup(st, user, i) && Gives(st.groups[i], grant);
    }
  }

  lemma DeleteKeepsAdmin(st: Store, st': Store, k: nat, user: string)
    requires Lacking(st, st', k, user) && !st.groups[k].isAdmin && st.users == st'.users
    ensures InAdminGroup(st, user) <==> InAdminGroup(st', user)
    ensures IsAdmin(st, user) <==> IsAdmin(st', user)
  {
    if InAdminGroup(st, user) {
      var i :| 0 <= i < |st.groups| && InGroup(st, user, i) && st.groups[i].isAdmin;
      var j := if i < k then i else i - 1;
      assert InGroup(st', user, j) && st'.groups[j].isAdmin;
    }
    if InAdminGroup(st', user) {
      var j :| 0 <= j < |st'.groups| && InGroup(st', user, j) && st'.groups[j].isAdmin;
      var i := if j < k then j else j + 1;
      assert InGroup(st, user, i) && st.groups[i].isAdmin;
    }
  }

  lemma MembershipIsInert(st: Store, actor: string, userId: string, groupIds: seq<string>, user: string, grant: Grant)
    requires MembershipAllowed(st, actor, userId, groupIds) && Beyond(st, actor, grant)
    ensures SameFor(st, Apply(st, actor, SetMembership(userId, groupIds)), user, grant)
  {
    var st' := Apply(st, actor, SetMembership(userId, groupIds));
    if user == userId {
      forall i | 0 <= i < |st.groups| && InGroup(st, user, i) != InGroup(st', user, i)
        ensures Inert(st.groups[i], grant)
      {
        GrantableGivesNothingBeyond(st, actor, st.groups[i], grant);
      }
      assert !AnyAdmin(st.groups, groupIds);
    } else {
      assert forall i :: 0 <= i < |st.groups| ==> InGroup(st', user, i) == InGroup(st, user, i);
    }
  }

  /** One action by a non-admin changes nobody's share of what the actor lacks, nor who is admin. */
  lemma ActionStaysWithinActor(st: Store, actor: string, a: Action, user: string, grant: Grant)
    requires Beyond(st, actor, grant)
    ensures SameFor(st, Apply(st, actor, a), user, grant)
  {
    match a {
      case Create(form, freshId) =>
        if CreateAllowed(st, actor, form) {
          DescribedIsRequested(st, actor, form, freshId, grant);
          CreateIsInert(st, Described(form, freshId), user, grant);
        }
      case Update(groupId, form) =>
        if UpdateAllowed(st, actor, groupId, form) {
          var k := IndexOfId(st.groups, groupId);
          DescribedIsRequested(st, actor, form, groupId, grant);
          GrantableGivesNothingBeyond(st, actor, st.groups[k], grant);
          UpdateIsInert(st, k, Described(form, groupId), user, grant);
        }
      case Delete(groupId) =>
        if DeleteAllowed(st, actor, groupId) {
          var k := IndexOfId(st.groups, groupId);
          GrantableGivesNothingBeyond(st, actor, st.groups[k], grant);
          DeleteIsInert(st, k, user, grant);
        }
      case SetMembership(userId, groupIds) =>
        if MembershipAllowed(st, actor, userId, groupIds) {
          MembershipIsInert(st, actor, userId, groupIds, user, grant);
        }
    }
  }

  /** No one in the coalition is an admin or has the grant. */
  ghost predicate BeyondAll(st: Store, actors: set<string>, grant: Grant) {
    forall a :: a in actors ==> Beyond(st, a, grant)
  }

  /**
   However long non-admins act, alone or together, a grant none of them had at the start stays
   with exactly the users who had it, and the admins stay exactly the admins.
   */
  lemma {:induction false} RunStaysWithinActors(st: Store, requests: seq<Request>, actors: set<string>, user: string, grant: Grant)
    requires BeyondAll(st, actors, grant)
    requires forall i :: 0 <= i < |requests| ==> requests[i].actor in actors
    ensures SameFor(st, Run(st, requests), user, grant)
    decreases |requests|
  {
    if requests != [] {
      var st' := Apply(st, requests[0].actor, requests[0].action);
      forall a | a in actors ensures Beyond(st', a, grant) {
        ActionStaysWithinActor(st, requests[0].actor, requests[0].action, a, grant);
      }
      ActionStaysWithinActor(st, requests[0].actor, requests[0].action, user, grant);
      RunStaysWithinActors(st', requests[1..], actors, user, grant);
    }
  }

  /** A permission name no group gives. */
  const NOTHING := Everywhere("")

  lemma NobodyHasNothing(st: Store, user: string)
    ensures !Has(st, user, NOTHING)
  {
  }

  /** In particular no run of non-admin actions changes who is an admin, or who belongs to an admin group. */
  lemma {:induction false} RunKeepsAdmins(st: Store, requests: seq<Request>, user: string)
    requires forall i :: 0 <= i < |requests| ==> !IsAdmin(st, requests[i].actor)
    ensures IsAdmin(Run(st, requests), user) <==> IsAdmin(st, user)
    ensures InAdminGroup(Run(st, requests), user) <==> InAdminGroup(st, user)
  {
    var actors := set i | 0 <= i < |requests| :: requests[i].actor;
    forall a | a in actors ensures Beyond(st, a, NOTHING) { NobodyHasNothing(st, a); }
    RunStaysWithinActors(st, requests, actors, user, NOTHING);
  }

  // ---- Admin rights outlive the group that gave them ----

  /** No action but setting that user's own membership touches the stored admin flag. */
  ghost predicate LeavesMembership(requests: seq<Request>, user: string) {
    forall i :: 0 <= i < |requests| ==> !(requests[i].action.SetMembership? && requests[i].action.userId == user)
  }

  /**
   A user stored as an admin stays one through every run, by admins too, in which that user's
   membership is not set again: deleting or demoting the admin group does not withdraw the right.
   */
  lemma {:induction false} StoredAdminOutlivesGroups(st: Store, requests: seq<Request>, user: string)
    requires user in st.users && st.users[user].storedAdmin && LeavesMembership(requests, user)
    ensures IsAdmin(Run(st, requests), user)
    decreases |requests|
  {
    if requests != [] {
      StoredAdminOutlivesGroups(Apply(st, requests[0].actor, requests[0].action), requests[1..], user);
    }
  }

  /** Setting a membership is where the flag is decided: by the admin groups among the new ones. */
  lemma MembershipDecidesAdmin(st: Store, actor: string, user: string, groupIds: seq<string>)
    requires MembershipAllowed(st, actor, user, groupIds)
    ensures IsAdmin(Apply(st, actor, SetMembership(user, groupIds)), user) <==> AnyAdmin(st.groups, groupIds)
  {
    var st' := Apply(st, actor, SetMembership(user, groupIds));
    assert forall i :: 0 <= i < |st.groups| ==> (InGroup(st', user, i) <==> st.groups[i].id in groupIds);
  }

  /** A deletion withdraws admin rights exactly from those whose only source was the deleted group. */
  lemma {:induction false} DeletionWithdrawsExactly(st: Store, actor: string, groupId: string, user: string)
    requires DeleteAllowed(st, actor, groupId)
    ensures var k := IndexOfId(st.groups, groupId);
            IsAdmin(st, user) && !IsAdmin(Apply(st, actor, Delete(groupId)), user) <==>
            && user in st.users && !st.users[user].storedAdmin && InGroup(st, user, k) && st.groups[k].isAdmin
            && forall i :: 0 <= i < |st.groups| && i != k && InGroup(st, user, i) ==> !st.groups[i].isAdmin
  {
    var k, st' := IndexOfId(st.groups, groupId), Apply(st, actor, Delete(groupId));
    assert Lacking(st, st', k, user) by {
      forall i | 0 <= i < |st.groups| && i != k
        ensures var j := if i < k then i else i - 1;
                st'.groups[j] == st.groups[i] && InGroup(st', user, j) == InGroup(st, user, i)
      {
      }
    }
    LackingAdmin(st, st', k, user);
  }

  lemma LackingAdmin(st: Store, st': Store, k: nat, user: string)
    requires Lacking(st, st', k, user)
    ensures InAdminGroup(st', user) <==>
            exists i :: 0 <= i < |st.groups| && i != k && InGroup(st, user, i) && st.groups[i].isAdmin
  {
    if InAdminGroup(st', user) {
      var j :| 0 <= j < |st'.groups| && InGroup(st', user, j) && st'.groups[j].isAdmin;
      var i := if j < k then j else j + 1;
      assert InGroup(st, user, i) && st.groups[i].isAdmin;
    }
    if i :| 0 <= i < |st.groups| && i != k && InGroup(st, user, i) && st.groups[i].isAdmin {
      var j := if i < k then i else i - 1;
      assert InGroup(st', user, j) && st'.groups[j].isAdmin;
    }
  }

  /**
   In every store with an admin group and an admin to act, it happens: a user put into that group
   alone is still an admin after the group is deleted, though in no admin group.
   */
  lemma {:induction false} AdminOutlivesDeletedGroup(st: Store, actor: string, user: string, k: nat)
    requires actor in st.users && st.users[actor].storedAdmin && user in st.users && user != "" && user != actor
    requires k < |st.groups| && st.groups[k].isAdmin && st.groups[k].id != "" && UniqueIds(st.groups)
    ensures var id := st.groups[k].id;
            var after := Run(st, [Request(actor, SetMembership(user, [id])), Request(actor, Delete(id))]);
            IsAdmin(after, user) && !InAdminGroup(after, user)
  {
    var id := st.groups[k].id;
    var first, second := Request(actor, SetMembership(user, [id])), Request(actor, Delete(id));
    AdminActs(st, actor);
    PutIntoAdminGroup(st, actor, user, k);
    var st1 := Apply(st, actor, first.action);
    AdminActs(st1, actor);
    GroupDeleted(st1, actor, user, k);
    RunBoth(st, first, second);
  }

  lemma {:induction false} RunBoth(st: Store, a: Request, b: Request)
    ensures Run(st, [a, b]) == Apply(Apply(st, a.actor, a.action), b.actor, b.action)
  {
    assert [a, b][1..] == [b] && [b][1..] == [];
    assert Run(Apply(st, a.actor, a.action), [b]) == Run(Apply(Apply(st, a.actor, a.action), b.actor, b.action), []);
  }

  lemma AdminActs(st: Store, actor: string)
    requires actor in st.users && st.users[actor].storedAdmin
    ensures IsAdmin(st, actor) && MayManageGroups(st, actor)
  {
  }

  lemma PutIntoAdminGroup(st: Store, actor: string, user: string, k: nat)
    requires IsAdmin(st, actor) && MayManageGroups(st, actor) && user in st.users && user != ""
    requires k < |st.groups| && st.groups[k].isAdmin
    ensures var st1 := Apply(st, actor, SetMembership(user, [st.groups[k].id]));
            && st1.groups == st.groups && user in st1.users && st1.users[user].storedAdmin
            && (forall x :: x in st1.users[user].groupIds ==> x == st.groups[k].id)
            && (actor != user && actor in st.users ==> actor in st1.users && st1.users[actor] == st.users[actor])
  {
    var id := st.groups[k].id;
    assert st.groups[k].id in [id];
    assert AnyAdmin(st.groups, [id]);
    assert MembershipAllowed(st, actor, user, [id]);
  }

  lemma GroupDeleted(st: Store, actor: string, user: string, k: nat)
    requires IsAdmin(st, actor) && MayManageGroups(st, actor) && UniqueIds(st.groups)
    requires k < |st.groups| && st.groups[k].id != "" && user in st.users && st.users[user].storedAdmin
    requires forall x :: x in st.users[user].groupIds ==> x == st.groups[k].id
    ensures var after := Apply(st, actor, Delete(st.groups[k].id)); IsAdmin(after, user) && !InAdminGroup(after, user)
  {
    var after := Apply(st, actor, Delete(st.groups[k].id));
    assert IndexOfId(st.groups, st.groups[k].id) == k;
    forall j | 0 <= j < |after.groups| ensures !InGroup(after, user, j) {
      assert after.groups[j] == st.groups[if j < k then j else j + 1];
    }
  }

  // ---- The shape of the store ----

  /** What every group written by a form satisfies. */
  ghost predicate WellFormed(g: Group) {
    && g.name != "" && IsTrimmed(g.name)
    && (g.isAdmin ==> g.globalPermissions == [] && g.siteAccess == [])
    && (forall i :: 0 <= i < |g.globalPermissions| ==> g.globalPermissions[i] in GLOBAL_PERMISSIONS)
    && SitesWellFormed(g.siteAccess)
  }

  ghost predicate SitesWellFormed(entries: seq<SiteAccess>) {
    && (forall i, j :: 0 <= i < j < |entries| ==> entries[i].siteId != entries[j].siteId)
    && (forall i :: 0 <= i < |entries| ==> entries[i].permissions != [])
    && (forall i, k :: 0 <= i < |entries| && 0 <= k < |entries[i].permissions| ==>
          entries[i].permissions[k] in SITE_PERMISSIONS)
  }

  ghost predicate NoDuplicates(ids: seq<string>) {
    forall i, j :: 0 <= i < j < |ids| ==> ids[i] != ids[j]
  }

  lemma {:induction false} SiteIdsDistinct(form: seq<Field>)
    ensures NoDuplicates(SiteIds(form))
  {
    if form != [] { SiteIdsDistinct(form[..|form| - 1]); }
  }

  lemma {:induction false} EntriesWellFormed(form: seq<Field>, ids: seq<string>)
    requires NoDuplicates(ids)
    ensures SitesWellFormed(EntriesFor(form, ids))
    ensures forall i :: 0 <= i < |EntriesFor(form, ids)| ==> EntriesFor(form, ids)[i].siteId in ids
  {
    if ids != [] {
      var before, id := ids[..|ids| - 1], ids[|ids| - 1];
      EntriesWellFormed(form, before);
      assert forall x :: x in before ==> x in ids;
      assert id !in before;
      var permissions := ParsePermissions(GetField(form, PermissionsKey(id)), SITE_PERMISSIONS);
      if permissions != [] { SitesSnoc(EntriesFor(form, before), SiteAccess(id, permissions)); }
    }
  }

  lemma SitesSnoc(entries: seq<SiteAccess>, e: SiteAccess)
    requires SitesWellFormed(entries) && e.permissions != []
    requires forall i :: 0 <= i < |entries| ==> entries[i].siteId != e.siteId
    requires forall k :: 0 <= k < |e.permissions| ==> e.permissions[k] in SITE_PERMISSIONS
    ensures SitesWellFormed(entries + [e])
  {
  }

  /** The parsed site access names each site once, with at least one permission, all of them site permissions. */
  lemma SiteAccessWellFormed(form: seq<Field>)
    ensures SitesWellFormed(SiteAccessOf(form))
  {
    SiteIdsDistinct(form);
    EntriesWellFormed(form, SiteIds(form));
  }

  lemma {:induction false} DescribedWellFormed(form: seq<Field>, id: string)
    requires Trim(GetField(form, "name")) != ""
    ensures WellFormed(Described(form, id))
  {
    SiteAccessWellFormed(form);
  }

  ghost predicate UniqueIds(groups: seq<Group>) {
    forall i, j :: 0 <= i < j < |groups| ==> groups[i].id != groups[j].id
  }

  ghost predicate UniqueNames(groups: seq<Group>) {
    forall i, j :: 0 <= i < j < |groups| ==> Lower(groups[i].name) != Lower(groups[j].name)
  }

  ghost predicate Fresh(st: Store, a: Action) {
    a.Create? ==> forall i :: 0 <= i < |st.groups| ==> st.groups[i].id != a.freshId
  }

  /** Every group is well-formed or stands as it stood in the base list. */
  ghost predicate WellFormedSince(base: seq<Group>, groups: seq<Group>) {
    forall i :: 0 <= i < |groups| ==> WellFormed(groups[i]) || groups[i] in base
  }

  ghost predicate StoreInvariant(base: seq<Group>, st: Store) {
    UniqueIds(st.groups) && UniqueNames(st.groups) && WellFormedSince(base, st.groups)
  }

  lemma ActionKeepsInvariant(base: seq<Group>, st: Store, actor: string, a: Action)
    requires StoreInvariant(base, st) && Fresh(st, a)
    ensures StoreInvariant(base, Apply(st, actor, a))
  {
    match a {
      case Create(form, freshId) =>
        if CreateAllowed(st, actor, form) {
          DescribedWellFormed(form, freshId);
          CreateKeepsUnique(st, Described(form, freshId));
        }
      case Update(groupId, form) =>
        if UpdateAllowed(st, actor, groupId, form) {
          DescribedWellFormed(form, groupId);
          UpdateKeepsUnique(st, IndexOfId(st.groups, groupId), Described(form, groupId));
        }
      case Delete(groupId) =>
        if DeleteAllowed(st, actor, groupId) { DeleteKeepsInvariant(base, st, IndexOfId(st.groups, groupId)); }
      case SetMembership(userId, groupIds) =>
    }
  }

  lemma CreateKeepsUnique(st: Store, g: Group)
    requires UniqueIds(st.groups) && UniqueNames(st.groups)
    requires (forall i :: 0 <= i < |st.groups| ==> st.groups[i].id != g.id) && !NameTaken(st.groups, g.name, "", false)
    ensures UniqueIds(st.groups + [g]) && UniqueNames(st.groups + [g])
  {
  }

  lemma DeleteKeepsInvariant(base: seq<Group>, st: Store, k: nat)
    requires k < |st.groups| && StoreInvariant(base, st)
    ensures StoreInvariant(base, st.(groups := st.groups[..k] + st.groups[k + 1..]))
  {
    var rest := st.groups[..k] + st.groups[k + 1..];
    assert forall i :: 0 <= i < |rest| ==> rest[i] == st.groups[if i < k then i else i + 1];
  }

  lemma UpdateKeepsUnique(st: Store, k: nat, g: Group)
    requires k < |st.groups| && UniqueIds(st.groups) && UniqueNames(st.groups)
    requires g.id == st.groups[k].id && !NameTaken(st.groups, g.name, g.id, true)
    ensures UniqueIds(st.groups[k := g]) && UniqueNames(st.groups[k := g])
  {
    assert forall i :: 0 <= i < |st.groups| && i != k ==> Lower(st.groups[i].name) != Lower(g.name) by {
      forall i | 0 <= i < |st.groups| && i != k ensures Lower(st.groups[i].name) != Lower(g.name) {
        assert st.groups[i].id != g.id;
      }
    }
  }

  /** Fresh ids along a run. */
  ghost predicate RunFresh(st: Store, requests: seq<Request>)
    decreases |requests|
  {
    requests == [] ||
    (Fresh(st, requests[0].action) && RunFresh(Apply(st, requests[0].actor, requests[0].action), requests[1..]))
  }

  /** Along every run, by anyone: ids and case-blind names stay unique, and every group a form touched is well-formed. */
  lemma {:induction false} RunKeepsInvariant(base: seq<Group>, st: Store, requests: seq<Request>)
    requires StoreInvariant(base, st) && RunFresh(st, requests)
    ensures StoreInvariant(base, Run(st, requests))
    decreases |requests|
  {
    if requests != [] {
      ActionKeepsInvariant(base, st, requests[0].actor, requests[0].action);
      RunKeepsInvariant(base, Apply(st, requests[0].actor, requests[0].action), requests[1..]);
    }
  }

  // ---- The seeded store ----

  /** The groups the first start creates, one site entry per known site. */
  function Seeded(siteIds: seq<string>, adminId: string, operatorId: string): seq<Group> {
    var access := seq(|siteIds|, i requires 0 <= i < |siteIds| => SiteAccess(siteIds[i], SITE_PERMISSIONS));
    [Group(adminId, "Administrators", true, ["manage-users", "manage-sites"], access),
     Group(operatorId, "Operators", false, [], access)]
  }

  /**
   The seeded store has an admin group "Administrators", which carries explicit permissions and so is
   not well-formed, and a group "Operators", which is, on distinct sites: it gives every site permission
   on every known site, and nothing everywhere.
   */
  lemma SeededAdminIsNotWellFormed(siteIds: seq<string>, adminId: string, operatorId: string)
    requires NoDuplicates(siteIds)
    ensures var groups := Seeded(siteIds, adminId, operatorId);
            && |groups| == 2 && groups[0].id == adminId && groups[1].id == operatorId
            && groups[0].name == "Administrators" && groups[1].name == "Operators" && groups[0].isAdmin && !groups[1].isAdmin
            && !WellFormed(groups[0]) && WellFormed(groups[1])
            && (forall p :: Gives(groups[0], Everywhere(p)) <==> p == "manage-users" || p == "manage-sites")
            && (forall p :: !Gives(groups[1], Everywhere(p)))
            && (forall s, p :: Gives(groups[1], OnSite(s, p)) <==> s in siteIds && p in SITE_PERMISSIONS)
  {
    assert "Operators"[0] == 'O' && "Operators"[8] == 's';
    var groups := Seeded(siteIds, adminId, operatorId);
    forall s, p ensures Gives(groups[1], OnSite(s, p)) <==> s in siteIds && p in SITE_PERMISSIONS {
      if s in siteIds && p in SITE_PERMISSIONS {
        var i :| 0 <= i < |siteIds| && siteIds[i] == s;
        assert groups[1].siteAccess[i].siteId == s;
      }
    }
    SeededGlobals(groups[0]);
  }

  lemma SeededGlobals(g: Group)
    requires g.globalPermissions == ["manage-users", "manage-sites"]
    ensures forall p :: Gives(g, Everywhere(p)) <==> p == "manage-users" || p == "manage-sites"
  {
    assert GLOBAL_PERMISSIONS[0] == "manage-users" && GLOBAL_PERMISSIONS[1] == "manage-sites";
  }

  // ---- Site access ----

  /** The sites a session can open: any entry counts, even one without permissions. */
  predicate CanOpen(st: Store, user: string, siteId: string) {
    exists i, k :: 0 <= i < |st.groups| && InGroup(st, user, i) && 0 <= k < |st.groups[i].siteAccess|
                && st.groups[i].siteAccess[k].siteId == siteId
  }

  ghost predicate NoEmptyEntries(st: Store) {
    forall i, k :: 0 <= i < |st.groups| && 0 <= k < |st.groups[i].siteAccess| ==>
      st.groups[i].siteAccess[k].permissions != []
  }

  /** Without empty entries, opening a site means holding some permission on it. */
  lemma OpeningMeansPermission(st: Store, user: string, siteId: string)
    requires NoEmptyEntries(st)
    ensures CanOpen(st, user, siteId) <==> exists p :: Has(st, user, OnSite(siteId, p))
  {
    if CanOpen(st, user, siteId) {
      var i, k :| 0 <= i < |st.groups| && InGroup(st, user, i) && 0 <= k < |st.groups[i].siteAccess|
                  && st.groups[i].siteAccess[k].siteId == siteId;
      var p := st.groups[i].siteAccess[k].permissions[0];
      assert Gives(st.groups[i], OnSite(siteId, p));
      assert Has(st, user, OnSite(siteId, p));
    }
    if p :| Has(st, user, OnSite(siteId, p)) {
      var i :| 0 <= i < |st.groups| && InGroup(st, user, i) && Gives(st.groups[i], OnSite(siteId, p));
      var k :| 0 <= k < |st.groups[i].siteAccess| && st.groups[i].siteAccess[k].siteId == siteId;
    }
  }

  lemma {:induction false} RunKeepsNoEmptyEntries(st: Store, requests: seq<Request>)
    requires NoEmptyEntries(st)
    ensures NoEmptyEntries(Run(st, requests))
    decreases |requests|
  {
    if requests != [] {
      var a := requests[0].action;
      if a.Create? { SiteAccessWellFormed(a.form); }
      if a.Update? { SiteAccessWellFormed(a.form); }
      RunKeepsNoEmptyEntries(Apply(st, requests[0].actor, a), requests[1..]);
    }
  }

  /** A site no acting non-admin can open stays open to exactly the users it was open to. */
  lemma {:induction false} RunKeepsSiteAccess(st: Store, requests: seq<Request>, user: string, siteId: string)
    requires NoEmptyEntries(st)
    requires forall i :: 0 <= i < |requests| ==>
               !IsAdmin(st, requests[i].actor) && !CanOpen(st, requests[i].actor, siteId)
    ensures CanOpen(Run(st, requests), user, siteId) <==> CanOpen(st, user, siteId)
  {
    var actors := set i | 0 <= i < |requests| :: requests[i].actor;
    RunKeepsNoEmptyEntries(st, requests);
    OpeningMeansPermission(st, user, siteId);
    OpeningMeansPermission(Run(st, requests), user, siteId);
    forall p ensures Has(st, user, OnSite(siteId, p)) <==> Has(Run(st, requests), user, OnSite(siteId, p)) {
      forall a | a in actors ensures Beyond(st, a, OnSite(siteId, p)) {
        OpeningMeansPermission(st, a, siteId);
      }
      RunStaysWithinActors(st, requests, actors, user, OnSite(siteId, p));
    }
  }

  // ---- The stores as the actions change them ----

  class Stores {
    var groups: seq<Group>
    var users: map<string, User>

    ghost function State(): Store
      reads this
    {
      Store(groups, users)
    }

    method CreateGroup(actor: string, form: seq<Field>, freshId: string) returns (done: bool)
      modifies this`groups
      ensures State() == Apply(old(State()), actor, Create(form, freshId))
      ensures done <==> CreateAllowed(old(State()), actor, form)
    {
      var st := Store(groups, users);
      done := false;
      if !MayManageGroups(st, actor) { return; }
      var name := Trim(GetField(form, "name"));
      if name == "" { return; }
      var isAdmin := GetField(form, "isAdmin") == "true";
      if isAdmin && !IsAdmin(st, actor) { return; }
      var globals := ParsePermissions(GetField(form, "globalPermissions"), GLOBAL_PERMISSIONS);
      var access := ParseSiteAccess(form);
      if !CanGrant(st, actor, Group("", "", isAdmin, globals, access)) { return; }
      if NameTaken(groups, name, "", false) { return; }
      groups := groups + [Group(freshId, name, isAdmin, if isAdmin then [] else globals, if isAdmin then [] else access)];
      done := true;
    }

    method UpdateGroup(actor: string, groupId: string, form: seq<Field>) returns (done: bool)
      modifies this`groups
      ensures State() == Apply(old(State()), actor, Update(groupId, form))
      ensures done <==> UpdateAllowed(old(State()), actor, groupId, form)
    {
      var st := Store(groups, users);
      done := false;
      if !MayManageGroups(st, actor) || groupId == "" { return; }
      var i := IndexOfId(groups, groupId);
      if i < 0 { return; }
      var name := Trim(GetField(form, "name"));
      if name == "" { return; }
      var isAdmin := GetField(form, "isAdmin") == "true";
      if (isAdmin || groups[i].isAdmin) && !IsAdmin(st, actor) { return; }
      if !CanGrant(st, actor, groups[i]) { return; }
      var globals := ParsePermissions(GetField(form, "globalPermissions"), GLOBAL_PERMISSIONS);
      var access := ParseSiteAccess(form);
      if !CanGrant(st, actor, Group("", "", isAdmin, globals, access)) { return; }
      if NameTaken(groups, name, groupId, true) { return; }
      groups := groups[i := Group(groupId, name, isAdmin, if isAdmin then [] else globals, if isAdmin then [] else access)];
      done := true;
    }

    method DeleteGroup(actor: string, groupId: string) returns (done: bool)
      modifies this`groups
      ensures State() == Apply(old(State()), actor, Delete(groupId))
      ensures done <==> DeleteAllowed(old(State()), actor, groupId)
    {
      var st := Store(groups, users);
      done := false;
      if !MayManageGroups(st, actor) || groupId == "" { return; }
      var i := IndexOfId(groups, groupId);
      if i < 0 || !CanGrant(st, actor, groups[i]) { return; }
      groups := groups[..i] + groups[i + 1..];
      done := true;
    }

    method UpdateUserGroups(actor: string, userId: string, groupIds: seq<string>) returns (done: bool)
      modifies this`users
      ensures State() == Apply(old(State()), actor, SetMembership(userId, groupIds))
      ensures done <==> MembershipAllowed(old(State()), actor, userId, groupIds)
    {
      var st := Store(groups, users);
      done := false;
      if !MayManageGroups(st, actor) || userId == "" { return; }
      var actorIsAdmin := IsAdmin(st, actor);
      if AnyAdmin(groups, groupIds) && !actorIsAdmin { return; }
      if userId == actor && !actorIsAdmin { return; }
      if userId !in users { return; }
      if IsAdmin(st, userId) && !actorIsAdmin { return; }
      var before := users[userId].groupIds;
      for n := 0 to |groups|
        invariant forall i :: 0 <= i < n && (groups[i].id in groupIds) != (groups[i].id in before) ==>
                    CanGrant(st, actor, groups[i])
      {
        if (groups[n].id in groupIds) != (groups[n].id in before) && !CanGrant(st, actor, groups[n]) {
          return;
        }
      }
      users := users[userId := User(AnyAdmin(groups, groupIds), ValidIds(groups, groupIds))];
      done := true;
    }
  }
}
