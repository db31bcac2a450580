/** What the group actions do when they are allowed, and exactly when they are, down to the fields of the form. */
module GroupMeaning {
  import opened Options
  import opened Text
  import opened UserGroups

  // ---- What a form asks for ----

  /** The form's list names the permission, and it is one of the permissions that apply everywhere. */
  predicate AsksEverywhere(form: seq<Field>, p: string) {
    p in GLOBAL_PERMISSIONS && HasPiece(GetField(form, "globalPermissions"), p)
  }

  /** The form switches the site on, and its list for the site names the site permission. */
  predicate AsksOnSite(form: seq<Field>, siteId: string, p: string) {
    && Capturable(siteId) && GetField(form, "site-" + siteId + "-enabled") == "true"
    && p in SITE_PERMISSIONS && HasPiece(GetField(form, "site-" + siteId + "-permissions"), p)
  }

  /** A group gives what the form asks for, unless it is an admin group: that one gives nothing by itself. */
  ghost predicate GivesWhatIsAsked(g: Group, form: seq<Field>) {
    && (forall p :: Gives(g, Everywhere(p)) <==> GetField(form, "isAdmin") != "true" && AsksEverywhere(form, p))
    && (forall siteId, p :: Gives(g, OnSite(siteId, p)) <==> GetField(form, "isAdmin") != "true" && AsksOnSite(form, siteId, p))
  }

  lemma DescribedGives(form: seq<Field>, id: string)
    ensures GivesWhatIsAsked(Described(form, id), form)
  {
    var g := Described(form, id);
    forall p ensures Gives(g, Everywhere(p)) <==> GetField(form, "isAdmin") != "true" && AsksEverywhere(form, p) {
      ParsedExactly(GetField(form, "globalPermissions"), GLOBAL_PERMISSIONS, p);
    }
    forall siteId, p ensures Gives(g, OnSite(siteId, p)) <==> GetField(form, "isAdmin") != "true" && AsksOnSite(form, siteId, p) {
      SiteAccessExactly(form, siteId, p);
      assert g.siteAccess == SiteAccessOf(form) ==> (Gives(g, OnSite(siteId, p)) <==> Lists(SiteAccessOf(form), siteId, p));
    }
  }

  // ---- What an actor may give ----

  /** A non-admin has everything the group lists. */
  ghost predicate HasAllOf(st: Store, actor: string, g: Group) {
    && (forall p :: p in g.globalPermissions ==> Has(st, actor, Everywhere(p)))
    && (forall i, p :: 0 <= i < |g.siteAccess| && p in g.siteAccess[i].permissions ==>
          Has(st, actor, OnSite(g.siteAccess[i].siteId, p)))
  }

  /** An admin may give every group, anyone else what is no admin group and lists only what the actor has. */
  lemma CanGrantExactly(st: Store, actor: string, g: Group)
    ensures CanGrant(st, actor, g) <==> IsAdmin(st, actor) || (!g.isAdmin && HasAllOf(st, actor, g))
  {
    if CanGrant(st, actor, g) && !IsAdmin(st, actor) {
      forall p | p in g.globalPermissions ensures Has(st, actor, Everywhere(p)) {
        var k :| 0 <= k < |g.globalPermissions| && g.globalPermissions[k] == p;
        assert Holds(st, actor, Everywhere(g.globalPermissions[k]));
      }
      forall i, p | 0 <= i < |g.siteAccess| && p in g.siteAccess[i].permissions
        ensures Has(st, actor, OnSite(g.siteAccess[i].siteId, p))
      {
        var k :| 0 <= k < |g.siteAccess[i].permissions| && g.siteAccess[i].permissions[k] == p;
        assert Holds(st, actor, OnSite(g.siteAccess[i].siteId, g.siteAccess[i].permissions[k]));
      }
    }
  }

  /** A non-admin has everything the form asks for, which is no admin group. */
  ghost predicate HasAllAsked(st: Store, actor: string, form: seq<Field>) {
    && GetField(form, "isAdmin") != "true"
    && (forall p :: AsksEverywhere(form, p) ==> Has(st, actor, Everywhere(p)))
    && (forall siteId, p :: AsksOnSite(form, siteId, p) ==> Has(st, actor, OnSite(siteId, p)))
  }

  lemma RequestExactly(st: Store, actor: string, form: seq<Field>)
    ensures CanGrant(st, actor, Requested(form)) <==> IsAdmin(st, actor) || HasAllAsked(st, actor, form)
  {
    var g := Requested(form);
    CanGrantExactly(st, actor, g);
    forall p ensures p in g.globalPermissions <==> AsksEverywhere(form, p) {
      ParsedExactly(GetField(form, "globalPermissions"), GLOBAL_PERMISSIONS, p);
    }
    forall siteId, p ensures Lists(g.siteAccess, siteId, p) <==> AsksOnSite(form, siteId, p) {
      SiteAccessExactly(form, siteId, p);
    }
    if HasAllAsked(st, actor, form) {
      forall i, p | 0 <= i < |g.siteAccess| && p in g.siteAccess[i].permissions
        ensures Has(st, actor, OnSite(g.siteAccess[i].siteId, p))
      {
        assert Lists(g.siteAccess, g.siteAccess[i].siteId, p);
      }
    }
  }

  /** The actor is a user who is an admin or whose groups give manage-groups. */
  predicate Manages(st: Store, actor: string) {
    actor in st.users && (IsAdmin(st, actor) || Has(st, actor, Everywhere("manage-groups")))
  }

  /** Nobody else changes anything. */
  lemma OnlyManagersAct(st: Store, actor: string, a: Action)
    requires !Manages(st, actor)
    ensures Apply(st, actor, a) == st
  {
  }

  // ---- The four actions ----

  predicate NameFree(st: Store, form: seq<Field>, exceptId: Option<string>) {
    && Trim(GetField(form, "name")) != ""
    && forall i :: 0 <= i < |st.groups| ==>
         Lower(st.groups[i].name) != Lower(Trim(GetField(form, "name"))) || exceptId == Some(st.groups[i].id)
  }

  ghost predicate Writes(g: Group, id: string, form: seq<Field>) {
    && g.id == id && g.name == Trim(GetField(form, "name")) && (g.isAdmin <==> GetField(form, "isAdmin") == "true")
    && GivesWhatIsAsked(g, form)
  }

  /**
   A group is created exactly when a manager asks for a free name and for nothing beyond the own
   rights. It comes last, gives what the form asks for, and nothing else changes; otherwise nothing does.
   */
  lemma CreateExactly(st: Store, actor: string, form: seq<Field>, freshId: string)
    ensures var after := Apply(st, actor, Create(form, freshId));
            if Manages(st, actor) && NameFree(st, form, None) && (IsAdmin(st, actor) || HasAllAsked(st, actor, form)) then
              && |after.groups| == |st.groups| + 1 && after.groups[..|st.groups|] == st.groups && after.users == st.users
              && Writes(after.groups[|st.groups|], freshId, form)
            else after == st
  {
    RequestExactly(st, actor, form);
    DescribedGives(form, freshId);
  }

  /**
   A group is updated exactly when it exists, and a manager may give it as it is and as the form asks
   for, under a name free apart from its own. It stays in its place; nothing else changes.
   */
  lemma UpdateExactly(st: Store, actor: string, groupId: string, form: seq<Field>, k: nat)
    requires k < |st.groups| && IsFirstWith(st.groups, groupId, k) && groupId != ""
    ensures var after := Apply(st, actor, Update(groupId, form));
            if && Manages(st, actor) && NameFree(st, form, Some(groupId))
               && (IsAdmin(st, actor)
                   || (!st.groups[k].isAdmin && HasAllOf(st, actor, st.groups[k]) && HasAllAsked(st, actor, form)))
            then
              && |after.groups| == |st.groups| && after.users == st.users && Writes(after.groups[k], groupId, form)
              && forall i :: 0 <= i < |st.groups| && i != k ==> after.groups[i] == st.groups[i]
            else after == st
  {
    UpdateAllowedExactly(st, actor, groupId, form, k);
    FoundFirst(st.groups, groupId, k);
    DescribedGives(form, groupId);
  }

  lemma UpdateAllowedExactly(st: Store, actor: string, groupId: string, form: seq<Field>, k: nat)
    requires k < |st.groups| && IsFirstWith(st.groups, groupId, k) && groupId != ""
    ensures UpdateAllowed(st, actor, groupId, form) <==>
            && Manages(st, actor) && NameFree(st, form, Some(groupId))
            && (IsAdmin(st, actor)
                || (!st.groups[k].isAdmin && HasAllOf(st, actor, st.groups[k]) && HasAllAsked(st, actor, form)))
  {
    FoundFirst(st.groups, groupId, k);
    RequestExactly(st, actor, form);
    CanGrantExactly(st, actor, st.groups[k]);
  }

  /** Group k is the first with the id. */
  predicate IsFirstWith(groups: seq<Group>, id: string, k: nat) {
    k < |groups| && groups[k].id == id && forall i :: 0 <= i < k ==> groups[i].id != id
  }

  lemma {:induction false} FoundFirst(groups: seq<Group>, id: string, k: nat)
    requires IsFirstWith(groups, id, k)
    ensures IndexOfId(groups, id) == k
  {
    if k > 0 {
      assert forall i :: 0 <= i < k - 1 ==> groups[1..][i] == groups[i + 1];
      FoundFirst(groups[1..], id, k - 1);
    }
  }

  /** A group is deleted exactly when it exists and a manager may give it; the others stay in order. */
  lemma DeleteExactly(st: Store, actor: string, groupId: string, k: nat)
    requires k < |st.groups| && IsFirstWith(st.groups, groupId, k) && groupId != ""
    ensures var after := Apply(st, actor, Delete(groupId));
            if Manages(st, actor) && (IsAdmin(st, actor) || (!st.groups[k].isAdmin && HasAllOf(st, actor, st.groups[k]))) then
              after.groups == st.groups[..k] + st.groups[k + 1..] && after.users == st.users
            else after == st
  {
    FoundFirst(st.groups, groupId, k);
    CanGrantExactly(st, actor, st.groups[k]);
  }

  /** An update or a deletion of a group that does not exist, or has no id, changes nothing. */
  lemma UnknownGroupChangesNothing(st: Store, actor: string, groupId: string, form: seq<Field>)
    requires groupId == "" || forall i :: 0 <= i < |st.groups| ==> st.groups[i].id != groupId
    ensures Apply(st, actor, Update(groupId, form)) == st && Apply(st, actor, Delete(groupId)) == st
  {
  }

  /** A manager may put the user into these groups. */
  ghost predicate MayPlace(st: Store, actor: string, userId: string, groupIds: seq<string>) {
    && Manages(st, actor) && userId != "" && userId in st.users
    && (IsAdmin(st, actor)
        || (&& userId != actor && !IsAdmin(st, userId)
            && forall i :: 0 <= i < |st.groups| ==>
                 && (st.groups[i].isAdmin ==> st.groups[i].id !in groupIds)
                 && ((st.groups[i].id in groupIds) != (st.groups[i].id in st.users[userId].groupIds) ==>
                       !st.groups[i].isAdmin && HasAllOf(st, actor, st.groups[i]))))
  }

  /**
   A membership is set exactly when a manager may: an admin always, anyone else for other users who
   are no admins, and only as to groups the actor may give. The user then has what the named groups
   give, and is stored as an admin if one of them is an admin group.
   */
  lemma MembershipExactly(st: Store, actor: string, userId: string, groupIds: seq<string>)
    ensures var after := Apply(st, actor, SetMembership(userId, groupIds));
            if MayPlace(st, actor, userId, groupIds) then
              && after.groups == st.groups && after.users.Keys == st.users.Keys
              && (forall u :: u in st.users && u != userId ==> after.users[u] == st.users[u])
              && (forall id :: id in after.users[userId].groupIds <==>
                    id in groupIds && exists i :: 0 <= i < |st.groups| && st.groups[i].id == id)
              && (after.users[userId].storedAdmin <==>
                    exists i :: 0 <= i < |st.groups| && st.groups[i].id in groupIds && st.groups[i].isAdmin)
            else after == st
  {
    forall i | 0 <= i < |st.groups| ensures CanGrant(st, actor, st.groups[i]) <==>
        IsAdmin(st, actor) || (!st.groups[i].isAdmin && HasAllOf(st, actor, st.groups[i]))
    {
      CanGrantExactly(st, actor, st.groups[i]);
    }
    ValidIdsAre(st.groups, groupIds);
  }

  lemma {:induction false} ValidIdsAre(groups: seq<Group>, ids: seq<string>)
    ensures forall id :: id in ValidIds(groups, ids) <==> id in ids && exists i :: 0 <= i < |groups| && groups[i].id == id
  {
    if groups != [] {
      ValidIdsAre(groups[1..], ids);
      forall id | id in ValidIds(groups, ids) ensures exists i :: 0 <= i < |groups| && groups[i].id == id {
        if id in ValidIds(groups[1..], ids) {
          var i :| 0 <= i < |groups[1..]| && groups[1..][i].id == id;
          assert groups[i + 1].id == id;
        } else {
          assert groups[0].id == id;
        }
      }
    }
  }

  /** A user set to some groups has exactly what those groups give. */
  lemma MembershipGives(st: Store, actor: string, userId: string, groupIds: seq<string>, grant: Grant)
    requires MayPlace(st, actor, userId, groupIds)
    ensures Has(Apply(st, actor, SetMembership(userId, groupIds)), userId, grant) <==>
            exists i :: 0 <= i < |st.groups| && st.groups[i].id in groupIds && Gives(st.groups[i], grant)
  {
    var after := Apply(st, actor, SetMembership(userId, groupIds));
    MembershipExactly(st, actor, userId, groupIds);
    assert forall i :: 0 <= i < |st.groups| ==> (InGroup(after, userId, i) <==> st.groups[i].id in groupIds);
  }
}
