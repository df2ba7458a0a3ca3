/** The workspace routes of `server/routes/workspace.js` that hold logic: the
    in-memory `demoWorkspaces` store behind `/demo/:slug`, `/demo-create` and
    `/demo-join`, the slug and display-name derivations, the `/join` member
    de-duplication and the `/:slug/invite` validation. */
module DemoRoutes {
  import opened Wrappers
  import opened Text
  import opened InviteCodes
  import opened OrderedSets
  import opened WorkspaceModel

  const DEMO_USER_ID: string := "demo_user_123"

  /** Milliseconds in the seven days an invitation stays valid. */
  const INVITE_LIFETIME: nat := 7 * 24 * 60 * 60 * 1000

  /** The fields of a demo workspace record that the routes compute. */
  datatype Workspace = Workspace(
    id: string,
    name: string,
    slug: string,
    description: string,
    inviteCode: string,
    ownerId: string,
    members: seq<MemberEntry>)

  /** An HTTP reply: a status and a body, or an error status and its message. */
  datatype Response<T> = Ok(status: nat, value: T) | Err(status: nat, error: string)

  datatype Invitation = Invitation(
    workspaceSlug: string,
    inviteCode: string,
    email: string,
    role: string,
    invitedBy: string,
    inviteLink: string,
    expiresAt: nat)

  /** What `/:slug` shows for a slug. */
  datatype SlugView = SlugView(name: string, description: string, inviteCode: string)

  /** The name of a fetched demo workspace: the slug with its first character
      upper-cased and every later '-' turned into a space. */
  function DemoName(slug: string): (r: string)
    ensures |r| == |slug|
    ensures slug != [] ==> r[0] == UpperChar(slug[0])
    ensures forall i :: 1 <= i < |r| ==> r[i] == if slug[i] == '-' then ' ' else slug[i]
  {
    if slug == [] then [] else [UpperChar(slug[0])] + ReplaceChar(slug[1..], '-', ' ')
  }

  /** The slug `/demo-create` stores under: the trimmed name, lower-cased, each
      run of white space turned into one '-'. */
  function CreateSlug(name: string): (r: string)
    ensures forall i :: 0 <= i < |r| ==> !IsSpace(r[i])
    ensures r == [] <==> Trim(name) == []
    ensures |r| <= |Trim(name)|
  {
    ReplaceRuns(Lower(Trim(name)), IsSpace)
  }

  /** White space or '-'. */
  predicate SpaceOrDash(c: char) {
    IsSpace(c) || c == '-'
  }

  /** Every character of the lower-cased trimmed name other than white space
      and '-' survives into the slug, in order. */
  lemma CreateSlugKeeps(name: string)
    ensures Kept(CreateSlug(name), SpaceOrDash) == Kept(Lower(Trim(name)), SpaceOrDash)
  {
    ReplaceRunsKeeps(Lower(Trim(name)), IsSpace, SpaceOrDash);
  }

  /** A trimmed name without inner white space only loses its case. */
  lemma CreateSlugOfWord(name: string)
    requires forall i :: 0 <= i < |Trim(name)| ==> !IsSpace(Trim(name)[i])
    ensures CreateSlug(name) == Lower(Trim(name))
  {
    ReplaceRunsNone(Lower(Trim(name)), IsSpace);
  }

  /** A slug's display name has no white space at either end. */
  lemma DemoNameTrimmed(slug: string)
    requires IsSlug(slug)
    ensures Trim(DemoName(slug)) == DemoName(slug)
  {
    var n := DemoName(slug);
    if slug != [] {
      assert !IsSpace(n[0]);
      assert !IsSpace(n[|n| - 1]);
    }
  }

  /** Lower-casing a slug's display name undoes the capital. */
  lemma LowerDemoName(slug: string)
    requires IsSlug(slug)
    ensures Lower(DemoName(slug)) == ReplaceChar(slug, '-', ' ')
  {
    var n := DemoName(slug);
    assert slug != [] ==> LowerChar(UpperChar(slug[0])) == slug[0];
  }

  /** In a slug with its dashes turned into spaces, the spaces are exactly
      the former dashes, and marking each of them with '-' restores the slug. */
  lemma SpacedSlug(slug: string)
    requires IsSlug(slug)
    ensures var m := ReplaceChar(slug, '-', ' ');
      && (forall i :: 0 <= i < |m| - 1 ==> !(IsSpace(m[i]) && IsSpace(m[i + 1])))
      && DashEach(m, IsSpace) == slug
  {
    var m := ReplaceChar(slug, '-', ' ');
    forall i | 0 <= i < |m|
      ensures IsSpace(m[i]) <==> slug[i] == '-'
    {
      assert IsSlugChar(slug[i]) || slug[i] == '-';
    }
    assert forall i :: 0 <= i < |m| ==> DashEach(m, IsSpace)[i] == slug[i];
  }

  /** The display name of a normalised slug leads `/demo-create` back to the
      same slug. */
  lemma CreateSlugOfDemoName(slug: string)
    requires IsSlug(slug)
    ensures CreateSlug(DemoName(slug)) == slug
  {
    var n := DemoName(slug);
    var m := ReplaceChar(slug, '-', ' ');
    DemoNameTrimmed(slug);
    LowerDemoName(slug);
    assert Lower(Trim(n)) == m;
    assert CreateSlug(n) == ReplaceRuns(m, IsSpace);
    SpacedSlug(slug);
    ReplaceIsolatedRuns(m, IsSpace);
    assert ReplaceRuns(m, IsSpace) == slug;
  }

  /** The name `/:slug` derives: a leading "workspace-" dropped, every '-'
      turned into a space, the rest upper-cased. */
  function SlugTitle(slug: string): (r: string)
    ensures |r| == if StartsWith(slug, "workspace-") then |slug| - 10 else |slug|
    ensures forall i :: 0 <= i < |r| ==> r[i] != '-' && !('a' <= r[i] <= 'z')
    ensures var rest := StripPrefix(slug, "workspace-");
      |r| == |rest| && forall i :: 0 <= i < |r| ==> r[i] == UpperChar(if rest[i] == '-' then ' ' else rest[i])
  {
    Upper(ReplaceChar(StripPrefix(slug, "workspace-"), '-', ' '))
  }

  /** `/:slug`: the invite code is the derived name, or "ABC123" when that is empty. */
  function ViewBySlug(slug: string): (v: SlugView)
    ensures v.name == "Workspace " + SlugTitle(slug)
    ensures v.description == "This is the " + SlugTitle(slug) + " workspace"
    ensures v.inviteCode == if SlugTitle(slug) != [] then SlugTitle(slug) else "ABC123"
    ensures v.inviteCode != []
    ensures v.inviteCode == "ABC123" <==> SlugTitle(slug) == [] || SlugTitle(slug) == "ABC123"
    ensures slug == [] || slug == "workspace-" ==> v.inviteCode == "ABC123"
  {
    var title := SlugTitle(slug);
    SlugView("Workspace " + title, "This is the " + title + " workspace",
             if title != [] then title else "ABC123")
  }

  /** `/join`: a user not yet among the members is appended as a member. */
  function JoinMembers(members: seq<MemberEntry>, user: string): (r: seq<MemberEntry>)
    ensures exists i :: 0 <= i < |r| && r[i].user == user
    ensures |members| <= |r| <= |members| + 1 && r[..|members|] == members
    ensures (exists i :: 0 <= i < |members| && members[i].user == user) <==> r == members
    ensures |r| > |members| ==> r[|members|] == MemberEntry(user, Member)
  {
    if exists i :: 0 <= i < |members| && members[i].user == user then members
    else
      var r := members + [MemberEntry(user, Member)];
      assert r[|members|].user == user;
      r
  }

  /** `n` joins of the same user in a row. */
  function JoinTimes(members: seq<MemberEntry>, user: string, n: nat): seq<MemberEntry>
    decreases n
  {
    if n == 0 then members else JoinTimes(JoinMembers(members, user), user, n - 1)
  }

  /** Repeated joins add at most one entry: every join after the first changes nothing. */
  lemma {:induction false} JoinRepeatedly(members: seq<MemberEntry>, user: string, n: nat)
    requires n >= 1
    ensures JoinTimes(members, user, n) == JoinMembers(members, user)
    ensures |JoinTimes(members, user, n)| <= |members| + 1
    decreases n
  {
    if n > 1 {
      var once := JoinMembers(members, user);
      assert JoinMembers(once, user) == once;
      JoinRepeatedly(once, user, n - 1);
    }
  }

  /** `/join` with the database lookup by the upper-cased code passed in as
      `found`; without a database the route answers with a mock membership. */
  function JoinByCode(inviteCode: Option<string>, dbConnected: bool,
                      found: Option<seq<MemberEntry>>, user: string): (r: Response<seq<MemberEntry>>)
    ensures Blank(inviteCode) <==> r == Err(400, "Invite code is required")
    ensures !Blank(inviteCode) && dbConnected && found.None? <==> r == Err(404, "Invalid invite code")
    ensures r.Ok? ==> r.status == 200 && exists i :: 0 <= i < |r.value| && r.value[i].user == user
    ensures !Blank(inviteCode) && dbConnected && found.Some? ==> r == Ok(200, JoinMembers(found.value, user))
    ensures !Blank(inviteCode) && !dbConnected ==>
      r == Ok(200, [MemberEntry("owner_id", Admin), MemberEntry(user, Member)])
  {
    if Blank(inviteCode) then Err(400, "Invite code is required")
    else if !dbConnected then
      var mock := [MemberEntry("owner_id", Admin), MemberEntry(user, Member)];
      assert mock[1].user == user;
      Ok(200, mock)
    else if found.None? then Err(404, "Invalid invite code")
    else Ok(200, JoinMembers(found.value, user))
  }

  /** The record `/demo/:slug` creates for a slug it has not seen. */
  function FetchedWorkspace(slug: string, code: string): Workspace {
    Workspace("workspace_" + slug, DemoName(slug), slug, "This is the " + slug + " workspace",
              code, DEMO_USER_ID, [MemberEntry(DEMO_USER_ID, Admin)])
  }

  /** The record `/demo-join` answers with when no stored workspace has the code. */
  function FallbackWorkspace(code: string, now: nat): Workspace {
    Workspace("workspace_" + Decimal(now), "TEST", "test", "This is the TEST workspace", code,
              DEMO_USER_ID, [MemberEntry(DEMO_USER_ID, Admin), MemberEntry(DEMO_USER_ID, Member)])
  }

  /** The stored workspaces in the store's iteration order. */
  function Listed(order: seq<string>, store: map<string, Workspace>): (r: seq<Workspace>)
    requires forall s :: s in order ==> s in store
    ensures |r| == |order| && forall i :: 0 <= i < |order| ==> r[i] == store[order[i]]
  {
    seq(|order|, i requires 0 <= i < |order| => store[order[i]])
  }

  /** Position of the first workspace carrying `code`, or `|ws|` when none does. */
  function FirstWithCode(ws: seq<Workspace>, code: string): (k: nat)
    ensures k <= |ws|
    ensures k < |ws| ==> ws[k].inviteCode == code
    ensures forall j :: 0 <= j < k ==> ws[j].inviteCode != code
  {
    if ws == [] then 0
    else if ws[0].inviteCode == code then 0
    else 1 + FirstWithCode(ws[1..], code)
  }

  /** The `demoWorkspaces` map: insertion-ordered keys and the records under them. */
  class DemoStore {
    var order: seq<string>
    var workspaces: map<string, Workspace>

    ghost predicate Valid()
      reads this
    {
      && Distinct(order)
      && (forall s :: s in workspaces <==> s in order)
      && (forall s :: s in workspaces ==> workspaces[s].slug == s)
    }

    constructor ()
      ensures Valid() && order == [] && workspaces == map[]
    {
      order := [];
      workspaces := map[];
    }

    /** `demoWorkspaces.set(ws.slug, ws)`: a new key goes last, an existing key
        keeps its place and gets the new record. */
    method Put(ws: Workspace)
      requires Valid()
      modifies this
      ensures Valid()
      ensures workspaces == old(workspaces)[ws.slug := ws]
      ensures order == Add(old(order), ws.slug)
    {
      order := Add(order, ws.slug);
      workspaces := workspaces[ws.slug := ws];
    }

    /** `/demo/:slug`: get-or-create. */
    method FetchDemo(slug: string, rolls: seq<real>) returns (res: Response<Workspace>)
      requires Valid()
      requires |rolls| >= CODE_LENGTH && ValidRolls(rolls)
      modifies this
      ensures Valid()
      ensures res.Ok? && res.status == 200 && res.value.slug == slug
      ensures old(slug in workspaces) ==>
        res.value == old(workspaces[slug]) && workspaces == old(workspaces) && order == old(order)
      ensures old(slug !in workspaces) ==>
        && res.value == FetchedWorkspace(slug, res.value.inviteCode)
        && IsInviteCode(res.value.inviteCode)
        && workspaces == old(workspaces)[slug := res.value]
        && order == old(order) + [slug]
      ensures slug in workspaces && workspaces[slug] == res.value
    {
      if slug in workspaces {
        return Ok(200, workspaces[slug]);
      }
      var code := Generate(rolls);
      var ws := FetchedWorkspace(slug, code);
      Put(ws);
      res := Ok(200, ws);
    }

    /** Two fetches of the same slug in a row answer with the same record,
        invite code included, and the second stores nothing new. */
    method FetchDemoTwice(slug: string, rolls1: seq<real>, rolls2: seq<real>)
      returns (first: Response<Workspace>, second: Response<Workspace>)
      requires Valid()
      requires |rolls1| >= CODE_LENGTH && ValidRolls(rolls1)
      requires |rolls2| >= CODE_LENGTH && ValidRolls(rolls2)
      modifies this
      ensures Valid()
      ensures first.Ok? && second.Ok? && second.value == first.value
      ensures old(slug !in workspaces) ==> order == old(order) + [slug]
      ensures old(slug in workspaces) ==> order == old(order) && workspaces == old(workspaces)
    {
      first := FetchDemo(slug, rolls1);
      second := FetchDemo(slug, rolls2);
    }

    /** `/demo-create`. */
    method CreateDemo(name: Option<string>, description: Option<string>, rolls: seq<real>, now: nat)
      returns (res: Response<Workspace>)
      requires Valid()
      requires |rolls| >= CODE_LENGTH && ValidRolls(rolls)
      modifies this
      ensures Valid()
      ensures Blank(name) ==>
        res == Err(400, "Workspace name is required") && workspaces == old(workspaces) && order == old(order)
      ensures !Blank(name) ==>
        && res.Ok? && res.status == 201
        && res.value.id == "workspace_" + Decimal(now)
        && res.value.name == Trim(name.value)
        && res.value.slug == CreateSlug(name.value)
        && res.value.description == (if description.Some? then Trim(description.value) else "")
        && IsInviteCode(res.value.inviteCode)
        && res.value.members == [MemberEntry(DEMO_USER_ID, Admin)]
        && workspaces == old(workspaces)[res.value.slug := res.value]
        && order == Add(old(order), res.value.slug)
    {
      if Blank(name) {
        return Err(400, "Workspace name is required");
      }
      var code := Generate(rolls);
      var ws := Workspace("workspace_" + Decimal(now), Trim(name.value), CreateSlug(name.value),
                          if description.Some? then Trim(description.value) else "",
                          code, DEMO_USER_ID, [MemberEntry(DEMO_USER_ID, Admin)]);
      Put(ws);
      res := Ok(201, ws);
    }

    /** The scan of `/demo-join`: the first stored workspace, in insertion
        order, whose invite code equals `code` exactly. */
    method FindByInviteCode(code: string) returns (found: Option<Workspace>)
      requires Valid()
      ensures var ws := Listed(order, workspaces); var k := FirstWithCode(ws, code);
        found == if k < |ws| then Some(ws[k]) else None
    {
      found := None;
      var i := 0;
      while i < |order|
        invariant 0 <= i <= |order|
        invariant forall j :: 0 <= j < i ==> workspaces[order[j]].inviteCode != code
      {
        if workspaces[order[i]].inviteCode == code {
          found := Some(workspaces[order[i]]);
          break;
        }
        i := i + 1;
      }
      ghost var ws := Listed(order, workspaces);
      assert FirstWithCode(ws, code) == i;
    }

    /** `/demo-join`: never changes the store. */
    method JoinDemo(code: Option<string>, now: nat) returns (res: Response<Workspace>)
      requires Valid()
      ensures Blank(code) ==> res == Err(400, "Invite code is required")
      ensures !Blank(code) ==>
        var ws := Listed(order, workspaces); var k := FirstWithCode(ws, code.value);
        res == Ok(200, if k < |ws| then ws[k] else FallbackWorkspace(code.value, now))
    {
      if Blank(code) {
        return Err(400, "Invite code is required");
      }
      var found := FindByInviteCode(code.value);
      res := Ok(200, found.GetOr(FallbackWorkspace(code.value, now)));
    }

    /** `/:slug/invite`: reuses the stored code of the slug's demo workspace
        when it has one, otherwise draws a fresh one. */
    method Invite(slug: string, email: Option<string>, role: Option<string>, invitedBy: string,
                  rolls: seq<real>, now: nat) returns (res: Response<Invitation>)
      requires Valid()
      requires |rolls| >= CODE_LENGTH && ValidRolls(rolls)
      ensures Blank(email) ==> res == Err(400, "Email is required")
      ensures !Blank(email) ==>
        && res.Ok? && res.status == 200
        && res.value.workspaceSlug == slug
        && res.value.email == Trim(email.value)
        && res.value.role == role.GetOr("member")
        && res.value.invitedBy == invitedBy
        && res.value.inviteLink == "http://localhost:5173/join/" + slug + "?code=" + res.value.inviteCode
        && res.value.expiresAt == now + INVITE_LIFETIME
        && (if slug in workspaces && workspaces[slug].inviteCode != ""
            then res.value.inviteCode == workspaces[slug].inviteCode
            else IsInviteCode(res.value.inviteCode))
    {
      if Blank(email) {
        return Err(400, "Email is required");
      }
      var code: string;
      if slug in workspaces && workspaces[slug].inviteCode != "" {
        code := workspaces[slug].inviteCode;
      } else {
        code := Generate(rolls);
      }
      res := Ok(200, Invitation(slug, code, Trim(email.value), role.GetOr("member"), invitedBy,
                                "http://localhost:5173/join/" + slug + "?code=" + code,
                                now + INVITE_LIFETIME));
    }
  }
}
