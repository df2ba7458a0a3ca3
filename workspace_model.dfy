/** The workspace document of `server/models/Workspace.js`: its member roles,
    the slug normaliser and invite-code generation of the first pre-save hook,
    and the single collision fix-up of the second. The database itself is
    represented by the sets of slugs and invite codes other documents hold. */
module WorkspaceModel {
  import opened Wrappers
  import opened Text
  import opened InviteCodes

  /** The schema's role enum. */
  datatype Role = Admin | Member

  datatype MemberEntry = MemberEntry(user: string, role: Role)

  /** The class `[a-z0-9]`. */
  predicate IsSlugChar(c: char) {
    'a' <= c <= 'z' || '0' <= c <= '9'
  }

  /** The class `[^a-z0-9]`. */
  predicate OutsideSlugClass(c: char) {
    !IsSlugChar(c)
  }

  /** `.replace(/(^-|-$)/g, '')`: one leading and one trailing '-' removed. */
  function StripEdgeDashes(s: string): string {
    var t := if s != [] && s[0] == '-' then s[1..] else s;
    if t != [] && t[|t| - 1] == '-' then t[..|t| - 1] else t
  }

  /** The pre-save slug: lower-case, every maximal run outside `[a-z0-9]`
      replaced by one '-', then a leading and a trailing '-' removed. */
  function Normalize(name: string): string {
    StripEdgeDashes(ReplaceRuns(Lower(name), OutsideSlugClass))
  }

  /** The shape every normalised slug has. */
  ghost predicate IsSlug(s: string) {
    && (forall i :: 0 <= i < |s| ==> IsSlugChar(s[i]) || s[i] == '-')
    && (forall i :: 0 <= i < |s| - 1 ==> !(s[i] == '-' && s[i + 1] == '-'))
    && (s == [] || (s[0] != '-' && s[|s| - 1] != '-'))
  }

  /** Removing the edge dashes of a dash-separated string without "--" leaves a slug. */
  lemma StripEdgeDashesIsSlug(r: string)
    requires forall i :: 0 <= i < |r| ==> IsSlugChar(r[i]) || r[i] == '-'
    requires forall i :: 0 <= i < |r| - 1 ==> !(r[i] == '-' && r[i + 1] == '-')
    ensures IsSlug(StripEdgeDashes(r))
  {
    var t := if r != [] && r[0] == '-' then r[1..] else r;
    var d := |r| - |t|;
    assert t == r[d..];
    forall i | 0 <= i < |t| - 1 ensures !(t[i] == '-' && t[i + 1] == '-') {
      assert t[i] == r[i + d] && t[i + 1] == r[i + 1 + d];
    }
    assert t != [] ==> t[0] != '-' by {
      if t != [] && d == 1 {
        assert t[0] == r[1];
      }
    }
    var u := if t != [] && t[|t| - 1] == '-' then t[..|t| - 1] else t;
    assert u == t[..|u|];
    assert u != [] ==> u[|u| - 1] != '-' by {
      if u != [] && |u| < |t| {
        assert u[|u| - 1] == t[|t| - 2];
      }
    }
    assert StripEdgeDashes(r) == u;
  }

  lemma NormalizeIsSlug(name: string)
    ensures IsSlug(Normalize(name))
  {
    ReplaceRunsNoDoubleDash(Lower(name), OutsideSlugClass);
    StripEdgeDashesIsSlug(ReplaceRuns(Lower(name), OutsideSlugClass));
  }

  lemma NormalizeFixesSlugs(s: string)
    requires IsSlug(s)
    ensures Normalize(s) == s
  {
    assert Lower(s) == s;
    ReplaceIsolatedRuns(s, OutsideSlugClass);
    assert DashEach(s, OutsideSlugClass) == s;
  }

  /** Normalising a slug a second time returns it unchanged. */
  lemma NormalizeIdempotent(name: string)
    ensures Normalize(Normalize(name)) == Normalize(name)
  {
    NormalizeIsSlug(name);
    NormalizeFixesSlugs(Normalize(name));
  }

  /** Removing edge dashes drops no letter or digit. */
  lemma StripEdgeDashesKeeps(r: string)
    ensures Kept(StripEdgeDashes(r), OutsideSlugClass) == Kept(r, OutsideSlugClass)
  {
    var t := if r != [] && r[0] == '-' then r[1..] else r;
    if r != [] && r[0] == '-' {
      assert r == "-" + t;
      KeptConcat("-", t, OutsideSlugClass);
    }
    if t != [] && t[|t| - 1] == '-' {
      var u := t[..|t| - 1];
      assert t == u + "-";
      KeptConcat(u, "-", OutsideSlugClass);
    }
  }

  /** Every letter and digit of the lower-cased name survives, in order. */
  lemma NormalizeKeepsLettersAndDigits(name: string)
    ensures Kept(Normalize(name), OutsideSlugClass) == Kept(Lower(name), OutsideSlugClass)
  {
    ReplaceRunsKeeps(Lower(name), OutsideSlugClass, OutsideSlugClass);
    StripEdgeDashesKeeps(ReplaceRuns(Lower(name), OutsideSlugClass));
  }

  /** The collision suffix `-<timestamp>` keeps a non-empty slug a slug. */
  lemma SuffixKeepsSlug(slug: string, now: nat)
    requires IsSlug(slug) && slug != []
    ensures IsSlug(slug + "-" + Decimal(now))
  {
    var d := Decimal(now);
    var s := slug + "-" + d;
    forall i | 0 <= i < |s| - 1 ensures !(s[i] == '-' && s[i + 1] == '-') {
      if i < |slug| - 1 {
        assert s[i] == slug[i] && s[i + 1] == slug[i + 1];
      } else if i == |slug| - 1 {
        assert s[i] == slug[|slug| - 1];
      } else {
        assert s[i + 1] == d[i + 1 - |slug| - 1];
      }
    }
  }

  /** The schema's `required` validators on name, slug and invite code; an
      empty string fails them like a missing value. */
  predicate PassesRequired(name: string, slug: string, inviteCode: string) {
    name != "" && slug != "" && inviteCode != ""
  }

  /** A workspace document as the pre-save hooks see it; "" stands for a field
      that is not set. */
  class WorkspaceDoc {
    var name: string
    var slug: string
    var description: string
    var inviteCode: string
    var members: seq<MemberEntry>
    var updatedAt: nat

    /** `new Workspace({ name, description, owner, members })`: the schema trims
        the name and leaves slug and invite code unset. */
    constructor (name: string, description: string, owner: string)
      ensures this.name == Trim(name) && this.description == description
      ensures slug == "" && inviteCode == ""
      ensures members == [MemberEntry(owner, Admin)] && updatedAt == 0
    {
      this.name := Trim(name);
      this.description := description;
      slug := "";
      inviteCode := "";
      members := [MemberEntry(owner, Admin)];
      updatedAt := 0;
    }

    /** First pre-save hook: derive the slug, generate the invite code, stamp `updatedAt`. */
    method GenerateSlugAndCode(nameModified: bool, rolls: seq<real>, now: nat)
      requires |rolls| >= CODE_LENGTH && ValidRolls(rolls)
      modifies this
      ensures slug == if nameModified && old(slug) == "" then Normalize(name) else old(slug)
      ensures old(inviteCode) == "" ==> IsInviteCode(inviteCode)
      ensures old(inviteCode) != "" ==> inviteCode == old(inviteCode)
      ensures updatedAt == now
      ensures name == old(name) && description == old(description) && members == old(members)
    {
      if nameModified && slug == "" {
        slug := Normalize(name);
      }
      if inviteCode == "" {
        inviteCode := Generate(rolls);
      }
      updatedAt := now;
    }

    /** Second pre-save hook: a slug another document holds gets `-<now>`
        appended, a taken invite code is drawn again, each once and without
        checking the replacement. */
    method EnsureUnique(slugModified: bool, codeModified: bool, otherSlugs: set<string>,
                        otherCodes: set<string>, rolls: seq<real>, now: nat)
      requires |rolls| >= CODE_LENGTH && ValidRolls(rolls)
      modifies this
      ensures slug == if slugModified && old(slug) in otherSlugs then old(slug) + "-" + Decimal(now) else old(slug)
      ensures codeModified && old(inviteCode) in otherCodes ==> IsInviteCode(inviteCode)
      ensures !(codeModified && old(inviteCode) in otherCodes) ==> inviteCode == old(inviteCode)
      ensures name == old(name) && description == old(description)
      ensures members == old(members) && updatedAt == old(updatedAt)
    {
      if slugModified && slug in otherSlugs {
        slug := slug + "-" + Decimal(now);
      }
      if codeModified && inviteCode in otherCodes {
        inviteCode := Generate(rolls);
      }
    }

    /** Both hooks in order, as `save` runs them. A field the first hook fills
        counts as modified for the second. */
    method PreSave(nameModified: bool, slugModified: bool, codeModified: bool,
                   otherSlugs: set<string>, otherCodes: set<string>,
                   rolls1: seq<real>, rolls2: seq<real>, now: nat)
      requires |rolls1| >= CODE_LENGTH && ValidRolls(rolls1)
      requires |rolls2| >= CODE_LENGTH && ValidRolls(rolls2)
      modifies this
      ensures var derived := if nameModified && old(slug) == "" then Normalize(name) else old(slug);
        slug == if (slugModified || derived != old(slug)) && derived in otherSlugs
                then derived + "-" + Decimal(now) else derived
      ensures old(inviteCode) == "" || (codeModified && old(inviteCode) in otherCodes) ==> IsInviteCode(inviteCode)
      ensures old(inviteCode) != "" && !(codeModified && old(inviteCode) in otherCodes) ==> inviteCode == old(inviteCode)
      ensures updatedAt == now
      ensures name == old(name) && description == old(description) && members == old(members)
    {
      var hadSlug, hadCode := slug, inviteCode;
      GenerateSlugAndCode(nameModified, rolls1, now);
      EnsureUnique(slugModified || slug != hadSlug, codeModified || inviteCode != hadCode,
                   otherSlugs, otherCodes, rolls2, now);
    }

    /** `save()` as Mongoose orders it: the validators run before the
        pre-save hooks, and a document that fails them is neither saved nor
        changed. */
    method SaveAsWritten(nameModified: bool, slugModified: bool, codeModified: bool,
                         otherSlugs: set<string>, otherCodes: set<string>,
                         rolls1: seq<real>, rolls2: seq<real>, now: nat) returns (saved: bool)
      requires |rolls1| >= CODE_LENGTH && ValidRolls(rolls1)
      requires |rolls2| >= CODE_LENGTH && ValidRolls(rolls2)
      modifies this
      ensures saved == old(PassesRequired(name, slug, inviteCode))
      ensures !saved ==> unchanged(this)
      ensures saved ==>
        var derived := if nameModified && old(slug) == "" then Normalize(name) else old(slug);
        slug == if (slugModified || derived != old(slug)) && derived in otherSlugs
                then derived + "-" + Decimal(now) else derived
      ensures saved && codeModified && old(inviteCode) in otherCodes ==> IsInviteCode(inviteCode)
      ensures saved && !(codeModified && old(inviteCode) in otherCodes) ==> inviteCode == old(inviteCode)
      ensures saved ==> updatedAt == now
      ensures saved ==> name == old(name) && description == old(description) && members == old(members)
    {
      if !PassesRequired(name, slug, inviteCode) {
        return false;
      }
      PreSave(nameModified, slugModified, codeModified, otherSlugs, otherCodes, rolls1, rolls2, now);
      saved := true;
    }

    /** `save()` with the hooks run before the validators (as `pre('validate')`
        hooks are): the fields the hooks fill are what gets validated. */
    method Save(nameModified: bool, slugModified: bool, codeModified: bool,
                otherSlugs: set<string>, otherCodes: set<string>,
                rolls1: seq<real>, rolls2: seq<real>, now: nat) returns (saved: bool)
      requires |rolls1| >= CODE_LENGTH && ValidRolls(rolls1)
      requires |rolls2| >= CODE_LENGTH && ValidRolls(rolls2)
      modifies this
      ensures var derived := if nameModified && old(slug) == "" then Normalize(name) else old(slug);
        slug == if (slugModified || derived != old(slug)) && derived in otherSlugs
                then derived + "-" + Decimal(now) else derived
      ensures old(inviteCode) == "" || (codeModified && old(inviteCode) in otherCodes) ==> IsInviteCode(inviteCode)
      ensures old(inviteCode) != "" && !(codeModified && old(inviteCode) in otherCodes) ==> inviteCode == old(inviteCode)
      ensures updatedAt == now
      ensures name == old(name) && description == old(description) && members == old(members)
      ensures saved == PassesRequired(name, slug, inviteCode)
    {
      PreSave(nameModified, slugModified, codeModified, otherSlugs, otherCodes, rolls1, rolls2, now);
      saved := PassesRequired(name, slug, inviteCode);
    }
  }

  /** `POST /create` with the database connected, as written: a new document
      has neither slug nor invite code when the validators run, so it is
      never saved, whatever its name. */
  method CreateAsWritten(name: string, description: Option<string>, owner: string,
                         otherSlugs: set<string>, otherCodes: set<string>,
                         rolls1: seq<real>, rolls2: seq<real>, now: nat) returns (saved: bool)
    requires |rolls1| >= CODE_LENGTH && ValidRolls(rolls1)
    requires |rolls2| >= CODE_LENGTH && ValidRolls(rolls2)
    ensures !saved
  {
    var doc := new WorkspaceDoc(name, if description.Some? then Trim(description.value) else "", owner);
    saved := doc.SaveAsWritten(true, false, false, otherSlugs, otherCodes, rolls1, rolls2, now);
  }

  /** `POST /create` with the hooks before validation: a name holding a
      letter or digit gives a saved document with a well-formed slug and a
      valid invite code; any other name (blank, or only punctuation) leaves
      the slug empty and is refused. */
  method Create(name: string, description: Option<string>, owner: string,
                otherSlugs: set<string>, otherCodes: set<string>,
                rolls1: seq<real>, rolls2: seq<real>, now: nat) returns (doc: WorkspaceDoc, saved: bool)
    requires |rolls1| >= CODE_LENGTH && ValidRolls(rolls1)
    requires |rolls2| >= CODE_LENGTH && ValidRolls(rolls2)
    ensures fresh(doc) && doc.name == Trim(name)
    ensures doc.description == if description.Some? then Trim(description.value) else ""
    ensures doc.members == [MemberEntry(owner, Admin)]
    ensures saved <==> Normalize(Trim(name)) != []
    ensures saved ==> IsSlug(doc.slug) && IsInviteCode(doc.inviteCode)
  {
    doc := new WorkspaceDoc(name, if description.Some? then Trim(description.value) else "", owner);
    saved := doc.Save(true, false, false, otherSlugs, otherCodes, rolls1, rolls2, now);
    ghost var derived := Normalize(Trim(name));
    if derived != [] {
      FirstSlugIsSlug(Trim(name), otherSlugs, now);
      assert doc.slug == if derived in otherSlugs then derived + "-" + Decimal(now) else derived;
    }
  }

  /** The slug a new document gets from its name is well formed. */
  lemma FirstSlugIsSlug(name: string, otherSlugs: set<string>, now: nat)
    requires Normalize(name) != []
    ensures var derived := Normalize(name);
      IsSlug(if derived in otherSlugs then derived + "-" + Decimal(now) else derived)
  {
    NormalizeIsSlug(name);
    if Normalize(name) in otherSlugs {
      SuffixKeepsSlug(Normalize(name), now);
    }
  }
}
