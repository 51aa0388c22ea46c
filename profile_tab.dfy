/** The admin profile tab: one profile record edited field by field, a list
    of hero roles typed one at a time, and the record the save button upserts. */
module ProfileTab {
  import opened Lists
  import opened Text

  /** A field value of the profile record as the page can hold it. */
  datatype Value = Undefined | Null | Str(s: string) | Roles(items: seq<string>)

  /** `Partial<Profile>`: the keys present, each with its value. */
  type Profile = map<string, Value>

  const HeroRolesKey: string := "hero_roles"
  const IdKey: string := "id"
  const UpdatedAtKey: string := "updated_at"

  /** The error code the backend reports when `.single()` finds no row. */
  const NoRowsCode: string := "PGRST116"

  function CharAsString(c: char): string
  {
    [c]
  }

  /** `[...(profile.hero_roles || [])]`: a missing, null or empty-string
      value gives no roles; spreading a non-empty string gives its characters. */
  function CurrentRoles(p: Profile): (r: seq<string>)
    ensures HeroRolesKey in p && p[HeroRolesKey].Roles? ==> r == p[HeroRolesKey].items
    ensures HeroRolesKey !in p || p[HeroRolesKey] == Undefined || p[HeroRolesKey] == Null ==> r == []
    ensures HeroRolesKey in p && p[HeroRolesKey].Str? ==>
      |r| == |p[HeroRolesKey].s| && forall i :: 0 <= i < |r| ==> r[i] == [p[HeroRolesKey].s[i]]
  {
    if HeroRolesKey !in p then []
    else match p[HeroRolesKey]
      case Roles(items) => items
      case Str(s) => Map(s, CharAsString)
      case _ => []
  }

  /** The new role list of `handleAddRole`: the trimmed input after the
      current roles, whether or not it is already there. */
  function WithRole(p: Profile, input: string): (r: seq<string>)
    ensures |r| == |CurrentRoles(p)| + 1
    ensures r[..|r| - 1] == CurrentRoles(p) && r[|r| - 1] == Trim(input)
  {
    CurrentRoles(p) + [Trim(input)]
  }

  /** Adding a role already present gives it a second copy. */
  lemma AddRoleDoesNotDeduplicate(p: Profile, input: string)
    requires Trim(input) in CurrentRoles(p)
    ensures Count(WithRole(p, input), Trim(input)) == Count(CurrentRoles(p), Trim(input)) + 1
  {
    assert multiset(WithRole(p, input)) == multiset(CurrentRoles(p)) + multiset{Trim(input)};
  }

  /** Removing a role right after adding it leaves the roles the list had,
      except that every earlier copy of it is gone as well. */
  lemma RemoveUndoesAdd(p: Profile, input: string)
    ensures RemoveAll(WithRole(p, input), Trim(input)) == RemoveAll(CurrentRoles(p), Trim(input))
  {
    RemoveAllConcat(CurrentRoles(p), [Trim(input)], Trim(input));
    assert RemoveAll([Trim(input)], Trim(input)) == [];
  }

  /** The new `hero_roles` value of `removeRole(role)`: `profile.hero_roles?.filter(...)`.
      A missing or null list becomes undefined; a string has no `filter`,
      so the handler throws and there is no new value. */
  function WithoutRole(p: Profile, role: string): (r: Option<Value>)
    ensures HeroRolesKey in p && p[HeroRolesKey].Roles? ==>
      && r.Some? && r.value.Roles?
      && r.value.items == RemoveAll(p[HeroRolesKey].items, role)
      && |r.value.items| == |p[HeroRolesKey].items| - Count(p[HeroRolesKey].items, role)
    ensures HeroRolesKey !in p || p[HeroRolesKey] == Undefined || p[HeroRolesKey] == Null ==> r == Some(Undefined)
    ensures HeroRolesKey in p && p[HeroRolesKey].Str? ==> r.None?
  {
    if HeroRolesKey !in p then Some(Undefined)
    else match p[HeroRolesKey]
      case Roles(items) => Some(Roles(RemoveAll(items, role)))
      case Str(_) => None
      case _ => Some(Undefined)
  }

  /** Removing every copy of a role that was just added twice. */
  lemma RemoveTakesDuplicatesTogether(roles: seq<string>, role: string)
    ensures RemoveAll(roles + [role, role], role) == RemoveAll(roles, role)
  {
    RemoveAllConcat(roles, [role, role], role);
    assert RemoveAll([role, role], role) == [];
  }

  /** `{ id: user.id, ...profile, updated_at: now }`: later keys win. */
  function UpsertRecord(uid: string, p: Profile, now: string): (r: map<string, Value>)
    ensures r.Keys == p.Keys + {IdKey, UpdatedAtKey}
    ensures r[UpdatedAtKey] == Str(now)
    ensures r[IdKey] == if IdKey in p then p[IdKey] else Str(uid)
    ensures forall k :: k in p && k != IdKey && k != UpdatedAtKey ==> r[k] == p[k]
  {
    (map[IdKey := Str(uid)] + p)[UpdatedAtKey := Str(now)]
  }

  /** A profile without its own id is saved under the signed-in user's id,
      and so is one fetched for that user. */
  lemma UpsertKeepsUserId(uid: string, p: Profile, now: string)
    requires IdKey !in p || p[IdKey] == Str(uid)
    ensures UpsertRecord(uid, p, now)[IdKey] == Str(uid)
  {
  }

  /** Upserting a saved record again only moves its timestamp. */
  lemma UpsertAgain(uid: string, p: Profile, t1: string, t2: string)
    ensures UpsertRecord(uid, UpsertRecord(uid, p, t1), t2) == UpsertRecord(uid, p, t2)
  {
    var once := UpsertRecord(uid, p, t1);
    var lhs := UpsertRecord(uid, once, t2);
    var rhs := UpsertRecord(uid, p, t2);
    assert lhs.Keys == rhs.Keys;
    forall k | k in lhs ensures lhs[k] == rhs[k] {
    }
  }

  /** The profile after `fetchProfile`, given the signed-in user (None when
      signed out), the row returned (None for null) and the error code. */
  function AfterFetch(p: Profile, user: Option<string>, data: Option<Profile>, errorCode: Option<string>): (r: Profile)
    ensures user.None? ==> r == p
    ensures errorCode.Some? && errorCode.value != NoRowsCode ==> r == p
    ensures data.None? ==> r == p
    ensures user.Some? && data.Some? && (errorCode.None? || errorCode.value == NoRowsCode) ==> r == data.value
  {
    if user.None? then p
    else if errorCode.Some? && errorCode.value != NoRowsCode then p
    else if data.Some? then data.value
    else p
  }

  /** The state of `ProfileTab`. */
  class ProfileEditor {
    var profile: Profile
    var roleInput: string

    constructor ()
      ensures profile == map[] && roleInput == ""
    {
      profile := map[];
      roleInput := "";
    }

    /** `fetchProfile`. */
    method FetchProfile(user: Option<string>, data: Option<Profile>, errorCode: Option<string>)
      modifies this`profile
      ensures profile == AfterFetch(old(profile), user, data, errorCode)
    {
      if user.None? {
        return;
      }
      if errorCode.Some? && errorCode.value != NoRowsCode {
        return;
      }
      if data.Some? {
        profile := data.value;
      }
    }

    /** An `onValueChange` of one of the text inputs. */
    method SetField(key: string, text: string)
      modifies this`profile
      ensures profile == old(profile)[key := Str(text)]
    {
      profile := profile[key := Str(text)];
    }

    /** Typing into the role input. */
    method SetRoleInput(text: string)
      modifies this`roleInput
      ensures roleInput == text
    {
      roleInput := text;
    }

    /** `handleAddRole` on a key press; `isEnter` says whether it was Enter. */
    method AddRole(isEnter: bool)
      modifies this`profile, this`roleInput
      ensures !isEnter || IsBlank(old(roleInput)) ==> profile == old(profile) && roleInput == old(roleInput)
      ensures isEnter && !IsBlank(old(roleInput)) ==>
        && profile == old(profile)[HeroRolesKey := Roles(WithRole(old(profile), old(roleInput)))]
        && roleInput == ""
    {
      var role := Trim(roleInput);
      if isEnter && role != "" {
        profile := profile[HeroRolesKey := Roles(CurrentRoles(profile) + [role])];
        roleInput := "";
      }
    }

    /** `removeRole`; when the handler throws nothing changes. */
    method RemoveRole(role: string)
      modifies this`profile
      ensures WithoutRole(old(profile), role).None? ==> profile == old(profile)
      ensures WithoutRole(old(profile), role).Some? ==>
        profile == old(profile)[HeroRolesKey := WithoutRole(old(profile), role).value]
    {
      var newRoles := WithoutRole(profile, role);
      if newRoles.Some? {
        profile := profile[HeroRolesKey := newRoles.value];
      }
    }

    /** The record `handleSave` upserts; None when nobody is signed in. */
    method Save(user: Option<string>, now: string) returns (record: Option<map<string, Value>>)
      ensures user.None? ==> record.None?
      ensures user.Some? ==> record == Some(UpsertRecord(user.value, profile, now))
    {
      if user.None? {
        return None;
      }
      record := Some(UpsertRecord(user.value, profile, now));
    }
  }
}
