/** The form that edits a user (src/components/Users/EditUserModal.tsx):
    name, e-mail, role, department, the support areas the user covers, the
    active flag and the whitelist flag. Choosing another department clears
    the support areas; ticking an area toggles its id in the list. */
module EditUser {
  import opened Common
  import opened Domain

  // ---------------------------------------------------------------------------
  // Support areas
  // ---------------------------------------------------------------------------

  /** `handleSupportAreaToggle`: an id in the list is removed (every copy of
      it), an id not in the list is appended. */
  function Toggle(areas: seq<string>, areaId: string): (r: seq<string>)
  {
    if areaId in areas then Filter(areas, (x: string) => x != areaId) else areas + [areaId]
  }

  /** Toggling flips the membership of the toggled id and of no other. */
  lemma ToggleFlipsOne(areas: seq<string>, areaId: string)
    ensures areaId in Toggle(areas, areaId) <==> areaId !in areas
    ensures forall x :: x != areaId ==> (x in Toggle(areas, areaId) <==> x in areas)
  {
    var keep := (x: string) => x != areaId;
    if areaId in areas {
      forall x | x != areaId && x in areas ensures x in Toggle(areas, areaId) {
        var k :| 0 <= k < |areas| && areas[k] == x;
        assert keep(areas[k]);
      }
    }
  }

  /** A list without repetitions stays without repetitions. */
  lemma ToggleKeepsNoDuplicates(areas: seq<string>, areaId: string)
    requires NoDuplicates(areas)
    ensures NoDuplicates(Toggle(areas, areaId))
  {
    if areaId in areas {
      FilterIsSubsequence(areas, (x: string) => x != areaId);
      SubsequenceOfDistinctHasNoDuplicates(Filter(areas, (x: string) => x != areaId), areas);
    }
  }

  /** Ticking an area that was not selected and then unticking it gives the
      list back; ticking a selected one twice moves it to the end. */
  lemma ToggleTwice(areas: seq<string>, areaId: string)
    ensures areaId !in areas ==> Toggle(Toggle(areas, areaId), areaId) == areas
    ensures areaId in areas ==>
      Toggle(Toggle(areas, areaId), areaId) == Filter(areas, (x: string) => x != areaId) + [areaId]
  {
    var keep := (x: string) => x != areaId;
    if areaId !in areas {
      FilterAppend(areas, [areaId], keep);
      FilterKeepsAll(areas, keep);
      assert Filter([areaId], keep) == [];
    } else {
      assert areaId !in Filter(areas, keep);
    }
  }

  /** `departments.find(dept => dept.name === formData.department)
      ?.supportAreas || []`. */
  function AvailableSupportAreas(departments: seq<Department>, department: string): (r: seq<SupportArea>)
    ensures (forall k :: 0 <= k < |departments| ==> departments[k].name != department) ==> r == []
    ensures forall k :: 0 <= k < |departments| && departments[k].name == department
                        && (forall j :: 0 <= j < k ==> departments[j].name != department)
                        ==> r == departments[k].supportAreas
  {
    if departments == [] then []
    else if departments[0].name == department then departments[0].supportAreas
    else
      var r := AvailableSupportAreas(departments[1..], department);
      assert forall k :: 1 <= k < |departments| ==> departments[k] == departments[1..][k - 1];
      r
  }

  // ---------------------------------------------------------------------------
  // Loading and submitting
  // ---------------------------------------------------------------------------

  /** The content of the form. */
  datatype UserForm = UserForm(name: string, email: string, role: Role, department: string,
                               supportAreas: seq<string>, isActive: bool, whitelistEntry: bool)

  function EmptyForm(): UserForm
  {
    UserForm("", "", EndUser, "", [], true, false)
  }

  /** The load effect: `user.department || ''`, `user.whitelistEntry || false`. */
  function Load(u: User): (f: UserForm)
    ensures f.name == u.name && f.email == u.email && f.role == u.role && f.supportAreas == u.supportAreas
    ensures f.isActive == u.isActive
    ensures u.department.Some? ==> f.department == u.department.value
    ensures u.department.None? ==> f.department == ""
    ensures f.whitelistEntry <==> u.whitelistEntry == Some(true)
  {
    UserForm(u.name, u.email, u.role, Pick(u.department, ""), u.supportAreas, u.isActive,
             Pick(u.whitelistEntry, false))
  }

  /** `handleSubmit`: nothing without a name, an e-mail and an open user;
      otherwise the user's id and the seven fields for `updateUser`. */
  function Submit(f: UserForm, user: Option<User>): (r: Option<(string, UserPatch)>)
    ensures r.None? <==> f.name == "" || f.email == "" || user.None?
    ensures r.Some? ==> r.value.0 == user.value.id
  {
    if f.name == "" || f.email == "" || user.None? then None
    else
      Some((user.value.id,
            UserPatch(Some(f.email), Some(f.name), Some(f.role), Some(f.department), Some(f.supportAreas),
                      Some(f.isActive), None, None, Some(f.whitelistEntry))))
  }

  /** Submitting what was loaded changes nothing but spelling out an absent
      department as "" and an absent whitelist flag as false. */
  lemma SubmitLoadedIsIdentity(u: User)
    requires u.name != "" && u.email != ""
    ensures var r := Submit(Load(u), Some(u));
      r.Some? && r.value.0 == u.id
      && ApplyUserPatch(u, r.value.1)
         == u.(department := Some(Pick(u.department, "")), whitelistEntry := Some(Pick(u.whitelistEntry, false)))
  {
  }

  /** The patch carries exactly the fields of the form. */
  lemma SubmitWritesForm(f: UserForm, u: User)
    requires f.name != "" && f.email != ""
    ensures var v := ApplyUserPatch(u, Submit(f, Some(u)).value.1);
      && v.name == f.name && v.email == f.email && v.role == f.role && v.department == Some(f.department)
      && v.supportAreas == f.supportAreas && v.isActive == f.isActive && v.whitelistEntry == Some(f.whitelistEntry)
      && v.id == u.id && v.isOnline == u.isOnline && v.failedAttempts == u.failedAttempts
      && v.blockedUntil == u.blockedUntil && v.createdAt == u.createdAt
  {
  }

  // ---------------------------------------------------------------------------
  // The form
  // ---------------------------------------------------------------------------

  class EditUserForm {
    var form: UserForm

    constructor ()
      ensures form == EmptyForm()
    {
      form := EmptyForm();
    }

    /** The load effect: a user replaces the whole form; none leaves it. */
    method LoadUser(user: Option<User>)
      modifies this
      ensures user.Some? ==> form == Load(user.value)
      ensures user.None? ==> form == old(form)
    {
      if user.Some? {
        form := Load(user.value);
      }
    }

    /** The name, e-mail, role, active and whitelist inputs. */
    method SetFields(name: string, email: string, role: Role, isActive: bool, whitelistEntry: bool)
      modifies this
      ensures form == old(form).(name := name, email := email, role := role, isActive := isActive,
                                 whitelistEntry := whitelistEntry)
    {
      form := form.(name := name, email := email, role := role, isActive := isActive,
                    whitelistEntry := whitelistEntry);
    }

    /** The department select: another department starts with no areas. */
    method SetDepartment(department: string)
      modifies this
      ensures form == old(form).(department := department, supportAreas := [])
    {
      form := form.(department := department, supportAreas := []);
    }

    /** A support-area checkbox. */
    method ToggleSupportArea(areaId: string)
      modifies this
      ensures form == old(form).(supportAreas := Toggle(old(form).supportAreas, areaId))
    {
      form := form.(supportAreas := Toggle(form.supportAreas, areaId));
    }

    /** `handleSubmit`: the form itself does not change. */
    method SubmitForm(user: Option<User>) returns (r: Option<(string, UserPatch)>)
      ensures r == Submit(form, user)
    {
      r := Submit(form, user);
    }
  }
}
