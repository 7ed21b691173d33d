/** The form that creates a department
    (src/components/Departments/CreateDepartmentModal.tsx): a name, a
    description, a colour, an active flag and a list of support-area rows
    that is never empty. Submitting keeps the rows whose name is not blank,
    numbers them into area ids, parses their keyword text and resets the
    form. */
module CreateDepartment {
  import opened Common
  import opened Domain

  /** One support-area row of the form; the keywords are the text typed. */
  datatype AreaDraft = AreaDraft(name: string, description: string, keywords: string, priority: int)

  function BlankArea(): AreaDraft
  {
    AreaDraft("", "", "", 1)
  }

  const DefaultColor := "#3b82f6"

  /** `updateSupportArea(index, field, value)` for the four fields the rows
      edit; the priority arrives through `parseInt`. */
  datatype AreaEdit = SetAreaName(name: string) | SetAreaDescription(description: string)
                    | SetAreaKeywords(keywords: string) | SetAreaPriority(priority: int)

  function EditArea(a: AreaDraft, edit: AreaEdit): (r: AreaDraft)
    ensures edit.SetAreaName? ==> r == a.(name := edit.name)
    ensures edit.SetAreaDescription? ==> r == a.(description := edit.description)
    ensures edit.SetAreaKeywords? ==> r == a.(keywords := edit.keywords)
    ensures edit.SetAreaPriority? ==> r == a.(priority := edit.priority)
  {
    match edit
    case SetAreaName(n) => a.(name := n)
    case SetAreaDescription(d) => a.(description := d)
    case SetAreaKeywords(k) => a.(keywords := k)
    case SetAreaPriority(p) => a.(priority := p)
  }

  // ---------------------------------------------------------------------------
  // What a submit produces
  // ---------------------------------------------------------------------------

  /** `area.name.trim()` is truthy. */
  predicate NamedArea(a: AreaDraft)
  {
    Trim(a.name) != []
  }

  /** `supportAreas.filter(area => area.name.trim())`. */
  function ValidAreas(areas: seq<AreaDraft>): (r: seq<AreaDraft>)
    ensures forall k :: 0 <= k < |r| ==> !AllSpace(r[k].name)
    ensures forall k :: 0 <= k < |areas| && !AllSpace(areas[k].name) ==> areas[k] in r
    ensures IsSubsequence(r, areas)
    ensures r == [] <==> forall k :: 0 <= k < |areas| ==> AllSpace(areas[k].name)
  {
    FilterIsSubsequence(areas, NamedArea);
    Filter(areas, NamedArea)
  }

  /** `area_${Date.now()}_${index}`. */
  function AreaId(now: nat, index: nat): string
  {
    "area_" + Dec(now) + "_" + Dec(index)
  }

  /** Two rows of one submit never get the same id. */
  lemma AreaIdsDistinct(now: nat, i: nat, j: nat)
    requires i != j
    ensures AreaId(now, i) != AreaId(now, j)
  {
    if AreaId(now, i) == AreaId(now, j) {
      var p := "area_" + Dec(now) + "_";
      assert AreaId(now, i) == p + Dec(i) && AreaId(now, j) == p + Dec(j);
      assert Dec(i) == AreaId(now, i)[|p|..];
      assert Dec(j) == AreaId(now, j)[|p|..];
      DecInjective(i, j);
    }
  }

  /** The support area built from the row at `index` of the valid rows. */
  function NewArea(a: AreaDraft, now: nat, index: nat): SupportArea
  {
    SupportArea(AreaId(now, index), a.name, a.description, ParseCommaList(a.keywords), a.priority)
  }

  /** `validAreas.map((area, index) => ...)`: one area per valid row, in
      order, with the row's name, description and priority, its keywords
      parsed, and ids that are pairwise different. */
  function BuildAreas(valid: seq<AreaDraft>, now: nat): (r: seq<SupportArea>)
    ensures |r| == |valid|
    ensures forall k :: 0 <= k < |r| ==>
      r[k].name == valid[k].name && r[k].description == valid[k].description && r[k].priority == valid[k].priority
      && r[k].keywords == ParseCommaList(valid[k].keywords)
    ensures forall k :: 0 <= k < |r| ==> forall m :: 0 <= m < |r[k].keywords| ==>
      r[k].keywords[m] != [] && Trimmed(r[k].keywords[m]) && ',' !in r[k].keywords[m]
    ensures forall i, j :: 0 <= i < j < |r| ==> r[i].id != r[j].id
  {
    var r := seq(|valid|, k requires 0 <= k < |valid| => NewArea(valid[k], now, k));
    forall i, j | 0 <= i < j < |r| ensures r[i].id != r[j].id {
      AreaIdsDistinct(now, i, j);
    }
    r
  }

  /** What `createDepartment` receives. */
  datatype NewDepartment = NewDepartment(name: string, description: string, color: string, isActive: bool,
                                         supportAreas: seq<SupportArea>)

  const MissingFields := "Por favor completa todos los campos obligatorios"
  const NoAreas := "Debe agregar al menos un área de soporte"

  /** `handleSubmit` up to the call of `createDepartment`. */
  function SubmitDepartment(name: string, description: string, color: string, isActive: bool,
                            areas: seq<AreaDraft>, now: nat): (r: Result<NewDepartment>)
    ensures r.Err? && (name == "" || description == "") ==> r.message == MissingFields
    ensures r.Ok? ==>
      (r.value.name == name && r.value.description == description
       && r.value.color == color && r.value.isActive == isActive)
  {
    if name == "" || description == "" then Err(MissingFields)
    else
      var valid := ValidAreas(areas);
      if |valid| == 0 then Err(NoAreas)
      else Ok(NewDepartment(name, description, color, isActive, BuildAreas(valid, now)))
  }

  /** A department is created exactly when the name and the description are
      filled in and at least one row has a name that is not blank. */
  lemma SubmitDepartmentOutcome(name: string, description: string, color: string, isActive: bool,
                                areas: seq<AreaDraft>, now: nat)
    ensures SubmitDepartment(name, description, color, isActive, areas, now).Ok?
      <==> name != "" && description != "" && exists k :: 0 <= k < |areas| && !AllSpace(areas[k].name)
  {
    if exists k :: 0 <= k < |areas| && !AllSpace(areas[k].name) {
      var k :| 0 <= k < |areas| && !AllSpace(areas[k].name);
      assert areas[k] in ValidAreas(areas);
    }
  }

  /** The areas of a created department are the named rows, in the order of
      the form, each carrying its row's fields; a blank row never becomes an
      area, and no area is left without a name. */
  lemma SubmittedAreasAreNamedRows(name: string, description: string, color: string, isActive: bool,
                                   areas: seq<AreaDraft>, now: nat)
    requires SubmitDepartment(name, description, color, isActive, areas, now).Ok?
    ensures var d := SubmitDepartment(name, description, color, isActive, areas, now).value;
      && |d.supportAreas| >= 1
      && IsSubsequence(MapSeq(d.supportAreas, AreaFields), MapSeq(areas, DraftFields))
      && (forall k :: 0 <= k < |d.supportAreas| ==> !AllSpace(d.supportAreas[k].name))
  {
    var valid := ValidAreas(areas);
    BuiltAreaFields(valid, now);
    SubsequenceMaps(valid, areas, DraftFields);
  }

  /** The fields a row hands on to its area. */
  function DraftFields(a: AreaDraft): (string, string, int)
  {
    (a.name, a.description, a.priority)
  }

  function AreaFields(a: SupportArea): (string, string, int)
  {
    (a.name, a.description, a.priority)
  }

  lemma BuiltAreaFields(valid: seq<AreaDraft>, now: nat)
    ensures MapSeq(BuildAreas(valid, now), AreaFields) == MapSeq(valid, DraftFields)
  {
  }

  /** Mapping both lists keeps one a sub-sequence of the other. */
  lemma {:induction false} SubsequenceMaps<T, U>(a: seq<T>, b: seq<T>, f: T -> U)
    requires IsSubsequence(a, b)
    ensures IsSubsequence(MapSeq(a, f), MapSeq(b, f))
    decreases |b|
  {
    if a != [] {
      var fa, fb := MapSeq(a, f), MapSeq(b, f);
      assert fb[1..] == MapSeq(b[1..], f);
      if a[0] == b[0] && IsSubsequence(a[1..], b[1..]) {
        SubsequenceMaps(a[1..], b[1..], f);
        assert fa[1..] == MapSeq(a[1..], f);
      } else {
        SubsequenceMaps(a, b[1..], f);
      }
    }
  }

  // ---------------------------------------------------------------------------
  // The form
  // ---------------------------------------------------------------------------

  class CreateDepartmentForm {
    var name: string
    var description: string
    var color: string
    var isActive: bool
    var areas: seq<AreaDraft>

    /** The list of rows is never empty. */
    predicate Valid()
      reads this
    {
      |areas| >= 1
    }

    /** The state the form opens in and returns to after a submit. */
    predicate IsFresh()
      reads this
    {
      name == "" && description == "" && color == DefaultColor && isActive && areas == [BlankArea()]
    }

    constructor ()
      ensures Valid() && IsFresh()
    {
      name := "";
      description := "";
      color := DefaultColor;
      isActive := true;
      areas := [BlankArea()];
    }

    /** The inputs bound to `formData`: name, colour, description, active. */
    method SetFields(n: string, d: string, c: string, active: bool)
      requires Valid()
      modifies this
      ensures Valid() && name == n && description == d && color == c && isActive == active
      ensures areas == old(areas)
    {
      name, description, color, isActive := n, d, c, active;
    }

    /** `addSupportArea`: a blank row at the end. */
    method AddSupportArea()
      requires Valid()
      modifies this
      ensures Valid() && areas == old(areas) + [BlankArea()]
      ensures name == old(name) && description == old(description) && color == old(color)
      ensures isActive == old(isActive)
    {
      areas := areas + [BlankArea()];
    }

    /** `removeSupportArea`: does nothing to the last remaining row. */
    method RemoveSupportArea(index: int)
      requires Valid()
      modifies this
      ensures Valid()
      ensures areas == if |old(areas)| > 1 then RemoveIndex(old(areas), index) else old(areas)
      ensures name == old(name) && description == old(description) && color == old(color)
      ensures isActive == old(isActive)
    {
      if |areas| > 1 {
        RemoveIndexKeepsRest(areas, index);
        areas := RemoveIndex(areas, index);
      }
    }

    /** `updateSupportArea`: one field of the row at `index`. */
    method UpdateSupportArea(index: int, edit: AreaEdit)
      requires Valid()
      modifies this
      ensures Valid() && areas == UpdateAt(old(areas), index, a => EditArea(a, edit))
      ensures name == old(name) && description == old(description) && color == old(color)
      ensures isActive == old(isActive)
    {
      areas := UpdateAt(areas, index, a => EditArea(a, edit));
    }

    /** `handleSubmit` at time `now`: on a refusal the form is left as it
        is; otherwise the department is handed over and the form reset. */
    method Submit(now: nat) returns (r: Result<NewDepartment>)
      requires Valid()
      modifies this
      ensures Valid()
      ensures r == SubmitDepartment(old(name), old(description), old(color), old(isActive), old(areas), now)
      ensures r.Err? ==>
        (name == old(name) && description == old(description) && color == old(color)
         && isActive == old(isActive) && areas == old(areas))
      ensures r.Ok? ==> IsFresh()
    {
      r := SubmitDepartment(name, description, color, isActive, areas, now);
      if r.Ok? {
        Reset();
      }
    }

    /** The reset after a successful submit. */
    method Reset()
      modifies this
      ensures Valid() && IsFresh()
    {
      name := "";
      description := "";
      color := DefaultColor;
      isActive := true;
      areas := [BlankArea()];
    }
  }
}
