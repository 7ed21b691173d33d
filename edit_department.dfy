/** The form that edits a department
    (src/components/Departments/EditDepartmentModal.tsx). Opening it on a
    department copies the department's fields into the form, showing each
    area's keywords joined with ", "; submitting keeps the rows with a
    non-blank name, keeps each row's id (a row added in the form gets a fresh
    one), parses the keyword text back and hands the fields to
    `updateDepartment`. */
module EditDepartment {
  import opened Common
  import opened Domain
  import CreateDepartment

  /** One support-area row; `id` is "" for a row added in the form. */
  datatype AreaRow = AreaRow(id: string, name: string, description: string, keywords: string, priority: int)

  function BlankRow(): AreaRow
  {
    AreaRow("", "", "", "", 1)
  }

  /** The row shown for an existing area. */
  function LoadRow(a: SupportArea): (r: AreaRow)
    ensures r.id == a.id && r.name == a.name && r.description == a.description && r.priority == a.priority
  {
    AreaRow(a.id, a.name, a.description, Join(a.keywords, ", "), a.priority)
  }

  /** `updateSupportArea(index, field, value)`, with the edits of the
      create form. */
  function EditRow(row: AreaRow, edit: CreateDepartment.AreaEdit): (r: AreaRow)
    ensures r.id == row.id
    ensures edit.SetAreaName? ==> r == row.(name := edit.name)
    ensures edit.SetAreaDescription? ==> r == row.(description := edit.description)
    ensures edit.SetAreaKeywords? ==> r == row.(keywords := edit.keywords)
    ensures edit.SetAreaPriority? ==> r == row.(priority := edit.priority)
  {
    match edit
    case SetAreaName(n) => row.(name := n)
    case SetAreaDescription(d) => row.(description := d)
    case SetAreaKeywords(k) => row.(keywords := k)
    case SetAreaPriority(p) => row.(priority := p)
  }

  // ---------------------------------------------------------------------------
  // What a submit produces
  // ---------------------------------------------------------------------------

  predicate NamedRow(row: AreaRow)
  {
    Trim(row.name) != []
  }

  /** `supportAreas.filter(area => area.name.trim())`. */
  function ValidRows(rows: seq<AreaRow>): (r: seq<AreaRow>)
    ensures forall k :: 0 <= k < |r| ==> !AllSpace(r[k].name)
    ensures forall k :: 0 <= k < |rows| && !AllSpace(rows[k].name) ==> rows[k] in r
    ensures IsSubsequence(r, rows)
  {
    FilterIsSubsequence(rows, NamedRow);
    Filter(rows, NamedRow)
  }

  /** The area saved for a row: its own id when it has one, otherwise the
      fresh id `area_${Date.now()}_${Math.random()}` passed in. */
  function SavedArea(row: AreaRow, freshId: string): (r: SupportArea)
    ensures row.id != "" ==> r.id == row.id
    ensures row.id == "" ==> r.id == freshId
    ensures r.name == row.name && r.description == row.description && r.priority == row.priority
    ensures r.keywords == ParseCommaList(row.keywords)
  {
    SupportArea(if row.id != "" then row.id else freshId, row.name, row.description, ParseCommaList(row.keywords),
                row.priority)
  }

  /** `validAreas.map(area => ...)`; `freshIds(k)` is the id a row without
      one gets at position `k`, the clock and random source being outside the
      model. */
  function SavedAreas(valid: seq<AreaRow>, freshIds: nat -> string): (r: seq<SupportArea>)
    ensures |r| == |valid|
    ensures forall k :: 0 <= k < |r| ==> r[k] == SavedArea(valid[k], freshIds(k))
  {
    seq(|valid|, k requires 0 <= k < |valid| => SavedArea(valid[k], freshIds(k)))
  }

  const MissingFields := "Por favor completa todos los campos obligatorios"
  const NoAreas := "Debe tener al menos un área de soporte"

  /** `handleSubmit`: the id of the department to update and the fields
      handed to `updateDepartment`. */
  function SubmitEdit(name: string, description: string, color: string, isActive: bool, rows: seq<AreaRow>,
                      department: Option<Department>, freshIds: nat -> string): (r: Result<(string, DepartmentPatch)>)
    ensures r.Err? && (name == "" || description == "" || department.None?) ==> r.message == MissingFields
    ensures r.Ok? ==> department.Some? && r.value.0 == department.value.id
  {
    if name == "" || description == "" || department.None? then Err(MissingFields)
    else
      var valid := ValidRows(rows);
      if |valid| == 0 then Err(NoAreas)
      else
        Ok((department.value.id,
            DepartmentPatch(Some(name), Some(description), Some(color), Some(SavedAreas(valid, freshIds)),
                            Some(isActive))))
  }

  /** A submit goes through exactly when a department is open, the name and
      the description are filled in and some row has a non-blank name. */
  lemma SubmitEditOutcome(name: string, description: string, color: string, isActive: bool, rows: seq<AreaRow>,
                          department: Option<Department>, freshIds: nat -> string)
    ensures SubmitEdit(name, description, color, isActive, rows, department, freshIds).Ok?
      <==> (name != "" && description != "" && department.Some?
            && exists k :: 0 <= k < |rows| && !AllSpace(rows[k].name))
  {
    if exists k :: 0 <= k < |rows| && !AllSpace(rows[k].name) {
      var k :| 0 <= k < |rows| && !AllSpace(rows[k].name);
      assert rows[k] in ValidRows(rows);
    }
  }

  /** Every saved area that came from an existing area keeps that area's id. */
  lemma SubmitKeepsIds(name: string, description: string, color: string, isActive: bool, rows: seq<AreaRow>,
                       department: Option<Department>, freshIds: nat -> string)
    requires SubmitEdit(name, description, color, isActive, rows, department, freshIds).Ok?
    ensures var areas := SubmitEdit(name, description, color, isActive, rows, department, freshIds).value.1
                           .supportAreas.value;
      var valid := ValidRows(rows);
      |areas| == |valid| >= 1 && forall k :: 0 <= k < |areas| && valid[k].id != "" ==> areas[k].id == valid[k].id
  {
  }

  // ---------------------------------------------------------------------------
  // Opening a department and saving it unchanged
  // ---------------------------------------------------------------------------

  /** The form's content after the load effect. */
  datatype Loaded = Loaded(name: string, description: string, color: string, isActive: bool, rows: seq<AreaRow>)

  function Load(d: Department): (r: Loaded)
    ensures |r.rows| == |d.supportAreas|
    ensures forall k :: 0 <= k < |r.rows| ==> r.rows[k] == LoadRow(d.supportAreas[k])
  {
    Loaded(d.name, d.description, d.color, d.isActive, MapSeq(d.supportAreas, LoadRow))
  }

  /** An area as the forms store it: an id, a non-blank name, keywords that
      are non-empty, trimmed and free of commas. */
  predicate WellFormedArea(a: SupportArea)
  {
    a.id != "" && !AllSpace(a.name)
    && forall m :: 0 <= m < |a.keywords| ==> a.keywords[m] != [] && Trimmed(a.keywords[m]) && ',' !in a.keywords[m]
  }

  /** Saving a row loaded from a well-formed area gives the area back. */
  lemma SaveLoadedRow(a: SupportArea, freshId: string)
    requires WellFormedArea(a)
    ensures SavedArea(LoadRow(a), freshId) == a
  {
    JoinThenParse(a.keywords);
  }

  /** Opening a department whose areas are well formed and submitting without
      touching anything writes the department back as it was. */
  lemma SubmitUnchangedIsIdentity(d: Department, freshIds: nat -> string)
    requires d.name != "" && d.description != ""
    requires |d.supportAreas| >= 1
    requires forall k :: 0 <= k < |d.supportAreas| ==> WellFormedArea(d.supportAreas[k])
    ensures var f := Load(d);
      var r := SubmitEdit(f.name, f.description, f.color, f.isActive, f.rows, Some(d), freshIds);
      r.Ok? && r.value.0 == d.id && ApplyDepartmentPatch(d, r.value.1) == d
  {
    var f := Load(d);
    LoadedRowsAllValid(d);
    LoadedRowsSaveBack(d, freshIds);
  }

  lemma LoadedRowsAllValid(d: Department)
    requires forall k :: 0 <= k < |d.supportAreas| ==> WellFormedArea(d.supportAreas[k])
    ensures ValidRows(Load(d).rows) == Load(d).rows
  {
    var rows := Load(d).rows;
    forall k | 0 <= k < |rows| ensures NamedRow(rows[k]) {
      assert rows[k].name == d.supportAreas[k].name;
    }
    FilterKeepsAll(rows, NamedRow);
  }

  lemma LoadedRowsSaveBack(d: Department, freshIds: nat -> string)
    requires forall k :: 0 <= k < |d.supportAreas| ==> WellFormedArea(d.supportAreas[k])
    ensures SavedAreas(Load(d).rows, freshIds) == d.supportAreas
  {
    var saved := SavedAreas(Load(d).rows, freshIds);
    forall k | 0 <= k < |saved| ensures saved[k] == d.supportAreas[k] {
      SaveLoadedRow(d.supportAreas[k], freshIds(k));
    }
  }

  // ---------------------------------------------------------------------------
  // The form
  // ---------------------------------------------------------------------------

  class EditDepartmentForm {
    var name: string
    var description: string
    var color: string
    var isActive: bool
    var rows: seq<AreaRow>

    constructor ()
      ensures name == "" && description == "" && color == CreateDepartment.DefaultColor && isActive
      ensures rows == [BlankRow()]
    {
      name := "";
      description := "";
      color := CreateDepartment.DefaultColor;
      isActive := true;
      rows := [BlankRow()];
    }

    /** The load effect: a department replaces the whole form, no department
        leaves it as it is. */
    method LoadDepartment(department: Option<Department>)
      modifies this
      ensures department.Some? ==> Loaded(name, description, color, isActive, rows) == Load(department.value)
      ensures department.None? ==>
        (name == old(name) && description == old(description) && color == old(color)
         && isActive == old(isActive) && rows == old(rows))
    {
      if department.Some? {
        var f := Load(department.value);
        name, description, color, isActive, rows := f.name, f.description, f.color, f.isActive, f.rows;
      }
    }

    /** The inputs bound to `formData`: name, colour, description, active. */
    method SetFields(n: string, d: string, c: string, active: bool)
      modifies this
      ensures name == n && description == d && color == c && isActive == active && rows == old(rows)
    {
      name, description, color, isActive := n, d, c, active;
    }

    /** `addSupportArea`: a blank row without an id at the end. */
    method AddSupportArea()
      modifies this
      ensures rows == old(rows) + [BlankRow()]
      ensures name == old(name) && description == old(description) && color == old(color)
      ensures isActive == old(isActive)
    {
      rows := rows + [BlankRow()];
    }

    /** `removeSupportArea`: does nothing when one row or none is left. */
    method RemoveSupportArea(index: int)
      modifies this
      ensures rows == if |old(rows)| > 1 then RemoveIndex(old(rows), index) else old(rows)
      ensures |old(rows)| > 1 ==> |rows| >= 1
      ensures name == old(name) && description == old(description) && color == old(color)
      ensures isActive == old(isActive)
    {
      if |rows| > 1 {
        RemoveIndexKeepsRest(rows, index);
        rows := RemoveIndex(rows, index);
      }
    }

    /** `updateSupportArea`: one field of the row at `index`; the row keeps
        its id. */
    method UpdateSupportArea(index: int, edit: CreateDepartment.AreaEdit)
      modifies this
      ensures rows == UpdateAt(old(rows), index, r => EditRow(r, edit))
      ensures name == old(name) && description == old(description) && color == old(color)
      ensures isActive == old(isActive)
    {
      rows := UpdateAt(rows, index, r => EditRow(r, edit));
    }

    /** `handleSubmit`: the form is not reset, only closed. */
    method Submit(department: Option<Department>, freshIds: nat -> string)
      returns (r: Result<(string, DepartmentPatch)>)
      ensures r == SubmitEdit(name, description, color, isActive, rows, department, freshIds)
    {
      r := SubmitEdit(name, description, color, isActive, rows, department, freshIds);
    }
  }
}
