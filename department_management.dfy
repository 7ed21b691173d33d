/** The department grid (src/components/Departments/DepartmentManagement.tsx):
    a search term chooses the departments shown; each card lists its
    technicians, shows its first three support areas and its first two
    technicians, and counts the ones it leaves out in a "+n más" label. */
module DepartmentManagement {
  import opened Common
  import opened Domain

  // ---------------------------------------------------------------------------
  // Filtering
  // ---------------------------------------------------------------------------

  /** The test of `filteredDepartments` for the lower-cased term `q`. */
  predicate Shown(d: Department, q: string)
  {
    Contains(Lower(d.name), q) || Contains(Lower(d.description), q)
  }

  function ShownTest(q: string): Department -> bool
  {
    d => Shown(d, q)
  }

  /** `filteredDepartments`: exactly the departments whose lower-cased name or
      description holds the lower-cased term, in the store's order. */
  function FilteredDepartments(departments: seq<Department>, term: string): (r: seq<Department>)
    ensures forall d :: d in r <==> d in departments && Shown(d, Lower(term))
    ensures IsSubsequence(r, departments)
  {
    FilterIsSubsequence(departments, ShownTest(Lower(term)));
    Filter(departments, ShownTest(Lower(term)))
  }

  /** An empty term shows every department. */
  lemma NoFilterShowsAll(departments: seq<Department>)
    ensures FilteredDepartments(departments, "") == departments
  {
    forall d | d in departments ensures Shown(d, "") {
      ContainsEmpty(Lower(d.name));
    }
    assert Lower("") == "";
    FilterKeepsAll(departments, ShownTest(""));
  }

  /** The search ignores the case of the term. */
  lemma TermCaseIgnored(departments: seq<Department>, term: string)
    ensures FilteredDepartments(departments, Lower(term)) == FilteredDepartments(departments, term)
  {
    LowerIdempotent(term);
  }

  // ---------------------------------------------------------------------------
  // Technicians of a department
  // ---------------------------------------------------------------------------

  predicate TechnicianOf(u: User, deptName: string)
  {
    u.role == Technician && u.department == Some(deptName)
  }

  /** `getDepartmentTechnicians(deptName)`: the technicians whose department
      is that name, in the store's order; a user without a department never
      counts. */
  function DepartmentTechnicians(users: seq<User>, deptName: string): (r: seq<User>)
    ensures forall u :: u in r <==> u in users && u.role == Technician && u.department == Some(deptName)
    ensures IsSubsequence(r, users)
  {
    FilterIsSubsequence(users, u => TechnicianOf(u, deptName));
    Filter(users, u => TechnicianOf(u, deptName))
  }

  /** A technician belongs to at most one department's list: the lists of two
      different names share no user. */
  lemma TechniciansOfDifferentDepartmentsDisjoint(users: seq<User>, a: string, b: string)
    requires a != b
    ensures forall u :: u in DepartmentTechnicians(users, a) ==> u !in DepartmentTechnicians(users, b)
  {
  }

  // ---------------------------------------------------------------------------
  // What a card shows
  // ---------------------------------------------------------------------------

  /** `+${n} más`. */
  function MoreLabel(n: nat): string
  {
    "+" + Dec(n) + " más"
  }

  /** Different counts give different labels. */
  lemma MoreLabelInjective(a: nat, b: nat)
    requires MoreLabel(a) == MoreLabel(b)
    ensures a == b
  {
    var la, lb := MoreLabel(a), MoreLabel(b);
    assert la[1..] == Dec(a) + [' '] + "más";
    assert lb[1..] == Dec(b) + [' '] + "más";
    DigitsBeforeMarker(Dec(a), Dec(b), ' ', "más", "más");
    DecInjective(a, b);
  }

  /** A list cut to its first `limit` entries, with the label counting the
      rest when there is any: `list.slice(0, limit)` and
      `list.length > limit && "+{list.length - limit} más"`. */
  function Abridged<T>(list: seq<T>, limit: nat): (r: (seq<T>, Option<string>))
    ensures r.0 <= list
    ensures |r.0| == if |list| < limit then |list| else limit
    ensures r.1.Some? <==> |list| > limit
  {
    (Take(list, limit), if |list| > limit then Some(MoreLabel(|list| - limit)) else None)
  }

  /** The label counts exactly the entries the card leaves out, so the
      entries shown and the label together account for the whole list. */
  lemma AbridgedAccountsForAll<T>(list: seq<T>, limit: nat)
    ensures var r := Abridged(list, limit);
      r.1.Some? ==> r.1.value == MoreLabel(|list| - |r.0|) && list == r.0 + list[|r.0|..]
    ensures var r := Abridged(list, limit);
      r.1.None? ==> r.0 == list
  {
  }

  /** The support areas of a card: the first three, and the count of the
      others. */
  function AreasOnCard(d: Department): (r: (seq<SupportArea>, Option<string>))
    ensures r.0 <= d.supportAreas && |r.0| == if |d.supportAreas| < 3 then |d.supportAreas| else 3
    ensures r.1.Some? <==> |d.supportAreas| > 3
    ensures r.1.Some? ==> r.1.value == MoreLabel(|d.supportAreas| - 3)
  {
    Abridged(d.supportAreas, 3)
  }

  /** The technicians section of a card: absent when the department has no
      technicians; otherwise the first two and the count of the others. */
  function TechniciansOnCard(users: seq<User>, d: Department): (r: Option<(seq<User>, Option<string>)>)
    ensures r.None? <==> DepartmentTechnicians(users, d.name) == []
    ensures var techs := DepartmentTechnicians(users, d.name);
      r.Some? ==> r.value.0 <= techs && |r.value.0| == if |techs| < 2 then |techs| else 2
    ensures var techs := DepartmentTechnicians(users, d.name);
      r.Some? ==> (r.value.1.Some? <==> |techs| > 2)
    ensures var techs := DepartmentTechnicians(users, d.name);
      r.Some? && r.value.1.Some? ==> r.value.1.value == MoreLabel(|techs| - 2)
  {
    var techs := DepartmentTechnicians(users, d.name);
    if |techs| > 0 then Some(Abridged(techs, 2)) else None
  }

  /** Every technician named on a card belongs to that department. */
  lemma TechniciansOnCardBelong(users: seq<User>, d: Department)
    requires TechniciansOnCard(users, d).Some?
    ensures forall u :: u in TechniciansOnCard(users, d).value.0 ==>
      u in users && u.role == Technician && u.department == Some(d.name)
  {
    var techs := DepartmentTechnicians(users, d.name);
    var shown := TechniciansOnCard(users, d).value.0;
    forall u | u in shown ensures u in techs {
      var k :| 0 <= k < |shown| && shown[k] == u;
      assert techs[k] == u;
    }
  }
}
