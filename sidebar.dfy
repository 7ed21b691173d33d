/** The navigation menu (src/components/Layout/Sidebar.tsx): ten fixed
    entries, some restricted to a list of roles, filtered by the role of the
    signed-in user. */
module Sidebar {
  import opened Common
  import opened Domain

  /** One entry; `roles` is absent for entries everybody sees. The source
      lists roles by their literals; the model lists the roles themselves. */
  datatype SidebarItem = SidebarItem(name: string, path: string, roles: Option<seq<Role>>)

  /** `sidebarItems`, in menu order: four entries for everybody, then
      "Usuarios", "Departamentos" and "AI Assistant", then three entries for
      administrators. */
  function SidebarItems(): seq<SidebarItem>
  {
    OpenItems() + MiddleItems() + AdminItems()
  }

  function OpenItems(): seq<SidebarItem>
  {
    [SidebarItem("Dashboard", "/", None),
     SidebarItem("Tickets", "/tickets", None),
     SidebarItem("Base de Conocimientos", "/knowledge", None),
     SidebarItem("Informes", "/reports", None)]
  }

  function MiddleItems(): seq<SidebarItem>
  {
    [SidebarItem("Usuarios", "/users", Some([Admin, Technician])),
     SidebarItem("Departamentos", "/departments", Some([Admin])),
     SidebarItem("AI Assistant", "/ai", None)]
  }

  function AdminItems(): seq<SidebarItem>
  {
    [SidebarItem("Correo Electrónico", "/email", Some([Admin])),
     SidebarItem("Seguridad", "/security", Some([Admin])),
     SidebarItem("Configuración", "/settings", Some([Admin]))]
  }

  /** `user?.role || ''`: no role when nobody is signed in. */
  function RoleOf(user: Option<User>): Option<Role>
  {
    if user.Some? then Some(user.value.role) else None
  }

  /** `!item.roles || item.roles.includes(role)`; the empty literal of a
      visitor is in no list. */
  predicate Visible(item: SidebarItem, role: Option<Role>)
  {
    item.roles.None? || (role.Some? && role.value in item.roles.value)
  }

  function VisibleTo(role: Option<Role>): SidebarItem -> bool
  {
    item => Visible(item, role)
  }

  /** `filteredItems`: the entries without a role list, and those whose list
      holds the user's role, in menu order. */
  function FilteredItems(user: Option<User>): (r: seq<SidebarItem>)
    ensures forall item :: item in r <==>
      item in SidebarItems() && (item.roles.None? || (user.Some? && user.value.role in item.roles.value))
    ensures IsSubsequence(r, SidebarItems())
  {
    FilterIsSubsequence(SidebarItems(), VisibleTo(RoleOf(user)));
    Filter(SidebarItems(), VisibleTo(RoleOf(user)))
  }

  /** The entry names shown, in order. */
  function Labels(items: seq<SidebarItem>): seq<string>
  {
    MapSeq(items, (item: SidebarItem) => item.name)
  }

  /** An administrator sees the whole menu. */
  lemma AdminSeesAll(user: User)
    requires user.role == Admin
    ensures FilteredItems(Some(user)) == SidebarItems()
  {
    MenuParts(VisibleTo(Some(Admin)));
    OpenForAll(Some(Admin));
    MiddleForAdmin();
    AdminForAdmin();
  }

  lemma MiddleForAdmin()
    ensures Filter(MiddleItems(), VisibleTo(Some(Admin))) == MiddleItems()
  {
    var m, p := MiddleItems(), VisibleTo(Some(Admin));
    assert forall k :: 0 <= k < |m| ==> p(m[k]);
    FilterKeepsAll(m, p);
  }

  lemma AdminForAdmin()
    ensures Filter(AdminItems(), VisibleTo(Some(Admin))) == AdminItems()
  {
    var a, p := AdminItems(), VisibleTo(Some(Admin));
    assert forall k :: 0 <= k < |a| ==> p(a[k]);
    FilterKeepsAll(a, p);
  }

  /** A technician sees six entries: the open ones, "Usuarios" and
      "AI Assistant". */
  lemma TechnicianSeesSix(user: User)
    requires user.role == Technician
    ensures FilteredItems(Some(user)) == OpenItems() + [MiddleItems()[0], MiddleItems()[2]]
    ensures Labels(FilteredItems(Some(user)))
      == ["Dashboard", "Tickets", "Base de Conocimientos", "Informes", "Usuarios", "AI Assistant"]
  {
    var p := VisibleTo(Some(Technician));
    MenuParts(p);
    OpenForAll(Some(Technician));
    MiddleForTechnician();
    AdminOnly(Some(Technician));
    var r := OpenItems() + [MiddleItems()[0], MiddleItems()[2]];
    assert FilteredItems(Some(user)) == r;
    LabelsOfOpenAnd(MiddleItems()[0], MiddleItems()[2]);
  }

  /** A plain user, and a visitor nobody is signed in as, see the four open
      entries and "AI Assistant". */
  lemma OthersSeeFive(user: Option<User>)
    requires user.None? || user.value.role == EndUser
    ensures FilteredItems(user) == OpenItems() + [MiddleItems()[2]]
    ensures Labels(FilteredItems(user)) == ["Dashboard", "Tickets", "Base de Conocimientos", "Informes", "AI Assistant"]
  {
    var p := VisibleTo(RoleOf(user));
    MenuParts(p);
    OpenForAll(RoleOf(user));
    MiddleForOthers(RoleOf(user));
    AdminOnly(RoleOf(user));
    var r := OpenItems() + [MiddleItems()[2]];
    assert FilteredItems(user) == r;
    LabelsOfOpenAnd1(MiddleItems()[2]);
  }

  lemma OpenForAll(role: Option<Role>)
    ensures Filter(OpenItems(), VisibleTo(role)) == OpenItems()
  {
    var o := OpenItems();
    assert forall k :: 0 <= k < |o| ==> o[k].roles.None?;
    FilterKeepsAll(o, VisibleTo(role));
  }

  lemma AdminOnly(role: Option<Role>)
    requires role != Some(Admin)
    ensures Filter(AdminItems(), VisibleTo(role)) == []
  {
    var a := AdminItems();
    assert forall k :: 0 <= k < |a| ==> a[k].roles == Some([Admin]);
    FilterNone(a, VisibleTo(role));
  }

  lemma MiddleForTechnician()
    ensures Filter(MiddleItems(), VisibleTo(Some(Technician))) == [MiddleItems()[0], MiddleItems()[2]]
  {
    var m := MiddleItems();
    var p := VisibleTo(Some(Technician));
    assert p(m[0]) && !p(m[1]) && p(m[2]);
    assert m[1..][1..] == [m[2]];
    assert m[2..][1..] == [];
  }

  lemma MiddleForOthers(role: Option<Role>)
    requires role.None? || role == Some(EndUser)
    ensures Filter(MiddleItems(), VisibleTo(role)) == [MiddleItems()[2]]
  {
    var m := MiddleItems();
    var p := VisibleTo(role);
    assert !p(m[0]) && !p(m[1]) && p(m[2]);
    assert m[1..][1..] == [m[2]];
    assert m[2..][1..] == [];
  }

  lemma LabelsOfOpenAnd(a: SidebarItem, b: SidebarItem)
    ensures Labels(OpenItems() + [a, b]) == ["Dashboard", "Tickets", "Base de Conocimientos", "Informes", a.name, b.name]
  {
  }

  lemma LabelsOfOpenAnd1(a: SidebarItem)
    ensures Labels(OpenItems() + [a]) == ["Dashboard", "Tickets", "Base de Conocimientos", "Informes", a.name]
  {
  }

  lemma MenuParts(p: SidebarItem -> bool)
    ensures Filter(SidebarItems(), p) == Filter(OpenItems(), p) + Filter(MiddleItems(), p) + Filter(AdminItems(), p)
  {
    FilterAppend(OpenItems() + MiddleItems(), AdminItems(), p);
    FilterAppend(OpenItems(), MiddleItems(), p);
  }

  lemma FilterNone(items: seq<SidebarItem>, p: SidebarItem -> bool)
    requires forall k :: 0 <= k < |items| ==> !p(items[k])
    ensures Filter(items, p) == []
  {
  }

  /** Entries without a role list are shown to everybody, and a technician's
      menu is part of an administrator's. */
  lemma OpenItemsAlwaysShown(user: Option<User>, admin: User, technician: User)
    requires admin.role == Admin && technician.role == Technician
    ensures forall item :: item in SidebarItems() && item.roles.None? ==> item in FilteredItems(user)
    ensures IsSubsequence(FilteredItems(Some(technician)), FilteredItems(Some(admin)))
  {
    AdminSeesAll(admin);
  }
}
