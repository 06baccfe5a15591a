/** The side menu (`Sidebar` in Header.tsx): which entries a user sees, and which one is active. */
module Sidebar {
  import opened Wrappers
  import Lists

  datatype MenuItem = MenuItem(href: string, text: string, icon: string)

  const EmpresasHref: string := "/empresas"

  /** The company id of the administrator of all companies. */
  const AdminId: int := -99

  /** The menu in declared order. */
  const MenuItems: seq<MenuItem> := [
    MenuItem("/panel", "Panel de Inicio", "dashboard"),
    MenuItem("/ventas", "Ventas", "attach_money"),
    MenuItem(EmpresasHref, "Empresas", "cases"),
    MenuItem("/eventos", "Eventos", "celebration"),
    MenuItem("/premios", "Premios", "featured_seasonal_and_gifts"),
    MenuItem("/sortear", "Sortear", "casino")
  ]

  /** The entry is hidden when it is "/empresas" and the user is not the administrator (or unknown). */
  predicate IsShown(item: MenuItem, adminId: Option<int>) {
    !(item.href == EmpresasHref && adminId != Some(AdminId))
  }

  /** `menuItems.filter(...)` */
  function VisibleMenu(adminId: Option<int>): (items: seq<MenuItem>)
    ensures Lists.IsSubsequence(items, MenuItems)
  {
    Lists.Filter(MenuItems, item => IsShown(item, adminId))
  }

  /** `pathname === item.href` */
  predicate IsActive(pathname: string, item: MenuItem) {
    pathname == item.href
  }

  /** The administrator sees all six entries in declared order. */
  lemma AdminSeesAll()
    ensures VisibleMenu(Some(AdminId)) == MenuItems
  {
    Lists.FilterAll(MenuItems, item => IsShown(item, Some(AdminId)));
  }

  /** Everybody else, including a user whose token gave no id, sees the other five in order. */
  lemma OthersMissEmpresas(adminId: Option<int>)
    requires adminId != Some(AdminId)
    ensures VisibleMenu(adminId) == MenuItems[..2] + MenuItems[3..]
  {
    Lists.FilterAllBut(MenuItems, item => IsShown(item, adminId), 2);
  }

  /** No two entries share a link. */
  lemma HrefsDistinct()
    ensures forall i, j :: 0 <= i < j < |MenuItems| ==> MenuItems[i].href != MenuItems[j].href
  {
  }

  /** At most one visible entry is active for any path. */
  lemma AtMostOneActive(pathname: string, adminId: Option<int>)
    ensures forall i, j :: 0 <= i < j < |VisibleMenu(adminId)| ==>
      !(IsActive(pathname, VisibleMenu(adminId)[i]) && IsActive(pathname, VisibleMenu(adminId)[j]))
  {
    var items := VisibleMenu(adminId);
    HrefsDistinct();
    if adminId == Some(AdminId) {
      AdminSeesAll();
    } else {
      OthersMissEmpresas(adminId);
      // entry i of the shorter menu is entry i, or i + 1 past "/empresas", of the full one
      forall i, j | 0 <= i < j < |items| ensures items[i].href != items[j].href {
        var i', j' := if i < 2 then i else i + 1, if j < 2 then j else j + 1;
        assert items[i] == MenuItems[i'] && items[j] == MenuItems[j'];
      }
    }
  }

  /** Whether an entry shows depends on the user only for "/empresas". */
  lemma OnlyEmpresasDependsOnAdmin(item: MenuItem, a: Option<int>, b: Option<int>)
    requires item.href != EmpresasHref
    ensures IsShown(item, a) && IsShown(item, b)
  {
  }
}
