/** The dashboard's side menu: a content-management group for everyone on
    the dashboard and an administration group for admins, the role label
    in the header, and the active-item rule. */
module DashboardMenu {
  import opened Common
  import opened Lists
  import opened Dashboard

  /** A menu entry; `id` is the tab it selects. */
  datatype MenuItem = MenuItem(id: string, title: string)

  const ContributorItems: seq<MenuItem> := [
    MenuItem("upload", "Upload Content"),
    MenuItem("my-content", "My Content")
  ]

  const AdminItems: seq<MenuItem> := [
    MenuItem("analytics", "Analytics"),
    MenuItem("pending", "Pending Content"),
    MenuItem("pending-answers", "Pending Q&A"),
    MenuItem("all-content", "All Content"),
    MenuItem("users", "User Management")
  ]

  /** The ids of a list of items, in order. */
  function Ids(items: seq<MenuItem>): (ids: seq<string>)
    ensures |ids| == |items|
    ensures forall i :: 0 <= i < |items| ==> ids[i] == items[i].id
  {
    seq(|items|, i requires 0 <= i < |items| => items[i].id)
  }

  /** The header's role label. */
  function HeaderLabel(role: Option<Role>): string {
    if role == Some(Admin) then "Admin" else "Contributor"
  }

  /** The groups rendered, in order. */
  function Groups(role: Option<Role>): seq<seq<MenuItem>> {
    [ContributorItems] + (if role == Some(Admin) then [AdminItems] else [])
  }

  /** Every item rendered. */
  function Visible(role: Option<Role>): seq<MenuItem> {
    ContributorItems + (if role == Some(Admin) then AdminItems else [])
  }

  /** `isActive={activeTab === item.id}`. */
  predicate IsActive(item: MenuItem, activeTab: string) {
    activeTab == item.id
  }

  /** `onClick={() => onTabChange(item.id)}`: the tab a click reports. */
  function Clicked(item: MenuItem): string {
    item.id
  }

  /** The contributor items are always shown and the admin items exactly
      for admins; the label says "Admin" exactly for admins. */
  lemma GroupsRule(role: Option<Role>, item: MenuItem)
    ensures Groups(role)[0] == ContributorItems
    ensures AdminItems in Groups(role) <==> role == Some(Admin)
    ensures item in Visible(role) <==> item in ContributorItems || (role == Some(Admin) && item in AdminItems)
    ensures HeaderLabel(role) == "Admin" <==> role == Some(Admin)
    ensures HeaderLabel(role) != "Admin" ==> HeaderLabel(role) == "Contributor"
  {
    assert "Contributor" != "Admin";
    if role != Some(Admin) {
      assert AdminItems != ContributorItems by {
        assert |AdminItems| != |ContributorItems|;
      }
    }
  }

  /** No id occurs twice across the two groups. */
  lemma IdsDistinct()
    ensures Distinct(Ids(ContributorItems + AdminItems))
  {
  }

  /** Each item selects the dashboard tab of the same value: the admin's
      menu covers exactly the admin's tabs, and the contributor group
      exactly the contributor's. */
  lemma ItemsAreTabs(t: Tab)
    ensures TabId(t) in Ids(Visible(Some(Admin))) <==> t in TabsFor(true)
    ensures TabId(t) in Ids(ContributorItems) <==> t in TabsFor(false)
    ensures forall i :: 0 <= i < |Visible(Some(Admin))| ==>
      exists u :: u in TabsFor(true) && TabId(u) == Visible(Some(Admin))[i].id
  {
    var ids := Ids(Visible(Some(Admin)));
    assert ids == ["upload", "my-content", "analytics", "pending", "pending-answers", "all-content", "users"];
    assert TabId(UploadTab) == ids[0] && TabId(MyContentTab) == ids[1] && TabId(AnalyticsTab) == ids[2]
      && TabId(PendingTab) == ids[3] && TabId(PendingAnswersTab) == ids[4] && TabId(AllContentTab) == ids[5]
      && TabId(UsersTab) == ids[6];
  }

  /** Once the parent takes the reported id as its active tab, the clicked
      item is active and no other visible item is. */
  lemma ClickActivatesOne(role: Option<Role>, i: nat, j: nat)
    requires i < |Visible(role)| && j < |Visible(role)|
    ensures IsActive(Visible(role)[j], Clicked(Visible(role)[i])) <==> i == j
  {
    IdsDistinct();
    var all := ContributorItems + AdminItems;
    assert Visible(role) == all[..|Visible(role)|];
    assert Ids(all)[i] == Visible(role)[i].id && Ids(all)[j] == Visible(role)[j].id;
  }
}
