/** The dashboard page: who may see it, what it renders while the session
    is resolving, and which tabs a contributor and an admin get. */
module Dashboard {
  import opened Common
  import opened Lists

  /** The dashboard's tabs. */
  datatype Tab = AnalyticsTab | UploadTab | MyContentTab | PendingTab | PendingAnswersTab | AllContentTab | UsersTab

  /** The `value` of a tab's trigger and content. */
  function TabId(t: Tab): string {
    match t
    case AnalyticsTab => "analytics"
    case UploadTab => "upload"
    case MyContentTab => "my-content"
    case PendingTab => "pending"
    case PendingAnswersTab => "pending-answers"
    case AllContentTab => "all-content"
    case UsersTab => "users"
  }

  /** No two tabs share a value. */
  lemma TabIdInjective(a: Tab, b: Tab)
    ensures TabId(a) == TabId(b) <==> a == b
  {
  }

  /** The part of the auth context the page reads. */
  datatype Session = Session(user: Option<Account>, role: Option<Role>, loading: bool)

  /** A signed-in contributor or admin. */
  predicate Allowed(s: Session) {
    s.user.Some? && IsStaff(s.role)
  }

  /** The effect that navigates to `/login`. */
  predicate RedirectsToLogin(s: Session) {
    !s.loading && !Allowed(s)
  }

  /** What the page renders. */
  datatype Page = Spinner | Nothing | TabbedDashboard(defaultTab: Tab, tabs: seq<Tab>)

  /** The tabs, in order; the tab contents are rendered for the same set. */
  function TabsFor(isAdmin: bool): (tabs: seq<Tab>)
    ensures Distinct(tabs)
  {
    if isAdmin then [AnalyticsTab, UploadTab, MyContentTab, PendingTab, PendingAnswersTab, AllContentTab, UsersTab]
    else [UploadTab, MyContentTab]
  }

  function Render(s: Session): Page {
    if s.loading then Spinner
    else if !Allowed(s) then Nothing
    else
      var isAdmin := s.role == Some(Admin);
      TabbedDashboard(if isAdmin then AnalyticsTab else UploadTab, TabsFor(isAdmin))
  }

  /** While the session loads the page shows a spinner and does not
      redirect; once loaded it shows the dashboard exactly when a
      contributor or an admin is signed in, and otherwise redirects and
      renders nothing. */
  lemma AccessRule(s: Session)
    ensures s.loading ==> Render(s) == Spinner && !RedirectsToLogin(s)
    ensures !s.loading ==> (Render(s).TabbedDashboard? <==> s.user.Some? && (s.role == Some(Contributor) || s.role == Some(Admin)))
    ensures RedirectsToLogin(s) <==> Render(s) == Nothing
  {
  }

  /** A contributor gets the upload and my-content tabs and opens on
      upload; an admin gets those and analytics, pending, pending-answers,
      all-content and users, and opens on analytics. The opening tab is
      always one of the tabs, and no tab appears twice. */
  lemma TabsRule(s: Session, t: Tab)
    requires Render(s).TabbedDashboard?
    ensures var p := Render(s);
      && p.defaultTab in p.tabs
      && Distinct(p.tabs)
      && (s.role == Some(Admin) ==> p.defaultTab == AnalyticsTab && t in p.tabs)
      && (s.role == Some(Contributor) ==> p.defaultTab == UploadTab && (t in p.tabs <==> t == UploadTab || t == MyContentTab))
  {
  }
}
