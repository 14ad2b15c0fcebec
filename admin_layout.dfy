/**
 * The admin shell: the permission check that filters the side navigation,
 * the expandable-menu toggle, and the title shown over each admin page.
 */
module AdminLayout {
  import opened Wrappers
  import opened Text
  import opened Lists

  /** The stored admin session; only its permissions matter here. */
  datatype AdminSession = AdminSession(email: string, role: string, permissions: seq<string>)

  /**
   * `hasPermission`: no session, no access; no (or an empty) requirement, access;
   * a `*` session passes everything; otherwise one shared permission is enough.
   */
  function HasPermission(session: Option<AdminSession>, required: Option<seq<string>>): (ok: bool)
    ensures session.None? ==> !ok
    ensures session.Some? && (required.None? || required.value == []) ==> ok
    ensures session.Some? && "*" in session.value.permissions ==> ok
    ensures ok <==> session.Some? &&
                    (required.None? || required.value == [] ||
                     "*" in session.value.permissions ||
                     exists i :: 0 <= i < |required.value| && required.value[i] in session.value.permissions)
  {
    if session.None? then false
    else if required.None? || |required.value| == 0 then true
    else "*" in session.value.permissions ||
         exists i | 0 <= i < |required.value| :: required.value[i] in session.value.permissions
  }

  /** More permissions never take access away. */
  lemma MorePermissionsMoreAccess(a: AdminSession, b: AdminSession, required: Option<seq<string>>)
    requires forall p :: p in a.permissions ==> p in b.permissions
    requires HasPermission(Some(a), required)
    ensures HasPermission(Some(b), required)
  {
    if required.Some? && required.value != [] && "*" !in a.permissions {
      var i :| 0 <= i < |required.value| && required.value[i] in a.permissions;
      assert required.value[i] in b.permissions;
    }
  }

  datatype NavItem = NavItem(caption: string, href: string, requiredPermissions: Option<seq<string>>)

  const NavItems: seq<NavItem> := [
    NavItem("Dashboard Home", "/admin/dashboard", None),
    NavItem("Cube & Brand Logos", "/admin/cube-logos", Some(["settings:edit", "settings:view"])),
    NavItem("Quiz Management", "/admin/quiz", Some(["quiz:view", "quiz:create"])),
    NavItem("Ads Management", "/admin/ads", Some(["ads:view", "ads:upload"])),
    NavItem("Submissions & Commentary", "/admin/submissions", Some(["submissions:view", "submissions:approve"])),
    NavItem("Users Management", "/admin/users", Some(["users:view", "users:manage"])),
    NavItem("Payouts", "/admin/payouts", Some(["payouts:view", "payouts:process"])),
    NavItem("Audit Logs", "/admin/audit-logs", Some(["logs:view"])),
    NavItem("Admin Management", "/admin/settings", Some(["*"]))
  ]

  const AdminManagement: NavItem := NavItems[8]

  predicate Permitted(session: Option<AdminSession>, item: NavItem) {
    HasPermission(session, item.requiredPermissions)
  }

  /** `filteredNavItems`. */
  function FilteredNavItems(session: Option<AdminSession>): (r: seq<NavItem>)
  {
    Filter(NavItems, item => Permitted(session, item))
  }

  /**
   * The visible navigation is exactly the permitted items, in their fixed
   * order; with no session it is empty.
   */
  lemma FilteredNavItemsSpec(session: Option<AdminSession>)
    ensures var r := FilteredNavItems(session);
            IsSubsequence(r, NavItems) &&
            (forall i :: 0 <= i < |r| ==> Permitted(session, r[i])) &&
            (forall i :: 0 <= i < |NavItems| && Permitted(session, NavItems[i]) ==> NavItems[i] in r)
    ensures session.None? ==> FilteredNavItems(session) == []
  {
    FilterIsSubsequence(NavItems, item => Permitted(session, item));
    if session.None? {
      FilterKeepsNone(NavItems, item => Permitted(session, item));
    }
  }

  /** "Admin Management" is shown exactly to sessions holding `*`. */
  lemma AdminManagementOnlyForStar(session: Option<AdminSession>)
    ensures AdminManagement in FilteredNavItems(session) <==>
              session.Some? && "*" in session.value.permissions
  {
    var r := FilteredNavItems(session);
    if AdminManagement in r {
      var i :| 0 <= i < |r| && r[i] == AdminManagement;
      assert Permitted(session, r[i]);
    }
    if session.Some? && "*" in session.value.permissions {
      assert Permitted(session, NavItems[8]);
    }
  }

  /** Every session sees "Dashboard Home". */
  lemma DashboardAlwaysShown(session: AdminSession)
    ensures NavItems[0] in FilteredNavItems(Some(session))
  {
    assert Permitted(Some(session), NavItems[0]);
  }

  /** `toggleMenu`: an expanded menu is collapsed (every copy removed), another is appended. */
  function ToggleMenu(expanded: seq<string>, menu: string): (r: seq<string>)
    ensures menu in r <==> menu !in expanded
    ensures forall m :: m != menu ==> (m in r <==> m in expanded)
  {
    if menu in expanded then Filter(expanded, m => m != menu)
    else expanded + [menu]
  }

  /** Toggling a collapsed menu twice restores the list. */
  lemma ToggleTwiceRestores(expanded: seq<string>, menu: string)
    requires menu !in expanded
    ensures ToggleMenu(ToggleMenu(expanded, menu), menu) == expanded
  {
    var keep := (m: string) => m != menu;
    var once := expanded + [menu];
    assert once[..|once| - 1] == expanded;
    FilterKeepsAll(expanded, keep);
  }

  /** Toggling an expanded menu twice moves it to the end of the list. */
  lemma ToggleTwiceMovesToEnd(expanded: seq<string>, menu: string)
    requires menu in expanded
    ensures ToggleMenu(ToggleMenu(expanded, menu), menu) == Filter(expanded, m => m != menu) + [menu]
  {
  }

  // ---------------------------------------------------------------------------
  // Header title
  // ---------------------------------------------------------------------------

  /** `pathname.split('/').pop()`. */
  function LastSegment(path: string): string {
    var parts := Split(path, '/');
    parts[|parts| - 1]
  }

  /** The last segment is the slash-free tail of the path, after its last `/`. */
  lemma {:induction false} LastSegmentSpec(path: string)
    ensures var seg := LastSegment(path);
            '/' !in seg && |seg| <= |path| && path[|path| - |seg|..] == seg &&
            (|seg| < |path| ==> path[|path| - |seg| - 1] == '/')
    decreases |path|
  {
    if '/' in path {
      var i := FirstIndex(path, '/');
      LastSegmentSpec(path[i + 1..]);
      LastSegmentSkipsFirst(path);
      TailOfTail(path, i, LastSegment(path[i + 1..]));
    }
  }

  /** The last segment of a path is the last segment of what follows its first slash. */
  lemma LastSegmentSkipsFirst(path: string)
    requires '/' in path
    ensures LastSegment(path) == LastSegment(path[FirstIndex(path, '/') + 1..])
  {
    SplitKeepsLast(path, '/');
  }

  /** A tail of what follows a slash, preceded by a slash or by that one, is such a tail of the whole path. */
  lemma TailOfTail(path: string, i: int, seg: string)
    requires 0 <= i < |path| && path[i] == '/'
    requires |seg| <= |path| - i - 1 && path[i + 1..][|path| - i - 1 - |seg|..] == seg
    requires |seg| < |path| - i - 1 ==> path[i + 1..][|path| - i - 1 - |seg| - 1] == '/'
    ensures |seg| <= |path| && path[|path| - |seg|..] == seg
    ensures |seg| < |path| ==> path[|path| - |seg| - 1] == '/'
  {
    assert path[|path| - |seg|..] == path[i + 1..][|path| - i - 1 - |seg|..];
  }

  /** The segment after the last slash, however the path before it looks. */
  lemma LastSegmentAfterSlash(dir: string, seg: string)
    requires '/' !in seg
    ensures LastSegment(dir + "/" + seg) == seg
  {
    var path := dir + "/" + seg;
    LastSegmentSpec(path);
    var s := LastSegment(path);
    assert path[|dir|] == '/';
    forall j | |path| - |s| <= j < |path|
      ensures path[j] != '/'
    {
      assert path[j] == s[j - (|path| - |s|)];
    }
    forall j | |path| - |seg| <= j < |path|
      ensures path[j] != '/'
    {
      assert path[j] == seg[j - (|path| - |seg|)];
    }
    assert path[|path| - |seg|..] == seg;
  }

  /**
   * The page title: the last path segment, upper-cased, with its first `-`
   * made a space; `DASHBOARD` when that segment is empty.
   */
  function HeaderTitle(path: string): (title: string)
    ensures LastSegment(path) == "" ==> title == "DASHBOARD"
    ensures var seg := LastSegment(path);
            seg != "" ==>
              |title| == |seg| &&
              forall i :: 0 <= i < |seg| ==>
                title[i] == (if seg[i] == '-' && '-' !in seg[..i] then ' ' else UpperChar(seg[i]))
  {
    var t := ToUpper(ReplaceFirst(LastSegment(path), '-', ' '));
    if t == "" then "DASHBOARD" else t
  }

  /** A path ending in a slash has the default title. */
  lemma TrailingSlashIsDashboard(dir: string)
    ensures HeaderTitle(dir + "/") == "DASHBOARD"
  {
    LastSegmentAfterSlash(dir, "");
    assert dir + "/" + "" == dir + "/";
  }

  /** Only the first dash becomes a space. */
  lemma SecondDashIsKept(dir: string)
    ensures HeaderTitle(dir + "/a-b-c") == "A B-C"
  {
    var seg := "a-b-c";
    LastSegmentAfterSlash(dir, seg);
    assert dir + "/a-b-c" == dir + "/" + seg;
    assert FirstIndex(seg, '-') == 1;
    var r := ReplaceFirst(seg, '-', ' ');
    assert r == "a b-c";
    assert ToUpper(r) == "A B-C";
  }
}
