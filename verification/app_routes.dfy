/**
 * The application shell of `src/App.jsx`: the route table with its root
 * redirect, and the choice between the phone and desktop navigation bars
 * made by the width predicate of `src/hooks/usephone.js`.
 */
module AppRoutes {
  import opened Optional
  import NavItems
  import NfsNavbar

  datatype Page = ShopPage | DisplayPage | ExhaustPage | GaragePage | ManualPage

  /** What a route renders: a redirect to another path, or a page. */
  datatype Element = Redirect(to: string) | Render(page: Page)

  datatype Route = Route(path: string, element: Element)

  const ROUTES: seq<Route> := [
    Route("/", Redirect("/display")),
    Route("/shop", Render(ShopPage)),
    Route("/display", Render(DisplayPage)),
    Route("/exhaust", Render(ExhaustPage)),
    Route("/garage", Render(GaragePage)),
    Route("/manual", Render(ManualPage))
  ]

  /** The path each page is mounted at; an independent statement of the table's intent. */
  function PagePath(p: Page): string {
    match p
    case ShopPage => "/shop"
    case DisplayPage => "/display"
    case ExhaustPage => "/exhaust"
    case GaragePage => "/garage"
    case ManualPage => "/manual"
  }

  /** The element of the first route in `routes` whose path is `path`, if any. */
  function Lookup(routes: seq<Route>, path: string): (r: Option<Element>)
    ensures r.Some? <==> exists i :: 0 <= i < |routes| && routes[i].path == path
    ensures r.Some? ==> exists i :: 0 <= i < |routes| && routes[i] == Route(path, r.value)
  {
    if |routes| == 0 then None
    else if routes[0].path == path then Some(routes[0].element)
    else
      var r := Lookup(routes[1..], path);
      assert forall i :: 0 <= i < |routes| - 1 ==> routes[1..][i] == routes[i + 1];
      r
  }

  /** `<Routes>` matching a location against the table. */
  function Resolve(path: string): Option<Element> {
    Lookup(ROUTES, path)
  }

  /**
   * The page finally shown at `path`, following at most one redirect: a
   * page is shown exactly at its own path, and the display page also at
   * the root; every other path shows nothing.
   */
  function ShownPage(path: string): (r: Option<Page>)
    ensures r.Some? ==> path == PagePath(r.value) || (path == "/" && r.value == DisplayPage)
    ensures r.None? ==> path != "/" && forall p :: path != PagePath(p)
  {
    RedirectOnlyAtRoot(path);
    match Resolve(path)
    case None => None
    case Some(Render(p)) => PageRoutesExact(path, p); Some(p)
    case Some(Redirect(to)) =>
      PageRoutesExact("/display", DisplayPage);
      match Resolve(to)
      case Some(Render(p)) => Some(p)
      case _ => None
  }

  /** The only redirect is the root's, and a path no route matches is neither the root nor a page's path. */
  lemma RedirectOnlyAtRoot(path: string)
    ensures Resolve(path).Some? && Resolve(path).value.Redirect? ==> path == "/" && Resolve(path).value.to == "/display"
    ensures Resolve(path).None? ==> path != "/" && forall p :: path != PagePath(p)
  {
    forall p ensures Resolve(path).None? ==> path != PagePath(p) {
      PageRoutesExact(path, p);
    }
  }

  /** The route table has no duplicate path. */
  lemma RoutePathsDistinct()
    ensures forall i, j :: 0 <= i < j < |ROUTES| ==> ROUTES[i].path != ROUTES[j].path
  {
  }

  /** The root redirects to the display page. */
  lemma RootRedirectsToDisplay()
    ensures Resolve("/") == Some(Redirect("/display"))
    ensures ShownPage("/") == Some(DisplayPage)
  {
    assert ROUTES[2].path == "/display";
  }

  /** In a table without duplicate paths, each route's own path finds that route. */
  lemma {:induction false} LookupFindsRoute(routes: seq<Route>, i: int)
    requires 0 <= i < |routes|
    requires forall j, k :: 0 <= j < k < |routes| ==> routes[j].path != routes[k].path
    ensures Lookup(routes, routes[i].path) == Some(routes[i].element)
  {
    if i > 0 {
      assert routes[0].path != routes[i].path;
      LookupFindsRoute(routes[1..], i - 1);
    }
  }

  /** Each page's path resolves to exactly that page, and no other path renders a page. */
  lemma PageRoutesExact(path: string, p: Page)
    ensures Resolve(PagePath(p)) == Some(Render(p))
    ensures Resolve(path) == Some(Render(p)) ==> path == PagePath(p)
  {
    RoutePathsDistinct();
    var i := match p
      case ShopPage => 1
      case DisplayPage => 2
      case ExhaustPage => 3
      case GaragePage => 4
      case ManualPage => 5;
    assert ROUTES[i] == Route(PagePath(p), Render(p));
    LookupFindsRoute(ROUTES, i);
    if Resolve(path) == Some(Render(p)) {
      var j :| 0 <= j < |ROUTES| && ROUTES[j] == Route(path, Render(p));
      assert j == i;
    }
  }

  /** Every entry of the navigation table leads to a page, the one mounted at its path. */
  lemma NavTargetsHaveRoutes()
    ensures forall i :: 0 <= i < |NavItems.NAV_ITEMS| ==>
              ShownPage(NavItems.NAV_ITEMS[i].to).Some? &&
              PagePath(ShownPage(NavItems.NAV_ITEMS[i].to).value) == NavItems.NAV_ITEMS[i].to
  {
    var pages := [ShopPage, ExhaustPage, DisplayPage, GaragePage, ManualPage];
    forall i | 0 <= i < |NavItems.NAV_ITEMS|
      ensures ShownPage(NavItems.NAV_ITEMS[i].to) == Some(pages[i])
      ensures PagePath(pages[i]) == NavItems.NAV_ITEMS[i].to
    {
      assert NavItems.NAV_ITEMS[i].to == PagePath(pages[i]);
      PageRoutesExact(PagePath(pages[i]), pages[i]);
    }
  }

  /** Selecting any item of the 3D menu navigates to a path that shows a page. */
  lemma MenuSelectionShowsPage(idx: int)
    requires 0 <= idx < |NfsNavbar.Menu()|
    ensures ShownPage(NfsNavbar.HandleSelect(idx).navigateTo).Some?
  {
    NavTargetsHaveRoutes();
  }

  /** The "/showroom" link of the old navbar matches no route. */
  lemma ShowroomUnrouted()
    ensures Resolve("/showroom") == None
    ensures ShownPage("/showroom") == None
  {
    assert "/showroom"[1] == 's' && "/showroom"[2] == 'h';
    assert forall i :: 0 <= i < |ROUTES| ==> ROUTES[i].path != "/showroom";
  }

  /** `usePhone`: a viewport at most 768 pixels wide is a phone. */
  const PHONE_MAX_WIDTH := 768

  function IsPhone(width: int): (phone: bool)
    ensures width == 768 ==> phone
    ensures width == 769 ==> !phone
  {
    width <= PHONE_MAX_WIDTH
  }

  /** A narrower viewport than a phone's is a phone too; a wider one than a desktop's is a desktop. */
  lemma PhoneIsMonotone(narrower: int, wider: int)
    requires narrower <= wider
    ensures IsPhone(wider) ==> IsPhone(narrower)
    ensures !IsPhone(narrower) ==> !IsPhone(wider)
  {
  }

  /** `isPhone` after the initial measurement and then one recomputation per resize event. */
  function PhoneAfterResizes(initialWidth: int, resizes: seq<int>): bool
    decreases |resizes|
  {
    if |resizes| == 0 then IsPhone(initialWidth)
    else OnResize(PhoneAfterResizes(initialWidth, resizes[..|resizes| - 1]), resizes[|resizes| - 1])
  }

  /**
   * The resize listener: the new flag is recomputed from the current width,
   * whatever the previous flag was.
   */
  function OnResize(wasPhone: bool, width: int): (phone: bool)
    ensures phone == IsPhone(width)
    ensures phone <==> width <= 768
  {
    IsPhone(width)
  }

  /**
   * The flag depends on the latest width only: 768 is a phone, 769 is not.
   * It follows at once from the listener ignoring the previous flag.
   */
  lemma {:induction false} PhoneTracksLatestWidth(initialWidth: int, resizes: seq<int>)
    ensures PhoneAfterResizes(initialWidth, resizes) ==
              IsPhone(if |resizes| == 0 then initialWidth else resizes[|resizes| - 1])
    ensures PhoneAfterResizes(initialWidth, resizes + [768])
    ensures !PhoneAfterResizes(initialWidth, resizes + [769])
  {
    assert (resizes + [768])[..|resizes|] == resizes;
    assert (resizes + [769])[..|resizes|] == resizes;
  }

  /** Which navigation bars the shell renders. */
  datatype Chrome = Chrome(hamburgerMenu: bool, nfsNavbar: bool)

  /** The shell's navbar choice for a viewport width: exactly one bar, the hamburger exactly on phones. */
  function ChooseNavbar(width: int): (c: Chrome)
    ensures c.hamburgerMenu != c.nfsNavbar
    ensures c.hamburgerMenu <==> width <= 768
  {
    var isPhone := IsPhone(width);
    Chrome(isPhone, !isPhone)
  }
}
