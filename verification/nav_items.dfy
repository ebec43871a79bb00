/**
 * The shared navigation table of `src/ui/nav-items.jsx`: one entry per page,
 * each with a display label and a route path. The SVG icons are not modelled.
 */
module NavItems {
  import opened Strings

  /** `title` is the entry's `label` field (`label` is a Dafny keyword); `to` is its route path. */
  datatype NavItem = NavItem(title: string, to: string)

  const NAV_ITEMS: seq<NavItem> := [
    NavItem("Shop", "/shop"),
    NavItem("Exhaust", "/exhaust"),
    NavItem("Display", "/display"),
    NavItem("Garage", "/garage"),
    NavItem("Manual", "/manual")
  ]

  /** The route paths of a table, in table order. */
  function Paths(items: seq<NavItem>): (ps: seq<string>)
    ensures |ps| == |items|
    ensures forall i :: 0 <= i < |items| ==> ps[i] == items[i].to
  {
    seq(|items|, i requires 0 <= i < |items| => items[i].to)
  }

  /** The labels of a table after uppercasing, in table order. */
  function UpperLabels(items: seq<NavItem>): (ls: seq<string>)
    ensures |ls| == |items|
    ensures forall i :: 0 <= i < |items| ==> ls[i] == ToUpper(items[i].title)
  {
    seq(|items|, i requires 0 <= i < |items| => ToUpper(items[i].title))
  }

  /** No value occurs twice: the property React needs of list keys. */
  predicate Distinct(xs: seq<string>) {
    forall i, j :: 0 <= i < j < |xs| ==> xs[i] != xs[j]
  }

  /** An entry's path is a slash followed by its label in lower case. */
  predicate PathFollowsLabel(item: NavItem) {
    item.to == "/" + ToLower(item.title)
  }

  /** The table holds exactly the five pages, in menu order. */
  lemma TableOrder()
    ensures |NAV_ITEMS| == 5
    ensures NAV_ITEMS[0].title == "Shop" && NAV_ITEMS[1].title == "Exhaust"
    ensures NAV_ITEMS[2].title == "Display" && NAV_ITEMS[3].title == "Garage"
    ensures NAV_ITEMS[4].title == "Manual"
  {
  }

  /** Every path is derived from its label, so the table cannot drift between the two columns. */
  lemma PathsFollowLabels()
    ensures forall i :: 0 <= i < |NAV_ITEMS| ==> PathFollowsLabel(NAV_ITEMS[i])
  {
    assert ToLower("Shop") == "shop";
    assert ToLower("Exhaust") == "exhaust";
    assert ToLower("Display") == "display";
    assert ToLower("Garage") == "garage";
    assert ToLower("Manual") == "manual";
  }

  /** The paths are pairwise distinct, as the hamburger menu's list keys require. */
  lemma PathsDistinct()
    ensures Distinct(Paths(NAV_ITEMS))
  {
  }

  /** The uppercased labels are pairwise distinct, as the 3D menu's list keys require. */
  lemma UpperLabelsDistinct()
    ensures Distinct(UpperLabels(NAV_ITEMS))
  {
    var ls := UpperLabels(NAV_ITEMS);
    assert ls[0][0] == 'S' && ls[1][0] == 'E' && ls[2][0] == 'D';
    assert ls[3][0] == 'G' && ls[4][0] == 'M';
  }
}
