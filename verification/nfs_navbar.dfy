/**
 * The circular 3D menu of `src/ui/NFSNavbar.jsx`: the uppercased copy of the
 * navigation table, the circular neighbour indices, the arrow-key reducer,
 * click selection and the three display tiers chosen by `getTransform`.
 */
module NfsNavbar {
  import opened Strings
  import NavItems

  /** One menu option: the uppercased label and the route it navigates to. */
  datatype NfsItem = NfsItem(title: string, path: string)

  /** The `nfsnavitems` mapping over a navigation table. */
  function ToNfsItems(items: seq<NavItems.NavItem>): (r: seq<NfsItem>)
    ensures |r| == |items|
    ensures forall i :: 0 <= i < |items| ==> r[i].title == ToUpper(items[i].title) && r[i].path == items[i].to
  {
    seq(|items|, i requires 0 <= i < |items| => NfsItem(ToUpper(items[i].title), items[i].to))
  }

  /** The menu the component renders. */
  function Menu(): (m: seq<NfsItem>)
    ensures |m| == |NavItems.NAV_ITEMS| == 5
    ensures forall i :: 0 <= i < |m| ==> m[i].path == NavItems.NAV_ITEMS[i].to
  {
    ToNfsItems(NavItems.NAV_ITEMS)
  }

  /** JavaScript's `%`, whose result takes the sign of the dividend. */
  function JsRem(a: int, b: int): (r: int)
    requires b != 0
    ensures a >= 0 && b > 0 ==> r == a % b
  {
    var m := (if a < 0 then -a else a) % (if b < 0 then -b else b);
    if a < 0 then -m else m
  }

  /** A non-negative value below twice the modulus wraps at most once. */
  lemma ModOnce(a: int, len: int)
    requires 0 < len && 0 <= a <= 2 * len
    ensures a % len == if a < len then a else if a < 2 * len then a - len else 0
  {
    if a == 2 * len {
      assert a == 2 * len + 0;
    } else if a >= len {
      assert a == 1 * len + (a - len);
    }
  }

  /** `getIdx(offset)`: the index `offset` steps away from `selected` on a ring of `len` items. */
  function GetIdx(selected: int, offset: int, len: int): (idx: int)
    requires len > 0
    ensures -len <= selected + offset < len ==> 0 <= idx < len
    ensures -len <= selected + offset < len ==>
              idx == if selected + offset < 0 then selected + offset + len else selected + offset
  {
    var a := selected + offset + len;
    if 0 <= a <= 2 * len then ModOnce(a, len); JsRem(a, len)
    else JsRem(a, len)
  }

  /** The item drawn to the left of the selection: its circular predecessor. */
  function LeftIdx(selected: int, len: int): (idx: int)
    requires len > 0
    ensures 0 <= selected < len ==> idx == if selected == 0 then len - 1 else selected - 1
  {
    GetIdx(selected, -1, len)
  }

  /** The item drawn to the right of the selection: its circular successor. */
  function RightIdx(selected: int, len: int): (idx: int)
    requires len > 0
    ensures 0 <= selected < len ==> idx == if selected == len - 1 then 0 else selected + 1
  {
    GetIdx(selected, 1, len)
  }

  /** The outcome of one keydown event: the new selection and whether the default (scrolling) is suppressed. */
  datatype KeyOutcome = KeyOutcome(selected: int, preventDefault: bool)

  /** The arrow-key part of `handleKeyDown`, applied to the current selection `s`. */
  function HandleKeyDown(s: int, key: string, len: int): (r: KeyOutcome)
    requires len > 0
    ensures 0 <= s < len ==> 0 <= r.selected < len
    ensures 0 <= s < len && key == "ArrowRight" ==> r.selected == RightIdx(s, len)
    ensures 0 <= s < len && key == "ArrowLeft" ==> r.selected == LeftIdx(s, len)
    ensures key != "ArrowRight" && key != "ArrowLeft" ==> r.selected == s
    ensures r.preventDefault <==> key == "ArrowRight" || key == "ArrowLeft" || key == "ArrowUp" || key == "ArrowDown"
  {
    if 0 <= s < len then ModOnce(s + 1, len); ModOnce(s - 1 + len, len); HandleArrows(s, key, len)
    else HandleArrows(s, key, len)
  }

  function HandleArrows(s: int, key: string, len: int): KeyOutcome
    requires len > 0
  {
    if key == "ArrowRight" then KeyOutcome(JsRem(s + 1, len), true)
    else if key == "ArrowLeft" then KeyOutcome(JsRem(s - 1 + len, len), true)
    else if key == "ArrowUp" || key == "ArrowDown" then KeyOutcome(s, true)
    else KeyOutcome(s, false)
  }

  /** ArrowLeft undoes ArrowRight, and ArrowRight undoes ArrowLeft. */
  lemma LeftUndoesRight(s: int, len: int)
    requires 0 <= s < len
    ensures HandleKeyDown(HandleKeyDown(s, "ArrowRight", len).selected, "ArrowLeft", len).selected == s
    ensures HandleKeyDown(HandleKeyDown(s, "ArrowLeft", len).selected, "ArrowRight", len).selected == s
  {
    var r := HandleKeyDown(s, "ArrowRight", len).selected;
    var l := HandleKeyDown(s, "ArrowLeft", len).selected;
  }

  /** The selection after `n` ArrowRight presses. */
  function PressRight(s: int, n: nat, len: int): int
    requires len > 0
    decreases n
  {
    if n == 0 then s else PressRight(HandleKeyDown(s, "ArrowRight", len).selected, n - 1, len)
  }

  /** Pressing `a` times and then `b` times is pressing `a + b` times. */
  lemma {:induction false} PressRightCompose(s: int, a: nat, b: nat, len: int)
    requires len > 0
    ensures PressRight(s, a + b, len) == PressRight(PressRight(s, a, len), b, len)
    decreases a
  {
    if a > 0 {
      PressRightCompose(HandleKeyDown(s, "ArrowRight", len).selected, a - 1, b, len);
    }
  }

  /** Short of the end of the ring, `n` ArrowRight presses advance the selection by exactly `n`. */
  lemma {:induction false} PressRightAdvances(s: int, n: nat, len: int)
    requires 0 <= s && s + n < len
    ensures PressRight(s, n, len) == s + n
    decreases n
  {
    if n > 0 {
      ModOnce(s + 1, len);
      PressRightAdvances(s + 1, n - 1, len);
    }
  }

  /** Pressing ArrowRight once per menu item comes back to where it started. */
  lemma {:induction false} FullTurnIsIdentity(s: int, len: int)
    requires 0 <= s < len
    ensures PressRight(s, len, len) == s
  {
    var toEnd := len - 1 - s;
    PressRightCompose(s, toEnd, 1 + s, len);
    PressRightAdvances(s, toEnd, len);
    PressRightCompose(len - 1, 1, s, len);
    assert PressRight(len - 1, 1, len) == 0 by {
      assert PressRight(len - 1, 1, len) == PressRight(JsRem(len, len), 0, len);
      ModOnce(len, len);
    }
    PressRightAdvances(0, s, len);
  }

  /** `getTransform`'s relative offset of item `idx`, folded into the half-open window around `selected`. */
  function RelOffset(idx: int, selected: int, len: int): (rel: int)
    ensures 0 <= idx < len && 0 <= selected < len ==> -len <= 2 * rel <= len
    ensures rel == idx - selected || rel == idx - selected - len || rel == idx - selected + len
  {
    var rel0 := idx - selected;
    // `rel > len / 2` uses real division: for integers it reads `2 * rel > len`
    var rel1 := if 2 * rel0 > len then rel0 - len else rel0;
    if 2 * rel1 < -len then rel1 + len else rel1
  }

  /** The three looks of a menu item; `ZIndex` gives each one's stacking order. */
  datatype Tier = Centre | Neighbour | Far

  function ZIndex(t: Tier): int {
    match t
    case Centre => 3
    case Neighbour => 2
    case Far => 1
  }

  /** The branch `getTransform(idx)` takes. */
  function TierOf(idx: int, selected: int, len: int): (t: Tier)
    ensures t == Centre <==> idx == selected
    ensures 0 <= idx < len && 0 <= selected < len ==>
              (t == Neighbour <==> idx != selected && (idx == LeftIdx(selected, len) || idx == RightIdx(selected, len)))
  {
    var rel := RelOffset(idx, selected, len);
    if idx == selected then Centre
    else if rel == -1 || rel == 1 then Neighbour
    else Far
  }

  /** An in-range item is drawn lowest (zIndex 1) exactly when it is neither the selection nor one of its two neighbours. */
  lemma {:induction false} TierCharacterised(idx: int, selected: int, len: int)
    requires 0 <= idx < len && 0 <= selected < len
    ensures ZIndex(TierOf(idx, selected, len)) == 1 <==>
              idx != selected && idx != LeftIdx(selected, len) && idx != RightIdx(selected, len)
  {
  }

  /** The items of a ring of `len` that land in tier `t`. */
  function ItemsInTier(t: Tier, selected: int, len: nat): set<int> {
    set i | i in Indices(len) && TierOf(i, selected, len) == t
  }

  /** The positions `0 .. len - 1` of a ring. */
  function Indices(len: nat): (r: set<int>)
    ensures forall i :: i in r <==> 0 <= i < len
    ensures |r| == len
  {
    if len == 0 then {} else Indices(len - 1) + {len - 1}
  }

  /** For three or more items: one centre item, exactly two neighbours, and every other item far. */
  lemma TierCounts(selected: int, len: nat)
    requires 3 <= len && 0 <= selected < len
    ensures ItemsInTier(Centre, selected, len) == {selected}
    ensures ItemsInTier(Neighbour, selected, len) == {LeftIdx(selected, len), RightIdx(selected, len)}
    ensures |ItemsInTier(Neighbour, selected, len)| == 2
    ensures |ItemsInTier(Far, selected, len)| == len - 3
  {
    CentreTier(selected, len);
    NeighbourTier(selected, len);
    FarTier(selected, len);
  }

  lemma CentreTier(selected: int, len: nat)
    requires 0 <= selected < len
    ensures ItemsInTier(Centre, selected, len) == {selected}
  {
    forall i | i in Indices(len)
      ensures TierOf(i, selected, len) == Centre <==> i == selected
    {
      TierCharacterised(i, selected, len);
    }
  }

  lemma NeighbourTier(selected: int, len: nat)
    requires 3 <= len && 0 <= selected < len
    ensures ItemsInTier(Neighbour, selected, len) == {LeftIdx(selected, len), RightIdx(selected, len)}
    ensures |ItemsInTier(Neighbour, selected, len)| == 2
  {
    var l, r := LeftIdx(selected, len), RightIdx(selected, len);
    forall i | i in Indices(len)
      ensures TierOf(i, selected, len) == Neighbour <==> i == l || i == r
    {
      TierCharacterised(i, selected, len);
    }
    assert l != r;
  }

  lemma FarTier(selected: int, len: nat)
    requires 3 <= len && 0 <= selected < len
    ensures |ItemsInTier(Far, selected, len)| == len - 3
  {
    var l, r := LeftIdx(selected, len), RightIdx(selected, len);
    FarIsComplement(selected, len);
    ThreeDistinct(selected, l, r);
    DifferenceSize(Indices(len), {selected, l, r});
  }

  /** The far tier is every index except the selection and its two neighbours. */
  lemma FarIsComplement(selected: int, len: nat)
    requires 3 <= len && 0 <= selected < len
    ensures ItemsInTier(Far, selected, len) == Indices(len) - {selected, LeftIdx(selected, len), RightIdx(selected, len)}
    ensures {selected, LeftIdx(selected, len), RightIdx(selected, len)} <= Indices(len)
  {
    var nonFar := {selected, LeftIdx(selected, len), RightIdx(selected, len)};
    forall i | i in Indices(len)
      ensures TierOf(i, selected, len) == Far <==> i !in nonFar
    {
      TierCharacterised(i, selected, len);
    }
  }

  lemma ThreeDistinct(a: int, b: int, c: int)
    requires a != b && b != c && a != c
    ensures |{a, b, c}| == 3
  {
    assert {a, b, c} == {a} + {b} + {c};
  }

  lemma DifferenceSize(a: set<int>, b: set<int>)
    requires b <= a
    ensures |a - b| == |a| - |b|
  {
    assert a == (a - b) + b;
  }

  /** The result of clicking (or pressing Enter on) menu item `idx`. */
  datatype Selection = Selection(selected: int, navigateTo: string)

  /** `handleSelect(idx)`: select the item and navigate to its route. */
  function HandleSelect(idx: int): (r: Selection)
    requires 0 <= idx < |Menu()|
    ensures r.selected == idx
    ensures r.navigateTo == NavItems.NAV_ITEMS[idx].to
  {
    Selection(idx, Menu()[idx].path)
  }

  /** The menu mirrors the navigation table: same length, same order, uppercased labels, unchanged paths, distinct keys. */
  lemma MenuMirrorsTable()
    ensures |Menu()| == |NavItems.NAV_ITEMS| == 5
    ensures forall i :: 0 <= i < 5 ==>
              Menu()[i].title == ToUpper(NavItems.NAV_ITEMS[i].title) && Menu()[i].path == NavItems.NAV_ITEMS[i].to
    ensures forall i, j :: 0 <= i < j < 5 ==> Menu()[i].title != Menu()[j].title
  {
    NavItems.UpperLabelsDistinct();
  }
}
