/**
 * The bottom navigation bar (`components/common/BottomNav.tsx`): four
 * fixed items, each highlighted exactly when the current pathname is its
 * path, each navigating to its path when clicked.
 */
module BottomNav {

  datatype NavItem = NavItem(name: string, path: string)

  /** The items in the order the bar renders them. */
  const NavItems: seq<NavItem> := [
    NavItem("홈", "/"),
    NavItem("시간거래소", "/slot/list"),
    NavItem("친구찾기", "/friends"),
    NavItem("채팅", "/chat")
  ]

  /** `pathname === item.path`: exact equality, so a sub-path does not match. */
  predicate IsActive(pathname: string, item: NavItem) {
    pathname == item.path
  }

  /** A rendered button: the item's text and whether it is highlighted. */
  datatype Button = Button(caption: string, active: bool)

  /** The bar for `pathname`: one button per item, in table order. */
  function Bar(pathname: string): (bar: seq<Button>)
    ensures |bar| == |NavItems|
    ensures forall i :: 0 <= i < |bar| ==>
      bar[i].caption == NavItems[i].name && (bar[i].active <==> pathname == NavItems[i].path)
  {
    seq(|NavItems|, i requires 0 <= i < |NavItems| => Button(NavItems[i].name, IsActive(pathname, NavItems[i])))
  }

  /** The four paths are pairwise different. */
  lemma PathsDistinct()
    ensures forall i, j :: 0 <= i < j < |NavItems| ==> NavItems[i].path != NavItems[j].path
  {
    assert NavItems[0].path[0] == '/' && |NavItems[0].path| == 1;
    assert NavItems[1].path[1] == 's';
    assert NavItems[2].path[1] == 'f';
    assert NavItems[3].path[1] == 'c';
  }

  /** Whatever the pathname, at most one button is highlighted. */
  lemma AtMostOneActive(pathname: string)
    ensures forall i, j :: (0 <= i < |Bar(pathname)| && 0 <= j < |Bar(pathname)|
      && Bar(pathname)[i].active && Bar(pathname)[j].active) ==> i == j
  {
    PathsDistinct();
  }

  /** `router.push(item.path)`: where a click on button `i` goes. */
  function ClickTarget(i: nat): (path: string)
    requires i < |NavItems|
    ensures path == NavItems[i].path
  {
    NavItems[i].path
  }

  /** After a click on button `i`, the bar highlights that button and no other. */
  lemma ClickHighlightsItem(i: nat)
    requires i < |NavItems|
    ensures forall j :: 0 <= j < |NavItems| ==> (Bar(ClickTarget(i))[j].active <==> j == i)
  {
    PathsDistinct();
  }

  /** A page below an item's path, such as a single chat, highlights nothing. */
  lemma SubPathHighlightsNothing(suffix: string)
    requires suffix != []
    ensures forall j :: 0 <= j < |NavItems| ==> !Bar("/chat/" + suffix)[j].active
  {
    var p := "/chat/" + suffix;
    assert |p| > 5 && p[1] == 'c' && p[5] == '/';
    assert forall j :: 0 <= j < |NavItems| ==> p != NavItems[j].path by {
      assert |NavItems[3].path| == 5;
    }
  }
}
