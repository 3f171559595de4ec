/** The sidebar page router of js/script.js (`setupPageRouting` and `showPage`).
    The navigation items and page sections are given in document order. */
module Pages {
  import opened Js

  /** A `.nav__item`: its `data-page` (None when absent) and whether it carries `nav__item--active`. */
  datatype NavItem = NavItem(page: Option<string>, active: bool)

  /** A `[data-page-view]` section: its view name and whether it carries `is-hidden`. */
  datatype Section = Section(view: string, hidden: bool)

  const DefaultPage := "dashboard"

  /** `showPage(pageName)`: the active marks and hidden marks after the toggles,
      and whether the inventory load is started. */
  datatype Shown = Shown(nav: seq<NavItem>, sections: seq<Section>, loadsInventory: bool)

  function ShowPage(nav: seq<NavItem>, sections: seq<Section>, pageName: string): (r: Shown)
    ensures |r.nav| == |nav| && |r.sections| == |sections|
    ensures forall i :: 0 <= i < |nav| ==>
              r.nav[i].page == nav[i].page && (r.nav[i].active <==> nav[i].page == Some(pageName))
    ensures forall i :: 0 <= i < |sections| ==>
              r.sections[i].view == sections[i].view && (r.sections[i].hidden <==> sections[i].view != pageName)
    ensures r.loadsInventory <==> pageName == "inventory"
  {
    Shown(
      seq(|nav|, i requires 0 <= i < |nav| => NavItem(nav[i].page, nav[i].page == Some(pageName))),
      seq(|sections|, i requires 0 <= i < |sections| => Section(sections[i].view, sections[i].view != pageName)),
      pageName == "inventory")
  }

  predicate DistinctViews(sections: seq<Section>)
  {
    forall i, j :: 0 <= i < j < |sections| ==> sections[i].view != sections[j].view
  }

  /** With distinct view names, the chosen page is the only visible section,
      and it is visible whenever a section carries that name. */
  lemma ExactlyOneVisible(nav: seq<NavItem>, sections: seq<Section>, pageName: string, k: nat)
    requires DistinctViews(sections)
    requires k < |sections| && sections[k].view == pageName
    ensures var r := ShowPage(nav, sections, pageName);
            !r.sections[k].hidden && forall j :: 0 <= j < |sections| && !r.sections[j].hidden ==> j == k
  {
  }

  /** Showing a page twice changes nothing the second time. */
  lemma ShowPageIdempotent(nav: seq<NavItem>, sections: seq<Section>, pageName: string)
    ensures var r := ShowPage(nav, sections, pageName);
            ShowPage(r.nav, r.sections, pageName) == r
  {
  }

  /** The first nav item marked active, in document order (`document.querySelector`). */
  function FirstActive(nav: seq<NavItem>): (r: Option<nat>)
    ensures r.Some? ==> r.value < |nav| && nav[r.value].active
                        && forall j :: 0 <= j < r.value ==> !nav[j].active
    ensures r.None? ==> forall j :: 0 <= j < |nav| ==> !nav[j].active
    decreases |nav|
  {
    if nav == [] then None
    else if nav[0].active then Some(0)
    else match FirstActive(nav[1..])
         case None => None
         case Some(k) => Some(k + 1)
  }

  /** `document.querySelector(".nav__item.nav__item--active")?.dataset.page || "dashboard"`. */
  function InitialPage(nav: seq<NavItem>): (r: string)
    ensures r != ""
    ensures FirstActive(nav).None? ==> r == DefaultPage
    ensures FirstActive(nav).Some? ==>
              r == (if Truthy(nav[FirstActive(nav).value].page)
                    then nav[FirstActive(nav).value].page.value else DefaultPage)
  {
    match FirstActive(nav)
    case None => DefaultPage
    case Some(k) => Or(nav[k].page, Some(DefaultPage)).value
  }

  /** `setupPageRouting()`: nothing without nav items or sections, otherwise the initial page is shown. */
  function SetupPageRouting(nav: seq<NavItem>, sections: seq<Section>): (r: Option<Shown>)
    ensures r.None? <==> |nav| == 0 || |sections| == 0
    ensures r.Some? ==> r.value == ShowPage(nav, sections, InitialPage(nav))
    ensures r.Some? ==> forall i :: 0 <= i < |nav| ==>
              (r.value.nav[i].active <==> nav[i].page == Some(InitialPage(nav)))
    ensures r.Some? ==> forall i :: 0 <= i < |sections| ==>
              (r.value.sections[i].hidden <==> sections[i].view != InitialPage(nav))
    ensures r.Some? ==> (r.value.loadsInventory <==> InitialPage(nav) == "inventory")
  {
    if |nav| == 0 || |sections| == 0 then None
    else Some(ShowPage(nav, sections, InitialPage(nav)))
  }

  /** After routing, the nav items marked active are exactly those naming the initial page. */
  lemma RoutingMarksInitialPage(nav: seq<NavItem>, sections: seq<Section>, i: nat)
    requires |nav| > 0 && |sections| > 0 && i < |nav|
    ensures var r := SetupPageRouting(nav, sections).value;
            r.nav[i].active <==> nav[i].page == Some(InitialPage(nav))
  {
  }

  /** A click on nav item `k`: `if (page) showPage(page)`. */
  function NavClick(nav: seq<NavItem>, sections: seq<Section>, k: nat): (r: Option<Shown>)
    requires k < |nav|
    ensures r.None? <==> !Truthy(nav[k].page)
    ensures r.Some? ==> r.value == ShowPage(nav, sections, nav[k].page.value)
    ensures r.Some? ==> |r.value.nav| == |nav| && r.value.nav[k].active
    ensures r.Some? ==> forall i :: 0 <= i < |nav| ==> (r.value.nav[i].active <==> nav[i].page == nav[k].page)
    ensures r.Some? ==> forall i :: 0 <= i < |sections| ==>
              (r.value.sections[i].hidden <==> sections[i].view != nav[k].page.value)
  {
    if Truthy(nav[k].page) then Some(ShowPage(nav, sections, nav[k].page.value)) else None
  }
}
