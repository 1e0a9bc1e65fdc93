/** The mobile menu of the site's navigation bar: a stored flag with the
    path it was set on, read as open only while that path is still the
    current one. */
module Navbar {

  /** The stored menu state: the flag and the path at the time of writing. */
  datatype MenuState = MenuState(isOpen: bool, pathname: string)

  /** The state on first render at `pathname`. */
  function InitialMenu(pathname: string): (m: MenuState)
    ensures !EffectivelyOpen(m, pathname)
    ensures m.pathname == pathname
  {
    MenuState(false, pathname)
  }

  /** The derived `isOpen`: the stored flag counts only on the path it was
      written on, so a path change reads as closed with no write. */
  predicate EffectivelyOpen(m: MenuState, pathname: string) {
    m.isOpen && m.pathname == pathname
  }

  /** `toggleMenu`: flips what the user currently sees and records the
      current path. */
  function ToggleMenu(m: MenuState, pathname: string): (r: MenuState)
    ensures r.pathname == pathname
    ensures EffectivelyOpen(r, pathname) <==> !EffectivelyOpen(m, pathname)
  {
    MenuState(!EffectivelyOpen(m, pathname), pathname)
  }

  /** `closeMenu`: closed on the current path, whatever came before. */
  function CloseMenu(m: MenuState, pathname: string): (r: MenuState)
    ensures !EffectivelyOpen(r, pathname)
    ensures r.pathname == pathname
  {
    MenuState(false, pathname)
  }

  /** Closing does not depend on the state before. */
  lemma CloseIgnoresPrior(m1: MenuState, m2: MenuState, pathname: string)
    ensures CloseMenu(m1, pathname) == CloseMenu(m2, pathname)
  {
  }

  /** Toggling twice on one path shows what was shown before; a state
      written on that path comes back exactly, a stale one comes back closed. */
  lemma ToggleTwice(m: MenuState, pathname: string)
    ensures EffectivelyOpen(ToggleMenu(ToggleMenu(m, pathname), pathname), pathname)
            == EffectivelyOpen(m, pathname)
    ensures m.pathname == pathname ==> ToggleMenu(ToggleMenu(m, pathname), pathname) == m
  {
  }

  /** A menu left open on one path reads as closed on any other. */
  lemma StaleAfterNavigation(m: MenuState, pathname: string)
    requires m.pathname != pathname
    ensures !EffectivelyOpen(m, pathname)
  {
  }

  /** Toggling a menu left open on another path opens it here rather than
      closing it. */
  lemma ToggleFromStaleOpens(m: MenuState, pathname: string)
    requires m.isOpen && m.pathname != pathname
    ensures EffectivelyOpen(ToggleMenu(m, pathname), pathname)
    ensures ToggleMenu(m, pathname) == MenuState(true, pathname)
  {
  }

  // ---------------------------------------------------------------------
  // The menu as the page sees it
  // ---------------------------------------------------------------------

  /** The menu state together with the router's current path. */
  datatype Page = Page(menu: MenuState, pathname: string)

  /** The hamburger button, the overlay / logo / link `closeMenu`, and a
      route change that does not go through the menu (for instance the
      browser's back button). */
  datatype MenuEvent = Toggle | Close | Navigate(to: string)

  function Step(p: Page, e: MenuEvent): (r: Page)
    ensures e.Navigate? ==> r.menu == p.menu && r.pathname == e.to
    ensures !e.Navigate? ==> r.pathname == p.pathname && r.menu.pathname == p.pathname
    ensures e.Toggle? ==> (EffectivelyOpen(r.menu, r.pathname) <==> !EffectivelyOpen(p.menu, p.pathname))
    ensures e.Close? ==> !EffectivelyOpen(r.menu, r.pathname)
  {
    match e
    case Toggle => p.(menu := ToggleMenu(p.menu, p.pathname))
    case Close => p.(menu := CloseMenu(p.menu, p.pathname))
    case Navigate(to) => p.(pathname := to)
  }

  function Replay(p: Page, events: seq<MenuEvent>): Page
    decreases |events|
  {
    if |events| == 0 then p else Replay(Step(p, events[0]), events[1..])
  }

  /** How many `Toggle` events `events` holds. */
  function CountToggles(events: seq<MenuEvent>): (n: nat)
    ensures n <= |events|
    decreases |events|
  {
    if |events| == 0 then 0 else (if events[0].Toggle? then 1 else 0) + CountToggles(events[1..])
  }

  /** A run of toggles alone shows the menu in its starting state after an
      even number of toggles and in the opposite state after an odd number,
      also when the stored state was written on another path. */
  lemma {:induction false} TogglesAlternate(p: Page, events: seq<MenuEvent>)
    requires forall i :: 0 <= i < |events| ==> events[i].Toggle?
    ensures Replay(p, events).pathname == p.pathname
    ensures EffectivelyOpen(Replay(p, events).menu, p.pathname)
            <==> (EffectivelyOpen(p.menu, p.pathname) != (CountToggles(events) % 2 == 1))
    decreases |events|
  {
    if |events| > 0 {
      var q := Step(p, events[0]);
      assert events[0].Toggle?;
      TogglesAlternate(q, events[1..]);
    }
  }

  /** A menu left open on a path and not closed reads as open again once
      the route comes back to that path. */
  lemma ReopensOnReturn(p: Page, away: string)
    requires EffectivelyOpen(p.menu, p.pathname) && away != p.pathname
    ensures !EffectivelyOpen(Replay(p, [Navigate(away)]).menu, away)
    ensures EffectivelyOpen(Replay(p, [Navigate(away), Navigate(p.pathname)]).menu, p.pathname)
  {
    var q := Step(p, Navigate(away));
    assert Replay(p, [Navigate(away)]) == Replay(q, []);
    var back := [Navigate(away), Navigate(p.pathname)];
    assert back[1..] == [Navigate(p.pathname)];
    assert Replay(p, back) == Replay(q, [Navigate(p.pathname)]);
    assert Replay(q, [Navigate(p.pathname)]) == Replay(Step(q, Navigate(p.pathname)), []);
  }

  /** A menu link closes the menu before the route changes, so the menu
      reads as closed on the new path and on the old one. */
  lemma LinkClickCloses(p: Page, to: string)
    ensures var r := Replay(p, [Close, Navigate(to)]);
            && !EffectivelyOpen(r.menu, to)
            && !EffectivelyOpen(r.menu, p.pathname)
  {
    var q := Step(p, Close);
    var clicked := [Close, Navigate(to)];
    assert clicked[1..] == [Navigate(to)];
    assert Replay(p, clicked) == Replay(q, [Navigate(to)]);
    assert Replay(q, [Navigate(to)]) == Replay(Step(q, Navigate(to)), []);
  }
}
