/**
  The interactive model of sizzlestar.go: the tab list with its active tab,
  the event dispatch of `Update`, and the cursor `View` reads.

  `moveTab` and `moveSelection` are called by `Update` but defined in no
  file of this model, so they are parameters (`Navigator`) about which
  `Update`'s contract assumes nothing.
 */
module Sizzlestar {
  import opened Catalog

  /** The Bubble Tea model: the tabs and the index of the one on screen. */
  datatype Model = Model(tabs: seq<Tab>, activeTab: int)

  /** The messages `Update` tells apart: a key press, by its printed name; an animation frame; anything else. */
  datatype Msg = KeyMsg(key: string) | FrameMsg | OtherMsg

  /** The command `Update` hands back: none, `tea.Quit`, or `animate()` (the next frame tick). */
  datatype Cmd = NoCmd | Quit | Animate

  /** The navigation steps `Update` delegates to. */
  datatype Navigator = Navigator(moveTab: (Model, int) -> Model, moveSelection: (Tab, int) -> Tab)

  const QuitKeys: set<string> := {"ctrl+c", "q", "esc"}
  const SelectionKeys: set<string> := {"up", "down"}
  const TabKeys: set<string> := {"left", "right"}

  /** The keys `Update` reacts to with a navigation step. */
  predicate IsNavigation(msg: Msg) {
    msg.KeyMsg? && (msg.key in SelectionKeys || msg.key in TabKeys)
  }

  /** `Update` indexes `tabs[activeTab]` for "up" and "down" only; any other message is safe in any model. */
  predicate CanDispatch(m: Model, msg: Msg) {
    msg.KeyMsg? && msg.key in SelectionKeys ==> 0 <= m.activeTab < |m.tabs|
  }

  /** `m` with the active tab replaced by `moveSelection(active tab, delta)`. */
  function MoveActiveSelection(m: Model, nav: Navigator, delta: int): (r: Model)
    requires 0 <= m.activeTab < |m.tabs|
    ensures r.activeTab == m.activeTab && |r.tabs| == |m.tabs|
    ensures forall i :: 0 <= i < |m.tabs| && i != m.activeTab ==> r.tabs[i] == m.tabs[i]
    ensures r.tabs[m.activeTab] == nav.moveSelection(m.tabs[m.activeTab], delta)
  {
    m.(tabs := m.tabs[m.activeTab := nav.moveSelection(m.tabs[m.activeTab], delta)])
  }

  /** `Update`: routes a message to quitting, a navigation step, the next animation frame, or nothing. */
  function Update(m: Model, msg: Msg, nav: Navigator): (r: (Model, Cmd))
    requires CanDispatch(m, msg)
    ensures r.1 == Quit <==> msg.KeyMsg? && msg.key in QuitKeys
    ensures r.1 == Animate <==> msg.FrameMsg?
    ensures r.1 == NoCmd <==> !(msg.KeyMsg? && msg.key in QuitKeys) && !msg.FrameMsg?
    ensures !IsNavigation(msg) ==> r.0 == m
    ensures msg.KeyMsg? && msg.key in SelectionKeys ==>
      && r.0.activeTab == m.activeTab
      && |r.0.tabs| == |m.tabs|
      && (forall i :: 0 <= i < |m.tabs| && i != m.activeTab ==> r.0.tabs[i] == m.tabs[i])
      && r.0.tabs[m.activeTab] == nav.moveSelection(m.tabs[m.activeTab], if msg.key == "up" then -1 else 1)
    ensures msg.KeyMsg? && msg.key in TabKeys ==>
      r.0 == nav.moveTab(m, if msg.key == "left" then -1 else 1)
  {
    match msg
    case KeyMsg(key) =>
      if key == "ctrl+c" || key == "q" || key == "esc" then (m, Quit)
      else if key == "up" then (MoveActiveSelection(m, nav, -1), NoCmd)
      else if key == "down" then (MoveActiveSelection(m, nav, 1), NoCmd)
      else if key == "left" then (nav.moveTab(m, -1), NoCmd)
      else if key == "right" then (nav.moveTab(m, 1), NoCmd)
      else (m, NoCmd)
    case FrameMsg => (m, Animate)
    case OtherMsg => (m, NoCmd)
  }

  /** The cursor of a tab points at one of its upgrades. */
  predicate ValidSelection(t: Tab) {
    0 <= t.selection < |t.upgrades|
  }

  /** The active tab exists and every tab's cursor points at one of its upgrades. */
  predicate CursorValid(m: Model) {
    && 0 <= m.activeTab < |m.tabs|
    && forall i :: 0 <= i < |m.tabs| ==> ValidSelection(m.tabs[i])
  }

  /** The upgrade under the cursor of the active tab, which `View` describes. */
  function Selected(m: Model): (u: Upgrade)
    requires 0 <= m.activeTab < |m.tabs|
    requires ValidSelection(m.tabs[m.activeTab])
    ensures u in m.tabs[m.activeTab].upgrades
  {
    m.tabs[m.activeTab].upgrades[m.tabs[m.activeTab].selection]
  }

  const Footer: string := "\nPress q to quit\n"

  /**
    `View`: the tab bar, a line break, the selected upgrade's description as
    drawn by the `window` style, and the quit hint. The tab bar and the
    styling are rendering, so they come in as parameters.
   */
  function View(m: Model, tabRow: string, window: string -> string): (r: string)
    requires 0 <= m.activeTab < |m.tabs|
    requires ValidSelection(m.tabs[m.activeTab])
    ensures |r| >= |tabRow| + 1 + |Footer|
    ensures r[..|tabRow| + 1] == tabRow + "\n"
    ensures r[|r| - |Footer|..] == Footer
    ensures r[|tabRow| + 1..|r| - |Footer|] == window(Selected(m).description)
  {
    tabRow + "\n" + window(Selected(m).description) + Footer
  }

  /** The navigation steps keep a valid cursor valid (the clamping the game relies on). */
  ghost predicate KeepsCursor(nav: Navigator) {
    && (forall m, d :: CursorValid(m) ==> CursorValid(nav.moveTab(m, d)))
    && (forall t, d :: ValidSelection(t) ==> ValidSelection(nav.moveSelection(t, d)))
  }

  /**
    If the navigation steps clamp, `Update` keeps the cursor valid, so the
    next `View` can index the selected upgrade.
   */
  lemma UpdateKeepsCursor(m: Model, msg: Msg, nav: Navigator)
    requires KeepsCursor(nav)
    requires CursorValid(m)
    ensures CursorValid(Update(m, msg, nav).0)
    ensures ValidSelection(Update(m, msg, nav).0.tabs[Update(m, msg, nav).0.activeTab])
  {
  }
}
