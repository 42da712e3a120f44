/**
  The persisted economy record (`gameState` and `upgradeState` in
  dataManager.go) and the seeding of a fresh record from the tab catalog
  (`initGameState`).
 */
module GameState {
  import opened Catalog

  /** Ownership of one upgrade, linked to the catalog by its description. */
  datatype UpgradeState = UpgradeState(description: string, owned: uint64)

  /**
    Timestamp of the last accrual, the three currency balances (float64 in
    the program) and one ownership list per trading tab.
   */
  datatype GameState = GameState(
    lastLogged: real,
    yen: real,
    fr: real,
    veg: real,
    sales: seq<UpgradeState>,
    kitchen: seq<UpgradeState>,
    ingred: seq<UpgradeState>)

  /** The tab names `initGameState` seeds a list for; any other tab is skipped. */
  const SalesTab: string := "Sales"
  const KitchenTab: string := "Kitchen"
  const IngredTab: string := "Ingred"
  const SeededNames: set<string> := {SalesTab, KitchenTab, IngredTab}

  /** One zero-owned entry per upgrade, in upgrade order. */
  function Unowned(us: seq<Upgrade>): (r: seq<UpgradeState>)
    ensures |r| == |us|
    ensures forall j :: 0 <= j < |us| ==> r[j] == UpgradeState(us[j].description, 0)
  {
    seq(|us|, j requires 0 <= j < |us| => UpgradeState(us[j].description, 0))
  }

  /**
    The list seeded for the tab name `name`: for every tab of exactly that
    name, in tab order, its upgrades in upgrade order, each with owned 0.
   */
  function Seed(tabs: seq<Tab>, name: string): (r: seq<UpgradeState>)
    ensures forall k :: 0 <= k < |r| ==> r[k].owned == 0
  {
    if |tabs| == 0 then []
    else
      var last := tabs[|tabs| - 1];
      Seed(tabs[..|tabs| - 1], name) + (if last.name == name then Unowned(last.upgrades) else [])
  }

  /** Every ownership count in every list is zero. */
  predicate AllUnowned(s: GameState) {
    && (forall k :: 0 <= k < |s.sales| ==> s.sales[k].owned == 0)
    && (forall k :: 0 <= k < |s.kitchen| ==> s.kitchen[k].owned == 0)
    && (forall k :: 0 <= k < |s.ingred| ==> s.ingred[k].owned == 0)
  }

  /** The fresh record `initGameState` builds from the tabs. */
  function Initial(tabs: seq<Tab>): (s: GameState)
    ensures s.lastLogged == 0.0 && s.yen == 0.0 && s.fr == 0.0 && s.veg == 0.0
    ensures AllUnowned(s)
  {
    GameState(0.0, 0.0, 0.0, 0.0, Seed(tabs, SalesTab), Seed(tabs, KitchenTab), Seed(tabs, IngredTab))
  }

  /** Appends one zero-owned entry per upgrade to `list`, as each `case` arm of the switch does. */
  method AppendUnowned(list: seq<UpgradeState>, us: seq<Upgrade>) returns (r: seq<UpgradeState>)
    ensures r == list + Unowned(us)
  {
    r := list;
    var j := 0;
    while j < |us|
      invariant 0 <= j <= |us|
      invariant r == list + Unowned(us[..j])
    {
      assert Unowned(us[..j + 1]) == Unowned(us[..j]) + [UpgradeState(us[j].description, 0)];
      r := r + [UpgradeState(us[j].description, 0)];
      j := j + 1;
    }
    assert us[..j] == us;
  }

  /**
    `initGameState`: discards the previous record `prev` and rebuilds it from
    the tabs, zeroing the numbers and seeding the three lists.
   */
  method InitGameState(tabs: seq<Tab>, prev: GameState) returns (s: GameState)
    ensures s == Initial(tabs)
    ensures s.lastLogged == 0.0 && s.yen == 0.0 && s.fr == 0.0 && s.veg == 0.0
    ensures s.sales == Seed(tabs, SalesTab)
    ensures s.kitchen == Seed(tabs, KitchenTab)
    ensures s.ingred == Seed(tabs, IngredTab)
  {
    s := GameState(0.0, 0.0, 0.0, 0.0, [], [], []);
    var i := 0;
    while i < |tabs|
      invariant 0 <= i <= |tabs|
      invariant s == Initial(tabs[..i])
    {
      var t := tabs[i];
      assert tabs[..i + 1][..i] == tabs[..i];
      if t.name == SalesTab {
        var l := AppendUnowned(s.sales, t.upgrades);
        s := s.(sales := l);
      } else if t.name == KitchenTab {
        var l := AppendUnowned(s.kitchen, t.upgrades);
        s := s.(kitchen := l);
      } else if t.name == IngredTab {
        var l := AppendUnowned(s.ingred, t.upgrades);
        s := s.(ingred := l);
      }
      i := i + 1;
    }
    assert tabs[..i] == tabs;
  }

  /** Seeding a catalog split in two seeds the first part, then the second: tab order is kept. */
  lemma {:induction false} SeedConcat(a: seq<Tab>, b: seq<Tab>, name: string)
    ensures Seed(a + b, name) == Seed(a, name) + Seed(b, name)
    decreases |b|
  {
    if |b| == 0 {
      assert a + b == a;
    } else {
      var ab := a + b;
      assert ab[..|ab| - 1] == a + b[..|b| - 1];
      SeedConcat(a, b[..|b| - 1], name);
    }
  }

  /**
    An entry is in the list seeded for `name` exactly when it is the
    zero-owned entry of some upgrade of some tab named exactly `name`.
   */
  lemma {:induction false} SeedMembers(tabs: seq<Tab>, name: string, e: UpgradeState)
    ensures e in Seed(tabs, name) <==>
      exists i, j :: 0 <= i < |tabs| && tabs[i].name == name && 0 <= j < |tabs[i].upgrades|
        && e == UpgradeState(tabs[i].upgrades[j].description, 0)
    decreases |tabs|
  {
    if |tabs| > 0 {
      var n := |tabs| - 1;
      var init := tabs[..n];
      var last := tabs[n];
      SeedMembers(init, name, e);
      if e in Seed(tabs, name) {
        if e in Seed(init, name) {
          var i, j :| 0 <= i < |init| && init[i].name == name && 0 <= j < |init[i].upgrades|
            && e == UpgradeState(init[i].upgrades[j].description, 0);
          assert tabs[i] == init[i];
        } else {
          assert last.name == name && e in Unowned(last.upgrades);
          var j :| 0 <= j < |last.upgrades| && Unowned(last.upgrades)[j] == e;
          assert tabs[n].upgrades[j] == last.upgrades[j];
        }
      }
      if exists i, j :: 0 <= i < |tabs| && tabs[i].name == name && 0 <= j < |tabs[i].upgrades|
          && e == UpgradeState(tabs[i].upgrades[j].description, 0) {
        var i, j :| 0 <= i < |tabs| && tabs[i].name == name && 0 <= j < |tabs[i].upgrades|
          && e == UpgradeState(tabs[i].upgrades[j].description, 0);
        if i < n {
          assert init[i] == tabs[i];
          assert e in Seed(init, name);
        } else {
          assert Unowned(last.upgrades)[j] == e;
        }
      }
    }
  }

  /** A tab whose name is not exactly `name` adds nothing to the list seeded for `name`. */
  lemma {:induction false} SeedSkipsOtherNames(tabs: seq<Tab>, t: Tab, name: string)
    requires t.name != name
    ensures Seed(tabs + [t], name) == Seed(tabs, name)
    ensures Seed([t] + tabs, name) == Seed(tabs, name)
  {
    SeedConcat(tabs, [t], name);
    SeedConcat([t], tabs, name);
    assert [t][..0] == [];
  }

  /** Number of upgrades held by tabs whose name is in `names`. */
  function UpgradeCount(tabs: seq<Tab>, names: set<string>): nat
  {
    if |tabs| == 0 then 0
    else
      var last := tabs[|tabs| - 1];
      UpgradeCount(tabs[..|tabs| - 1], names) + (if last.name in names then |last.upgrades| else 0)
  }

  /** The three lists of a fresh record hold one entry per upgrade of the Sales, Kitchen and Ingred tabs. */
  lemma {:induction false} InitialSize(tabs: seq<Tab>)
    ensures |Initial(tabs).sales| + |Initial(tabs).kitchen| + |Initial(tabs).ingred|
         == UpgradeCount(tabs, SeededNames)
    decreases |tabs|
  {
    if |tabs| > 0 {
      InitialSize(tabs[..|tabs| - 1]);
    }
  }

  /** Tab names are matched case-sensitively: a tab named "sales" seeds nothing. */
  lemma LowerCaseSalesSkipped(us: seq<Upgrade>)
    ensures Initial([Tab("sales", "", 0, us)]) == Initial([])
  {
  }
}
