/**
  The upgrade catalog of the game (the `tab` and `upgrade` types of
  dataManager.go). Tabs are read from content files at start-up and never
  change afterwards, apart from the per-tab cursor `selection`.
 */
module Catalog {

  /** Go's `uint64`. */
  newtype uint64 = x: int | 0 <= x < 0x1_0000_0000_0000_0000

  /**
    One purchasable upgrade. `cost`, `growthRate` and `production` are
    float64 in the program; the modelled code never computes with them.
    `owned` is unexported, so the JSON loader never fills it and it stays 0.
   */
  datatype Upgrade = Upgrade(
    description: string,
    cost: real,
    growthRate: real,
    production: real,
    owned: uint64)

  /**
    A tab groups upgrades under a name. `selection` is the unexported cursor
    into `upgrades`; the JSON loader never fills it, so it starts at 0.
   */
  datatype Tab = Tab(name: string, icon: string, selection: int, upgrades: seq<Upgrade>)
}
