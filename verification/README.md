# Sizzle Star economy core in Dafny

Sizzle Star is a terminal idle game built on Bubble Tea. This project models
two parts of it:

- **Seeding and saving the economy record** (dataManager.go). `initGameState`
  builds a fresh `gameState`. It zeroes the accrual timestamp and the yen,
  fried-rice and vegetable balances. It then seeds one zero-owned
  `upgradeState` per upgrade of the tabs named exactly "Sales", "Kitchen"
  and "Ingred". `MarshalGameState` and `UnmarshalGameState` write and read
  the record's seven fields, in a fixed order, through a gob stream.
- **Event dispatch** (sizzlestar.go). `Update` maps quit keys, the four
  arrow keys, animation frames and every other message to a new model and
  a command. `View` reads the upgrade under the cursor of the active tab.

Modules, one per concern:

| file | module | models |
|---|---|---|
| wrappers.dfy | `Wrappers` | `Option` and `Result` |
| catalog.dfy | `Catalog` | the `tab` and `upgrade` types and Go's `uint64` |
| game_state.dfy | `GameState` | `upgradeState`, `gameState`, `initGameState` |
| save_codec.dfy | `SaveCodec` | `MarshalGameState`, `UnmarshalGameState` |
| sizzlestar.dfy | `Sizzlestar` | `model`, `Update`, `View` |

What is abstract:

- The gob byte format is a `Codec`: one function that encodes a single
  field and one that decodes a single field off the front of a byte stream.
  Two assumptions stand in for gob:
  - `Lawful`: decoding an encoded field returns that field and leaves the
    following bytes unread.
  - `Transmitted` (with `Seen`): gob sends only exported struct fields. As
    `upgradeState` is declared, a saved list therefore carries each entry's
    description, and its count arrives as 0.
- `moveTab` and `moveSelection` are called by `Update` but defined in no
  modelled file. They are the fields of a `Navigator` parameter, and
  `Update`'s contract assumes nothing about them.
- The float64 fields are `real`. The modelled code only zeroes and copies
  them.
- The tab bar and the lipgloss styling that `View` draws are parameters.

Where the game's intended behaviour and its code differ, the model follows
the code:

- A save is meant to keep ownership counts. The code loses them (see
  Findings).
- Quitting is meant to save the game. `Update` returns `tea.Quit` and saves
  nothing.
- A purchase action is meant to exist. `Update` has no key for it.

## Model

| member | source | states |
|---|---|---|
| `GameState.InitGameState` | dataManager.go:131-158 | The result equals the reference `Initial(tabs)`, whatever the previous record was. The four numbers are 0, and each list is the seed for its tab name. It reads only the tabs, so running it twice gives the same record. |
| `GameState.AppendUnowned` | dataManager.go:145-147 | The result is the old list followed by one `{Description, 0}` entry per upgrade, in upgrade order. |
| `GameState.Initial` | dataManager.go:132-140 | A fresh record has lastLogged, yen, fr and veg all 0, and every ownership count in all three lists is 0. |
| `GameState.Seed` | dataManager.go:142-157 | Every entry seeded for a tab name has owned 0. |
| `GameState.SeedConcat` | dataManager.go:142-157 | Seeding a catalog split in two gives the first part's entries followed by the second part's, so tab order is kept. |
| `GameState.SeedMembers` | dataManager.go:143-156 | An entry is in the list for a name if and only if it is `{u.Description, 0}` for some upgrade u of some tab with exactly that name. |
| `GameState.SeedSkipsOtherNames` | dataManager.go:143-156 | A tab with any other name adds nothing to the list, whether it comes first or last. |
| `GameState.InitialSize` | dataManager.go:144-156 | The three lists together hold exactly as many entries as there are upgrades in tabs named Sales, Kitchen or Ingred. |
| `GameState.LowerCaseSalesSkipped` | dataManager.go:143-144 | The name match is case-sensitive: a tab named "sales" seeds nothing. |
| `SaveCodec.SlotsDetermine` | dataManager.go:48-58 | The seven encoded fields are all of a `gameState`: two records that agree on them are equal. |
| `SaveCodec.EncodeAll` | dataManager.go:160-191 | Encoding succeeds if and only if every field encodes. Otherwise the error is that of the first field that fails, and every earlier field encoded. |
| `SaveCodec.MarshalGameState` | dataManager.go:160-192 | The save succeeds if and only if all seven fields encode in order. A failure carries the encoder error of the first failing field. |
| `SaveCodec.MarshalOrder` | dataManager.go:163-191 | A successful save is the encodings of lastLogged, yen, fr, veg, sales, kitchen and ingred, back to back in that order. |
| `SaveCodec.Transmitted` | dataManager.go:43-46 | What gob puts on the wire for an ownership list. The descriptions are kept in order. As declared, every count arrives as 0. With the count exported, the list is sent unchanged. |
| `SaveCodec.DecodeFrom` | dataManager.go:197-225 | Decoding stops at the first error. Fields before the start, and from the failing field on, keep their old values. No error happens if and only if all fields were overwritten. When field k is written, it holds the value decoded from the front of the bytes. |
| `SaveCodec.UnmarshalGameState` | dataManager.go:194-226 | Loading overwrites a prefix of the seven fields in order, and all later fields are untouched. Without an error, all seven are overwritten. lastLogged is read off the front of the bytes. If that read fails, or gives a value of the wrong type, the error is returned at once and nothing is written. |
| `SaveCodec.DecodePrefix` | dataManager.go:197-224 | Decoding the encodings of fields i to k-1, followed by any bytes, writes those fields with the saved values. Decoding then continues at field k on the bytes that follow. |
| `SaveCodec.DecodeStopsAtFirstError` | dataManager.go:197-224 | Take k correctly encoded fields followed by bytes the codec cannot decode. Loading them stops with `filled == k` and returns that decode's error. The first k fields hold the saved values, and field k and all later fields are untouched. |
| `SaveCodec.DecodeStopsAtTypeMismatch` | dataManager.go:197-224 | Take k correctly encoded fields followed by a value of the wrong Go type for field k. Loading them stops with `filled == k` and returns a type-mismatch error for field k. The fields before k hold the saved values, and the rest are untouched. |
| `SaveCodec.DecodeEncoded` | dataManager.go:160-226 | Decoding the encoding of the fields from position k on overwrites exactly those fields with what was encoded, and reports no error. |
| `SaveCodec.RoundTrip` | dataManager.go:160-226 | Loading a save, even with trailing bytes, gives back the saved record as gob saw it, with all seven fields filled and no error. In the model this holds whatever record is decoded into. The program decodes into a zero record. |
| `SaveCodec.RoundTripAsWritten` | dataManager.go:179-187 | As the type is declared, a round trip restores the four numbers and each list's descriptions in order, and gives every entry owned 0. |
| `SaveCodec.RoundTripExactIffUnowned` | dataManager.go:43-46 | As declared, a round trip returns the saved record if and only if no upgrade in it is owned. |
| `SaveCodec.PurchaseLostOnReload` | dataManager.go:43-46 | A Sales list holding one owned "Hire a worker" reloads with that upgrade not owned. |
| `SaveCodec.InitialRoundTrip` | dataManager.go:131-158 | A fresh record from `initGameState` survives a save and load unchanged, even as declared. |
| `SaveCodec.RoundTripExact` | dataManager.go:43-46 | With the ownership count exported, a round trip restores the record exactly. |
| `Sizzlestar.MoveActiveSelection` | sizzlestar.go:34-39 | The active tab becomes `moveSelection(tabs[activeTab], delta)`. activeTab, the number of tabs and every other tab are unchanged. |
| `Sizzlestar.Update` | sizzlestar.go:28-55 | The command is Quit if and only if the key is ctrl+c, q or esc, and Animate if and only if the message is a frame; otherwise it is none. The model changes only for the four arrow keys. up/down apply `moveSelection(tabs[activeTab], -1/+1)` to the active tab alone. left/right give exactly `moveTab(m, -1/+1)`. Only up/down require the active tab to exist. |
| `Sizzlestar.Selected` | sizzlestar.go:66-67 | Requires `0 <= activeTab < len(tabs)` and a selection inside that tab's upgrades. The result is one of the active tab's upgrades. |
| `Sizzlestar.View` | sizzlestar.go:58-75 | Has the same index preconditions. The frame is the tab bar, a newline, the styled description of the selected upgrade and the quit hint, in that order. |
| `Sizzlestar.UpdateKeepsCursor` | sizzlestar.go:28-67 | If the navigation steps keep cursors in range, `Update` keeps the active tab and every selection valid. The next `View` can then index its upgrade. |

## Left out

- File I/O: `loadBaseModel`, `loadConfig`, `saveGameState` and `loadGameState` (dataManager.go:61-129) and all of dataLoader.go read and write files and abort with `log.Fatal`. `loadGameState` probes `save.zsz` but reads `save.szs`, and on a read error it logs the stale `err`. Both slips sit in that I/O path.
- JSON decoding of the tab and config files is a foreign library. Unexported `selection` and `owned` are never filled by it, so they are 0 after a load.
- The gob byte format, including gob's once-per-stream type descriptors, is a foreign library. Only the ordered per-field codec is kept.
- `SaveCodec.UnmarshalGameState`: each field's decode is treated as all-or-nothing, so a field whose decode fails keeps its old value. Gob's slice decoding can resize the target list before an element fails, which would leave that list partly overwritten. The model does not promise that case.
- `SaveCodec.UnmarshalGameState`: loaded entries always get owned 0. Gob can reuse an existing slice's backing array and keep old unexported values. The only caller decodes into a zero record, where the two agree.
- The redeclarations in dataLoader.go and the three-field `model` literal at dataManager.go:78 are left out. The model uses dataManager.go's data types and sizzlestar.go's two-field `model`. `initGameState` therefore takes the tabs as a parameter.
- The float64 arithmetic itself (NaN, rounding) is left out. No modelled code computes with these values.
- menu.go: the `animate` and `wait` timer commands and `displayGrid` are rendering. `Init` and `main` are program wiring.
- The bodies of `moveTab` and `moveSelection`, and all purchase, cost-growth and accrual logic, are not part of this model. No modelled file defines them.
- `renderTabRow` and the lipgloss window style used by `View` are not part of this model either. They are parameters.

## Findings

| source | as written | input that shows it | evidently intended | confidence | as-written member | corrected member |
|---|---|---|---|---|---|---|
| dataManager.go:43-46 | `upgradeState.owned` is unexported. encoding/gob sends exported fields only, so a save drops every ownership count and a load gives 0. | A record whose sales list is `[{"Hire a worker", 1}]` reloads as `[{"Hire a worker", 0}]`. | Ownership counts survive a save and load. | high; not executed | `SaveCodec.PurchaseLostOnReload` | `SaveCodec.RoundTripExact` |
