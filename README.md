# Faction persistence reconciler

A Dafny model of how the game keeps its factions across a save and a load.
The program has one registry that holds exactly one `Faction` object for each
member of the `FactionName` enumeration. The model covers three things:

- **Start-up.** A fresh faction is built for every name. Then each
  augmentation's name is appended, in catalog order, to the `augmentations`
  of every faction the augmentation lists.
- **`loadFactions`.** It reads the saved faction records from an untyped,
  already-parsed value and applies each field only when it passes its guard:
  reputation and favor must be numbers ≥ 0, and discovery must be a member of
  the discovery enumeration. It then reconciles the player's joined list
  (member, invited, known, and the faction's enemies banned) and invited list
  (invited, known).
- **`getFactionsSave`.** It builds the sparse save. A faction appears only
  when it is not entirely at default, and its record holds only its non-zero,
  non-unknown fields.

Layout:

- `optional.dfy`: `Option`, which stands for a property that may be `undefined`.
- `json.dfy`: the parsed value tree, and the JavaScript operations the loader
  uses on it: truthiness, `typeof … === "object"`, property destructuring, and
  `Object.entries`. Arrays are keyed by their decimal index. An object's
  entries are kept as the save text writes them. When the text repeats a key,
  the object the loader sees holds that key once, at its first position, with
  the value written last, as `JSON.parse` builds it (`Json.Lookup`, `Json.Entries`).
- `enums.dfy`: the faction-name and discovery enumerations, with their string
  values and membership tests.
- `faction.dfy`: a faction's state as a value (`FactionState`), and the mutable
  `Faction` class with its favor setter.
- `registry_spec.dfy`, `load_spec.dfy`, `export_spec.dfy`: the three operations
  as functions on a table from names to states, with the lemmas that state what
  they guarantee.
- `factions.dfy`: the `Registry` class. Its constructor, its load methods and
  `GetFactionsSave` are proved equal to those functions on the registry's `View()`.

Behaviour of the code worth noting:

- Lines 28-29 `return` from the whole of `loadFactions`. A falsy top level, or
  one that is not of type object, therefore also skips the joined and invited
  passes, so a load with such input changes nothing at all (`LoadSpec.LoadTopLevel`).
- An array top level passes the `typeof` check. Its entries are keyed by
  index, and no index is a faction name, so no record is applied. The joined
  and invited passes still run (`LoadSpec.LoadTopLevel`).
- The invited pass sets discovery to `known` unconditionally, so it can
  replace any other discovery value that the faction's record set. `LoadSpec.LoadAt`
  states the discovery that results.

## Model

| member | source | states |
|---|---|---|
| `Json.Truthy` | src/Faction/Factions.ts:28 | a value is falsy exactly when it is null, false, 0 or the empty string; every array and object is truthy |
| `Json.IsObjectType` | src/Faction/Factions.ts:29 | `typeof` is "object" exactly for values that are not booleans, numbers or strings: null, arrays and objects |
| `Json.Lookup` | src/Faction/Factions.ts:36 | a property is absent exactly when no written entry has its key; otherwise its value is that of the last entry written with the key |
| `Json.Keys` | src/Faction/Factions.ts:30 | the object's keys: every written key occurs, each exactly once, and no other |
| `Json.EntriesLookup` | src/Faction/Factions.ts:30 | the entries `Object.entries` lists hold, under every key, the value a property read finds |
| `Json.Field` | src/Faction/Factions.ts:36 | destructuring a record that is not an object (an array, say) yields no field at all |
| `Json.Entries` | src/Faction/Factions.ts:30 | `Object.entries` of an array lists its elements keyed by their decimal index, in order; of an object it lists no key twice |
| `Enums.ParseFactionName` | src/Faction/Factions.ts:31 | a string passes the faction-name membership test only as the value of the member it returns |
| `Enums.ParseNameString` | src/Faction/Factions.ts:31 | every faction's own value passes the membership test and names that faction |
| `Enums.IndexKeyIsNoFaction` | src/Faction/Factions.ts:29-31 | no array index key is a faction name, so an array's entries are all skipped |
| `Enums.ParseDiscovery` | src/Faction/Factions.ts:45 | a value passes the discovery membership test only when it is the string of the member it returns |
| `FactionEntity.ClampNumber` | src/Faction/Factions.ts:39 | reputation is clamped to a lower bound only, and a value at or above the bound is kept |
| `FactionEntity.ClampFavor` | src/Faction/Factions.ts:42-43 | the favor setter stores a value in [0, MaxFavor], and keeps every value already in that range |
| `FactionEntity.Faction.constructor` | src/Faction/Factions.ts:14 | a new faction is named for its key and is at the default state |
| `FactionEntity.Faction.SetFavor` | src/Faction/Factions.ts:43 | only favor changes, to the clamped value |
| `RegistrySpec.DefaultTable` | src/Faction/Factions.ts:14 | the table built from the enumeration has an entry for every name, each at default |
| `RegistrySpec.Push` | src/Faction/Factions.ts:17-20 | the inner bootstrap loop keeps the table total |
| `RegistrySpec.Attach` | src/Faction/Factions.ts:16-21 | the outer bootstrap loop keeps the table total |
| `RegistrySpec.Bootstrap` | src/Faction/Factions.ts:14-21 | the registry after start-up has an entry for every faction name |
| `RegistrySpec.PushAt` | src/Faction/Factions.ts:17-20 | one augmentation adds its name to faction `n` once for each time it lists `n`, at the end, and changes nothing else |
| `RegistrySpec.AttachAt` | src/Faction/Factions.ts:16-21 | the catalog adds to `n`, in catalog order, exactly the names of the augmentations that link to it, and changes nothing else |
| `RegistrySpec.BootstrapAt` | src/Faction/Factions.ts:14-21 | after start-up each name has exactly one entry: at default, except that its augmentations are those whose faction list contains it, in catalog order, duplicates kept |
| `LoadSpec.ApplyRecord` | src/Faction/Factions.ts:32-45 | a record that is not an object changes nothing; reputation changes only to an accepted number ≥ 0 and then equals it; favor changes only for an accepted number and then equals its clamp; discovery changes only to a valid member; flags and augmentations are kept; values in range stay in range |
| `LoadSpec.ApplyEntry` | src/Faction/Factions.ts:31-46 | one entry keeps the table total |
| `LoadSpec.ApplyEntries` | src/Faction/Factions.ts:30-46 | the record pass keeps the table total |
| `LoadSpec.BanAll` | src/Faction/Factions.ts:57 | banning the enemies keeps the table total |
| `LoadSpec.Join` | src/Faction/Factions.ts:48-58 | one joined name keeps the table total |
| `LoadSpec.JoinAll` | src/Faction/Factions.ts:48-58 | the joined pass keeps the table total |
| `LoadSpec.Invite` | src/Faction/Factions.ts:60-67 | one invited name keeps the table total |
| `LoadSpec.InviteAll` | src/Faction/Factions.ts:60-67 | the invited pass keeps the table total |
| `LoadSpec.Load` | src/Faction/Factions.ts:25-68 | a load keeps the registry total: no faction is created or lost |
| `LoadSpec.ApplyEntriesNoFaction` | src/Faction/Factions.ts:31 | entries whose keys are not faction names change nothing |
| `LoadSpec.ArrayEntriesNoEffect` | src/Faction/Factions.ts:29-34 | the record pass over an array top level changes nothing |
| `LoadSpec.AcceptedNumber` | src/Faction/Factions.ts:37-41 | the guard accepts exactly a present number ≥ 0, and yields that number |
| `LoadSpec.Proceeds` | src/Faction/Factions.ts:28-29 | the load goes past its two checks exactly when the top level is an array or an object |
| `LoadSpec.ApplyEntriesAt` | src/Faction/Factions.ts:30-46 | with distinct keys, as every object's entries have, faction `n` receives exactly the record under its own name, if there is one; every other faction is untouched by that record |
| `LoadSpec.ApplyEntriesKeeps` | src/Faction/Factions.ts:30-46 | whatever the entries, the record pass keeps every flag and augmentation list, and keeps values in range |
| `LoadSpec.BanAllAt` | src/Faction/Factions.ts:57 | exactly the listed enemies become banned; nothing else changes |
| `LoadSpec.JoinAt` | src/Faction/Factions.ts:48-58 | one joined name makes its own faction a member, invited and known, bans exactly the enemies of that faction, and changes nothing else |
| `LoadSpec.JoinAllAt` | src/Faction/Factions.ts:48-58 | after the joined pass, `n` is a member exactly when it already was or its name is listed, and invited exactly when it already was or its name is listed; its discovery becomes known when its name is listed and is otherwise unchanged; it is banned exactly when it already was or is an enemy of a listed faction; nothing else changes |
| `LoadSpec.InviteAllAt` | src/Faction/Factions.ts:60-67 | after the invited pass, `n` becomes invited and known when its name is listed, and is otherwise unchanged; nothing else changes |
| `LoadSpec.LoadTopLevel` | src/Faction/Factions.ts:28-31 | a falsy or non-object top level changes nothing at all; an array top level applies no record, and only the joined and invited passes act |
| `LoadSpec.LoadAt` | src/Faction/Factions.ts:25-68 | per faction, a load sets: reputation and favor from its own record; discovery known when it is joined or invited, and otherwise its record's; membership, invitation and ban raised only by the lists; augmentations untouched |
| `LoadSpec.LastRecordLoaded` | src/Faction/Factions.ts:26-46 | for any object, however often it writes faction `n`'s key, `n`'s reputation, favor and discovery after a load come from the record written last under that key (discovery unless `n` is joined or invited) |
| `LoadSpec.RepeatedKeyLoadsLastRecord` | src/Faction/Factions.ts:26-46 | an example: a save that writes `CyberSec` twice loads only the second record, so the first record's favor is not applied |
| `LoadSpec.LoadMonotone` | src/Faction/Factions.ts:25-68 | for any input, a load keeps augmentations, never clears membership, invitation or ban, and keeps reputation and favor in range |
| `ExportSpec.NonZero` | src/Faction/Factions.ts:77 | a number or else undefined: the number is kept exactly when it is non-zero, and is then unchanged |
| `ExportSpec.ExportFaction` | src/Faction/Factions.ts:73-78 | a faction is saved exactly when discovery is not unknown or favor or reputation is non-zero, and each field is saved exactly when it is non-zero or not unknown |
| `ExportSpec.ExportTable` | src/Faction/Factions.ts:70-81 | the save holds, for each faction it lists, exactly that faction's saved record; every faction it omits is entirely at default |
| `ExportSpec.EncodeFaction` | src/Faction/Factions.ts:77 | a saved record reads back as an object with no repeated key and no key other than favor, playerReputation and discovery |
| `ExportSpec.EncodeSave` | src/Faction/Factions.ts:70-81 | the saved registry reads back as an object with no repeated key |
| `ExportSpec.EncodeEntriesLookup` | src/Faction/Factions.ts:71-79 | in the saved object, the entry under faction `n`'s name is `n`'s record exactly when `n` is listed and saved, and is absent otherwise |
| `ExportSpec.EncodeEntriesDistinct` | src/Faction/Factions.ts:71-79 | the saved object never has two entries under the same key |
| `ExportSpec.RestoredFromSave` | src/Faction/Factions.ts:70-80 | reading faction `n`'s record back from the save of a table gives a default faction `n`'s saved reputation, favor and discovery when they are in range |
| `ExportSpec.EncodedFields` | src/Faction/Factions.ts:77 | each field of a saved record reads back as saved, and an omitted field reads back as absent |
| `ExportSpec.ApplyEncoded` | src/Faction/Factions.ts:37-45 | loading a faction's saved record into a default faction restores its reputation, favor and discovery when they are in range |
| `ExportSpec.ExportLoadRoundTrip` | src/Faction/Factions.ts:70-80 | saving, then loading with empty joined and invited lists into a registry whose faction `n` is at default restores `n`'s reputation, favor and discovery when in range, and changes nothing else of `n` |
| `ExportSpec.RoundTripIntoFreshRegistry` | src/Faction/Factions.ts:14-81 | saving a registry whose values are in range, then loading into a freshly started registry, restores every faction's reputation, favor and discovery |
| `Factions.Registry.constructor` | src/Faction/Factions.ts:14-21 | start-up builds one fresh faction object per name and leaves the registry equal to `Bootstrap(catalog)` |
| `Factions.Registry.NewFactions` | src/Faction/Factions.ts:14 | one fresh faction object per name, named for its key and at the default state |
| `Factions.Registry.AddAugmentations` | src/Faction/Factions.ts:16-21 | the outer bootstrap loop leaves the registry equal to `Attach` of its previous state |
| `Factions.Registry.AddAugmentation` | src/Faction/Factions.ts:17-20 | the inner bootstrap loop leaves the registry equal to `Push` of its previous state |
| `Factions.Registry.LoadFactions` | src/Faction/Factions.ts:25-68 | loading in place leaves the registry equal to `Load` of its previous state |
| `Factions.Registry.LoadRecords` | src/Faction/Factions.ts:30-46 | the record loop leaves the registry equal to `ApplyEntries` of its previous state |
| `Factions.Registry.LoadJoined` | src/Faction/Factions.ts:48-58 | the joined loop, with its inner ban loop, leaves the registry equal to `JoinAll` of its previous state |
| `Factions.Registry.BanEnemies` | src/Faction/Factions.ts:57 | the inner ban loop leaves the registry equal to `BanAll` of its previous state |
| `Factions.Registry.LoadInvited` | src/Faction/Factions.ts:60-67 | the invited loop leaves the registry equal to `InviteAll` of its previous state |
| `Factions.ApplySaved` | src/Faction/Factions.ts:35-45 | applying one record in place gives the faction the state `ApplyRecord` describes |
| `Factions.Registry.GetFactionsSave` | src/Faction/Factions.ts:70-81 | the save built by the loop is `ExportTable` of the registry, and the registry is not modified |

## Left out

- `JSON.parse` with its reviver: the loader receives the already-parsed value tree.
- `JSON.stringify` of the save is modelled only as the tree it parses back to (`ExportSpec.EncodeSave`): fields that are `undefined` are dropped and keys follow the enumeration's order.
- The `console.error` diagnostics for unknown names in the player's lists: those names are skipped and nothing is reported.
- `getInfo().enemies`, the augmentation catalog and the player's two lists are parameters. Their contents are not part of this model.
- The `FactionName` enumeration has only a representative subset of the game's members. The proofs rely only on the members' string values being distinct and none being a decimal numeral, which also holds of the game's full enumeration.
- The `Faction` class is not part of this model. Its constructor is taken to start at reputation 0, favor 0, discovery `unknown`, all flags false and no augmentations. `setFavor` is taken to clamp to [0, MaxFavor]. `MaxFavor` is taken as 35331.
- `assertLoadingType` has no runtime effect and is not modelled.
- Numbers are reals: NaN, the infinities and the `Number.MAX_VALUE` upper bound of the reputation clamp are not modelled.
- Destructuring reads own properties only. Inherited properties and a `__proto__` key are not modelled.
- `Object.entries` lists an object's entries in insertion order. JavaScript lists integer-like keys first. Such keys are never faction names, so this does not change any outcome.
- `Factions.Registry.LoadFactions` runs its three loops as three methods (`LoadRecords`, `LoadJoined`, `LoadInvited`). The steps and their order are the same.
