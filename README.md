# Storage: a synchronising cell over a key-value store

This project models the `Storage` property wrapper of the Swift package
`Storage` and its private `RefStorage` observer. A `Storage` cell mirrors one key
of a `UserDefaults` store into a local value, and keeps the two in sync in both
directions. The cell works over `UserDefaults` only: `Storage` and `RefStorage`
take a `UserDefaults` instance and rely on key-value observation,
`value(forKey:)`, `url(forKey:)`, `data(forKey:)`, `set(_:forKey:)` and
`setValue(_:forKey:)`. The `KeyValueStore` protocol declared beside them is not
used by the cell.

- **Construction.** A typed initialiser reads the store. The initial value is
  the stored value when it has the cell's shape, otherwise `wrappedValue` (or
  `nil` for the optional variants). That loaded value is also frozen as
  `defaultValue`, the fallback for later notifications.
- **Local write** (`wrappedValue = v`). The commit handler writes the encoding
  of `v` to the store first. The cell is assigned `v` second.
- **Change notification** (`observeValue`). The store reports the new raw
  value of the key, or `NSNull` when the key was removed. The cell is
  overwritten with the decoded value or, when it does not decode, with
  `defaultValue`. The previous value is never kept.

Modules, one per part of `Sources/Storage/Storage.swift`:

- `RawValues`: the raw stored values, modelled as a sum type `Raw` standing for
  the `Any?` a store hands out. Also `Option`, and two abstract types:
  `Float64` for `Double` and `Url` for `URL`.
- `KeyValueStores`: the store. The class `MemoryStore` stands for a
  `UserDefaults` instance and holds a `map<string, Raw>`. Its `ValueForKey` and
  `Set` model the `KeyValueStore` protocol's two methods as `UserDefaults`
  implements them; storing `Absent` removes the key. `ChangeValue` is the value
  a change notification carries after a write.
- `Codecs`: the `as?` casts that serve as notification decoders, the encodings
  the commit handlers store, the construction-time reads, and the round-trip
  lemmas.
- `CellSpec`: the cell as a pure state machine. The state is a `World` (store
  entries plus `value` and `defaultValue`), changed by `LocalWrite` and
  `ExternalWrite` events (`Step`, `Run`). A local write is the commit, then the
  notification of the commit if one arrives, then the assignment. It holds the
  lemmas about sequences of events:
  - `defaultValue` never changes;
  - the last local write wins;
  - an external change resets the cell to the decoding or to the default;
  - a cell stays coherent with the store (see below).
- `Observation`: the class `RefStorage`, with the fields `value` and
  `defaultValue`, `ObserveValue` and `Deinit`.
- `PropertyWrapper`: the `Storage` wrapper with `wrappedValue` get/set and
  `projectedValue`, the `Binding`, and the fourteen typed initialisers. The
  methods are proved to follow `CellSpec.Step`.

Notifications are explicit method calls. A notification that the store fires
while a local write is being committed is modelled by the `delivered` flag of
`SetWrappedValue`. Whether or not it fires, the cell ends up holding the value
written. In `CellSpec.Step` the two outcomes coincide by definition; that the
setter commits before it assigns, so that the assignment has the last word, is
proved by `SetWrappedValue` itself. A write by another party is modelled by `ExternalChange`: the store is
written, then the cell is notified if the key is the one it observes.

**Coherence.** A cell is *coherent* when its value is what a notification of
the value currently stored would produce. For a coherent cell, a redundant
notification is exactly a no-op (`RedundantNotificationIsNoOp`). The Bool,
Int, Double, String and Data cells and their optional forms start coherent
(`ConstructionIsCoherent`, and the `ensures` of their initialisers); the `URL?`
cell need not (`OptionalUrlCanStartIncoherent`). Cells stay coherent through
any history when their codec is *faithful*, meaning every value survives a
notification of its own encoding (`RunPreservesCoherence`). Faithfulness holds
for the Bool, Int, Double, String and Data cells and their optional forms
whatever the default (`OptionalCodecIsFaithful`), and for the `URL?` cell
whatever the default provided `URL(string: u.absoluteString) == u`
(`OptionalUrlCodecIsFaithful`), because a removal is reported as `NSNull` and `NSNull` casts to `nil` (both are the model's reading
of Foundation and Swift; see "Left out").

Behaviours of the code that a user of the wrapper may not expect, each
exhibited by a lemma:

- The fallback is the value *loaded* at construction, not the `wrappedValue`
  supplied. An `Int?` cell, whose `wrappedValue` is always `nil`, created while
  the store held 3 returns to 3, not to `nil`, on a payload of another type;
  a removal of the key clears it to `nil` (`CellSpec.OptionalIntNotifications`).
- `observeValue` restores `defaultValue` without calling the decoder when the
  change carries no new value at all (`Observation.RefStorage.ObserveValue`
  with `Absent`). Key-value observation registered with `.new` always carries
  one, so the cells reach this case only through that method.
- For `Value == URL?`, the decoder `($0 as? String).flatMap(URL.init)` has
  type `URL?`, and the model reads Swift as promoting that to `Value?` (see
  "Left out"). So this decoder never fails: a payload that is not a parsable string sets the cell to `nil`
  instead of restoring the default (`CellSpec.OptionalUrlMismatchClears`).
- The non-optional URL cell commits with `set(_: URL, forKey:)`, which stores
  the archived URL. But it decodes notifications as strings. A notification
  carrying what it wrote therefore resets it to its default
  (`CellSpec.UrlArchiveNotificationResets`).
- Enumeration cells read the stored primitive through `init(rawValue:)` at
  construction. Notifications, however, go through a plain cast `$0 as? Value`.
  That cast is a parameter of the model (`RawRepresentable.cast`), not a
  raw-value lookup. When it does not recognise the stored raw value, a
  notification of the cell's own write resets the cell
  (`CellSpec.StringEnumNotificationResets`, `CellSpec.IntEnumNotificationResets`).

## Model

| member | source | states |
|---|---|---|
| `KeyValueStores.Lookup` | Sources/Storage/Storage.swift:200 | a missing key reads as absent; a present key reads its stored value |
| `KeyValueStores.Put` | Sources/Storage/Storage.swift:201 | after `set(raw, forKey: key)`, `key` reads back `raw`; every other key reads as before; storing nothing removes the key; a store never holds `Absent` |
| `KeyValueStores.PutLookupIsIdentity` | Sources/Storage/Storage.swift:200-201 | writing back the value a key already holds leaves the store unchanged |
| `KeyValueStores.ChangeValue` | Sources/Storage/Storage.swift:187-194 | the new value a notification carries after a write is what was written, or `NSNull` for a removal; it is never missing |
| `KeyValueStores.MemoryStore.ValueForKey` | Sources/Storage/Storage.swift:200 | `value(forKey:)` on the store answers `Lookup` of its current entries |
| `KeyValueStores.MemoryStore.Set` | Sources/Storage/Storage.swift:201 | `set(_:forKey:)` replaces the entries by `Put` of the old entries and stays wellformed |
| `Codecs.AsBool` | Sources/Storage/Storage.swift:45 | `as? Bool` succeeds exactly on a raw Bool, and what it yields re-encodes to that raw value |
| `Codecs.AsInt` | Sources/Storage/Storage.swift:53 | `as? Int` succeeds exactly on a raw Int, yielding its value |
| `Codecs.AsDouble` | Sources/Storage/Storage.swift:61 | `as? Double` succeeds exactly on a raw Double, yielding its value |
| `Codecs.AsString` | Sources/Storage/Storage.swift:69 | `as? String` succeeds exactly on a raw String, yielding its value |
| `Codecs.AsData` | Sources/Storage/Storage.swift:83-85 | `as? Data` and `data(forKey:)` succeed exactly on raw Data, yielding its bytes |
| `Codecs.AsOptional` | Sources/Storage/Storage.swift:95-97 | `as? T?` casts a missing value and `NSNull` to a successful `nil`, and any other value exactly as the cast to T does |
| `Codecs.AsUrl` | Sources/Storage/Storage.swift:77 | `($0 as? String).flatMap(URL.init)` yields a URL only from a raw string that parses, and is the parse of any raw string |
| `Codecs.Loaded` | Sources/Storage/Storage.swift:43 | `value(forKey:) as? Value ?? wrappedValue` is the stored value when the cast succeeds and the fallback otherwise |
| `Codecs.LoadedEnum` | Sources/Storage/Storage.swift:147-148 | an enumeration cell starts at `init(rawValue:)` of the stored primitive; it falls back when the primitive is missing, has the wrong type or matches no case |
| `Codecs.EncodeOptional` | Sources/Storage/Storage.swift:93-139 | in every optional initialiser but the URL one, committing `nil` removes the key and committing `Some(x)` stores what committing x would |
| `Codecs.EncodeOptionalUrl` | Sources/Storage/Storage.swift:130 | committing `nil` removes the key, and only `nil` does; a URL is stored as its `absoluteString` |
| `Codecs.BoolCodec` | Sources/Storage/Storage.swift:45-46 | the Bool cell stores b as the raw Bool b and decodes with `as? Bool`; so every value decodes back to itself, and neither a missing value nor `NSNull` decodes |
| `Codecs.IntCodec` | Sources/Storage/Storage.swift:53-54 | the Int cell stores i as the raw Int i and decodes with `as? Int`; round trip and failure on missing/`NSNull` as for Bool |
| `Codecs.DoubleCodec` | Sources/Storage/Storage.swift:61-62 | the Double cell stores d as the raw Double d and decodes with `as? Double`; round trip and failure on missing/`NSNull` as for Bool |
| `Codecs.StringCodec` | Sources/Storage/Storage.swift:69-70 | the String cell stores s as the raw String s and decodes with `as? String`; round trip and failure on missing/`NSNull` as for Bool |
| `Codecs.DataCodec` | Sources/Storage/Storage.swift:85-86 | the Data cell stores its bytes as raw Data and decodes with `as? Data`; round trip and failure on missing/`NSNull` as for Bool |
| `Codecs.UrlCodec` | Sources/Storage/Storage.swift:77-78 | the URL cell stores u as the archived URL and decodes with `($0 as? String).flatMap(URL.init)`: a raw string decodes to its parse, any other shape fails, so nothing it commits decodes; neither a missing value nor `NSNull` decodes |
| `Codecs.OptionalCodec` | Sources/Storage/Storage.swift:97-98 | an optional cell's `nil` removes the key and `Some(x)` stores the plain encoding of x; it decodes with `as? T?` over the plain cast, so a missing value and `NSNull` decode to `nil` |
| `Codecs.OptionalUrlCodec` | Sources/Storage/Storage.swift:129-130 | the `URL?` decoder never fails, decodes a raw string to its parse, and yields a URL exactly from a raw string that parses; `nil` removes the key and a URL is stored as its `absoluteString` |
| `Codecs.StringEnumCodec` | Sources/Storage/Storage.swift:150-151 | a String-backed enumeration stores the String raw value of its case and decodes notifications with the plain cast |
| `Codecs.IntEnumCodec` | Sources/Storage/Storage.swift:159-160 | an Int-backed enumeration stores the Int raw value of its case and decodes notifications with the plain cast |
| `Codecs.BoolRoundTrip` | Sources/Storage/Storage.swift:45-46 | the Bool decoder yields b exactly from the raw value that committing b stores, both directions |
| `Codecs.IntRoundTrip` | Sources/Storage/Storage.swift:53-54 | the Int decoder yields i exactly from the encoding of i |
| `Codecs.DoubleRoundTrip` | Sources/Storage/Storage.swift:61-62 | the Double decoder yields d exactly from the encoding of d |
| `Codecs.StringRoundTrip` | Sources/Storage/Storage.swift:69-70 | the String decoder yields s exactly from the encoding of s |
| `Codecs.DataRoundTrip` | Sources/Storage/Storage.swift:85-86 | the Data decoder yields the bytes exactly from their encoding |
| `Codecs.OptionalRoundTrip` | Sources/Storage/Storage.swift:97-98 | for a round-tripping base, the optional decoder gives back every optional value committed, `nil` included |
| `Codecs.OptionalReload` | Sources/Storage/Storage.swift:95-98 | an optional cell created over what an optional cell committed loads that value, `nil` included |
| `Codecs.OptionalUrlRoundTrip` | Sources/Storage/Storage.swift:129-130 | given `URL(string: u.absoluteString) == u`, the optional URL cell decodes what it commits; committing `nil` removes the key |
| `Codecs.StringEnumReload` | Sources/Storage/Storage.swift:147-151 | given `init(rawValue: e.rawValue) == e`, a String-backed enumeration cell created over a committed case loads that case |
| `Codecs.IntEnumReload` | Sources/Storage/Storage.swift:156-160 | the same for Int-backed enumerations |
| `CellSpec.Observed` | Sources/Storage/Storage.swift:194 | a notification yields the decoded payload, or `defaultValue` when the payload is missing or does not decode |
| `CellSpec.Step` | Sources/Storage/Storage.swift:187-194 | a local write (lines 19-22) stores v's encoding and leaves the cell at v even when the notification of the commit arrives before the assignment; an external write stores its raw value and sets the cell to `Observed` of what the notification carries, only for the cell's key; `defaultValue` never changes |
| `CellSpec.Run` | Sources/Storage/Storage.swift:170-181 | no history of local writes and notifications changes `defaultValue` |
| `CellSpec.Initial` | Sources/Storage/Storage.swift:179-181 | right after construction, `value` and `defaultValue` both equal the loaded value and the store is as it was |
| `CellSpec.LastLocalWriteWins` | Sources/Storage/Storage.swift:19-22 | after any history ending in `wrappedValue = v`, the cell reads v and the store holds v's encoding under the key, whether or not a notification arrived during the commit |
| `CellSpec.ExternalWriteDecides` | Sources/Storage/Storage.swift:194 | after any history ending in an external write of `raw` to the key, the cell holds the decoding of what the notification carries, or the construction-time default, never an earlier value |
| `CellSpec.OtherKeysDoNotNotify` | Sources/Storage/Storage.swift:187 | a write under another key changes neither the cell nor what the cell's key reads |
| `CellSpec.RedundantNotificationIsNoOp` | Sources/Storage/Storage.swift:194 | re-notifying the stored value changes nothing if and only if the cell is coherent with the store |
| `CellSpec.RoundTripIsFaithful` | Sources/Storage/Storage.swift:190-194 | a codec that round-trips survives a notification of its own encoding, whatever the default |
| `CellSpec.RunPreservesCoherence` | Sources/Storage/Storage.swift:190-194 | with a faithful codec, every history of local writes and external writes keeps the cell coherent with the store |
| `CellSpec.ConstructionIsCoherent` | Sources/Storage/Storage.swift:179-181 | a cell whose construction read is its own decoder starts coherent with the store, whatever the fallback, when a missing value and `NSNull` decode alike |
| `CellSpec.OptionalCodecIsFaithful` | Sources/Storage/Storage.swift:95-98 | an optional cell over a round-tripping codec is faithful whatever its default |
| `CellSpec.OptionalUrlCodecIsFaithful` | Sources/Storage/Storage.swift:127-130 | given `URL(string: u.absoluteString) == u`, the optional URL cell is faithful whatever its default |
| `CellSpec.UrlArchiveNotificationResets` | Sources/Storage/Storage.swift:75-78 | a notification carrying the archived URL that a URL cell commits resets the cell to its default, so a URL cell with another value is not faithful |
| `CellSpec.OptionalUrlMismatchClears` | Sources/Storage/Storage.swift:129 | for the optional URL cell, a write of anything but a parsable string, a removal included, sets the cell to `nil` |
| `CellSpec.StringEnumNotificationResets` | Sources/Storage/Storage.swift:150-151 | when the plain cast does not recognise the committed String raw value, a notification of it resets a String-backed enumeration cell to its default, so the cell is not faithful |
| `CellSpec.IntEnumNotificationResets` | Sources/Storage/Storage.swift:159-160 | the same for an Int-backed enumeration cell |
| `CellSpec.OptionalUrlCanStartIncoherent` | Sources/Storage/Storage.swift:125-131 | a `URL?` cell created over an archived URL that `url(forKey:)` reads starts incoherent: a notification of the stored value gives `nil` |
| `CellSpec.CountScenario` | Sources/Storage/Storage.swift:49-55 | an Int cell with default 0 reads 0, reads 5 after writing 5 with 5 stored, and reads 0 after an external non-number or a removal |
| `CellSpec.OptionalIntNotifications` | Sources/Storage/Storage.swift:101-106 | an `Int?` cell created over a stored 3 is cleared to `nil` by a removal and returns to 3 on a payload of another type |
| `Observation.RefStorage.constructor` | Sources/Storage/Storage.swift:179-188 | the initial value is both `value` and `defaultValue`; store, key and decoder are kept; the cell is registered as an observer |
| `Observation.RefStorage.ObserveValue` | Sources/Storage/Storage.swift:190-195 | `value` becomes `Observed(transform, defaultValue, change)`; only a registered cell is notified |
| `Observation.RefStorage.Deinit` | Sources/Storage/Storage.swift:175-177 | the cell stops observing; no notification can reach it afterwards |
| `PropertyWrapper.Storage.WrappedValue` | Sources/Storage/Storage.swift:18 | the getter returns the cell's value and changes nothing |
| `PropertyWrapper.Storage.SetWrappedValue` | Sources/Storage/Storage.swift:19-22 | after a write of v the cell reads v; the store holds v's encoding under the key; no other key changes; the new state is `Step` of the old |
| `PropertyWrapper.Storage.ProjectedValue` | Sources/Storage/Storage.swift:25-29 | the binding is over this wrapper |
| `PropertyWrapper.Binding.Get` | Sources/Storage/Storage.swift:27 | the binding's getter returns `wrappedValue` |
| `PropertyWrapper.Binding.Set` | Sources/Storage/Storage.swift:28 | the binding's setter is `wrappedValue = v` |
| `PropertyWrapper.BindingWriteThenRead` | Sources/Storage/Storage.swift:25-29 | `set(v)` followed by `get()` through the binding yields v |
| `PropertyWrapper.ExternalChange` | Sources/Storage/Storage.swift:187-194 | a write by another party to the store changes the store and, for the observed key, notifies the cell; the new state is `Step` of the old |
| `PropertyWrapper.Make` | Sources/Storage/Storage.swift:32-35 | the wrapper holds a fresh registered cell with the given value, decoder and commit encoding |
| `PropertyWrapper.BoolStorage` | Sources/Storage/Storage.swift:41-47 | the Bool cell starts at the stored Bool if any, else `wrappedValue`; it starts coherent |
| `PropertyWrapper.IntStorage` | Sources/Storage/Storage.swift:49-55 | the Int cell starts at the stored Int if any, else `wrappedValue`; it starts coherent |
| `PropertyWrapper.DoubleStorage` | Sources/Storage/Storage.swift:57-63 | the Double cell starts at the stored Double if any, else `wrappedValue`; it starts coherent |
| `PropertyWrapper.StringStorage` | Sources/Storage/Storage.swift:65-71 | the String cell starts at the stored String if any, else `wrappedValue`; it starts coherent |
| `PropertyWrapper.UrlStorage` | Sources/Storage/Storage.swift:73-79 | the URL cell starts at `url(forKey:)` if any, else `wrappedValue`; it decodes strings and commits the archived URL |
| `PropertyWrapper.DataStorage` | Sources/Storage/Storage.swift:81-87 | the Data cell starts at the stored Data if any, else `wrappedValue`; it starts coherent |
| `PropertyWrapper.OptionalBoolStorage` | Sources/Storage/Storage.swift:93-99 | the `Bool?` cell starts at the stored Bool if any, else `nil`; it starts coherent |
| `PropertyWrapper.OptionalIntStorage` | Sources/Storage/Storage.swift:101-107 | the `Int?` cell starts at the stored Int if any, else `nil`; it starts coherent |
| `PropertyWrapper.OptionalDoubleStorage` | Sources/Storage/Storage.swift:109-115 | the `Double?` cell starts at the stored Double if any, else `nil`; it starts coherent |
| `PropertyWrapper.OptionalStringStorage` | Sources/Storage/Storage.swift:117-123 | the `String?` cell starts at the stored String if any, else `nil`; it starts coherent |
| `PropertyWrapper.OptionalUrlStorage` | Sources/Storage/Storage.swift:125-131 | the `URL?` cell starts at `url(forKey:)`; it commits `absoluteString`, or removes the key for `nil` |
| `PropertyWrapper.OptionalDataStorage` | Sources/Storage/Storage.swift:133-139 | the `Data?` cell starts at the stored Data if any, else `nil`; it starts coherent |
| `PropertyWrapper.StringEnumStorage` | Sources/Storage/Storage.swift:145-152 | the cell starts at the case whose String raw value is stored, else `wrappedValue`; it commits `rawValue` |
| `PropertyWrapper.IntEnumStorage` | Sources/Storage/Storage.swift:154-161 | the cell starts at the case whose Int raw value is stored, else `wrappedValue`; it commits `rawValue` |
| `PropertyWrapper.IntCellScenario` | Tests/StorageTests/UserDefaults/DefaultsIntTests.swift:6-31 | an Int cell created with 1 reads 1; after writing 2 it reads 2 and the store holds 2; after an external write of 3 it reads 3 |
| `PropertyWrapper.OptionalBindingScenario` | Sources/Storage/Storage.swift:25-29 | an `Int?` cell over an empty store reads `nil`; a write through the binding reads back `Some(v)`, the sequence `testOptional` in DefaultsIntTests.swift runs through `wrappedValue` |

## Left out

- SwiftUI glue: `DynamicProperty`, `@ObservedObject`, `@Published` and view invalidation are framework behaviour.
- Key-value observation as a mechanism: registration is a flag on `RefStorage`, and a notification is an explicit call to `ObserveValue`. The thread of delivery, concurrent delivery and re-entrancy are not modelled, apart from one synchronous delivery during a commit (`delivered`).
- Other cells observing the same key of the same store: only the one cell in each `World` is notified.
- The default store `.standard` chosen when no store is passed: every initialiser takes its store explicitly.
- Persistence by `UserDefaults`: the store is an in-memory map.
- The `KeyValueStore` protocol and its conformances (Sources/Storage/Storage.swift:199-205): no cell uses them; `MemoryStore` stands for the `UserDefaults` the cells take.
- A stored `NSNull`: `MemoryStore.Set` accepts `RNull`, which `UserDefaults` refuses as no property-list value; no initialiser commits it.
- `Double` arithmetic and floating-point semantics: `Float64` is an abstract type compared only for equality.
- `URL.init(string:)`, `absoluteString`, `url(forKey:)` and the archived URL form: these are uninterpreted parameters (`UrlApi`) and the opaque raw shape `RUrl`. No URL round trip is claimed beyond hypotheses about these functions. Foundation archives a URL stored by `set(_: URL, forKey:)` to data, so `data(forKey:)` and `as? Data` succeed on it, while on `RUrl` the model's `AsData` fails; this differs only when a `Data` cell and a URL cell share a key.
- Codecs.OptionalUrlCodec: that Swift infers `flatMap(URL.init)` at line 129 so that its `URL?` result is promoted to `URL??`, making the decoder never fail, is the model's reading of Swift's type inference, not something it derives; were `U = URL?` chosen, a payload that is not a string, the `NSNull` of a removal included, would restore the default instead. `CellSpec.OptionalUrlMismatchClears`, `CellSpec.OptionalUrlCodecIsFaithful` and `CellSpec.OptionalUrlCanStartIncoherent` rest on it.
- Codecs.AsBool, Codecs.AsInt, Codecs.AsDouble: Foundation's `NSNumber` bridging is not modelled, so a stored `true` never casts to the Int 1, a stored Int 3 never casts to the Double 3.0, and likewise for the other pairs. Every cast is an exact match on the raw shape.
- Codecs.AsInt: Swift's 64-bit `Int` width is not modelled; integers are unbounded, and no operation here does arithmetic on them.
- KeyValueStores.ChangeValue: that key-value observation registered with `.new` reports a removed key as `NSNull` under `.newKey` is Foundation behaviour the model assumes, not something it derives.
- Codecs.AsOptional: that `NSNull as? T?` succeeds with `nil` is the model's reading of Swift's dynamic casts, not something it derives; `CellSpec.OptionalCodecIsFaithful`, `CellSpec.OptionalIntNotifications` and the `Coherent` clauses of the five optional initialisers other than the URL one rest on it.
- CellSpec.OptionalUrlCodecIsFaithful: holds only under the hypothesis `URL(string: u.absoluteString) == u`, which the uninterpreted URL functions are not known to satisfy.
- The plain cast `$0 as? Value` to an enumeration type: it is the uninterpreted `RawRepresentable.cast`.
- The test files: most of them construct types that `Sources/Storage/Storage.swift` does not declare (`DefaultsStorage`, `Storage<UserDefaults, T?>`); only DefaultsStringTests.swift and DefaultsURLTests.swift build `Storage<T>` and `Storage<T?>` through the declared initialisers. They serve here only as evidence of intended behaviour.
- `Package.swift`, a build manifest.
