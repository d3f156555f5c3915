# Design-pattern demos, modelled in Dafny

This project models the four stateful demos of a small Kotlin collection of
design-pattern examples:

- **Observer** (`ObserverRegistry`, observer.dfy): a YouTube channel's ordered
  observer list. `addObserver` appends, `removeObserver` drops the first equal
  handle (or does nothing), `notifyObserver` updates every observer in
  registration order, and `releaseNewVideo` announces the video and then
  notifies. Observers are opaque values compared with `==`, standing for
  Kotlin's `equals`. Notify and release return the trace of events they
  cause (`Updated(o)`, `Released(video)`) instead of performing them.
  `Step`/`Run` replay a sequence of calls on the channel.
- **Builder** (`Builder`, builder.dfy): the hamburger builder as a record of
  three Booleans. A fresh builder has every topping off. Each setter changes
  its own topping only. `Build` copies the toppings into a `Hamburger`, and
  `ToString` renders them as `cheese beef onions`. A small parser (`Parse`) is
  the inverse of the rendering and is used to prove that no information is lost.
- **Factory** (`Factory`, factory.dfy): `createDialog` as a total function from
  the three-valued `DialogType` to the three-variant `Dialog`, with its
  inverse `TypeOf`.
- **Strategy** (`Strategy`, strategy.dfy): a character's kind (King, Queen,
  Knight) and current weapon (Sword, Knife, Axe, Gun; Knife at construction).
  `Fight` and `Display` return the line they would print. `Perform` replays a
  driver's actions on a character.

`Optional` (optional.dfy) holds the `Option` type that the parsers and the
reverse weapon lookup return.

## Model

| member | source | states |
|---|---|---|
| ObserverRegistry.NewRegistry | src/main/kotlin/patterns/observer/YoutubeChannel.kt:5 | a new channel has no observer registered |
| ObserverRegistry.AddObserver | src/main/kotlin/patterns/observer/YoutubeChannel.kt:7-9 | the list grows by one; the earlier entries are unchanged and in order; the new handle is last; a handle already present gains one more registration, so duplicates are not removed |
| ObserverRegistry.IndexOf | src/main/kotlin/patterns/observer/YoutubeChannel.kt:11-13 | the position that list removal searches for: -1 exactly when the handle is absent, otherwise an entry equal to the handle with no equal entry before it |
| ObserverRegistry.RemoveObserver | src/main/kotlin/patterns/observer/YoutubeChannel.kt:11-13 | removing an absent handle leaves the list unchanged; removing a present one shortens the list by exactly one |
| ObserverRegistry.RemoveObserverCounts | src/main/kotlin/patterns/observer/YoutubeChannel.kt:11-13 | removal takes away one registration of the handle if it has any, and no registration of any other handle |
| ObserverRegistry.RemoveIsSpliceAtIndexOf | src/main/kotlin/patterns/observer/YoutubeChannel.kt:11-13 | for a present handle, removal cuts out exactly its first occurrence, and every other entry keeps its relative order |
| ObserverRegistry.AddThenRemoveRestores | src/main/kotlin/patterns/observer/YoutubeChannel.kt:7-13 | adding a handle that was not registered and then removing it gives back the original list |
| ObserverRegistry.AddThenRemoveHitsEarliest | src/main/kotlin/patterns/observer/YoutubeChannel.kt:7-13 | adding an already registered handle and then removing it takes out the earlier registration, so the new duplicate stays at the end |
| ObserverRegistry.NotifyObserver | src/main/kotlin/patterns/observer/YoutubeChannel.kt:15-17 | a broadcast makes one update per list entry, the i-th update going to the i-th registered observer; an empty list gives no updates |
| ObserverRegistry.NotifyAppend | src/main/kotlin/patterns/observer/YoutubeChannel.kt:15-17 | broadcasting to a list made of two parts updates the first part completely, then the second |
| ObserverRegistry.NotifyCountsOccurrences | src/main/kotlin/patterns/observer/YoutubeChannel.kt:15-17 | an observer registered k times is updated exactly k times per broadcast |
| ObserverRegistry.NotifyHasNoRelease | src/main/kotlin/patterns/observer/YoutubeChannel.kt:15-17 | a broadcast alone never announces a video |
| ObserverRegistry.ReleaseNewVideo | src/main/kotlin/patterns/observer/YoutubeChannel.kt:19-22 | releasing a video announces it first, then updates every observer in registration order, and causes nothing else |
| ObserverRegistry.ReleaseAfterAdd | src/main/kotlin/patterns/observer/YoutubeChannel.kt:7-22 | after adding an observer, every release produces the trace it produced before, followed by one update for the newly added observer |
| ObserverRegistry.Step | src/main/kotlin/patterns/observer/YoutubeChannel.kt:7-22 | notify and release leave the observer list unchanged; add and remove cause no event |
| ObserverRegistry.RunLength | src/main/kotlin/patterns/observer/YoutubeChannel.kt:7-13 | after any sequence of calls, the list length equals the old length plus the adds minus the removes whose handle was registered at that moment |
| ObserverRegistry.RemoveMiddleScenario | src/main/kotlin/patterns/observer/YoutubeChannel.kt:7-17 | after registering distinct A, B and C and removing B, a broadcast updates A and then C, and never B |
| ObserverRegistry.ReleaseScenario | src/main/kotlin/observer/Main.kt:10-15 | after registering three subscribers and one inline observer, releasing the demo video announces it first and then updates the four observers in registration order |
| Builder.NewBuilder | src/main/kotlin/patterns/builder/Main.kt:9-11 | a fresh builder has cheese, beef and onions all off |
| Builder.Cheese | src/main/kotlin/patterns/builder/Main.kt:13 | the cheese setter sets cheese to the given value and leaves beef and onions unchanged |
| Builder.Beef | src/main/kotlin/patterns/builder/Main.kt:14 | the beef setter sets beef to the given value and leaves cheese and onions unchanged |
| Builder.Onions | src/main/kotlin/patterns/builder/Main.kt:15 | the onions setter sets onions to the given value and leaves cheese and beef unchanged |
| Builder.Build | src/main/kotlin/patterns/builder/Main.kt:17 | the hamburger has exactly the builder's current toppings |
| Builder.LastWriteWins | src/main/kotlin/patterns/builder/Main.kt:13-15 | setting the same topping twice is the same as setting it once to the second value |
| Builder.SettersCommute | src/main/kotlin/patterns/builder/Main.kt:13-15 | setters of different toppings give the same builder in either order |
| Builder.EveryHamburgerBuildable | src/main/kotlin/patterns/builder/Main.kt:9-17 | every combination of toppings is reached by setting the three toppings on a fresh builder and building |
| Builder.Parse | src/main/kotlin/patterns/builder/Main.kt:20-21 | any text the reader accepts is exactly the rendering of the hamburger it returns |
| Builder.ParseToString | src/main/kotlin/patterns/builder/Main.kt:20-21 | the rendering of every hamburger reads back as that same hamburger, so its three fields appear in the order cheese, beef, onions |
| Builder.ToStringInjective | src/main/kotlin/patterns/builder/Main.kt:20-21 | two hamburgers render to the same text only if all three of their toppings agree |
| Builder.DemoPrints | src/main/kotlin/patterns/builder/Main.kt:24-30 | a hamburger built with cheese and onions and no beef renders as `true false true` |
| Factory.CreateDialog | src/main/kotlin/factory/Main.kt:17-21 | every dialog type yields a dialog; CREATE yields exactly Create, EDIT exactly Edit and DELETE exactly Delete |
| Factory.TypeOf | src/main/kotlin/factory/Main.kt:9-13 | every dialog variant is what the factory makes from the type this returns |
| Factory.CreateDialogInjective | src/main/kotlin/factory/Main.kt:17-21 | distinct dialog types give distinct dialogs |
| Factory.TypeOfCreateDialog | src/main/kotlin/factory/Main.kt:17-21 | mapping a type to a dialog and back gives the original type |
| Factory.CreateDialogSurjective | src/main/kotlin/factory/Main.kt:9-21 | every dialog variant is produced by some dialog type |
| Strategy.WeaponNamed | src/main/kotlin/patterns/strategy/Weapon.kt:8-30 | a line recognised as a weapon's name is exactly what that weapon prints |
| Strategy.WeaponNamedUseWeapon | src/main/kotlin/patterns/strategy/Weapon.kt:8-30 | each weapon prints its own name, and no two weapons print the same line |
| Strategy.NewCharacter | src/main/kotlin/patterns/strategy/Character.kt:5-7 | a new character keeps the requested kind and its first fight prints "Knife" |
| Strategy.Fight | src/main/kotlin/patterns/strategy/Character.kt:7 | the line a fight prints identifies exactly the character's current weapon |
| Strategy.SetWeapon | src/main/kotlin/patterns/strategy/Character.kt:9-11 | after setting a weapon the next fight uses it, and the character's kind is unchanged |
| Strategy.SetWeaponLastWins | src/main/kotlin/patterns/strategy/Character.kt:9-11 | setting a weapon twice is the same as setting only the second one |
| Strategy.DisplayIsKindOnly | src/main/kotlin/patterns/strategy/Character.kt:16-32 | two characters display the same line exactly when they are of the same kind, whatever their weapons |
| Strategy.SetWeaponOf | src/main/kotlin/patterns/strategy/Character.kt:5-11 | among several characters, arming one changes that one's weapon only and leaves every other character as it was |
| Strategy.Perform | src/main/kotlin/patterns/strategy/Character.kt:5-32 | replaying display, fight and weapon changes never changes the character's kind, and prints one line per display or fight and none per weapon change |
| Strategy.PerformAppend | src/main/kotlin/patterns/strategy/Character.kt:5-32 | performing two action lists one after the other gives the same final character and the same printed lines as performing their concatenation, since the character's state carries over |
| Strategy.AttackAfterArm | src/main/kotlin/patterns/strategy/Character.kt:7-11 | after any earlier actions, arming a weapon and then fighting makes that weapon's line the last line printed |
| Strategy.QueenScenario | src/main/kotlin/patterns/strategy/Main.kt:4-8 | the queen of the demo prints "Queen", then fights with the default knife, then with the axe she is given |

## Left out

- Console output (`println`) is not performed. Each print is modelled as the
  event or line it would produce, returned by the function.
- What an observer does in `update` is not modelled. The `Observer` interface
  is not part of this model, so an observer is an opaque value with equality.
  The difference between object observers and inline lambda observers, and
  their equality semantics, is not modelled either.
- An observer that changes the list during a broadcast is not modelled. One
  example is an observer that removes itself from inside `update`. In the
  code, `forEach` walks the Java `ArrayList` with a fail-fast iterator. Such a
  change then either throws `ConcurrentModificationException` or silently skips
  the next observer. `NotifyObserver`'s guarantee of one update per entry holds
  only for broadcasts in which no observer changes the list.
- An exception thrown by an observer's `update` is not modelled. In the code it
  would abort the rest of the broadcast, but observer bodies are opaque here.
- The driver in src/main/kotlin/observer/Main.kt is in package `observer`. It
  does not import `patterns.observer`, so it may not refer to the
  `YoutubeChannel` modelled here. It appears only as the scenario in
  `ObserverRegistry.ReleaseScenario`, which has no observer output lines.
- The `Observable` interface (src/main/kotlin/patterns/observer/Observable.kt)
  only declares signatures. Its three operations are modelled through
  `YoutubeChannel`.
- Aliasing of the mutable Kotlin builder is not modelled. In the code, each
  setter returns the same builder instance, through `apply`. The model treats
  builders as values, so `Build` trivially leaves the builder unchanged.
- Object identity of the `Dialog` singletons and of weapon instances is not
  modelled. They are plain datatype values.
- The strategy demo's driver (src/main/kotlin/patterns/strategy/Main.kt) is
  covered only by its queen half in `Strategy.QueenScenario`. The king half is
  the same pattern with a gun.
