# Canvas player entity of the party-game map overlay

This project models the player entity of the game map overlay (fusliez-notes). Each game participant is drawn as a
sprite on a canvas. The pointer can drag the sprite. A double click toggles the participant between the "dead"
section and the "reset" section of the shared roster.

- `geometry.dfy` (module `Geometry`): points (`Vector`), sprite-sheet regions (`SpriteRect`, the source's `IRect`),
  and a small `Rectangle` class for the entity's bounds. The class's origin and size are replaced in place, and it
  has a half-open containment test.
- `sections.dfy` (module `Sections`): the roster as `seq<Section>`, where each section is an id and the ordered
  colour keys of its members. It holds the two list rewrites done by a double click (`KillSections` for alive to
  dead, `ReviveSections` for dead to alive), the filter they share (`Without`), and `SectionStore`. `SectionStore`
  stands in for the application store and holds the section list and the participant-to-section map. The entity
  does not hold it: it is a parameter of each `OnDoubleClick` call.
- `player.dfy` (module `CanvasPlayer`): the class `Player` and the values it is specified by. `PlayerState` is the
  whole state of the entity as a value. Each method of `Player` ensures `State() == F(old(State()), ...)` for one
  pure function `F` (`Updated`, `Initial`, `MouseMoved`, `MouseDown`, `MouseUp`). The lemmas prove what the entity
  promises about those functions. `OnDoubleClick` is specified by `ToggledSections` and `TargetSection`.

Two details of the code that the model keeps:
- The constructor forces `draggable` on after the refresh, because Player.ts line 34 runs after line 28. So a new
  entity for an unused participant is draggable until its next refresh. `InitialSpec` and
  `InitialUnusedNotConsistent` state this.
- `updatePlayer` tests the dead id first. So a participant whose section equals both the dead and the unused id
  stays draggable. `UpdatedSpec` states this.
- Membership is keyed by the participant's colour (`data.color`), not by a separate identifier.

## Model

| member | source | states |
|---|---|---|
| `CanvasPlayer.UpdatedSpec` | src/components/Map/AmongUsCanvas/Player.ts:38-57 | A refresh stores the data and takes the reset, dead and unused ids from positions 0, 1 and 2. Afterwards the dead sprite is selected exactly when the section is the dead id, and the bounds have the sprite's size at an unchanged position. `draggable` is false exactly when the section is the unused id and not the dead id. `active` and both sprite regions are kept. |
| `CanvasPlayer.UpdatedIdempotent` | src/components/Map/AmongUsCanvas/Player.ts:38-57 | Refreshing twice with the same arguments gives the same state as refreshing once. |
| `CanvasPlayer.UpdatedFixesConsistent` | src/components/Map/AmongUsCanvas/Player.ts:38-57 | A consistent entity refreshed with the data and ids it already holds is unchanged. |
| `CanvasPlayer.InitialSpec` | src/components/Map/AmongUsCanvas/Player.ts:14-36 | A new entity keeps the sprite regions it was given, is at the given position and sized like the sprite its section selects. It is not active, and it is draggable whatever its section, because draggable is forced on after the refresh. |
| `CanvasPlayer.InitialUnusedNotConsistent` | src/components/Map/AmongUsCanvas/Player.ts:28-34 | A new entity for an unused, non-dead participant breaks the rule "draggable unless unused". The next refresh restores it. |
| `CanvasPlayer.MouseMovedSpec` | src/components/Map/AmongUsCanvas/Player.ts:98-109 | While active, a move puts the centre of the bounds on the pointer and keeps their size. While not active, a move changes nothing. Only the bounds ever change. |
| `Geometry.CenteredOn` | src/components/Map/AmongUsCanvas/Player.ts:100-103 | The recentred box has the same size and its centre is exactly the pointer. |
| `CanvasPlayer.PointerPreservesConsistent` | src/components/Map/AmongUsCanvas/Player.ts:98-121 | Move, press and release keep the sprite choice, the bounds' size and the drag permission consistent with the data. |
| `CanvasPlayer.DragRoundTrip` | src/components/Map/AmongUsCanvas/Player.ts:98-121 | Take a draggable entity with bounds of positive area. Pressing inside it starts the drag. Moving recentres it on the pointer. A release anywhere inside the recentred bounds ends the drag, including a release at that pointer. |
| `CanvasPlayer.MouseUpMissKeepsActive` | src/components/Map/AmongUsCanvas/Player.ts:117-121 | A release outside the bounds leaves the entity active. So does any release on a non-draggable entity. |
| `CanvasPlayer.ToggleAliveToDead` | src/components/Map/AmongUsCanvas/Player.ts:155-180 | For a participant not in the dead section, the target is the dead id. The new list keeps the length, ids and order. The participant is then in exactly the dead sections, and each of them gets it appended. |
| `CanvasPlayer.ToggleDeadToAlive` | src/components/Map/AmongUsCanvas/Player.ts:130-154 | For a participant in the dead section, the target is the reset id. The new list keeps the length, ids and order. Dead sections no longer hold the participant. A reset section that is not also dead gets it appended. Every other section is unchanged. |
| `Sections.Without` | src/components/Map/AmongUsCanvas/Player.ts:140-142 | The filtered list does not contain the colour, every other key of the input survives, and nothing new appears. |
| `Sections.WithoutMultiset` | src/components/Map/AmongUsCanvas/Player.ts:140-142 | The filter drops every entry equal to the colour and keeps every other entry as often as it occurred. |
| `Sections.WithoutAbsent` | src/components/Map/AmongUsCanvas/Player.ts:163-165 | Filtering out a colour that is not present returns the list unchanged. |
| `Sections.WithoutConcat` | src/components/Map/AmongUsCanvas/Player.ts:163-165 | The filter keeps the order of the surviving entries, because it distributes over concatenation. |
| `Sections.KillSections` | src/components/Map/AmongUsCanvas/Player.ts:158-173 | The alive-to-dead rewrite keeps length, ids and order. Sections with the dead id get the colour appended without de-duplication. Every other section loses all entries with the colour. |
| `Sections.ReviveSections` | src/components/Map/AmongUsCanvas/Player.ts:135-152 | The dead-to-alive rewrite keeps length, ids and order. Sections with the dead id lose all entries with the colour. Other sections with the reset id get one entry appended. All remaining sections are unchanged. |
| `Sections.KillSectionsMembership` | src/components/Map/AmongUsCanvas/Player.ts:158-173 | After the alive-to-dead rewrite, a section holds the colour if and only if its id is the dead id. Its members are the old ones plus one copy of the colour (dead id) or the old ones minus the colour (any other id). |
| `Sections.ReviveSectionsMembership` | src/components/Map/AmongUsCanvas/Player.ts:135-152 | After the dead-to-alive rewrite, dead sections hold no copy of the colour. A reset section holds one more copy. All other sections are unchanged. |
| `Sections.KillThenRevive` | src/components/Map/AmongUsCanvas/Player.ts:130-180 | A participant might sit once in the reset section and nowhere else. Killing it and then reviving it restores every section's membership, up to its position within the section. |
| `Sections.ReviveThenKill` | src/components/Map/AmongUsCanvas/Player.ts:130-180 | A participant might sit once in the dead section and nowhere else. Reviving it and then killing it restores every section's membership, up to its position within the section. |
| `Sections.SectionStore.SetSections` | src/components/Map/AmongUsCanvas/Player.ts:133-154 | Writing the section list replaces it whole and leaves the participant-to-section map alone. |
| `Sections.SectionStore.SetPlayerSection` | src/components/Map/AmongUsCanvas/Player.ts:180 | Pointing a participant at a section updates that one map entry and leaves the section list alone. |
| `CanvasPlayer.Player.constructor` | src/components/Map/AmongUsCanvas/Player.ts:14-36 | The constructed entity's state is `Initial` of its arguments, with freshly allocated bounds. |
| `CanvasPlayer.Player.UpdatePlayer` | src/components/Map/AmongUsCanvas/Player.ts:38-58 | The new state is `Updated` of the old state and the arguments. The bounds are resized in place. |
| `CanvasPlayer.Player.OnMouseMove` | src/components/Map/AmongUsCanvas/Player.ts:98-109 | The new state is `MouseMoved` of the old one. The result is true exactly when the entity is active. |
| `CanvasPlayer.Player.OnMouseDown` | src/components/Map/AmongUsCanvas/Player.ts:111-115 | `active` becomes "draggable and hit", the button is ignored, and the new `active` is returned. |
| `CanvasPlayer.Player.OnMouseUp` | src/components/Map/AmongUsCanvas/Player.ts:117-121 | `active` becomes "not (draggable and hit)", the button is ignored, and the new `active` is returned. |
| `CanvasPlayer.Player.OnDoubleClick` | src/components/Map/AmongUsCanvas/Player.ts:123-186 | The click is consumed exactly on a hit on a participant that is not unused. Then the store's list becomes the toggled list and the participant's map entry becomes the target section. Otherwise the store is untouched. In both cases the entity's own state is unchanged. |

## Left out

- `render` (Player.ts lines 60-96) is left out. It only issues drawing calls on the canvas (shadow, text measuring, the `drawStrokeText` helper from `./tools`, image blit), and those have no checkable result. The sprite image handle and the `debug` flag are used only there, so they are left out too.
- `Geometry.CenteredOn`, `CanvasPlayer.DragRoundTrip`: coordinates and sizes are exact reals, not the IEEE doubles of JavaScript numbers. The exact centre, and a release at the pointer ending the drag, hold only in exact arithmetic; with doubles, rounding can move the centre slightly or put the pointer just outside the half-open box. Section ids are modelled as integers.
- The `Entity` base class, `Vector` and `Rectangle` are not part of this model. `Geometry.Rectangle` is a stand-in with a half-open containment test, and no property here depends on its boundary behaviour.
- The store's reducers (`setSections`, `setPlayerSection`) and `getSections` are not part of this model. Their effect is modelled as replacing the section list and updating one map entry of `SectionStore`. The store is passed to `OnDoubleClick` instead of being a global.
- Section members are modelled as bare colour keys, and sections as an id plus members. Any other fields that the spread `...section` copies are not represented.
- `CanvasPlayer.Player.constructor`, `CanvasPlayer.Player.UpdatePlayer`: the source indexes its section-id array at 0, 1 and 2 with no check. The model requires at least three ids and does not model reading past the end of a shorter array.
- The mouse `button` argument is accepted and ignored, as in the source. The event routing across entities (the host canvas loop) is not part of this model.
- The other files of the repository are UI and persistence glue: the roster list and player row components, and the settings provider with its local storage. They are not modelled.
