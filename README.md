# Quantum Atom Sandbox — a verified model of the interaction core

The sandbox is a single-window SFML program (`QuantumSim.cpp`). The user picks
an element from a fixed catalog of ten, adds atoms of it to a canvas, and
selects them, from the side list or by clicking on the canvas. Selected atoms
can be dragged, linked in pairs, toggled between active and inactive,
scheduled to activate two seconds later, or removed. Every frame, scheduled
activations that have come due fire, and the electrons of active atoms
advance along their orbits.

This project models the state `main` keeps and the code that changes it:

- `catalog.dfy` (module `Catalog`): the element table and the two
  element-cycling buttons, with C++'s truncating `%` written out.
- `canvas.dfy` (module `Canvas`): points, `clampToCanvas` with `std::clamp`
  as `std::min(std::max(v, lo), hi)` evaluates it (libstdc++), and the circular hit region, which uses
  squared distance over the reals.
- `shells.dfy` (module `Shells`): `makeElectronsForElement`. It fills the
  shells with capacities 2, 8, 8, 18 and radii 30, 50, 70, 90, in order,
  after capping the atomic number at 24. The model proves the nested loops
  against a closed-form count per shell.
- `store.dfy` (module `Store`): atoms, links and the store invariant.
  - The invariant: ids are strictly increasing and below `nextId`, element
    indices are in the catalog, and links are canonical (`aId < bId`),
    never duplicated and between live atoms.
  - The command lambdas `addAtom`, `removeSelected`, `toggleActiveSelected`,
    `scheduleSelected` and `linkPair`, each as a specification function,
    with the loop that computes it and the lemmas about it.
- `selection.dfy` (module `Selection`): the hit test, where the last atom in
  store order wins, the geometry of the side list's rows, and the replace and
  toggle selection rules by row and by id. Also the search for the dragged
  atom and the drag move.
- `ticking.dfy` (module `Ticking`): the frame update. A due schedule fires,
  then the electrons of active atoms advance by `speed / 60`.
- `app.dfy` (module `App`): `class Sandbox`. It holds `atoms`, `links`,
  `nextId`, `selectedElement`, `dragging`, `draggingId` and `dragOffset`.
  - It has one method per button command, per pointer event and for the
    frame update.
  - Every method keeps `Valid()` and states the whole new state. `Valid()`
    is the store invariant, `1 <= nextId`, `selectedElement` inside the
    catalog, and `dragging <==> draggingId != -1`.

The inputs the sandbox reads from SFML, the C library and the clock become parameters:

- `std::rand()` draws: `rx`, `ry` for the spawn point, and `roll(k)` for the
  `k`-th draw of an electron's speed jitter.
- The clock reading: `now` / `t`.
- The window size: `w`, `h`.
- Whether Control is held: `modifier`.
- A click on a button: a `Command` value.

The code hard-wires `1/60` per frame (`QuantumSim.cpp:322`), and the model
follows it (`Ticking.FRAME_STEP`).

## Model

| member | source | states |
|---|---|---|
| Catalog.CppRem | QuantumSim.cpp:198-203 | C++ `%` with a positive divisor: the remainder lies in `[0, b)` for a non-negative dividend and in `(-b, 0]` for a negative one |
| Catalog.CppRemCongruent | QuantumSim.cpp:198-203 | `CppRem(a, b)` is the remainder of C++'s division: `a == q * b + CppRem(a, b)` with `q` the quotient truncated toward zero |
| Catalog.NextElement | QuantumSim.cpp:201-203 | "Element >" keeps the index in the catalog and moves to the next entry, wrapping from the last to the first |
| Catalog.PreviousElement | QuantumSim.cpp:198-200 | "< Element" keeps the index in the catalog and moves to the previous entry, wrapping from the first to the last |
| Catalog.CyclingInverse | QuantumSim.cpp:198-203 | the two cycling buttons undo each other on every catalog index |
| Canvas.Clamp | QuantumSim.cpp:95-96 | `std::clamp` with ordered bounds lands in `[lo, hi]`, returns `lo` below and `hi` above, and returns a value already in range unchanged; with `hi < lo` it gives `hi`, as `min(max(v, lo), hi)` does |
| Canvas.ClampToCanvas | QuantumSim.cpp:94-98 | in a window at least `SIDEBAR_W + 40` wide and 40 tall, the result lies in `[SIDEBAR_W+20, w-20] x [20, h-20]`; a point already there is returned unchanged |
| Canvas.ClampToCanvasIdempotent | QuantumSim.cpp:94-98 | for every window size, even one too small for the canvas, clamping twice is clamping once |
| Canvas.WithinRadius | QuantumSim.cpp:90-92 | definition: `length(m - c) <= radius` without the square root, as `0 <= radius` and squared distance `<= radius * radius` |
| Canvas.WithinRadiusIsLength | QuantumSim.cpp:90-92 | for `len` the length of `m - c` (`len >= 0`, `len * len` the squared distance), `WithinRadius` holds exactly when `len <= radius`: `sqrt(d) <= r` exactly when `0 <= r` and `d <= r * r` |
| Shells.ShellRunExtend | QuantumSim.cpp:112-117 | the inner loop grows a shell's run by one electron, which uses the next random draw |
| Shells.Capped | QuantumSim.cpp:107 | definition: the electron count `max(0, min(n, 24))` |
| Shells.ShellElectron | QuantumSim.cpp:113-116 | definition: the electron at radius `radii[s]`, angle `2 pi i / max(1, inShell)` and speed base plus jitter from one draw |
| Shells.ShellRun | QuantumSim.cpp:112-117 | definition: the electrons the inner loop appends for one shell, the `k`-th using draw `roll(k)` |
| Shells.ShellOffset | QuantumSim.cpp:110-119 | definition: the electrons placed before shell `s` |
| Shells.Shells | QuantumSim.cpp:110-119 | definition: the first `s` shells one after another |
| Shells.Allocation | QuantumSim.cpp:100-121 | definition: all four shells with the closed-form counts; the vector `makeElectronsForElement` returns |
| Shells.ShellCounts | QuantumSim.cpp:103-118 | four shells, none over its capacity; a shell gets electrons only once the one before it is full; the counts add up to `max(0, min(n, 24))` |
| Shells.ShellCountIsStep | QuantumSim.cpp:110-118 | pass `s` of the outer loop places `min(remaining, cap[s])` electrons, where `remaining` is what the earlier shells left, and that is shell `s`'s closed-form count |
| Shells.ShellsSize | QuantumSim.cpp:110-119 | the first `s` shells hold as many electrons as their counts add up to |
| Shells.ShellsMember | QuantumSim.cpp:110-117 | electron `i` of shell `j` sits at position offset(j) + i, built from shell `j`'s radius, angle and the draw at that position |
| Shells.ShellsRestEmpty | QuantumSim.cpp:110 | once `remaining` reaches 0, the shells the outer loop skips add nothing |
| Shells.OffsetTotal | QuantumSim.cpp:110-119 | the offset past the last shell is the total count |
| Shells.OffsetMonotone | QuantumSim.cpp:110-119 | shell offsets never decrease |
| Shells.AllocationSize | QuantumSim.cpp:107-119 | exactly `min(n, 24)` electrons for `n >= 0`, none for `n <= 0` |
| Shells.AllocationShellMember | QuantumSim.cpp:110-117 | electron `i` of shell `s` is on radius `radii[s]` at angle `2 pi i / inShell` |
| Shells.HydrogenAllocation | QuantumSim.cpp:100-121 | `n = 1`: one electron, radius 30, angle 0 |
| Shells.TenElectronAllocation | QuantumSim.cpp:100-121 | `n = 10`: two electrons at radius 30, then eight at radius 50 |
| Shells.ChlorineAllocation | QuantumSim.cpp:100-121 | `n = 17`: counts 2 / 8 / 7, and the last seven at radius 70 |
| Shells.MakeElectronsForElement | QuantumSim.cpp:100-121 | the nested loops with the decrementing `remaining` build exactly the shell-by-shell allocation, `min(n, 24)` electrons (none for `n <= 0`) |
| Store.RetouchedKeepsInvariant | QuantumSim.cpp:170-177 | an edit that keeps every atom's id and element, in order, keeps the store valid |
| Store.StoreValid | QuantumSim.cpp:146-194 | definition of the store invariant the lambdas keep: ids strictly increasing and in `[1, nextId)`, element indices in the catalog, links canonical, distinct and between live atoms |
| Store.Retouched | QuantumSim.cpp:170-177 | definition: same length, and every atom keeps its id and element |
| Store.SpawnPosition | QuantumSim.cpp:151 | the spawn point lies in `[SIDEBAR_W+100, SIDEBAR_W+700) x [100, 600)` |
| Store.NewAtom | QuantumSim.cpp:146-156 | the new atom carries `nextId` and the current element; it is inactive, unselected and unscheduled, with `min(n, 24)` electrons |
| Store.AddKeepsInvariant | QuantumSim.cpp:146-156 | appending an atom with id `nextId` and incrementing `nextId` keeps the store valid and appends `nextId` to the ids |
| Store.SelectedIdsMembership | QuantumSim.cpp:160 | an id is collected exactly when some selected atom carries it |
| Store.SelectedIds | QuantumSim.cpp:160 | definition: the ids of the selected atoms, in store order, as the collecting loops of `removeSelected` (line 160) and `linkPair` (line 186) build them |
| Store.SelectedIndices | QuantumSim.cpp:160 | definition: the positions of the selected atoms |
| Store.SelectedIdsCount | QuantumSim.cpp:160 | one id is collected per selected atom, so `sel.size()` is the number of selected atoms |
| Store.SelectedIdsOfAtom | QuantumSim.cpp:160 | with unique ids, atom `i`'s id is collected exactly when atom `i` is selected |
| Store.SelectedIdsIncreasing | QuantumSim.cpp:186-190 | the collected ids are strictly increasing and live, so the swap in `linkPair` never fires |
| Store.CollectSelectedIds | QuantumSim.cpp:160 | the collecting loop returns the selected ids in store order |
| Store.UnselectedMembership | QuantumSim.cpp:158-168 | reference definition: its members are exactly the unselected atoms |
| Store.Survivors | QuantumSim.cpp:161-163 | definition: the atoms whose id is not in the removed list, in order |
| Store.LinksAvoiding | QuantumSim.cpp:164-167 | definition: the links with neither end in the removed list, in order |
| Store.UnselectedIncreasing | QuantumSim.cpp:158-168 | dropping atoms keeps the ids increasing |
| Store.SurvivorsAgree | QuantumSim.cpp:161-163 | filtering by ids equals the reference definition when the ids removed are exactly those of the selected atoms |
| Store.SurvivorsAreUnselected | QuantumSim.cpp:158-163 | `removeSelected` keeps exactly the unselected atoms, in their order |
| Store.SurvivorsAppend | QuantumSim.cpp:161-163 | the atom filter distributes over concatenation, so survivors keep their relative order |
| Store.LinksAvoidingAppend | QuantumSim.cpp:164-167 | the link filter distributes over concatenation, so kept links keep their relative order |
| Store.SurvivorsOfNothing | QuantumSim.cpp:161-163 | removing no ids keeps every atom |
| Store.LinksAvoidingNothing | QuantumSim.cpp:164-167 | removing no ids keeps every link |
| Store.LinksAvoidingMembership | QuantumSim.cpp:164-167 | a link survives exactly when neither end was removed |
| Store.LinksAvoidingKeepsShape | QuantumSim.cpp:164-167 | removal keeps links canonical and distinct |
| Store.RemoveKeepsInvariant | QuantumSim.cpp:158-168 | `removeSelected` leaves a valid store: no surviving link points to a removed atom |
| Store.RemoveSelectedOutcome | QuantumSim.cpp:158-168 | afterwards the atoms are exactly the unselected ones, in order, so none is selected, and the links are exactly those with no removed end |
| Store.SurvivingEnd | QuantumSim.cpp:158-168 | a live id that was not removed still belongs to an atom |
| Store.EraseRemovedAtoms | QuantumSim.cpp:161-163 | the `remove_if` pass over the atoms computes the atom filter |
| Store.EraseRemovedLinks | QuantumSim.cpp:164-167 | the `remove_if` pass over the links computes the link filter |
| Store.FlipSelectedActive | QuantumSim.cpp:170-172 | the toggle loop flips `active` on the selected atoms and nowhere else |
| Store.ToggledActive | QuantumSim.cpp:170-172 | definition: every selected atom with `active` flipped |
| Store.ToggledActiveEffect | QuantumSim.cpp:170-172 | only `active` changes, and only on selected atoms; the schedule is untouched; toggling twice is the identity |
| Store.ScheduleSelectedAtoms | QuantumSim.cpp:174-177 | the schedule loop sets `now + 2` on the selected atoms and nowhere else |
| Store.Scheduled | QuantumSim.cpp:174-177 | definition: every selected atom scheduled at `now + 2` |
| Store.ScheduledEffect | QuantumSim.cpp:174-177 | selected atoms are due at `now + 2` whatever they were due before, unselected atoms are untouched, and scheduling twice at the same time is scheduling once |
| Store.Canon | QuantumSim.cpp:190 | the swap orders the two ids and keeps the same pair |
| Store.HasLink | QuantumSim.cpp:191 | the `any_of` scan is true exactly when the link is present |
| Store.AfterLinkPair | QuantumSim.cpp:184-194 | definition: the links after `linkPair`, unchanged unless two ids are collected, and then with their ordered link appended if missing |
| Store.LinkPairEffect | QuantumSim.cpp:184-194 | unless exactly two atoms are selected, nothing changes; with two, the link between their ids, smaller first, is present afterwards, appended if it was missing |
| Store.LinkPairIdempotent | QuantumSim.cpp:184-194 | `linkPair` twice is `linkPair` once |
| Store.LinkPairKeepsInvariant | QuantumSim.cpp:184-194 | `linkPair` keeps the links canonical, distinct and live |
| Selection.Hits | QuantumSim.cpp:280 | definition: the pointer is within `nucleusRadius + 8` of the atom's position |
| Selection.HitsIsDistance | QuantumSim.cpp:280 | for `len` the length of `m - a.pos`, `Hits(a, m)` holds exactly when `len <= a.nucleusRadius + 8` |
| Selection.LastHit | QuantumSim.cpp:278-283 | the index found is hit and no later atom is; -1 means no atom is hit |
| Selection.FindHit | QuantumSim.cpp:278-283 | the proximity loop returns the id of the last atom hit, or -1 |
| Selection.HitId | QuantumSim.cpp:278-283 | definition: the id of the last atom hit, or -1 |
| Selection.SelectOnlyId | QuantumSim.cpp:289 | definition: `selected` becomes `id == hitId` on every atom |
| Selection.ToggleId | QuantumSim.cpp:287 | definition: `selected` flips on the atoms carrying the hit id |
| Selection.SelectOnlyAt | QuantumSim.cpp:268-270 | definition: only row `k` stays selected |
| Selection.ToggleAt | QuantumSim.cpp:267 | definition: row `k`'s `selected` flips |
| Selection.DeselectAll | QuantumSim.cpp:302 | definition: every `selected` flag cleared |
| Selection.SelectOnly | QuantumSim.cpp:289 | the non-modifier loop sets `selected` exactly on the atoms carrying the hit id |
| Selection.ToggleSelectionOf | QuantumSim.cpp:287 | the modifier loop flips `selected` on the atoms carrying the hit id |
| Selection.ClearSelection | QuantumSim.cpp:302 | the loop clears every `selected` flag |
| Selection.PressedSelection | QuantumSim.cpp:278-302 | a canvas press changes only `selected` flags and keeps every atom's id and element |
| Selection.CanvasPress | QuantumSim.cpp:278-299 | the press on the store makes the selection the last-hit rule gives and finds the index the drag opens on, which is the last hit itself; only `App.Sandbox.LeftPressed` decides, by line 260's test, that a press reaches it |
| Selection.RowContains | QuantumSim.cpp:263-264 | definition: row `i`'s rectangle, `x` in `[16, 304)` and `y` in `[340 + 24 i, 362 + 24 i)`, contains the point |
| Selection.RowAt | QuantumSim.cpp:261-274 | the row hit is in the list and contains the point, and no other row of the list contains it; -1 means none does |
| Selection.FindRow | QuantumSim.cpp:261-274 | the loop that advances `yy` by 24 per atom and breaks at the row containing the point finds `RowAt` |
| Selection.PressBesideListHitsNoRow | QuantumSim.cpp:263-264 | a press left of `x = 16` or at or right of `x = 304` hits no row |
| Selection.ByIdIsByIndex | QuantumSim.cpp:284-290 | with unique ids, selecting or toggling by the hit id touches exactly the atom hit |
| Selection.ToggleAtEffect | QuantumSim.cpp:265-267 | a modifier click flips only that row's `selected` flag; twice is the identity |
| Selection.SelectedIdsOfSingle | QuantumSim.cpp:268-270 | when exactly one row is selected, its id is the only one collected |
| Selection.SelectedIdsOfNone | QuantumSim.cpp:302 | when nothing is selected, nothing is collected |
| Selection.SelectedIdsOfPair | QuantumSim.cpp:186 | when exactly two rows are selected, both ids are collected, in store order |
| Selection.SelectTwoRowsThenLink | QuantumSim.cpp:184-194 | clicking one row, then any other row with the modifier, in either store order, then "Link Pair" links the two atoms, smaller id first, unless they were already linked |
| Selection.RemoveWithoutSelection | QuantumSim.cpp:158-168 | "Remove Selected" with nothing selected changes neither atoms nor links |
| Selection.SelectionOutcome | QuantumSim.cpp:268-270 | after a replacing click exactly that row's id is selected; after a miss none is; ids are untouched |
| Selection.IndexOfId | QuantumSim.cpp:236-240 | the index found carries the id and no earlier atom does; -1 means no atom does |
| Selection.FindFirstId | QuantumSim.cpp:292-298 | the search loop with `break` finds the first atom carrying the id |
| Selection.IndexOfIdOfMember | QuantumSim.cpp:292-298 | with unique ids, searching for atom `k`'s id finds `k` |
| Selection.MoveAtom | QuantumSim.cpp:235-242 | with unique ids, only the atom carrying the id moves, to the given point; nothing moves when no atom carries it |
| Ticking.Advance | QuantumSim.cpp:321-323 | advancing changes only angles: count, radii and speeds stay |
| Ticking.AdvanceElectrons | QuantumSim.cpp:321-323 | the electron loop adds `speed * step` to every angle |
| Ticking.TickAtom | QuantumSim.cpp:315-324 | the atom is active afterwards exactly when it was active or its schedule is due; the schedule is cleared exactly when due; only angles move, and only when the atom is active afterwards; nothing else changes |
| Ticking.Due | QuantumSim.cpp:316 | definition: the atom has a schedule and `t` has reached it |
| Ticking.TickAll | QuantumSim.cpp:315-325 | every atom gets its own frame update; ids, elements and electron counts stay; an atom whose schedule is due ends active and unscheduled; any other atom keeps its `active` flag and its schedule |
| Ticking.TickAtoms | QuantumSim.cpp:314-325 | the frame loop computes the frame update of every atom |
| Ticking.ScheduleThenTick | QuantumSim.cpp:316-318 | after scheduling at `now`, a frame before `now + 2` leaves the atom inactive and scheduled; a frame at or after it activates it and clears the schedule |
| App.Sandbox.constructor | QuantumSim.cpp:133-141 | empty store, `nextId = 1`, first element, no drag session |
| App.Sandbox.Valid | QuantumSim.cpp:133-141 | definition of the class invariant: the store invariant, `1 <= nextId`, `selectedElement` in the catalog, and a drag session open exactly when `draggingId != -1` |
| App.Sandbox.PreviousElementClicked | QuantumSim.cpp:198-200 | only the element index changes, to the previous one |
| App.Sandbox.NextElementClicked | QuantumSim.cpp:201-203 | only the element index changes, to the next one |
| App.Sandbox.AddAtom | QuantumSim.cpp:146-156 | appends the new atom with the old `nextId`, which no live atom carries, and increments `nextId`; links and the rest are unchanged |
| App.Sandbox.RemoveSelected | QuantumSim.cpp:158-168 | atoms and links become the filtered ones; `nextId` is unchanged, so ids are never reused |
| App.Sandbox.ToggleActiveSelected | QuantumSim.cpp:170-172 | atoms become the toggled store; nothing else changes |
| App.Sandbox.ScheduleSelected | QuantumSim.cpp:174-177 | atoms become the store scheduled at `now`; nothing else changes |
| App.Sandbox.ClearAll | QuantumSim.cpp:179-182 | both collections become empty and `nextId` is kept |
| App.Sandbox.LinkPair | QuantumSim.cpp:184-194 | links become the result of `linkPair`; atoms are unchanged |
| App.Sandbox.Execute | QuantumSim.cpp:198-215 | each button command has the effect of its lambda; only "Add Atom" moves `nextId`; no button touches the drag session |
| App.Sandbox.ListRowPressed | QuantumSim.cpp:264-271 | a row in the list toggles that row with the modifier, or becomes the only selection without it; a press on no row changes nothing |
| App.Sandbox.CanvasPressed | QuantumSim.cpp:276-303 | for a press at or right of `SIDEBAR_W`, the selection follows the last-hit rule; a hit opens a drag session on that atom with offset `m - pos`; a miss leaves the drag state alone |
| App.Sandbox.LeftPressed | QuantumSim.cpp:259-303 | a press left of `SIDEBAR_W` selects by the list row it lands on (none: no change) and leaves the drag state alone; any other press is a canvas press; links, `nextId` and the element are kept |
| App.Sandbox.PointerMoved | QuantumSim.cpp:230-243 | during a drag session, the dragged atom moves to the clamped `m - dragOffset` and nothing else changes; otherwise nothing changes |
| App.Sandbox.PointerReleased | QuantumSim.cpp:307-310 | the drag session is closed, whether or not one was open |
| App.Sandbox.Tick | QuantumSim.cpp:314-325 | atoms become the frame update at time `t`; nothing else changes |

## Left out

- Rendering and the window: the draw section, fonts, `makeText`, `makeButton` and the window and event loop. They are SFML I/O. This includes the link-endpoint lookup, which only drawing uses.
- Button hover state, set on pointer moves, is display state only.
- Button rectangles (lines 248-257). A button click arrives as a `Command`, and `App.Sandbox.LeftPressed` models a left press that hits no button.
- Events other than left-button press and release and pointer moves. Other events change none of the modelled state; closing the window is left out as well.
- Floating point. Coordinates, angles, speeds and times are exact reals, and `std::sqrt` is replaced by squared distance. Rounding is not captured, and `PI` is the source's constant `3.1415926`.
- `std::srand(time(nullptr))` and `std::rand()`. The draws are parameters, so the model says which draw feeds which electron and which coordinate, not what the values are.
- `sf::Clock` readings and `sf::Keyboard::isKeyPressed`. They are foreign calls, and become the parameters `now`/`t` and `modifier`.
- Element colours are display data only.
- Overflow of the 32-bit `nextId` is not modelled. Ids are unbounded integers; the invariant needs more than two billion additions to fail in the source.
- Canvas.Clamp: for a window narrower than `SIDEBAR_W + 40` or shorter than 40, `std::clamp` is undefined behaviour in C++. The model gives `hi` there, as `std::min(std::max(v, lo), hi)` does; what the program computes depends on the library version. The range bound is proved only for windows that fit.
- Selection.CanvasPress: it requires ids to be at least 1, as the store invariant guarantees. The source uses -1 as "no hit", which is sound only because of that.
