# Portfolio interaction logic in Dafny

This project models the two pieces of sequential logic in a portfolio
site. Everything else in the site is presentation.

- **Snippet carousel** (module `Carousel`, `carousel.dfy`). One `index` slot
  over the fixed list of seven C snippets. The left and right arrows step it
  backwards and forwards with wrap-around. A dot sets it to that dot's
  position. The five-second timer tick does the same as the right arrow. The
  class `CodeCarousel` holds the slot. Its methods are specified by the pure
  successor and predecessor functions `Succ` and `Pred`. The lemmas prove
  that these two are inverse, that `N` forward steps return to the start,
  that exactly one dot is highlighted, and that the counter stays in `1..N`.
- **Part viewer** (module `PartViewer`, `viewer.dfy`). Each mounted 3D model
  node (`ModelNode`) keeps an `isDragging` flag and a `startPointer`. A
  pointer-down on an interactive node starts a drag. A pointer-up ends it and
  fires the node's click handler, if it has one, when the release is less
  than 5 px from the recorded start. The window-level `pointerup` listener of every node also
  ends its drag. The page (`LCDViewer`) holds the four scene nodes, the
  `selectedModel` slot and, while the detail modal is open, the modal's
  close-up node. The modal looks the selection up in a fixed four-entry part
  table. The module `PartViewerScenarios` states the concrete press/release
  scenarios on a freshly mounted page and proves their outcomes.

The click test compares the squared distance with 25 rather than the square
root with 5. The lemma `ClickIffWithinRadius` proves the two agree for the
non-negative root. Pointer coordinates are exact reals.

A release is measured from the node's last recorded press, and from (0, 0)
before its first one. It does not matter where that press's gesture ended.
So a press on a node, a release elsewhere, and a later release on the same
node within 5 px of the first press point selects the node's part.
`StaleStartSelects` proves this for a sequence of events the page can
deliver. The (0, 0) start can only matter at the handler level: the scene
canvas sits to the right of the label column, so no release on a scene node
lands within 5 px of the origin.

## Model

| member | source | states |
|---|---|---|
| Carousel.SnippetCount | src/components/CodeCarousel.jsx:7-93 | there are exactly seven snippets |
| Carousel.Succ | src/components/CodeCarousel.jsx:97 | the next index stays below N; it is one more, except that N - 1 wraps to 0 |
| Carousel.Pred | src/components/CodeCarousel.jsx:98 | the previous index stays below N; it is one less, except that 0 wraps to N - 1 |
| Carousel.PredSucc | src/components/CodeCarousel.jsx:97-98 | going back after going forward returns to the start |
| Carousel.SuccPred | src/components/CodeCarousel.jsx:97-98 | going forward after going back returns to the start |
| Carousel.SuccIter | src/components/CodeCarousel.jsx:100-103 | any number of forward steps or ticks keeps the index below N |
| Carousel.SuccIterShift | src/components/CodeCarousel.jsx:97 | k forward steps move the index to (index + k) mod N |
| Carousel.Period | src/components/CodeCarousel.jsx:97 | N forward steps return to the starting index |
| Carousel.PredIsSuccIter | src/components/CodeCarousel.jsx:97-98 | one step back equals N - 1 steps forward |
| Carousel.Dots | src/components/CodeCarousel.jsx:156-160 | one flag per snippet, set exactly at the dot whose position equals the index |
| Carousel.ExactlyOneDot | src/components/CodeCarousel.jsx:156-160 | the dot at the current index is highlighted and no other dot is |
| Carousel.Counter | src/components/CodeCarousel.jsx:129 | the displayed position lies in 1..N and is the index plus one |
| Carousel.CodeCarousel.constructor | src/components/CodeCarousel.jsx:96 | the index starts at 0 |
| Carousel.CodeCarousel.Next | src/components/CodeCarousel.jsx:97 | the right arrow moves the index to its successor and keeps it in range |
| Carousel.CodeCarousel.Prev | src/components/CodeCarousel.jsx:98 | the left arrow moves the index to its predecessor and keeps it in range |
| Carousel.CodeCarousel.Select | src/components/CodeCarousel.jsx:156-159 | a click on dot i sets the index to exactly i |
| Carousel.CodeCarousel.Tick | src/components/CodeCarousel.jsx:100-103 | a timer tick has the same effect as the right arrow |
| Carousel.EverySnippetShown | src/components/CodeCarousel.jsx:100-103 | from any index, every snippet comes on screen after fewer than N ticks |
| Carousel.CodeCarousel.Current | src/components/CodeCarousel.jsx:126-133 | defines the entry rendered for the current index as the list's entry at that index, whose filename, title and code lines 126, 130 and 133 render |
| PartViewer.SquaredDistance | src/components/LCDViewer.jsx:71-73 | the squared release-to-press distance is never negative |
| PartViewer.IsClick | src/components/LCDViewer.jsx:70-75 | the click-versus-drag decision: the node has a handler and the squared release-to-press distance is below 25 |
| PartViewer.ClickIffWithinRadius | src/components/LCDViewer.jsx:70-75 | with a handler, a release is a click exactly when its Euclidean distance to the press is below 5 |
| PartViewer.NoHandlerNoClick | src/components/LCDViewer.jsx:75 | a node without a click handler never reports a click |
| PartViewer.ReleaseInPlaceIsClick | src/components/LCDViewer.jsx:70-75 | a release exactly at the press point is a click |
| PartViewer.SmallMoveIsClick | src/components/LCDViewer.jsx:70-77 | (100,100) to (102,101) is a click |
| PartViewer.LongMoveIsDrag | src/components/LCDViewer.jsx:70-77 | (100,100) to (200,100) is not a click |
| PartViewer.PartTableKeys | src/components/LCDViewer.jsx:86-107 | the part table has exactly the four keys stm32, lcd, joystick and breadboard |
| PartViewer.LookupPart | src/components/LCDViewer.jsx:109 | the lookup succeeds exactly for the four keys, and a found part's path is "/" + key + ".glb"; any other string is not an own key of the table, and for it `PartModal` fails |
| PartViewer.LookupLcd | src/components/LCDViewer.jsx:92-96 | lcd gives "LCD Display" and "/lcd.glb" |
| PartViewer.CloseUpConfig | src/components/LCDViewer.jsx:139 | the close-up node shows the part's path at the origin, is interactive, has no click handler, and is drawn at less than half a scene node's scale |
| PartViewer.SceneMatchesTable | src/components/LCDViewer.jsx:187-190 | each scene node is interactive and selects a known part whose table path is the node's own asset, and each part is selected by some node; all four share scale 15 and stand on the x axis from left to right |
| PartViewer.ModelNode.constructor | src/components/LCDViewer.jsx:15-16 | a node starts not dragging with start point (0, 0) |
| PartViewer.ModelNode.PointerDown | src/components/LCDViewer.jsx:61-67 | an interactive node starts dragging and records the press point; a non-interactive node changes neither ref |
| PartViewer.ModelNode.PointerUp | src/components/LCDViewer.jsx:68-78 | the drag always ends, the start point is kept, and the handler fires exactly when the node has one and the release is within the click radius |
| PartViewer.ModelNode.WindowPointerUp | src/components/LCDViewer.jsx:40-44 | any window-level pointer-up ends the node's drag and keeps its start point |
| PartViewer.LCDViewer.constructor | src/components/LCDViewer.jsx:159 | the page starts with nothing selected, no modal, and four fresh idle nodes |
| PartViewer.LCDViewer.ShownPart | src/components/LCDViewer.jsx:196 | the modal shows a part exactly when the selection is set, and its lookup then never fails |
| PartViewer.LCDViewer.Press | src/components/LCDViewer.jsx:61-67 | a press starts a drag on the node hit and changes no other node |
| PartViewer.LCDViewer.Select | src/components/LCDViewer.jsx:187-190 | the selection becomes exactly the given id; opening mounts a fresh close-up node, re-selecting keeps the mounted one |
| PartViewer.LCDViewer.Close | src/components/LCDViewer.jsx:196 | closing clears the selection and unmounts the close-up node |
| PartViewer.LCDViewer.Release | src/components/LCDViewer.jsx:68-77 | a release selects the part of the scene node hit exactly when it is a click, leaves the selection otherwise (in particular on the close-up node), ends every drag and keeps every start point |
| PartViewerScenarios.ClickOpensModal | src/components/LCDViewer.jsx:187-196 | press (100,100) and release (102,101) on the STM32 node shows the STM32 entry; closing then shows nothing |
| PartViewerScenarios.DragSelectsNothing | src/components/LCDViewer.jsx:68-77 | press (100,100) and release (200,100) selects nothing and ends the drag |
| PartViewerScenarios.ReleaseWithoutPress | src/components/LCDViewer.jsx:70-75 | a release at distance exactly 5 from the initial start point is not a click |
| PartViewerScenarios.StaleStartSelects | src/components/LCDViewer.jsx:61-77 | after a press on the joystick and a release elsewhere, a later release 1 px along each axis (about 1.4 px) from that press point selects the joystick |

## Left out

- The code text of each snippet: it is display content; only title and filename are kept.
- The interval's scheduling (`setInterval`, `clearInterval`, the 5000 ms period): timing is not modelled, only a tick's effect.
- Per-frame rotation of the nodes (idle spin and drag-driven rotation): floating-point angles driven by `Math.PI` and normalised mouse coordinates.
- Model centring and scaling with `Box3` and `Vector3`: calls into the three.js library. The positions and scales that the page passes are kept in `NodeConfig` and stated by `SceneMatchesTable` and `CloseUpConfig`.
- GLTF loading, `Suspense`, the loading percentage, the canvas, lights and environment: rendering and I/O.
- `e.stopPropagation()` on pointer-down: it keeps a press from reaching more than the nearest node under the pointer, so `Press` takes the one `Target` hit.
- The STM32 viewer and the scroll-linked animations of the other sections: presentation with no local logic beyond float interpolation.
- SquaredDistance: computed over exact reals, so floating-point rounding of `dx * dx + dy * dy` and of `Math.sqrt` is not modelled.
- Hit-testing, and whether the modal's backdrop hides the scene: the caller names the `Target`.
- LCDViewer.Release: `onPointerUp` does not stop propagation, so a release reaches every node under the pointer, nearest first, each measured from its own start point; when several of them click, the farthest one's id is selected last. `Release` models only a release over at most one scene node. A release that reaches one node through several of its meshes repeats the same handler, which changes nothing further.
- LookupPart: keys that a JavaScript object inherits from `Object.prototype` (such as `constructor`) are found by `parts[part]` and do not make `PartModal` fail; the model treats them as unknown. The page never passes such a key, because the selection is only ever one of the four literal ids.
