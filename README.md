# local-newtab layout engine, in Dafny

local-newtab is a browser start page. It shows named **categories**, which are
absolutely positioned blocks on a canvas. Each category holds the **links**
(tiles) that carry its name. In edit mode the user can:

- drag a block by its title;
- resize its width;
- drag tiles between blocks;
- rename or delete categories;
- add, edit and delete links.

This project models the layout engine and the state handlers of
`js/script.js` and proves properties about them.

- `geometry.dfy`
  - Constants and rectangles.
  - The separation test: two blocks are clear of each other when there are
    MIN_GAP pixels along X or along Y.
  - The collision scan `ClearOfAll`, which the mover and the placer share.
- `snap.dfy`: the snap step of a drag.
  - The candidate is clamped to the canvas.
  - It then snaps to another block's leading edge within SNAP_TOLERANCE. When
    several blocks qualify, the later one in the list wins.
  - Then comes the equal-spacing step, first on X and then on Y. It picks the
    nearest block before and the nearest block after, taking the later one on
    ties, as the `reduce` calls do. When the two gaps differ by less than
    SPACING_TOLERANCE, the block is recentred between them.
  - The step also yields the guide lines to draw.
  - One function with an `Axis` parameter models the X and Y copies of the
    code.
- `mover.dfy`: the collision-constrained mover.
  - X advances only if the block stays clear with Y at its last accepted value.
  - Y advances only if the block stays clear with X at its *updated* accepted
    value.
  - A clear accepted position therefore stays clear.
- `placer.dfy`: the free-space placer for a new category.
  - It scans a lattice of candidate positions in row-major order and takes the
    first one that fits.
  - It is proved to terminate and to return that first fit.
- `links.dfy`:
  - `String.prototype.trim`.
  - The list operations on links: filter by category, the rename cascade,
    delete, edit-replace, the first link with an id, and the choice of icon.
  - Load-time defaulting of stored categories and its round trip with saving.
- `session.dfy`: the page state, modelled as objects.
  - `Category` objects, whose fields are updated in place by the gestures,
    the placer and the rename form.
  - A `Dashboard` holding the category list, the link list and the edit-mode
    flag, with one method per handler.
  - The drag and resize gestures as classes. A drag keeps `lastValidX/Y`
    between pointer moves and writes them to the category on release.
  - A drag, a resize or a tile drop happens only in edit mode.

Pixel positions are `real` numbers, because the spacing step can leave a block
on a half pixel. The measured sizes of the blocks and the positions of the
other blocks read back from the page are `int`s. Link ids are numbers (`Num`)
or the decimal string of a number (`Str`). `Str` is what an edited link gets
from the form. Loose equality (`==`) compares their numeric values, and strict
equality (`!==`) compares the two forms as well.

Testing Y against the previous frame's X would be unsafe. The code tests Y
against the X it has just accepted (js/script.js:401-402), and the model does
the same. `Mover.BothOldOrderCollides` shows why that order matters: with both
tests on the old position, a diagonal move past a block's corner passes both
one-axis tests and lands on the block.

Only adding a category refuses a name that is already in use. The category
form renames without that check. So `RenameCategory` does not promise to keep
names unique, and two categories can end up sharing a name and their tiles.

## Model

| member | source | states |
|---|---|---|
| Geometry.SeparatedMeaning | js/script.js:390-394 | two blocks are separated iff the larger one-sided clearance along X or along Y is at least MIN_GAP; the test is symmetric in the two blocks |
| Geometry.ClearOfAll | js/script.js:388-395 | the scan stops at the first collision and reports true iff the block is separated from every other block |
| SnapEngine.Clamp | js/script.js:345-346 | a negative candidate becomes 0 and a non-negative one is unchanged, so the result is never negative and never below the input |
| SnapEngine.Aligned | js/script.js:349-353 | an alignment snap exists iff some block's leading edge is within SNAP_TOLERANCE; the chosen edge is such a block's and no later block qualifies (last match wins) |
| SnapEngine.AlignmentScan | js/script.js:349-355 | the forEach loop yields exactly the last-match-wins snap on X and on Y |
| SnapEngine.AlignedPos | js/script.js:349-355 | after alignment a coordinate has moved by less than SNAP_TOLERANCE, and not at all when no block is within tolerance |
| SnapEngine.Before | js/script.js:358 | a block is kept iff it lies wholly before the candidate on the axis |
| SnapEngine.After | js/script.js:359 | a block is kept iff it lies wholly after the moving block on the axis |
| SnapEngine.LastFarthest | js/script.js:361 | the reduce yields a block with the greatest trailing edge, and no later block ties with it |
| SnapEngine.LastClosest | js/script.js:362 | the reduce yields a block with the smallest leading edge, and no later block ties with it |
| SnapEngine.SpacingSnap | js/script.js:357-365 | the spacing step fires with the gaps to the nearest block before and after iff those gaps differ by less than SPACING_TOLERANCE; when it does not fire, no such pair is within tolerance |
| SnapEngine.Respaced | js/script.js:363-366 | when it fires, the block ends with equal, non-negative gaps on both sides, having moved by half the old gap difference (less than 2.5 px); otherwise it is unchanged |
| SnapEngine.BetweenTwo | js/script.js:358-362 | for a two-block list [l, q], with l wholly before the moving block and q wholly after it, the filters and reduces select exactly l and q |
| SnapEngine.RecentreBetweenNeighbours | js/script.js:357-370 | gaps of 58 and 60 recentre the block to gaps of 59 and 59; gaps of 50 and 68 leave it where it is |
| SnapEngine.SnapAxisNonNegative | js/script.js:345-385 | when the other blocks lie on the canvas, a non-negative candidate stays non-negative through alignment and spacing |
| SnapEngine.SnapAxisOutcome | js/script.js:348-385 | each snapped coordinate is the candidate, another block's leading edge within SNAP_TOLERANCE, or a position with equal gaps between two blocks |
| SnapEngine.AlignmentGuides | js/script.js:354-355 | an alignment snap draws exactly one guide, at the snapped edge; no snap draws none |
| SnapEngine.SpacingGuides | js/script.js:367-368 | no spacing snap draws nothing; a spacing snap draws two guides of its axis, at the near block's trailing edge and then at the far block's leading edge |
| SnapEngine.AlignedIsEdge | js/script.js:350-353 | an alignment snap value is the leading edge of one of the other blocks |
| SnapEngine.AlignmentPart | js/script.js:354-355 | the alignment guides are y then x, each at the snapped value of its axis, one for every alignment snap that fired |
| SnapEngine.SpacingPart | js/script.js:357-385 | the spacing guides are x then y, each at a reference edge of its axis, two for every spacing snap that fired |
| SnapEngine.GuideList | js/script.js:354-383 | exactly one guide per alignment snap and two per spacing snap (at most six), in drawing order (y alignment, x alignment, x spacing, y spacing); each guide marks its axis's snapped value or reference edge, and every snap that fired is drawn |
| SnapEngine.SpacingSnapEdges | js/script.js:360-364 | the two reference edges of a spacing snap are the trailing edge of the nearest block before and the leading edge of the nearest block after |
| SnapEngine.SnapGuides | js/script.js:354-383 | a move draws at most six guides, in drawing order, and every alignment guide runs along another block's edge |
| SnapEngine.SpacingGuidesAtNearestEdges | js/script.js:357-383 | every spacing guide of a move runs along an edge of the nearest block before or after the aligned candidate on its axis |
| SnapEngine.SnapCandidate | js/script.js:348-385 | the snapping code computes the coordinates and guides of the snap specification `Snap` |
| Mover.Step | js/script.js:387-407 | the new position is the old one or a clear one, so clear stays clear; each axis takes the candidate iff its test (X with the old Y, then Y with the new X) passes, otherwise it keeps the old value |
| Mover.MoveStep | js/script.js:387-407 | the two scans compute `Step` |
| Mover.BothOldOrderCollides | js/script.js:398-407 | testing Y against the old X would let a diagonal move collide; the code's order refuses it |
| Mover.DragIntoNeighbourRefused | js/script.js:387-396 | a concrete drag: from x 0 to x 285 toward a block at x 300 on the same row, the X step is refused and the block stays at 0 |
| Placer.FreeBelow | js/script.js:473-474 | below every other block, the first column of a row is always free (so the scan ends) |
| Placer.PastRowEnd | js/script.js:468 | a column that is still in the row comes before the column where the inner scan stopped |
| Placer.FindFreeSpot | js/script.js:466-486 | for a block no wider than the canvas, the scan terminates at the first lattice point in row-major order where the block fits, within the canvas width and clear of every other block |
| Placer.FirstFitUnique | js/script.js:466-486 | the first fit is unique, so the scan order fixes the placement |
| Placer.PlaceBesideFirstBlock | js/script.js:466-479 | a 260x100 block beside a block at the origin, on a canvas 600 wide, goes to (280, 0) |
| Text.TrimStart | js/script.js:610 | drops exactly the leading whitespace |
| Text.TrimEnd | js/script.js:610 | drops exactly the trailing whitespace |
| Text.TrimEmpty | js/script.js:610-611 | trimming yields the empty name iff the input is all whitespace |
| Text.Trim | js/script.js:610 | the result is the piece of the input between two all-whitespace ends, and it neither starts nor ends with whitespace; it is empty iff the input is all whitespace |
| Links.InCategory | js/script.js:230 | a link is shown in a category iff it carries that category's name |
| Links.InCategoryKeepsOrder | js/script.js:230 | the category filter keeps list order: it distributes over concatenation and keeps a single link iff it carries the name |
| Links.Relabel | js/script.js:613-615 | exactly the links of the old name take the new name; nothing else changes |
| Links.RelabelSameName | js/script.js:610-615 | renaming a category to its own (trimmed) name leaves every link unchanged |
| Links.RelabelMovesTiles | js/script.js:613-615 | after a rename, the old name shows no tiles; the new name shows exactly the links that carried it and the relabelled links of the old name, as many as the two had together; every other category is unchanged |
| Links.WithoutIdAsWritten | js/script.js:549-550 | the strict filter drops only links whose id is the number itself |
| Links.WithoutIdAsWrittenKeepsOrder | js/script.js:550 | the strict filter keeps list order: it distributes over concatenation and keeps a single link iff its id is not that number |
| Links.EditedLinkSurvivesDelete | js/script.js:583-591 | a link edited once (its id now a string) survives the strict delete, while the loose delete removes it |
| Links.WithoutId | js/script.js:549-550 | after the (loose) delete no link has the id and every other link remains; a list without the id is unchanged |
| Links.WithoutIdKeepsOrder | js/script.js:550 | the delete keeps the remaining links in order: it distributes over concatenation and keeps a single link iff its id value differs |
| Links.ReplaceById | js/script.js:591 | editing replaces every link with the edited id and keeps the length, order and id values |
| Links.FirstWithId | js/script.js:270 | yields the first index whose id has the value, and None iff there is none |
| Links.ChooseIcon | js/script.js:570-580 | the clear box removes the icon; else a non-empty new upload wins; else exactly the previous icon is kept |
| Records.Defaulted | js/script.js:159-164 | keeps the name; a missing or zero x/y becomes 0 and a missing or zero width becomes 260; the width is never zero |
| Records.LoadCategories | js/script.js:159-164 | every stored category is defaulted, in order |
| Records.SaveLoadRoundTrip | js/script.js:159-177 | saving then loading gives back the categories iff no width is zero |
| Session.ResizedWidth | js/script.js:436 | the width follows the pointer but never goes below 80 |
| Session.Category.constructor | js/script.js:493 | a new category object holds exactly the given name, position and width |
| Session.DragGesture.constructor | js/script.js:307-337 | the gesture starts at the category's position with a snapshot of the other blocks |
| Session.DragGesture.Move | js/script.js:339-411 | a pointer move computes the guides and the new accepted position from the clamped, snapped candidate; a clear accepted position stays clear; with the other blocks on the canvas, a non-negative accepted position stays non-negative |
| Session.DragGesture.Release | js/script.js:413-419 | the category takes the last accepted position; its name and width are unchanged |
| Session.ResizeGesture.constructor | js/script.js:434 | the resize starts from the measured width |
| Session.ResizeGesture.Move | js/script.js:435-438 | the shown width is the floored dragged width |
| Session.ResizeGesture.Release | js/script.js:439-440 | the category takes the shown width; its name and position are unchanged |
| Session.Dashboard.constructor | js/script.js:10-13 | the page starts with no categories, no links, and edit mode off |
| Session.Dashboard.ToggleEditMode | js/script.js:51-53 | edit mode flips; the data is unchanged |
| Session.Dashboard.Load | js/script.js:155-169 | a missing list (or a failed parse) loads as empty; every category is a new object holding the defaulted stored record |
| Session.Dashboard.AddCategory | js/script.js:490-494 | refused iff the name is empty or in use; otherwise a new category at (0, 0), 260 wide, is appended; name uniqueness is kept |
| Session.Dashboard.RemoveCategory | js/script.js:555-563 | only a category no link belongs to can be deleted, so no link is left with a dangling category; uniqueness is kept |
| Session.Dashboard.RenameCategory | js/script.js:606-618 | an all-whitespace name changes nothing; otherwise the category takes the trimmed name and exactly its links follow; no other category changes |
| Session.Dashboard.DeleteLink | js/script.js:546-553 | every link with the id goes (corrected comparison) |
| Session.Dashboard.SaveLink | js/script.js:565-594 | the icon is the one `ChooseIcon` picks; editing replaces the links with the edited id by the new link, whose id is now a string; adding appends a link with the fresh numeric id |
| Session.Dashboard.DropLink | js/script.js:266-274 | in edit mode the first link with the id moves to the target category; outside edit mode, or when it is already there, nothing changes |
| Session.Dashboard.PositionInFreeSpace | js/script.js:451-487 | the new category moves to the first-fit lattice point; its name and width are unchanged |
| Session.Dashboard.BeginDrag | js/script.js:303-308 | a drag starts iff edit mode is on; its origin and its first accepted position are the category's position |
| Session.Dashboard.BeginResize | js/script.js:431-434 | a resize starts iff edit mode is on, from the measured width |

## Left out

- Rendering is not modelled. This covers the DOM, the phantom outline, the
  drawing and clearing of guides, `computeDefaultTileHeight` and the tile
  markup. The guides are modelled as a list of lines.
- Measurements of the page are inputs: `offsetWidth/offsetHeight`,
  `parseInt` of another block's `style.left/top`, and the canvas
  `clientWidth`. The resize commit stores `offsetWidth`, which is modelled as
  the width shown during the gesture.
- Event wiring and Bootstrap modals are not modelled.
- `prompt`, `confirm` and `alert` are modelled only on their confirmed path.
  A cancelled name prompt acts like an empty name.
- The add-category handler calls two operations, which are modelled as two
  methods: `AddCategory`, then `PositionInFreeSpace` with the measured size.
- localStorage, JSON parsing and the file reader are not modelled. A failed
  parse is `None`. Import reuses the load mapping.
- Export and Blob URLs are not modelled.
- The favicon URL built from the link's host is not modelled.
- `Date.now()` is not modelled; it becomes the `freshId` parameter.
- JSON values other than the ones the page writes are not modelled: a stored
  `NaN`, a number-valued name or an id that is not a number.
- Placer.FindFreeSpot: requires `w <= maxW`. For a block wider than the
  canvas, the source's scan never ends.
- The tile-edit button that opens the link form is not modelled apart from the
  form's submit and delete. It looks the link up by id as `FirstWithId` does.
- Link is a value. Links are not shared objects, so the in-place
  `link.category = ...` of the drop handler is a list update of the first
  link with the id. This is faithful as long as ids are unique. The edit
  branch of the link form (js/script.js:591) puts the same new object at
  every index whose id matches. With duplicate ids, which only imported
  data can produce, the source's drop would then change every one of those
  entries; the model changes only the first.
- Session.DragGesture.Move: keeps coordinates non-negative only when the
  other blocks lie on the canvas. Loading keeps any stored position,
  including a negative one, and a snap can align with such a block.
- There is no global "no two blocks overlap" invariant. Block heights depend
  on the rendered tiles, resizing does no collision test, and loading accepts
  any stored positions. The mover proves only that a clear accepted position
  stays clear.

## Findings

| source | as written | input that shows it | evidently intended | confidence | as-written member | corrected member |
|---|---|---|---|---|---|---|
| js/script.js:549-550 | delete keeps every link whose id is not strictly equal (`!==`) to the number read from the form; a link that was edited once has a string id (js/script.js:583, 591), which is never strictly equal to a number | a link with id 7 is edited, so its id becomes "7"; deleting it leaves it in the list (`Links.EditedLinkSurvivesDelete`) | compare ids loosely, as the drop, edit and replace handlers do, so the edited link is deleted | high; not executed | Links.WithoutIdAsWritten | Links.WithoutId |
