# libzelto and its system services, verified

A Dafny model of a small phone system: the retained rendering pipeline of its application
library, and the long-running state machines of its services. Every proof is about all inputs,
all runs or all reachable states of the model, under the hypotheses named below.

| file | what it models |
|---|---|
| `Geometry`, `Pixels`, `Scene` | pixel geometry, the two blending rules, and what a laid-out tree paints, pixel by pixel and without any clip |
| `Painter` | the software renderer over one pixel buffer, with its clip |
| `Reconcile`, `DiffLimits` | the tree diff into a bounded damage set, and what it takes for granted |
| `Frames`, `LostFrame` | the double buffer: each frame repaints one of two buffers holding different old frames; and a run in which a lost frame is never made up for |
| `Layout`, `VirtualList` | the two-pass layout, scroll positions, and the windowed list |
| `Screens` | from layout to diff: what is painted at the frames the layout gave |
| `Springs`, `Navigation` | the spring integrator, and the screen stack it slides |
| `Broker`, `Shade`, `Replica`, `BrokerLimits` | mailboxes, queued intents and the notification store; the shade; the shade as a replica of the store over a FIFO connection; and runs in which mail overtakes mail and a banner is lost |
| `WebSocket` | handshake, frame parser, growing buffer and masked writer |
| `Windows` | window order, activation, stacking and keyboard focus of the compositor |
| `Gestures` | the pointer recognizer: tap, long press, drag |
| `LayerInput`, `LockScreen` | the suppressed input and keyboard requests of a layer surface, and the idle/lock lifecycle |
| `Prefs`, `Arena`, `Versions` | the preferences file, the build arena, dotted versions and the downgrade rule |

Each state machine comes twice: as a value with one function per operation, about which the
invariants and run theorems are lemmas, and as a class whose methods change fields, arrays or
linked chunks step by step and are proved to do to their snapshot what those functions say.

## How the main results fit together

*Incremental repaint equals repainting everything.* `Scene.Px` says what painting a tree does to
one pixel and never mentions a clip. `Painter` proves that the clipped painter restricts it.
`Reconcile` proves that outside the damage two builds have equal `Px` on every background, and that
the damage is exactly the pixels the builds differ for (`Reconcile.Warranted`, said of the two trees
alone), or everything, which it is exactly for another structure or more than 64 pieces.
`Frames` keeps a coherent pool: a buffer that can be repainted in part shows the current build. It
concludes, over whole runs with slides, resizes and lost frames, that every frame committed in a
coherent pool is the full picture, and says exactly when a lost frame ends coherence.

*Springs settle, so screens retire.* The quadratic energy `k e^2 + 20 e v + v^2` loses at least the
fraction `8h` in every sub-step `h` of both profiles. That bounds the frames until rest by a
function of the starting energy, whatever the frame times, and hence the frames until a popped
screen leaves the stack.

*Nothing is lost between the broker and its clients.* The broker's books balance after every
event, and the shade's strip plus the messages still on their way always lead to the live
notifications.

## Hypotheses

- Rendering: wherever the diff of a viewport's rows leaves a pixel alone, the rows reaching it have
  settled: each old one is the first of its key, new ones are one of each key, in the old order. Lists,
  which give their rows keys, always settle (`Reconcile.ListsSettle`). A plain scroll view gives none,
  so all its rows share one key; they settle while the rows that were there stay in place
  (`Reconcile.ColumnsSettle`), and `DiffLimits.RemovedRowStays` shows that removing one goes unnoticed.
  Viewport and content draw the same behind the rows; only scroll nodes clip, and hold one content;
  unchanged text keeps its padding, and glyphs of changed text stay within 8 pixels of its frame, as
  they do when it gets its measured size (`Screens.TextNear`). Damage rectangles that are cleared one
  by one meet the columns of the surface; undamaged nodes may lie anywhere. `Screens` derives these
  from the layout for plain rows.
- Layout: the quality of a layout is proved for trees without offsets, viewports, virtual rows or
  `Fill` in a linear stack, whose fixed sizes hold their content, given at least the measured size.
- Virtual list: the viewport height is current and at most 30 rows; beyond that the 32-child cap
  drops visible rows (`CapacityIsThirtyRows` has both directions). Rows paint nothing above their
  frames, rounded as fills are, which every unfocused row with its contents inside keeps
  (`PlainRowInPlace`); `RingIsCut` shows a focused one that does not.
- Broker: a descriptor is not reused while open, writes succeed, targets have a name, and a
  subscription comes from a shade that has shown nothing yet.
- Gestures: presses and releases alternate; anything may happen between them.

## Where the code is not what one would expect

- When the two buffers alternate, every frame is a full repaint: after each frame the other buffer
  can only be repainted as a whole (`Frames.App.HandOver`).
- A frame that finds no buffer has already made its tree current and loses its damage. The pool
  stays coherent exactly when no buffer the compositor reads is harmed: each can only be repainted as
  a whole, or has the new size and the new picture (`Frames.App.Render`). `LostFrame` has four frames
  after which a committed buffer shows the wrong build; the next slide or change of structure heals it.
- The queue of an app is delivered in slot order: exactly when no mail of the app sits behind the
  first free slot that is the sending order (`Broker.EnqueueKeepsOrder`), and
  `BrokerLimits.MailOvertakes` is a run from boot where it is not.
- The ninth banner is dropped for good, even if the strip empties later (`Replica.OverflowLoses`, and
  a run from boot in `BrokerLimits.NinthIsLost`).
- A focused row just below the viewport of a list loses the upper edge of its focus ring
  (`VirtualList.RingIsCut`); `VirtualList.LeftOutRingExactly` says where exactly.
- A recorded modal does not keep the keyboard. It loses it exactly when a window maps, is activated
  from the task switcher, is reached by home or by switching, or comes forward because the front
  window unmapped (`Windows.ModalHeldExactlyWhen`); the modal gets it back with its next commit.
- Thresholds are converted to 32 bits of milliseconds. The lock timeout is the threshold exactly up
  to 2147483 seconds (`LockScreen.LockTimeoutExactly`). Beyond, it is refused exactly when it wraps
  negative, and then nothing but the lock-now counter locks the session (`LockScreen.StaysUnlocked`),
  or it is far too short: 4294968 seconds lock after 704 ms (`LockScreen.FiftyDaysLockAtOnce`).
- A lock threshold that changes while locked can change the off timeout but does not arm it anew
  (`LockScreen.OffCurrentExactlyWhen`).
- A preference that does not fit is dropped silently, and its old value with it
  (`Prefs.StoreThenFind`).
- The installer's documentation says that only a higher version replaces an install; the code also
  accepts an equal one, and any version when either side has none (`Versions.DecreasesExactlyWhen`).
- Rows of a plain scroll view share one key, so a row that goes while another stays is not damaged and
  stays on the screen (`DiffLimits.RemovedRowStays`).
- The client does not unmask server frames (`WebSocket.DecodeFrames`). It ignores the final bit: of a
  message in fragments only the first is delivered, so it arrives whole exactly when the others are
  empty (`WebSocket.DeliveredWhole`). A frame with a 64-bit length stops the parser for good
  (`WebSocket.TooLongForGood`).

## Model

| member | source | states |
|---|---|---|
| `Painter.Canvas.SetClip` | sdk/src/render.c:10-19 | the clip becomes the requested rectangle clamped to the surface |
| `Painter.Canvas.ClearClip` | sdk/src/render.c:21-26 | every pixel of the clip becomes transparent, no other pixel changes (the row length given to `memset` must not be negative) |
| `Painter.Canvas.OutsideCorner` | sdk/src/render.c:55-78 | the corner test of the fill loop is exactly the geometric rounded-corner cut |
| `Painter.Canvas.FillRoundRect` | sdk/src/render.c:28-111 | inside the clip each pixel covered by the rounded plate takes the colour once, blended over what was there, every other pixel of the surface is unchanged |
| `Painter.Canvas.DrawOwn` | sdk/src/render.c:115-169 | ring, background and content are drawn in that order, only inside the clip |
| `Painter.Canvas.EnterViewport` | sdk/src/render.c:130-147 | the nested clip is exactly the intersection of the old clip and the viewport's frame; an empty one is undone |
| `Painter.Canvas.Paint` | sdk/src/render.c:125-180 | clipped paint is the restriction of the clip-free picture: inside the clip every pixel gets its full-paint value, outside nothing changes, and the clip is restored on return |
| `Painter.Canvas.Repaint` | sdk/src/render.c:10-180 | clear-and-paint of a rectangle shows there exactly the full picture, whatever the buffer held, and touches nothing else; so overlapping rectangles may be repainted one after another |
| `Pixels.Pack` | sdk/src/render.c:49-107 | the four channels survive packing: no carry between them |
| `Pixels.Channels` | sdk/src/render.c:49-107 | a word is its four channels, each in its own place |
| `Pixels.FillOverPremultiplied` | sdk/src/render.c:79-107 | filling keeps a pixel valid premultiplied ARGB (each colour at most alpha, all below 256) and an opaque pixel opaque |
| `Pixels.FillOverBlends` | sdk/src/render.c:79-107 | a fill leaves in every channel its own source blended with its own destination at the fill's alpha, rounded down, and the alpha likewise |
| `Scene.FilledByCentres` | sdk/src/render.c:28-111 | a plate without rounding fills exactly the pixels whose centres lie in its frame |
| `Scene.BandsAreFilled` | sdk/src/render.c:55-78 | rounding takes nothing from the two bands between the corners |
| `Scene.CornersMirror` | sdk/src/render.c:55-78 | the rounded corners are mirror images of each other, both ways |
| `Scene.CornerIsEmpty` | sdk/src/render.c:55-78 | a rounding of two pixels or more takes the corner pixel away |
| `Scene.PaintPremultiplied` | sdk/src/render.c:125-180 | painting any tree over a valid premultiplied pixel leaves a valid one, and an opaque one opaque |
| `Scene.KidsSplit` | sdk/src/render.c:170-172 | painting children in two groups is painting them in one |
| `Scene.RingIsFive` | sdk/src/render.c:115-123 | the focus ring reaches five pixels beyond the frame on every side |
| `Scene.BoxIsSeen` | sdk/src/render.c:125-180 | a box shows its own opaque colour in its frame, the ring's blue beyond that if focused, and elsewhere what was there |
| `Scene.BackgroundIsSeen` | sdk/src/render.c:125-180 | a background covers its ring and is covered by the children |
| `Scene.LastIsSeen` | sdk/src/render.c:170-172 | of overlapping siblings the last one is seen |
| `Scene.ViewportHides` | sdk/src/render.c:130-147 | a viewport shows nothing outside its frame |
| `Painter.Canvas.BlendCover` | sdk/src/text.c:128-142 | one sample changes exactly its own pixel, and only inside the clip with non-zero coverage |
| `Painter.Canvas.DrawText` | sdk/src/text.c:144-178 | a line of glyph samples blends in drawing order, only inside the clip |
| `Pixels.CoverOverPremultiplied` | sdk/src/text.c:128-142 | a glyph sample leaves a valid premultiplied pixel, opaque wherever it has any coverage |
| `Pixels.CoverOverBlends` | sdk/src/text.c:128-142 | a glyph sample blends each channel with its own at the covered share of the text's alpha, and leaves an opaque pixel; without coverage nothing changes |
| `Scene.LastInkIsSeen` | sdk/src/text.c:144-178 | fully covered opaque ink hides what is below it, earlier ink included |
| `Scene.TextIsSeen` | sdk/src/text.c:144-178 | a text is its font's ink from the padded corner of its frame on: a fully covered pixel that is not inked again shows its opaque colour, one without ink what is behind |
| `Reconcile.DamageSet.Add` | sdk/src/reconcile.c:20-33 | an append that ignores empty rectangles and gives up into `full` at 64 |
| `Reconcile.DamageSet.Merge` | sdk/src/reconcile.c:35-43 | a merge appends every rectangle of the other set, or becomes full |
| `Reconcile.AddedCovers` | sdk/src/reconcile.c:20-33 | an addition loses no pixel, overflow included |
| `Reconcile.MergedCovers` | sdk/src/reconcile.c:35-43 | a merge covers the union of both sets, and nothing more unless it overflowed |
| `Reconcile.PlatesNear` | sdk/src/reconcile.c:45-53 | frame fill and focus ring stay inside the 8 px damage margin |
| `Reconcile.OwnNear` | sdk/src/reconcile.c:45-53 | nothing a node draws itself reaches outside its damage rectangle, if its glyphs do not |
| `Reconcile.WithinReach` | sdk/src/reconcile.c:104-158 | a row subtree whose frames and glyphs lie in the row's frame reaches no pixel outside the row's damage rectangle |
| `Reconcile.Untouched` | sdk/src/reconcile.c:45-53 | painting a subtree changes no pixel it does not reach: its own fills, ring and glyphs and those of its children, inside its viewports |
| `Reconcile.RowsSame` | sdk/src/reconcile.c:104-158 | two row lists that agree at a pixel, after rows with or without keys of their own enter, leave or change places, paint that pixel alike on any background |
| `Reconcile.NodeSound` | sdk/src/reconcile.c:160-182 | a plain node is covered once its own change is damaged and its children are covered |
| `Reconcile.RowsSound` | sdk/src/reconcile.c:104-158 | the keyed diff of a viewport covers every changed pixel once entering and leaving rows are damaged inside the viewport, compared rows are covered, redrawn ones where they were and are, and the rows have settled wherever that leaves the viewport alone |
| `Reconcile.ListsSettle` | sdk/src/reconcile.c:104-158 | stacked rows with distinct keys settle however they enter, leave and are reordered: of two that change places one has moved, and is damaged |
| `Reconcile.ColumnsSettle` | sdk/src/reconcile.c:104-158 | stacked rows that share keys, even all of them, settle if those that were there stay in place and others join below |
| `Reconcile.UnchangedBackdrop` | sdk/src/reconcile.c:104-158 | a viewport and a content that are themselves unchanged, or paint nothing, are the same behind the rows |
| `Reconcile.SettledAgree` | sdk/src/reconcile.c:104-158 | where only the first old rows of their keys and one new row of each key are, in order, rows equal to what they are compared with agree |
| `Reconcile.FindRow` | sdk/src/reconcile.c:130-150 | the first row of a key, or none |
| `Reconcile.DiffRow` | sdk/src/reconcile.c:130-143 | an entering row damages exactly its visible part and the margin inside the viewport; a kept one is compared with the old row of its key, and adds exactly what differs between them |
| `Reconcile.DiffNewRows` | sdk/src/reconcile.c:118-143 | after all rows of the new content every entering row is handled and every kept one is covered, the moved ones at their new place too; the damage grows by exactly the pixels the rows differ for, and is full exactly where a kept row was restructured or the rectangles are more than 64 |
| `Reconcile.DamageLeftRows` | sdk/src/reconcile.c:145-157 | rows that left damage exactly their visible parts and the margin inside the viewport |
| `Reconcile.DiffRows` | sdk/src/reconcile.c:118-158 | the diff of comparable viewports covers every pixel where the builds differ, and damages exactly what entering, leaving and kept rows differ for |
| `Reconcile.ReconcileScroll` | sdk/src/reconcile.c:104-158 | a moved viewport damages its old and its new place with their margins, an empty or scrolled one exactly its frame, others exactly what their rows differ for; every differing pixel is covered; full exactly where rows were restructured or the rectangles are more than 64 |
| `Reconcile.Walk` | sdk/src/reconcile.c:160-182 | both bounds. For comparable trees every pixel where the two full paints can differ is covered, and redrawn nodes are damaged where they were and are. Unless it is full, the damage grows by exactly these pixels: within 8 of the old and new frame of a node that looks different or a viewport that moved, the frame of a viewport that scrolled or was or became empty, and within 8 of a row that entered or left, inside its viewport. It is full exactly where kinds or child counts differ or those are more than 64 rectangles |
| `Reconcile.WalkChildren` | sdk/src/reconcile.c:179-181 | the children of comparable nodes are covered one by one, adding exactly what differs in each, unless everything is damaged |
| `Reconcile.Diff` | sdk/src/reconcile.c:184-191 | the same from an empty set; no damage for equal builds, everything for a first build; and every rectangle meets the surface's columns if what it is for is empty or does: undamaged nodes may lie anywhere |
| `Reconcile.OnColumnsClearable` | sdk/src/reconcile.c:184-191 | builds whose nodes all meet the columns damage nothing beside them |
| `DiffLimits.SharedKeysHideAChange` | sdk/src/reconcile.c:104-158 | without distinct row keys a visible change goes unnoticed: a concrete pair of builds |
| `DiffLimits.RowsWithoutKeysStay` | sdk/src/reconcile.c:104-158 | a column of rows without keys that stays in place meets the diff's hypotheses |
| `DiffLimits.RemovedRowStays` | sdk/src/reconcile.c:104-158 | the second of two rows without keys is removed and stays on the screen: a concrete pair of builds the diff takes for equal |
| `DiffLimits.PaddingHidesAChange` | sdk/src/reconcile.c:61-81 | a text node whose padding alone changed is taken for unchanged although its glyphs move: a concrete pair of builds |
| `Frames.Buffer.Alloc` | sdk/src/app.c:256-288 | a (re)allocated buffer has every pixel zero, is not valid, not busy and owes nothing |
| `Frames.App.Prepare` | sdk/src/app.c:302-324 | a buffer can be used exactly if nobody reads it and it has the right size or memory can be found; it is resized only when the compositor does not read it |
| `Frames.App.Acquire` | sdk/src/app.c:302-324 | the frame gets the first buffer that can be had, or none; it is live, free and of the current size, and a busy buffer is left exactly as it was |
| `Frames.MergedSound` | sdk/src/app.c:472-476 | adding a frame's damage to what a buffer had missed still covers every pixel the frame changed |
| `Frames.StaysPremultiplied` | sdk/src/app.c:464-504 | a repaint of any damage leaves a buffer of valid premultiplied pixels such a buffer |
| `Frames.App.Plan` | sdk/src/app.c:472-485 | what is repainted is the frame's damage and what the buffer missed; and it is everything exactly when the buffer holds no frame, a screen slides, that damage is full, or has more than 8 rectangles |
| `Frames.DueExactly` | sdk/src/app.c:472-485 | what a buffer that has missed nothing is due is exactly the pixels the two builds differ for |
| `Frames.App.PaintRects` | sdk/src/app.c:487-504 | rectangles repainted one after another, overlapping or not, show the full picture in their union and leave every other pixel unwritten |
| `Frames.App.PaintOver` | sdk/src/app.c:487-504 | a partial repaint shows the full picture in the damage and leaves every other pixel unwritten; a full one shows it everywhere |
| `Frames.App.PaintBuffer` | sdk/src/app.c:487-504 | the same, and the buffer keeps valid premultiplied pixels only |
| `Frames.App.PaintDue` | sdk/src/app.c:472-504 | the acquired buffer is repainted as a whole exactly when it is stale, a screen slides, or the damage is full or in more than 8 rectangles, else exactly in the frame's damage |
| `Frames.App.HandOver` | sdk/src/app.c:506-518 | the committed buffer has missed nothing and the other one can only be repainted as a whole |
| `Frames.App.Advance` | sdk/src/app.c:440-455 | the diff's damage covers every pixel where the new tree differs from the current one; unless full it is exactly the pixels the builds differ for; it is full exactly for a restructured build or more than 64 pieces, and nothing for an equal one, whose picture is the same; its rectangles meet the columns wherever they may be cleared one by one |
| `Frames.App.Commit` | sdk/src/app.c:464-527 | the committed buffer is repainted in the frame's damage or as a whole, as the plan says, and the other buffer is not written |
| `Frames.App.Finish` | sdk/src/app.c:464-527 | a whole repaint makes any pool coherent, and a partial one of a buffer that showed the current tree keeps it so; the committed buffer then is the full picture |
| `Frames.App.LossDecided` | sdk/src/app.c:456-462 | after a lost frame the pool is coherent exactly if every buffer that can be repainted in part has the new size and the picture of the new build |
| `Frames.App.TakeOrLose` | sdk/src/app.c:302-462 | a frame that finds no buffer leaves the pool coherent exactly when no buffer the compositor reads is harmed, a condition on the state before it |
| `Frames.App.Deliver` | sdk/src/app.c:456-527 | the first available buffer is repainted and committed; without one only buffers in flight can still be repainted in part |
| `Frames.App.Render` | sdk/src/app.c:406-535 | incremental repaint equals repainting everything, and repaints no more than it says: in a coherent pool the committed buffer is pixel for pixel the full picture, slides included; otherwise exactly the pixels the builds differ for are due, or all of them; no busy buffer changes; and without a buffer coherence survives exactly when no buffer is harmed by the lost damage |
| `Frames.App.Paint` | sdk/src/app.c:406-535 | a frame in a coherent pool, or one painted anew in any pool, shows its build and leaves a coherent pool; a frame that changes nothing at an unchanged size, or finds nothing to be repainted in part, is lost without harm |
| `Frames.App.Show` | sdk/src/app.c:406-535 | what the compositor gets with a commit is the buffer's pixels; in a coherent pool, or painted anew, those are the full picture of the build |
| `Frames.App.Step` | sdk/src/app.c:247-646 | one frame, release or resize: a committed frame is faithful to its build, coherence ends only with a lost frame that harms a buffer, and no buffer the compositor reads is written |
| `Frames.App.LogOne` | sdk/src/app.c:247-646 | one more event of a run keeps what the log explains: the pool's coherence and the pixels of every buffer that is out |
| `Frames.App.Run` | sdk/src/app.c:247-646 | over every run of frames (slides included), releases and resizes, lost frames included: every frame in a coherent pool, and every one painted anew, is committed as its full repaint; and until it is given back a committed buffer keeps exactly the pixels handed over |
| `Frames.NoLossAllFaithful` | sdk/src/app.c:406-546 | a run that loses no frame shows every build in order, each equal to its full repaint |
| `LostFrame.LostFrameStaysStale` | sdk/src/app.c:456-527 | a concrete run of four frames after which a committed buffer does not show its build: its damage was lost with the frame that found no buffer |
| `Layout.Pass.Measure` | sdk/src/layout.c:10-72 | the measure pass leaves every node's desired size in its frame and writes no other node |
| `Layout.Pass.MeasureStack` | sdk/src/layout.c:35-64 | a stack's content size from its children's measured sizes: maximum across, sum and gaps along |
| `Layout.Pass.Arrange` | sdk/src/layout.c:89-205 | the arrange pass gives every node the frame the box of its parent prescribes, reading desired sizes before overwriting them |
| `Layout.Pass.ArrangeScroll` | sdk/src/layout.c:104-127 | a viewport places its content at its natural height above it by the clamped offset, and records viewport and content height |
| `Layout.Pass.RecordScroll` | sdk/src/layout.c:104-127 | the scroll cell records viewport and content height, and its offset is clamped into the content |
| `Layout.ClampOffset` | sdk/src/layout.c:104-127 | a clamped offset is the one of the content's offsets that is nearest to it |
| `Layout.Pass.ArrangeStack` | sdk/src/layout.c:129-205 | children at declared rows, centred on each other, or one after the other; `Layout.PlacedIsArranged` says where that is |
| `Layout.Pass.FreeSpace` | sdk/src/layout.c:162-175 | total weight and free main extent, never negative |
| `Layout.Pass.Extents` | sdk/src/layout.c:177-203 | the main and cross extents of one child of a linear stack |
| `Layout.PlacedIsGood` | sdk/src/layout.c:89-205 | a plain tree laid out at no less than its measured size gives every node at least its measured size inside its parent's padded box; linear siblings are exactly `spacing` apart, and when any child grows, sizes and gaps fill the inner extent exactly |
| `Layout.PlacedIsArranged` | sdk/src/layout.c:89-205 | of every laid-out tree: a child across the axis starts where the padded box starts, ends where it ends or has equal room on both sides, as the stack's alignment says; siblings follow each other at the spacing, growing ones share what is left by their weights; overlaid ones are centred both ways; rows stand at their declared heights; content lies above its viewport by the clamped offset |
| `Layout.WantIsTight` | sdk/src/layout.c:10-72 | a plain linear stack that gets exactly what it asks for is filled exactly by its children, gaps and padding |
| `Layout.OverlayIsTight` | sdk/src/layout.c:10-72 | a plain overlay that gets exactly what it asks for has a child as wide and one as high as its padded box |
| `Layout.LeavesWant` | sdk/src/layout.c:10-72 | what leaves ask for: texts their measure, boxes their fixed size, each with its padding |
| `Layout.Pass.Layout` | sdk/src/layout.c:207-210 | both passes together establish those guarantees for the whole tree, alignment included, with the root as large as the surface |
| `VirtualList.ScrollCell.DragBy` | sdk/src/scroll.c:57-68 | an offset moves with the finger and stops exactly at the content's ends |
| `VirtualList.ScrollCell.EndDrag` | sdk/src/scroll.c:70-76 | a release flings exactly when it is faster than 40 px/s |
| `VirtualList.FillRows` | sdk/src/scroll.c:134-141 | rows of the window in order, each at its exact place, up to 32 |
| `VirtualList.RowIsMade` | sdk/src/scroll.c:106-141 | a row has the requested height, or 44 if none above 1 is asked for, stands at its index times that, and has the key given for it |
| `VirtualList.BuildRows` | sdk/src/scroll.c:106-145 | every row meeting the viewport is built, at its exact place, within the 32-child cap, whenever the viewport is current and at most 30 rows high |
| `VirtualList.VisibleInWindow` | sdk/src/scroll.c:122-132 | every visible row lies in the window |
| `VirtualList.WindowFits` | sdk/src/scroll.c:122-141 | a viewport of at most 30 rows never asks for more than 32 |
| `VirtualList.CapacityIsThirtyRows` | sdk/src/scroll.c:106-145 | 32 children suffice for every list and offset exactly when the viewport is at most 30 rows high |
| `VirtualList.WindowShowsTheList` | sdk/src/scroll.c:106-145 | the windowed viewport paints the same pixels as the list with all rows built, at every scroll position, if the rows left out paint nothing above their rounded frames or below the next row |
| `VirtualList.LeftOutIsIdle` | sdk/src/scroll.c:119-132 | a row left out of the window paints nothing in the viewport |
| `VirtualList.PlainRowInPlace` | sdk/src/scroll.c:106-145 | an unfocused row whose contents lie in its frame, fills that round past the truncated frame included, paints only where that needs |
| `VirtualList.LeftOutRingExactly` | sdk/src/scroll.c:106-145 | a left-out row with the focus shows at a pixel of the viewport exactly where its ring covers it, unless it clips its ring away itself |
| `VirtualList.RingIsCut` | sdk/src/scroll.c:106-145 | a focused row just below the viewport is left out with the upper edge of its focus ring: a concrete list where the pictures differ |
| `VirtualList.RowFrames` | sdk/src/scroll.c:134-141 | the layout gives a built row the frame that painting argument relies on |
| `Springs.Animated.Set` | sdk/src/animation.c:54-61 | a jump: on target, still, not animating |
| `Springs.Animated.Spring` | sdk/src/animation.c:63-72 | a spring heads for the new target with its profile, keeping position and speed |
| `Springs.Animated.SubStep` | sdk/src/animation.c:98-103 | one sub-step of semi-implicit Euler: velocity first |
| `Springs.Animated.SubStepAll` | sdk/src/animation.c:98-103 | the sub-step loop computes the recurrence the energy argument is about |
| `Springs.Animated.Advance` | sdk/src/animation.c:87-110 | sub-steps, then exactly when these end within 0.25 of the target at less than 0.5 a second the animation is over, on the target; else position and speed are theirs |
| `Springs.EndsExactlyWhen` | sdk/src/animation.c:87-112 | a frame ends an animation exactly if its sub-steps came within 0.25 at less than 0.5 a second; until then it is where they left it |
| `Springs.FewestSubSteps` | sdk/src/animation.c:87-112 | a frame is cut into as few sub-steps of at most 8 ms as will do |
| `Springs.ForceStep` | sdk/src/animation.c:87-112 | in a sub-step the speed changes by stiffness towards the target and damping against the motion, and the position by the new speed |
| `Springs.SubStepLength` | sdk/src/animation.c:92-97 | for frame times in [0.001, 0.25] s the sub-steps are 1 to 8 ms long and add up to the frame |
| `Springs.StepShrinks` | sdk/src/animation.c:98-103 | one quadratic energy loses at least the fraction 8h in every sub-step, for both profiles |
| `Springs.StepStrictlyShrinks` | sdk/src/animation.c:98-103 | off its target a spring's energy strictly falls at every sub-step |
| `Springs.FramesDecay` | sdk/src/animation.c:87-110 | after t seconds of frames of any lengths a moving spring has at most 1/(1+8t) of its energy |
| `Springs.LowEnergyIsRest` | sdk/src/animation.c:104-109 | little energy means within the snap thresholds |
| `Springs.Settles` | sdk/src/animation.c:87-110 | a spring left alone stops exactly on its target within a number of frames computed from its energy, whatever the frame times, and stays there |
| `Navigation.Nav.Push` | sdk/src/navigation.c:24-37 | a pushed screen enters from the right on top; a full stack of 8 ignores it |
| `Navigation.Nav.Pop` | sdk/src/navigation.c:39-47 | the top screen starts to slide out; the root stays |
| `Navigation.Nav.Retire` | sdk/src/navigation.c:69-75 | exactly a popped top screen whose slide is over leaves the stack |
| `Navigation.PoppedSlidesOut` | sdk/src/navigation.c:39-47 | a pop starts the slide of the top screen from where it is and at the speed it has, and leaves the others and a lone root alone |
| `Navigation.PushSlidesIn` | sdk/src/navigation.c:24-37 | a push puts exactly one screen on top, off the side and at rest, heading in; a stack of eight ignores it |
| `Navigation.LeavesExactlyWhen` | sdk/src/navigation.c:69-75 | a frame drops a screen exactly if another is below it and it was popped and its slide is over and off the side; the frame's time step is the clock difference, at least 1 and at most 250 ms |
| `Navigation.PushSettles` | sdk/src/navigation.c:24-37 | a pushed screen is never retired and is exactly in place within a number of frames computed from the energy of its slide |
| `Navigation.PopRetires` | sdk/src/navigation.c:49-75 | whatever the clock does, a popped screen left on top is retired, and only it, within a number of frames computed from the energy of its slide |
| `Navigation.Nav.Tick` | sdk/src/animation.c:147-174 | a tick advances the slide of every screen of the stack and nothing else |
| `Navigation.Nav.Frame` | sdk/src/app.c:406-437 | a frame ticks with the clamped clock difference, then retires |
| `Broker.Broker.MailboxFd` | system/zsysd/main.c:422-429 | the first live connection registered under an app id, or -1 |
| `Broker.Broker.EnqueuePending` | system/zsysd/main.c:487-507 | an intent takes the first free slot; a full queue changes nothing |
| `Broker.Broker.FlushPending` | system/zsysd/main.c:510-526 | every intent queued for the app is written once, in slot order, and only its slots are freed |
| `Broker.Broker.DeliverOrQueue` | system/zsysd/main.c:531-547 | an intent is written to a live mailbox, or queued, or dropped |
| `Broker.Broker.Register` | system/zsysd/main.c:924-934 | a registration renames the mailbox and flushes its queue |
| `Broker.Broker.Accept` | system/zsysd/main.c:1119-1137 | a connection takes the first free slot, unregistered; a full table closes it |
| `Broker.Broker.Disconnect` | system/zsysd/main.c:1147-1158 | the slot is blanked, and the sink with it if it was the sink |
| `Broker.Broker.HandleNotifyPost` | system/zsysd/main.c:687-746 | a post is refused, dropped by a full store, or stored under the next id, answered and shown |
| `Broker.Broker.NotifFind` | system/zsysd/main.c:662-669 | the slot of a live notification |
| `Broker.Broker.NotifDrop` | system/zsysd/main.c:672-681 | a live notification goes and the sink hears of it; an unknown id changes nothing |
| `Broker.Broker.RouteNotifyAction` | system/zsysd/main.c:750-781 | an action goes to the poster like any intent, then the notification is dropped |
| `Broker.Broker.Handle` | system/zsysd/main.c:918-980 | every event does what the specification says and keeps the invariant |
| `Broker.OwedUpdate` | system/zsysd/main.c:487-507 | queueing adds exactly one intent to what is owed |
| `Broker.OwedFlushed` | system/zsysd/main.c:510-526 | flushing takes exactly the app's queue out of what is owed and leaves none of it |
| `Broker.RegisterDeliversAll` | system/zsysd/main.c:510-526 | registering delivers the app's whole queue to that connection, in slot order, and leaves every other app's queue alone |
| `Broker.RouteGood` | system/zsysd/main.c:531-547 | delivering, queueing and dropping keep every intent accounted for |
| `Broker.RegisterGood` | system/zsysd/main.c:924-934 | after a registration nothing waits for an app with a live mailbox |
| `Broker.NextGood` | system/zsysd/main.c:918-1159 | every event keeps: each resolved intent is delivered, in one slot, or dropped; deliveries reached a connection registered under the target; nothing waits for a connected app; live ids distinct and issued |
| `Broker.RunGood` | system/zsysd/main.c:1054-1173 | the same over every run from any good state |
| `Broker.BootGood` | system/zsysd/main.c:1087-1092 | the broker starts in a good state |
| `Broker.LostOnlyWhenFull` | system/zsysd/main.c:487-507 | an intent is lost only when its target has no mailbox and all 16 slots are taken, and then nothing else changes |
| `Broker.IntentServed` | system/zsysd/main.c:531-781 | every share, link and tapped action becomes exactly one intent of its own target and text: written once to a live mailbox of that app, else queued if a slot is free, else lost, with nothing else written, queued or lost |
| `Broker.OnlyIntentsResolve` | system/zsysd/main.c:531-781 | nothing else resolves, queues or loses an intent, and only a registration writes mail besides |
| `Broker.ConnectionsAre` | system/zsysd/main.c:918-1159 | after every event a connection is nobody's mailbox until it registers, then that of the app it registered for last, and gone when it disconnects; a new one is taken exactly while a slot is free |
| `Broker.SinkIs` | system/zsysd/main.c:918-1159 | the shade is the connection that subscribed last, until it disconnects |
| `Broker.EnqueueInserts` | system/zsysd/main.c:487-507 | new mail lands among the app's queued mail at the place of the slot it took |
| `Broker.EnqueueKeepsOrder` | system/zsysd/main.c:487-526 | queued mail stays in sending order exactly when none of it sits behind the first free slot; delivery is not first-in first-out otherwise |
| `BrokerLimits.MailOvertakes` | system/zsysd/main.c:487-526 | a concrete run from boot in which the second of two links to an app is delivered first |
| `Broker.IdsNeverReturn` | system/zsysd/main.c:662-746 | an id given out and dropped is never live again, in any run |
| `Shade.Shade.BannerById` | system/shade/main.c:141-148 | the slot of a shown banner |
| `Shade.Shade.OnShow` | system/shade/main.c:151-177 | a show replaces the banner of its id or takes the first free slot; a full strip ignores it |
| `Shade.Shade.OnHide` | system/shade/main.c:181-198 | a hide frees the banner and puts it in front of a history of at most six |
| `Shade.RememberedIs` | system/shade/main.c:181-198 | the newest dismissal comes first, and of six the oldest falls off |
| `Replica.ReadApplies` | system/shade/main.c:151-198 | reading a message does to the strip what the message says, unless a show finds the strip full |
| `Replica.ReadKeeps` | system/shade/main.c:151-198 | reading keeps the agreement and the growing ids; a strip that fits never overflows |
| `Replica.OverflowLoses` | system/shade/main.c:151-165 | a show ignored by a full strip breaks the agreement exactly when its notification is still live |
| `BrokerLimits.NinthIsLost` | system/shade/main.c:151-165 | a concrete run from boot: nine posts, then the first is withdrawn; the ninth is still not shown although a banner slot is free |
| `Replica.PostTells` | system/zsysd/main.c:687-746 | a post's messages to the sink describe exactly what it did to the live notifications |
| `Replica.DropTells` | system/zsysd/main.c:672-681 | a drop's messages to the sink describe exactly what it did to the live notifications |
| `Replica.PostAdds` | system/zsysd/main.c:687-746 | a post adds exactly the new notification under the next id, and answers with that id, exactly when it is granted, has a poster and finds a slot; otherwise it answers -1 and adds nothing |
| `Replica.DropRemoves` | system/zsysd/main.c:672-681 | a drop removes exactly that notification |
| `Replica.NewShade` | system/zsysd/main.c:950-954 | a shade that has just subscribed agrees with the store from there on |
| `Replica.AfterKeeps` | system/zsysd/main.c:632-781 | every broker event keeps: the messages on their way lead from the strip to the live notifications posted since the subscription, ids only growing |
| `Replica.RunKeeps` | system/zsysd/main.c:632-781 | over every interleaving of broker events and reads: what the strip will show is live, and while at most eight are live it is exactly the live notifications |
| `WebSocket.XorTwice` | sdk/src/net.c:570-596 | masking with the same byte twice gives the byte back |
| `WebSocket.WriteFrame` | sdk/src/net.c:570-596 | the bytes written for a frame: header, key, masked payload |
| `WebSocket.WrittenReadsBack` | sdk/src/net.c:570-596 | a server reads back the opcode and, unmasking per section 5.3 of RFC 6455, the payload, with the frame's end in the right place, exactly when the payload has at most 65535 bytes |
| `WebSocket.HeadOfBytes` | sdk/src/net.c:615-640 | a frame encoded per section 5.2 of RFC 6455 is found in front of whatever follows |
| `WebSocket.DecodeFrames` | sdk/src/net.c:615-655 | a stream of whole frames, final or not, decodes to its text payloads up to the first close, and a partial frame stays behind |
| `WebSocket.FirstFramesDelivered` | sdk/src/net.c:615-655 | of text messages in fragments per section 5.4 of RFC 6455 only each first frame's payload is delivered, as a message of its own |
| `WebSocket.DeliveredWhole` | sdk/src/net.c:615-655 | text messages are delivered whole exactly when no continuation frame carries anything |
| `WebSocket.TooLongForGood` | sdk/src/net.c:615-655 | once a frame with a 64-bit length has arrived nothing is delivered again, whatever follows: the bytes pile up |
| `WebSocket.DecodeSplit` | sdk/src/net.c:615-655 | decoding a stream in two pieces is decoding it in one |
| `WebSocket.ChunksDoNotMatter` | sdk/src/net.c:615-655 | however a stream of frames is cut, the delivered payloads are those of one batch decode |
| `WebSocket.StreamDecides` | sdk/src/net.c:657-726 | from the handshake on, phase and delivered payloads depend on the bytes alone, not on how reads cut them |
| `WebSocket.AcceptedStable` | sdk/src/net.c:709-722 | the status line is judged alike however many bytes behind the header have arrived |
| `WebSocket.HandshakeWaits` | sdk/src/net.c:709-724 | without a blank line in what has arrived the handshake waits, and keeps it all |
| `WebSocket.HandshakeDecides` | sdk/src/net.c:709-724 | at the first blank line a response that says `HTTP/1.1 101` opens the connection, the frames behind it parsed at once, and any other kills it |
| `WebSocket.Socket.Grow` | sdk/src/net.c:682-693 | there is always room for a read and a terminating zero, and growing keeps the bytes |
| `WebSocket.Socket.Receive` | sdk/src/net.c:682-702 | a read is appended to what the buffer holds |
| `WebSocket.Socket.Shift` | sdk/src/net.c:650-654 | the unparsed rest moves to the front |
| `WebSocket.Socket.Deliver` | sdk/src/net.c:641-647 | the handler gets the payload with a zero behind it; the write is in capacity and undone |
| `WebSocket.Socket.FrameAt` | sdk/src/net.c:617-636 | the header at an offset, or that the frame is incomplete or too long |
| `WebSocket.Socket.ParseFrames` | sdk/src/net.c:615-655 | parsing the buffer delivers exactly the batch decode's payloads, leaves its rest, and closes exactly when it does |
| `WebSocket.Socket.FindBlank` | sdk/src/net.c:728-740 | the first blank line of the response |
| `WebSocket.Socket.Answer` | sdk/src/net.c:708-724 | the handshake opens or kills the connection, and frames behind the header are parsed at once |
| `WebSocket.Socket.Advance` | sdk/src/net.c:657-726 | a readable connection takes all bytes that have arrived and advances as the specification says |
| `Windows.Server.UpdateActivation` | compositor/src/toplevel.c:25-38 | exactly one mapped window is activated, on its client and on its handle |
| `Windows.Server.FocusToplevel` | compositor/src/toplevel.c:40-64 | a window is raised, made most recent, given the keyboard and activated alone |
| `Windows.Server.HandleMap` | compositor/src/toplevel.c:97-134 | a mapped window joins in front, gets a handle if possible, and takes the focus |
| `Windows.Server.HandleUnmap` | compositor/src/toplevel.c:136-161 | an unmapped window leaves, and the next most recent one takes over if it was in front |
| `Windows.Server.GoHome` | compositor/src/toplevel.c:239-250 | the most recent launcher window comes to the front |
| `Windows.Server.SwitchWindow` | compositor/src/toplevel.c:252-261 | the least recently used window comes to the front |
| `Windows.FocusedGood` | compositor/src/toplevel.c:40-64 | focusing a mapped window restores every invariant |
| `Windows.StackFronted` | compositor/src/toplevel.c:40-48 | raising the window moved to the front makes the stacking the reverse of the list |
| `Windows.MappedGood` | compositor/src/toplevel.c:97-134 | mapping keeps the invariants, whatever modal is recorded |
| `Windows.UnmappedGood` | compositor/src/toplevel.c:136-161 | unmapping keeps the invariants |
| `Windows.FocusedInFront` | compositor/src/toplevel.c:40-64 | a focused window is activated with the keyboard, and the others keep their order |
| `Windows.MappedInFront` | compositor/src/toplevel.c:97-134 | a window that maps is in front of all others even while a modal is recorded |
| `Windows.ActivateBringsForward` | compositor/src/toplevel.c:66-75 | the task switcher brings exactly the chosen window to the front, the others keeping their order |
| `Windows.ModalHeldExactlyWhen` | compositor/src/toplevel.c:40-261 | a modal that has the keyboard loses it exactly when a window maps or is chosen from the switcher, the user goes home to a launcher or on to a window, or the front window goes and leaves another |
| `Windows.UndisturbedModalHeld` | compositor/src/toplevel.c:40-261 | through any run without those events while a modal is recorded, the modal has the keyboard |
| `Windows.UnmappedKeepsOrder` | compositor/src/toplevel.c:136-161 | a window that unmaps leaves the others in order |
| `Windows.HomeShowsLauncher` | compositor/src/toplevel.c:239-250 | home brings the most recent launcher to the front, and does nothing without one |
| `Windows.NextGood` | compositor/src/toplevel.c:25-261 | every window, key and layer event keeps: duplicate-free most-recent order, only the head activated, handles mirroring activation, stacking equal to that order, the keyboard on the head while no modal is recorded, a recorded modal mapped and exclusive |
| `Windows.RunGood` | compositor/src/toplevel.c:25-261 | the same in every reachable state |
| `Windows.SwitchVisitsAll` | compositor/src/toplevel.c:252-261 | pressing switch once per window focuses each window once, from the back of the list on, and restores order and stacking |
| `Windows.Server.SyncKeyboard` | compositor/src/layer.c:89-105 | a layer that wants the keyboard gets it and is recorded |
| `Windows.Server.ReleaseKeyboard` | compositor/src/layer.c:108-119 | when the recorded modal goes the front window gets the keyboard back |
| `Windows.Server.HandleLayerCommit` | compositor/src/layer.c:137-157 | a commit grabs or releases the keyboard only on a mapped layer |
| `Windows.ModalTakesKeyboard` | compositor/src/layer.c:89-157 | a mapped layer that asks for the keyboard gets it and is recorded; windows, order and activation stay as they were |
| `Windows.ModalGivesBack` | compositor/src/layer.c:108-171 | when the modal unmaps, stops asking or goes, the front window gets the keyboard back and the order stays |
| `Windows.ReleasedGood` | compositor/src/layer.c:108-119 | releasing restores the keyboard to the head |
| `Windows.Server.Handle` | compositor/src/layer.c:123-171 | every event does what the specification says and keeps the invariants |
| `Gestures.Recognizer.PointerPress` | sdk/src/app.c:791-811 | a press arms the recognizer afresh |
| `Gestures.Recognizer.PointerMotion` | sdk/src/app.c:733-783 | motion starts a drag beyond the slop and is ignored after a long press |
| `Gestures.Recognizer.BeginDrag` | sdk/src/app.c:748-765 | the target is chosen once, from the tree of that moment at the press position |
| `Gestures.Recognizer.DragBy` | sdk/src/app.c:768-782 | a sample scrolls by what the finger moved and reports to the cached handler |
| `Gestures.Recognizer.PointerRelease` | sdk/src/app.c:813-839 | a release taps, ends the drag, or swallows |
| `Gestures.Recognizer.LoopTurn` | sdk/src/app.c:1377-1383 | a still press held long enough fires the long press once |
| `Gestures.Undecided` | sdk/src/app.c:733-839 | until an input decides it a press puts nothing out |
| `Gestures.DragRun` | sdk/src/app.c:733-783 | during a drag only motion puts anything out, to the targets chosen at the start, and a scrolled view moves by exactly what the finger moved |
| `Gestures.Gesture` | sdk/src/app.c:733-839 | every gesture gives exactly one of: at most one tap, one long press, or BEGIN, CHANGED one or more times, END to one fixed handler or scroll view; and leaves the recognizer idle |
| `Gestures.TapExactlyWhenStill` | sdk/src/app.c:733-839 | it is a tap exactly when no sample left the slop and no long press was due; the first deciding input decides |
| `Gestures.DecidesMeans` | sdk/src/app.c:705-765 | what decides a press is a sample more than 8 pixels away, or 0.45 s on a node with a long press |
| `Gestures.Stream` | sdk/src/app.c:785-839 | over any alternating stream with motion, timers and rebuilds in between, the output is that of the gestures one after the other |
| `Gestures.FindsForemost` | sdk/src/app.c:347-402 | the target under a point is the node that offers it whose frames all the way down hold the point, a later child before an earlier one and a descendant before its ancestor; none is found only if there is none |
| `Gestures.EffectsTell` | sdk/src/app.c:715-782 | a pan event carries the finger's place, its way from the press and its speed to the handler chosen, a long press the place of the press; a scrolled view is let go at the opposite speed |
| `Gestures.SpeedIs` | sdk/src/app.c:768-782 | the speed of a drag is the last sample's way over its time, taken as at least a millisecond |
| `LayerInput.LayerApp.SetInputRegion` | sdk/src/app.c:1477-1505 | an input region request, suppressed when unchanged |
| `LayerInput.LayerApp.SetInputNone` | sdk/src/app.c:1507-1527 | a request for no input, suppressed when unchanged |
| `LayerInput.LayerApp.SetKeyboard` | sdk/src/app.c:1529-1546 | a keyboard mode request, suppressed when unchanged |
| `LayerInput.RequestsTakeEffect` | sdk/src/app.c:1477-1546 | whatever came before, the surface ends up as asked, and a request is suppressed exactly when the last one already said so |
| `LockScreen.IdleClock.IdleNotify` | sdk/src/app.c:1581-1603 | a registration is refused without a notifier or for a timeout negative in 32 bits |
| `LockScreen.IdleClock.IdleCancel` | sdk/src/app.c:1605-1613 | cancelling ends exactly that registration |
| `LockScreen.IdleClock.DisarmUnlocked` | system/lock/main.c:96-100 | the dim and lock registrations end |
| `LockScreen.IdleClock.DisarmLocked` | system/lock/main.c:101-104 | the off registration ends |
| `LockScreen.IdleClock.ArmUnlocked` | system/lock/main.c:113-121 | dim and lock are registered anew with the current thresholds |
| `LockScreen.IdleClock.ArmLocked` | system/lock/main.c:125-130 | off is registered anew |
| `LockScreen.LockApp.EnterLocked` | system/lock/main.c:133-143 | locking replaces the unlocked registrations by the locked one and clears the entry |
| `LockScreen.LockApp.DoUnlock` | system/lock/main.c:145-159 | unlocking clears everything and re-arms if enabled |
| `LockScreen.LockApp.OnDimIdled` | system/lock/main.c:162-172 | an idle, unlocked, enabled session dims |
| `LockScreen.LockApp.OnLockIdled` | system/lock/main.c:173-179 | an idle, unlocked, enabled session locks |
| `LockScreen.LockApp.OnResumed` | system/lock/main.c:180-188 | input undims, never unlocks |
| `LockScreen.LockApp.OnOffIdled` | system/lock/main.c:189-197 | a locked idle screen goes off |
| `LockScreen.LockApp.OnOffResumed` | system/lock/main.c:198-209 | input wakes a locked screen, still locked |
| `LockScreen.LockApp.OnEnabled` | system/lock/main.c:227-245 | the lock is switched on or off |
| `LockScreen.LockApp.OnThresholds` | system/lock/main.c:246-255 | a new dim or lock threshold re-arms an unlocked session |
| `LockScreen.LockApp.OnOffThreshold` | system/lock/main.c:256-260 | a new off threshold re-arms a locked session |
| `LockScreen.LockApp.OnLockNow` | system/lock/main.c:263-271 | a changed counter locks at once |
| `LockScreen.LockApp.OnSwipe` | system/lock/main.c:277-293 | a swipe up unlocks without a code, or shows the keypad |
| `LockScreen.LockApp.OnDigit` | system/lock/main.c:301-319 | the fourth digit compares the code |
| `LockScreen.LockApp.Show` | system/lock/main.c:407-428 | what the surface takes, phase by phase |
| `LockScreen.LockApp.Body` | system/lock/main.c:392-429 | the first build loads and arms; every build states what the surface takes |
| `LockScreen.UnlockedArmedKeeps` | system/lock/main.c:113-121 | re-arming leaks no registration and leaves dim and lock registered with the thresholds given |
| `LockScreen.LockedArmedKeeps` | system/lock/main.c:125-130 | re-arming off leaks no registration and leaves off registered with the timeout of the configuration, if the notifier takes it |
| `LockScreen.NextGood` | system/lock/main.c:96-429 | every event keeps: locked exactly in the phases locked and off, locked implies enabled; live registrations are exactly those of the regime with none leaked, dim and lock with the current thresholds, off with the timeout last armed; and with no build due the surface blocks pointer and keyboard exactly when locked |
| `LockScreen.RunGood` | system/lock/main.c:96-429 | the same over every run |
| `LockScreen.UnlocksExactlyWhen` | system/lock/main.c:145-319 | a locked session ends exactly by a swipe beyond 150 px with no code set and no keypad, the digit completing the code, or disabling |
| `LockScreen.LocksExactlyWhen` | system/lock/main.c:173-271 | an unlocked session locks exactly when it is enabled and the lock timeout fires or the lock-now counter changes, with nothing typed |
| `LockScreen.DimsAndBlanksExactlyWhen` | system/lock/main.c:162-209 | the screen dims and goes off exactly by its timeouts in the right phases, and input wakes dimmed to active and off to locked |
| `LockScreen.TypingTheCode` | system/lock/main.c:301-319 | four digits on a fresh keypad unlock exactly when they are the code; otherwise the entry starts over |
| `LockScreen.NewCodeCounts` | system/lock/main.c:262-319 | after the code changes, even while locked, four digits unlock exactly when they are the new one |
| `LockScreen.CodeIsCut` | system/lock/main.c:262-263 | a code is cut to its first fifteen characters |
| `LockScreen.LockApp.OnEvent` | system/lock/main.c:162-429 | every event does what the specification says and keeps the invariants |
| `LockScreen.StaysLocked` | system/lock/main.c:145-319 | a locked session stays locked through any run without one of those three |
| `LockScreen.StaysUnlocked` | system/lock/main.c:113-271 | nothing locks an unlocked session through any run in which the lock timeout is refused and the lock-now counter keeps its value |
| `LockScreen.OffCurrentExactlyWhen` | system/lock/main.c:125-271 | the off timeout armed is the configured one exactly after locking, after a new off threshold, or when a new lock threshold did not change it |
| `LockScreen.OffTimeoutGoesStale` | system/lock/main.c:246-255 | a lock threshold raised past the off threshold while locked leaves the old off timeout registered |
| `LockScreen.DimsBeforeLocking` | system/lock/main.c:113-121 | while unlocked the dim timeout is strictly shorter than the lock timeout, if both fit 32 bits of milliseconds |
| `LockScreen.ThresholdsTaken` | system/lock/main.c:113-130 | thresholds in ascending order are used as they are |
| `LockScreen.ThresholdsOrdered` | system/lock/main.c:113-130 | whatever the configuration says, dimming takes at least a second and locking longer; each threshold that is out of order becomes the next second |
| `LockScreen.LockTimeoutExactly` | system/lock/main.c:113-121 | the lock timeout registered is the threshold exactly up to 2147483 seconds, and none is registered exactly when its milliseconds wrap negative in 32 bits |
| `LockScreen.FiftyDaysLockAtOnce` | system/lock/main.c:113-121 | a threshold of 4294968 seconds is registered as 704 milliseconds |
| `Prefs.Store.Find` | sdk/src/storage.c:243-262 | the value of the first line for the key, cut to 1023 characters |
| `Prefs.Store.KeepOthers` | sdk/src/storage.c:275-288 | every line but the key's is kept, as long as it fits the buffer |
| `Prefs.Store.Rewrite` | sdk/src/storage.c:265-298 | the file with a key set or removed; an entry that does not fit is left out |
| `Prefs.OthersLookup` | sdk/src/storage.c:275-288 | dropping a key's lines leaves every other key's result alone |
| `Prefs.StoreThenFind` | sdk/src/storage.c:265-298 | after a store every other key reads as before, a removed key reads as nothing, and a set key reads as its new value exactly when the entry fits |
| `Prefs.StoredWritten` | sdk/src/storage.c:265-298 | what is stored is whole lines below 8192 characters |
| `Prefs.FileIsAMap` | sdk/src/storage.c:243-298 | any sequence of sets and removals does to the file what it does to a map |
| `Prefs.EmptyFileIsAMap` | sdk/src/storage.c:233-239 | a missing file is the empty map |
| `Prefs.ReadsBack` | sdk/src/storage.c:249-256 | a value reads back whole exactly when it is shorter than 1024 |
| `Prefs.LineReads` | sdk/src/storage.c:243-262 | a line of the file is a key, a tab and a value, and the first line of a key is the one that counts |
| `Arena.Arena.Splice` | sdk/src/view.c:47-59 | a chunk is linked in behind the current one; the chunks behind it stay unused and reachable |
| `Arena.Arena.Advance` | sdk/src/view.c:47-50 | moving on to the next chunk discards nothing, because it is unused |
| `Arena.Arena.Bump` | sdk/src/view.c:62-65 | the block lies in the chunk, is zeroed, and is apart from every other block, none of which changes |
| `Arena.Arena.MakeRoom` | sdk/src/view.c:35-60 | there is room in the current chunk, unless memory ran out |
| `Arena.Arena.Alloc` | sdk/src/view.c:32-66 | a block of the rounded size, disjoint from all blocks since the last reset, which neither move nor change; every chunk stays in the list |
| `Arena.Arena.Clear` | sdk/src/view.c:78-83 | every chunk from the head on is marked unused |
| `Arena.Arena.Reset` | sdk/src/view.c:78-83 | a reset forgets all blocks and keeps all chunks |
| `Arena.AllocBeside` | sdk/src/view.c:32-66 | building into one arena leaves the blocks of another one as they are |
| `Screens.TextNear` | sdk/src/layout.c:10-72 | a text that gets at least its measured size keeps its glyphs near its frame |
| `Screens.GoodWithin` | sdk/src/layout.c:89-205 | a plain subtree laid out well lies in any frame its own lies in, as the diff wants of a row |
| `Screens.GoodOnColumns` | sdk/src/layout.c:89-205 | a plain tree laid out well inside a window meets the columns of the surface in every node |
| `Screens.ListRows` | sdk/src/scroll.c:106-145 | the rows of a list, as the layout places them, are stacked and keep to their frames |
| `Screens.ListsOnScreenSettle` | sdk/src/scroll.c:106-145 | two laid-out builds of a list with distinct keys settle, whatever happened to the rows in between |
| `Screens.ColumnRows` | sdk/src/scroll.c:95-104 | the rows of a column inside a viewport are stacked and keep to their frames |
| `Screens.ColumnsOnScreenSettle` | sdk/src/scroll.c:95-104 | two laid-out builds of a column without keys settle if the rows that were there are still there, in place |
| `Versions.NextComponent` | system/installer/main.c:285-297 | one component's number, digits only, and the place behind its dot |
| `Versions.VersionCmp` | system/installer/main.c:282-308 | the sign of the comparison is the lexicographic order of zero-padded component lists |
| `Versions.Trichotomy` | system/installer/main.c:282-308 | exactly one of less, same, greater holds |
| `Versions.Transitive` | system/installer/main.c:282-308 | the order is transitive, across differently written equal versions too |
| `Versions.WrittenReads` | system/installer/main.c:282-308 | a version written as decimal numbers and dots reads back as those numbers |
| `Versions.OthersIgnored` | system/installer/main.c:285-297 | characters that are neither digits nor dots do not count |
| `Versions.Installer.Install` | system/installer/main.c:533-552 | an update is refused exactly when both versions are known and the new one is less |
| `Versions.NeverDecreases` | system/installer/main.c:533-552 | over any sequence of installs in which every package of an id carries a version, its installed version never decreases |
| `Versions.DecreasesExactlyWhen` | system/installer/main.c:533-552 | an install lowers a version exactly when the package carries none and the installed one is not all zeros |
| `Versions.UnversionedLetsOlderIn` | system/installer/main.c:533-552 | one package without a version lets an older one in after it |

## Left out

- Floating-point rounding: coordinates, springs and scroll offsets are reals; the casts that truncate are kept.
- Fling deceleration: the `expf` decay of `sdk/src/animation.c:114-145` is not part of this model.
- Glyph shaping and rasterising, Wayland, wlroots, sockets, files, clocks, the consent and chooser dialogs and JSON parsing: events, parameters or atomic values.
- Frame throttling: the frame callback and the dirty flag of the render loop; any frame may follow any other.
- Layout.Pass.Arrange: node pointers are ids into a frame table, and the tree itself is an immutable value.
- Painter.Canvas.Paint: trees are values, so a subtree shared by two parents is not modelled.
- Frames.App.Run: ends at a new surface size after a lost frame; `Frames.App.Step` goes on from there if the pool is coherent.
- VirtualList.WindowShowsTheList: rows left out may not paint above their own rounded frames; `VirtualList.RingIsCut` shows why.
- LockScreen.NextGood: a timeout event needs its registration to be live, but not that the time has passed, nor that a resume follows an idle.
- Broker.Broker.HandleNotifyPost: the permission decision is a parameter; grants, manifests, candidate matching and settings are not part of this model.
- Broker.Broker.FlushPending: strings are not cut to the fixed field sizes.
- Replica.RunKeeps: a subscription is always by a new shade; a connection that subscribes twice is not modelled.
- WebSocket.Socket.Advance: memory exhaustion, read errors and end of file together with buffered bytes are not modelled.
- Windows.Server.Handle: usable-area arithmetic and popups are not modelled; a window's record lives in a table of the server.
- Gestures.Gesture: handlers are ids, so a handler of a tree that has since been rebuilt is still callable; wheel events do not touch the recognizer.
- LockScreen.LockApp.Body: what the lock screen draws; only what it takes from the user.
- Prefs.Store.Rewrite: the file is one atomic value, and its buffer is never out of memory.
- Arena.Arena.Alloc: giving all chunks back to the system.
- Versions.VersionCmp: component numbers are unbounded, so the overflow of a 64-bit component is not modelled.
- Versions.Installer.Install: signature and hash checks, copying and the broker's reload.
- Demo apps, launcher, bar, navigation buttons, dim, recents, chooser and consent: user interface with only easy claims.
