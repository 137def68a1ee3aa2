# NULLXES desktop: a verified model

The repository is a Wayland desktop: the FRAME compositor, its control-IPC socket and client, a panel, a notification
daemon, a lock screen and a login greeter. This project models the parts that carry state, arithmetic or a protocol and
proves what they keep over whole runs. Libraries and daemons the code talks to (smithay, wayland-client, PAM, greetd,
fontdue, tokio) appear only as an environment that takes steps or as uninterpreted functions.

`dafny verify dfyconfig.toml` checks everything.

## How it is laid out

Each component that updates its fields in place is a class whose methods have the loops and branches of the source. Each
method is proved equal to a function on values (`View() == Step(old(View()), ...)`), and the theorems about whole runs are
lemmas about that function.

| file | component |
|---|---|
| `Raster.dfy` | pixel buffers: `clear`, `fill_rect`, blending, and what a painted layer is |
| `Text.dfy` | the glyph cache and `draw_text` / `measure_text` |
| `PanelDots.dfy` | the panel bitmap and the workspace dots |
| `Scaler.dfy` | the greeter's cover-crop background scaler |
| `ShmPool.dfy` | the shared-memory buffer pool against a compositor that holds and releases buffers |
| `Workspaces.dfy`, `Desktop.dfy`, `Compositor.dfy`, `DesktopProofs.dfy`, `DesktopEffects.dfy` | workspaces, windows, focus slots, drags, shortcuts, session lock |
| `IpcMessages.dfy`, `IpcServer.dfy`, `IpcClient.dfy` | the control IPC as a concurrent protocol, and the client's connect loop |
| `Notifications.dfy`, `History.dfy` | the toast queue and the rotated notification log |
| `LockClient.dfy` | the lock screen with its PAM worker thread |
| `Greeter.dfy` | the login form against the `greetd-ipc(7)` session |
| `Xwayland.dfy` | bounded XWayland respawn |
| `Wrappers.dfy` | the option type |

## Where the code and its comments or promises differ

The model follows the code.

- Window conservation does not hold for every drag. A drag motion re-maps the dragged window into whatever workspace is
  active at that moment (crates/frame/src/input/move_grab.rs:34-39). Keeping the active workspace fixed during the grab
  is not enough either, because a shortcut can move the dragged window itself away. The exact guard is proved: a motion
  keeps conservation if and only if the dragged window is mapped in the active workspace (`DesktopProofs.MotionConservesIff`,
  `WindowsConserved`, and two counterexamples).
- Window ids are protocol object ids (crates/frame/src/handlers/xdg_shell.rs:145): unique only within one client, and free
  to be given out again. Focus slots agree with the spaces in every run whose ids are unique and never reused, drags
  included (`FocusSlotsAgree`). In general they agree in all states of a run if and only if each new window's id is free
  of other slots and of live windows elsewhere, and no move leaves a live window with the slot's id behind
  (`FocusSlotsAgreeIff`). Two clients sharing an id break them (`SharedIdBreaksSlots`), and so does one client reusing an
  id after its window died on another workspace, although ids are unique at every moment (`ReusedIdBreaksSlots`).
- A move request answers Ok when a focus slot moved; a window moved too exactly when the slot named one mapped in the active
  workspace (`OkMovesAWindowIff`).
- The client never compares response ids. It takes the answer to the request it just sent if and only if no earlier request
  was dropped after its line was complete (`InStepIffNoneDropped`); the ids agree if and only if the requests issued in
  between are a multiple of 2^64 (`CorrelationIff`). A request future dropped inside the write spoils the next request's
  line instead, and one dropped inside the read makes the next answer undecodable (crates/ipc/src/client.rs:69-78).
- Lock surfaces do not receive keyboard focus on their first commit, contrary to the comment at
  crates/frame/src/handlers/session_lock.rs:40-41: focus is None for the whole time the session is locked.
- `toplevel_destroyed` clears only the active workspace's focus slot (crates/frame/src/handlers/xdg_shell.rs:133-137), so
  a slot elsewhere may keep naming a dead window; the invariant speaks of live windows.
- A notification timeout of 0 is not sticky, the queue is not pumped when a toast leaves, and replacement looks only at
  visible toasts (crates/nx-notif/src/surface.rs:92-99, :119, :152-164). A replacement keeps its slot, so messages, unlike
  slots and ids, can leave arrival order: over a run they keep it if and only if every replacement hits the very last thing
  waiting or shown (`MessagesInOrderIff`).
- A rotation keeps 256 lines, decodable or not, and an append after a cut write joins its record to the torn last line. From
  whole, well-formed lines reopening always rebuilds the cache. From any file the cache is still the last 256 records ever
  decoded or appended, and reopening rebuilds it if and only if the file holds as many records as the cache and no record
  was lost to a torn line - or the lost ones have left the window, or do not show because the records repeat
  (`ReopenAgreesIff`, `LossShows`; for whole lines, on the state before an append, `AppendAgreesIff`). Both ways of failing
  have inputs: `MalformedLinesBreakAgreement` and `TornLineLosesARecord`.
- The lock client never looks at `locked` before it unlocks. Over a run no unlock is sent too early, as ext-session-lock-v1
  requires, if and only if Locked came before each poll that drains an Ok (`UnlockInOrderIff`); a password accepted before
  Locked breaks it (`UnlockBeforeLocked`).
- The greeter's "username required" check never stops a session from being opened with a blank name
  (`NameCheckStopsNoSession`). With a lost reply the greeter can send a request greetd must refuse; exactly when is
  `RequestsLegalIff` and `InStepIff`, and the refusal repairs it (`RefusalRepairs`).
- The glyph cache keys sizes by half pixels. From the empty cache, every rasteriser's cached run equals drawing afresh if
  and only if no two calls of the run ask for glyphs of one key at different sizes (`CacheRefinesIff`); half-pixel multiples
  never do, 10 and 10.1 do (`OffGridSizesCollide`).
- `fill_rect` casts its width and height to i32: a rectangle wider or taller than 2^31 - 1 paints nothing (`FillRectClips`).
- The IPC module's comments speak of a 256-deep queue, a `Busy` answer and coalesced reloads
  (crates/frame/src/ipc_server.rs:13-16, :37); none of them is in the code or in the model.

## Model

| member | source | states |
|---|---|---|
| Raster.BlendByte | crates/wlcommon/src/shm.rs:294-303 | each blended byte lies between its two inputs, so the narrowing to u8 loses nothing |
| Raster.OpaqueIsSource | crates/wlcommon/src/shm.rs:282-292 | the opaque fast path is the general blend at alpha 255 |
| Raster.StackBound | crates/wlcommon/src/shm.rs:294-303 | n layered blends never exceed exact rational source-over and fall short of it by less than n |
| Raster.StackRange | crates/theme/src/text.rs:211-218 | any number of blends stays between the minimum and maximum of its inputs |
| Raster.PaintedPixel | crates/wlcommon/src/shm.rs:299-303 | a painted pixel is blue, green, red blended once and alpha 255; an unpainted one is unchanged |
| Raster.PaintedPadding | crates/wlcommon/src/shm.rs:270-307 | row padding and bytes past the image never change |
| Raster.PaintDisjoint | crates/frame/src/panel/modules/workspaces.rs:16-31 | layers without a common pixel can be painted one after another or at once |
| Raster.LayersStack | crates/wlcommon/src/shm.rs:294-303 | a colour byte of the buffer after any layers is the stack of the blends that reached it |
| Raster.LayersBound | crates/wlcommon/src/shm.rs:294-303 | every colour byte of the buffer, after any layers, never exceeds exact compositing and falls short of it by less than one a blend; untouched without a blend |
| Raster.LayersRange | crates/theme/src/text.rs:211-218 | and stays in the range of the colours that reached it |
| Raster.FillRect | crates/wlcommon/src/shm.rs:270-307 | for any i32 position and u32 size every access is in bounds and the buffer becomes the clipped rectangle painted once |
| Raster.FillRectClips | crates/wlcommon/src/shm.rs:275-280 | the painted pixels are exactly the set intersection of rectangle and buffer; an oversize dimension paints nothing |
| Raster.Clear | crates/wlcommon/src/shm.rs:257-267 | every whole pixel gets the colour, an incomplete last pixel is left alone |
| Raster.ClearedPixel | crates/wlcommon/src/shm.rs:257-267 | a cleared pixel is blue, green, red, alpha of the colour in that order; up to three bytes behind the last whole one stay |
| Text.HalfMultiplesAreOnGrid | crates/theme/src/text.rs:115-116 | the sizes the key represents exactly are the half-pixel multiples |
| Text.HalfPixelsIsNearest | crates/theme/src/text.rs:115-116 | the size in the key is the nearest half pixel, upwards from the middle, clamped to the u32 range |
| Text.Fill | crates/theme/src/text.rs:117-120 | entries are only ever added, and every character of the text has one afterwards |
| Text.FillIsFresh | crates/theme/src/text.rs:108-121 | from any coherent cache, the glyphs looked up are those a fresh rasterisation gives |
| Text.FillEntries | crates/theme/src/text.rs:115-120 | every cached entry was there before or is rasterised for the text at hand |
| Text.CacheRefines | crates/theme/src/text.rs:108-242 | from any cache that is true for the calls using it, any sequence of draw and measure calls without two sizes for one key gives the pixels and advances of rasterising every glyph afresh |
| Text.CacheRefinesIff | crates/theme/src/text.rs:115-120 | from the empty cache, that holds for every rasteriser if and only if no two calls ask for one key at different sizes |
| Text.HalfPixelSizesRefine | crates/theme/src/text.rs:108-242 | at half-pixel multiples it holds from any coherent cache, which stays coherent |
| Text.FirstUseDecides | crates/theme/src/text.rs:117-120 | the first call to use a key decides its entry for the rest of the run |
| Text.OffGridSizesCollide | crates/theme/src/text.rs:115-116 | at 10 and 10.1 pixels some rasteriser's cached run differs from the fresh one |
| Text.DrawnStaysInside | crates/theme/src/text.rs:197-220 | text never touches row padding or bytes past the image |
| Text.DrawnNext | crates/theme/src/text.rs:182-223 | each glyph is painted once, at the cursor the advances before it give |
| Text.GlyphPixel | crates/theme/src/text.rs:191-220 | bitmap row r and column k ink the pixel that far below and right of cursor, xmin, baseline, ymin and height; the byte there is the coverage of one blend in the text colour, and zero inks nothing |
| Text.InkAt | crates/theme/src/text.rs:197-218 | the ink at a bitmap cell is the byte of its row and column, none where that is zero |
| Text.OutsideGlyph | crates/theme/src/text.rs:197-210 | a pixel outside the bitmap of a glyph is left alone |
| Text.TextRenderer.constructor | crates/theme/src/text.rs:143-145 | starts with an empty, coherent cache |
| Text.TextRenderer.GetOrRasterize | crates/theme/src/text.rs:108-121 | a present entry is never replaced; the answer is the entry |
| Text.TextRenderer.MeasureText | crates/theme/src/text.rs:229-242 | the width is the sum of the advances of the cached glyphs |
| Text.TextRenderer.DrawChar | crates/theme/src/text.rs:182-223 | one turn of the loop: one glyph painted at the cursor, the cursor moved by its advance |
| Text.TextRenderer.DrawText | crates/theme/src/text.rs:159-226 | the buffer becomes the glyphs drawn left to right; the result is the width measure_text gives |
| Text.BlitGlyph | crates/theme/src/text.rs:191-220 | the nested loops paint exactly the glyph's ink inside the buffer, each pixel once |
| PanelDots.FillCircle | crates/frame/src/panel/modules/workspaces.rs:33-42 | the 1x1 fills paint exactly the clipped disc, each pixel once |
| PanelDots.RingCircle | crates/frame/src/panel/modules/workspaces.rs:44-55 | the same for the ring between the two radii |
| PanelDots.DotIs | crates/frame/src/panel/modules/workspaces.rs:11-31 | the centre, the two radii and the colour of each dot: disc of radius 4 when active, ring of radius 3 when occupied, ring of radius 2 otherwise |
| PanelDots.DotsDisjoint | crates/frame/src/panel/modules/workspaces.rs:11-14 | no two dots share a pixel |
| PanelDots.StripIsUnion | crates/frame/src/panel/modules/workspaces.rs:16-31 | the strip's picture is exactly the union of its dots |
| PanelDots.OccupiedSetDecides | crates/frame/src/panel/modules/workspaces.rs:25 | the picture depends only on which inactive workspaces are occupied, not on order or repetition in the list |
| PanelDots.DrawStrip | crates/frame/src/panel/modules/workspaces.rs:16-31 | for any bitmap, active index and list, the buffer becomes the strip painted once |
| PanelDots.PanelBitmap.constructor | crates/frame/src/panel/mod.rs:36-45 | a zeroed buffer of exactly width times height pixels, dirty, generation 0 |
| PanelDots.PanelBitmap.Resize | crates/frame/src/panel/mod.rs:47-56 | a new size gives a zeroed dirty buffer and the next generation, wrapping as a u64; the same size changes nothing |
| PanelDots.PanelBitmap.RenderDots | crates/frame/src/panel/mod.rs:127-128 | the bitmap's own stride and size make every dot access in bounds |
| Scaler.CropCovers | crates/nx-greet/src/render.rs:122-131 | the crop lies in the source, is centred to one pixel, keeps one full side, and its other side is the exact aspect rounded to half a pixel, or 1 where that rounds to nothing |
| Scaler.CropIs | crates/nx-greet/src/render.rs:122-131 | which side is cropped, and that its size is the exact aspect rounded, 1 only where that rounds to nothing |
| Scaler.RoundDivExact | crates/nx-greet/src/render.rs:124-128 | the rounding is to the nearest integer |
| Scaler.SrcCoordInside | crates/nx-greet/src/render.rs:133-137 | sampled coordinates stay inside the crop |
| Scaler.SrcCoordExact | crates/nx-greet/src/render.rs:133-137 | the sampled coordinate is exactly the floor of the proportional position |
| Scaler.SrcCoordMonotone | crates/nx-greet/src/render.rs:133-137 | sampled coordinates never go backwards |
| Scaler.SampleExact | crates/nx-greet/src/render.rs:20-36 | inside a loaded image the sample is that very pixel; the black fallback is not used |
| Scaler.ScaledSource | crates/nx-greet/src/render.rs:133-138 | every output pixel samples inside the image |
| Scaler.ScaledPixel | crates/nx-greet/src/render.rs:133-147 | every output pixel holds the sampled source pixel in BGR order with alpha 255 |
| Scaler.PaintScaledBackground | crates/nx-greet/src/render.rs:110-149 | for any buffer, an empty output or image clears; otherwise each pixel that fits is written once, opaque |
| ShmPool.AllocateSafe | crates/wlcommon/src/shm.rs:117-158 | growing keeps the pool's invariant: at most 4 buffers, all of the pool's size; a new buffer is free |
| ShmPool.PaintSafe | crates/wlcommon/src/shm.rs:187-192 | painting a free buffer leaves every buffer the compositor holds as it was |
| ShmPool.DrawPaints | crates/wlcommon/src/shm.rs:182-206 | a draw paints the first free buffer, its pixels becoming the painter's of its old ones, or a new blank one while there are fewer than 4; it is then busy and nothing else changes |
| ShmPool.NewBufferPainted | crates/wlcommon/src/shm.rs:117-158 | a new buffer is painted over zeros of the pool's size |
| ShmPool.ReleaseFrees | crates/wlcommon/src/shm.rs:62-64 | a release frees exactly the buffer it names and keeps its pixels |
| ShmPool.SameSizeKeeps | crates/wlcommon/src/shm.rs:162-175 | a resize to the same size changes nothing |
| ShmPool.StepSafe | crates/wlcommon/src/shm.rs:50-207 | over draw, commit, release and resize: the invariant is kept, no held buffer's pixels change, a drawn buffer was not held |
| ShmPool.DrawFailsIffAllBusy | crates/wlcommon/src/shm.rs:182-206 | given successful allocation, draw fails exactly when 4 buffers are busy |
| ShmPool.LateReleaseFreesNothing | crates/wlcommon/src/shm.rs:62-64 | the release of a buffer dropped by resize frees no pooled buffer |
| ShmPool.ResizeDropsAll | crates/wlcommon/src/shm.rs:162-175 | a resize leaves only new, free buffers of the new size, as many as were allocated |
| ShmPool.HeldPixelsStable | crates/wlcommon/src/shm.rs:177-193 | over any run without its release, a held buffer's pixels never change |
| ShmPool.Opened | crates/wlcommon/src/shm.rs:96-110 | a new pool meets the invariant with two buffers, none held |
| ShmPool.EveryDrawFits | crates/wlcommon/src/shm.rs:182-193 | over every run from a new pool, a drawn buffer is not held, has the pool's size at that moment, and meets what the painters demand |
| ShmPool.ShmDoubleBuffer.Create | crates/wlcommon/src/shm.rs:96-110 | succeeds exactly when both allocations do, with the new pool of two free buffers |
| ShmPool.ShmDoubleBuffer.AllocateOne | crates/wlcommon/src/shm.rs:117-158 | refines the pool's growth step; the index is the new last one |
| ShmPool.ShmDoubleBuffer.FindFreeOrGrow | crates/wlcommon/src/shm.rs:195-206 | the first free buffer, or growth when none is free |
| ShmPool.ShmDoubleBuffer.Draw | crates/wlcommon/src/shm.rs:182-193 | refines the pool's draw step, errors included |
| ShmPool.ShmDoubleBuffer.MarkReleased | crates/wlcommon/src/shm.rs:62-64 | refines the compositor's release step, also for a buffer no longer pooled |
| ShmPool.ShmDoubleBuffer.Resize | crates/wlcommon/src/shm.rs:162-175 | refines the pool's resize step, also when an allocation fails halfway |
| Workspaces.Without | crates/frame/src/handlers/xdg_shell.rs:127 | unmapping removes exactly that window |
| Workspaces.WithoutKeepsStacking | crates/frame/src/input/keybind.rs:97-99 | any two other windows stay stacked as they were |
| Workspaces.MapKeepsStacking | crates/frame/src/input/keybind.rs:100-102 | mapping or re-mapping a window leaves all others stacked as they were |
| Workspaces.MapElementFacts | crates/frame/src/handlers/xdg_shell.rs:44 | the mapped window is in the space once, and nothing else is added or lost |
| Workspaces.FindPidFacts | crates/frame/src/input/keybind.rs:86-94 | the search finds a mapped window with that id, or there is none |
| Workspaces.FindSurfaceFacts | crates/frame/src/handlers/xdg_shell.rs:121-124 | the search finds the mapped window with that surface, or there is none |
| Workspaces.Occupied | crates/frame/src/workspace.rs:46-53 | exactly the increasing list of the non-empty workspaces |
| Workspaces.SwitchingGoesRound | crates/frame/src/workspace.rs:84-95 | next and previous move by one modulo the count, and succeed exactly when that is another workspace they may reach |
| Workspaces.NextPrevInverse | crates/frame/src/workspace.rs:84-95 | next and previous undo each other wherever they move |
| Workspaces.PlanCarriesTheSlot | crates/frame/src/workspace.rs:109-119 | a plan exists exactly for another existing workspace and a filled slot; it carries the id over and touches no other slot |
| Workspaces.WorkspaceManager.constructor | crates/frame/src/workspace.rs:63-70 | the count is clamped to 1..9, the first workspace active, every slot empty |
| Workspaces.WorkspaceManager.SwitchTo | crates/frame/src/workspace.rs:75-82 | true exactly when the index is another existing workspace, which is then active |
| Workspaces.WorkspaceManager.SwitchNext | crates/frame/src/workspace.rs:84-89 | refines the value-level step of `SwitchingGoesRound` |
| Workspaces.WorkspaceManager.SwitchPrev | crates/frame/src/workspace.rs:91-95 | refines the value-level step of `SwitchingGoesRound` |
| Workspaces.WorkspaceManager.SetFocus | crates/frame/src/workspace.rs:101-105 | only the active workspace's slot changes |
| Workspaces.WorkspaceManager.PlanMoveFocused | crates/frame/src/workspace.rs:109-119 | refines the value-level step of `PlanCarriesTheSlot` |
| Workspaces.WorkspaceSet.SetActive | crates/frame/src/workspace.rs:38-41 | the write goes to the index, clamped to the last space |
| Workspaces.WorkspaceSet.OccupiedIndices | crates/frame/src/workspace.rs:46-53 | the filter loop computes the list of non-empty workspaces |
| Desktop.Step | crates/frame/src/input/mod.rs:33-47 | one handler call; both workspace counts stay equal and the active index in range |
| Desktop.HandleRequest | crates/frame/src/ipc_server.rs:177-222 | one request on the main loop keeps the shape of the state |
| Compositor.NullxesState.constructor | crates/frame/src/workspace.rs:21-27 | starts in the initial state |
| Compositor.NullxesState.NewToplevel | crates/frame/src/handlers/xdg_shell.rs:26-49 | refines the step: mapped on top of the active workspace, its id in the active slot |
| Compositor.NullxesState.UnmapSurface | crates/frame/src/handlers/xdg_shell.rs:118-131 | the scan unmaps the window from the first workspace that has it and reports its id |
| Compositor.NullxesState.ToplevelDestroyed | crates/frame/src/handlers/xdg_shell.rs:114-140 | refines the destroy step, whose effect on slots and spaces is `DesktopEffects.DestroyClearsTheSlot` |
| Compositor.NullxesState.OnMoveRequest | crates/frame/src/handlers/xdg_shell.rs:72-86 | refines the step: a drag starts only for a window of the active workspace |
| Compositor.NullxesState.MoveWindowBetweenWorkspaces | crates/frame/src/input/keybind.rs:78-103 | refines the executed half of a move |
| Compositor.NullxesState.MoveFocusedTo | crates/frame/src/input/keybind.rs:35-38 | planned and executed half together, one step |
| Compositor.NullxesState.CloseFocusedWindow | crates/frame/src/input/keybind.rs:105-118 | asks the focused window of the active workspace to close, if it is mapped there |
| Compositor.NullxesState.HandleKeybind | crates/frame/src/input/keybind.rs:20-76 | intercepts exactly the compositor shortcuts and refines their effect |
| Compositor.NullxesState.HandleKeyboard | crates/frame/src/input/mod.rs:49-73 | refines the key step, with the locked and shutdown gates |
| Compositor.NullxesState.HandlePointerMotion | crates/frame/src/input/move_grab.rs:24-40 | refines the drag motion step |
| Compositor.NullxesState.HandlePointerButton | crates/frame/src/input/mod.rs:105-130 | refines the button steps: raise and focus what was hit, or clear the focus |
| Compositor.NullxesState.LockSession | crates/frame/src/handlers/session_lock.rs:27-46 | refines the lock step |
| Compositor.NullxesState.UnlockSession | crates/frame/src/handlers/session_lock.rs:48-64 | refines the unlock step |
| Compositor.NullxesState.NewLockSurface | crates/frame/src/handlers/session_lock.rs:66-78 | refines the lock-surface step |
| Compositor.NullxesState.HandleRequestOnMain | crates/frame/src/ipc_server.rs:177-222 | refines `HandleRequest`, state and reply |
| DesktopProofs.MoveKeepsOthers | crates/frame/src/input/keybind.rs:78-103 | the found window goes to the top of the target with its location; no other window changes workspace; with no such window nothing happens |
| DesktopProofs.MoveKeepsStacking | crates/frame/src/input/keybind.rs:95-102 | in every workspace, any two windows other than the moved one stay stacked as they were |
| DesktopProofs.MoveConserves | crates/frame/src/input/keybind.rs:78-103 | a move keeps every live window mapped in exactly one workspace |
| DesktopProofs.DestroyConserves | crates/frame/src/handlers/xdg_shell.rs:114-131 | destroying keeps conservation for the remaining windows |
| DesktopProofs.DestroyTakesOneWindow | crates/frame/src/handlers/xdg_shell.rs:114-140 | no other window is unmapped or restacked, and no slot but the active one changes; when that is emptied is `DesktopEffects.DestroyClearsTheSlot` |
| DesktopProofs.MotionConservesIff | crates/frame/src/input/move_grab.rs:34-39 | a drag motion keeps conservation if and only if the dragged window is mapped in the active workspace |
| DesktopProofs.ConservationStep | crates/frame/src/input/mod.rs:33-47 | any step keeps conservation if and only if it is not a drag out of place |
| DesktopProofs.WindowsConserved | crates/frame/src/workspace.rs:18-53 | over every run, all states conserve windows if and only if every drag motion is in place |
| DesktopProofs.NoDragConserves | crates/frame/src/handlers/xdg_shell.rs:26-49 | every run without drag motions conserves windows |
| DesktopProofs.SwitchingWhileDraggingDuplicates | crates/frame/src/input/move_grab.rs:37-39 | a run in which switching workspace during a drag maps one window twice |
| DesktopProofs.MovingTheDraggedWindowDuplicates | crates/frame/src/input/move_grab.rs:37-39 | the same with the active workspace unchanged, by moving the dragged window with a shortcut |
| DesktopProofs.NewSlotsIff | crates/frame/src/handlers/xdg_shell.rs:44-47 | a new window keeps the agreement if and only if its id is in no other slot and on no live window of another workspace |
| DesktopProofs.MoveSlotsIff | crates/frame/src/workspace.rs:109-119 | planned slot move and executed window move together keep the agreement if and only if no live window with the slot's id is left behind |
| DesktopProofs.DestroyKeepsSlots | crates/frame/src/handlers/xdg_shell.rs:114-140 | destroying always keeps it |
| DesktopProofs.SlotsStepIff | crates/frame/src/input/mod.rs:33-47 | any step, drags included, keeps it if and only if its guard holds |
| DesktopProofs.FocusSlotsAgreeIff | crates/frame/src/workspace.rs:101-119 | over every run, all states agree if and only if every step's guard holds |
| DesktopProofs.FocusSlotsAgree | crates/frame/src/workspace.rs:101-119 | in every state reachable with ids unique and never reused: no id in two slots, and a slot naming a live window names one mapped in that workspace |
| DesktopProofs.SharedIdBreaksSlots | crates/frame/src/input/keybind.rs:88-92 | two clients with the same protocol id put one id into two slots |
| DesktopProofs.ReusedIdBreaksSlots | crates/frame/src/handlers/xdg_shell.rs:133-137 | an id reused after its window died on another workspace does too, with ids unique at every moment |
| DesktopProofs.ShortcutsSwitch | crates/frame/src/input/keybind.rs:20-53 | what Super with an arrow or a digit does to the active index, and that a key without Super only reaches the focused client |
| DesktopProofs.RepliesTellTheEffect | crates/frame/src/ipc_server.rs:177-222 | Ok to a switch or move exactly when the active index or the slots changed, a snapshot exactly of the state, and nothing changed on an error |
| DesktopProofs.OkMovesAWindowIff | crates/frame/src/ipc_server.rs:186-193 | an accepted move moves a window exactly when one with the slot's id is mapped in the active workspace; always when slots agree and the slot names a live window |
| DesktopProofs.LockedMeansUnfocused | crates/frame/src/handlers/session_lock.rs:27-46 | in every reachable locked state no ordinary window has keyboard focus |
| DesktopProofs.LockedTakesNoInput | crates/frame/src/input/mod.rs:33-73 | while locked no shortcut and no pointer action has any effect, and a second lock request changes nothing |
| DesktopProofs.HolderStays | crates/frame/src/handlers/session_lock.rs:28-34 | until unlock the lock keeps its holder and its surfaces |
| DesktopProofs.UnlockFocus | crates/frame/src/handlers/session_lock.rs:48-64 | right after unlock the focus is None or the topmost window of the workspace active then |
| DesktopEffects.StartsEmpty | crates/frame/src/workspace.rs:21-27 | one to nine empty workspaces, the first active, no slot filled, unlocked |
| DesktopEffects.NewToplevelIsOnTop | crates/frame/src/handlers/xdg_shell.rs:26-49 | a new window is the top element of the active workspace and named by the active slot; other workspaces and slots stay |
| DesktopEffects.DestroyClearsTheSlot | crates/frame/src/handlers/xdg_shell.rs:114-140 | the lowest element on the surface, in the first workspace that has one, goes; the active slot is emptied exactly if it named that window, and no other slot changes |
| DesktopEffects.DestroyOfUnmapped | crates/frame/src/handlers/xdg_shell.rs:117-139 | destroying a surface that is mapped nowhere changes no slot and no workspace |
| DesktopEffects.DestroyedIsNotNamed | crates/frame/src/handlers/xdg_shell.rs:133-137 | over every run with ids and surfaces never reused, right after a window is destroyed the active slot does not name it |
| DesktopEffects.DestroyForgets | crates/frame/src/handlers/xdg_shell.rs:117-137 | the same for any state whose slots agree |
| DesktopEffects.MoveTakesTheWindow | crates/frame/src/input/keybind.rs:78-103 | an accepted move puts the lowest window with the slot's id on top of the target at its own location and moves the slot with it; nothing else changes |
| DesktopEffects.ShiftDigitMoves | crates/frame/src/input/keybind.rs:35-38 | Super+Shift with a digit has the effect of the move request |
| DesktopEffects.DragStartsWhereItIs | crates/frame/src/handlers/xdg_shell.rs:72-86 | a drag holds the lowest window on the surface in the active workspace and its location; with none nothing happens |
| DesktopEffects.DragFollowsThePointer | crates/frame/src/input/move_grab.rs:34-66 | a motion puts the dragged window on top of the active workspace at its first location plus the pointer's whole way; a release ends the drag and changes nothing else |
| DesktopEffects.ClickRaisesAndFocuses | crates/frame/src/input/mod.rs:112-126 | a click raises the window hit, at its location, and gives it the keyboard; a click on nothing takes the keyboard away |
| DesktopEffects.ProgramsStarted | crates/frame/src/ipc_server.rs:194-220 | which program each shortcut and request starts, that a reload stores what it loaded and Quit stops the loop |
| DesktopEffects.CloseAsksTheFocused | crates/frame/src/input/keybind.rs:105-118 | Super+Q asks the lowest window of the active workspace with the slot's id to close, and does nothing if there is none |
| DesktopEffects.OtherKeysAreForwarded | crates/frame/src/input/mod.rs:56-72 | unbound keys, keys without Super and all keys while locked or shutting down go to the keyboard focus |
| DesktopEffects.LockRecordsItsHolder | crates/frame/src/handlers/session_lock.rs:36-78 | the first lock sets the holder and takes the keyboard; lock surfaces are recorded in order, only under a lock |
| IpcServer.InvStep | crates/frame/src/ipc_server.rs:116-175 | every step of clients, tasks and main loop keeps the protocol invariant |
| IpcServer.Linearizable | crates/frame/src/ipc_server.rs:83-90 | over every interleaving, state and replies equal a sequential fold in channel order, each command run at most once, no request run that was not sent, and while the loop runs every command is executed or queued in order |
| IpcServer.RealTimeOrder | crates/frame/src/ipc_server.rs:165-175 | a request runs between its arrival and its answer; one arriving after another's answer runs later |
| IpcServer.OneAnswerPerLine | crates/frame/src/ipc_server.rs:121-162 | one answer per line, in order, echoing its id (0 if undecodable); what each kind of line earns is `EachLineEarns` and `RequestsAreServed` |
| IpcServer.CommandsAreRequests | crates/frame/src/ipc_server.rs:132-142 | over every run, every command comes from a line that is a request of protocol version 1, and asks what that line asked |
| IpcServer.EachLineEarns | crates/frame/src/ipc_server.rs:132-149 | over every run, a line of another version is answered VersionMismatch with its id, a version-1 response ResponseOnRequestSocket, garbage Undecodable with id 0, and none of them becomes a command |
| IpcServer.RequestsAreServed | crates/frame/src/ipc_server.rs:139-175 | over every run, a version-1 request becomes that command while the loop runs, and is answered by that command's own execution, or told the loop has stopped |
| IpcServer.KindsOfLines | crates/frame/src/ipc_server.rs:138-141 | a line became a command only if it is a request of version 1 for just that |
| IpcServer.TakenAlways | crates/frame/src/ipc_server.rs:165-170 | while the main loop runs, every version-1 request line read has become a command |
| IpcServer.ClientSendsTheRequest | crates/ipc/src/client.rs:65-72 | the client writes the request it was given in version 1 under the next id |
| IpcServer.CorrelationIff | crates/ipc/src/client.rs:65-83 | wherever earlier requests were dropped, the next whole line is a response, and has the id just sent if and only if the requests issued since the answered one are a multiple of 2^64 (for a joined line, if that id wrapped to 0) |
| IpcServer.InStepIffNoneDropped | crates/ipc/src/client.rs:69-78 | it answers the request just sent if and only if no earlier one was dropped after its line was complete; a headless line never does |
| IpcServer.AnswerIsForTheRequest | crates/ipc/src/client.rs:65-83 | then the answer carries the id just sent and the result of that request's own execution, or the error a spoilt line earned |
| IpcServer.AbandoningShiftsAnswers | crates/ipc/src/client.rs:73-83 | a run in which one request dropped between its lines gives its answer to the next |
| IpcServer.WireIdsAgree | crates/ipc/src/client.rs:66 | two request numbers have one wire id exactly when they differ by a multiple of 2^64 |
| IpcClient.TotalPauseIs | crates/ipc/src/client.rs:57-58 | the total of k doubling, capped pauses, for every k |
| IpcClient.Connect | crates/ipc/src/client.rs:44-63 | the first attempt taken, if one of 32 is, after exactly the pauses of the failures before it; 136.3 s when all fail |
| Notifications.NothingLost | crates/nx-notif/src/surface.rs:90-128 | over every run each show message is in exactly one place: queued, visible, replaced or closed with one signal |
| Notifications.ConservedStep | crates/nx-notif/src/surface.rs:152-164 | every step keeps that account, message by message |
| Notifications.ArrivalOrderKept | crates/nx-notif/src/surface.rs:90-128 | over every run at most 5 are visible, slots then queue are in arrival order, and each signal names its own message |
| Notifications.OrderedStep | crates/nx-notif/src/surface.rs:184-190 | every step keeps that order |
| Notifications.ReplacementOrderIff | crates/nx-notif/src/surface.rs:92-98 | a replacement keeps the shown messages in arrival order if and only if its slot was the very last waiting or shown |
| Notifications.ContentsOrderStep | crates/nx-notif/src/surface.rs:90-190 | no other event disturbs that order: any step keeps it if and only if it is not a replacement elsewhere |
| Notifications.MessagesInOrderIff | crates/nx-notif/src/surface.rs:90-128 | over every run the messages are in arrival order in all states if and only if every replacement hits the last slot |
| Notifications.QueueMovesOnlyOnNewSlots | crates/nx-notif/src/surface.rs:99-105 | after a message that opens or queues a slot nothing waits while there is room; no other event moves the queue |
| Notifications.TickKeepsIff | crates/nx-notif/src/surface.rs:155-160 | a tick keeps exactly the toasts whose time has not come |
| Notifications.ShownForItsLifetime | crates/nx-notif/src/surface.rs:119 | a message shown at once is kept by exactly the ticks before its timeout has passed, one millisecond if that is 0 |
| Notifications.CloseMessageCloses | crates/nx-notif/src/surface.rs:262-269 | a close message takes the first toast with its id, all others in order, one signal with id and serial, the queue unchanged; with no such toast nothing changes |
| Notifications.LayerCloses | crates/nx-notif/src/surface.rs:184-190 | a closed layer surface takes its own toast in the same way |
| Notifications.MessageReplaces | crates/nx-notif/src/surface.rs:90-98 | a message for a visible id takes over the first toast with it, in place, and lives from now; nothing is queued or signalled |
| Notifications.MessageQueues | crates/nx-notif/src/surface.rs:99-128 | any other message joins the queue, and the front of the queue opens toasts up to five, each with its own lifetime |
| Notifications.PumpOpens | crates/nx-notif/src/surface.rs:103-128 | pumping opens exactly as many queued messages as there is room for, in order |
| Notifications.WaylandThreadState.PumpVisible | crates/nx-notif/src/surface.rs:103-128 | the loop refines pumping on values |
| Notifications.WaylandThreadState.EnqueueNotif | crates/nx-notif/src/surface.rs:90-101 | refines replace-or-queue |
| Notifications.WaylandThreadState.TickTimeouts | crates/nx-notif/src/surface.rs:152-164 | the retain loop refines the tick, signals included |
| Notifications.WaylandThreadState.OnLayerClosed | crates/nx-notif/src/surface.rs:184-190 | refines the closed event |
| Notifications.WaylandThreadState.Drain | crates/nx-notif/src/surface.rs:259-271 | the drain loop refines the fold of all received messages; what each of them does, close messages included, is `CloseMessageCloses`, `MessageReplaces` and `MessageQueues` |
| History.CacheAgreesWithFile | crates/nx-notif/src/history.rs:35-97 | from a file of whole, well-formed lines reopening always rebuilds exactly the cache, the last 256 records ever written |
| History.AppendAgreesIff | crates/nx-notif/src/history.rs:49-58 | on a file of whole lines, from any reachable state, reopening after one append rebuilds the cache if and only if the lines that stay hold min(cached, 255) records |
| History.ReopenAgreesIff | crates/nx-notif/src/history.rs:35-97 | from any file, torn or whole, after any appends the cache is the last 256 records of the whole history, and reopening rebuilds it if and only if the file holds that many and no loss to a torn line shows in the window |
| History.LossShows | crates/nx-notif/src/history.rs:44-46 | a loss shows whenever the lost record differs from the one before it |
| History.GapWindow | crates/nx-notif/src/history.rs:54-57 | a window over records with some cut out equals the full window exactly when they are past it or repeat |
| History.MalformedLinesBreakAgreement | crates/nx-notif/src/history.rs:70-72 | one record before 256 long undecodable lines is lost to the first rotation but not to the cache |
| History.TornLineLosesARecord | crates/nx-notif/src/history.rs:44-46 | one record appended to a torn file is lost although the file holds 256 records |
| History.FileSize | crates/nx-notif/src/history.rs:49-52 | the file is at most 1 MiB or holds at most 256 lines; at most 1 MiB if lines have at most 4096 bytes |
| History.AppendWrites | crates/nx-notif/src/history.rs:35-75 | up to 1 MiB an append keeps every line and adds the record's own; beyond it just the last 256 readable lines stay; the cache gains the record and keeps 256 |
| History.ReadableIs | crates/nx-notif/src/history.rs:70 | the lines read back are, in order, those that are text |
| History.BytesIs | crates/nx-notif/src/history.rs:44-49 | the size compared with the cap counts every byte and each newline |
| History.HistoryLog.constructor | crates/nx-notif/src/history.rs:78-98 | the reading loop keeps the last 256 decodable records |
| History.HistoryLog.Rotate | crates/nx-notif/src/history.rs:61-75 | the file becomes its own last 256 readable lines, in order |
| History.HistoryLog.ReadLines | crates/nx-notif/src/history.rs:69-70 | lines that are no UTF-8 are skipped |
| History.HistoryLog.WriteLine | crates/nx-notif/src/history.rs:44-47 | the write lands at the end of the file, on the torn line if there is one |
| History.HistoryLog.TakeLastReversed | crates/nx-notif/src/history.rs:70 | the last 256 lines, newest first |
| History.HistoryLog.AppendRecord | crates/nx-notif/src/history.rs:35-59 | refines the append step on file and cache, torn files included |
| LockClient.StepKeeps | crates/nx-lock/src/state.rs:101-134 | every step of keys, outputs and worker keeps the protocol invariant |
| LockClient.LockProtocol | crates/nx-lock/src/state.rs:101-134 | over every interleaving: pending exactly when one request is in flight (worker alive), pending means an empty password, failures counted, unlock at most once and only after Ok, exit code 0 exactly after an unlock, no submission lost |
| LockClient.UnlockInOrderIff | crates/nx-lock/src/state.rs:101-112 | over every run no unlock precedes Locked if and only if Locked came before each poll that drains an Ok |
| LockClient.UnlockBeforeLocked | crates/nx-lock/src/state.rs:125-134 | a run in which a password is accepted, and the unlock sent, before Locked |
| LockClient.OneSurfacePerOutput | crates/nx-lock/src/state.rs:203-231 | never two lock surfaces for one output, and once locked every known output has one |
| LockClient.DeadWorkerNeverUnlocks | crates/nx-lock/src/state.rs:129 | with the worker gone and no result left, nothing unlocks any more |
| LockClient.FieldIsTyped | crates/nx-lock/src/state.rs:173-187 | over every run the field holds the texts typed while free since it was last emptied, less a character a Backspace |
| LockClient.TypedIsSubmitted | crates/nx-lock/src/state.rs:125-134 | over every run Enter submits exactly that text, to the worker's channel while it lives; with an empty field or a request out it changes nothing |
| LockClient.WorkerIsFifo | crates/nx-lock/src/pam_auth.rs:38-43 | the worker checks the oldest request and puts its verdict last |
| LockClient.VerdictsAreDrainedOnce | crates/nx-lock/src/state.rs:101-123 | over every run unlocks are the Ok verdicts given and drained, failures the Fail verdicts, each once |
| LockClient.RefusalEnds | crates/nx-lock/src/state.rs:212-216 | a refused lock ends the loop at the next poll, with code 1 unless that poll drains an Ok |
| LockClient.ModeStoresTheSize | crates/nx-lock/src/state.rs:259-274 | the size goes to the first output of that id or to a new last one; no other output's size changes |
| LockClient.TurnIsTwoSteps | crates/nx-lock/src/pam_auth.rs:38-43 | a turn of the worker loop is a take followed by an answer |
| LockClient.AuthWorker.Send | crates/nx-lock/src/state.rs:129-133 | queues the request, or drops it when the thread is gone |
| LockClient.AuthWorker.Turn | crates/nx-lock/src/pam_auth.rs:38-43 | one request taken in order, one result sent |
| LockClient.LockState.SubmitPassword | crates/nx-lock/src/state.rs:125-134 | refines the submit step |
| LockClient.LockState.HandleText | crates/nx-lock/src/state.rs:182-187 | refines the text step, appending unless pending; over runs, `FieldIsTyped` |
| LockClient.LockState.CreateLockSurfaceFor | crates/nx-lock/src/state.rs:223-230 | at most one surface an output |
| LockClient.LockState.OnLocked | crates/nx-lock/src/state.rs:203-211 | the loop gives every known output a surface |
| LockClient.LockState.OnOutputModeEvent | crates/nx-lock/src/state.rs:259-282 | find or insert, the size stored with the source's casts, and a surface at once when locked |
| LockClient.LockState.PollAuth | crates/nx-lock/src/state.rs:101-123 | the drain loop refines taking all results in order |
| Greeter.RequestsLegalIff | crates/nx-greet/src/state.rs:131-225 | over every run a request meets a session that allows it exactly when no lost reply has put the sides out of step; StartSession only from Ready and last |
| Greeter.WorkingTransportIsLegal | crates/nx-greet/src/state.rs:131-225 | with working transport every request is legal, for every sequence of keys and replies |
| Greeter.StepKeeps | crates/nx-greet/src/state.rs:192-235 | every key keeps the agreement of form and session |
| Greeter.InStepIff | crates/nx-greet/src/state.rs:158-188 | sending from step, the sides stay in step if and only if the reply was read, never sent, or was one more question |
| Greeter.RefusalRepairs | crates/nx-greet/src/state.rs:173-182 | an out-of-step request that is answered is refused, and the cancellation brings both sides back to no session |
| Greeter.LostReplyBreaksLegality | crates/nx-greet/src/state.rs:184-187 | a run in which a lost question makes the next Enter ask for a second session |
| Greeter.FormFollowsTheAnswer | crates/nx-greet/src/state.rs:158-182 | what each reply leaves on the form: question or reason shown, password field focused and free, or closing for good |
| Greeter.NameCheckStopsNoSession | crates/nx-greet/src/state.rs:133-137 | with no answer due, Enter opens a session exactly from the password field, whatever the name |
| Greeter.NoCharacterSentTwice | crates/nx-greet/src/state.rs:154-155 | over every run delivered password characters are in typing order and none is sent twice; that they are sent is `TypedIsSent` |
| Greeter.ClearedPasswordIsGone | crates/nx-greet/src/state.rs:214-217 | once the field is empty nothing typed before is ever sent |
| Greeter.EnterSendsTheField | crates/nx-greet/src/state.rs:149-156 | an Enter that gets through sends the whole password field, or None when empty, to a waiting question, and otherwise opens a session for the name |
| Greeter.TypedIsSent | crates/nx-greet/src/state.rs:151-156 | over every run a question answered gets exactly the characters typed since the field was last emptied less the Backspaces, and a session is opened for exactly the name typed |
| Greeter.FieldsAreTyped | crates/nx-greet/src/state.rs:192-235 | over every run both fields hold exactly what the keys say |
| Greeter.NothingSent | crates/nx-greet/src/state.rs:132-147 | an Enter that does not get through sends nothing; an unwritten request costs the password an answer held |
| Greeter.EscapeForgets | crates/nx-greet/src/state.rs:214-222 | Escape empties both fields, forgets the question and cancels on a connection |
| Greeter.EnterKeepsName | crates/nx-greet/src/state.rs:131-190 | no Enter changes the name |
| Greeter.Greetd.Call | crates/nx-greet/src/ipc.rs:26-36 | write a request, read the daemon's reply, with both ways of losing it |
| Greeter.GreetState.SendForm | crates/nx-greet/src/state.rs:149-156 | refines sending the request the form owes, which is the one `EnterSendsTheField` states |
| Greeter.GreetState.HandleOutcome | crates/nx-greet/src/state.rs:158-182 | refines the reaction to each kind of reply |
| Greeter.GreetState.SubmitForm | crates/nx-greet/src/state.rs:131-190 | refines the whole submit, error paths included |
| Greeter.GreetState.HandleEnter | crates/nx-greet/src/state.rs:206-213 | refines the Enter key |
| Greeter.GreetState.HandleEscape | crates/nx-greet/src/state.rs:214-222 | refines the Escape key |
| Greeter.GreetState.HandleText | crates/nx-greet/src/state.rs:228-235 | refines typed text |
| Xwayland.RespawnBudget | crates/frame/src/xwm.rs:98-121 | over every run respawns are at most 3 and sleep at most 8 s per successful Ready plus one |
| Xwayland.BudgetIsTight | crates/frame/src/xwm.rs:98-121 | for every number of Readys a run that meets both bounds exactly |
| Xwayland.DisabledForGood | crates/frame/src/xwm.rs:60-64 | once disabled no XWayland is created again |
| Xwayland.FailuresAreCounted | crates/frame/src/xwm.rs:26-121 | an exit and a failed start alike cost one respawn after one, two, then five seconds, the fourth in a row disables; a start that succeeds forgives them |
| Xwayland.XwmState.StartXwayland | crates/frame/src/xwm.rs:60-73 | refines the start step |
| Xwayland.XwmState.HandleEvent | crates/frame/src/xwm.rs:75-96 | refines the event step |
| Xwayland.XwmState.Respawn | crates/frame/src/xwm.rs:98-121 | refines the bounded respawn |

## Left out

- IpcServer.InvStep: the async loops of the server and `Client::request` are steps of a state machine, not methods with loops, because many of them run at once; encoding and decoding of a line is taken as exact, and error texts are constructors.
- Text.TextRenderer.DrawText: coordinates are unbounded integers, so i32 overflow of a cursor far outside the screen is not modelled; advances are already truncated to integers.
- Raster.FillRect: colours are u8 channels, so the float conversion of `Color` is not modelled; buffers of 2^31 or more pixels a side are excluded.
- ShmPool.ShmDoubleBuffer.AllocateOne: whether the allocation succeeds is a parameter; overflow of the byte size is not modelled.
- Scaler.CropCovers: the aspect ratio is an exact rational; f32 rounding is not modelled.
- History.HistoryLog.AppendRecord: a write that fails while the daemon goes on is not modelled, only its trace in a file opened later; decoding is an uninterpreted codec that reads back what it encoded; a carriage return before a newline counts as part of the line.
- Notifications.WaylandThreadState.EnqueueNotif: serial numbers and birth positions are history the program does not keep; drawing, anchors and margins of toasts are not modelled.
- Greeter.Greetd.Call: greetd is an oracle that may give any reply its session allows and answers a request it does not allow with an error; the connection itself does not drop the session.
- LockClient.LockState.OnOutputModeEvent: configure events of lock surfaces and repainting are not modelled; PAM's verdict is an oracle.
- PanelDots.PanelBitmap.RenderDots: the rest of the panel's render (background, divider, launcher mark, indicators) is a sequence of fill_rect and draw_text calls and is not modelled.
- Compositor.NullxesState.OnMoveRequest: the serial and client checks of the pointer grab are the environment's; which window is under the pointer is a parameter.
- Sockets, D-Bus, udev, DRM, winit, signals and file permissions: only the event they deliver is a step.
- GL rendering, damage tracking, popups, layer surfaces, pointer focus and clamping.
- The panel's own copy of `clear` and `fill_rect`, and `hline` / `vline`, which are one `fill_rect` call each.
- Launcher search, settings, `IdleTracker`, theme export, packaging: they would only add easy members.
