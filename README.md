# Timeline editor rules of a rotation planner, in Dafny

This project models the deterministic logic of two UI components of a
rotation-planning simulator. The simulator itself (game state, timing
maths, potencies) is not part of this model.

**The configuration panel** (`src/Components/PlaybackControl.tsx`):
- The initial-resource-override editor:
  - the per-field range validator that builds a `ResourceOverrideData` record and appends it to the list;
  - first-match deletion of overrides and imported fields;
  - the "first addable resource" chooser;
  - the cooldown-last ordering of the resource drop-down.
- The cross-resource consistency check (astral fire, umbral ice, umbral heart, polyglot).
- The submit path: the check gates the commit, an empty seed becomes four random digits, and the configuration commit refuses non-numeric fields and unknown jobs.
- `setJob` and the GCD previews.

**The timeline canvas** (`src/Components/TimelineCanvas.tsx`):
- The hover/click register: the last rectangle under the mouse wins. The frame effect resets the register, redraws, fires the stored click handler and requests a repaint.
- Tooltip sizing and placement.
- Marker-track binning, track counting and row placement.
- Per-slot element binning, with the image-export rules.
- The hover regions of every slot layer: MP, lucid, meditate, auto and warning ticks, potency marks and skills, each layer behind its draw option.
- The handles and delete buttons of the timeline slots.
- The skill-bar, invalid-shading and buff-cover geometry.
- The hover lines of potency marks.
- The ruler's click rule and tick selection.
- `swapCtx`.

**How the modules map to the source:**
- `Resources`, `OverrideCheck`, `OverrideEditor`, `ConfigCommit` and `ConfigPanel` model `PlaybackControl.tsx`.
  - `ConfigPanel.Config` is the panel's state as a class. Its methods update the override list and the form fields in place.
- `HitTest`, `Tooltip`, `Bins`, `MarkerTracks`, `Timelines`, `Skills`, `PotencyMarks`, `Ruler`, `Context` and `Frame` model `TimelineCanvas.tsx`.
  - The module-level globals of the canvas (`g_activeHoverTip`, `g_activeOnClick`, `readback_pointerMouse`, `g_isClickUpdate`, …) are the fields of `HitTest.Interaction`.
  - `g_ctx` is the field of `Context.Painter`.
- `Sequences` and `Wrappers` hold the list functions and the `Option`/`Result` types the others share.

Each modelled drawing routine returns the regions it passes to `testInteraction`, as a sequence of `Region` values in drawing order. In a timeline slot that means every mark layer, then the skill row; after all slots come the slot handles. `HitTest.Interaction.RegisterAll` replays such a sequence against the register.

**Coordinates, inputs and dependencies:**
- Coordinates are exact reals.
- Text widths, images, tooltip text, number parsing (`parseFloat`/`parseInt`) and the simulator queries are parameters.

## Model

| member | source | states |
|---|---|---|
| OverrideCheck.LastOf | src/Components/PlaybackControl.tsx:917-920 | the reference reading of the list: no entry of a type iff none is listed; otherwise an entry of that type taken from the list |
| OverrideCheck.IndexByTypeIsLatest | src/Components/PlaybackControl.tsx:917-920 | the map filled by `forEach` holds a type iff the list does, and maps it to the latest entry of that type |
| OverrideCheck.LaterEntryWins | src/Components/PlaybackControl.tsx:917-920 | appending an override makes it the one read for its type and leaves every other type's reading unchanged |
| OverrideCheck.LastOfIsLastIndex | src/Components/PlaybackControl.tsx:917-920 | the entry read for a type is the one at the last index holding that type |
| OverrideCheck.OverridesAreValid | src/Components/PlaybackControl.tsx:915-966 | the imperative check (map fill, then the three rules) returns exactly the reference verdict on the latest entries |
| OverrideCheck.AstralUmbralExclusive | src/Components/PlaybackControl.tsx:922-937 | the list is rejected with the AF/UI error iff both astral fire and umbral ice stacks are positive, an absent override counting as 0 |
| OverrideCheck.HeartNeedsStance | src/Components/PlaybackControl.tsx:939-947 | umbral heart stacks with neither astral fire nor umbral ice are rejected with the heart error |
| OverrideCheck.CheckPassesIff | src/Components/PlaybackControl.tsx:915-966 | both directions: the list passes iff none of the three rules (AF with UI, UH without stance, polyglot timer without AF/UI/UH) is broken |
| OverrideCheck.UngatedListsPass | src/Components/PlaybackControl.tsx:915-966 | a list without any of the four gated resources always passes |
| OverrideEditor.EffectiveTimer | src/Components/PlaybackControl.tsx:972-979 | an empty polyglot timer field counts as 0; every other timer is what the field parses to |
| OverrideEditor.NewOverride | src/Components/PlaybackControl.tsx:968-1034 | non-numbers are refused first. A cooldown's timer lies in [0, maxStacks·cdPerStack], it keeps its stack count only with charges, and it is enabled. Otherwise the amount lies in [0, maxValue] where it applies (never for paradox), the timer lies in [0, maxTimeout] or is −1 when there is no timeout, and only ley lines keep the user's enabled flag |
| OverrideEditor.InRangeInputsAccepted | src/Components/PlaybackControl.tsx:981-1030 | the converse of the range checks: numeric inputs inside every applicable range for a known resource are accepted |
| OverrideEditor.TakenTypes | src/Components/PlaybackControl.tsx:877-880 | the set built by the loop is exactly the set of overridden types |
| OverrideEditor.FirstAddable | src/Components/PlaybackControl.tsx:875-888 | the first key of the job's table with no override, or the "aba aba" placeholder when every key is taken |
| OverrideEditor.Addable | src/Components/PlaybackControl.tsx:1044-1051 | the loop collects the drop-down entries of the reference list, in table order |
| OverrideEditor.AddableEntriesSpec | src/Components/PlaybackControl.tsx:1044-1051 | only keys without an override are offered, every such key is offered with its cooldown flag, and the flag is 0 or 1 |
| OverrideEditor.SortByCooldownIsPartition | src/Components/PlaybackControl.tsx:1053-1057 | the stable sort by cooldown flag equals the resources in table order followed by the cooldowns in table order |
| OverrideEditor.PartitionOrdered | src/Components/PlaybackControl.tsx:1053-1057 | that partition is ordered by cooldown flag |
| OverrideEditor.PartitionMultiset | src/Components/PlaybackControl.tsx:1053-1057 | that partition is a permutation of the unsorted entries |
| OverrideEditor.InsertStableSplit | src/Components/PlaybackControl.tsx:1053-1057 | one insertion step of the stable sort puts a resource at the end of the resources and a cooldown at the end of the list |
| OverrideEditor.ResourceOptions | src/Components/PlaybackControl.tsx:1037-1061 | the drop-down lists the addable entries with resources before cooldowns, each group in table order, as a permutation of the addable entries |
| ConfigCommit.TrimStart | src/Components/PlaybackControl.tsx:1309 | the result is a suffix of the input that does not start with white space, and everything dropped is white space |
| ConfigCommit.TrimEnd | src/Components/PlaybackControl.tsx:1309 | the result is a prefix of the input that does not end with white space, and everything dropped is white space |
| ConfigCommit.TrimSpec | src/Components/PlaybackControl.tsx:1309 | the trimmed seed is a slice of the input that has no white space at either end, and trimming twice changes nothing |
| ConfigCommit.TrimKeepsSlice | src/Components/PlaybackControl.tsx:1309 | the trimmed seed is exactly the input between the dropped prefix and the dropped suffix |
| ConfigCommit.TrimDropsSpace | src/Components/PlaybackControl.tsx:1309 | everything dropped by the trim is white space |
| ConfigCommit.TrimIdempotent | src/Components/PlaybackControl.tsx:1309 | a seed without white space at either end is kept as it is |
| ConfigCommit.CommitConfig | src/Components/PlaybackControl.tsx:1271-1313 | success iff every checked field is a number and the job is known; a NaN field gives the not-numbers error, which takes precedence over the job check. On success: every checked field as parsed, piety as parsed (possibly NaN), missing overrides as [] and the trimmed seed |
| ConfigCommit.PietyNotChecked | src/Components/PlaybackControl.tsx:1272-1284 | a form whose only non-number is piety is committed, with a NaN piety |
| ConfigCommit.GcdTaxPreview | src/Components/PlaybackControl.tsx:847-873 | a preview iff level, speed and fps parse and speed is at least 400; it is then the 2.5 s GCD before and after the FPS tax |
| ConfigCommit.GenerateSeed | src/Components/PlaybackControl.tsx:569-574 | the generated seed is exactly four decimal digits |
| ConfigPanel.Config.constructor | src/Components/PlaybackControl.tsx:505-541 | the panel's initial form: BLM, level 100, empty seed, RNG procs, no overrides, nothing imported, MANA pre-selected |
| ConfigPanel.Config.AddResourceOverride | src/Components/PlaybackControl.tsx:968-1035 | on valid inputs exactly the new record is appended at the end and the form becomes dirty; on invalid inputs the list and the dirty flag are unchanged and the error is returned |
| ConfigPanel.Config.SubmitOverrideForm | src/Components/PlaybackControl.tsx:1154-1162 | the add happens as above (on valid inputs the record is appended and the form is dirty; otherwise the list and the dirty flag are unchanged and the error is reported), then the first resource still without an override is pre-selected |
| ConfigPanel.Config.SelectOverrideResource | src/Components/PlaybackControl.tsx:1172-1181 | the chosen resource is selected; the enabled box keeps its value only for ley lines and is checked otherwise |
| ConfigPanel.Config.DeleteResourceOverride | src/Components/PlaybackControl.tsx:805-814 | the list loses only the first override of the type, in place; the form is dirty |
| ConfigPanel.DeleteRemovesOnlyFirst | src/Components/PlaybackControl.tsx:805-814 | with no override of the type the list is unchanged; otherwise exactly the first one is removed, the rest keep their order, and one fewer of that type remains |
| ConfigPanel.Config.RemoveImportedField | src/Components/PlaybackControl.tsx:815-822 | only the first occurrence of the field leaves the imported-field list |
| ConfigPanel.Config.ClearOverrides | src/Components/PlaybackControl.tsx:1255-1258 | the list is emptied and the form is dirty |
| ConfigPanel.Config.SetJob | src/Components/PlaybackControl.tsx:584-593 | a different job drops every override; the job is no longer an imported field; both previews are recomputed, the skill-speed one with the previous job's speed modifier |
| ConfigPanel.Config.SetConfigAndRestart | src/Components/PlaybackControl.tsx:1271-1313 | the simulator is restarted with the committed configuration exactly when the commit succeeds |
| ConfigPanel.Config.HandleSubmit | src/Components/PlaybackControl.tsx:567-582 | a failing check changes nothing, and only the seed, the dirty and imported marks, the imported fields and the restarts can change. On a pass: a non-empty seed is kept and an empty one becomes four digits; overrides, job and stats are unchanged; the dirty and imported marks are cleared; a restart happens iff the commit of the form succeeds |
| HitTest.LastHit | src/Components/TimelineCanvas.tsx:112-130 | the winning region contains the mouse, and no later region does; −1 iff none does |
| HitTest.LastHitAppend | src/Components/TimelineCanvas.tsx:112-130 | a later batch of regions wins wherever it has a hit; elsewhere the earlier batch decides |
| HitTest.BackgroundYields | src/Components/TimelineCanvas.tsx:1513-1517 | the background registered first loses to any later region and wins only where nothing else is hit |
| HitTest.FrameResolves | src/Components/TimelineCanvas.tsx:1513-1517 | inside the canvas some region is always hit, and it is the background iff no drawn element is |
| HitTest.Interaction.constructor | src/Components/TimelineCanvas.tsx:72-108 | the globals start cleared: no tip, no images, no click handler, no pointer |
| HitTest.Interaction.TestInteraction | src/Components/TimelineCanvas.tsx:112-130 | inside the half-open rectangle tip, images, click handler and pointer flag are overwritten; outside it nothing changes |
| HitTest.Interaction.RegisterAll | src/Components/TimelineCanvas.tsx:112-130 | after a sequence of registrations the register shows the last region containing the mouse, or is unchanged when none does |
| HitTest.Interaction.MouseMove | src/Components/TimelineCanvas.tsx:1582-1587 | the mouse position is recorded |
| HitTest.Interaction.SetHovered | src/Components/TimelineCanvas.tsx:1588-1595 | entering sets the hovered flag and leaving clears it |
| HitTest.Interaction.Click | src/Components/TimelineCanvas.tsx:1597-1603 | a click marks a click update only while the simulator is not looping |
| HitTest.Interaction.Frame | src/Components/TimelineCanvas.tsx:1616-1646 | tip and click handler are reset, but images and the pointer flag are not. The last hit over background-then-elements is shown. The handler fires iff hovered on a click update. The tip box is the layout of the measured lines. A repaint is requested iff the pointer flag changed. The click flag is cleared |
| Tooltip.MaxLineWidthIsMax | src/Components/TimelineCanvas.tsx:147-150 | the widest line's width bounds every line and is one of them (−1 for no lines) |
| Tooltip.DrawTip | src/Components/TimelineCanvas.tsx:138-182 | the imperative layout agrees with the reference layout: no box for zero lines |
| Tooltip.TipFitsContents | src/Components/TimelineCanvas.tsx:151-162 | the box holds every line plus padding: width maxLineWidth+16 and height 14n+8, or with k images width ≥ 8+32k and height 28 more |
| Tooltip.TipAvoidsCursor | src/Components/TimelineCanvas.tsx:170-175 | the box ends 4 px above the cursor iff it fits there, and otherwise starts 15 px below it |
| Tooltip.TipInsideCanvas | src/Components/TimelineCanvas.tsx:176-182 | a box no wider than the canvas stays inside it, and is centred on the cursor when centring fits |
| Bins.BinBy | src/Components/TimelineCanvas.tsx:1121-1127 | the `Map` filling loop builds the reference binning |
| Bins.BinnedSpec | src/Components/TimelineCanvas.tsx:1121-1127 | bins have distinct keys and are never empty; each element lands in the bin of its key in input order, and bins appear in first-seen order |
| Bins.BinnedKeyOccurs | src/Components/TimelineCanvas.tsx:1121-1127 | every bin's key is the key of some input element |
| MarkerTracks.BinKeys | src/Components/TimelineCanvas.tsx:1131-1138 | the track numbers of the bins, in bin order |
| MarkerTracks.MaxTrackEnd | src/Components/TimelineCanvas.tsx:1131-1138 | the least upper bound of track+1 over the tracks present, and 0 for none |
| MarkerTracks.CountTracks | src/Components/TimelineCanvas.tsx:1131-1138 | the loop counts the tracks of the reference definition: max track+1, plus one row for the untargetable track when present |
| MarkerTracks.TrackCounted | src/Components/TimelineCanvas.tsx:1131-1138 | every present track fits below the count, and the untargetable track alone already needs one row |
| MarkerTracks.EmptyBand | src/Components/TimelineCanvas.tsx:1131-1138 | without markers the band has height 0 |
| MarkerTracks.DrawMarkers | src/Components/TimelineCanvas.tsx:214-331 | the markers register their rectangles, track by track and in input order within a track |
| MarkerTracks.MarkerRectShape | src/Components/TimelineCanvas.tsx:241-249 | a marker with duration starts at its time and spans at least its duration; an instant marker is centred on its time; both are one track high |
| MarkerTracks.MarkerBand | src/Components/TimelineCanvas.tsx:1112-1157 | the band bins markers by track and is numTracks track heights tall |
| MarkerTracks.DrawMarkerTracks | src/Components/TimelineCanvas.tsx:1112-1157 | the returned height is numTracks·trackHeight, and the regions are those of the binned markers drawn between the band's top and bottom |
| MarkerTracks.TracksInsideBand | src/Components/TimelineCanvas.tsx:227-231 | every present track's row lies inside the band |
| MarkerTracks.RowInsideBand | src/Components/TimelineCanvas.tsx:227-231 | row t of a band with more than t rows lies inside it |
| MarkerTracks.UntargetableRowIsFree | src/Components/TimelineCanvas.tsx:227-231 | with the untargetable track present no other track reaches its top row |
| MarkerTracks.BelowTopRow | src/Components/TimelineCanvas.tsx:227-231 | a track below the highest counted one sits under the top row |
| Timelines.DrawTickMarks | src/Components/TimelineCanvas.tsx:333-466 | every tick-like mark registers one region, in order: a 4-pixel full-height strip for MP, meditate and auto ticks, a 12-pixel square above the line for warnings, each tipped with its bracketed time and text |
| Timelines.TickMarkHover | src/Components/TimelineCanvas.tsx:340-352 | each tick's region contains the top of its line, shows exactly one line "[time] text", and takes no click and no pointer |
| Timelines.DrawTickLayer | src/Components/TimelineCanvas.tsx:1228-1264 | a tick layer draws exactly the marks of its kind found in the slot's bins, none when the kind is absent |
| Timelines.DrawPotencyLayer | src/Components/TimelineCanvas.tsx:1198-1226 | a potency layer draws exactly the marks of its kind found in the slot's bins |
| Timelines.DrawSkillLayer | src/Components/TimelineCanvas.tsx:1266-1274 | the skill row draws the slot's skills, interactive only on the active slot |
| Timelines.DrawSlot | src/Components/TimelineCanvas.tsx:1187-1274 | a slot registers MP ticks (if MP ticks are drawn), healing marks (if enabled), damage then aggro marks (if enabled), lucid marks (if MP ticks are drawn), then meditate, auto and warning ticks and the skill row, in that order |
| Timelines.DrawSlotStep | src/Components/TimelineCanvas.tsx:1169-1185 | one pass of the slot loop: a slot skipped in export mode adds nothing, any other slot adds itself, binned and placed, and its regions |
| Timelines.DrawSlots | src/Components/TimelineCanvas.tsx:1169-1308 | the slot loop draws the reference list of slots and registers their regions slot after slot |
| Timelines.CountdownCover | src/Components/TimelineCanvas.tsx:1314-1316 | the grey cover spans every slot, plus the add-slot row iff another slot may be added |
| Timelines.ExportRegistersActiveSlot | src/Components/TimelineCanvas.tsx:1169-1185 | in export mode the slots register exactly the active slot's layers, drawn at the origin and interactive, and nothing for an active index that names no slot |
| Timelines.IconWinsInSlot | src/Components/TimelineCanvas.tsx:1266-1274 | a skill icon under the mouse wins the slot's hover over every mark and bar drawn before it |
| Bins.ElemsOfBinned | src/Components/TimelineCanvas.tsx:1175-1180 | looking a kind up in the bins (`?? []`) gives exactly the slot's elements of that kind, in input order |
| Timelines.ExportDrawsOnlyActive | src/Components/TimelineCanvas.tsx:1169-1185 | in export mode only the active slot is drawn, at the origin |
| Timelines.NormalDrawsEverySlot | src/Components/TimelineCanvas.tsx:1169-1185 | otherwise every slot is drawn at originY + i·slotHeight with its elements binned by type in order |
| Timelines.SlotHandle | src/Components/TimelineCanvas.tsx:1332-1376 | one slot registers the reference handle regions |
| Timelines.RegisterHandles | src/Components/TimelineCanvas.tsx:1331-1376 | all slots register their handle regions in slot order |
| Timelines.DeleteOnlyOnActive | src/Components/TimelineCanvas.tsx:1331-1376 | the delete button exists only on the active slot and only with more than one slot; a handle sets its slot active, with a tip iff inactive |
| Timelines.DeleteButtonInsideHandle | src/Components/TimelineCanvas.tsx:1334-1376 | the delete button lies within its handle's column and bottom |
| Timelines.DrawTimelines | src/Components/TimelineCanvas.tsx:1159-1378 | the drawn slots are the reference list; the regions are every drawn slot's layers from time 0 after the countdown, then (outside export mode) every slot's handle; export returns one slot height, otherwise slots·slotHeight; the countdown cover includes the add-button height iff slots < max |
| Timelines.DrawAddSlotButton | src/Components/TimelineCanvas.tsx:1432-1502 | two buttons (add, clone) and their height below the maximum slot count, nothing at it |
| Skills.VisitSkill | src/Components/TimelineCanvas.tsx:720-812 | one pass of the per-skill loop adds that skill's bars, covers and icon to the reference layers |
| Skills.PushBars | src/Components/TimelineCanvas.tsx:727-791 | the bars of one skill are pushed as the reference rules say |
| Skills.PushCovers | src/Components/TimelineCanvas.tsx:795-809 | the buff covers of one skill are pushed as the reference rules say |
| Skills.CollectLayers | src/Components/TimelineCanvas.tsx:720-812 | the loop over all skills builds the reference layers |
| Skills.LayerCounts | src/Components/TimelineCanvas.tsx:720-812 | cast bars and snapshots, one per spell; grey lock bars, one per instant or limit break; recast bars, one per GCD; target labels iff targetCount > 1; shading, one per invalid skill; one icon per skill with an icon |
| Skills.CoverCounts | src/Components/TimelineCanvas.tsx:795-809 | each buff's cover list grows once per skill holding that buff, when buff indicators are on |
| Skills.HeldBeforeGrows | src/Components/TimelineCanvas.tsx:795-809 | the cover counter strictly increases past every held buff |
| Skills.CoversStack | src/Components/TimelineCanvas.tsx:795-809 | covers of a skill stack downward below its icon without overlapping |
| Skills.ShadingCoversBars | src/Components/TimelineCanvas.tsx:776-791 | invalid shading starts at the skill and reaches past the lock bar, and past the recast bar for a GCD |
| Skills.RegisterBars | src/Components/TimelineCanvas.tsx:823-877 | one bar layer registers its rectangles in order |
| Skills.RegisterBarLayers | src/Components/TimelineCanvas.tsx:823-877 | all bar layers register in the source's layer order |
| Skills.RegisterIcons | src/Components/TimelineCanvas.tsx:879-965 | the icons register last, each with its tip and buff images |
| Skills.DrawSkills | src/Components/TimelineCanvas.tsx:628-977 | the layers collected and the regions registered are those of the reference definition |
| Skills.NoCoverRegions | src/Components/TimelineCanvas.tsx:860-868 | covers register nothing outside the active slot |
| Skills.InactiveSlotOnlyIcons | src/Components/TimelineCanvas.tsx:942-963 | outside the active slot only icons register, each doing nothing and with no pointer |
| Skills.IconsWin | src/Components/TimelineCanvas.tsx:879-965 | where an icon is hit, that icon wins over every bar |
| Skills.BarsAnswerOffIcons | src/Components/TimelineCanvas.tsx:823-965 | off the icons, the bars alone decide the hit |
| Skills.CoverImagesExact | src/Components/TimelineCanvas.tsx:931-941 | the tooltip images are exactly the held buffs whose cover shows an image |
| PotencyMarks.MarkTip | src/Components/TimelineCanvas.tsx:523-585 | the loop over a mark's potencies builds its reference lines and images |
| PotencyMarks.VisitInfo | src/Components/TimelineCanvas.tsx:523-583 | one potency adds its reference lines and at most the tincture icon |
| PotencyMarks.DrawPotencyMarks | src/Components/TimelineCanvas.tsx:467-599 | one region per mark, in order, each with that mark's reference tip and area |
| PotencyMarks.InfoLineCounts | src/Components/TimelineCanvas.tsx:529-571 | an untargetable source gives one zero line and no splash line; otherwise a splash line iff it splashes |
| PotencyMarks.OnlyDamageUntargetable | src/Components/TimelineCanvas.tsx:476-477 | untargetability is consulted only for damage marks |
| PotencyMarks.UntargetableShowsZero | src/Components/TimelineCanvas.tsx:529-533 | an untargetable mark shows one "0.000" line per source and nothing else; a targetable one shows none |
| PotencyMarks.SplashLineCount | src/Components/TimelineCanvas.tsx:542-571 | splash lines number exactly the non-limit-break sources with more than one target |
| PotencyMarks.SplashLineRules | src/Components/TimelineCanvas.tsx:542-571 | splash targets = targetCount − 1, the " x n" suffix iff that is more than 1, and the splash amount lies within the primary one |
| PotencyMarks.NoFalloffNoSplash | src/Components/TimelineCanvas.tsx:542-571 | without a falloff the splash amount is 0 |
| PotencyMarks.TinctureAtMostOnce | src/Components/TimelineCanvas.tsx:574-583 | the images are the tincture alone iff potted, targetable and some non-LB source exists, and empty otherwise; party buffs never appear |
| Ruler.MinorTicksForward | src/Components/TimelineCanvas.tsx:1086-1107 | unlabelled ticks at exactly the reached, visible non-negative seconds off the 5 s grid |
| Ruler.MinorTicksBackward | src/Components/TimelineCanvas.tsx:1086-1107 | the same for negative seconds |
| Ruler.MajorTicksForward | src/Components/TimelineCanvas.tsx:1086-1107 | labelled ticks at exactly the reached, visible non-negative multiples of 5 |
| Ruler.MajorTicksBackward | src/Components/TimelineCanvas.tsx:1086-1107 | the same for negative multiples of 5 |
| Ruler.AppendTicks | src/Components/TimelineCanvas.tsx:1086-1107 | joining disjoint well-formed tick lists keeps them well-formed and distinct |
| Ruler.DrawRuler | src/Components/TimelineCanvas.tsx:1026-1110 | a tick exists at second s iff s is reached, within 50 px of the visible area, and a multiple of 5 or pixelsPerSecond ≥ 6; ticks are labelled iff on the 5 s grid and are distinct |
| Ruler.ZoomedOutOnlyMajor | src/Components/TimelineCanvas.tsx:1086-1107 | below 6 pixels per second only labelled multiples of 5 are drawn |
| Ruler.DisplayTimeRoundTrip | src/Components/TimelineCanvas.tsx:1035-1037 | the display time under the mouse maps back to the mouse position |
| Ruler.RulerClickShowsHistory | src/Components/TimelineCanvas.tsx:1049-1056 | a click shows the historical state iff −countdown ≤ t < current display time, at the time under the mouse |
| Context.Painter.constructor | src/Components/TimelineCanvas.tsx:70 | the painter starts on its initial context with nothing drawn |
| Context.Painter.DrawOn | src/Components/TimelineCanvas.tsx:70 | a draw lands on the current context and leaves it current |
| Context.Painter.Run | src/Components/TimelineCanvas.tsx:1677-1682 | running a script draws its trace from the current context and leaves the context as it was |
| Context.Painter.SwapCtx | src/Components/TimelineCanvas.tsx:1677-1682 | the callback's draws land on the new context as its trace says, and the old context is restored |
| Context.TraceAppend | src/Components/TimelineCanvas.tsx:1677-1682 | the trace of a script is the concatenation of the traces of its parts |
| Context.TraceCountsDraws | src/Components/TimelineCanvas.tsx:1677-1682 | nested swaps neither lose nor add draws |
| Context.FlatCallbackLandsOnTarget | src/Components/TimelineCanvas.tsx:1677-1682 | a callback without nested swaps draws everything on the target context, in order |
| Context.SwapRestoresOuter | src/Components/TimelineCanvas.tsx:1677-1682 | after a nested swap, later draws land on the outer context again |
| Frame.DrawCursors | src/Components/TimelineCanvas.tsx:1380-1430 | one full-height cursor region per cursor time, in the order given (the enabled view-only cursors, then the cursor), and no height |
| Frame.RulerBand | src/Components/TimelineCanvas.tsx:1519 | the ruler adds its region and its height |
| Frame.MarkerBand | src/Components/TimelineCanvas.tsx:1521-1522 | the marker band registers its markers between the ruler and the slots and ends where the slots start |
| Frame.SlotsBand | src/Components/TimelineCanvas.tsx:1524 | the timelines add every slot's layers, then the handles, and slots·slotHeight |
| Frame.MarkersAndSlots | src/Components/TimelineCanvas.tsx:1521-1524 | the marker band's regions, then the slots' regions; the timelines start right below the marker band and end where the add-slot buttons start |
| Frame.UpperBands | src/Components/TimelineCanvas.tsx:1509-1524 | background, ruler, markers and timelines register in that order |
| Frame.LowerBands | src/Components/TimelineCanvas.tsx:1526-1528 | cursors, then the add-slot buttons; only the buttons add height |
| Frame.DrawEverything | src/Components/TimelineCanvas.tsx:1505-1545 | the frame registers background, ruler, markers, every slot's layers, handles, cursors and buttons in drawing order, and its height is the sum of the bands |
| Frame.CursorBeatsRuler | src/Components/TimelineCanvas.tsx:1526 | a cursor hit wins over everything registered before it |

## Left out

- The simulator is not part of this model. Its source is not shown, so its queries are opaque parameters:
  - `controller`, `GameState` and the rendering props;
  - `XIVMath.preTaxGcd`/`afterFpsTax` (the `TimingMath` record);
  - `getAmount`/`getPotency` (potency amounts are inputs);
  - the boss-untargetable query;
  - the job tables (`Env`).
- Canvas drawing is not modelled: fills, strokes, fonts, colours, theme lookups, `measureText`, images and `devicePixelRatio` scaling. Only the rectangles and regions they are fed are kept. Text widths are inputs, images are keys, and tip text is produced by rendering parameters.
- React is not modelled: `setState` asynchrony, hooks and re-render scheduling. State updates are direct field assignments in the order the handlers issue them.
- Gear import over HTTP is not modelled (network I/O).
- Cached settings persistence is not modelled (storage I/O).
- Localisation and `toFixed` formatting are not modelled. Hover lines are the `HoverLine` datatype, rendered by a parameter. The slot-handle tips are fixed English strings.
- `window.alert` calls are returned error values.
- `Math.random` is a nondeterministic choice of digit.
- Floating-point rounding is not modelled: coordinates and amounts are exact reals.
- The text of a tick-like mark is an input (`TickMark.text`): the warning message chosen by warning kind and the `{skill}` substitution of a lucid mark's description are not modelled. The `toFixed(3)` time is the `tickTime` parameter.
- The selection rectangle of the active slot draws without registering anything and is not modelled.
- The selection rectangle, the keyboard delete handler and the marker-deletion effect of a marker click are not modelled.
  - A marker's click action records the time and track it was drawn for.
- `Context.Painter.SwapCtx`: a callback that throws would leave the swapped context in place. Callbacks here always complete.
- `Ruler.DrawRuler` requires pixelsPerSecond > 0. With a zero scale the tick loops of the source never stop.
- `Ruler.XUpperBound`: the export-mode bound is defined, but the image-export drawing chain that uses it is not.
- Constants are parameters: the slot dimensions, `MAX_TIMELINE_SLOTS` and the untargetable marker track.
- `ConfigPanel.Config.AddResourceOverride`, `ConfigPanel.Config.DeleteResourceOverride`: the source pushes to and splices the state's override array in place, and the committed configuration holds that same array, so a later edit also changes what was committed. The model keeps the list as a value: each edit assigns a new sequence, and a committed `GameConfig` keeps its own copy.
- `getAllResources` is an ordered sequence of entries, because a `Map` iterates in insertion order. An override for a key that is not in the table is refused with an unknown-resource error; the source would read an undefined entry there.

## Where the code differs from its description

The model follows the code in each case:
- The configuration is described as rejected when any numeric field is unparsable. The code never checks `piety`, so a NaN piety is committed (`ConfigCommit.PietyNotChecked`).
  - Likewise, `drawPotencyMarks` calls `buffImages.push()` with no argument, so party-buff icons never reach a potency mark's tooltip (`PotencyMarks.TinctureAtMostOnce`).
- Consistency errors are described as naming the offending resources. The code raises fixed messages, one per rule (`OverrideCheck.ConsistencyError`).
- A rejected commit is described as leaving no partial state. When the consistency check passes but `setConfigAndRestart` refuses the form, `handleSubmit` has already stored a generated seed, and it still clears the dirty and imported marks (`ConfigPanel.Config.HandleSubmit`).
