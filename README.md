# Business card editor: session model

The Streamlit page `enhanced_business_card_editor.py` works out the card's pixel size on the
Python side. It then emits a Fabric.js page script that runs the editor. This project models
that editor session in Dafny:

- the canvas object list, where index 0 is painted first and guide objects carry
  `excludeFromExport`;
- the active object;
- the undo and redo stacks of canvas snapshots, capped at 20 entries;
- the `objectCounter` that numbers new objects.

The toolbar's and the panels' handlers are methods of the `Editor.Session` class. Each method
states the new object list, selection, stacks and counter in terms of the old ones. The pure
parts are functions with lemmas about them:

- card format × orientation × DPI → pixels;
- the bleed and safe margins;
- the export crop region;
- cover-fit placement of a background image;
- the layer panel listing and the status bar count;
- the JavaScript `parseFloat(v) || v` idiom of the properties panel.

Modules, leaf first:

- `JsText`: decimal rendering, `parseFloat`, `parseInt`, `||` fallbacks and `+ 20`.
- `CardGeometry`: formats, orientation, DPI, margins, export region and cover fit.
- `Stacking`: the list operations behind `bringForward`, `sendBackwards`, `bringToFront`,
  `sendToBack` and `remove`.
- `UndoHistory`: the two-stack history machine on values.
- `Scene`: object identifiers, object state, the `FabricObject` class, snapshots, the layer
  panel and the status bar.
- `Factory`: the guide overlay, the objects the add buttons create, the duplicate's copy and
  the background image.
- `Editor`: the `Session` class.

The model follows the code where it differs from what a reader might expect:

- `Math.round(37.5)` is 38 in JavaScript, so the bleed at 300 DPI is 38 px. A US Standard
  landscape canvas is then 1126 × 676, not 1124 × 674. The cover-fit example changes to match:
  a 2000 × 1000 image is scaled by 0.676 and shifted 113 px to the left.
- The duplicate is appended at the top of the list (`canvas.add`). It is not inserted just above
  its source. `clone` builds it from Fabric's written-out form of the source (`toObject`), so
  the copy is never locked, and its position is the source's rounded to hundredths, as a
  number, plus 20. A position typed as 0 is held as the text "0" but is written out as 0, so
  its copy sits at 20.
- `updateObjectProperty` neither clamps values nor consults the lock flags. Input that
  `parseFloat` reads as 0 or NaN is stored as the raw string; it is not dropped.
- `saveState` runs after each change, so the undo stack's top is the current state. The first
  undo after a change therefore restores the state just saved; the second undo reaches the state
  before the change (`UndoHistory.UndoAfterSave`; see Findings).
- Undo and redo rebuild the canvas with `loadFromJSON`, which clears the canvas. Snapshots hold
  no guides, so the guides are gone after an undo or redo. They are not regenerated.
- A snapshot is Fabric's written-out form of each object. It carries no id, no lock flag and
  no `selectable`/`evented` setting. After an undo or redo, no object has an id, nothing is
  locked and everything is selectable. The layer panel's eye and padlock buttons then find no
  object, and a new background image does not remove the old one.
- The eye and padlock buttons sit inside a layer row. Their click also reaches the row's
  click handler, so toggling visibility or the lock also selects that row's object
  (`Editor.Session.ToggleObjectVisibility` or `LockObject`, then `SelectLayerRow`).
- The undo, redo and export handlers discard the selection. The text-format toggles, the lock
  toggle and the visibility toggle make no history entry.

## Model

| member | source | states |
|---|---|---|
| `JsText.Dec` | enhanced_business_card_editor.py:691 | the decimal text of a counter value is non-empty and made of digits |
| `JsText.ParseDec` | enhanced_business_card_editor.py:691 | reading the decimal text of n back gives n |
| `JsText.DecInjective` | enhanced_business_card_editor.py:691 | different counter values never render to the same text |
| `JsText.LeadingDigits` | enhanced_business_card_editor.py:1202 | the longest digit prefix: all digits, and the next character is not one |
| `JsText.LeadingSpaces` | enhanced_business_card_editor.py:1202 | the longest white-space prefix that `parseFloat` skips |
| `JsText.ParseFloat` | enhanced_business_card_editor.py:1202 | `parseFloat` finds a number exactly when, after white space and one sign, the text starts with a digit or with a point and a digit; the sign it reads is the sign written |
| `JsText.ParseInt` | enhanced_business_card_editor.py:680 | `parseInt` without a radix finds a number exactly when, after white space and one sign, the text starts with a digit; whenever it does, `parseFloat` does too |
| `JsText.ParseFloatDec` | enhanced_business_card_editor.py:1202 | `parseFloat` of a number's text followed by a non-numeric tail gives that number |
| `JsText.ParseIntDec` | enhanced_business_card_editor.py:680 | `parseInt` of a number's text followed by a non-digit tail gives that number |
| `JsText.ParseFloatNoDigits` | enhanced_business_card_editor.py:1202 | text without a digit is NaN for `parseFloat` |
| `JsText.NumberOrText` | enhanced_business_card_editor.py:1202 | `parseFloat(v) \|\| v` is a number exactly when the parse is a number other than 0, and otherwise the raw text |
| `JsText.NumberOrTextPositive` | enhanced_business_card_editor.py:1202 | a positive whole number typed into a field is stored as that number |
| `JsText.NumberOrTextZero` | enhanced_business_card_editor.py:1202 | typing 0 stores the string "0", not the number 0 |
| `JsText.IntOr` | enhanced_business_card_editor.py:680 | `parseInt(v) \|\| 24` is the parsed integer unless it is NaN or 0, in which case it is the fallback |
| `JsText.TextOr` | enhanced_business_card_editor.py:681-682 | `v \|\| fallback` keeps a non-empty string and replaces the empty one |
| `JsText.PlusTwenty` | enhanced_business_card_editor.py:1259-1260 | `v + 20` moves a number by exactly 20, appends the text "20" to a string, and keeps NaN |
| `JsText.TextToNumber` | enhanced_business_card_editor.py:1257 | `Number(text)`, which Fabric applies before rounding: blank text is 0, and other text is either no number at all or what `parseFloat` reads from it |
| `JsText.Round2` | enhanced_business_card_editor.py:1257 | `toFixed(2)` rounding gives a whole number of hundredths within half a hundredth of the value; a tie goes away from zero, so the bound is strict above zero and reached only below it |
| `JsText.Round2Odd` | enhanced_business_card_editor.py:1257 | rounding to hundredths commutes with the sign, as `toFixed` rounds the magnitude |
| `JsText.Round2Ties` | enhanced_business_card_editor.py:1257 | 0.125 is written out as 0.13 and -0.125 as -0.13 |
| `JsText.Fixed2` | enhanced_business_card_editor.py:1257 | a written-out position is never text: a number moves by at most half a hundredth to a whole number of hundredths (a full half only at a negative tie), text becomes NaN exactly when `Number` finds nothing in it, NaN stays NaN |
| `JsText.Fixed2Idempotent` | enhanced_business_card_editor.py:958-961 | writing out a value that was already written out changes nothing |
| `JsText.TextToNumberBlank` | enhanced_business_card_editor.py:1257 | blank text and "0" are both written out as the number 0 |
| `JsText.TextToNumberPrefix` | enhanced_business_card_editor.py:1257 | "0px" reads as 0 for `parseFloat` but as NaN for `Number` |
| `CardGeometry.DpiValue` | enhanced_business_card_editor.py:72-75 | the resolution is 150, 300 or 600 |
| `CardGeometry.FormatDims` | enhanced_business_card_editor.py:59-65 | every format's landscape size is positive and at least as wide as it is high |
| `CardGeometry.PixelLength` | enhanced_business_card_editor.py:82-83 | `int(inches * dpi)` is the largest whole pixel count not above the exact product |
| `CardGeometry.Oriented` | enhanced_business_card_editor.py:67-69 | the oriented size has the same two sides as the format; landscape is at least as wide as high, portrait at least as high as wide |
| `CardGeometry.TrimSize` | enhanced_business_card_editor.py:82-83 | each trimmed side is the largest whole pixel count not above the oriented side in inches times the DPI |
| `CardGeometry.PortraitSwaps` | enhanced_business_card_editor.py:67-69 | portrait swaps the trimmed width and height, and the canvas width and height |
| `CardGeometry.MarginPx` | enhanced_business_card_editor.py:541-542 | `Math.round(0.125 * dpi)` is the nearest whole pixel, halves rounding up |
| `CardGeometry.MarginTable` | enhanced_business_card_editor.py:541-542 | the margins are 19, 38 and 75 px at 150, 300 and 600 DPI |
| `CardGeometry.CanvasSize` | enhanced_business_card_editor.py:546-547 | the canvas is the trimmed card plus one bleed margin on every side |
| `CardGeometry.UsStandardAt300` | enhanced_business_card_editor.py:541-547 | a US Standard card at 300 DPI is 1050 × 600 px on a 1126 × 676 canvas |
| `CardGeometry.ExportRegion` | enhanced_business_card_editor.py:1020-1024 | with bleed the region is the whole canvas; without it the region is the trim box, one bleed margin in from every edge; either way it lies inside the canvas |
| `CardGeometry.AsWrittenExactOnlyAtZoomOne` | enhanced_business_card_editor.py:1026-1034 | the request as written gives a picture of the region's size, but it shows the region pixel for pixel exactly when the display zoom is 1 |
| `CardGeometry.AsWrittenAtHalfZoom` | enhanced_business_card_editor.py:1026-1034 | at zoom 0.5 the US Standard trim box is drawn from pixel -19 to 506 of a 1050-pixel picture |
| `CardGeometry.ZoomedRequest` | enhanced_business_card_editor.py:1026-1034 | the region scaled to display pixels with multiplier 1/zoom shows the region pixel for pixel at any zoom |
| `CardGeometry.CoverScale` | enhanced_business_card_editor.py:1283-1286 | the image scaled by `max(W/w, H/h)` covers the target in both directions and fits exactly in one |
| `CardGeometry.CenteredOffset` | enhanced_business_card_editor.py:1290-1291 | the offset overhangs both ends equally and is not positive when the scaled side covers the target |
| `CardGeometry.CoverFitCovers` | enhanced_business_card_editor.py:1283-1291 | the scaled and centred image spans the whole canvas in both directions |
| `CardGeometry.CoverFitExample` | enhanced_business_card_editor.py:1283-1291 | a 2000 × 1000 image on a 1126 × 676 canvas gets scale 0.676 and offsets -113 and 0 |
| `Stacking.Forward` | enhanced_business_card_editor.py:835-842 | `bringForward` swaps the object with its successor, is a no-op on the topmost object, and permutes the list |
| `Stacking.Backward` | enhanced_business_card_editor.py:844-851 | `sendBackwards` swaps the object with its predecessor, is a no-op on the bottom object, and permutes the list |
| `Stacking.ForwardThenBackward` | enhanced_business_card_editor.py:835-851 | one step forward and one step back restore the list |
| `Stacking.ToFront` | enhanced_business_card_editor.py:853-860 | `bringToFront` moves the object to the last index and keeps the others' order |
| `Stacking.ToBack` | enhanced_business_card_editor.py:862-869 | `sendToBack` moves the object to index 0 and keeps the others' order |
| `Stacking.ToBackOfLast` | enhanced_business_card_editor.py:1305-1306 | adding an object and sending it to the back puts it in front of the old list |
| `Stacking.Position` | enhanced_business_card_editor.py:838 | the first index at which the object occurs |
| `Stacking.Without` | enhanced_business_card_editor.py:910 | removal keeps exactly the objects not removed, and never lengthens the list |
| `Stacking.WithoutKeepsOrder` | enhanced_business_card_editor.py:910 | on a list without repeats, two objects that are both kept stay in their old relative order |
| `Stacking.RemoveAtIsWithout` | enhanced_business_card_editor.py:1271 | `canvas.remove` of an object that occurs once is removal of that object |
| `Stacking.WithoutTwice` | enhanced_business_card_editor.py:1303 | removing one set and then another removes their union |
| `Stacking.PermutationKeepsNoDuplicates` | enhanced_business_card_editor.py:835-869 | a reordered list still holds each object once, and the same objects |
| `UndoHistory.Save` | enhanced_business_card_editor.py:1063-1068 | `saveState` pushes the live snapshot as the new top, keeps the newest 20 entries and empties the redo stack |
| `UndoHistory.Undo` | enhanced_business_card_editor.py:957-967 | a no-op on an empty undo stack; otherwise the live snapshot goes onto the redo stack and the popped top becomes live |
| `UndoHistory.Redo` | enhanced_business_card_editor.py:969-979 | the mirror image of undo |
| `UndoHistory.StepsKeepBound` | enhanced_business_card_editor.py:1063-1068 | save, undo and redo keep the two stacks together at 20 entries or fewer |
| `UndoHistory.RedoAfterUndo` | enhanced_business_card_editor.py:957-979 | redo right after undo restores the live snapshot and both stacks |
| `UndoHistory.UndoAfterRedo` | enhanced_business_card_editor.py:957-979 | undo right after redo restores the live snapshot and both stacks |
| `UndoHistory.UndoAfterSave` | enhanced_business_card_editor.py:1063-1068 | after a save, the first undo restores the saved state and the second the state before it |
| `UndoHistory.UndoIntended` | enhanced_business_card_editor.py:957-967 | the evidently intended undo: the top entry, which is the live state, moves to the redo stack and the entry below becomes live; the oldest entry is never popped |
| `UndoHistory.RedoIntended` | enhanced_business_card_editor.py:969-979 | the evidently intended redo: the top of the redo stack goes back on the undo stack and becomes live |
| `UndoHistory.UndoIntendedAfterSave` | enhanced_business_card_editor.py:957-1068 | with the intended undo one undo after a save restores the state before the change, even when the save dropped the oldest entry |
| `UndoHistory.RedoIntendedAfterUndo` | enhanced_business_card_editor.py:957-979 | with the intended pair, redo right after undo restores the live state and both stacks |
| `UndoHistory.SaveAllKeepsNewest` | enhanced_business_card_editor.py:1066 | after any run of saves, the undo stack is the newest 20 of all saved snapshots |
| `UndoHistory.OldHistoryForgotten` | enhanced_business_card_editor.py:1066 | after 20 or more saves, nothing saved before them is recoverable |
| `Scene.IdTextInjective` | enhanced_business_card_editor.py:1261 | different identifiers have different texts, so lookup by id text finds the right object |
| `Scene.TypeName` | enhanced_business_card_editor.py:1261 | a Fabric type name contains no underscore, so `type_N` splits back uniquely |
| `Scene.Plain` | enhanced_business_card_editor.py:679-780 | a new object is visible, not a guide, selectable and unlocked |
| `Scene.ToggledWeight` | enhanced_business_card_editor.py:783-790 | the bold button gives 'bold' exactly when the weight was not 'bold', and 'normal' otherwise |
| `Scene.ToggledStyle` | enhanced_business_card_editor.py:792-799 | the italic button gives 'italic' exactly when the style was not 'italic', and 'normal' otherwise |
| `Scene.TogglesInvolutive` | enhanced_business_card_editor.py:783-799 | pressing bold or italic twice restores any value one press can produce |
| `Scene.WithProperty` | enhanced_business_card_editor.py:1195-1206 | fill and stroke take the raw text, other properties `parseFloat(v) \|\| v`; identity, visibility, locks and font style are untouched |
| `Scene.WithPropertyKeepsOthers` | enhanced_business_card_editor.py:1195-1206 | setting one property leaves every other panel property as it was |
| `Scene.Relocked` | enhanced_business_card_editor.py:1239-1252 | all five lock flags become the negation of `lockMovementX`; nothing else changes |
| `Scene.RelockTwice` | enhanced_business_card_editor.py:1239-1252 | locking twice restores an object whose flags agree |
| `Scene.FabricObject.State` | enhanced_business_card_editor.py:1261 | an object's state carries its fixed id and guide flag |
| `Scene.FabricObject.SetProperty` | enhanced_business_card_editor.py:1199-1203 | `obj.set(prop, value)` gives the object the state `WithProperty` describes |
| `Scene.FabricObject.Relock` | enhanced_business_card_editor.py:1241-1249 | the object's new state is `Relocked` of the old one |
| `Scene.StatesOf` | enhanced_business_card_editor.py:1064 | the states of the objects, index by index |
| `Scene.SnapshotOf` | enhanced_business_card_editor.py:1064 | `canvas.toJSON()` writes out only objects that are not guides, at most one entry per object; every entry is in written-out form, without id and not a guide |
| `Scene.JsonOf` | enhanced_business_card_editor.py:958-973 | `toObject` keeps no id, lock, `selectable`, `evented` or `excludeFromExport` (the defaults come back on loading), rounds position, angle, opacity, stroke width and scale to hundredths, and keeps type, visibility, colours and text properties |
| `Scene.JsonOfIdempotent` | enhanced_business_card_editor.py:958-973 | a written-out state written out again is unchanged, so a reloaded canvas gives the same snapshot |
| `Scene.JsonOfTypedZero` | enhanced_business_card_editor.py:1201-1257 | a position typed as 0 and held as the text "0" is written out as the number 0, and a lock is lost |
| `Scene.NonGuides` | enhanced_business_card_editor.py:1074 | the filter keeps only states that are not guides, all from the input |
| `Scene.NonGuidesAppend` | enhanced_business_card_editor.py:1074 | the filter distributes over concatenation |
| `Scene.GuideObjects` | enhanced_business_card_editor.py:1016 | `filter(obj => obj.excludeFromExport)` keeps exactly the guides |
| `Scene.NonGuideObjects` | enhanced_business_card_editor.py:1074 | `filter(obj => !obj.excludeFromExport)` keeps exactly the objects that are not guides |
| `Scene.ObjectsWithId` | enhanced_business_card_editor.py:1302 | `filter(o => o.id === id)` keeps exactly the objects with that id |
| `Scene.NonGuideObjectStates` | enhanced_business_card_editor.py:1064-1074 | the layer panel's objects have the same states as those the snapshot writes out, and the snapshot is the written-out form of exactly those states |
| `Scene.FindById` | enhanced_business_card_editor.py:1231 | `find(o => o.id === id)` gives the first object with that id text, or none when no object has it |
| `Scene.RowLabel` | enhanced_business_card_editor.py:1078 | a label is the id text (or the type for an object without id), a space and the decimal row number |
| `Scene.RowLabelsDiffer` | enhanced_business_card_editor.py:1078 | labels of rows at different positions always differ, whatever the objects are called |
| `Scene.LayerRows` | enhanced_business_card_editor.py:1074-1081 | one row per object that is not a guide, and no two rows carry the same label |
| `Scene.ObjectInRow` | enhanced_business_card_editor.py:1076 | the object of a layer row is on the canvas and is not a guide |
| `Scene.LayerRowOfObject` | enhanced_business_card_editor.py:1076-1090 | row k of the panel describes the object the row's click handler selects |
| `Scene.RowIndex` | enhanced_business_card_editor.py:1074-1076 | the row that shows an object that is not a guide is within the panel and shows that object |
| `Scene.LayerRowsOrder` | enhanced_business_card_editor.py:1074-1076 | of two objects that are not guides, the one painted later is listed higher in the panel |
| `Scene.OneRowPerObject` | enhanced_business_card_editor.py:1074-1076 | on a list without repeats each object that is not a guide is shown by exactly one row |
| `Scene.ObjectCountText` | enhanced_business_card_editor.py:1225-1226 | the status text starts with the count and ends in 's' exactly when the count is not 1 |
| `Factory.Guide` | enhanced_business_card_editor.py:593-604 | a guide is excluded from export, not selectable, not evented, without an id and visible |
| `Factory.BleedRect` | enhanced_business_card_editor.py:593-606 | the bleed guide is a rectangle at the origin as large as the canvas, one bleed margin wider than the trim box on each side |
| `Factory.SafeRect` | enhanced_business_card_editor.py:609-623 | the safe-zone guide starts two margins in from the top left and leaves the same margin at the right and bottom |
| `Factory.GridCount` | enhanced_business_card_editor.py:651-661 | the number of passes of a grid loop: no passes on a zero-length side, else the largest count whose last stop is still inside |
| `Factory.CenterLines` | enhanced_business_card_editor.py:629-646 | the centre lines are two guides |
| `Factory.GridStopClosed` | enhanced_business_card_editor.py:651 | on pass k the grid loop variable is exactly k · dpi / 8 |
| `Factory.GridStopBelow` | enhanced_business_card_editor.py:651 | the loop test `i < limit` holds on exactly the passes the grid count counts |
| `Factory.GridColumns` | enhanced_business_card_editor.py:651-660 | the first grid loop draws one guide per pass |
| `Factory.GridRows` | enhanced_business_card_editor.py:661-670 | the second grid loop draws one guide per pass |
| `Factory.Grid` | enhanced_business_card_editor.py:649-670 | the grid is the vertical lines then the horizontal ones, all guides |
| `Factory.GridSpan` | enhanced_business_card_editor.py:651-660 | every grid line lies strictly inside the canvas, one step apart, and one more step would leave it |
| `Factory.GuideStates` | enhanced_business_card_editor.py:591-674 | `createGuides` draws the bleed, safe, centre and grid guides each option asks for, and nothing else |
| `Factory.GuidesLeaveNoJson` | enhanced_business_card_editor.py:591-674 | a canvas holding only guides has an empty snapshot |
| `Factory.GridAtUsStandard300` | enhanced_business_card_editor.py:649-670 | at 300 DPI on a US Standard card the step is 37.5 px, with 30 vertical and 18 horizontal lines |
| `Factory.ToolPrefix` | enhanced_business_card_editor.py:691-777 | no add button's id prefix contains an underscore |
| `Factory.CreatedState` | enhanced_business_card_editor.py:679-780 | each add button's object has id `<prefix>_n`, sits inside the bleed, and is visible, unlocked and not a guide; the text button uses the toolbar inputs with their fallbacks |
| `Factory.DuplicateState` | enhanced_business_card_editor.py:1257-1263 | the copy is the written-out source with id `<type>_n` and position `+ 20` on the written-out position: never text, unlocked, selectable, not a guide, otherwise equal to the source as written out |
| `Factory.DuplicateOffset` | enhanced_business_card_editor.py:1259-1260 | a numeric position moves by 20 px plus the rounding to hundredths: by more than 19.995 from a non-negative position, by less than 20.005 from a negative one, and never outside that range |
| `Factory.DuplicateOfTypedZero` | enhanced_business_card_editor.py:1257-1260 | a locked object whose position was typed as 0 gets a copy at 20, as a number, that is not locked |
| `Factory.CoverImage` | enhanced_business_card_editor.py:1283-1296 | the background has id `background_image`, is not selectable, covers the whole canvas and overhangs it evenly |
| `Factory.BackgroundState` | enhanced_business_card_editor.py:1283-1296 | the background made from an image of a given size is the image with id `background_image`, not selectable, not a guide, and covering the canvas |
| `Editor.StepKeepsConsistent` | enhanced_business_card_editor.py:957-979 | undo and redo keep the session invariant; the rebuilt canvas has no guide, and its objects have no id, no lock and are selectable |
| `Editor.SnapshotWithin` | enhanced_business_card_editor.py:1064 | every entry of a snapshot is in written-out form, so it is a valid history entry |
| `Editor.LoadedOk` | enhanced_business_card_editor.py:961-973 | objects rebuilt from a history entry have no id, no lock, are selectable and not guides, and their snapshot is their states |
| `Editor.ReloadedIdsGone` | enhanced_business_card_editor.py:1083-1084 | after an undo or redo no object has an id, so lookup by id text finds nothing and no object counts as the old background image |
| `Editor.LoadFromJson` | enhanced_business_card_editor.py:961 | `loadFromJSON` builds one fresh object per recorded state, in order |
| `Editor.WithGuidesVisible` | enhanced_business_card_editor.py:1017 | only the guides' `visible` flag changes, so the snapshot is unchanged |
| `Editor.GuidesHiddenThenShown` | enhanced_business_card_editor.py:1017-1037 | hiding the guides and then showing them leaves every guide visible |
| `Editor.ExportFileName` | enhanced_business_card_editor.py:1041 | the download name is `business-card-`, the DPI and `dpi.png`, and the DPI reads back from it with `parseInt` |
| `Editor.Session.constructor` | enhanced_business_card_editor.py:1379-1382 | page load draws the guides and saves one empty snapshot; the counter is 0 and nothing is selected |
| `Editor.Session.Add` | enhanced_business_card_editor.py:1056 | `canvas.add` appends the object at the top of the list |
| `Editor.Session.AddGuide` | enhanced_business_card_editor.py:623 | one guide is appended |
| `Editor.Session.AddGridColumns` | enhanced_business_card_editor.py:651-660 | the first grid loop appends exactly the vertical grid lines |
| `Editor.Session.AddGridRows` | enhanced_business_card_editor.py:661-670 | the second grid loop appends exactly the horizontal grid lines |
| `Editor.Session.AddGuideAtBack` | enhanced_business_card_editor.py:605-606 | the bleed rectangle goes below every other object |
| `Editor.Session.AddCenterLines` | enhanced_business_card_editor.py:646 | the vertical then the horizontal centre line are appended |
| `Editor.Session.AddGrid` | enhanced_business_card_editor.py:649-670 | both grid loops append the grid |
| `Editor.Session.CreateGuides` | enhanced_business_card_editor.py:591-674 | the empty canvas gets exactly the guides of `GuideStates`, in paint order |
| `Editor.Session.SaveState` | enhanced_business_card_editor.py:1063-1068 | the stacks become `Save` of the old stacks and the live snapshot; the canvas is untouched |
| `Editor.Session.AddObjectToCanvas` | enhanced_business_card_editor.py:1055-1061 | the object is added on top and selected, and a snapshot is saved |
| `Editor.Session.NextSerial` | enhanced_business_card_editor.py:691 | `++objectCounter` gives the counter plus one; nothing else changes |
| `Editor.Session.AddElement` | enhanced_business_card_editor.py:679-780 | an add button creates the `CreatedState` object with the next counter value, appends and selects it, saves a snapshot; its id is on no other object and in no history entry |
| `Editor.Session.ToggleBold` | enhanced_business_card_editor.py:783-790 | flips the active text object's weight; other objects and types are untouched; no history entry |
| `Editor.Session.ToggleItalic` | enhanced_business_card_editor.py:792-799 | flips the active text object's style; no history entry |
| `Editor.Session.ToggleUnderline` | enhanced_business_card_editor.py:801-808 | negates the active text object's underline; no history entry |
| `Editor.Session.SetTextAlign` | enhanced_business_card_editor.py:810-832 | sets the active text object's alignment; no history entry |
| `Editor.Session.Reorder` | enhanced_business_card_editor.py:835-869 | a permutation of the list replaces it and a snapshot is saved |
| `Editor.Session.BringForward` | enhanced_business_card_editor.py:835-842 | with an active object the list becomes `Forward` at its index and a snapshot is saved; without one nothing changes |
| `Editor.Session.SendBackwards` | enhanced_business_card_editor.py:844-851 | with an active object the list becomes `Backward` at its index and a snapshot is saved; without one nothing changes |
| `Editor.Session.BringToFront` | enhanced_business_card_editor.py:853-860 | with an active object it moves to the last index and a snapshot is saved; without one nothing changes |
| `Editor.Session.SendToBack` | enhanced_business_card_editor.py:862-869 | with an active object it moves to index 0 and a snapshot is saved; without one nothing changes |
| `Editor.Session.Duplicate` | enhanced_business_card_editor.py:893-905 | a copy of the written-out source with the next counter value is appended on top and selected, the source unchanged, and a snapshot saved; its id is on no other object and in no history entry; without a selection nothing changes |
| `Editor.Session.Delete` | enhanced_business_card_editor.py:907-916 | the selected object leaves the list, the others keep their order, the selection is gone, and a snapshot is saved |
| `Editor.Session.Remove` | enhanced_business_card_editor.py:1268-1276 | `canvas.remove` takes out the object, keeps the others' order, and drops it from the selection |
| `Editor.Session.RemoveWithId` | enhanced_business_card_editor.py:1302-1303 | every object with the id is removed and no object with it remains |
| `Editor.Session.AddAtBack` | enhanced_business_card_editor.py:1305-1306 | the object is added and sent to index 0 |
| `Editor.Session.RemoveEach` | enhanced_business_card_editor.py:1303 | the loop of removals takes out exactly the listed objects |
| `Editor.Session.Undo` | enhanced_business_card_editor.py:957-967 | the stacks become `UndoHistory.Undo`; the canvas is rebuilt from the popped entry with no guide and no selection, its objects without id or lock and selectable; an empty stack changes nothing |
| `Editor.Session.Redo` | enhanced_business_card_editor.py:969-979 | the mirror image of undo |
| `Editor.Session.ClearAll` | enhanced_business_card_editor.py:981-990 | once confirmed, only fresh guides remain and an empty snapshot is saved; the counter is not reset |
| `Editor.Session.ResetToGuides` | enhanced_business_card_editor.py:983-986 | `canvas.clear()` and `createGuides()` leave exactly the guides |
| `Editor.Session.SetGuidesVisible` | enhanced_business_card_editor.py:1017 | every guide gets the visibility flag and nothing else changes |
| `Editor.Session.DiscardActiveObject` | enhanced_business_card_editor.py:1018 | the selection is dropped and the objects are untouched |
| `Editor.Session.ExportPng` | enhanced_business_card_editor.py:1014-1043 | requests the `ExportRegion` at multiplier 1 with the guides hidden; afterwards every guide is visible, nothing is selected, and no other object or history entry changes |
| `Editor.Session.UpdateObjectProperty` | enhanced_business_card_editor.py:1195-1206 | the active object gets `WithProperty` and a snapshot is saved; without a selection nothing changes |
| `Editor.Session.ToggleObjectVisibility` | enhanced_business_card_editor.py:1230-1237 | flips `visible` of the first object with the id, and of no other object |
| `Editor.Session.LockObject` | enhanced_business_card_editor.py:1239-1252 | `Relocked` is applied to the first object with the id, and to no other object |
| `Editor.Session.SelectLayerRow` | enhanced_business_card_editor.py:1089-1090 | clicking row k selects the object the row describes |
| `Editor.Session.StatusText` | enhanced_business_card_editor.py:1224-1226 | the status count is the number of objects that are not guides, which is the number of layer-panel rows |
| `Editor.Session.SetBackgroundFromDataUrl` | enhanced_business_card_editor.py:1279-1311 | an empty data URL changes nothing; otherwise old backgrounds are removed, the cover-fitted image is the one object with id `background_image`, at index 0, and a snapshot is saved |

## Left out

- Streamlit UI, CSS, toolbar markup and footer (lines 1-207, 248-534, 1400-1477): layout with no logic.
- Upload reading and base64 data-URL building (210-215): file I/O and a library encoder. The data URL is a parameter, and the image's natural size is given with it.
- Rasterisation (`toDataURL`), `renderAll` and the JSON text of `toJSON`/`loadFromJSON` are Fabric.js internals. `Editor.ExportResult` names the region, multiplier and painted states, not pixels. A snapshot is the sequence of written-out states (`Scene.JsonOf`) of the non-guide objects.
- Scene.JsonOf: models the properties the editor reads or writes. A line's end points, which Fabric writes out relative to its centre, are kept as they are.
- Group and ungroup (872-891): they delegate to Fabric's `toGroup`/`toActiveSelection`, whose transform composition is not part of this file.
- Multi-selection: it only arises from Fabric's rubber-band selection. The selection is at most one object, so `Editor.Session.Delete` removes at most one.
- Blur and brightness filters (1298-1299): pixel filters inside Fabric. Their parameters are not modelled.
- Zoom, fit-to-window and panel toggling (567-588, 919-955), the zoom percentage in the status bar (1227), and `updateObjectSize` (1208-1222): floating-point arithmetic over window sizes.
- Template application (1320-1344): it only sets the canvas background colour and saves a snapshot, and its gradient string handling is unfinished.
- Fabric's own event hooks (1346-1351): mouse-driven moves, resizes and rotations save a snapshot through `object:modified`. Those drag edits are Fabric interaction, so they are not modelled.
- Save-template download, print and the PDF stub (992-1011, 1045-1052): side effects only.
- Keyboard shortcuts, mouse tracking and the auto-save interval (1353-1392): event wiring and a timer that only logs.
- The properties-panel HTML of `updatePropertiesPanel` (1103-1193), and the background colour reset by clear-all (984).
- `clone` and `fabric.Image.fromURL` call back asynchronously. Both are modelled as running at once.
- Editor.Session.Undo: `loadFromJSON` (961, 973) also finishes in a callback. The model rebuilds the canvas at once, so a second click before the callback runs, which would push a snapshot of a half-loaded canvas, is not modelled. The same holds for `Editor.Session.Redo`.
- Editor.Session.ExportPng: `ExportResult` records the `toDataURL` request (region, multiplier 1), not the picture. The picture shows the region pixel for pixel only at display zoom 1; at the smaller zoom `fitCanvasDisplay` sets for a narrow window (581), the card is drawn shrunk and the trim crop is shifted (see Findings).
- Editor.Session.SetBackgroundFromDataUrl: requires a positive natural width and height. The page has no such guard. An image that fails to decode has size 0; the scale is then infinite and the offsets NaN, yet the old background is removed and a snapshot is saved. That case is not modelled, and neither are its effects on `Factory.CoverImage` and `CardGeometry.CoverScale`.
- Numbers are exact (`real`), not IEEE doubles. Every grid step and margin product the page computes is exact in binary, so nothing differs there. Cover-fit scale and offsets are exact rationals.
- JsText.ParseFloat: reads decimal notation only. Exponents, `Infinity` and non-ASCII white space are not recognised. The same holds for `JsText.TextToNumber`, which also leaves out `Number`'s hexadecimal, octal and binary forms; the number fields of the properties panel never produce those.
- JsText.TextToNumber: reads decimal notation only. `Number` also reads exponents, such as the "0e5" a number field accepts, and `Infinity`; the model gives no number for them, so such a value is written out as NaN where the page writes 0 or a number.
- JsText.Round2: rounds exact values. `toFixed` rounds the nearest double, so a value such as 1.005, which a double holds as slightly less, can round the other way.
- Scene.FabricObject: models only the properties the editor reads or writes, not the rest of Fabric's object.

## Findings

| source | as written | input that shows it | evidently intended | confidence | as-written member | corrected member |
|---|---|---|---|---|---|---|
| enhanced_business_card_editor.py:957-1068 | every change calls `saveState` afterwards, so the top of the undo stack is the current state; undo pops that top and loads it | add a rectangle, then press undo: the rectangle stays, and only a second undo removes it | one undo brings back the state before the last change, and redo brings the change back | not executed | `UndoHistory.UndoAfterSave` | `UndoHistory.UndoIntendedAfterSave` (with `UndoHistory.UndoIntended`, `UndoHistory.RedoIntended`, `UndoHistory.RedoIntendedAfterUndo`) |
| enhanced_business_card_editor.py:1026-1034 | the export asks `toDataURL` for the region in canvas pixels at multiplier 1, while Fabric draws at the display zoom and reads the crop in display pixels | a window narrow enough that `fitCanvasDisplay` sets zoom 0.5, then export without bleed: the trim box is drawn from pixel -19 to 506 of a 1050-pixel picture | the PNG shows the export region pixel for pixel whatever the display zoom | not executed | `CardGeometry.AsWrittenExactOnlyAtZoomOne` | `CardGeometry.ZoomedRequest` |

The session methods `Editor.Session.Undo`, `Editor.Session.Redo` and `Editor.Session.ExportPng`
keep the behaviour as written, so that the session model stays faithful to the page. The
corrected undo and redo are given in `UndoHistory` beside the as-written ones, and the
zoom-independent export request in `CardGeometry` beside the as-written one.
