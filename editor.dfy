/** The editing session of the page script: the Fabric.js canvas's object list, the selected
    object, the undo and redo stacks and `objectCounter`, with the toolbar's and the panels'
    handlers as methods. History entries are snapshots in the sense of `canvas.toJSON()`:
    the objects that are not guides, in paint order, each as `toObject` writes it out. */
module Editor {
  import opened JsText
  import opened CardGeometry
  import opened Stacking
  import UndoHistory
  import opened Scene
  import opened Factory

  /** An identifier `objectCounter` (here `counter`) has already handed out, or one that is not
      made from the counter. */
  predicate Issued(id: ObjectId, counter: nat)
  {
    id.Serial? ==> id.n <= counter && PlainPrefix(id.prefix)
  }

  /** What a history entry may hold: objects as `toObject` writes them out, so no guide, no
      identifier and no lock. */
  predicate SnapshotOk(snap: seq<ObjectState>)
  {
    forall st :: st in snap ==> Serialized(st)
  }

  predicate AllSnapshotsOk(stack: seq<seq<ObjectState>>)
  {
    forall snap :: snap in stack ==> SnapshotOk(snap)
  }

  /** The session invariant on plain values: the list has no object twice, the selection is on
      the canvas and is not a guide, every identifier was handed out by the counter, the two
      stacks share the cap of 20 and hold only written-out objects. It looks only at
      identifiers and guide flags, which never change, so editing an object's properties
      cannot break it. */
  ghost predicate Consistent(os: seq<FabricObject>, active: FabricObject?, h: UndoHistory.Stacks<seq<ObjectState>>, c: nat)
  {
    && NoDuplicates(os)
    && (active != null ==> active in os && !active.excludeFromExport)
    && (forall o :: o in os ==> Issued(o.id, c))
    && UndoHistory.Bounded(h)
    && AllSnapshotsOk(h.undo)
    && AllSnapshotsOk(h.redo)
  }

  /** Undo and redo rebuild the canvas from a valid entry and keep the invariant; the rebuilt
      objects carry no identifier. */
  lemma StepKeepsConsistent(os: seq<FabricObject>, active: FabricObject?, h: UndoHistory.Stacks<seq<ObjectState>>, c: nat,
                            live: seq<ObjectState>, loaded: seq<FabricObject>, undo: bool)
    requires Consistent(os, active, h, c) && SnapshotOk(live) && NoDuplicates(loaded)
    requires var step := if undo then UndoHistory.Undo(h, live) else UndoHistory.Redo(h, live);
      StatesOf(loaded) == step.live && (if undo then h.undo != [] else h.redo != [])
    ensures var step := if undo then UndoHistory.Undo(h, live) else UndoHistory.Redo(h, live);
      Consistent(loaded, null, step.stacks, c) && SnapshotOf(loaded) == StatesOf(loaded)
    ensures forall o :: o in loaded ==> o.id == NoId && Serialized(o.State())
    ensures forall o :: o in loaded ==> !Locked(o.State()) && o.State().selectable
  {
    UndoHistory.StepsKeepBound(h, live);
    if undo {
      PushOk(h.redo, live);
      PopOk(h.undo);
      LoadedOk(loaded, h.undo[|h.undo| - 1]);
    } else {
      PushOk(h.undo, live);
      PopOk(h.redo);
      LoadedOk(loaded, h.redo[|h.redo| - 1]);
    }
  }

  /** Pushing a valid entry, and popping or shifting one, keep a stack of valid entries. */
  lemma PushOk(stack: seq<seq<ObjectState>>, snap: seq<ObjectState>)
    requires AllSnapshotsOk(stack) && SnapshotOk(snap)
    ensures AllSnapshotsOk(stack + [snap]) && AllSnapshotsOk((stack + [snap])[1..])
  {
  }

  lemma PopOk(stack: seq<seq<ObjectState>>)
    requires AllSnapshotsOk(stack) && stack != []
    ensures AllSnapshotsOk(stack[..|stack| - 1]) && SnapshotOk(stack[|stack| - 1])
  {
  }

  /** Every snapshot is a valid history entry. */
  lemma SnapshotWithin(os: seq<FabricObject>)
    ensures SnapshotOk(SnapshotOf(os))
  {
    var r := SnapshotOf(os);
    forall st | st in r ensures Serialized(st) {
      var k :| 0 <= k < |r| && r[k] == st;
    }
  }

  /** Objects rebuilt from a valid history entry have no identifier, no lock, and none of them
      is a guide; a new snapshot of them records them unchanged. */
  lemma LoadedOk(os: seq<FabricObject>, snap: seq<ObjectState>)
    requires StatesOf(os) == snap && SnapshotOk(snap)
    ensures forall o :: o in os ==> o.id == NoId && !o.excludeFromExport && Serialized(o.State())
    ensures forall o :: o in os ==> !Locked(o.State()) && o.State().selectable
    ensures SnapshotOf(os) == StatesOf(os)
  {
    forall o | o in os ensures o.id == NoId && !o.excludeFromExport && Serialized(o.State()) {
      var i :| 0 <= i < |os| && os[i] == o;
      assert snap[i] in snap;
    }
    assert forall i :: 0 <= i < |snap| ==> !snap[i].excludeFromExport by {
      forall i | 0 <= i < |snap| ensures !snap[i].excludeFromExport {
        assert snap[i] in snap;
      }
    }
    NonGuidesOfNone(snap);
    forall i | 0 <= i < |snap| ensures JsonAll(snap)[i] == snap[i] {
      assert snap[i] in snap;
    }
  }

  /** On a canvas rebuilt by undo or redo no object has an identifier, so the eye and padlock
      buttons, which look objects up by id, find nothing, and no object counts as the old
      background image. */
  lemma ReloadedIdsGone(os: seq<FabricObject>, key: string)
    requires forall o :: o in os ==> o.id == NoId
    ensures FindById(os, key).None?
    ensures ObjectsWithId(os, BackgroundId) == []
  {
    WithoutEverything(os, set o | o in os && o.id != BackgroundId);
  }

  /** `canvas.loadFromJSON`'s rebuilding of the objects: one new object per recorded state,
      which already holds Fabric's defaults for everything `toObject` does not write out. */
  method LoadFromJson(json: seq<ObjectState>) returns (os: seq<FabricObject>)
    ensures StatesOf(os) == json && NoDuplicates(os)
    ensures forall o :: o in os ==> fresh(o)
  {
    os := [];
    for i := 0 to |json|
      invariant StatesOf(os) == json[..i] && NoDuplicates(os)
      invariant forall o :: o in os ==> fresh(o)
    {
      var o := new FabricObject(json[i]);
      AppendFresh(os, o);
      StatesOfAppend(os, o);
      os := os + [o];
      TakeOneMore(json, i);
    }
    TakeAll(json);
  }

  // ---- PNG export ----

  /** The states with `visible` of every guide set to `v`: only that flag of the guides
      changes, so the objects that are not guides, those a snapshot records, stay as they are. */
  function WithGuidesVisible(states: seq<ObjectState>, v: bool): (r: seq<ObjectState>)
    ensures |r| == |states|
    ensures forall i :: 0 <= i < |r| ==> r[i] == states[i].(visible := r[i].visible)
    ensures forall i :: 0 <= i < |r| ==> (if states[i].excludeFromExport then r[i].visible == v else r[i] == states[i])
    ensures NonGuides(r) == NonGuides(states)
  {
    var r := seq(|states|, i requires 0 <= i < |states| =>
      if states[i].excludeFromExport then states[i].(visible := v) else states[i]);
    NonGuidesIgnoreGuides(r, states);
    r
  }

  lemma VisibleOfState(p: ObjectState, id: ObjectId, guide: bool, v: bool)
    ensures p.(visible := v).(id := id, excludeFromExport := guide) == p.(id := id, excludeFromExport := guide).(visible := v)
  {
  }

  /** Hiding the guides and showing them again is the same as only showing them: the export
      leaves every guide visible, whatever it was before. */
  lemma GuidesHiddenThenShown(states: seq<ObjectState>, v: bool, w: bool)
    ensures WithGuidesVisible(WithGuidesVisible(states, v), w) == WithGuidesVisible(states, w)
  {
  }

  /** The download name `business-card-<dpi>dpi.png`: the resolution reads back from the text
      between the fixed prefix and suffix. */
  function ExportFileName(d: Dpi): (r: string)
    ensures |r| > 21 && r[..14] == "business-card-" && r[|r| - 7..] == "dpi.png"
    ensures ParseInt(r[14..]) == Some(DpiValue(d) as int)
  {
    var r := "business-card-" + Dec(DpiValue(d)) + "dpi.png";
    Framed("business-card-", Dec(DpiValue(d)), "dpi.png");
    ParseIntDec(DpiValue(d), "dpi.png");
    r
  }

  lemma Framed(p: string, m: string, q: string)
    ensures (p + m + q)[..|p|] == p && (p + m + q)[|p|..] == m + q
    ensures (p + m + q)[|p + m + q| - |q|..] == q
  {
    assert (p + m + q)[|p|..] == m + q;
  }

  /** The arguments of `canvas.toDataURL` and the download name, with the objects as they are
      painted. */
  datatype ExportResult = ExportResult(region: Region, multiplier: nat, painted: seq<ObjectState>, fileName: string)

  /** The selected objects: none, or the active one. */
  function Selection(a: FabricObject?): set<FabricObject>
  {
    if a == null then {} else {a}
  }

  datatype Align = AlignLeft | AlignCenter | AlignRight

  function AlignText(a: Align): string
  {
    match a
    case AlignLeft => "left"
    case AlignCenter => "center"
    case AlignRight => "right"
  }

  class Session {
    const settings: Settings
    /** `canvas.getObjects()`: index 0 is painted first. */
    var objects: seq<FabricObject>
    /** `canvas.getActiveObject()`. */
    var active: FabricObject?
    var undoStack: seq<seq<ObjectState>>
    var redoStack: seq<seq<ObjectState>>
    var objectCounter: nat

    ghost predicate Valid()
      reads this
    {
      Consistent(objects, active, History(), objectCounter)
    }

    function History(): UndoHistory.Stacks<seq<ObjectState>>
      reads this
    {
      UndoHistory.Stacks(undoStack, redoStack)
    }

    /** Page load: the guides are drawn, then the first snapshot (of a canvas without any
        object but the guides) is saved. */
    constructor (settings: Settings)
      ensures Valid() && this.settings == settings
      ensures StatesOf(objects) == GuideStates(settings)
      ensures active == null && objectCounter == 0
      ensures undoStack == [[]] && redoStack == []
    {
      this.settings := settings;
      objects := [];
      active := null;
      undoStack := [];
      redoStack := [];
      objectCounter := 0;
      new;
      CreateGuides();
      GuidesLeaveNoJson(settings);
      SaveState();
    }

    /** `canvas.add`. */
    method Add(o: FabricObject)
      requires Valid() && o !in objects && Issued(o.id, objectCounter)
      modifies this
      ensures Valid() && objects == old(objects) + [o]
      ensures active == old(active) && undoStack == old(undoStack) && redoStack == old(redoStack) && objectCounter == old(objectCounter)
    {
      AppendFresh(objects, o);
      objects := objects + [o];
    }

    /** `canvas.add` of one guide drawn by `createGuides`. */
    method AddGuide(st: ObjectState)
      requires Valid() && IsGuide(st)
      modifies this
      ensures Valid() && StatesOf(objects) == old(StatesOf(objects)) + [st]
      ensures active == old(active) && undoStack == old(undoStack) && redoStack == old(redoStack) && objectCounter == old(objectCounter)
    {
      ghost var before := objects;
      var o := new FabricObject(st);
      assert StatesOf(before) == old(StatesOf(objects));
      Add(o);
      StatesOfAppend(before, o);
    }

    /** The first grid loop: a vertical line at every multiple of the step `dpi / 8` strictly
        inside the canvas width `w`. */
    method AddGridColumns(w: nat, h: nat, dpi: nat)
      requires Valid() && dpi > 0
      modifies this
      ensures Valid() && StatesOf(objects) == old(StatesOf(objects)) + GridColumns(w, h, dpi)
      ensures active == old(active) && undoStack == old(undoStack) && redoStack == old(redoStack) && objectCounter == old(objectCounter)
    {
      var gridSize := dpi as real / 8.0;
      ghost var lines := GridColumns(w, h, dpi);
      ghost var k: nat := 1;
      var i := gridSize;
      while i < w as real
        invariant 1 <= k <= |lines| + 1 && i == GridStop(k, dpi)
        invariant Valid() && StatesOf(objects) == old(StatesOf(objects)) + lines[0..k - 1]
        invariant active == old(active) && undoStack == old(undoStack) && redoStack == old(redoStack) && objectCounter == old(objectCounter)
        decreases |lines| + 1 - k
      {
        GridStopBelow(k, dpi, w);
        assert lines[k - 1] == GridVertical(h, i);
        AddGuide(GridVertical(h, i));
        ExtendSlice(old(StatesOf(objects)), lines, 0, k - 1);
        assert i + gridSize == GridStop(k + 1, dpi);
        i := i + gridSize;
        k := k + 1;
      }
      GridStopBelow(k, dpi, w);
      assert k - 1 == |lines|;
      SliceAll(lines);
    }

    /** The second grid loop: a horizontal line at every multiple of the step strictly inside
        the canvas height `h`. */
    method AddGridRows(w: nat, h: nat, dpi: nat)
      requires Valid() && dpi > 0
      modifies this
      ensures Valid() && StatesOf(objects) == old(StatesOf(objects)) + GridRows(w, h, dpi)
      ensures active == old(active) && undoStack == old(undoStack) && redoStack == old(redoStack) && objectCounter == old(objectCounter)
    {
      var gridSize := dpi as real / 8.0;
      ghost var lines := GridRows(w, h, dpi);
      ghost var k: nat := 1;
      var i := gridSize;
      while i < h as real
        invariant 1 <= k <= |lines| + 1 && i == GridStop(k, dpi)
        invariant Valid() && StatesOf(objects) == old(StatesOf(objects)) + lines[0..k - 1]
        invariant active == old(active) && undoStack == old(undoStack) && redoStack == old(redoStack) && objectCounter == old(objectCounter)
        decreases |lines| + 1 - k
      {
        GridStopBelow(k, dpi, h);
        assert lines[k - 1] == GridHorizontal(w, i);
        AddGuide(GridHorizontal(w, i));
        ExtendSlice(old(StatesOf(objects)), lines, 0, k - 1);
        assert i + gridSize == GridStop(k + 1, dpi);
        i := i + gridSize;
        k := k + 1;
      }
      GridStopBelow(k, dpi, h);
      assert k - 1 == |lines|;
      SliceAll(lines);
    }

    /** `canvas.add` and `canvas.sendToBack` of the bleed rectangle. */
    method AddGuideAtBack(st: ObjectState)
      requires Valid() && IsGuide(st)
      modifies this
      ensures Valid() && StatesOf(objects) == [st] + old(StatesOf(objects))
      ensures active == old(active) && undoStack == old(undoStack) && redoStack == old(redoStack) && objectCounter == old(objectCounter)
    {
      ghost var before := objects;
      var o := new FabricObject(st);
      assert StatesOf(before) == old(StatesOf(objects));
      AddAtBack(o);
      StatesOfPrepend(o, before);
    }

    /** The two centre lines, vertical then horizontal. */
    method AddCenterLines()
      requires Valid()
      modifies this
      ensures Valid() && StatesOf(objects) == old(StatesOf(objects)) + CenterLines(settings)
      ensures active == old(active) && undoStack == old(undoStack) && redoStack == old(redoStack) && objectCounter == old(objectCounter)
    {
      var lines := CenterLines(settings);
      AddGuide(lines[0]);
      AddGuide(lines[1]);
      assert lines == [lines[0]] + [lines[1]];
      AppendAssociates(old(StatesOf(objects)), [lines[0]], [lines[1]]);
    }

    /** Both grid loops, the vertical lines first. */
    method AddGrid(w: nat, h: nat, dpi: nat)
      requires Valid() && dpi > 0
      modifies this
      ensures Valid() && StatesOf(objects) == old(StatesOf(objects)) + Grid(w, h, dpi)
      ensures active == old(active) && undoStack == old(undoStack) && redoStack == old(redoStack) && objectCounter == old(objectCounter)
    {
      AddGridColumns(w, h, dpi);
      AddGridRows(w, h, dpi);
      AppendAssociates(old(StatesOf(objects)), GridColumns(w, h, dpi), GridRows(w, h, dpi));
    }

    /** `createGuides` on the empty canvas: the guides of `GuideStates`, in that paint order. */
    method CreateGuides()
      requires Valid() && objects == []
      modifies this
      ensures Valid() && StatesOf(objects) == GuideStates(settings)
      ensures active == old(active) && undoStack == old(undoStack) && redoStack == old(redoStack) && objectCounter == old(objectCounter)
    {
      ghost var bleed := if settings.showBleed then [BleedRect(settings)] else [];
      ghost var safe := if settings.showSafeZone then [SafeRect(settings)] else [];
      ghost var center := if settings.showCenterGuides then CenterLines(settings) else [];
      ghost var grid := if settings.showGrid then GridLines(settings) else [];
      if settings.showBleed {
        AddGuideAtBack(BleedRect(settings));
      }
      assert StatesOf(objects) == bleed;
      if settings.showSafeZone {
        AddGuide(SafeRect(settings));
      }
      assert StatesOf(objects) == bleed + safe;
      if settings.showCenterGuides {
        AddCenterLines();
      }
      assert StatesOf(objects) == bleed + safe + center;
      if settings.showGrid {
        var canvas := Canvas(settings);
        AddGrid(canvas.w, canvas.h, DpiValue(settings.dpi));
      }
      assert StatesOf(objects) == bleed + safe + center + grid;
    }

    /** `saveState`: push the snapshot, keep at most 20 entries, forget what could be redone. */
    method SaveState()
      requires Valid()
      modifies this
      ensures Valid() && History() == UndoHistory.Save(old(History()), SnapshotOf(objects))
      ensures objects == old(objects) && active == old(active) && objectCounter == old(objectCounter)
      ensures StatesOf(objects) == old(StatesOf(objects))
    {
      var state := SnapshotOf(objects);
      SnapshotWithin(objects);
      PushOk(undoStack, state);
      var stack := undoStack + [state];
      if |stack| > UndoHistory.Limit {
        stack := stack[1..];
      }
      SetHistory(stack, []);
    }

    /** Both stacks are replaced; the canvas is untouched. */
    method SetHistory(undo: seq<seq<ObjectState>>, redo: seq<seq<ObjectState>>)
      requires Consistent(objects, active, UndoHistory.Stacks(undo, redo), objectCounter)
      modifies this
      ensures Valid() && undoStack == undo && redoStack == redo
      ensures objects == old(objects) && active == old(active) && objectCounter == old(objectCounter)
      ensures StatesOf(objects) == old(StatesOf(objects))
    {
      undoStack, redoStack := undo, redo;
    }

    /** `addObjectToCanvas`: add, select, save. */
    method AddObjectToCanvas(o: FabricObject)
      requires Valid() && o !in objects && !o.excludeFromExport && Issued(o.id, objectCounter)
      modifies this
      ensures Valid() && objects == old(objects) + [o] && active == o
      ensures objectCounter == old(objectCounter)
      ensures History() == UndoHistory.Save(old(History()), SnapshotOf(objects))
    {
      Add(o);
      active := o;
      SaveState();
    }

    /** One `objectCounter` step: the identifiers in use and in the history stay handed out. */
    method NextSerial() returns (n: nat)
      requires Valid()
      modifies this
      ensures Valid() && n == objectCounter == old(objectCounter) + 1
      ensures objects == old(objects) && active == old(active) && undoStack == old(undoStack) && redoStack == old(redoStack)
    {
      objectCounter := objectCounter + 1;
      n := objectCounter;
    }

    /** The add-text, add-heading, add-contact, add-rect, add-circle, add-line and add-triangle
        buttons. The new object's id uses the incremented counter, so no object on the canvas
        and no object in the history has it. */
    method AddElement(tool: Tool, input: ToolbarInputs) returns (o: FabricObject)
      requires Valid()
      modifies this
      ensures Valid() && fresh(o)
      ensures objectCounter == old(objectCounter) + 1
      ensures o.State() == CreatedState(tool, settings, input, objectCounter)
      ensures objects == old(objects) + [o] && active == o
      ensures History() == UndoHistory.Save(old(History()), SnapshotOf(objects))
      ensures forall q :: q in old(objects) ==> q.id != o.id
      ensures forall snap, st :: snap in old(undoStack) && st in snap ==> st.id != o.id
      ensures forall snap, st :: snap in old(redoStack) && st in snap ==> st.id != o.id
    {
      var n := NextSerial();
      o := new FabricObject(CreatedState(tool, settings, input, n));
      AddObjectToCanvas(o);
    }

    // ---- Text formatting (no history entry) ----

    /** The bold button. */
    method ToggleBold()
      requires Valid()
      modifies active
      ensures Valid()
      ensures active != null && IsText(old(active.State())) ==>
        active.State() == old(active.State()).(fontWeight := ToggledWeight(old(active.State().fontWeight)))
      ensures active != null && !IsText(old(active.State())) ==> active.State() == old(active.State())
    {
      if active != null && IsText(active.State()) {
        active.props := active.props.(fontWeight := ToggledWeight(active.props.fontWeight));
      }
    }

    /** The italic button. */
    method ToggleItalic()
      requires Valid()
      modifies active
      ensures Valid()
      ensures active != null && IsText(old(active.State())) ==>
        active.State() == old(active.State()).(fontStyle := ToggledStyle(old(active.State().fontStyle)))
      ensures active != null && !IsText(old(active.State())) ==> active.State() == old(active.State())
    {
      if active != null && IsText(active.State()) {
        active.props := active.props.(fontStyle := ToggledStyle(active.props.fontStyle));
      }
    }

    /** The underline button. */
    method ToggleUnderline()
      requires Valid()
      modifies active
      ensures Valid()
      ensures active != null && IsText(old(active.State())) ==>
        active.State() == old(active.State()).(underline := !old(active.State().underline))
      ensures active != null && !IsText(old(active.State())) ==> active.State() == old(active.State())
    {
      if active != null && IsText(active.State()) {
        active.props := active.props.(underline := !active.props.underline);
      }
    }

    /** The three alignment buttons. */
    method SetTextAlign(a: Align)
      requires Valid()
      modifies active
      ensures Valid()
      ensures active != null && IsText(old(active.State())) ==>
        active.State() == old(active.State()).(textAlign := AlignText(a))
      ensures active != null && !IsText(old(active.State())) ==> active.State() == old(active.State())
    {
      if active != null && IsText(active.State()) {
        active.props := active.props.(textAlign := AlignText(a));
      }
    }

    // ---- Layer order ----

    /** The common tail of the four layer buttons: the list is reordered, then saved. */
    method Reorder(reordered: seq<FabricObject>)
      requires Valid() && multiset(reordered) == multiset(objects)
      modifies this
      ensures Valid() && objects == reordered
      ensures active == old(active) && objectCounter == old(objectCounter)
      ensures History() == UndoHistory.Save(old(History()), SnapshotOf(objects))
    {
      PermutationKeepsNoDuplicates(objects, reordered);
      objects := reordered;
      SaveState();
    }

    /** The bring-forward button (`obj.bringForward()`). */
    method BringForward()
      requires Valid()
      modifies this
      ensures Valid() && active == old(active) && objectCounter == old(objectCounter)
      ensures old(active) == null ==> objects == old(objects) && undoStack == old(undoStack) && redoStack == old(redoStack)
      ensures old(active) != null ==>
        && objects == Forward(old(objects), Position(old(objects), old(active)))
        && History() == UndoHistory.Save(old(History()), SnapshotOf(objects))
    {
      if active != null {
        Reorder(Forward(objects, Position(objects, active)));
      }
    }

    /** The send-backward button (`obj.sendBackwards()`). */
    method SendBackwards()
      requires Valid()
      modifies this
      ensures Valid() && active == old(active) && objectCounter == old(objectCounter)
      ensures old(active) == null ==> objects == old(objects) && undoStack == old(undoStack) && redoStack == old(redoStack)
      ensures old(active) != null ==>
        && objects == Backward(old(objects), Position(old(objects), old(active)))
        && History() == UndoHistory.Save(old(History()), SnapshotOf(objects))
    {
      if active != null {
        Reorder(Backward(objects, Position(objects, active)));
      }
    }

    /** The bring-to-front button (`canvas.bringToFront(obj)`). */
    method BringToFront()
      requires Valid()
      modifies this
      ensures Valid() && active == old(active) && objectCounter == old(objectCounter)
      ensures old(active) == null ==> objects == old(objects) && undoStack == old(undoStack) && redoStack == old(redoStack)
      ensures old(active) != null ==>
        && objects == ToFront(old(objects), Position(old(objects), old(active)))
        && objects[|objects| - 1] == active
        && History() == UndoHistory.Save(old(History()), SnapshotOf(objects))
    {
      if active != null {
        Reorder(ToFront(objects, Position(objects, active)));
      }
    }

    /** The send-to-back button (`canvas.sendToBack(obj)`). */
    method SendToBack()
      requires Valid()
      modifies this
      ensures Valid() && active == old(active) && objectCounter == old(objectCounter)
      ensures old(active) == null ==> objects == old(objects) && undoStack == old(undoStack) && redoStack == old(redoStack)
      ensures old(active) != null ==>
        && objects == ToBack(old(objects), Position(old(objects), old(active)))
        && objects[0] == active
        && History() == UndoHistory.Save(old(History()), SnapshotOf(objects))
    {
      if active != null {
        Reorder(ToBack(objects, Position(objects, active)));
      }
    }

    // ---- Duplicate and delete ----

    /** The duplicate button and `duplicateActiveObject`: a copy of the selected object, moved
        by 20 and given the id `<type>_<n>` with the next counter value, is added on top and
        selected; the original is left as it was. The copy's id is on no object of the canvas
        and in no history entry. */
    method Duplicate() returns (copy: FabricObject?)
      requires Valid()
      modifies this
      ensures Valid()
      ensures old(active) == null ==>
        && copy == null && objects == old(objects) && active == null
        && undoStack == old(undoStack) && redoStack == old(redoStack) && objectCounter == old(objectCounter)
      ensures old(active) != null ==>
        && copy != null && fresh(copy)
        && objectCounter == old(objectCounter) + 1
        && copy.State() == DuplicateState(old(active.State()), objectCounter)
        && objects == old(objects) + [copy] && active == copy
        && History() == UndoHistory.Save(old(History()), SnapshotOf(objects))
        && (forall q :: q in old(objects) ==> q.id != copy.id)
        && (forall snap, st :: snap in old(undoStack) && st in snap ==> st.id != copy.id)
        && (forall snap, st :: snap in old(redoStack) && st in snap ==> st.id != copy.id)
    {
      copy := null;
      if active != null {
        var source := active.State();
        var n := NextSerial();
        copy := new FabricObject(DuplicateState(source, n));
        AddObjectToCanvas(copy);
      }
    }

    /** The delete button and `deleteActiveObject`: the selected object leaves the list, the
        others keep their order, and the selection is gone. */
    method Delete()
      requires Valid()
      modifies this
      ensures Valid() && active == null && objectCounter == old(objectCounter)
      ensures old(active) == null ==> objects == old(objects) && undoStack == old(undoStack) && redoStack == old(redoStack)
      ensures old(active) != null ==>
        && objects == Without(old(objects), Selection(old(active)))
        && History() == UndoHistory.Save(old(History()), SnapshotOf(objects))
    {
      if active != null {
        Remove(active);
        SaveState();
      }
    }

    /** `canvas.remove`: the object leaves the list, the others keep their order, and the
        selection is dropped when it was that object. */
    method Remove(o: FabricObject)
      requires Valid() && o in objects
      modifies this
      ensures Valid() && objects == Without(old(objects), {o})
      ensures active == if old(active) == o then null else old(active)
      ensures undoStack == old(undoStack) && redoStack == old(redoStack) && objectCounter == old(objectCounter)
    {
      var i := Position(objects, o);
      RemoveAtIsWithout(objects, i);
      WithoutNoDuplicates(objects, {o});
      objects := objects[..i] + objects[i + 1..];
      if active == o {
        active := null;
      }
    }

    /** `canvas.getObjects().filter(o => o.id === id).forEach(o => canvas.remove(o))`. */
    method RemoveWithId(id: ObjectId)
      requires Valid()
      modifies this
      ensures Valid() && objects == Without(old(objects), set o | o in old(objects) && o.id == id)
      ensures forall o :: o in objects ==> o.id != id
      ensures active == if old(active) != null && old(active).id == id then null else old(active)
      ensures undoStack == old(undoStack) && redoStack == old(redoStack) && objectCounter == old(objectCounter)
    {
      var toRemove := ObjectsWithId(objects, id);
      WithoutNoDuplicates(objects, set o | o in objects && o.id != id);
      assert active != null ==> (active in toRemove <==> active.id == id);
      RemoveEach(toRemove);
      assert (set o | o in toRemove) == set o | o in old(objects) && o.id == id;
    }

    /** `canvas.add(o)` followed by `canvas.sendToBack(o)`. */
    method AddAtBack(o: FabricObject)
      requires Valid() && o !in objects && Issued(o.id, objectCounter)
      modifies this
      ensures Valid() && objects == [o] + old(objects)
      ensures active == old(active) && undoStack == old(undoStack) && redoStack == old(redoStack) && objectCounter == old(objectCounter)
    {
      Add(o);
      ToBackOfLast(old(objects), o);
      var back := ToBack(objects, |objects| - 1);
      PermutationKeepsNoDuplicates(objects, back);
      objects := back;
    }

    /** `toRemove.forEach(o => canvas.remove(o))` for objects of the list, each named once. */
    method RemoveEach(toRemove: seq<FabricObject>)
      requires Valid() && NoDuplicates(toRemove) && forall o :: o in toRemove ==> o in objects
      modifies this
      ensures Valid() && objects == Without(old(objects), set o | o in toRemove)
      ensures active == if old(active) != null && old(active) in toRemove then null else old(active)
      ensures undoStack == old(undoStack) && redoStack == old(redoStack) && objectCounter == old(objectCounter)
    {
      ghost var removed: set<FabricObject> := {};
      WithoutNothing(objects, {});
      for k := 0 to |toRemove|
        invariant removed == set j | 0 <= j < k :: toRemove[j]
        invariant Valid() && objects == Without(old(objects), removed)
        invariant active == if old(active) != null && old(active) in removed then null else old(active)
        invariant undoStack == old(undoStack) && redoStack == old(redoStack) && objectCounter == old(objectCounter)
      {
        var o := toRemove[k];
        RemovedOneMore(old(objects), toRemove, k, removed);
        Remove(o);
        removed := removed + {o};
      }
      assert removed == set o | o in toRemove;
    }

    // ---- History ----

    /** The undo button: the live snapshot goes onto the redo stack and the canvas is rebuilt
        from the top of the undo stack, without guides and without a selection; the rebuilt
        objects have no id and no lock, and are all selectable. */
    method Undo()
      requires Valid()
      modifies this
      ensures Valid() && objectCounter == old(objectCounter)
      ensures History() == UndoHistory.Undo(old(History()), old(SnapshotOf(objects))).stacks
      ensures old(undoStack) == [] ==> objects == old(objects) && active == old(active)
      ensures old(undoStack) != [] ==>
        && StatesOf(objects) == UndoHistory.Undo(old(History()), old(SnapshotOf(objects))).live
        && SnapshotOf(objects) == StatesOf(objects) && active == null
        && forall o :: o in objects ==> o.id == NoId && !Locked(o.State()) && o.State().selectable
    {
      if undoStack != [] {
        var live := SnapshotOf(objects);
        ghost var h := History();
        SnapshotWithin(objects);
        var state := undoStack[|undoStack| - 1];
        redoStack := redoStack + [live];
        undoStack := undoStack[..|undoStack| - 1];
        objects := LoadFromJson(state);
        active := null;
        StepKeepsConsistent(old(objects), old(active), h, objectCounter, live, objects, true);
        assert History() == UndoHistory.Undo(h, live).stacks;
      }
    }

    /** The redo button, the mirror image of `Undo`. */
    method Redo()
      requires Valid()
      modifies this
      ensures Valid() && objectCounter == old(objectCounter)
      ensures History() == UndoHistory.Redo(old(History()), old(SnapshotOf(objects))).stacks
      ensures old(redoStack) == [] ==> objects == old(objects) && active == old(active)
      ensures old(redoStack) != [] ==>
        && StatesOf(objects) == UndoHistory.Redo(old(History()), old(SnapshotOf(objects))).live
        && SnapshotOf(objects) == StatesOf(objects) && active == null
        && forall o :: o in objects ==> o.id == NoId && !Locked(o.State()) && o.State().selectable
    {
      if redoStack != [] {
        var live := SnapshotOf(objects);
        ghost var h := History();
        SnapshotWithin(objects);
        var state := redoStack[|redoStack| - 1];
        undoStack := undoStack + [live];
        redoStack := redoStack[..|redoStack| - 1];
        objects := LoadFromJson(state);
        active := null;
        StepKeepsConsistent(old(objects), old(active), h, objectCounter, live, objects, false);
        assert History() == UndoHistory.Redo(h, live).stacks;
      }
    }

    /** The clear-all button, once confirmed: only fresh guides remain, and the saved snapshot
        is empty. The counter is not reset. */
    method ClearAll(confirmed: bool)
      requires Valid()
      modifies this
      ensures Valid() && objectCounter == old(objectCounter)
      ensures !confirmed ==> objects == old(objects) && active == old(active) && undoStack == old(undoStack) && redoStack == old(redoStack)
      ensures confirmed ==>
        && StatesOf(objects) == GuideStates(settings) && SnapshotOf(objects) == [] && active == null
        && History() == UndoHistory.Save(old(History()), [])
    {
      if confirmed {
        ResetToGuides();
        SaveState();
      }
    }

    /** `canvas.clear()` followed by `createGuides()`. */
    method ResetToGuides()
      requires Valid()
      modifies this
      ensures Valid() && StatesOf(objects) == GuideStates(settings) && SnapshotOf(objects) == [] && active == null
      ensures undoStack == old(undoStack) && redoStack == old(redoStack) && objectCounter == old(objectCounter)
    {
      objects, active := [], null;
      CreateGuides();
      GuidesLeaveNoJson(settings);
    }

    // ---- Export ----

    /** `guides.forEach(guide => guide.visible = v)`, where `guides` are exactly the guides on
        the canvas: every guide gets `visible == v`, and nothing else changes. */
    method SetGuidesVisible(guides: seq<FabricObject>, v: bool)
      requires Valid() && NoDuplicates(guides)
      requires forall o :: o in guides ==> o in objects
      requires forall o :: o in objects ==> (o in guides <==> o.excludeFromExport)
      modifies set g | g in guides
      ensures Valid() && StatesOf(objects) == WithGuidesVisible(old(StatesOf(objects)), v)
      ensures objects == old(objects) && active == old(active)
      ensures undoStack == old(undoStack) && redoStack == old(redoStack) && objectCounter == old(objectCounter)
    {
      for k := 0 to |guides|
        invariant forall j :: 0 <= j < |guides| ==>
          guides[j].props == if j < k then old(guides[j].props).(visible := v) else old(guides[j].props)
      {
        guides[k].props := guides[k].props.(visible := v);
        forall j | 0 <= j < |guides| && j != k ensures guides[j] != guides[k] {
          assert Distinct(guides, j, k) || Distinct(guides, k, j);
        }
      }
      var os := objects;
      forall i | 0 <= i < |os| ensures StatesOf(os)[i] == WithGuidesVisible(old(StatesOf(os)), v)[i] {
        if os[i].excludeFromExport {
          var j :| 0 <= j < |guides| && guides[j] == os[i];
        }
        VisibleOfState(old(os[i].props), os[i].id, os[i].excludeFromExport, v);
      }
    }

    /** `canvas.discardActiveObject()`: no object is selected any more; the objects are untouched. */
    method DiscardActiveObject()
      requires Valid()
      modifies this
      ensures Valid() && active == null && StatesOf(objects) == old(StatesOf(objects))
      ensures objects == old(objects) && undoStack == old(undoStack) && redoStack == old(redoStack) && objectCounter == old(objectCounter)
    {
      active := null;
    }

    /** The export-png button: guides are hidden and the selection dropped while the crop
        region is requested from `toDataURL` in canvas pixels at multiplier 1, then every guide
        is shown again. No other object changes and no history entry is made. The request
        gives the region pixel for pixel only at display zoom 1
        (`CardGeometry.AsWrittenExactOnlyAtZoomOne`). */
    method ExportPng() returns (r: ExportResult)
      requires Valid()
      modifies this, objects
      ensures Valid()
      ensures r.region == ExportRegion(Trim(settings), Bleed(settings), settings.includeBleed)
      ensures r.multiplier == 1 && r.fileName == ExportFileName(settings.dpi)
      ensures r.painted == WithGuidesVisible(old(StatesOf(objects)), false)
      ensures objects == old(objects) && active == null
      ensures undoStack == old(undoStack) && redoStack == old(redoStack) && objectCounter == old(objectCounter)
      ensures StatesOf(objects) == WithGuidesVisible(old(StatesOf(objects)), true)
      ensures SnapshotOf(objects) == old(SnapshotOf(objects))
    {
      var os := objects;
      ghost var before := StatesOf(os);
      var guides := GuideObjects(os);
      WithoutNoDuplicates(os, set o | o in os && !o.excludeFromExport);
      SetGuidesVisible(guides, false);
      DiscardActiveObject();
      var region := ExportRegion(Trim(settings), Bleed(settings), settings.includeBleed);
      r := ExportResult(region, 1, StatesOf(os), ExportFileName(settings.dpi));
      SetGuidesVisible(guides, true);
      GuidesHiddenThenShown(before, false, true);
    }

    // ---- Properties panel and layer panel ----

    /** `updateObjectProperty`: fill and stroke take the raw text, the others
        `parseFloat(value) || value`; no clamping, locks are not consulted, and a history entry
        is made. */
    method UpdateObjectProperty(prop: Prop, value: string)
      requires Valid()
      modifies this, active
      ensures Valid() && objects == old(objects) && active == old(active)
      ensures objectCounter == old(objectCounter)
      ensures old(active) == null ==> undoStack == old(undoStack) && redoStack == old(redoStack)
      ensures old(active) != null ==>
        && active.State() == WithProperty(old(active.State()), prop, value)
        && History() == UndoHistory.Save(old(History()), SnapshotOf(objects))
    {
      if active != null {
        active.SetProperty(prop, value);
        SaveState();
      }
    }

    /** The eye button of a layer row: flips `visible` of the first object whose id is `key`;
        no history entry. */
    method ToggleObjectVisibility(key: string)
      requires Valid()
      modifies objects
      ensures Valid()
      ensures FindById(objects, key).None? ==> forall q :: q in objects ==> q.State() == old(q.State())
      ensures FindById(objects, key).Some? ==>
        var o := objects[FindById(objects, key).value];
        && o.State() == old(o.State()).(visible := !old(o.State().visible))
        && forall q :: q in objects && q != o ==> q.State() == old(q.State())
    {
      match FindById(objects, key)
      case None =>
      case Some(k) =>
        var o := objects[k];
        o.props := o.props.(visible := !o.props.visible);
    }

    /** The padlock button of a layer row: all five lock flags of the first object whose id is
        `key` become the negation of its old `lockMovementX`; no history entry. */
    method LockObject(key: string)
      requires Valid()
      modifies objects
      ensures Valid()
      ensures FindById(objects, key).None? ==> forall q :: q in objects ==> q.State() == old(q.State())
      ensures FindById(objects, key).Some? ==>
        var o := objects[FindById(objects, key).value];
        && o.State() == Relocked(old(o.State()))
        && forall q :: q in objects && q != o ==> q.State() == old(q.State())
    {
      match FindById(objects, key)
      case None =>
      case Some(k) =>
        var o := objects[k];
        o.Relock();
    }

    /** Clicking row `k` of the layer panel selects the object that row describes. */
    method SelectLayerRow(k: nat)
      requires Valid() && k < |NonGuideObjects(objects)|
      modifies this
      ensures Valid() && objects == old(objects) && undoStack == old(undoStack) && redoStack == old(redoStack)
      ensures objectCounter == old(objectCounter)
      ensures active == ObjectInRow(objects, k) && RowShows(objects, k, active)
    {
      LayerRowOfObject(objects, k);
      active := ObjectInRow(objects, k);
    }

    /** The status bar's object count: the number of objects that are not guides, which is
        also the number of layer-panel rows. */
    function StatusText(): (t: string)
      reads this, objects
      ensures t == ObjectCountText(|NonGuideObjects(objects)|)
      ensures t == ObjectCountText(|LayerRows(StatesOf(objects))|)
    {
      NonGuideObjectStates(objects);
      ObjectCountText(|SnapshotOf(objects)|)
    }

    // ---- Background image ----

    /** `setBackgroundFromDataUrl` once the image of natural size width x height has loaded:
        nothing for an empty data URL; otherwise every object with the id `background_image`
        is removed (dropping the selection if it was one of them), and the new cover-fitted
        image is added and sent to the back. */
    method SetBackgroundFromDataUrl(dataUrl: string, width: nat, height: nat, opacity: real) returns (img: FabricObject?)
      requires Valid() && width > 0 && height > 0
      modifies this
      ensures Valid() && objectCounter == old(objectCounter)
      ensures dataUrl == [] ==>
        img == null && objects == old(objects) && active == old(active) && undoStack == old(undoStack) && redoStack == old(redoStack)
      ensures dataUrl != [] ==>
        && img != null && fresh(img)
        && img.State() == BackgroundState(settings, width, height, opacity)
        && objects == [img] + Without(old(objects), set o | o in old(objects) && o.id == BackgroundId)
        && (forall i :: 1 <= i < |objects| ==> objects[i].id != BackgroundId)
        && active == (if old(active) != null && old(active).id == BackgroundId then null else old(active))
        && History() == UndoHistory.Save(old(History()), SnapshotOf(objects))
    {
      if dataUrl == [] {
        img := null;
        return;
      }
      img := new FabricObject(BackgroundState(settings, width, height, opacity));
      RemoveWithId(BackgroundId);
      AddAtBack(img);
      SaveState();
    }
  }
}
