/** Canvas objects: their identifiers, their properties as a value (`ObjectState`, which is
    also what a history snapshot keeps of each object), the mutable Fabric.js object that
    carries them, and the read-only views the page derives from the object list (the layer
    panel and the status bar's object count). */
module Scene {
  import opened JsText
  import opened Stacking

  /** The `id` property: absent on guides, `background_image` on the background, and
      `<prefix>_<n>` for everything made with the next value of `objectCounter`. */
  datatype ObjectId = NoId | BackgroundId | Serial(prefix: string, n: nat)

  function IdText(id: ObjectId): Option<string>
  {
    match id
    case NoId => None
    case BackgroundId => Some("background_image")
    case Serial(p, n) => Some(p + "_" + Dec(n))
  }

  /** A prefix the page uses in front of a counter value: it contains no underscore. */
  predicate PlainPrefix(p: string) { '_' !in p }

  lemma SplitAtUnderscore(p1: string, d1: string, p2: string, d2: string)
    requires PlainPrefix(p1) && PlainPrefix(p2) && AllDigits(d1) && AllDigits(d2)
    requires p1 + "_" + d1 == p2 + "_" + d2
    ensures p1 == p2 && d1 == d2
  {
    var s := p1 + "_" + d1;
    UnderscoreAfterPrefix(p1, d1);
    UnderscoreAfterPrefix(p2, d2);
    assert |p1| == |p2|;
    assert s[..|p1|] == p1 && s[..|p2|] == p2;
    assert s[|p1| + 1..] == d1 && s[|p2| + 1..] == d2;
  }

  /** In `p_d` the first underscore is the one right after the prefix. */
  lemma UnderscoreAfterPrefix(p: string, d: string)
    requires PlainPrefix(p)
    ensures forall i :: 0 <= i < |p| ==> (p + "_" + d)[i] != '_'
    ensures (p + "_" + d)[|p|] == '_'
  {
    forall i | 0 <= i < |p| ensures (p + "_" + d)[i] != '_' {
      assert (p + "_" + d)[i] == p[i];
    }
  }

  /** Distinct identifiers have distinct texts, so looking an object up by its text finds the
      object with that identifier. */
  lemma IdTextInjective(a: ObjectId, b: ObjectId)
    requires a.Serial? ==> PlainPrefix(a.prefix)
    requires b.Serial? ==> PlainPrefix(b.prefix)
    requires IdText(a) == IdText(b)
    ensures a == b
  {
    match a
    case NoId =>
    case BackgroundId =>
      if b.Serial? {
        SerialEndsInDigit(b.prefix, b.n);
      }
    case Serial(p, n) =>
      SerialEndsInDigit(p, n);
      if b.Serial? {
        SplitAtUnderscore(p, Dec(n), b.prefix, Dec(b.n));
        DecInjective(n, b.n);
      }
  }

  /** The text of a counter identifier ends in a digit, unlike `background_image`. */
  lemma SerialEndsInDigit(p: string, n: nat)
    ensures var t := p + "_" + Dec(n); |t| > 0 && IsDigit(t[|t| - 1])
  {
    var t := p + "_" + Dec(n);
    assert t[|t| - 1] == Dec(n)[|Dec(n)| - 1];
  }

  /** The kind of object with its kind-specific geometry (Fabric's `type`). */
  datatype Shape =
    | TextBox(text: string)
    | RectShape(width: real, height: real, rx: real, ry: real)
    | CircleShape(radius: real)
    | LineShape(x1: real, y1: real, x2: real, y2: real)
    | TriangleShape(width: real, height: real)
    | ImageShape(naturalWidth: nat, naturalHeight: nat)

  function TypeName(s: Shape): (t: string)
    ensures PlainPrefix(t)
  {
    match s
    case TextBox(_) => "i-text"
    case RectShape(_, _, _, _) => "rect"
    case CircleShape(_) => "circle"
    case LineShape(_, _, _, _) => "line"
    case TriangleShape(_, _) => "triangle"
    case ImageShape(_, _) => "image"
  }

  /** Every property of a canvas object the editor reads or writes. */
  datatype ObjectState = ObjectState(
    shape: Shape,
    id: ObjectId,
    excludeFromExport: bool,
    selectable: bool,
    evented: bool,
    scale: real,
    left: PropValue,
    top: PropValue,
    angle: PropValue,
    opacity: PropValue,
    fontSize: PropValue,
    fill: string,
    stroke: string,
    strokeWidth: PropValue,
    fontFamily: PropValue,
    fontWeight: string,
    fontStyle: string,
    underline: bool,
    textAlign: string,
    visible: bool,
    lockMovementX: bool,
    lockMovementY: bool,
    lockScalingX: bool,
    lockScalingY: bool,
    lockRotation: bool)

  /** A new object with Fabric's defaults for everything its constructor call leaves out. */
  function Plain(shape: Shape, id: ObjectId, left: real, top: real): (st: ObjectState)
    ensures st.visible && !st.excludeFromExport && st.selectable && !Locked(st)
  {
    ObjectState(shape, id, false, true, true, 1.0, Num(left), Num(top), Num(0.0), Num(1.0), Num(40.0),
      "rgb(0,0,0)", "", Num(1.0), Str("Times New Roman"), "normal", "normal", false, "left", true,
      false, false, false, false, false)
  }

  predicate Locked(st: ObjectState) { st.lockMovementX }

  predicate IsText(st: ObjectState) { st.shape.TextBox? }

  /** The five lock flags: `lockObject` sets all of them to the same value. */
  predicate LockFlagsAre(st: ObjectState, locked: bool)
  {
    && st.lockMovementX == locked && st.lockMovementY == locked
    && st.lockScalingX == locked && st.lockScalingY == locked && st.lockRotation == locked
  }

  // ---- Property edits, as functions on the object's state ----

  /** The bold button flips `fontWeight` between 'bold' and 'normal'. */
  function ToggledWeight(w: string): (r: string)
    ensures r == "bold" || r == "normal"
    ensures r == "bold" <==> w != "bold"
  {
    if w == "bold" then "normal" else "bold"
  }

  /** The italic button flips `fontStyle` between 'italic' and 'normal'. */
  function ToggledStyle(s: string): (r: string)
    ensures r == "italic" || r == "normal"
    ensures r == "italic" <==> s != "italic"
  {
    if s == "italic" then "normal" else "italic"
  }

  /** Pressing bold (italic) twice gives back any weight (style) one press can produce. */
  lemma TogglesInvolutive(w: string, s: string)
    requires w == "bold" || w == "normal"
    requires s == "italic" || s == "normal"
    ensures ToggledWeight(ToggledWeight(w)) == w
    ensures ToggledStyle(ToggledStyle(s)) == s
  {
  }

  /** The properties the properties panel edits through `updateObjectProperty`. */
  datatype Prop = Left | Top | Angle | Opacity | FontSize | Fill | FontFamily | Stroke | StrokeWidth

  /** The current value of a property as the panel would write it back. */
  function Get(st: ObjectState, p: Prop): PropValue
  {
    match p
    case Left => st.left
    case Top => st.top
    case Angle => st.angle
    case Opacity => st.opacity
    case FontSize => st.fontSize
    case Fill => Str(st.fill)
    case FontFamily => st.fontFamily
    case Stroke => Str(st.stroke)
    case StrokeWidth => st.strokeWidth
  }

  /** `updateObjectProperty(prop, value)` on one object: fill and stroke take the raw text, every
      other property `parseFloat(value) || value`. Nothing is clamped and locks are not
      consulted. */
  function WithProperty(st: ObjectState, p: Prop, value: string): (r: ObjectState)
    ensures Get(r, p) == if p == Fill || p == Stroke then Str(value) else NumberOrText(value)
    ensures r.shape == st.shape && r.id == st.id && r.excludeFromExport == st.excludeFromExport
    ensures r.visible == st.visible && Locked(r) == Locked(st)
    ensures r.fontWeight == st.fontWeight && r.fontStyle == st.fontStyle && r.underline == st.underline
  {
    var v := NumberOrText(value);
    match p
    case Fill => st.(fill := value)
    case Stroke => st.(stroke := value)
    case Left => st.(left := v)
    case Top => st.(top := v)
    case Angle => st.(angle := v)
    case Opacity => st.(opacity := v)
    case FontSize => st.(fontSize := v)
    case FontFamily => st.(fontFamily := v)
    case StrokeWidth => st.(strokeWidth := v)
  }

  /** Setting one property leaves every other panel property as it was. */
  lemma WithPropertyKeepsOthers(st: ObjectState, p: Prop, value: string, q: Prop)
    requires q != p
    ensures Get(WithProperty(st, p, value), q) == Get(st, q)
  {
    match p {
      case Fill => assert WithProperty(st, p, value) == st.(fill := value);
      case Stroke => assert WithProperty(st, p, value) == st.(stroke := value);
      case Left => assert WithProperty(st, p, value) == st.(left := NumberOrText(value));
      case Top => assert WithProperty(st, p, value) == st.(top := NumberOrText(value));
      case Angle => assert WithProperty(st, p, value) == st.(angle := NumberOrText(value));
      case Opacity => assert WithProperty(st, p, value) == st.(opacity := NumberOrText(value));
      case FontSize => assert WithProperty(st, p, value) == st.(fontSize := NumberOrText(value));
      case FontFamily => assert WithProperty(st, p, value) == st.(fontFamily := NumberOrText(value));
      case StrokeWidth => assert WithProperty(st, p, value) == st.(strokeWidth := NumberOrText(value));
    }
  }

  /** `lockObject`: every lock flag becomes the negation of the old `lockMovementX`. */
  function Relocked(st: ObjectState): (r: ObjectState)
    ensures LockFlagsAre(r, !Locked(st))
    ensures r.(lockMovementX := st.lockMovementX, lockMovementY := st.lockMovementY,
               lockScalingX := st.lockScalingX, lockScalingY := st.lockScalingY,
               lockRotation := st.lockRotation) == st
  {
    var locked := !st.lockMovementX;
    st.(lockMovementX := locked, lockMovementY := locked, lockScalingX := locked,
        lockScalingY := locked, lockRotation := locked)
  }

  /** Locking twice leaves the object unlocked-or-locked as a single press found it, with all
      flags agreeing. */
  lemma RelockTwice(st: ObjectState)
    requires LockFlagsAre(st, Locked(st))
    ensures Relocked(Relocked(st)) == st
  {
  }

  // ---- The mutable Fabric.js object ----

  /** A Fabric.js object on the canvas. Its identifier and its guide flag are fixed when the
      page builds it; every other property sits in `props`, which `obj.set(...)` and the
      handlers' direct assignments overwrite. */
  class FabricObject {
    const id: ObjectId
    const excludeFromExport: bool
    var props: ObjectState

    /** The object's properties, its fixed identifier and guide flag included. */
    function State(): (st: ObjectState)
      reads this
      ensures st.id == id && st.excludeFromExport == excludeFromExport
    {
      props.(id := id, excludeFromExport := excludeFromExport)
    }

    constructor (st: ObjectState)
      ensures State() == st
    {
      id, excludeFromExport, props := st.id, st.excludeFromExport, st;
    }

    /** `obj.set(prop, value)` as `updateObjectProperty` calls it. */
    method SetProperty(p: Prop, value: string)
      modifies this
      ensures State() == WithProperty(old(State()), p, value)
    {
      props := WithProperty(props, p, value);
    }

    /** `lockObject` on this object: all five lock flags take the negation of `lockMovementX`. */
    method Relock()
      modifies this
      ensures State() == Relocked(old(State()))
    {
      props := Relocked(props);
    }
  }

  // ---- Writing an object out and reading it back ----

  /** The shape as `toObject` writes it: the width and height of rectangles and triangles go
      through `toFixed(v, 2)`. */
  function RoundedShape(s: Shape): (r: Shape)
    ensures TypeName(r) == TypeName(s)
  {
    if s.RectShape? || s.TriangleShape? then s.(width := Round2(s.width), height := Round2(s.height))
    else s
  }

  /** What survives an object's trip through Fabric's `toObject` and back through `fromObject`,
      the path of `obj.clone`, `canvas.toJSON` and `canvas.loadFromJSON`. The `id`,
      `selectable`, `evented`, `excludeFromExport` and lock properties are not written out, so
      they come back with Fabric's defaults; the position, angle, opacity, stroke width, scale
      and rectangle or triangle size are written through `toFixed(v, 2)`, so a position held
      as text comes back as a number (or NaN); every other property is kept. */
  function JsonOf(st: ObjectState): (r: ObjectState)
    ensures r.id == NoId && !r.excludeFromExport && r.selectable && r.evented && LockFlagsAre(r, false)
    ensures r.left == Fixed2(st.left) && r.top == Fixed2(st.top) && r.angle == Fixed2(st.angle)
    ensures r.opacity == Fixed2(st.opacity) && r.strokeWidth == Fixed2(st.strokeWidth)
    ensures TypeName(r.shape) == TypeName(st.shape) && r.scale == Round2(st.scale)
    ensures r.visible == st.visible && r.fill == st.fill && r.stroke == st.stroke
    ensures r.fontSize == st.fontSize && r.fontFamily == st.fontFamily && r.fontWeight == st.fontWeight
    ensures r.fontStyle == st.fontStyle && r.underline == st.underline && r.textAlign == st.textAlign
  {
    st.(shape := RoundedShape(st.shape), id := NoId, excludeFromExport := false,
        selectable := true, evented := true, scale := Round2(st.scale),
        left := Fixed2(st.left), top := Fixed2(st.top), angle := Fixed2(st.angle),
        opacity := Fixed2(st.opacity), strokeWidth := Fixed2(st.strokeWidth),
        lockMovementX := false, lockMovementY := false, lockScalingX := false,
        lockScalingY := false, lockRotation := false)
  }

  /** A state exactly as `loadFromJSON` rebuilds it: writing it out again changes nothing. */
  predicate Serialized(st: ObjectState) { JsonOf(st) == st }

  /** A written-out object is written out again unchanged, so rebuilding the canvas from a
      snapshot and taking a new snapshot gives the same snapshot. */
  lemma JsonOfIdempotent(st: ObjectState)
    ensures Serialized(JsonOf(st))
  {
    Fixed2Idempotent(st.left);
    Fixed2Idempotent(st.top);
    Fixed2Idempotent(st.angle);
    Fixed2Idempotent(st.opacity);
    Fixed2Idempotent(st.strokeWidth);
    Round2Idempotent(st.scale);
    if st.shape.RectShape? || st.shape.TriangleShape? {
      Round2Idempotent(st.shape.width);
      Round2Idempotent(st.shape.height);
    }
  }

  /** A position typed as 0 is held as the text "0" and written out as the number 0; a lock
      is not written out at all. */
  lemma JsonOfTypedZero(st: ObjectState)
    requires st.left == Str("0") && Locked(st)
    ensures JsonOf(st).left == Num(0.0) && !Locked(JsonOf(st))
  {
    TextToNumberBlank();
    assert Round2(0.0) == 0.0;
  }

  /** `JsonOf` on every state of a list. */
  function JsonAll(states: seq<ObjectState>): (r: seq<ObjectState>)
    ensures |r| == |states| && forall i :: 0 <= i < |r| ==> r[i] == JsonOf(states[i])
  {
    seq(|states|, i requires 0 <= i < |states| => JsonOf(states[i]))
  }

  // ---- Object lists ----

  /** The states of all objects, in paint order. */
  function StatesOf(os: seq<FabricObject>): (r: seq<ObjectState>)
    reads os
    ensures |r| == |os| && forall i :: 0 <= i < |os| ==> r[i] == os[i].State()
  {
    seq(|os|, i reads os requires 0 <= i < |os| => os[i].State())
  }

  /** `canvas.toJSON()` as the history sees it: the objects that are not excluded from export,
      in paint order, each as `toObject` writes it out. */
  function SnapshotOf(os: seq<FabricObject>): (r: seq<ObjectState>)
    reads os
    ensures |r| == |NonGuides(StatesOf(os))| <= |os|
    ensures forall i :: 0 <= i < |r| ==> Serialized(r[i]) && !r[i].excludeFromExport && r[i].id == NoId
  {
    var objs := NonGuides(StatesOf(os));
    var r := JsonAll(objs);
    assert forall i :: 0 <= i < |r| ==> Serialized(r[i]) by {
      forall i | 0 <= i < |r| ensures Serialized(r[i]) {
        JsonOfIdempotent(objs[i]);
      }
    }
    r
  }

  /** The same filter on values. */
  function NonGuides(states: seq<ObjectState>): (r: seq<ObjectState>)
    ensures |r| <= |states|
    ensures forall i :: 0 <= i < |r| ==> !r[i].excludeFromExport
    ensures forall st :: st in r ==> st in states
  {
    if states == [] then []
    else if states[0].excludeFromExport then NonGuides(states[1..])
    else [states[0]] + NonGuides(states[1..])
  }

  lemma {:induction false} NonGuidesAppend(a: seq<ObjectState>, b: seq<ObjectState>)
    ensures NonGuides(a + b) == NonGuides(a) + NonGuides(b)
  {
    if a == [] {
      assert a + b == b;
    } else {
      assert (a + b)[1..] == a[1..] + b;
      NonGuidesAppend(a[1..], b);
    }
  }

  lemma {:induction false} NonGuidesOfGuides(a: seq<ObjectState>)
    requires forall i :: 0 <= i < |a| ==> a[i].excludeFromExport
    ensures NonGuides(a) == []
  {
    if a != [] {
      NonGuidesOfGuides(a[1..]);
    }
  }

  lemma {:induction false} NonGuidesOfNone(a: seq<ObjectState>)
    requires forall i :: 0 <= i < |a| ==> !a[i].excludeFromExport
    ensures NonGuides(a) == a
  {
    if a != [] {
      NonGuidesOfNone(a[1..]);
    }
  }

  /** Every state a snapshot records is one of the objects that are not guides, written out. */
  lemma SnapshotMembers(os: seq<FabricObject>, st: ObjectState)
    requires st in SnapshotOf(os)
    ensures exists o :: o in os && !o.excludeFromExport && JsonOf(o.State()) == st
  {
    var objs := NonGuides(StatesOf(os));
    var r := SnapshotOf(os);
    var k :| 0 <= k < |r| && r[k] == st;
    assert objs[k] in objs;
    var i :| 0 <= i < |os| && StatesOf(os)[i] == objs[k];
    assert os[i] in os;
  }

  lemma StatesOfAppend(os: seq<FabricObject>, o: FabricObject)
    ensures StatesOf(os + [o]) == StatesOf(os) + [o.State()]
  {
    var all := os + [o];
    forall i | 0 <= i < |all| ensures StatesOf(all)[i] == (StatesOf(os) + [o.State()])[i] {
      if i < |os| {
        assert all[i] == os[i];
      }
    }
  }

  lemma StatesOfPrepend(o: FabricObject, os: seq<FabricObject>)
    ensures StatesOf([o] + os) == [o.State()] + StatesOf(os)
  {
    var all := [o] + os;
    forall i | 0 <= i < |all| ensures StatesOf(all)[i] == ([o.State()] + StatesOf(os))[i] {
      if i > 0 {
        assert all[i] == os[i - 1];
      }
    }
  }

  /** `getObjects().filter(obj => obj.excludeFromExport)`: the guides, in paint order. */
  function GuideObjects(os: seq<FabricObject>): (r: seq<FabricObject>)
    ensures forall o :: o in r ==> o in os && o.excludeFromExport
    ensures forall o :: o in os && o.excludeFromExport ==> o in r
  {
    Without(os, set o | o in os && !o.excludeFromExport)
  }

  /** `getObjects().filter(obj => !obj.excludeFromExport)`: everything but the guides. */
  function NonGuideObjects(os: seq<FabricObject>): (r: seq<FabricObject>)
    ensures forall o :: o in r ==> o in os && !o.excludeFromExport
    ensures forall o :: o in os && !o.excludeFromExport ==> o in r
  {
    Without(os, set o | o in os && o.excludeFromExport)
  }

  /** `getObjects().filter(o => o.id === id)`. */
  function ObjectsWithId(os: seq<FabricObject>, id: ObjectId): (r: seq<FabricObject>)
    ensures forall o :: o in r ==> o in os && o.id == id
    ensures forall o :: o in os && o.id == id ==> o in r
  {
    Without(os, set o | o in os && o.id != id)
  }

  /** Taking out a set that holds exactly the guides of the list leaves the states of the
      objects that are not guides. */
  lemma {:induction false} StatesWithoutGuides(os: seq<FabricObject>, guides: set<FabricObject>)
    requires forall o :: o in os ==> (o in guides <==> o.excludeFromExport)
    ensures StatesOf(Without(os, guides)) == NonGuides(StatesOf(os))
  {
    if os != [] {
      var o, rest := os[0], os[1..];
      var states := StatesOf(os);
      assert states[0] == o.State() && states[1..] == StatesOf(rest) by {
        assert os == [o] + rest;
        StatesOfPrepend(o, rest);
      }
      StatesWithoutGuides(rest, guides);
      if o !in guides {
        StatesOfPrepend(o, Without(rest, guides));
      }
    }
  }

  /** The layer panel lists the states of exactly the objects `NonGuideObjects` keeps, and a
      snapshot records those objects, written out. */
  lemma NonGuideObjectStates(os: seq<FabricObject>)
    ensures StatesOf(NonGuideObjects(os)) == NonGuides(StatesOf(os))
    ensures SnapshotOf(os) == JsonAll(StatesOf(NonGuideObjects(os)))
  {
    StatesWithoutGuides(os, set o | o in os && o.excludeFromExport);
  }

  /** `getObjects().find(o => o.id === key)`: the first object whose id is the text `key`. */
  function FindById(os: seq<FabricObject>, key: string): (k: Option<nat>)
    ensures k.None? <==> forall j :: 0 <= j < |os| ==> IdText(os[j].id) != Some(key)
    ensures k.Some? ==> k.value < |os| && IdText(os[k.value].id) == Some(key)
    ensures k.Some? ==> forall j :: 0 <= j < k.value ==> IdText(os[j].id) != Some(key)
  {
    if os == [] then None
    else if IdText(os[0].id) == Some(key) then Some(0)
    else match FindById(os[1..], key)
      case None => None
      case Some(k) => Some(k + 1)
  }

  /** The part of a list that is not guides does not depend on the guides' properties. */
  lemma {:induction false} NonGuidesIgnoreGuides(a: seq<ObjectState>, b: seq<ObjectState>)
    requires |a| == |b|
    requires forall i :: 0 <= i < |a| ==> a[i].excludeFromExport == b[i].excludeFromExport
    requires forall i :: 0 <= i < |a| && !a[i].excludeFromExport ==> a[i] == b[i]
    ensures NonGuides(a) == NonGuides(b)
  {
    if a != [] {
      NonGuidesIgnoreGuides(a[1..], b[1..]);
    }
  }

  // ---- Layer panel and status bar ----

  /** One entry of the layer panel: its label, the closed-eye icon for `visible === false`
      and the padlock for `lockMovementX`. */
  datatype LayerRow = LayerRow(caption: string, hidden: bool, locked: bool)

  /** The label text `${obj.id || obj.type || 'Object'} ${index + 1}`; every object has a
      type. It is a name (the id text, or the type for an object without id), a space and the
      row number. */
  function RowLabel(st: ObjectState, index: nat): (r: string)
    ensures var d := Dec(index + 1);
      && |r| > |d| + 1 && r[|r| - |d|..] == d && r[|r| - |d| - 1] == ' '
      && r[..|r| - |d| - 1] == if st.id == NoId then TypeName(st.shape) else IdText(st.id).value
  {
    var name := match IdText(st.id) case Some(t) => (if t == "" then TypeName(st.shape) else t) case None => TypeName(st.shape);
    name + " " + Dec(index + 1)
  }

  /** Rows at different positions never carry the same label, whatever objects they show: the
      number after the last space tells them apart. */
  lemma RowLabelsDiffer(a: ObjectState, b: ObjectState, i: nat, j: nat)
    requires i != j
    ensures RowLabel(a, i) != RowLabel(b, j)
  {
    if Dec(i + 1) == Dec(j + 1) {
      DecInjective(i + 1, j + 1);
    }
    NumberedTextsDiffer(RowLabel(a, i), RowLabel(b, j), Dec(i + 1), Dec(j + 1));
  }

  /** Two texts that each end in a space and then a run of digits differ when the runs do. */
  lemma NumberedTextsDiffer(s1: string, s2: string, d1: string, d2: string)
    requires |s1| > |d1| && s1[|s1| - |d1|..] == d1 && s1[|s1| - |d1| - 1] == ' ' && AllDigits(d1)
    requires |s2| > |d2| && s2[|s2| - |d2|..] == d2 && s2[|s2| - |d2| - 1] == ' ' && AllDigits(d2)
    requires d1 != d2
    ensures s1 != s2
  {
    if |s1| == |s2| {
      if |d1| < |d2| {
        var p := |s1| - |d1| - 1;
        assert s2[p] == d2[p - (|s2| - |d2|)];
      } else if |d2| < |d1| {
        var p := |s2| - |d2| - 1;
        assert s1[p] == d1[p - (|s1| - |d1|)];
      }
    }
  }

  /** The entry for an object shown at position `index` of the panel. */
  function RowOf(st: ObjectState, index: nat): LayerRow
  {
    LayerRow(RowLabel(st, index), !st.visible, st.lockMovementX)
  }

  /** `updateLayerPanel`: the non-guide objects from the topmost down, numbered from 1. There is
      one row per object that is not a guide, and no two rows carry the same label. */
  function LayerRows(states: seq<ObjectState>): (r: seq<LayerRow>)
    ensures |r| == |NonGuides(states)|
    ensures forall k, m :: 0 <= k < m < |r| ==> r[k].caption != r[m].caption
  {
    var objs := NonGuides(states);
    var r := seq(|objs|, k requires 0 <= k < |objs| => RowOf(objs[|objs| - 1 - k], k));
    RowsNumbered(objs, r);
    r
  }

  /** Rows numbered by position carry pairwise different labels. */
  lemma RowsNumbered(objs: seq<ObjectState>, r: seq<LayerRow>)
    requires |r| == |objs| && forall k :: 0 <= k < |r| ==> r[k] == RowOf(objs[|objs| - 1 - k], k)
    ensures forall k, m :: 0 <= k < m < |r| ==> r[k].caption != r[m].caption
  {
    forall k, m | 0 <= k < m < |r| ensures r[k].caption != r[m].caption {
      RowLabelsDiffer(objs[|objs| - 1 - k], objs[|objs| - 1 - m], k, m);
    }
  }

  /** Row `k` of the layer panel of the canvas `os` shows the object `o`. */
  ghost predicate RowShows(os: seq<FabricObject>, k: nat, o: FabricObject)
    reads os, o
  {
    var rows := LayerRows(StatesOf(os));
    k < |rows| && rows[k] == RowOf(o.State(), k)
  }

  /** The object `k` places from the top among those that are not guides. */
  function ObjectInRow(os: seq<FabricObject>, k: nat): (o: FabricObject)
    requires k < |NonGuideObjects(os)|
    ensures o in os && !o.excludeFromExport
  {
    var rows := NonGuideObjects(os);
    assert rows[|rows| - 1 - k] in rows;
    rows[|rows| - 1 - k]
  }

  /** Row `k` of the layer panel describes the object `k` places from the top among those that
      are not guides. */
  lemma LayerRowOfObject(os: seq<FabricObject>, k: nat)
    requires k < |NonGuideObjects(os)|
    ensures |LayerRows(StatesOf(os))| == |NonGuideObjects(os)|
    ensures RowShows(os, k, ObjectInRow(os, k))
  {
    var rows := NonGuideObjects(os);
    NonGuideStateAt(os, |rows| - 1 - k);
  }

  /** The row that shows `o`: the number of objects painted above it that are not guides. */
  function RowIndex(os: seq<FabricObject>, o: FabricObject): (k: nat)
    requires o in os && !o.excludeFromExport
    ensures k < |NonGuideObjects(os)| && ObjectInRow(os, k) == o
  {
    var rows := NonGuideObjects(os);
    |rows| - 1 - Position(rows, o)
  }

  /** Of two objects that are not guides, the one painted later (higher up) is listed first. */
  lemma LayerRowsOrder(os: seq<FabricObject>, i: nat, j: nat)
    requires NoDuplicates(os) && i < j < |os|
    requires !os[i].excludeFromExport && !os[j].excludeFromExport
    ensures RowIndex(os, os[j]) < RowIndex(os, os[i])
  {
    assert os[i] in os && os[j] in os;
    WithoutKeepsOrder(os, (set o | o in os && o.excludeFromExport), i, j);
  }

  /** Every object that is not a guide is shown by exactly one row. */
  lemma OneRowPerObject(os: seq<FabricObject>, o: FabricObject, k: nat)
    requires NoDuplicates(os) && o in os && !o.excludeFromExport && k < |NonGuideObjects(os)|
    ensures ObjectInRow(os, k) == o <==> k == RowIndex(os, o)
  {
    var rows := NonGuideObjects(os);
    WithoutNoDuplicates(os, set x | x in os && x.excludeFromExport);
    var p := Position(rows, o);
    var q := |rows| - 1 - k;
    if q < p {
      assert Distinct(rows, q, p);
    } else if p < q {
      assert Distinct(rows, p, q);
    }
  }

  lemma NonGuideStateAt(os: seq<FabricObject>, n: nat)
    requires n < |NonGuideObjects(os)|
    ensures |NonGuides(StatesOf(os))| == |NonGuideObjects(os)|
    ensures NonGuides(StatesOf(os))[n] == NonGuideObjects(os)[n].State()
  {
    var rows := NonGuideObjects(os);
    NonGuideObjectStates(os);
    assert StatesOf(rows)[n] == rows[n].State();
  }

  /** `${objectCount} object${objectCount !== 1 ? 's' : ''}`. */
  function ObjectCountText(n: nat): (t: string)
    ensures |t| > |Dec(n)| && t[..|Dec(n)|] == Dec(n)
    ensures t[|t| - 1] == 's' <==> n != 1
  {
    Dec(n) + " object" + (if n != 1 then "s" else "")
  }
}
