/** The editor's history: an undo stack and a redo stack of canvas snapshots (the top of a
    stack is its last element, as with JavaScript `push` and `pop`), capped at 20 entries. */
module UndoHistory {

  const Limit: nat := 20

  datatype Stacks<S> = Stacks(undo: seq<S>, redo: seq<S>)

  /** The cap both stacks share. */
  predicate Bounded<S>(h: Stacks<S>)
  {
    |h.undo| + |h.redo| <= Limit
  }

  /** The newest `n` entries of `s` (all of them when there are fewer). */
  function Newest<S>(s: seq<S>, n: nat): seq<S>
  {
    if |s| <= n then s else s[|s| - n..]
  }

  /** `saveState`: push the live snapshot, drop the oldest entry once there are more than 20,
      and forget everything that could be redone. */
  function Save<S>(h: Stacks<S>, live: S): (r: Stacks<S>)
    ensures r.redo == [] && |r.undo| > 0 && r.undo[|r.undo| - 1] == live
    ensures |h.undo| <= Limit ==> r.undo == Newest(h.undo + [live], Limit)
    ensures forall x :: x in r.undo ==> x in h.undo || x == live
  {
    var pushed := h.undo + [live];
    Stacks(if |pushed| > Limit then pushed[1..] else pushed, [])
  }

  /** The live snapshot after a step together with the new stacks. */
  datatype Step<S> = Step(stacks: Stacks<S>, live: S)

  /** The undo button: nothing on an empty undo stack; otherwise the live snapshot goes onto the
      redo stack and the popped top of the undo stack becomes live. */
  function Undo<S>(h: Stacks<S>, live: S): (r: Step<S>)
    ensures h.undo == [] ==> r == Step(h, live)
    ensures h.undo != [] ==> r.stacks.undo + [r.live] == h.undo && r.stacks.redo == h.redo + [live]
    ensures h.undo != [] ==> r.live == h.undo[|h.undo| - 1] && r.stacks.undo == h.undo[..|h.undo| - 1]
    ensures |r.stacks.undo| + |r.stacks.redo| == |h.undo| + |h.redo|
  {
    if h.undo == [] then Step(h, live)
    else
      var n := |h.undo|;
      assert h.undo == h.undo[..n - 1] + [h.undo[n - 1]];
      Step(Stacks(h.undo[..n - 1], h.redo + [live]), h.undo[n - 1])
  }

  /** The redo button, the mirror image of `Undo`. */
  function Redo<S>(h: Stacks<S>, live: S): (r: Step<S>)
    ensures h.redo == [] ==> r == Step(h, live)
    ensures h.redo != [] ==> r.stacks.redo + [r.live] == h.redo && r.stacks.undo == h.undo + [live]
    ensures h.redo != [] ==> r.live == h.redo[|h.redo| - 1] && r.stacks.redo == h.redo[..|h.redo| - 1]
    ensures |r.stacks.undo| + |r.stacks.redo| == |h.undo| + |h.redo|
  {
    if h.redo == [] then Step(h, live)
    else
      var n := |h.redo|;
      assert h.redo == h.redo[..n - 1] + [h.redo[n - 1]];
      Step(Stacks(h.undo + [live], h.redo[..n - 1]), h.redo[n - 1])
  }

  /** All three operations keep the two stacks within the cap. */
  lemma StepsKeepBound<S>(h: Stacks<S>, live: S)
    requires Bounded(h)
    ensures Bounded(Save(h, live))
    ensures Bounded(Undo(h, live).stacks) && Bounded(Redo(h, live).stacks)
  {
  }

  /** Redo right after an undo gives back the live snapshot and both stacks. */
  lemma RedoAfterUndo<S>(h: Stacks<S>, live: S)
    requires h.undo != []
    ensures var u := Undo(h, live); Redo(u.stacks, u.live) == Step(h, live)
  {
    var u := Undo(h, live);
    assert (h.redo + [live])[..|h.redo|] == h.redo;
  }

  /** Undo right after a redo gives back the live snapshot and both stacks. */
  lemma UndoAfterRedo<S>(h: Stacks<S>, live: S)
    requires h.redo != []
    ensures var r := Redo(h, live); Undo(r.stacks, r.live) == Step(h, live)
  {
    var r := Redo(h, live);
    assert (h.undo + [live])[..|h.undo|] == h.undo;
  }

  /** As written: because a snapshot is saved after each change, the first undo after a save
      brings back the very state that was saved, so it shows no change; it is the second undo
      that reaches the state before. */
  lemma UndoAfterSave<S>(h: Stacks<S>, before: S, after: S)
    requires 1 <= |h.undo| <= Limit && h.undo[|h.undo| - 1] == before
    ensures var first := Undo(Save(h, after), after);
      && first.live == after
      && Undo(first.stacks, first.live).live == before
  {
    var saved := Save(h, after);
    var first := Undo(saved, after);
    assert saved.undo == Newest(h.undo + [after], Limit);
    assert first.stacks.undo + [first.live] == saved.undo;
    var n := |h.undo|;
    if n + 1 > Limit {
      assert saved.undo == (h.undo + [after])[1..];
      assert first.stacks.undo == h.undo[1..];
    } else {
      assert saved.undo == h.undo + [after];
      assert first.stacks.undo == h.undo;
    }
  }

  /** The undo the history is evidently meant to give, given that the top of the undo stack is
      always the live state: the top moves to the redo stack and the entry below it becomes
      live. The oldest entry, the state the page started from, is never popped. */
  function UndoIntended<S>(h: Stacks<S>, live: S): (r: Step<S>)
    ensures |h.undo| < 2 ==> r == Step(h, live)
    ensures |h.undo| >= 2 ==>
      && r.stacks.undo + [h.undo[|h.undo| - 1]] == h.undo
      && r.stacks.redo == h.redo + [h.undo[|h.undo| - 1]]
      && r.live == r.stacks.undo[|r.stacks.undo| - 1]
    ensures |r.stacks.undo| + |r.stacks.redo| == |h.undo| + |h.redo|
  {
    if |h.undo| < 2 then Step(h, live)
    else
      var n := |h.undo|;
      assert h.undo == h.undo[..n - 1] + [h.undo[n - 1]];
      Step(Stacks(h.undo[..n - 1], h.redo + [h.undo[n - 1]]), h.undo[n - 2])
  }

  /** The matching redo: the top of the redo stack goes back onto the undo stack and becomes
      live. */
  function RedoIntended<S>(h: Stacks<S>, live: S): (r: Step<S>)
    ensures h.redo == [] ==> r == Step(h, live)
    ensures h.redo != [] ==>
      && r.stacks.redo + [r.live] == h.redo && r.stacks.undo == h.undo + [r.live]
    ensures |r.stacks.undo| + |r.stacks.redo| == |h.undo| + |h.redo|
  {
    if h.redo == [] then Step(h, live)
    else
      var m := |h.redo|;
      assert h.redo == h.redo[..m - 1] + [h.redo[m - 1]];
      Step(Stacks(h.undo + [h.redo[m - 1]], h.redo[..m - 1]), h.redo[m - 1])
  }

  /** With the intended undo, one undo after a save brings back the state before the change,
      even when the save has pushed the oldest entry out. */
  lemma UndoIntendedAfterSave<S>(h: Stacks<S>, before: S, after: S)
    requires 1 <= |h.undo| <= Limit && h.undo[|h.undo| - 1] == before
    ensures UndoIntended(Save(h, after), after).live == before
  {
    var saved := Save(h, after);
    var n := |h.undo|;
    if n + 1 > Limit {
      assert saved.undo == (h.undo + [after])[1..];
    } else {
      assert saved.undo == h.undo + [after];
    }
    assert saved.undo[|saved.undo| - 2] == before;
  }

  /** With the intended pair, redo right after an undo restores the change: the state that was
      live before the undo and both stacks. */
  lemma RedoIntendedAfterUndo<S>(h: Stacks<S>, live: S)
    requires |h.undo| >= 2 && h.undo[|h.undo| - 1] == live
    ensures var u := UndoIntended(h, live); RedoIntended(u.stacks, u.live) == Step(h, live)
  {
    var u := UndoIntended(h, live);
    assert (h.redo + [live])[..|h.redo|] == h.redo;
  }

  /** A run of saves, one per committed change. */
  function SaveAll<S>(h: Stacks<S>, xs: seq<S>): (r: Stacks<S>)
    decreases |xs|
  {
    if xs == [] then h else SaveAll(Save(h, xs[0]), xs[1..])
  }

  /** After any run of saves the undo stack holds exactly the newest 20 of all saved
      snapshots, older history included; so 20 saves push out everything saved before them. */
  lemma {:induction false} SaveAllKeepsNewest<S>(h: Stacks<S>, xs: seq<S>)
    requires |h.undo| <= Limit
    ensures SaveAll(h, xs).undo == Newest(h.undo + xs, Limit)
    ensures xs != [] ==> SaveAll(h, xs).redo == []
    decreases |xs|
  {
    if xs == [] {
      assert h.undo + xs == h.undo;
    } else {
      var x, rest := xs[0], xs[1..];
      assert xs == [x] + rest;
      SaveThenNewest(h, x, rest);
      SaveAllKeepsNewest(Save(h, x), rest);
    }
  }

  /** One save followed by more: the newest 20 of what the save left and the rest are the
      newest 20 of everything. */
  lemma SaveThenNewest<S>(h: Stacks<S>, x: S, rest: seq<S>)
    requires |h.undo| <= Limit
    ensures |Save(h, x).undo| <= Limit
    ensures Newest(Save(h, x).undo + rest, Limit) == Newest(h.undo + ([x] + rest), Limit)
  {
    NewestOfNewest(h.undo + [x], rest);
    assert h.undo + [x] + rest == h.undo + ([x] + rest);
  }

  lemma NewestOfNewest<S>(a: seq<S>, b: seq<S>)
    ensures Newest(Newest(a, Limit) + b, Limit) == Newest(a + b, Limit)
  {
    if |a| > Limit {
      var k := |a| - Limit;
      assert a + b == a[..k] + (a[k..] + b);
      assert (a + b)[k..] == a[k..] + b;
      if |a[k..] + b| > Limit {
        var j := |a[k..] + b| - Limit;
        assert (a + b)[|a + b| - Limit..] == (a[k..] + b)[j..];
      }
    }
  }

  /** The cap seen from outside: once 20 changes have been saved, nothing saved before them is
      on the undo stack. */
  lemma OldHistoryForgotten<S>(h: Stacks<S>, xs: seq<S>)
    requires |h.undo| <= Limit && |xs| >= Limit
    ensures SaveAll(h, xs).undo == xs[|xs| - Limit..]
  {
    SaveAllKeepsNewest(h, xs);
    SuffixOfAppend(h.undo, xs, Limit);
  }

  lemma SuffixOfAppend<S>(a: seq<S>, b: seq<S>, n: nat)
    requires n <= |b|
    ensures (a + b)[|a + b| - n..] == b[|b| - n..]
  {
    var k := |a + b| - n;
    forall i | 0 <= i < n ensures (a + b)[k..][i] == b[|b| - n..][i] {
      assert (a + b)[k + i] == b[|b| - n + i];
    }
  }
}
