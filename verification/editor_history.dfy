/** The snapshot list seen as an undo/redo zipper, and what undo and redo cancel. */
module EditorHistory {
  import opened EditorModel
  import opened EditorInvariants

  // ---- Only commit, undo and redo touch the history ----

  function HistNext(h: History, e: Event): (g: History)
    requires InRange(h)
    ensures InRange(g)
  {
    match e
    case Commit(objects) => Committed(h, objects)
    case Undo => if CanUndo(h) then MovedTo(h, h.index - 1) else h
    case Redo => if CanRedo(h) then MovedTo(h, h.index + 1) else h
    case _ => h
  }

  function HistRun(h: History, events: seq<Event>): (g: History)
    requires InRange(h)
    ensures InRange(g)
    decreases |events|
  {
    if events == [] then h else HistRun(HistNext(h, events[0]), events[1..])
  }

  lemma NextHist(s: State, e: Event)
    requires WellFormed(s) && Enabled(s, e)
    ensures Next(s, e).hist == HistNext(s.hist, e)
  {
  }

  lemma {:induction false} RunHist(s: State, events: seq<Event>)
    requires WellFormed(s) && ValidRun(s, events)
    ensures Run(s, events).hist == HistRun(s.hist, events)
    decreases |events|
  {
    if events == [] {
    } else {
      NextHist(s, events[0]);
      RunHist(Next(s, events[0]), events[1..]);
    }
  }

  lemma HistNextInv(h: History, e: Event)
    requires HistoryInv(h)
    ensures HistoryInv(HistNext(h, e))
    ensures forall r :: r in h.made ==> r in HistNext(h, e).made && HistNext(h, e).made[r] == h.made[r]
  {
    match e
    case Commit(objects) => CommittedInv(h, objects);
    case Undo => if CanUndo(h) { MovedInv(h, h.index - 1); }
    case Redo => if CanRedo(h) { MovedInv(h, h.index + 1); }
    case _ =>
  }

  // ---- Refinement of a zipper ----

  /** The textbook undo structure: what undo reaches, what is shown, what redo reaches. */
  datatype Zipper = Zipper(past: seq<Drawing>, present: Drawing, future: seq<Drawing>)

  function ZipStep(z: Zipper, e: Event): Zipper {
    match e
    case Commit(objects) => Zipper(z.past + [z.present], objects, [])
    case Undo =>
      if z.past == [] then z
      else Zipper(z.past[..|z.past| - 1], z.past[|z.past| - 1], [z.present] + z.future)
    case Redo =>
      if z.future == [] then z
      else Zipper(z.past + [z.present], z.future[0], z.future[1..])
    case _ => z
  }

  function ZipRun(z: Zipper, events: seq<Event>): Zipper
    decreases |events|
  {
    if events == [] then z else ZipRun(ZipStep(z, events[0]), events[1..])
  }

  function Drawings(list: seq<Snapshot>): seq<Drawing> {
    seq(|list|, i requires 0 <= i < |list| => list[i].objects)
  }

  /** The zipper a history stands for; its present is what the canvas shows. */
  function ZipOf(h: History): Zipper
    requires InRange(h)
  {
    Zipper(Drawings(h.list[..h.index]), h.canvas, Drawings(h.list[h.index + 1..]))
  }

  lemma CommitRefinesZipper(h: History, objects: Drawing)
    requires HistoryInv(h)
    ensures ZipOf(Committed(h, objects)) == ZipStep(ZipOf(h), Commit(objects))
  {
    var g := Committed(h, objects);
    assert g.list[..g.index] == h.list[..h.index] + [Current(h)];
    assert g.list[g.index + 1..] == [];
  }

  lemma UndoRefinesZipper(h: History)
    requires HistoryInv(h) && CanUndo(h)
    ensures ZipOf(MovedTo(h, h.index - 1)) == ZipStep(ZipOf(h), Undo)
  {
    assert h.list[h.index..] == [Current(h)] + h.list[h.index + 1..];
    assert Drawings(h.list[..h.index - 1]) == Drawings(h.list[..h.index])[..h.index - 1];
  }

  lemma RedoRefinesZipper(h: History)
    requires HistoryInv(h) && CanRedo(h)
    ensures ZipOf(MovedTo(h, h.index + 1)) == ZipStep(ZipOf(h), Redo)
  {
    assert h.list[..h.index + 1] == h.list[..h.index] + [Current(h)];
    assert Drawings(h.list[h.index + 2..]) == Drawings(h.list[h.index + 1..])[1..];
  }

  lemma StepRefinesZipper(h: History, e: Event)
    requires HistoryInv(h)
    ensures ZipOf(HistNext(h, e)) == ZipStep(ZipOf(h), e)
  {
    match e
    case Commit(objects) => CommitRefinesZipper(h, objects);
    case Undo => if CanUndo(h) { UndoRefinesZipper(h); }
    case Redo => if CanRedo(h) { RedoRefinesZipper(h); }
    case _ =>
  }

  lemma {:induction false} HistRunRefinesZipper(h: History, events: seq<Event>)
    requires HistoryInv(h)
    ensures ZipOf(HistRun(h, events)) == ZipRun(ZipOf(h), events)
    decreases |events|
  {
    if events == [] {
    } else {
      StepRefinesZipper(h, events[0]);
      HistNextInv(h, events[0]);
      HistRunRefinesZipper(HistNext(h, events[0]), events[1..]);
    }
  }

  /** Over any run the history behaves as the zipper, whatever else happens in between. */
  lemma HistoryRefinesZipper(s: State, events: seq<Event>)
    requires Inv(s) && ValidRun(s, events)
    ensures ZipOf(Run(s, events).hist) == ZipRun(ZipOf(s.hist), events)
  {
    RunHist(s, events);
    HistRunRefinesZipper(s.hist, events);
  }

  // ---- Revisions ----

  lemma {:induction false} HistRunKeepsMade(h: History, events: seq<Event>)
    requires HistoryInv(h)
    ensures forall r :: r in h.made ==> r in HistRun(h, events).made && HistRun(h, events).made[r] == h.made[r]
    decreases |events|
  {
    if events == [] {
    } else {
      HistNextInv(h, events[0]);
      HistRunKeepsMade(HistNext(h, events[0]), events[1..]);
    }
  }

  /** A revision, once given, stands for the same drawing for good. */
  lemma RevisionsAreForGood(s: State, events: seq<Event>, r: nat)
    requires Inv(s) && ValidRun(s, events) && r in s.hist.made
    ensures r in Run(s, events).hist.made && Run(s, events).hist.made[r] == s.hist.made[r]
  {
    RunHist(s, events);
    HistRunKeepsMade(s.hist, events);
  }

  // ---- Undo and redo ----

  function Times(e: Event, n: nat): (events: seq<Event>)
    ensures |events| == n
  {
    if n == 0 then [] else [e] + Times(e, n - 1)
  }

  function Min(a: int, b: int): int {
    if a < b then a else b
  }

  predicate ShowsCurrent(h: History) {
    InRange(h) && h.canvas == Current(h).objects
  }

  lemma MovedTwice(h: History, i: nat, j: nat)
    requires ShowsCurrent(h) && i < |h.list| && j < |h.list|
    ensures ShowsCurrent(MovedTo(h, i)) && MovedTo(MovedTo(h, i), j) == MovedTo(h, j)
    ensures MovedTo(h, j) == h <==> j == h.index
  {
  }

  lemma TimesStep(h: History, e: Event, n: nat)
    requires InRange(h) && n > 0
    ensures HistRun(h, Times(e, n)) == HistRun(HistNext(h, e), Times(e, n - 1))
  {
    assert Times(e, n)[1..] == Times(e, n - 1);
  }

  lemma {:induction false} UndoTimes(h: History, n: nat)
    requires ShowsCurrent(h)
    ensures HistRun(h, Times(Undo, n)) == MovedTo(h, h.index - Min(n, h.index))
    decreases n
  {
    if n == 0 {
    } else {
      var g := HistNext(h, Undo);
      TimesStep(h, Undo, n);
      MovedTwice(h, g.index, h.index - Min(n, h.index));
      UndoTimes(g, n - 1);
    }
  }

  lemma RedoOnce(h: History, i: nat)
    requires ShowsCurrent(h) && i < |h.list|
    ensures HistNext(MovedTo(h, i), Redo) == MovedTo(h, Min(i + 1, |h.list| - 1))
  {
  }

  lemma {:induction false} RedoTimes(h: History, i: nat, n: nat)
    requires ShowsCurrent(h) && i < |h.list|
    ensures HistRun(MovedTo(h, i), Times(Redo, n)) == MovedTo(h, Min(i + n, |h.list| - 1))
    decreases n
  {
    if n == 0 {
    } else {
      TimesStep(MovedTo(h, i), Redo, n);
      RedoOnce(h, i);
      RedoTimes(h, Min(i + 1, |h.list| - 1), n - 1);
    }
  }

  /** g is h up to snapshot i, followed by one new snapshot, which is shown and has nothing to redo. */
  ghost predicate TailReplaced(h: History, i: nat, objects: Drawing, g: History) {
    && i < |h.list| && |g.list| == i + 2 && g.index == i + 1
    && g.list[..i + 1] == h.list[..i + 1]
    && g.list[i + 1].objects == objects == g.canvas
    && g.list[i + 1].rev !in h.made
  }

  lemma CommitDropsTail(h: History, i: nat, objects: Drawing)
    requires HistoryInv(h) && i < |h.list|
    ensures TailReplaced(h, i, objects, Committed(MovedTo(h, i), objects))
  {
    assert h.revCounter + 1 !in h.made;
  }

  lemma RedoAfter(h: History, g: History, i: nat, n: nat)
    requires ShowsCurrent(h) && i < |h.list| && g == MovedTo(h, i)
    ensures HistRun(g, Times(Redo, n)) == h <==> Min(i + n, |h.list| - 1) == h.index
  {
    RedoTimes(h, i, n);
    MovedTwice(h, i, Min(i + n, |h.list| - 1));
  }

  /**
   n undos then n redos give back list, index and canvas exactly when there were
   n snapshots to undo or nothing to redo.
   */
  lemma UndoThenRedo(h: History, n: nat)
    requires HistoryInv(h)
    ensures HistRun(HistRun(h, Times(Undo, n)), Times(Redo, n)) == h
            <==> n <= h.index || h.index == |h.list| - 1
  {
    UndoTimes(h, n);
    RedoAfter(h, HistRun(h, Times(Undo, n)), h.index - Min(n, h.index), n);
  }

  /** A commit after k undos keeps what is before, drops all of the redo tail, and takes a new revision. */
  lemma CommitAfterUndos(h: History, k: nat, objects: Drawing)
    requires HistoryInv(h) && k <= h.index
    ensures TailReplaced(h, h.index - k, objects, Committed(HistRun(h, Times(Undo, k)), objects))
  {
    UndoTimes(h, k);
    CommitDropsTail(h, h.index - k, objects);
  }
}
