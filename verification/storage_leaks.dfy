/** Temporary files whose removal failed: exactly what is left of them when nothing is under way. */
module StorageLeaks {
  import opened Options
  import opened Png
  import opened StorageModel
  import opened StorageRuns

  /** No temporary file is to be removed twice. */
  predicate IsTidy(op: Op) {
    match op
    case RenamingThumb(_, _, _, thumbTmp, imgTmp) => thumbTmp != imgTmp
    case Cleaning(_, temps, _) => forall i, j :: 0 <= i < j < |temps| ==> temps[i] != temps[j]
    case _ => true
  }

  /** A leaked file is a temporary one that no operation owns, and it stays while the server is up. */
  predicate LeakInv(d: Disk) {
    && d.leaked <= d.used
    && (d.up ==> d.leaked <= d.files.Keys)
    && (forall p :: p in d.leaked ==> IsTemp(p))
    && (forall k :: k in d.ops ==> IsTidy(d.ops[k]) && Owns(d.ops[k]) !! d.leaked)
  }

  lemma StepIsTidy(codec: Codec, files: Files, op: Op, o: Outcome)
    requires Holds(codec, files, op) && IsTidy(op)
    ensures IsTidy(OpStep(codec, files, op, o).op)
  {
  }

  /** What a step leaks it owned, and owns no more. */
  lemma StepLeaks(codec: Codec, files: Files, op: Op, o: Outcome)
    requires Holds(codec, files, op) && IsTidy(op)
    ensures var r := OpStep(codec, files, op, o);
            && Leaks(files, op, o) <= Owns(op) && Leaks(files, op, o) !! Owns(r.op)
            && Leaks(files, op, o) <= r.files.Keys
  {
  }

  lemma StepKeepsUnowned(codec: Codec, files: Files, op: Op, o: Outcome, p: Path)
    requires Holds(codec, files, op) && p in files && IsTemp(p) && p !in Owns(op)
    ensures p in OpStep(codec, files, op, o).files
  {
    ServedPathsAreNotTemp(op.id);
  }

  lemma OwnedIsNotLeaked(codec: Codec, d: Disk, k: nat, o: Outcome, j: nat)
    requires (forall i :: i in d.ops ==> OpInv(codec, d, d.ops[i])) && Apart(d.ops) && LeakInv(d)
    requires k in d.ops && j in d.ops && FreshName(d, d.ops[k], o)
    ensures var r := OpStep(codec, d.files, d.ops[k], o);
            Owns(if j == k then r.op else d.ops[j]) !! d.leaked + Leaks(d.files, d.ops[k], o)
  {
    assert OpInv(codec, d, d.ops[k]) && OpInv(codec, d, d.ops[j]);
    StepOwns(codec, d, d.ops[k], o);
    StepLeaks(codec, d.files, d.ops[k], o);
  }

  lemma AdvancedLeakInv(codec: Codec, cap: nat, d: Disk, k: nat, o: Outcome)
    requires Inv(codec, cap, d) && LeakInv(d) && Enabled(cap, d, Advance(k, o)) && (d.ops[k].Decoding? ==> d.sem > 0)
    ensures LeakInv(Advanced(codec, d, k, o))
  {
    var op, t := d.ops[k], Advanced(codec, d, k, o);
    assert OpInv(codec, d, op);
    StepIsTidy(codec, d.files, op, o);
    StepLeaks(codec, d.files, op, o);
    forall j | j in t.ops ensures IsTidy(t.ops[j]) && Owns(t.ops[j]) !! t.leaked {
      OwnedIsNotLeaked(codec, d, k, o, j);
    }
    forall p | t.up && p in t.leaked ensures p in t.files {
      if p in d.leaked {
        StepKeepsUnowned(codec, d.files, op, o, p);
      }
    }
  }

  lemma BeginLeakInv(d: Disk, k: nat, op: Op, accepted: set<(string, Bytes)>)
    requires LeakInv(d) && (op.Waiting? || op.RemovingImage?)
    ensures LeakInv(d.(ops := d.ops[k := op], accepted := accepted))
  {
  }

  lemma NextLeakInv(codec: Codec, cap: nat, d: Disk, e: Event)
    requires Inv(codec, cap, d) && LeakInv(d) && Enabled(cap, d, e)
    requires forall k :: k in d.ops && d.ops[k].Decoding? ==> d.sem > 0
    ensures LeakInv(Next(codec, cap, d, e))
  {
    match e
    case BeginWrite(k, id, data) => BeginLeakInv(d, k, Waiting(id, data), d.accepted + {(id, data)});
    case BeginNew(k, id, data) =>
      if ImagePath(id) !in d.files {
        BeginLeakInv(d, k, Waiting(id, data), d.accepted + {(id, data)});
      }
    case BeginDelete(k, id) => BeginLeakInv(d, k, RemovingImage(id), d.accepted);
    case Advance(k, o) => AdvancedLeakInv(codec, cap, d, k, o);
    case Scribble(_, _) =>
    case Crash =>
    case Restart(_, _) =>
  }

  lemma {:induction false} RunLeakInv(codec: Codec, cap: nat, d: Disk, events: seq<Event>, t: Disk)
    requires Inv(codec, cap, d) && LeakInv(d) && Reaches(codec, cap, d, events, t)
    ensures LeakInv(t)
    decreases |events|
  {
    if events == [] {
    } else {
      NextInv(codec, cap, d, events[0]);
      NextLeakInv(codec, cap, d, events[0]);
      RunLeakInv(codec, cap, Next(codec, cap, d, events[0]), events[1..], t);
    }
  }

  /** When every operation has returned, the temporary files are exactly those whose removal failed since the start. */
  lemma NoTempSurvives(codec: Codec, cap: nat, events: seq<Event>, t: Disk, p: Path)
    requires Reaches(codec, cap, EMPTY, events, t) && t.up && t.ops == map[]
    ensures p in t.files && IsTemp(p) <==> p in t.leaked
  {
    EmptyInv(codec, cap);
    RunInv(codec, cap, EMPTY, events, t);
    RunLeakInv(codec, cap, EMPTY, events, t);
  }
}
