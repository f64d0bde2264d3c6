/** Exactly what is served for an id while it is written and after, whenever the server crashes. */
module StorageCrash {
  import opened Options
  import opened Png
  import opened StorageModel
  import opened StorageRuns
  import opened StorageSerial
  import opened StorageSolo

  /** Which of its two renames a write has done. */
  datatype Progress = NothingRenamed | ImageRenamed | BothRenamed

  function Shown(codec: Codec, was: Pair, data: Bytes, p: Progress): Pair {
    match p
    case NothingRenamed => was
    case ImageRenamed => Pair(Some(data), was.thumb)
    case BothRenamed => Pair(Some(data), codec(data))
  }

  /** The progress of the write of id by operation k, after one more event. */
  function ProgressAfter(codec: Codec, d: Disk, k: nat, id: string, e: Event, p: Progress): Progress {
    if e.Advance? && e.k == k && k in d.ops && d.ops[k].id == id then
      StepProgress(d.ops[k], OpStep(codec, d.files, d.ops[k], e.o).op, p)
    else p
  }

  function StepProgress(op: Op, next: Op, p: Progress): Progress {
    if op.RenamingImage? && next.RenamingThumb? then ImageRenamed
    else if op.RenamingThumb? && next.Cleaning? && next.ok then BothRenamed
    else p
  }

  predicate Fits(op: Op, p: Progress) {
    match op
    case RenamingThumb(_, _, _, _, _) => p == ImageRenamed
    case Cleaning(_, _, _) => true
    case Returned(_, _) => true
    case RemovingImage(_) => false
    case RemovingThumb(_) => false
    case _ => p == NothingRenamed
  }

  predicate IsExact(codec: Codec, d: Disk, k: nat, id: string, data: Bytes, was: Pair, p: Progress) {
    && OnlyWriter(codec, d, k, id, data, was)
    && (k in d.ops && d.ops[k].id == id ==> Fits(d.ops[k], p))
    && Visible(d.files, id) == Shown(codec, was, data, p)
  }

  /** One step of the write, however it ends. */
  lemma StepIsExact(
    codec: Codec, files: Files, op: Op, o: Outcome, id: string, data: Bytes, was: Pair, p: Progress)
    requires WriteStage(codec, files, op, id, data, was) && Fits(op, p) && !op.Returned?
    requires Visible(files, id) == Shown(codec, was, data, p)
    ensures var r := OpStep(codec, files, op, o);
            && Fits(r.op, StepProgress(op, r.op, p))
            && Visible(r.files, id) == Shown(codec, was, data, StepProgress(op, r.op, p))
  {
    var r := OpStep(codec, files, op, o);
    WriteStep(codec, files, op, o, id, data, was);
    if op.Cleaning? {
      TempsAreInvisible(files, r.files, id);
    } else if r.op.Cleaning? || r.op.Returned? {
      StoppedShows(codec, files, op, o, id, data, was);
    }
  }

  lemma OwnStepIsExact(
    codec: Codec, cap: nat, d: Disk, k: nat, id: string, data: Bytes, was: Pair, p: Progress, o: Outcome)
    requires Inv(codec, cap, d) && Enabled(cap, d, Advance(k, o)) && (d.ops[k].Decoding? ==> d.sem > 0)
    requires IsExact(codec, d, k, id, data, was, p) && d.ops[k].id == id
    ensures IsExact(codec, Advanced(codec, d, k, o), k, id, data, was,
                    ProgressAfter(codec, d, k, id, Advance(k, o), p))
  {
    OwnAdvance(codec, cap, d, k, id, data, was, o);
    StepIsExact(codec, d.files, d.ops[k], o, id, data, was, p);
  }

  /** No other event touches what is served for id. */
  lemma OtherEventUnseen(
    codec: Codec, cap: nat, d: Disk, k: nat, id: string, data: Bytes, was: Pair, e: Event)
    requires Inv(codec, cap, d) && Enabled(cap, d, e) && Leaves(e, id) && OnlyWriter(codec, d, k, id, data, was)
    requires forall j :: j in d.ops && d.ops[j].Decoding? ==> d.sem > 0
    requires e.Advance? ==> d.ops[e.k].id != id
    ensures Visible(Next(codec, cap, d, e).files, id) == Visible(d.files, id)
    ensures var t := Next(codec, cap, d, e);
            k in t.ops && t.ops[k].id == id ==> k in d.ops && t.ops[k] == d.ops[k]
  {
    match e
    case Advance(j, o) =>
      assert OpInv(codec, d, d.ops[j]);
      StepKeepsOthers(codec, d.files, d.ops[j], o, id);
      StepKeepsId(codec, d.files, d.ops[j], o);
    case Scribble(j, partial) =>
      assert OpInv(codec, d, d.ops[j]) && Filling(d.ops[j]) in Owns(d.ops[j]);
      TempsAreInvisible(d.files, d.files[Filling(d.ops[j]) := partial], id);
    case Restart(listed, outcomes) =>
      SweepClears(d.files, listed, outcomes);
      TempsAreInvisible(d.files, Swept(d.files, listed, outcomes).files, id);
    case _ =>
  }

  lemma EventIsExact(
    codec: Codec, cap: nat, d: Disk, k: nat, id: string, data: Bytes, was: Pair, p: Progress, e: Event)
    requires Inv(codec, cap, d) && Enabled(cap, d, e) && Leaves(e, id) && IsExact(codec, d, k, id, data, was, p)
    requires forall j :: j in d.ops && d.ops[j].Decoding? ==> d.sem > 0
    ensures IsExact(codec, Next(codec, cap, d, e), k, id, data, was, ProgressAfter(codec, d, k, id, e, p))
  {
    if e.Advance? && d.ops[e.k].id == id {
      OwnStepIsExact(codec, cap, d, k, id, data, was, p, e.o);
    } else {
      OnlyWriterStep(codec, cap, d, k, id, data, was, e);
      OtherEventUnseen(codec, cap, d, k, id, data, was, e);
    }
  }

  ghost function ProgressThen(
    codec: Codec, cap: nat, d: Disk, k: nat, id: string, events: seq<Event>, t: Disk, p: Progress): Progress
    requires Reaches(codec, cap, d, events, t)
    decreases |events|
  {
    if events == [] then p
    else ProgressThen(codec, cap, Next(codec, cap, d, events[0]), k, id, events[1..], t,
                      ProgressAfter(codec, d, k, id, events[0], p))
  }

  lemma {:induction false} RunIsExact(
    codec: Codec, cap: nat, d: Disk, k: nat, id: string, data: Bytes, was: Pair, p: Progress,
    events: seq<Event>, t: Disk)
    requires Inv(codec, cap, d) && IsExact(codec, d, k, id, data, was, p)
    requires forall i :: 0 <= i < |events| ==> Leaves(events[i], id)
    requires Reaches(codec, cap, d, events, t)
    ensures IsExact(codec, t, k, id, data, was, ProgressThen(codec, cap, d, k, id, events, t, p))
    decreases |events|
  {
    if events == [] {
    } else {
      var next := Next(codec, cap, d, events[0]);
      EventIsExact(codec, cap, d, k, id, data, was, p, events[0]);
      NextInv(codec, cap, d, events[0]);
      RunIsExact(codec, cap, next, k, id, data, was, ProgressAfter(codec, d, k, id, events[0], p), events[1..], t);
    }
  }

  /**
   From the begin of a write until another operation on its id, through other
   work, failures, crashes and restarts: the pair is the old one until the image
   is renamed, then shows the new image, and the new thumbnail once that is renamed too.
   */
  lemma WriteShowsExactly(
    codec: Codec, cap: nat, d: Disk, k: nat, id: string, data: Bytes, events: seq<Event>, t: Disk)
    requires Inv(codec, cap, d) && Enabled(cap, d, BeginWrite(k, id, data))
    requires forall j :: j in d.ops ==> d.ops[j].id != id
    requires forall j :: j in d.ops && d.ops[j].Decoding? ==> d.sem > 0
    requires forall i :: 0 <= i < |events| ==> Leaves(events[i], id)
    requires Reaches(codec, cap, Next(codec, cap, d, BeginWrite(k, id, data)), events, t)
    ensures var began, was := Next(codec, cap, d, BeginWrite(k, id, data)), Visible(d.files, id);
            var p := ProgressThen(codec, cap, began, k, id, events, t, NothingRenamed);
            && Visible(t.files, id) == Shown(codec, was, data, p)
            && (Visible(t.files, id) == was <==>
                  p == NothingRenamed || (was.image == Some(data) && (p == ImageRenamed || was.thumb == codec(data))))
  {
    BeginsAlone(codec, cap, d, k, id, data);
    NextInv(codec, cap, d, BeginWrite(k, id, data));
    var began := Next(codec, cap, d, BeginWrite(k, id, data));
    RunIsExact(codec, cap, began, k, id, data, Visible(d.files, id), NothingRenamed, events, t);
  }
}
