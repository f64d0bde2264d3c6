/** Writes of one id that do not overlap: what its image and thumbnail can be at any moment. */
module StorageSerial {
  import opened Options
  import opened Png
  import opened StorageModel
  import opened StorageRuns

  /** Never the old image with the new thumbnail. */
  predicate OldOrNew(codec: Codec, was: Pair, data: Bytes, now: Pair) {
    now == was || (codec(data).Some? && (now == Pair(Some(data), was.thumb) || now == Pair(Some(data), codec(data))))
  }

  /** Only operation k, a write of data, works on id; while it lives it is at the stage it should be. */
  predicate OnlyWriter(codec: Codec, d: Disk, k: nat, id: string, data: Bytes, was: Pair) {
    && (forall j :: j in d.ops && d.ops[j].id == id ==> j == k && WriteStage(codec, d.files, d.ops[j], id, data, was))
    && OldOrNew(codec, was, data, Visible(d.files, id))
  }

  /** e starts no other operation on id. */
  predicate Leaves(e: Event, id: string) {
    e.BeginWrite? || e.BeginNew? || e.BeginDelete? ==> e.id != id
  }

  lemma StageIsOldOrNew(codec: Codec, files: Files, op: Op, id: string, data: Bytes, was: Pair)
    requires WriteStage(codec, files, op, id, data, was)
    ensures OldOrNew(codec, was, data, Visible(files, id))
  {
  }

  lemma OwnAdvance(codec: Codec, cap: nat, d: Disk, k: nat, id: string, data: Bytes, was: Pair, o: Outcome)
    requires Inv(codec, cap, d) && Enabled(cap, d, Advance(k, o)) && (d.ops[k].Decoding? ==> d.sem > 0)
    requires OnlyWriter(codec, d, k, id, data, was) && d.ops[k].id == id
    ensures OnlyWriter(codec, Advanced(codec, d, k, o), k, id, data, was)
    ensures var r := OpStep(codec, d.files, d.ops[k], o);
            r.op.Returned? ==> LeavesPair(codec, was, data, r.op.ok, Visible(r.files, id))
  {
    var r := OpStep(codec, d.files, d.ops[k], o);
    WriteStep(codec, d.files, d.ops[k], o, id, data, was);
    StageIsOldOrNew(codec, r.files, r.op, id, data, was);
  }

  lemma OtherAdvance(codec: Codec, cap: nat, d: Disk, k: nat, id: string, data: Bytes, was: Pair, j: nat, o: Outcome)
    requires Inv(codec, cap, d) && Enabled(cap, d, Advance(j, o)) && (d.ops[j].Decoding? ==> d.sem > 0)
    requires OnlyWriter(codec, d, k, id, data, was) && d.ops[j].id != id
    ensures OnlyWriter(codec, Advanced(codec, d, j, o), k, id, data, was)
  {
    assert OpInv(codec, d, d.ops[j]);
    StepKeepsOthers(codec, d.files, d.ops[j], o, id);
    StepKeepsId(codec, d.files, d.ops[j], o);
    if k in d.ops && d.ops[k].id == id {
      assert OpInv(codec, d, d.ops[k]);
      AdvancedApart(codec, d, j, o, k);
    }
  }

  lemma StepKeepsId(codec: Codec, files: Files, op: Op, o: Outcome)
    ensures OpStep(codec, files, op, o).op.id == op.id
  {
  }

  lemma ScribbleUnseen(
    codec: Codec, cap: nat, d: Disk, k: nat, id: string, data: Bytes, was: Pair, j: nat, partial: Bytes)
    requires Inv(codec, cap, d) && Enabled(cap, d, Scribble(j, partial)) && OnlyWriter(codec, d, k, id, data, was)
    ensures OnlyWriter(codec, d.(files := d.files[Filling(d.ops[j]) := partial]), k, id, data, was)
  {
    assert OpInv(codec, d, d.ops[j]) && Filling(d.ops[j]) in Owns(d.ops[j]);
    TempsAreInvisible(d.files, d.files[Filling(d.ops[j]) := partial], id);
    if k in d.ops && d.ops[k].id == id {
      assert OpInv(codec, d, d.ops[k]);
      ScribbleOps(codec, d, j, partial, k);
    }
  }

  lemma OnlyWriterStep(codec: Codec, cap: nat, d: Disk, k: nat, id: string, data: Bytes, was: Pair, e: Event)
    requires Inv(codec, cap, d) && Enabled(cap, d, e) && Leaves(e, id) && OnlyWriter(codec, d, k, id, data, was)
    requires forall j :: j in d.ops && d.ops[j].Decoding? ==> d.sem > 0
    ensures OnlyWriter(codec, Next(codec, cap, d, e), k, id, data, was)
  {
    match e
    case Advance(j, o) =>
      if d.ops[j].id == id {
        OwnAdvance(codec, cap, d, k, id, data, was, o);
      } else {
        OtherAdvance(codec, cap, d, k, id, data, was, j, o);
      }
    case Scribble(j, partial) => ScribbleUnseen(codec, cap, d, k, id, data, was, j, partial);
    case Restart(listed, outcomes) =>
      SweepClears(d.files, listed, outcomes);
      TempsAreInvisible(d.files, Swept(d.files, listed, outcomes).files, id);
    case _ =>
  }

  /**
   From the moment a write of an id begins, and until another operation on that
   id does, the pair is (old, old), (new, old) or (new, new), whatever other ids
   are worked on, what fails, and whether the server crashes and restarts.
   */
  lemma {:induction false} SerialWriteKeepsPair(
    codec: Codec, cap: nat, d: Disk, k: nat, id: string, data: Bytes, was: Pair, events: seq<Event>, t: Disk)
    requires Inv(codec, cap, d) && OnlyWriter(codec, d, k, id, data, was)
    requires forall i :: 0 <= i < |events| ==> Leaves(events[i], id)
    requires Reaches(codec, cap, d, events, t)
    ensures OldOrNew(codec, was, data, Visible(t.files, id))
    decreases |events|
  {
    if events == [] {
    } else {
      OnlyWriterStep(codec, cap, d, k, id, data, was, events[0]);
      NextInv(codec, cap, d, events[0]);
      SerialWriteKeepsPair(codec, cap, Next(codec, cap, d, events[0]), k, id, data, was, events[1..], t);
    }
  }

  /** A write that begins while no other operation works on its id is such a writer. */
  lemma BeginsAlone(codec: Codec, cap: nat, d: Disk, k: nat, id: string, data: Bytes)
    requires Inv(codec, cap, d) && Enabled(cap, d, BeginWrite(k, id, data))
    requires forall j :: j in d.ops ==> d.ops[j].id != id
    requires forall j :: j in d.ops && d.ops[j].Decoding? ==> d.sem > 0
    ensures OnlyWriter(codec, Next(codec, cap, d, BeginWrite(k, id, data)), k, id, data, Visible(d.files, id))
  {
  }
}
