/** One write or delete with nothing else going on: what it leaves, with and without failures. */
module StorageSolo {
  import opened Options
  import opened Png
  import opened StorageModel
  import opened StorageRuns

  /** A write ends with both files new, or reports failure and leaves both old or only the image new. */
  lemma {:induction false} RunWrite(
    codec: Codec, files: Files, op: Op, outcomes: seq<Outcome>, id: string, data: Bytes, was: Pair)
    requires WriteStage(codec, files, op, id, data, was)
    ensures var r := RunOp(codec, files, op, outcomes);
            r.op.id == id && LeavesPair(codec, was, data, r.op.ok, Visible(r.files, id))
    decreases Rank(op)
  {
    if op.Returned? {
    } else {
      var next := OpStep(codec, files, op, First(outcomes));
      WriteStep(codec, files, op, First(outcomes), id, data, was);
      RunWrite(codec, next.files, next.op, Later(outcomes), id, data, was);
    }
  }

  // ---- How exactly a write fails ----

  /** The write gets as far as its second rename, and that fails. */
  predicate SecondRenameFails(codec: Codec, files: Files, op: Op, outcomes: seq<Outcome>)
    decreases Rank(op)
  {
    if op.Returned? then false
    else if op.RenamingThumb? then !(First(outcomes).Fine? && op.thumbTmp in files)
    else
      var next := OpStep(codec, files, op, First(outcomes));
      SecondRenameFails(codec, next.files, next.op, Later(outcomes))
  }

  lemma {:induction false} CleaningRenamesNothing(codec: Codec, files: Files, op: Op, outcomes: seq<Outcome>)
    requires op.Cleaning? || op.Returned?
    ensures !SecondRenameFails(codec, files, op, outcomes)
    decreases Rank(op)
  {
    if op.Returned? {
    } else {
      var next := OpStep(codec, files, op, First(outcomes));
      CleaningRenamesNothing(codec, next.files, next.op, Later(outcomes));
    }
  }

  /** Removing the temporary files at the end changes nothing that is served. */
  lemma {:induction false} CleaningIsInvisible(codec: Codec, files: Files, op: Op, outcomes: seq<Outcome>, id: string)
    requires (op.Cleaning? || op.Returned?) && Holds(codec, files, op)
    ensures var r := RunOp(codec, files, op, outcomes);
            Visible(r.files, id) == Visible(files, id) && r.op.ok == op.ok
    decreases Rank(op)
  {
    if op.Returned? {
    } else {
      var next := OpStep(codec, files, op, First(outcomes));
      StepHolds(codec, files, op, First(outcomes));
      TempsAreInvisible(files, next.files, id);
      CleaningIsInvisible(codec, next.files, next.op, Later(outcomes), id);
    }
  }

  /** What a write shows when it ends. */
  function Ending(codec: Codec, was: Pair, data: Bytes, ok: bool, secondRenameFails: bool): Pair {
    if ok then Pair(Some(data), codec(data))
    else if secondRenameFails then Pair(Some(data), was.thumb)
    else was
  }

  lemma {:induction false} WriteEnds(
    codec: Codec, files: Files, op: Op, outcomes: seq<Outcome>, id: string, data: Bytes, was: Pair)
    requires WriteStage(codec, files, op, id, data, was) && !op.Cleaning?
    requires op.Returned? ==> !op.ok && Visible(files, id) == was
    ensures var r := RunOp(codec, files, op, outcomes);
            && Visible(r.files, id) == Ending(codec, was, data, r.op.ok, SecondRenameFails(codec, files, op, outcomes))
            && (SecondRenameFails(codec, files, op, outcomes) ==> !r.op.ok)
    decreases Rank(op)
  {
    if op.Returned? {
    } else {
      var next := OpStep(codec, files, op, First(outcomes));
      WriteStep(codec, files, op, First(outcomes), id, data, was);
      if next.op.Cleaning? || next.op.Returned? {
        CleaningRenamesNothing(codec, next.files, next.op, Later(outcomes));
        CleaningIsInvisible(codec, next.files, next.op, Later(outcomes), id);
        StoppedShows(codec, files, op, First(outcomes), id, data, was);
      } else {
        WriteEnds(codec, next.files, next.op, Later(outcomes), id, data, was);
      }
    }
  }

  /** The step with which a write stops decides what stays visible. */
  lemma StoppedShows(codec: Codec, files: Files, op: Op, o: Outcome, id: string, data: Bytes, was: Pair)
    requires WriteStage(codec, files, op, id, data, was) && !op.Cleaning? && !op.Returned?
    requires var next := OpStep(codec, files, op, o); next.op.Cleaning? || next.op.Returned?
    ensures var next := OpStep(codec, files, op, o);
            && (next.op.ok ==> op.RenamingThumb? && o.Fine? && op.thumbTmp in files)
            && Visible(next.files, id) == Ending(codec, was, data, next.op.ok, op.RenamingThumb? && !next.op.ok)
  {
    WriteStep(codec, files, op, o, id, data, was);
    ServedPathsAreNotTemp(id);
    PathsNameTheirId(id, id);
  }

  /**
   In terms of the calls made: the data decodes, both temporary files are created
   under new names and filled, the image is renamed, and then the thumbnail is not.
   */
  predicate OnlyThumbRenameFails(codec: Codec, files: Files, id: string, data: Bytes, outcomes: seq<Outcome>) {
    && codec(data).Some?
    && At(outcomes, 2).Fine? && TempPath(Thumbs, id, At(outcomes, 2).random) !in files
    && At(outcomes, 3).Fine?
    && At(outcomes, 4).Fine? && TempPath(Base, id, At(outcomes, 4).random) !in files
    && At(outcomes, 5).Fine?
    && At(outcomes, 6).Fine? && At(outcomes, 7).Fail?
  }

  lemma RenamesFail(codec: Codec, files: Files, op: Op, outcomes: seq<Outcome>)
    requires op.RenamingImage? && op.thumbTmp in files && op.imgTmp in files
    requires op.thumbTmp != op.imgTmp && op.thumbTmp != ImagePath(op.id)
    ensures SecondRenameFails(codec, files, op, outcomes) <==> First(outcomes).Fine? && First(Later(outcomes)).Fail?
  {
    var next := OpStep(codec, files, op, First(outcomes));
    if next.op.Cleaning? {
      CleaningRenamesNothing(codec, next.files, next.op, Later(outcomes));
    }
  }

  lemma ImageTempThenRenamesFail(codec: Codec, files: Files, op: Op, outcomes: seq<Outcome>)
    requires op.CreatingImage? && op.thumbTmp in files && op.thumbTmp.dir == Thumbs
    ensures SecondRenameFails(codec, files, op, outcomes) <==>
              && First(outcomes).Fine? && TempPath(Base, op.id, First(outcomes).random) !in files
              && First(Later(outcomes)).Fine?
              && First(Later(Later(outcomes))).Fine? && First(Later(Later(Later(outcomes)))).Fail?
  {
    var rest := Later(outcomes);
    var created := OpStep(codec, files, op, First(outcomes));
    if created.op.Cleaning? {
      CleaningRenamesNothing(codec, created.files, created.op, rest);
    } else {
      var filled := OpStep(codec, created.files, created.op, First(rest));
      if filled.op.Cleaning? {
        CleaningRenamesNothing(codec, filled.files, filled.op, Later(rest));
      } else {
        RenamesFail(codec, filled.files, filled.op, Later(rest));
      }
    }
  }

  lemma ThumbTempThenRenamesFail(codec: Codec, files: Files, op: Op, outcomes: seq<Outcome>)
    requires op.CreatingThumb?
    ensures SecondRenameFails(codec, files, op, outcomes) <==>
              && First(outcomes).Fine? && TempPath(Thumbs, op.id, First(outcomes).random) !in files
              && First(Later(outcomes)).Fine?
              && var rest := Later(Later(outcomes));
              && First(rest).Fine? && TempPath(Base, op.id, First(rest).random) !in files
              && First(Later(rest)).Fine?
              && First(Later(Later(rest))).Fine? && First(Later(Later(Later(rest)))).Fail?
  {
    var rest := Later(outcomes);
    var created := OpStep(codec, files, op, First(outcomes));
    if created.op.Returned? {
      CleaningRenamesNothing(codec, created.files, created.op, rest);
    } else {
      var filled := OpStep(codec, created.files, created.op, First(rest));
      if filled.op.Cleaning? {
        CleaningRenamesNothing(codec, filled.files, filled.op, Later(rest));
      } else {
        ImageTempThenRenamesFail(codec, filled.files, filled.op, Later(rest));
      }
    }
  }

  /** Exactly when the second rename of a write is the one that fails. */
  lemma SecondRenameFailsIff(codec: Codec, files: Files, outcomes: seq<Outcome>, id: string, data: Bytes)
    ensures SecondRenameFails(codec, files, Waiting(id, data), outcomes)
       <==> OnlyThumbRenameFails(codec, files, id, data, outcomes)
  {
    var decoding := OpStep(codec, files, Waiting(id, data), First(outcomes));
    var decoded := OpStep(codec, files, decoding.op, First(Later(outcomes)));
    assert SecondRenameFails(codec, files, Waiting(id, data), outcomes)
        == SecondRenameFails(codec, files, decoding.op, Later(outcomes))
        == SecondRenameFails(codec, files, decoded.op, Later(Later(outcomes)));
    if decoded.op.Returned? {
      CleaningRenamesNothing(codec, files, decoded.op, Later(Later(outcomes)));
    } else {
      ThumbTempThenRenamesFail(codec, files, decoded.op, Later(Later(outcomes)));
      var second := Later(Later(outcomes));
      var fourth := Later(Later(second));
      var sixth := Later(Later(fourth));
      assert First(second) == At(outcomes, 2) && First(Later(second)) == At(outcomes, 3);
      assert First(fourth) == At(outcomes, 4) && First(Later(fourth)) == At(outcomes, 5);
      assert First(sixth) == At(outcomes, 6) && First(Later(sixth)) == At(outcomes, 7);
    }
  }

  /**
   A failed write leaves the pair as it was if and only if it was not the rename
   of the thumbnail alone that failed, or the image was the same.
   */
  lemma FailedWriteChangesNothingIff(codec: Codec, files: Files, outcomes: seq<Outcome>, id: string, data: Bytes)
    ensures var r := RunOp(codec, files, Waiting(id, data), outcomes);
            var now, was := Visible(r.files, id), Visible(files, id);
            && (OnlyThumbRenameFails(codec, files, id, data, outcomes) ==> !r.op.ok)
            && (!r.op.ok ==>
                  (now == was <==> !OnlyThumbRenameFails(codec, files, id, data, outcomes) || was.image == Some(data)))
            && (!r.op.ok && now != was ==> now == Pair(Some(data), was.thumb))
  {
    SecondRenameFailsIff(codec, files, outcomes, id, data);
    WriteEnds(codec, files, Waiting(id, data), outcomes, id, data, Visible(files, id));
  }

  function SameThumb(data: Bytes): Option<Bytes> { Some([4]) }

  const OLD_FILES: Files := map[ImagePath("a") := [1], ThumbPath("a") := [2]]
  const NEW_IMAGE: Bytes := [3]
  const ONLY_EIGHTH_FAILS: seq<Outcome> :=
    [Fine("r"), Fine("r"), Fine("r"), Fine("r"), Fine("r"), Fine("r"), Fine("r"), Fail([]), Fine("r"), Fine("r")]

  /** With one failing call out of ten, a write reports failure and leaves the new image beside the old thumbnail. */
  lemma FailedWriteLeavesNewImage()
    ensures var r := RunOp(SameThumb, OLD_FILES, Waiting("a", NEW_IMAGE), ONLY_EIGHTH_FAILS);
            && !r.op.ok && Visible(OLD_FILES, "a") == Pair(Some([1]), Some([2]))
            && Visible(r.files, "a") == Pair(Some(NEW_IMAGE), Some([2]))
  {
    assert OnlyThumbRenameFails(SameThumb, OLD_FILES, "a", NEW_IMAGE, ONLY_EIGHTH_FAILS);
    FailedWriteChangesNothingIff(SameThumb, OLD_FILES, ONLY_EIGHTH_FAILS, "a", NEW_IMAGE);
  }

  /** A delete ends with both files gone, or reports failure and leaves both, or only the thumbnail. */
  lemma RunDelete(codec: Codec, files: Files, outcomes: seq<Outcome>, id: string)
    ensures var r := RunOp(codec, files, RemovingImage(id), outcomes);
            var was, now := Visible(files, id), Visible(r.files, id);
            if r.op.ok then now == Pair(None, None) else now == was || now == Pair(None, was.thumb)
  {
    PathsNameTheirId(id, id);
    var next := OpStep(codec, files, RemovingImage(id), First(outcomes));
    if next.op.RemovingThumb? {
      assert RunOp(codec, next.files, next.op, Later(outcomes))
          == OpStep(codec, next.files, next.op, First(Later(outcomes)));
    }
  }

  lemma {:induction false} RunKeepsOthers(codec: Codec, files: Files, op: Op, outcomes: seq<Outcome>, other: string)
    requires other != op.id && Holds(codec, files, op)
    ensures Visible(RunOp(codec, files, op, outcomes).files, other) == Visible(files, other)
    decreases Rank(op)
  {
    if op.Returned? {
    } else {
      var next := OpStep(codec, files, op, First(outcomes));
      StepKeepsOthers(codec, files, op, First(outcomes), other);
      StepHolds(codec, files, op, First(outcomes));
      RunKeepsOthers(codec, next.files, next.op, Later(outcomes), other);
    }
  }

  lemma {:induction false} RunKeepsFilesComplete(
    codec: Codec, files: Files, accepted: set<(string, Bytes)>, op: Op, outcomes: seq<Outcome>)
    requires FilesInv(codec, accepted, files) && WasAccepted(accepted, op) && Holds(codec, files, op)
    ensures FilesInv(codec, accepted, RunOp(codec, files, op, outcomes).files)
    decreases Rank(op)
  {
    if op.Returned? {
    } else {
      var o := First(outcomes);
      var next := OpStep(codec, files, op, o);
      StepKeepsFilesComplete(codec, files, accepted, op, o);
      StepHolds(codec, files, op, o);
      StepKeepsAccepted(codec, files, op, o, accepted);
      RunKeepsFilesComplete(codec, next.files, accepted, next.op, Later(outcomes));
    }
  }

  // ---- Without I/O errors ----

  /** No system call fails, and every temporary name is new. */
  predicate Smooth(codec: Codec, files: Files, op: Op, outcomes: seq<Outcome>)
    decreases Rank(op)
  {
    op.Returned? ||
    var o := First(outcomes);
    && o.Fine?
    && (op.CreatingThumb? ==> TempPath(Thumbs, op.id, o.random) !in files)
    && (op.CreatingImage? ==> TempPath(Base, op.id, o.random) !in files)
    && Smooth(codec, OpStep(codec, files, op, o).files, OpStep(codec, files, op, o).op, Later(outcomes))
  }

  /** Whether the operation can still end well, or is bound to fail. */
  predicate OnTrack(codec: Codec, op: Op) {
    match op
    case Waiting(_, data) => codec(data).Some?
    case Decoding(_, data) => codec(data).Some?
    case Cleaning(_, _, ok) => ok
    case Returned(_, ok) => ok
    case _ => true
  }

  predicate BeforeImage(op: Op) {
    op.Waiting? || op.Decoding? || (op.Returned? && !op.ok)
  }

  /** Then a write fails only for data that does not decode, and leaves everything as it was. */
  lemma {:induction false} SmoothRun(codec: Codec, files: Files, op: Op, outcomes: seq<Outcome>)
    requires Smooth(codec, files, op, outcomes) && Holds(codec, files, op)
    ensures var r := RunOp(codec, files, op, outcomes);
            && r.op.ok == OnTrack(codec, op)
            && (!OnTrack(codec, op) && BeforeImage(op) ==> r.files == files)
    decreases Rank(op)
  {
    if op.Returned? {
    } else {
      var next := OpStep(codec, files, op, First(outcomes));
      StepHolds(codec, files, op, First(outcomes));
      SmoothRun(codec, next.files, next.op, Later(outcomes));
    }
  }

  /** And it removes every temporary file it made. */
  lemma {:induction false} SmoothRunLeavesNoTemp(codec: Codec, files: Files, op: Op, outcomes: seq<Outcome>, p: Path)
    requires Smooth(codec, files, op, outcomes) && Holds(codec, files, op) && IsTemp(p)
    requires p in RunOp(codec, files, op, outcomes).files
    ensures p in files && p !in Owns(op)
    decreases Rank(op)
  {
    if op.Returned? {
    } else {
      var o := First(outcomes);
      var next := OpStep(codec, files, op, o);
      StepHolds(codec, files, op, o);
      SmoothRunLeavesNoTemp(codec, next.files, next.op, Later(outcomes), p);
      StepAccounts(codec, files, op, o, p);
    }
  }
}
