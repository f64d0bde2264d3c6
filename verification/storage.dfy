/**
 The store as the server calls it, one operation at a time, updating the files
 in place. `outcomes` says how the system calls made end, in order. Write and
 Delete are proved to be the runs of StorageModel, so what StorageSolo proves of
 those holds here.
 */
module Storage {
  import opened Options
  import opened Png
  import opened StorageModel

  datatype SaveError = NoError | BadPng | ImageTooLarge | IdCollision | Failure

  // ---- Temporary files ----

  datatype Written = Written(files: Files, path: Option<Path>, rest: seq<Outcome>)

  /** writeTemp: a complete temporary file, or none unless even its removal failed. */
  function TempWritten(files: Files, dir: Dir, id: string, content: Bytes, outcomes: seq<Outcome>): Written {
    var created := First(outcomes);
    if created.Fail? || TempPath(dir, id, created.random) in files then Written(files, None, Later(outcomes))
    else
      var tmp := TempPath(dir, id, created.random);
      var filled, rest := First(Later(outcomes)), Later(Later(outcomes));
      if filled.Fine? then Written(files[tmp := content], Some(tmp), rest)
      else
        var partial := files[tmp := filled.partial];
        Written(if First(rest).Fine? then partial - {tmp} else partial, None, Later(rest))
  }

  lemma ThumbTempSteps(codec: Codec, files: Files, id: string, data: Bytes, thumb: Bytes, outcomes: seq<Outcome>)
    ensures var w := TempWritten(files, Thumbs, id, thumb, outcomes);
            RunOp(codec, files, CreatingThumb(id, data, thumb), outcomes)
            == if w.path.Some? then RunOp(codec, w.files, CreatingImage(id, data, thumb, w.path.value), w.rest)
               else Result(w.files, Returned(id, false))
  {
    var o := First(outcomes);
    if o.Fine? && TempPath(Thumbs, id, o.random) !in files {
      var tmp := TempPath(Thumbs, id, o.random);
      var filled, rest := First(Later(outcomes)), Later(Later(outcomes));
      assert files[tmp := []][tmp := thumb] == files[tmp := thumb];
      if filled.Fail? {
        var partial := files[tmp := filled.partial];
        assert files[tmp := []][tmp := filled.partial] == partial;
        CleanOne(codec, partial, id, tmp, rest);
      }
    }
  }

  lemma CleanOne(codec: Codec, files: Files, id: string, tmp: Path, outcomes: seq<Outcome>)
    ensures RunOp(codec, files, Cleaning(id, [tmp], false), outcomes)
            == Result(if First(outcomes).Fine? then files - {tmp} else files, Returned(id, false))
  {
    var next := OpStep(codec, files, Cleaning(id, [tmp], false), First(outcomes));
    assert next.op == Cleaning(id, [], false);
    assert RunOp(codec, next.files, next.op, Later(outcomes)) == Result(next.files, Returned(id, false));
  }

  lemma ImageTempSteps(
    codec: Codec, files: Files, id: string, data: Bytes, thumb: Bytes, thumbTmp: Path, outcomes: seq<Outcome>)
    ensures var w := TempWritten(files, Base, id, data, outcomes);
            RunOp(codec, files, CreatingImage(id, data, thumb, thumbTmp), outcomes)
            == if w.path.Some? then
                 RunOp(codec, w.files, RenamingImage(id, data, thumb, thumbTmp, w.path.value), w.rest)
               else RunOp(codec, w.files, Cleaning(id, [thumbTmp], false), w.rest)
  {
    var o := First(outcomes);
    if o.Fine? && TempPath(Base, id, o.random) !in files {
      var tmp := TempPath(Base, id, o.random);
      var filled, rest := First(Later(outcomes)), Later(Later(outcomes));
      assert files[tmp := []][tmp := data] == files[tmp := data];
      if filled.Fail? {
        var partial := files[tmp := filled.partial];
        assert files[tmp := []][tmp := filled.partial] == partial;
        assert [tmp, thumbTmp][1..] == [thumbTmp];
        assert RunOp(codec, files[tmp := []], FillingImage(id, data, thumb, thumbTmp, tmp), Later(outcomes))
            == RunOp(codec, partial, Cleaning(id, [tmp, thumbTmp], false), rest)
            == RunOp(codec, if First(rest).Fine? then partial - {tmp} else partial,
                     Cleaning(id, [thumbTmp], false), Later(rest));
      }
    }
  }

  /** The two deferred removals of write. */
  lemma CleanTwo(codec: Codec, files: Files, id: string, a: Path, b: Path, ok: bool, outcomes: seq<Outcome>)
    ensures var files1 := if First(outcomes).Fine? then files - {a} else files;
            var files2 := if First(Later(outcomes)).Fine? then files1 - {b} else files1;
            RunOp(codec, files, Cleaning(id, [a, b], ok), outcomes) == Result(files2, Returned(id, ok))
  {
    var one := OpStep(codec, files, Cleaning(id, [a, b], ok), First(outcomes));
    assert one.op == Cleaning(id, [b], ok);
    var two := OpStep(codec, one.files, one.op, First(Later(outcomes)));
    assert two.op == Cleaning(id, [], ok);
    assert RunOp(codec, two.files, two.op, Later(Later(outcomes))) == Result(two.files, Returned(id, ok));
  }

  /** The two renames of write, of which the second is only tried after the first. */
  lemma RenameSteps(codec: Codec, files: Files, id: string, data: Bytes, thumb: Bytes,
                    thumbTmp: Path, imgTmp: Path, outcomes: seq<Outcome>)
    ensures var first := First(outcomes).Fine? && imgTmp in files;
            var files1 := if first then Renamed(files, imgTmp, ImagePath(id)) else files;
            var rest := if first then Later(Later(outcomes)) else Later(outcomes);
            var ok := first && First(Later(outcomes)).Fine? && thumbTmp in files1;
            var files2 := if ok then Renamed(files1, thumbTmp, ThumbPath(id)) else files1;
            RunOp(codec, files, RenamingImage(id, data, thumb, thumbTmp, imgTmp), outcomes)
            == RunOp(codec, files2, Cleaning(id, [imgTmp, thumbTmp], ok), rest)
  {
  }

  /** The two removals of a delete, of which the second is only tried after the first. */
  lemma DeleteSteps(codec: Codec, files: Files, id: string, outcomes: seq<Outcome>)
    ensures var files1 := files - {ImagePath(id)};
            RunOp(codec, files, RemovingImage(id), outcomes)
            == if First(outcomes).Fail? then Result(files, Returned(id, false))
               else if First(Later(outcomes)).Fail? then Result(files1, Returned(id, false))
               else Result(files1 - {ThumbPath(id)}, Returned(id, true))
  {
    var one := OpStep(codec, files, RemovingImage(id), First(outcomes));
    assert RunOp(codec, files, RemovingImage(id), outcomes) == RunOp(codec, one.files, one.op, Later(outcomes));
    if one.op.RemovingThumb? {
      var two := OpStep(codec, one.files, one.op, First(Later(outcomes)));
      assert RunOp(codec, one.files, one.op, Later(outcomes)) == two;
    }
  }

  class Store {
    const codec: Codec
    const places: nat              // capacity of decodeSem
    var files: Files
    var decoding: nat              // places of decodeSem taken

    /** Between two calls no decode is running, so that the next one finds a place. */
    ghost predicate Valid()
      reads this
    {
      decoding == 0 < places
    }

    constructor (codec: Codec, places: nat, found: Files)
      requires places > 0
      ensures Valid() && this.codec == codec && files == found
    {
      this.codec := codec;
      this.places := places;
      files := found;
      decoding := 0;
    }

    /** `listed` is what the pattern matches; the first file that cannot be removed ends it. */
    method RemoveStaleTemps(listed: seq<Path>, outcomes: seq<Outcome>) returns (ok: bool)
      requires IsListing(files, listed)
      modifies `files
      ensures Sweep(files, ok) == Swept(old(files), listed, outcomes)
      ensures ok ==> forall p :: p in files ==> !IsTemp(p)
      ensures forall p :: p in files ==> p in old(files) && files[p] == old(files)[p]
      ensures forall p :: p in old(files) && !IsTemp(p) ==> p in files
    {
      SweepClears(files, listed, outcomes);
      var i, rest := 0, outcomes;
      while i < |listed|
        invariant 0 <= i <= |listed|
        invariant Swept(files, listed[i..], rest) == Swept(old(files), listed, outcomes)
      {
        if First(rest).Fail? {
          return false;
        }
        files := files - {listed[i]};
        assert listed[i..][1..] == listed[i + 1..];
        i, rest := i + 1, Later(rest);
      }
      return true;
    }

    method Remove(p: Path, o: Outcome)
      modifies `files
      ensures files == if o.Fine? then old(files) - {p} else old(files)
    {
      if o.Fine? {
        files := files - {p};
      }
    }

    method WriteTemp(dir: Dir, id: string, content: Bytes, outcomes: seq<Outcome>)
      returns (path: Option<Path>, rest: seq<Outcome>)
      modifies `files
      ensures Written(files, path, rest) == TempWritten(old(files), dir, id, content, outcomes)
    {
      var created := First(outcomes);
      rest := Later(outcomes);
      if created.Fail? || TempPath(dir, id, created.random) in files {
        return None, rest;
      }
      var tmp := TempPath(dir, id, created.random);
      files := files[tmp := []];
      var filled := First(rest);
      rest := Later(rest);
      if filled.Fail? {
        files := files[tmp := filled.partial];
        assert files == old(files)[tmp := filled.partial];
        Remove(tmp, First(rest));
        return None, Later(rest);
      }
      files := files[tmp := content];
      assert files == old(files)[tmp := content];
      return Some(tmp), rest;
    }

    method WriteThumbTemp(id: string, data: Bytes, outcomes: seq<Outcome>)
      returns (path: Option<Path>, rest: seq<Outcome>)
      requires Valid()
      modifies this
      ensures Valid()
      ensures path.Some? ==> codec(data).Some?
      ensures RunOp(codec, old(files), Waiting(id, data), outcomes)
              == if path.Some? then RunOp(codec, files, CreatingImage(id, data, codec(data).value, path.value), rest)
                 else Result(files, Returned(id, false))
    {
      assert decoding < places;
      decoding := decoding + 1;
      var src := codec(data);
      if src.None? {
        decoding := decoding - 1;
        assert RunOp(codec, files, Decoding(id, data), Later(outcomes)) == Result(files, Returned(id, false));
        return None, outcomes;
      }
      decoding := decoding - 1;
      var afterDecode := Later(Later(outcomes));
      assert RunOp(codec, files, Waiting(id, data), outcomes)
          == RunOp(codec, files, Decoding(id, data), Later(outcomes))
          == RunOp(codec, files, CreatingThumb(id, data, src.value), afterDecode);
      ThumbTempSteps(codec, files, id, data, src.value, afterDecode);
      path, rest := WriteTemp(Thumbs, id, src.value, afterDecode);
    }

    method Rename(from: Path, to: Path, o: Outcome) returns (ok: bool)
      modifies `files
      ensures ok == (o.Fine? && from in old(files))
      ensures files == if o.Fine? && from in old(files) then Renamed(old(files), from, to) else old(files)
    {
      if o.Fail? || from !in files {
        return false;
      }
      files := (files - {from})[to := files[from]];
      return true;
    }

    /** Installs data as the image of id, with a fresh thumbnail. */
    method Write(id: string, data: Bytes, outcomes: seq<Outcome>) returns (ok: bool)
      requires Valid()
      modifies this
      ensures Valid()
      ensures Result(files, Returned(id, ok)) == RunOp(codec, old(files), Waiting(id, data), outcomes)
    {
      var thumbTmp, rest := WriteThumbTemp(id, data, outcomes);
      if thumbTmp.None? {
        return false;
      }
      ImageTempSteps(codec, files, id, data, codec(data).value, thumbTmp.value, rest);
      var imgTmp;
      imgTmp, rest := WriteTemp(Base, id, data, rest);
      if imgTmp.None? {
        CleanOne(codec, files, id, thumbTmp.value, rest);
        Remove(thumbTmp.value, First(rest));
        return false;
      }
      RenameSteps(codec, files, id, data, codec(data).value, thumbTmp.value, imgTmp.value, rest);
      var renamed := Rename(imgTmp.value, ImagePath(id), First(rest));
      rest := Later(rest);
      ok := false;
      if renamed {
        ok := Rename(thumbTmp.value, ThumbPath(id), First(rest));
        rest := Later(rest);
      }
      CleanTwo(codec, files, id, imgTmp.value, thumbTmp.value, ok, rest);
      Remove(imgTmp.value, First(rest));
      Remove(thumbTmp.value, First(Later(rest)));
    }

    /** For a new image. An image file already there means a file without a row. */
    method SaveNew(id: string, data: Bytes, outcomes: seq<Outcome>) returns (error: SaveError)
      requires Valid()
      modifies this
      ensures Valid()
      ensures if ImagePath(id) in old(files) then error == IdCollision && files == old(files)
              else Result(files, Returned(id, error == NoError))
                   == RunOp(codec, old(files), Waiting(id, data), outcomes)
                   && error in {NoError, Failure}
    {
      if ImagePath(id) in files {
        return IdCollision;
      }
      var ok := Write(id, data, outcomes);
      return if ok then NoError else Failure;
    }

    /** Replaces the image of id; `received` is the request's body, unless reading it failed. */
    method Save(id: string, received: Option<Bytes>, outcomes: seq<Outcome>) returns (error: SaveError)
      requires Valid()
      modifies this
      ensures Valid()
      ensures received.None? ==> error == Failure && files == old(files)
      ensures received.Some? && Validate(received.value) == NotPng ==> error == BadPng && files == old(files)
      ensures received.Some? && Validate(received.value) == TooLarge ==> error == ImageTooLarge && files == old(files)
      ensures received.Some? && Validate(received.value) == Png.Valid ==>
                error in {NoError, Failure} &&
                Result(files, Returned(id, error == NoError))
                == RunOp(codec, old(files), Waiting(id, received.value), outcomes)
    {
      if received.None? {
        return Failure;
      }
      var verdict := Validate(received.value);
      if verdict == NotPng {
        return BadPng;
      }
      if verdict == TooLarge {
        return ImageTooLarge;
      }
      var ok := Write(id, received.value, outcomes);
      return if ok then NoError else Failure;
    }

    method Delete(id: string, outcomes: seq<Outcome>) returns (ok: bool)
      requires Valid()
      modifies this
      ensures Valid()
      ensures Result(files, Returned(id, ok)) == RunOp(codec, old(files), RemovingImage(id), outcomes)
    {
      DeleteSteps(codec, files, id, outcomes);
      Remove(ImagePath(id), First(outcomes));
      if First(outcomes).Fail? {
        return false;
      }
      Remove(ThumbPath(id), First(Later(outcomes)));
      return First(Later(outcomes)).Fine?;
    }
  }

  /**
   New: the store of a directory, or an error and what is left of the directory's
   files. `made` is whether both directories exist or can be made, `listed` what
   the pattern matches, unless listing fails.
   */
  method Open(codec: Codec, places: nat, found: Files, made: bool, listed: Option<seq<Path>>, outcomes: seq<Outcome>)
    returns (store: Option<Store>, left: Files)
    requires places > 0 && (listed.Some? ==> IsListing(found, listed.value))
    ensures store.Some? <==>
              made && listed.Some? && forall i :: 0 <= i < |listed.value| ==> At(outcomes, i).Fine?
    ensures store.Some? ==> fresh(store.value) && store.value.Valid() && store.value.codec == codec
    ensures store.Some? ==> store.value.files == left == map p | p in found && !IsTemp(p) :: found[p]
    ensures !made || listed.None? ==> left == found
    ensures forall p :: p in left ==> p in found && left[p] == found[p]
    ensures forall p :: p in found && !IsTemp(p) ==> p in left
  {
    if !made || listed.None? {
      return None, found;
    }
    SweepClears(found, listed.value, outcomes);
    var s := new Store(codec, places, found);
    var ok := s.RemoveStaleTemps(listed.value, outcomes);
    left := s.files;
    if !ok {
      return None, left;
    }
    assert left == map p | p in found && !IsTemp(p) :: found[p];
    return Some(s), left;
  }
}
