/**
 The image store on values: files by path, and the steps one write or delete
 takes, any of which may fail. The same steps are interleaved by StorageRuns
 and run in sequence by the Storage class.
 */
module StorageModel {
  import opened Options
  import opened Png

  /** Decoding, scaling and encoding: the thumbnail of the data, or None when the data does not decode. */
  type Codec = Bytes -> Option<Bytes>

  datatype Dir = Base | Thumbs

  datatype Path = Path(dir: Dir, name: string)

  type Files = map<Path, Bytes>

  function ImagePath(id: string): Path {
    Path(Base, id + ".png")
  }

  function ThumbPath(id: string): Path {
    Path(Thumbs, id + ".png")
  }

  /** os.CreateTemp replaces the star of ".<id>.*.tmp". */
  function TempPath(dir: Dir, id: string, random: string): Path {
    Path(dir, "." + id + "." + random + ".tmp")
  }

  predicate EndsWith(s: string, suffix: string) {
    |s| >= |suffix| && s[|s| - |suffix|..] == suffix
  }

  /** Whether the name matches the glob ".*.tmp" of removeStaleTemps. */
  predicate IsTemp(p: Path) {
    |p.name| >= 5 && p.name[0] == '.' && EndsWith(p.name, ".tmp")
  }

  lemma ServedPathsAreNotTemp(id: string)
    ensures !IsTemp(ImagePath(id)) && !IsTemp(ThumbPath(id))
  {
    assert (id + ".png")[|id|..] == ".png";
    assert ".png"[1] == 'p' && ".tmp"[1] == 't';
  }

  lemma TempPathsAreTemp(dir: Dir, id: string, random: string)
    ensures IsTemp(TempPath(dir, id, random))
  {
    var name := "." + id + "." + random + ".tmp";
    assert name[|name| - 4..] == ".tmp";
  }

  /** The names the pattern matches are those with anything between ".", and ".tmp". */
  lemma IsTempIff(p: Path)
    ensures IsTemp(p) <==> exists middle :: p.name == "." + middle + ".tmp"
  {
    if IsTemp(p) {
      var middle := p.name[1..|p.name| - 4];
      assert p.name == "." + middle + ".tmp";
    }
    if middle :| p.name == "." + middle + ".tmp" {
      assert p.name[|p.name| - 4..] == ".tmp";
    }
  }

  /** A write's temporary files are in the directory of the file each of them becomes, so that renaming is atomic. */
  predicate IsBesideTarget(op: Op) {
    match op
    case FillingThumb(_, _, _, thumbTmp) => thumbTmp.dir == Thumbs
    case CreatingImage(_, _, _, thumbTmp) => thumbTmp.dir == Thumbs
    case FillingImage(_, _, _, thumbTmp, imgTmp) => thumbTmp.dir == Thumbs && imgTmp.dir == Base
    case RenamingImage(_, _, _, thumbTmp, imgTmp) => thumbTmp.dir == Thumbs && imgTmp.dir == Base
    case RenamingThumb(_, _, _, thumbTmp, imgTmp) => thumbTmp.dir == Thumbs && imgTmp.dir == Base
    case _ => true
  }

  lemma StepStaysBesideTarget(codec: Codec, files: Files, op: Op, o: Outcome)
    requires IsBesideTarget(op)
    ensures IsBesideTarget(OpStep(codec, files, op, o).op)
  {
  }

  lemma PathsNameTheirId(a: string, b: string)
    ensures ImagePath(a) == ImagePath(b) ==> a == b
    ensures ThumbPath(a) == ThumbPath(b) ==> a == b
    ensures ImagePath(a) != ThumbPath(b)
  {
    if a + ".png" == b + ".png" {
      assert a == (a + ".png")[..|a|] == (b + ".png")[..|b|] == b;
    }
  }

  /** How one call to the system ends. A fresh temporary name comes with success, a partial write with failure. */
  datatype Outcome = Fine(random: string) | Fail(partial: Bytes)

  datatype Op =
    | Waiting(id: string, data: Bytes)          // for a place in decodeSem
    | Decoding(id: string, data: Bytes)
    | CreatingThumb(id: string, data: Bytes, thumb: Bytes)
    | FillingThumb(id: string, data: Bytes, thumb: Bytes, thumbTmp: Path)
    | CreatingImage(id: string, data: Bytes, thumb: Bytes, thumbTmp: Path)
    | FillingImage(id: string, data: Bytes, thumb: Bytes, thumbTmp: Path, imgTmp: Path)
    | RenamingImage(id: string, data: Bytes, thumb: Bytes, thumbTmp: Path, imgTmp: Path)
    | RenamingThumb(id: string, data: Bytes, thumb: Bytes, thumbTmp: Path, imgTmp: Path)
    | Cleaning(id: string, temps: seq<Path>, ok: bool)
    | RemovingImage(id: string)
    | RemovingThumb(id: string)
    | Returned(id: string, ok: bool)

  datatype Result = Result(files: Files, op: Op)

  function Renamed(files: Files, from: Path, to: Path): Files
    requires from in files
  {
    (files - {from})[to := files[from]]
  }

  /** The next step of a write or delete, given how it ends. */
  function OpStep(codec: Codec, files: Files, op: Op, o: Outcome): Result {
    match op
    case Waiting(id, data) => Result(files, Decoding(id, data))
    case Decoding(id, data) =>
      var decoded := codec(data);
      Result(files, if decoded.Some? then CreatingThumb(id, data, decoded.value) else Returned(id, false))
    case CreatingThumb(id, data, thumb) =>
      if o.Fine? && TempPath(Thumbs, id, o.random) !in files then
        var tmp := TempPath(Thumbs, id, o.random);
        Result(files[tmp := []], FillingThumb(id, data, thumb, tmp))
      else Result(files, Returned(id, false))
    case FillingThumb(id, data, thumb, tmp) =>
      if o.Fine? then Result(files[tmp := thumb], CreatingImage(id, data, thumb, tmp))
      else Result(files[tmp := o.partial], Cleaning(id, [tmp], false))
    case CreatingImage(id, data, thumb, tmp) =>
      if o.Fine? && TempPath(Base, id, o.random) !in files then
        var imgTmp := TempPath(Base, id, o.random);
        Result(files[imgTmp := []], FillingImage(id, data, thumb, tmp, imgTmp))
      else Result(files, Cleaning(id, [tmp], false))
    case FillingImage(id, data, thumb, tmp, imgTmp) =>
      if o.Fine? then Result(files[imgTmp := data], RenamingImage(id, data, thumb, tmp, imgTmp))
      else Result(files[imgTmp := o.partial], Cleaning(id, [imgTmp, tmp], false))
    case RenamingImage(id, data, thumb, tmp, imgTmp) =>
      if o.Fine? && imgTmp in files then
        Result(Renamed(files, imgTmp, ImagePath(id)), RenamingThumb(id, data, thumb, tmp, imgTmp))
      else Result(files, Cleaning(id, [imgTmp, tmp], false))
    case RenamingThumb(id, data, thumb, tmp, imgTmp) =>
      if o.Fine? && tmp in files then
        Result(Renamed(files, tmp, ThumbPath(id)), Cleaning(id, [imgTmp, tmp], true))
      else Result(files, Cleaning(id, [imgTmp, tmp], false))
    case Cleaning(id, temps, ok) =>
      if temps == [] then Result(files, Returned(id, ok))
      else Result(if o.Fine? then files - {temps[0]} else files, Cleaning(id, temps[1..], ok))
    case RemovingImage(id) =>
      if o.Fine? then Result(files - {ImagePath(id)}, RemovingThumb(id)) else Result(files, Returned(id, false))
    case RemovingThumb(id) =>
      if o.Fine? then Result(files - {ThumbPath(id)}, Returned(id, true)) else Result(files, Returned(id, false))
    case Returned(_, _) => Result(files, op)
  }

  function Rank(op: Op): nat {
    match op
    case Waiting(_, _) => 20
    case Decoding(_, _) => 19
    case CreatingThumb(_, _, _) => 18
    case FillingThumb(_, _, _, _) => 17
    case CreatingImage(_, _, _, _) => 16
    case FillingImage(_, _, _, _, _) => 15
    case RenamingImage(_, _, _, _, _) => 14
    case RenamingThumb(_, _, _, _, _) => 13
    case Cleaning(_, temps, _) => 1 + |temps|
    case RemovingImage(_) => 2
    case RemovingThumb(_) => 1
    case Returned(_, _) => 0
  }

  function First(outcomes: seq<Outcome>): Outcome {
    if outcomes == [] then Fail([]) else outcomes[0]
  }

  function Later(outcomes: seq<Outcome>): seq<Outcome> {
    if outcomes == [] then [] else outcomes[1..]
  }

  function At(outcomes: seq<Outcome>, n: nat): Outcome {
    if n < |outcomes| then outcomes[n] else Fail([])
  }

  /** All the steps of one operation with nothing else going on. */
  function RunOp(codec: Codec, files: Files, op: Op, outcomes: seq<Outcome>): (r: Result)
    ensures r.op.Returned?
    decreases Rank(op)
  {
    if op.Returned? then Result(files, op)
    else
      var next := OpStep(codec, files, op, First(outcomes));
      RunOp(codec, next.files, next.op, Later(outcomes))
  }

  // ---- What is visible under an id ----

  function Get(files: Files, p: Path): Option<Bytes> {
    if p in files then Some(files[p]) else None
  }

  datatype Pair = Pair(image: Option<Bytes>, thumb: Option<Bytes>)

  function Visible(files: Files, id: string): Pair {
    Pair(Get(files, ImagePath(id)), Get(files, ThumbPath(id)))
  }

  /** Changes to temporary files are invisible. */
  lemma TempsAreInvisible(files: Files, files': Files, id: string)
    requires forall p :: !IsTemp(p) ==> Get(files, p) == Get(files', p)
    ensures Visible(files, id) == Visible(files', id)
  {
    ServedPathsAreNotTemp(id);
  }

  /** How a write may leave the pair: both new on success; on failure both old, or only the image new. */
  predicate LeavesPair(codec: Codec, was: Pair, data: Bytes, ok: bool, now: Pair) {
    if ok then codec(data).Some? && now == Pair(Some(data), codec(data))
    else now == was || (codec(data).Some? && now == Pair(Some(data), was.thumb))
  }

  /** What an operation owns until it returns: the temporary files it still has to rename or remove. */
  function Owns(op: Op): set<Path> {
    match op
    case FillingThumb(_, _, _, tmp) => {tmp}
    case CreatingImage(_, _, _, tmp) => {tmp}
    case FillingImage(_, _, _, tmp, imgTmp) => {tmp, imgTmp}
    case RenamingImage(_, _, _, tmp, imgTmp) => {tmp, imgTmp}
    case RenamingThumb(_, _, _, tmp, imgTmp) => {tmp, imgTmp}
    case Cleaning(_, temps, _) => set p | p in temps
    case _ => {}
  }

  /** It owns temporary files only, and those it is about to rename are complete. */
  predicate Holds(codec: Codec, files: Files, op: Op) {
    && (forall p :: p in Owns(op) ==> IsTemp(p))
    && match op
       case CreatingThumb(_, data, thumb) => codec(data) == Some(thumb)
       case FillingThumb(_, data, thumb, _) => codec(data) == Some(thumb)
       case CreatingImage(_, data, thumb, tmp) => codec(data) == Some(thumb) && Get(files, tmp) == Some(thumb)
       case FillingImage(_, data, thumb, tmp, imgTmp) =>
         codec(data) == Some(thumb) && Get(files, tmp) == Some(thumb) && imgTmp != tmp
       case RenamingImage(_, data, thumb, tmp, imgTmp) =>
         && codec(data) == Some(thumb) && Get(files, tmp) == Some(thumb)
         && imgTmp != tmp && Get(files, imgTmp) == Some(data)
       case RenamingThumb(_, data, thumb, tmp, _) => codec(data) == Some(thumb) && Get(files, tmp) == Some(thumb)
       case _ => true
  }

  /** What a write of data shows at each step, for a pair that was `was` when it began. */
  predicate Shows(codec: Codec, op: Op, data: Bytes, was: Pair, now: Pair) {
    match op
    case RenamingThumb(_, d, _, _, _) => d == data && now == Pair(Some(data), was.thumb)
    case Cleaning(_, _, ok) => LeavesPair(codec, was, data, ok, now)
    case Returned(_, ok) => LeavesPair(codec, was, data, ok, now)
    case RemovingImage(_) => false
    case RemovingThumb(_) => false
    case _ => op.data == data && now == was
  }

  /** op is a write of data for id, on its way. */
  predicate WriteStage(codec: Codec, files: Files, op: Op, id: string, data: Bytes, was: Pair) {
    op.id == id && Holds(codec, files, op) && Shows(codec, op, data, was, Visible(files, id))
  }

  /** Every step of a write keeps to its stage, however it ends. */
  lemma WriteStep(codec: Codec, files: Files, op: Op, o: Outcome, id: string, data: Bytes, was: Pair)
    requires WriteStage(codec, files, op, id, data, was)
    ensures WriteStage(codec, OpStep(codec, files, op, o).files, OpStep(codec, files, op, o).op, id, data, was)
  {
    StepHolds(codec, files, op, o);
    ServedPathsAreNotTemp(id);
    PathsNameTheirId(id, id);
    if o.Fine? {
      TempPathsAreTemp(Thumbs, id, o.random);
      TempPathsAreTemp(Base, id, o.random);
    }
  }

  lemma StepHolds(codec: Codec, files: Files, op: Op, o: Outcome)
    requires Holds(codec, files, op)
    ensures Holds(codec, OpStep(codec, files, op, o).files, OpStep(codec, files, op, o).op)
  {
    ServedPathsAreNotTemp(op.id);
    if o.Fine? {
      TempPathsAreTemp(Thumbs, op.id, o.random);
      TempPathsAreTemp(Base, op.id, o.random);
    }
  }

  /** A step changes nothing but the files it owns, one new temporary file, and what is served for its id. */
  lemma StepFrame(codec: Codec, files: Files, op: Op, o: Outcome, p: Path)
    requires p !in Owns(op) && p !in Owns(OpStep(codec, files, op, o).op)
    requires p != ImagePath(op.id) && p != ThumbPath(op.id)
    ensures Get(OpStep(codec, files, op, o).files, p) == Get(files, p)
  {
  }

  /** In particular nothing served for another id. */
  lemma StepKeepsOthers(codec: Codec, files: Files, op: Op, o: Outcome, other: string)
    requires other != op.id && Holds(codec, files, op)
    ensures Visible(OpStep(codec, files, op, o).files, other) == Visible(files, other)
  {
    StepHolds(codec, files, op, o);
    ServedPathsAreNotTemp(other);
    PathsNameTheirId(op.id, other);
    PathsNameTheirId(other, op.id);
    StepFrame(codec, files, op, o, ImagePath(other));
    StepFrame(codec, files, op, o, ThumbPath(other));
  }

  // ---- Opening a directory ----

  /** What the pattern of temporary names matches, in the order it is found. */
  predicate IsListing(files: Files, listed: seq<Path>) {
    && (forall p :: p in listed ==> p in files && IsTemp(p))
    && (forall p :: p in files && IsTemp(p) ==> p in listed)
  }

  datatype Sweep = Sweep(files: Files, ok: bool)

  /** Removing the files listed, up to the first that cannot be removed. */
  function Swept(files: Files, listed: seq<Path>, outcomes: seq<Outcome>): Sweep
    decreases |listed|
  {
    if listed == [] then Sweep(files, true)
    else if First(outcomes).Fail? then Sweep(files, false)
    else Swept(files - {listed[0]}, listed[1..], Later(outcomes))
  }

  lemma {:induction false} SweptFiles(files: Files, listed: seq<Path>, outcomes: seq<Outcome>, p: Path)
    ensures var s := Swept(files, listed, outcomes);
            && (p in s.files ==> p in files && s.files[p] == files[p])
            && (p !in listed ==> Get(s.files, p) == Get(files, p))
            && (s.ok && p in listed ==> p !in s.files)
    decreases |listed|
  {
    if listed == [] {
    } else if First(outcomes).Fine? {
      SweptFiles(files - {listed[0]}, listed[1..], Later(outcomes), p);
    }
  }

  lemma {:induction false} SweptIsOkIff(files: Files, listed: seq<Path>, outcomes: seq<Outcome>)
    ensures Swept(files, listed, outcomes).ok <==> forall i :: 0 <= i < |listed| ==> At(outcomes, i).Fine?
    decreases |listed|
  {
    if listed == [] {
    } else {
      SweptIsOkIff(files - {listed[0]}, listed[1..], Later(outcomes));
      assert First(outcomes) == At(outcomes, 0);
      assert forall i :: 0 <= i < |listed| - 1 ==> At(Later(outcomes), i) == At(outcomes, i + 1);
      if Swept(files, listed, outcomes).ok {
        forall i | 0 <= i < |listed| ensures At(outcomes, i).Fine? {
          assert i > 0 ==> At(Later(outcomes), i - 1) == At(outcomes, i);
        }
      }
    }
  }

  /**
   Opening a directory succeeds if and only if every temporary file found can be
   removed, and then none is left; in any case all other files stay as they are.
   */
  lemma SweepClears(files: Files, listed: seq<Path>, outcomes: seq<Outcome>)
    requires IsListing(files, listed)
    ensures var s := Swept(files, listed, outcomes);
            && (s.ok <==> forall i :: 0 <= i < |listed| ==> At(outcomes, i).Fine?)
            && (s.ok ==> forall p :: p in s.files ==> !IsTemp(p))
            && (forall p :: p in s.files ==> p in files && s.files[p] == files[p])
            && (forall p :: p in files && !IsTemp(p) ==> p in s.files)
  {
    var s := Swept(files, listed, outcomes);
    SweptIsOkIff(files, listed, outcomes);
    forall p | p in files || p in s.files
      ensures p in s.files ==> p in files && s.files[p] == files[p]
      ensures !IsTemp(p) ==> p in s.files
      ensures s.ok && p in s.files ==> !IsTemp(p)
    {
      SweptFiles(files, listed, outcomes, p);
    }
  }
}
