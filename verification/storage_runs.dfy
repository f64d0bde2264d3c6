/**
 The store under load: any number of writes and deletes advancing one step at a
 time in any order, each step succeeding or failing, with crashes and restarts.
 */
module StorageRuns {
  import opened Options
  import opened Png
  import opened StorageModel

  /**
   `sem` is how many places of decodeSem are taken. Three fields are kept to
   state properties with: every temporary name given out, the temporary files
   whose removal failed, and what writes were asked to store.
   */
  datatype Disk = Disk(files: Files, ops: map<nat, Op>, sem: nat, up: bool,
                       used: set<Path>, leaked: set<Path>, accepted: set<(string, Bytes)>)

  datatype Event =
    | BeginWrite(k: nat, id: string, data: Bytes)
    | BeginNew(k: nat, id: string, data: Bytes)
    | BeginDelete(k: nat, id: string)
    | Advance(k: nat, o: Outcome)
    | Scribble(k: nat, partial: Bytes)    // part of a temporary file gets written
    | Crash
    | Restart(listed: seq<Path>, outcomes: seq<Outcome>)   // one try to come up again

  predicate IsFresh(d: Disk, p: Path) {
    p !in d.files && p !in d.used
  }

  predicate FreshName(d: Disk, op: Op, o: Outcome) {
    o.Fine? ==>
      && (op.CreatingThumb? ==> IsFresh(d, TempPath(Thumbs, op.id, o.random)))
      && (op.CreatingImage? ==> IsFresh(d, TempPath(Base, op.id, o.random)))
  }

  /** A decode only starts while a place is free; requests only come while the server is up. */
  predicate Enabled(cap: nat, d: Disk, e: Event) {
    match e
    case BeginWrite(k, _, _) => d.up && k !in d.ops
    case BeginNew(k, _, _) => d.up && k !in d.ops
    case BeginDelete(k, _) => d.up && k !in d.ops
    case Advance(k, o) =>
      && k in d.ops && !d.ops[k].Returned? && FreshName(d, d.ops[k], o)
      && (d.ops[k].Waiting? ==> d.sem < cap)
    case Scribble(k, _) => k in d.ops && (d.ops[k].FillingThumb? || d.ops[k].FillingImage?)
    case Crash => d.up
    case Restart(listed, _) => !d.up && IsListing(d.files, listed)
  }

  /** A temporary file left behind by this step: its removal failed. */
  function Leaks(files: Files, op: Op, o: Outcome): set<Path> {
    if op.Cleaning? && op.temps != [] && o.Fail? && op.temps[0] in files then {op.temps[0]} else {}
  }

  function Weight(op: Op): nat {
    if op.Decoding? then 1 else 0
  }

  function Advanced(codec: Codec, d: Disk, k: nat, o: Outcome): Disk
    requires k in d.ops && (d.ops[k].Decoding? ==> d.sem > 0)
  {
    var op := d.ops[k];
    var r := OpStep(codec, d.files, op, o);
    Disk(r.files, if r.op.Returned? then d.ops - {k} else d.ops[k := r.op],
         d.sem + Weight(r.op) - Weight(op), d.up,
         d.used + Owns(r.op), d.leaked + Leaks(d.files, op, o), d.accepted)
  }

  function Filling(op: Op): Path
    requires op.FillingThumb? || op.FillingImage?
  {
    if op.FillingThumb? then op.thumbTmp else op.imgTmp
  }

  function Next(codec: Codec, cap: nat, d: Disk, e: Event): Disk
    requires Enabled(cap, d, e) && (forall k :: k in d.ops && d.ops[k].Decoding? ==> d.sem > 0)
  {
    match e
    case BeginWrite(k, id, data) =>
      d.(ops := d.ops[k := Waiting(id, data)], accepted := d.accepted + {(id, data)})
    case BeginNew(k, id, data) =>
      if ImagePath(id) in d.files then d
      else d.(ops := d.ops[k := Waiting(id, data)], accepted := d.accepted + {(id, data)})
    case BeginDelete(k, id) => d.(ops := d.ops[k := RemovingImage(id)])
    case Advance(k, o) => Advanced(codec, d, k, o)
    case Scribble(k, partial) => d.(files := d.files[Filling(d.ops[k]) := partial])
    case Crash => d.(ops := map[], sem := 0, up := false)
    case Restart(listed, outcomes) =>
      var swept := Swept(d.files, listed, outcomes);
      d.(files := swept.files, up := swept.ok, leaked := if swept.ok then {} else d.leaked)
  }

  // ---- Invariant ----

  /** p is what is served for some id, with the complete bytes of one accepted, decodable image. */
  predicate IsComplete(codec: Codec, accepted: set<(string, Bytes)>, p: Path, bytes: Bytes) {
    exists a :: a in accepted && codec(a.1).Some? &&
      ((p == ImagePath(a.0) && bytes == a.1) || (p == ThumbPath(a.0) && bytes == codec(a.1).value))
  }

  predicate FilesInv(codec: Codec, accepted: set<(string, Bytes)>, files: Files) {
    forall p :: p in files && !IsTemp(p) ==> IsComplete(codec, accepted, p, files[p])
  }

  predicate WasAccepted(accepted: set<(string, Bytes)>, op: Op) {
    op.Cleaning? || op.Returned? || op.RemovingImage? || op.RemovingThumb? || (op.id, op.data) in accepted
  }

  predicate OpInv(codec: Codec, d: Disk, op: Op) {
    WasAccepted(d.accepted, op) && Holds(codec, d.files, op) && Owns(op) <= d.used
  }

  predicate Apart(ops: map<nat, Op>) {
    forall j, k :: j in ops && k in ops && j != k ==> Owns(ops[j]) !! Owns(ops[k])
  }

  predicate TempsAccounted(files: Files, ops: map<nat, Op>, leaked: set<Path>) {
    forall p :: p in files && IsTemp(p) && p !in leaked ==> exists k :: k in ops && p in Owns(ops[k])
  }

  function Decoders(ops: map<nat, Op>): set<nat> {
    set k | k in ops && ops[k].Decoding?
  }

  predicate Inv(codec: Codec, cap: nat, d: Disk) {
    && FilesInv(codec, d.accepted, d.files)
    && (forall k :: k in d.ops ==> OpInv(codec, d, d.ops[k]))
    && Apart(d.ops)
    && (d.up ==> TempsAccounted(d.files, d.ops, d.leaked))
    && d.sem == |Decoders(d.ops)| <= cap
    && (!d.up ==> d.ops == map[])
  }

  lemma DecodersHoldPlaces(codec: Codec, cap: nat, d: Disk)
    requires Inv(codec, cap, d)
    ensures forall k :: k in d.ops && d.ops[k].Decoding? ==> d.sem > 0
  {
    forall k | k in d.ops && d.ops[k].Decoding? ensures d.sem > 0 {
      assert k in Decoders(d.ops);
    }
  }

  // ---- One step of one operation ----

  lemma StepKeepsFilesComplete(codec: Codec, files: Files, accepted: set<(string, Bytes)>, op: Op, o: Outcome)
    requires FilesInv(codec, accepted, files) && WasAccepted(accepted, op) && Holds(codec, files, op)
    ensures FilesInv(codec, accepted, OpStep(codec, files, op, o).files)
  {
    var r := OpStep(codec, files, op, o);
    StepHolds(codec, files, op, o);
    forall p | p in r.files && !IsTemp(p)
      ensures IsComplete(codec, accepted, p, r.files[p])
    {
      if op.RenamingImage? && p == ImagePath(op.id) && r.op.RenamingThumb? {
        var a := (op.id, op.data);
        assert a in accepted;
      } else if op.RenamingThumb? && p == ThumbPath(op.id) && r.op.Cleaning? && r.op.ok {
        var a := (op.id, op.data);
        assert a in accepted;
      } else {
        assert p in files && files[p] == r.files[p];
      }
    }
  }

  /** The other operations do not notice. */
  lemma StepKeepsHolds(codec: Codec, files: Files, op: Op, o: Outcome, other: Op)
    requires Holds(codec, files, op) && Holds(codec, files, other)
    requires Owns(op) !! Owns(other) && Owns(OpStep(codec, files, op, o).op) !! Owns(other)
    ensures Holds(codec, OpStep(codec, files, op, o).files, other)
  {
    ServedPathsAreNotTemp(op.id);
    forall p | p in Owns(other)
      ensures Get(OpStep(codec, files, op, o).files, p) == Get(files, p)
    {
      StepFrame(codec, files, op, o, p);
    }
  }

  /** What an operation owns after a step it owned before, or it is a fresh name. */
  lemma StepOwns(codec: Codec, d: Disk, op: Op, o: Outcome)
    requires FreshName(d, op, o)
    ensures var r := OpStep(codec, d.files, op, o);
            forall p :: p in Owns(r.op) ==> p in Owns(op) || IsFresh(d, p)
  {
  }

  /** A temporary file that it stops owning is gone, or leaked. */
  lemma StepAccounts(codec: Codec, files: Files, op: Op, o: Outcome, p: Path)
    requires Holds(codec, files, op)
    requires var r := OpStep(codec, files, op, o);
             p in r.files && IsTemp(p) && p !in Owns(r.op) && p !in Leaks(files, op, o)
    ensures p in files && p !in Owns(op)
  {
    ServedPathsAreNotTemp(op.id);
  }

  lemma DecodersWithout(ops: map<nat, Op>, k: nat)
    requires k in ops
    ensures |Decoders(ops - {k})| == |Decoders(ops)| - Weight(ops[k])
  {
    assert Decoders(ops - {k}) == Decoders(ops) - {k};
  }

  lemma DecodersWith(ops: map<nat, Op>, k: nat, op: Op)
    requires k in ops
    ensures |Decoders(ops[k := op])| == |Decoders(ops - {k})| + Weight(op)
  {
    assert Decoders(ops[k := op]) == if op.Decoding? then Decoders(ops - {k}) + {k} else Decoders(ops - {k});
  }

  lemma AdvancedSem(codec: Codec, cap: nat, d: Disk, k: nat, o: Outcome)
    requires d.sem == |Decoders(d.ops)| <= cap
    requires Enabled(cap, d, Advance(k, o)) && (d.ops[k].Decoding? ==> d.sem > 0)
    ensures var t := Advanced(codec, d, k, o); t.sem == |Decoders(t.ops)| <= cap
  {
    DecodersWithout(d.ops, k);
    DecodersWith(d.ops, k, OpStep(codec, d.files, d.ops[k], o).op);
  }

  lemma AdvancedApart(codec: Codec, d: Disk, k: nat, o: Outcome, j: nat)
    requires k in d.ops && j in d.ops && j != k && Apart(d.ops)
    requires OpInv(codec, d, d.ops[k]) && OpInv(codec, d, d.ops[j]) && FreshName(d, d.ops[k], o)
    ensures Owns(d.ops[j]) !! Owns(OpStep(codec, d.files, d.ops[k], o).op)
    ensures Holds(codec, OpStep(codec, d.files, d.ops[k], o).files, d.ops[j])
  {
    StepOwns(codec, d, d.ops[k], o);
    StepKeepsHolds(codec, d.files, d.ops[k], o, d.ops[j]);
  }

  lemma AdvancedOps(codec: Codec, d: Disk, k: nat, o: Outcome)
    requires forall j :: j in d.ops ==> OpInv(codec, d, d.ops[j])
    requires Apart(d.ops) && k in d.ops && FreshName(d, d.ops[k], o) && (d.ops[k].Decoding? ==> d.sem > 0)
    ensures var t := Advanced(codec, d, k, o);
            Apart(t.ops) && forall j :: j in t.ops ==> OpInv(codec, t, t.ops[j])
  {
    var t := Advanced(codec, d, k, o);
    StepHolds(codec, d.files, d.ops[k], o);
    StepKeepsAccepted(codec, d.files, d.ops[k], o, d.accepted);
    forall j | j in t.ops && j != k
      ensures OpInv(codec, t, t.ops[j]) && Owns(t.ops[j]) !! Owns(OpStep(codec, d.files, d.ops[k], o).op)
    {
      AdvancedApart(codec, d, k, o, j);
    }
  }

  lemma StepKeepsAccepted(codec: Codec, files: Files, op: Op, o: Outcome, accepted: set<(string, Bytes)>)
    requires WasAccepted(accepted, op)
    ensures WasAccepted(accepted, OpStep(codec, files, op, o).op)
  {
  }

  lemma AdvancedTemps(codec: Codec, d: Disk, k: nat, o: Outcome)
    requires TempsAccounted(d.files, d.ops, d.leaked)
    requires k in d.ops && Holds(codec, d.files, d.ops[k]) && (d.ops[k].Decoding? ==> d.sem > 0)
    ensures var t := Advanced(codec, d, k, o); TempsAccounted(t.files, t.ops, t.leaked)
  {
    var op, t := d.ops[k], Advanced(codec, d, k, o);
    var r := OpStep(codec, d.files, op, o);
    forall p | p in t.files && IsTemp(p) && p !in t.leaked
      ensures exists j :: j in t.ops && p in Owns(t.ops[j])
    {
      if p in Owns(r.op) {
        assert k in t.ops && p in Owns(t.ops[k]);
      } else {
        StepAccounts(codec, d.files, op, o, p);
        var j :| j in d.ops && p in Owns(d.ops[j]);
        assert j in t.ops && p in Owns(t.ops[j]);
      }
    }
  }

  lemma AdvancedInv(codec: Codec, cap: nat, d: Disk, k: nat, o: Outcome)
    requires Inv(codec, cap, d) && Enabled(cap, d, Advance(k, o)) && (d.ops[k].Decoding? ==> d.sem > 0)
    ensures Inv(codec, cap, Advanced(codec, d, k, o))
  {
    assert OpInv(codec, d, d.ops[k]);
    StepKeepsFilesComplete(codec, d.files, d.accepted, d.ops[k], o);
    AdvancedOps(codec, d, k, o);
    if d.up { AdvancedTemps(codec, d, k, o); }
    AdvancedSem(codec, cap, d, k, o);
  }

  // ---- The other events ----

  lemma MoreAccepted(codec: Codec, d: Disk, accepted: set<(string, Bytes)>)
    requires FilesInv(codec, d.accepted, d.files) && d.accepted <= accepted
    ensures FilesInv(codec, accepted, d.files)
  {
    forall p | p in d.files && !IsTemp(p) ensures IsComplete(codec, accepted, p, d.files[p]) {
      assert IsComplete(codec, d.accepted, p, d.files[p]);
    }
  }

  lemma MoreOps(files: Files, ops: map<nat, Op>, leaked: set<Path>, k: nat, op: Op)
    requires TempsAccounted(files, ops, leaked) && k !in ops
    ensures TempsAccounted(files, ops[k := op], leaked)
  {
    var more := ops[k := op];
    forall p | p in files && IsTemp(p) && p !in leaked
      ensures exists j :: j in more && p in Owns(more[j])
    {
      var j :| j in ops && p in Owns(ops[j]);
      assert j in more && p in Owns(more[j]);
    }
  }

  lemma MoreDecoders(ops: map<nat, Op>, k: nat, op: Op)
    requires k !in ops && !op.Decoding?
    ensures Decoders(ops[k := op]) == Decoders(ops)
  {
  }

  lemma MoreAcceptedOp(codec: Codec, d: Disk, t: Disk, op: Op)
    requires t.files == d.files && t.used == d.used && d.accepted <= t.accepted && OpInv(codec, d, op)
    ensures OpInv(codec, t, op)
  {
  }

  lemma NewOp(codec: Codec, t: Disk, op: Op)
    requires WasAccepted(t.accepted, op) && (op.Waiting? || op.RemovingImage?)
    ensures OpInv(codec, t, op) && Owns(op) == {}
  {
  }

  lemma ApartWith(ops: map<nat, Op>, k: nat, op: Op)
    requires Apart(ops) && Owns(op) == {}
    ensures Apart(ops[k := op])
  {
  }

  lemma BeginOps(codec: Codec, d: Disk, k: nat, op: Op, accepted: set<(string, Bytes)>)
    requires (forall j :: j in d.ops ==> OpInv(codec, d, d.ops[j])) && Apart(d.ops) && d.accepted <= accepted
    requires WasAccepted(accepted, op) && (op.Waiting? || op.RemovingImage?)
    ensures var t := d.(ops := d.ops[k := op], accepted := accepted);
            Apart(t.ops) && forall j :: j in t.ops ==> OpInv(codec, t, t.ops[j])
  {
    var t := d.(ops := d.ops[k := op], accepted := accepted);
    NewOp(codec, t, op);
    ApartWith(d.ops, k, op);
    forall j | j in t.ops ensures OpInv(codec, t, t.ops[j]) {
      if j != k {
        MoreAcceptedOp(codec, d, t, d.ops[j]);
      }
    }
  }

  lemma BeginInv(codec: Codec, cap: nat, d: Disk, k: nat, op: Op, accepted: set<(string, Bytes)>)
    requires Inv(codec, cap, d) && d.up && k !in d.ops && d.accepted <= accepted
    requires WasAccepted(accepted, op) && (op.Waiting? || op.RemovingImage?)
    ensures Inv(codec, cap, d.(ops := d.ops[k := op], accepted := accepted))
  {
    MoreDecoders(d.ops, k, op);
    MoreAccepted(codec, d, accepted);
    MoreOps(d.files, d.ops, d.leaked, k, op);
    BeginOps(codec, d, k, op, accepted);
  }

  lemma ScribbleOps(codec: Codec, d: Disk, k: nat, partial: Bytes, j: nat)
    requires k in d.ops && (d.ops[k].FillingThumb? || d.ops[k].FillingImage?) && j in d.ops
    requires OpInv(codec, d, d.ops[j]) && Apart(d.ops)
    ensures Holds(codec, d.files[Filling(d.ops[k]) := partial], d.ops[j])
  {
    assert Filling(d.ops[k]) in Owns(d.ops[k]);
    assert forall q :: q in Owns(d.ops[j]) && j != k ==>
      Get(d.files[Filling(d.ops[k]) := partial], q) == Get(d.files, q);
  }

  lemma ScribbleInv(codec: Codec, cap: nat, d: Disk, k: nat, partial: Bytes)
    requires Inv(codec, cap, d) && Enabled(cap, d, Scribble(k, partial))
    ensures Inv(codec, cap, d.(files := d.files[Filling(d.ops[k]) := partial]))
  {
    var t := d.(files := d.files[Filling(d.ops[k]) := partial]);
    assert OpInv(codec, d, d.ops[k]) && Filling(d.ops[k]) in Owns(d.ops[k]);
    forall j | j in t.ops ensures OpInv(codec, t, t.ops[j]) {
      ScribbleOps(codec, d, k, partial, j);
    }
  }

  lemma StoppedInv(codec: Codec, cap: nat, d: Disk, e: Event)
    requires Inv(codec, cap, d) && Enabled(cap, d, e) && (e.Crash? || e.Restart?)
    ensures forall k :: k in d.ops && d.ops[k].Decoding? ==> d.sem > 0
    ensures Inv(codec, cap, Next(codec, cap, d, e))
  {
    DecodersHoldPlaces(codec, cap, d);
    assert Decoders(map[]) == {};
    if e.Restart? {
      SweepClears(d.files, e.listed, e.outcomes);
    }
  }

  /** Each event keeps the invariant. */
  lemma NextInv(codec: Codec, cap: nat, d: Disk, e: Event)
    requires Inv(codec, cap, d) && Enabled(cap, d, e)
    ensures forall k :: k in d.ops && d.ops[k].Decoding? ==> d.sem > 0
    ensures Inv(codec, cap, Next(codec, cap, d, e))
  {
    DecodersHoldPlaces(codec, cap, d);
    match e
    case BeginWrite(k, id, data) => BeginInv(codec, cap, d, k, Waiting(id, data), d.accepted + {(id, data)});
    case BeginNew(k, id, data) =>
      if ImagePath(id) !in d.files {
        BeginInv(codec, cap, d, k, Waiting(id, data), d.accepted + {(id, data)});
      }
    case BeginDelete(k, id) => BeginInv(codec, cap, d, k, RemovingImage(id), d.accepted);
    case Advance(k, o) => AdvancedInv(codec, cap, d, k, o);
    case Scribble(k, partial) => ScribbleInv(codec, cap, d, k, partial);
    case _ => StoppedInv(codec, cap, d, e);
  }

  // ---- Runs ----

  /** t is reached from d by the events, in order. */
  ghost predicate Reaches(codec: Codec, cap: nat, d: Disk, events: seq<Event>, t: Disk)
    decreases |events|
  {
    if events == [] then t == d
    else
      && Enabled(cap, d, events[0])
      && (forall k :: k in d.ops && d.ops[k].Decoding? ==> d.sem > 0)
      && Reaches(codec, cap, Next(codec, cap, d, events[0]), events[1..], t)
  }

  lemma {:induction false} RunInv(codec: Codec, cap: nat, d: Disk, events: seq<Event>, t: Disk)
    requires Inv(codec, cap, d) && Reaches(codec, cap, d, events, t)
    ensures Inv(codec, cap, t)
    decreases |events|
  {
    if events == [] {
    } else {
      NextInv(codec, cap, d, events[0]);
      RunInv(codec, cap, Next(codec, cap, d, events[0]), events[1..], t);
    }
  }

  const EMPTY := Disk(map[], map[], 0, true, {}, {}, {})

  lemma EmptyInv(codec: Codec, cap: nat)
    ensures Inv(codec, cap, EMPTY)
  {
    assert Decoders(map[]) == {};
  }

  lemma ServedIsComplete(codec: Codec, accepted: set<(string, Bytes)>, files: Files, id: string)
    requires FilesInv(codec, accepted, files)
    ensures ImagePath(id) in files ==>
              (id, files[ImagePath(id)]) in accepted && codec(files[ImagePath(id)]).Some?
    ensures ThumbPath(id) in files ==>
              exists data :: (id, data) in accepted && codec(data) == Some(files[ThumbPath(id)])
  {
    ServedPathsAreNotTemp(id);
    if ImagePath(id) in files {
      var a :| a in accepted && codec(a.1).Some? &&
        ((ImagePath(id) == ImagePath(a.0) && files[ImagePath(id)] == a.1) || ImagePath(id) == ThumbPath(a.0));
      PathsNameTheirId(id, a.0);
      assert a == (id, files[ImagePath(id)]);
    }
    if ThumbPath(id) in files {
      var a :| a in accepted && codec(a.1).Some? &&
        (ThumbPath(id) == ImagePath(a.0) ||
         (ThumbPath(id) == ThumbPath(a.0) && files[ThumbPath(id)] == codec(a.1).value));
      PathsNameTheirId(id, a.0);
      PathsNameTheirId(a.0, id);
      assert (id, a.1) in accepted;
    }
  }

  /**
   Whatever is interleaved, fails or crashes: each image or thumbnail path is
   absent or holds the complete bytes of one accepted, decodable image or of its
   thumbnail; and decodes in flight never exceed the semaphore.
   */
  lemma FilesAreAlwaysComplete(codec: Codec, cap: nat, events: seq<Event>, t: Disk, id: string)
    requires Reaches(codec, cap, EMPTY, events, t)
    ensures ImagePath(id) in t.files ==>
              (id, t.files[ImagePath(id)]) in t.accepted && codec(t.files[ImagePath(id)]).Some?
    ensures ThumbPath(id) in t.files ==>
              exists data :: (id, data) in t.accepted && codec(data) == Some(t.files[ThumbPath(id)])
    ensures |Decoders(t.ops)| <= cap
  {
    EmptyInv(codec, cap);
    RunInv(codec, cap, EMPTY, events, t);
    ServedIsComplete(codec, t.accepted, t.files, id);
  }

  /**
   After a crash, the server comes up if and only if it can remove every temporary
   file it finds, and then none is left; what it serves is not touched either way.
   */
  lemma RestartClears(codec: Codec, cap: nat, d: Disk, listed: seq<Path>, outcomes: seq<Outcome>)
    requires Inv(codec, cap, d) && Enabled(cap, d, Restart(listed, outcomes))
    ensures forall k :: k in d.ops && d.ops[k].Decoding? ==> d.sem > 0
    ensures var t := Next(codec, cap, d, Restart(listed, outcomes));
            && (t.up <==> forall i :: 0 <= i < |listed| ==> At(outcomes, i).Fine?)
            && (t.up ==> forall p :: p in t.files ==> !IsTemp(p))
            && (forall p :: !IsTemp(p) ==> Get(t.files, p) == Get(d.files, p))
  {
    SweepClears(d.files, listed, outcomes);
  }
}
