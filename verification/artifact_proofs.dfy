/** Reads of the artifact store fail closed over every sequence of operations and crash points. */
module ArtifactProofs {
  import opened Options
  import opened Decimal
  import opened Artifact

  // ---- Paths do not collide -----------------------------------------------------------------

  lemma NamesDiffer(v: nat, w: nat, suffix: string)
    ensures NatText(v) != NatText(w) + ".meta.json"
    ensures NatText(v) == NatText(w) ==> v == w
    ensures NatText(v) + ".meta.json" == NatText(w) + ".meta.json" ==> v == w
    ensures NatText(v) != ".upload-" + suffix && NatText(v) != ".metadata-" + suffix
    ensures NatText(v) + ".meta.json" != ".upload-" + suffix && NatText(v) + ".meta.json" != ".metadata-" + suffix
  {
    NatTextNat(v);
    NatTextNat(w);
    var meta := NatText(w) + ".meta.json";
    assert meta[|NatText(w)|] == '.';
    assert (".upload-" + suffix)[0] == '.' && (".metadata-" + suffix)[0] == '.';
    assert (NatText(v) + ".meta.json")[0] == NatText(v)[0];
    if NatText(v) + ".meta.json" == NatText(w) + ".meta.json" {
      assert |NatText(v)| == |NatText(w)|;
      assert NatText(v) == (NatText(v) + ".meta.json")[..|NatText(v)|];
      assert NatText(w) == (NatText(w) + ".meta.json")[..|NatText(w)|];
    }
  }

  /** No object, metadata or temporary file of any key is another one. */
  lemma PathsDiffer(env: Env, k: Key, l: Key, suffix: string)
    requires Sound(env) && ValidKey(k) && ValidKey(l)
    ensures ObjectPath(env, k) != MetaPath(env, l)
    ensures k != l ==> ObjectPath(env, k) != ObjectPath(env, l) && MetaPath(env, k) != MetaPath(env, l)
    ensures ObjectPath(env, k) != UploadPath(env, l, suffix) && ObjectPath(env, k) != MetaUploadPath(env, l, suffix)
    ensures MetaPath(env, k) != UploadPath(env, l, suffix) && MetaPath(env, k) != MetaUploadPath(env, l, suffix)
  {
    hide NatText;
    NamesDiffer(k.version, l.version, suffix);
  }

  // ---- The visible part -----------------------------------------------------------------------

  function ObjectAt(env: Env, files: Files, k: Key): Option<File>
    requires ValidKey(k)
  {
    if ObjectPath(env, k) in files then Some(files[ObjectPath(env, k)]) else None
  }

  function MetaAt(env: Env, files: Files, k: Key): Option<File>
    requires ValidKey(k)
  {
    if MetaPath(env, k) in files then Some(files[MetaPath(env, k)]) else None
  }

  /** The files as far as reads can see them. */
  predicate SameFor(env: Env, a: Files, b: Files, k: Key)
    requires ValidKey(k)
  {
    ObjectAt(env, a, k) == ObjectAt(env, b, k) && MetaAt(env, a, k) == MetaAt(env, b, k)
  }

  predicate Blocked(env: Env, files: Files, k: Key)
    requires ValidKey(k)
  {
    ReadMeta(env, files, k).Some? && ReadMeta(env, files, k).value.immutable
  }

  /** What a Put may leave for its own key: nothing changed, the object replaced, the object gone, or
      object and metadata replaced. */
  predicate PutOutcome(env: Env, files: Files, p: PutInput, after: Files)
    requires ValidKey(p.key)
  {
    || SameFor(env, files, after, p.key)
    || (!Blocked(env, files, p.key)
        && MetaAt(env, after, p.key) == MetaAt(env, files, p.key)
        && (ObjectAt(env, after, p.key) == Some(Content(p.bytes)) || ObjectAt(env, after, p.key) == None))
    || (!Blocked(env, files, p.key)
        && ObjectAt(env, after, p.key) == Some(Content(p.bytes))
        && MetaAt(env, after, p.key) == Some(Metadata(MetaOf(env, p))))
  }

  lemma PutFilesView(env: Env, files: Files, p: PutInput, n: nat, k: Key)
    requires Sound(env) && ValidKey(p.key) && ValidKey(k)
    ensures var after := PutFiles(env, files, p, n);
            && ObjectAt(env, after, k) == (if k == p.key && n >= 3 then Some(Content(p.bytes)) else ObjectAt(env, files, k))
            && MetaAt(env, after, k) == (if k == p.key && n >= 4 then Some(Metadata(MetaOf(env, p))) else MetaAt(env, files, k))
  {
    hide ObjectPath, MetaPath, UploadPath, MetaUploadPath, ValidKey;
    PathsDiffer(env, k, p.key, p.upload);
    PathsDiffer(env, k, p.key, p.metaUpload);
    PathsDiffer(env, p.key, k, p.upload);
  }

  lemma CleanUpView(env: Env, files: Files, p: PutInput, k: Key)
    requires Sound(env) && ValidKey(p.key) && ValidKey(k)
    ensures SameFor(env, files, CleanUp(env, files, p), k)
  {
    hide ObjectPath, MetaPath, UploadPath, MetaUploadPath, ValidKey;
    PathsDiffer(env, k, p.key, p.upload);
    PathsDiffer(env, k, p.key, p.metaUpload);
  }

  lemma PutView(env: Env, files: Files, p: PutInput, ending: Ending, k: Key)
    requires Sound(env) && ValidKey(k) && ValidKey(p.key)
    ensures var (after, r) := Put(env, files, p, ending);
            && (k != p.key ==> SameFor(env, files, after, k))
            && PutOutcome(env, files, p, after)
            && (r.Ok? ==> r.value == MetaOf(env, p) && !Blocked(env, files, p.key)
                          && ObjectAt(env, after, p.key) == Some(Content(p.bytes))
                          && MetaAt(env, after, p.key) == Some(Metadata(MetaOf(env, p))))
  {
    hide ObjectPath, MetaPath, UploadPath, MetaUploadPath, ValidKey, PutFiles, CleanUp, MetaOf, ReadMeta;
    var n := Reached(ending, if Blocked(env, files, p.key) then 1 else 4);
    var written := PutFiles(env, files, p, n);
    PutFilesView(env, files, p, n, k);
    PutFilesView(env, files, p, n, p.key);
    CleanUpView(env, written, p, k);
    CleanUpView(env, written, p, p.key);
    PathsDiffer(env, k, p.key, "");
    PathsDiffer(env, p.key, p.key, "");
    PathsDiffer(env, p.key, k, "");
  }

  lemma DeleteView(env: Env, files: Files, d: Key, hold: bool, ending: Ending, k: Key)
    requires Sound(env) && ValidKey(k)
    ensures var after := Delete(env, files, d, hold, ending).0;
            && (k != d ==> SameFor(env, files, after, k))
            && (ObjectAt(env, after, k) == ObjectAt(env, files, k) || ObjectAt(env, after, k) == None)
            && (MetaAt(env, after, k) == MetaAt(env, files, k) || MetaAt(env, after, k) == None)
  {
    hide ObjectPath, MetaPath;
    if ValidKey(d) {
      PathsDiffer(env, k, d, "");
      PathsDiffer(env, d, k, "");
    }
  }

  // ---- Reads return what some Put wrote ---------------------------------------------------------

  ghost predicate Written(env: Env, puts: set<PutInput>, k: Key, bytes: Bytes) {
    exists p :: p in puts && p.key == k && p.bytes == bytes
  }

  ghost predicate Described(env: Env, puts: set<PutInput>, k: Key, m: Meta) {
    exists p :: p in puts && p.key == k && m == MetaOf(env, p)
  }

  ghost predicate KeyInv(env: Env, s: Store, k: Key)
    requires ValidKey(k)
  {
    && (ObjectAt(env, s.files, k).Some? ==>
          ObjectAt(env, s.files, k).value.Content? && Written(env, s.puts, k, ObjectAt(env, s.files, k).value.bytes))
    && (MetaAt(env, s.files, k).Some? ==>
          MetaAt(env, s.files, k).value.Metadata? && Described(env, s.puts, k, MetaAt(env, s.files, k).value.meta))
  }

  lemma WrittenStays(env: Env, puts: set<PutInput>, more: set<PutInput>, k: Key)
    requires puts <= more
    ensures forall bytes :: Written(env, puts, k, bytes) ==> Written(env, more, k, bytes)
    ensures forall m :: Described(env, puts, k, m) ==> Described(env, more, k, m)
  {
  }

  lemma ApplyKeepsInv(env: Env, s: Store, op: Op, k: Key)
    requires Sound(env) && ValidKey(k) && KeyInv(env, s, k)
    ensures KeyInv(env, Apply(env, s, op), k)
  {
    hide ObjectAt, MetaAt, Put, Delete, MetaOf, ValidKey, Sound;
    match op
    case PutOp(p, ending) =>
      WrittenStays(env, s.puts, s.puts + {p}, k);
      assert p in s.puts + {p};
      if ValidKey(p.key) {
        PutView(env, s.files, p, ending, k);
      } else {
        PutInvalid(env, s.files, p, ending);
      }
    case DeleteOp(d, hold, ending) => DeleteView(env, s.files, d, hold, ending, k);
  }

  lemma PutInvalid(env: Env, files: Files, p: PutInput, ending: Ending)
    requires !ValidKey(p.key)
    ensures Put(env, files, p, ending) == (files, Err(InvalidKey))
  {
  }

  lemma {:induction false} ApplyAllKeepsInv(env: Env, s: Store, ops: seq<Op>, k: Key)
    requires Sound(env) && ValidKey(k) && KeyInv(env, s, k)
    ensures KeyInv(env, ApplyAll(env, s, ops), k)
  {
    hide KeyInv, Apply, ValidKey, Sound;
    if ops != [] {
      ApplyAllKeepsInv(env, s, ops[..|ops| - 1], k);
      ApplyKeepsInv(env, ApplyAll(env, s, ops[..|ops| - 1]), ops[|ops| - 1], k);
    }
  }

  const EMPTY := Store(map[], {})

  /** After any operations on any keys, stopped at any point, a read that succeeds returns the requested
      part of bytes that a Put to that key wrote, with metadata a Put of those bytes to that key wrote. */
  lemma ReadsReturnPuts(env: Env, ops: seq<Op>, k: Key, r: Range)
    requires Sound(env) && Open(env, ApplyAll(env, EMPTY, ops).files, k, r).Ok?
    ensures var s := ApplyAll(env, EMPTY, ops);
            var (part, m) := Open(env, s.files, k, r).value;
            exists p, q :: p in s.puts && q in s.puts && p.key == q.key == k && p.bytes == q.bytes
                           && Slice(p.bytes, r) == Some(part) && m == MetaOf(env, q)
  {
    hide ApplyAll, Slice, ObjectPath, MetaPath, ValidKey;
    assert KeyInv(env, EMPTY, k);
    ApplyAllKeepsInv(env, EMPTY, ops, k);
    var s := ApplyAll(env, EMPTY, ops);
    var bytes, stored := ObjectAt(env, s.files, k).value.bytes, MetaAt(env, s.files, k).value.meta;
    var p :| p in s.puts && p.key == k && p.bytes == bytes;
    var q :| q in s.puts && q.key == k && stored == MetaOf(env, q);
    assert env.hash(p.bytes) == env.hash(q.bytes);
  }

  // ---- Ranges ---------------------------------------------------------------------------------------

  /** The last byte a range reaches, in an object of `size` bytes. */
  function LastByte(r: Range, size: nat): int {
    if 0 <= r.end < size then r.end else size - 1
  }

  /** The range is open on both sides, or starts inside the object and does not end before it starts. */
  predicate InObject(r: Range, size: nat) {
    (r.start <= 0 && r.end < 0) || (0 <= r.start < size && r.start <= LastByte(r, size))
  }

  /** A range can be read if and only if the object can and the range lies in it. The bytes it gives are those of the
      object from its start to its end, both included, and through the last byte when the end is open or beyond. */
  lemma RangeBytes(env: Env, files: Files, k: Key, r: Range)
    requires Open(env, files, k, WHOLE).Ok?
    ensures var (whole, m) := Open(env, files, k, WHOLE).value;
            var result := Open(env, files, k, r);
            && (result.Ok? <==> InObject(r, |whole|)) && (!result.Ok? ==> result == Err(OutOfRange))
            && (result.Ok? ==>
                  var (part, meta) := result.value;
                  var first := if r.start < 0 then 0 else r.start;
                  && meta == m && |part| == LastByte(r, |whole|) - first + 1
                  && forall i | 0 <= i < |part| :: part[i] == whole[first + i])
  {
    hide ObjectPath, MetaPath, ValidKey;
  }

  /** Nothing of an object can be read that cannot be read as a whole. */
  lemma RangeNeedsWhole(env: Env, files: Files, k: Key, r: Range)
    ensures Open(env, files, k, r).Ok? ==> Open(env, files, k, WHOLE).Ok?
  {
    hide ObjectPath, MetaPath, ValidKey;
  }

  /** Two ranges that meet give the whole object. */
  lemma AdjacentRanges(env: Env, files: Files, k: Key, at: nat)
    requires Open(env, files, k, WHOLE).Ok? && 0 < at < |Open(env, files, k, WHOLE).value.0|
    ensures var whole := Open(env, files, k, WHOLE).value.0;
            var head, tail := Open(env, files, k, Range(0, at - 1)), Open(env, files, k, Range(at, -1));
            head.Ok? && tail.Ok? && head.value.0 + tail.value.0 == whole
  {
    hide Open;
    RangeBytes(env, files, k, Range(0, at - 1));
    RangeBytes(env, files, k, Range(at, -1));
  }

  /** An object is read if and only if its key is valid, both its files are there, and size and hash agree. */
  lemma WholeIff(env: Env, files: Files, k: Key)
    ensures ValidKey(k) <==> PlainPart(k.tenant) && PlainPart(k.artifact) && k.version >= 1
    ensures Open(env, files, k, WHOLE).Ok? <==>
            && PlainPart(k.tenant) && PlainPart(k.artifact) && k.version >= 1
            && ObjectAt(env, files, k).Some? && ObjectAt(env, files, k).value.Content?
            && MetaAt(env, files, k).Some? && MetaAt(env, files, k).value.Metadata?
            && MetaAt(env, files, k).value.meta.size == |ObjectAt(env, files, k).value.bytes|
            && MetaAt(env, files, k).value.meta.hash == env.hash(ObjectAt(env, files, k).value.bytes)
  {
    hide ObjectPath, MetaPath, ValidPart, PlainPart;
    PlainMeans(k.tenant);
    PlainMeans(k.artifact);
  }

  predicate DotsAt(part: string, i: nat) {
    i + 2 <= |part| && part[i..i + 2] == ".."
  }

  /** A component of a key: not empty, and with nothing in it that could leave its directory. */
  predicate PlainPart(part: string) {
    part != "" && '/' !in part && forall i | 0 <= i < |part| :: !DotsAt(part, i)
  }

  /** A Put succeeds if and only if its key is plain, it is not stopped, and no immutable object's metadata is there. */
  lemma PutSucceedsIff(env: Env, files: Files, p: PutInput, ending: Ending)
    ensures ValidKey(p.key) <==> PlainPart(p.key.tenant) && PlainPart(p.key.artifact) && p.key.version >= 1
    ensures Put(env, files, p, ending).1.Ok? <==>
            && PlainPart(p.key.tenant) && PlainPart(p.key.artifact) && p.key.version >= 1
            && (ending.Completes? || (ending.FailsAfter? && ending.n >= 4))
            && !(MetaAt(env, files, p.key).Some? && MetaAt(env, files, p.key).value.Metadata?
                 && MetaAt(env, files, p.key).value.meta.immutable)
  {
    hide ObjectPath, MetaPath, PutFiles, CleanUp, ValidPart, PlainPart;
    PlainMeans(p.key.tenant);
    PlainMeans(p.key.artifact);
  }

  lemma DotsMean(part: string, i: nat)
    requires i < |part|
    ensures DotsAt(part, i) <==> i < |part| - 1 && part[i] == '.' && part[i + 1] == '.'
  {
    if i < |part| - 1 {
      var two := part[i..i + 2];
      assert two[0] == part[i] && two[1] == part[i + 1] && ".."[0] == '.' && ".."[1] == '.';
    }
  }

  lemma PlainMeans(part: string)
    ensures ValidPart(part) <==> PlainPart(part)
  {
    hide DotsAt;
    if PlainPart(part) {
      forall i | 0 <= i < |part| - 1 ensures !(part[i] == '.' && part[i + 1] == '.') {
        DotsMean(part, i);
      }
    }
    if ValidPart(part) {
      forall i | 0 <= i < |part| ensures !DotsAt(part, i) {
        DotsMean(part, i);
      }
    }
  }

  // ---- Completed objects --------------------------------------------------------------------------

  /** The object is there in full: its bytes, and the metadata of the Put that wrote them. */
  predicate Holds(env: Env, files: Files, p: PutInput)
    requires ValidKey(p.key)
  {
    ObjectAt(env, files, p.key) == Some(Content(p.bytes)) && MetaAt(env, files, p.key) == Some(Metadata(MetaOf(env, p)))
  }

  lemma HoldsOpens(env: Env, files: Files, p: PutInput, r: Range)
    requires ValidKey(p.key) && Holds(env, files, p)
    ensures Open(env, files, p.key, r) ==
            (match Slice(p.bytes, r) case None => Err(OutOfRange) case Some(part) => Ok((part, MetaOf(env, p))))
    ensures Stat(env, files, p.key) == Ok(MetaOf(env, p))
  {
    hide ObjectPath, MetaPath;
  }

  /** A Put that returns success is readable at once, in full, with metadata that describes what was put. */
  lemma PutThenOpen(env: Env, files: Files, p: PutInput, ending: Ending)
    requires Sound(env) && Put(env, files, p, ending).1.Ok?
    ensures var after := Put(env, files, p, ending).0;
            var described := Meta(p.key, p.mediaType, |p.bytes|, env.hash(p.bytes), p.now, p.immutable);
            && Put(env, files, p, ending).1.value == described
            && Open(env, after, p.key, WHOLE) == Ok((p.bytes, described)) && Stat(env, after, p.key) == Ok(described)
  {
    hide Open, Stat, ObjectPath, MetaPath, PutFiles;
    PutView(env, files, p, ending, p.key);
    HoldsOpens(env, Put(env, files, p, ending).0, p, WHOLE);
  }

  /** A Delete that takes something away: no legal hold, and not stopped before its first removal. */
  predicate Removes(op: Op, k: Key) {
    op.DeleteOp? && op.key == k && !op.legalHold && Reached(op.ending, 2) > 0
  }

  lemma HoldsStays(env: Env, s: Store, op: Op, p: PutInput)
    requires Sound(env) && ValidKey(p.key) && p.immutable && Holds(env, s.files, p) && !Removes(op, p.key)
    ensures Holds(env, Apply(env, s, op).files, p)
  {
    hide Put, ObjectPath, MetaPath, ValidKey, Sound;
    match op
    case PutOp(q, ending) =>
      if ValidKey(q.key) {
        PutView(env, s.files, q, ending, p.key);
        assert q.key == p.key ==> Blocked(env, s.files, p.key);
      } else {
        PutInvalid(env, s.files, q, ending);
      }
    case DeleteOp(d, hold, ending) => DeleteView(env, s.files, d, hold, ending, p.key);
  }

  /** A completed immutable object reads the same, whatever operations follow and wherever they stop,
      until a Delete of its key removes something. */
  lemma {:induction false} ImmutableUntilDeleted(env: Env, s: Store, ops: seq<Op>, p: PutInput, r: Range)
    requires Sound(env) && ValidKey(p.key) && p.immutable && Holds(env, s.files, p)
    requires forall i | 0 <= i < |ops| :: !Removes(ops[i], p.key)
    ensures Holds(env, ApplyAll(env, s, ops).files, p)
    ensures Open(env, ApplyAll(env, s, ops).files, p.key, r) == Open(env, s.files, p.key, r)
  {
    hide Holds, Apply, Open, ValidKey, Sound, Removes;
    if ops != [] {
      ImmutableUntilDeleted(env, s, ops[..|ops| - 1], p, r);
      HoldsStays(env, ApplyAll(env, s, ops[..|ops| - 1]), ops[|ops| - 1], p);
    }
    HoldsOpens(env, s.files, p, r);
    HoldsOpens(env, ApplyAll(env, s, ops).files, p, r);
  }

  // ---- Dead keys ------------------------------------------------------------------------------------

  /** The object is gone, but metadata that says it is immutable is left. */
  predicate Dead(env: Env, files: Files, k: Key)
    requires ValidKey(k)
  {
    ObjectAt(env, files, k) == None && Blocked(env, files, k)
  }

  lemma DeadStays(env: Env, s: Store, op: Op, k: Key)
    requires Sound(env) && ValidKey(k) && Dead(env, s.files, k)
    ensures Dead(env, Apply(env, s, op).files, k)
  {
    hide Put, ObjectPath, MetaPath, ValidKey, Sound;
    match op
    case PutOp(q, ending) =>
      if ValidKey(q.key) {
        PutView(env, s.files, q, ending, k);
      } else {
        PutInvalid(env, s.files, q, ending);
      }
    case DeleteOp(d, hold, ending) => DeleteView(env, s.files, d, hold, ending, k);
  }

  /** A dead key stays dead: nothing can be put there, read there or deleted there ever again. */
  lemma {:induction false} DeadForever(env: Env, s: Store, ops: seq<Op>, k: Key)
    requires Sound(env) && ValidKey(k) && Dead(env, s.files, k)
    ensures Dead(env, ApplyAll(env, s, ops).files, k)
    ensures forall p: PutInput, ending | p.key == k :: !Put(env, ApplyAll(env, s, ops).files, p, ending).1.Ok?
    ensures forall ending :: Delete(env, ApplyAll(env, s, ops).files, k, false, ending).1 == Some(NotExist)
    ensures Open(env, ApplyAll(env, s, ops).files, k, WHOLE) == Err(NotExist)
  {
    hide Apply, ObjectPath, MetaPath, ValidKey, Sound, PutFiles;
    if ops != [] {
      DeadForever(env, s, ops[..|ops| - 1], k);
      DeadStays(env, ApplyAll(env, s, ops[..|ops| - 1]), ops[|ops| - 1], k);
    }
  }

  /** No Put to the key will ever succeed, whatever is done before it. */
  ghost predicate Unusable(env: Env, s: Store, k: Key) {
    forall ops: seq<Op>, p: PutInput, ending | p.key == k :: !Put(env, ApplyAll(env, s, ops).files, p, ending).1.Ok?
  }

  lemma FreePut(env: Env, s: Store, p: PutInput)
    requires ValidKey(p.key) && !Blocked(env, s.files, p.key)
    ensures Put(env, ApplyAll(env, s, []).files, p, Completes).1.Ok?
  {
    hide ObjectPath, MetaPath, ValidKey, PutFiles;
  }

  /** Deleting a completed object makes its key unusable exactly when the object is immutable and the Delete stops
      between its two removals: by a crash, or by a second removal that fails and is not reported. */
  lemma DeadKeyIff(env: Env, s: Store, p: PutInput, ending: Ending)
    requires Sound(env) && ValidKey(p.key) && Holds(env, s.files, p)
    ensures Unusable(env, Apply(env, s, DeleteOp(p.key, false, ending)), p.key) <==>
            p.immutable && Reached(ending, 2) == 1
  {
    hide Sound, ApplyAll, Put, ValidKey, ObjectPath, MetaPath;
    var after := Apply(env, s, DeleteOp(p.key, false, ending));
    DeletedView(env, s.files, p, ending);
    if p.immutable && Reached(ending, 2) == 1 {
      forall ops: seq<Op>, q: PutInput, e | q.key == p.key ensures !Put(env, ApplyAll(env, after, ops).files, q, e).1.Ok? {
        DeadForever(env, after, ops, p.key);
      }
    } else if p.immutable && Reached(ending, 2) == 0 {
      DeleteThenPut(env, after, p);
    } else {
      FreePut(env, after, p);
    }
  }

  /** What is left of a completed object when its Delete ends. */
  lemma DeletedView(env: Env, files: Files, p: PutInput, ending: Ending)
    requires Sound(env) && ValidKey(p.key) && Holds(env, files, p)
    ensures var after := Delete(env, files, p.key, false, ending).0;
            && ObjectAt(env, after, p.key) == (if Reached(ending, 2) == 0 then ObjectAt(env, files, p.key) else None)
            && MetaAt(env, after, p.key) == (if Reached(ending, 2) == 2 then None else MetaAt(env, files, p.key))
  {
    hide ObjectPath, MetaPath, ValidKey;
    PathsDiffer(env, p.key, p.key, "");
  }

  lemma DeleteThenPut(env: Env, s: Store, p: PutInput)
    requires Sound(env) && ValidKey(p.key) && Holds(env, s.files, p)
    ensures Put(env, ApplyAll(env, s, [DeleteOp(p.key, false, Completes)]).files, p, Completes).1.Ok?
  {
    hide ObjectPath, MetaPath, ValidKey, Put, Delete, Sound;
    var op := DeleteOp(p.key, false, Completes);
    assert [op][..0] == [];
    assert ApplyAll(env, s, [op]) == Apply(env, s, op);
    DeletedView(env, s.files, p, Completes);
    FreePut(env, Apply(env, s, op), p);
  }

  /** Replacing an object and stopping between the two renames makes it unreadable unless the new bytes
      are the old ones: reads fail closed rather than mix the two. */
  lemma TornPutFailsClosed(env: Env, files: Files, before: PutInput, p: PutInput)
    requires Sound(env) && ValidKey(p.key) && before.key == p.key && Holds(env, files, before) && !before.immutable
    ensures var torn := Put(env, files, p, CrashesAfter(3)).0;
            Open(env, torn, p.key, WHOLE) ==
            if p.bytes == before.bytes then Ok((before.bytes, MetaOf(env, before))) else Err(IntegrityMismatch)
  {
    hide ObjectPath, MetaPath, UploadPath, MetaUploadPath, PutFiles, ValidKey;
    PutFilesView(env, files, p, 3, p.key);
  }
}
