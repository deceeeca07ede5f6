/** The file artifact store: objects and their metadata in two files, committed by two renames. */
module Artifact {
  import opened Options
  import opened Decimal

  type Bytes = seq<bv8>

  datatype Key = Key(tenant: string, artifact: string, version: int)

  datatype Meta = Meta(key: Key, mediaType: string, size: int, hash: string, createdAt: int, immutable: bool)

  /** The digest of a path component and the digest of content. */
  datatype Env = Env(component: string -> string, hash: Bytes -> string)

  ghost predicate Sound(env: Env) {
    && (forall a, b :: env.component(a) == env.component(b) ==> a == b)
    && (forall a, b :: env.hash(a) == env.hash(b) ==> a == b)
  }

  // ---- Paths --------------------------------------------------------------------------

  datatype Path = Path(tenantDir: string, artifactDir: string, name: string)
  datatype File = Content(bytes: Bytes) | Metadata(meta: Meta)
  type Files = map<Path, File>

  predicate ValidPart(part: string) {
    && part != "" && '/' !in part
    && forall i | 0 <= i < |part| - 1 :: !(part[i] == '.' && part[i + 1] == '.')
  }

  predicate ValidKey(k: Key) {
    ValidPart(k.tenant) && ValidPart(k.artifact) && k.version >= 1
  }

  function InDir(env: Env, k: Key, name: string): Path {
    Path(env.component(k.tenant), env.component(k.artifact), name)
  }

  function ObjectPath(env: Env, k: Key): Path
    requires ValidKey(k)
  {
    InDir(env, k, NatText(k.version))
  }

  function MetaPath(env: Env, k: Key): Path
    requires ValidKey(k)
  {
    InDir(env, k, NatText(k.version) + ".meta.json")
  }

  /** Temporary files have names of their own; `suffix` is the random part. */
  function UploadPath(env: Env, k: Key, suffix: string): Path {
    InDir(env, k, ".upload-" + suffix)
  }

  function MetaUploadPath(env: Env, k: Key, suffix: string): Path {
    InDir(env, k, ".metadata-" + suffix)
  }

  // ---- Reading ----------------------------------------------------------------------------

  datatype StoreError =
    | InvalidKey | NotExist | OutOfRange | MetadataUnavailable | IntegrityMismatch | Immutable | Interrupted | LegalHold

  /** `end` is inclusive; a negative one means through the end. */
  datatype Range = Range(start: int, end: int)

  const WHOLE := Range(0, -1)

  function ReadMeta(env: Env, files: Files, k: Key): Option<Meta>
    requires ValidKey(k)
  {
    var path := MetaPath(env, k);
    if path in files && files[path].Metadata? then Some(files[path].meta.(key := k)) else None
  }

  predicate Verified(env: Env, bytes: Bytes, m: Meta) {
    |bytes| == m.size && env.hash(bytes) == m.hash
  }

  function Slice(bytes: Bytes, r: Range): Option<Bytes> {
    if r.start <= 0 && r.end < 0 then Some(bytes)
    else if r.start < 0 || r.start >= |bytes| then None
    else
      var end := if r.end < 0 || r.end >= |bytes| then |bytes| - 1 else r.end;
      if end < r.start then None else Some(bytes[r.start..end + 1])
  }

  function Open(env: Env, files: Files, k: Key, r: Range): Result<(Bytes, Meta), StoreError> {
    if !ValidKey(k) then Err(InvalidKey)
    else if ObjectPath(env, k) !in files || !files[ObjectPath(env, k)].Content? then Err(NotExist)
    else
      var bytes := files[ObjectPath(env, k)].bytes;
      match Slice(bytes, r)
      case None => Err(OutOfRange)
      case Some(part) =>
        match ReadMeta(env, files, k)
        case None => Err(MetadataUnavailable)
        case Some(m) => if !Verified(env, bytes, m) then Err(IntegrityMismatch) else Ok((part, m))
  }

  function Stat(env: Env, files: Files, k: Key): Result<Meta, StoreError> {
    match Open(env, files, k, WHOLE)
    case Ok((_, m)) => Ok(m)
    case Err(e) => Err(e)
  }

  // ---- Writing ----------------------------------------------------------------------------

  /** How an operation ends: at full length, with an error after some of its file operations (which runs
      the clean-up), or with a crash after some of them (which does not). */
  datatype Ending = Completes | FailsAfter(n: nat) | CrashesAfter(n: nat)

  datatype PutInput = PutInput(
    key: Key, bytes: Bytes, mediaType: string, immutable: bool, now: int, upload: string, metaUpload: string)

  function MetaOf(env: Env, p: PutInput): Meta {
    Meta(p.key, p.mediaType, |p.bytes|, env.hash(p.bytes), p.now, p.immutable)
  }

  /** The files after the first `n` operations of a Put: the two temporary files, then the two renames. */
  function PutFiles(env: Env, files: Files, p: PutInput, n: nat): Files
    requires ValidKey(p.key)
  {
    var upload, metaUpload := UploadPath(env, p.key, p.upload), MetaUploadPath(env, p.key, p.metaUpload);
    if n == 0 then files
    else if n == 1 then files[upload := Content(p.bytes)]
    else if n == 2 then PutFiles(env, files, p, 1)[metaUpload := Metadata(MetaOf(env, p))]
    else if n == 3 then PutFiles(env, files, p, 2)[ObjectPath(env, p.key) := Content(p.bytes)] - {upload}
    else PutFiles(env, files, p, 3)[MetaPath(env, p.key) := Metadata(MetaOf(env, p))] - {metaUpload}
  }

  function CleanUp(env: Env, files: Files, p: PutInput): Files {
    files - {UploadPath(env, p.key, p.upload), MetaUploadPath(env, p.key, p.metaUpload)}
  }

  /** Operations done before the ending, out of `limit`. */
  function Reached(ending: Ending, limit: nat): nat {
    match ending
    case Completes => limit
    case FailsAfter(n) => if n < limit then n else limit
    case CrashesAfter(n) => if n < limit then n else limit
  }

  function Put(env: Env, files: Files, p: PutInput, ending: Ending): (Files, Result<Meta, StoreError>) {
    if !ValidKey(p.key) then (files, Err(InvalidKey))
    else
      var blocked := ReadMeta(env, files, p.key).Some? && ReadMeta(env, files, p.key).value.immutable;
      var n := Reached(ending, if blocked then 1 else 4);
      var written := PutFiles(env, files, p, n);
      if ending.CrashesAfter? then (written, Err(Interrupted))
      else if blocked then (CleanUp(env, written, p), Err(Immutable))
      else if n == 4 then (CleanUp(env, written, p), Ok(MetaOf(env, p)))
      else if n == 3 then (CleanUp(env, written, p) - {ObjectPath(env, p.key)}, Err(Interrupted))
      else (CleanUp(env, written, p), Err(Interrupted))
  }

  /** Removes the object, then its metadata; a failure of the second removal is ignored. */
  function Delete(env: Env, files: Files, k: Key, legalHold: bool, ending: Ending): (Files, Option<StoreError>) {
    if legalHold then (files, Some(LegalHold))
    else if !ValidKey(k) then (files, Some(InvalidKey))
    else if ObjectPath(env, k) !in files then (files, Some(NotExist))
    else
      var n := Reached(ending, 2);
      if n == 0 then (files, Some(Interrupted))
      else if n == 1 then (files - {ObjectPath(env, k)}, if ending.CrashesAfter? then Some(Interrupted) else None)
      else (files - {ObjectPath(env, k), MetaPath(env, k)}, None)
  }

  // ---- The store over time ----------------------------------------------------------------

  datatype Op =
    | PutOp(input: PutInput, ending: Ending)
    | DeleteOp(key: Key, legalHold: bool, ending: Ending)

  /** `puts` is every Put ever attempted. */
  datatype Store = Store(files: Files, puts: set<PutInput>)

  function Apply(env: Env, s: Store, op: Op): Store {
    match op
    case PutOp(p, ending) => Store(Put(env, s.files, p, ending).0, s.puts + {p})
    case DeleteOp(k, hold, ending) => s.(files := Delete(env, s.files, k, hold, ending).0)
  }

  function ApplyAll(env: Env, s: Store, ops: seq<Op>): Store {
    if ops == [] then s else Apply(env, ApplyAll(env, s, ops[..|ops| - 1]), ops[|ops| - 1])
  }
}
