/** The file store object: one file operation at a time, each of which may be the last before a crash. */
module ArtifactStore {
  import opened Options
  import opened Artifact
  import ArtifactProofs

  class FileStore {
    const env: Env
    var files: Files

    constructor (env: Env)
      ensures this.env == env && files == map[]
    {
      this.env := env;
      files := map[];
    }

    method Write(path: Path, file: File)
      modifies this
      ensures files == old(files)[path := file]
    {
      files := files[path := file];
    }

    method Remove(path: Path)
      modifies this
      ensures files == old(files) - {path}
    {
      files := files - {path};
    }

    method Rename(from: Path, to: Path)
      requires from in files && from != to
      modifies this
      ensures files == old(files)[to := old(files)[from]] - {from}
    {
      files := files[to := files[from]] - {from};
    }

    /** Clean-up on return removes whatever temporary files are left. */
    method CleanUp(p: PutInput)
      modifies this
      ensures files == Artifact.CleanUp(env, old(files), p)
    {
      Remove(UploadPath(env, p.key, p.upload));
      Remove(MetaUploadPath(env, p.key, p.metaUpload));
    }

    method Put(p: PutInput, ending: Ending) returns (r: Result<Meta, StoreError>)
      modifies this
      ensures (files, r) == Artifact.Put(env, old(files), p, ending)
    {
      hide ObjectPath, MetaPath, MetaOf, ReadMeta, Artifact.CleanUp, UploadPath, MetaUploadPath;
      if !ValidKey(p.key) {
        return Err(InvalidKey);
      }
      UploadsDiffer(env, p);
      var upload, metaUpload := UploadPath(env, p.key, p.upload), MetaUploadPath(env, p.key, p.metaUpload);
      var existing := ReadMeta(env, files, p.key);
      var stop := Reached(ending, if existing.Some? && existing.value.immutable then 1 else 4);
      if stop >= 1 {
        Write(upload, Content(p.bytes));
        assert files == PutFiles(env, old(files), p, 1);
      }
      if stop >= 2 {
        Write(metaUpload, Metadata(MetaOf(env, p)));
        assert files == PutFiles(env, old(files), p, 2);
      }
      if stop >= 3 {
        Rename(upload, ObjectPath(env, p.key));
        assert files == PutFiles(env, old(files), p, 3);
      }
      if stop >= 4 {
        Rename(metaUpload, MetaPath(env, p.key));
        assert files == PutFiles(env, old(files), p, 4);
      }
      if ending.CrashesAfter? {
        return Err(Interrupted);
      }
      CleanUp(p);
      if existing.Some? && existing.value.immutable {
        return Err(Immutable);
      }
      if stop == 4 {
        return Ok(MetaOf(env, p));
      }
      if stop == 3 {
        Remove(ObjectPath(env, p.key));
      }
      return Err(Interrupted);
    }

    method Open(k: Key, range: Range) returns (r: Result<(Bytes, Meta), StoreError>)
      ensures r == Artifact.Open(env, files, k, range)
    {
      if !ValidKey(k) {
        return Err(InvalidKey);
      }
      var path := ObjectPath(env, k);
      if path !in files || !files[path].Content? {
        return Err(NotExist);
      }
      var bytes := files[path].bytes;
      var part := Slice(bytes, range);
      if part.None? {
        return Err(OutOfRange);
      }
      var meta := ReadMeta(env, files, k);
      if meta.None? {
        return Err(MetadataUnavailable);
      }
      if !Verified(env, bytes, meta.value) {
        return Err(IntegrityMismatch);
      }
      return Ok((part.value, meta.value));
    }

    method Delete(k: Key, legalHold: bool, ending: Ending) returns (r: Option<StoreError>)
      modifies this
      ensures (files, r) == Artifact.Delete(env, old(files), k, legalHold, ending)
    {
      if legalHold {
        return Some(LegalHold);
      }
      if !ValidKey(k) {
        return Some(InvalidKey);
      }
      if ObjectPath(env, k) !in files {
        return Some(NotExist);
      }
      var stop := Reached(ending, 2);
      if stop == 0 {
        return Some(Interrupted);
      }
      Remove(ObjectPath(env, k));
      if stop == 1 {
        return if ending.CrashesAfter? then Some(Interrupted) else None;
      }
      Remove(MetaPath(env, k));
      assert files == old(files) - {ObjectPath(env, k), MetaPath(env, k)};
      return None;
    }
  }

  lemma UploadsDiffer(env: Env, p: PutInput)
    requires ValidKey(p.key)
    ensures var upload, metaUpload := UploadPath(env, p.key, p.upload), MetaUploadPath(env, p.key, p.metaUpload);
            upload != metaUpload && upload != ObjectPath(env, p.key) && metaUpload != MetaPath(env, p.key)
            && metaUpload != ObjectPath(env, p.key) && upload != MetaPath(env, p.key)
  {
    ArtifactProofs.NamesDiffer(p.key.version, p.key.version, p.upload);
    ArtifactProofs.NamesDiffer(p.key.version, p.key.version, p.metaUpload);
    assert (".upload-" + p.upload)[1] == 'u' && (".metadata-" + p.metaUpload)[1] == 'm';
  }
}
