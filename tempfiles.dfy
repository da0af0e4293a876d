/** The services' temporary-files directory, as the set of files it holds. */
module TempFiles {
  import opened PyStr

  type Bytes = seq<bv8>
  type Path = string

  /** `TEMP_FILES_DIR`, the same in all three services. */
  const TempFilesDir: Path := "/app/temp_files"

  /** `os.path.join(dir, name)`: an absolute `name` replaces `dir`; otherwise a separator
      is inserted unless `dir` is empty or already ends with one. */
  function Join(dir: Path, name: string): (p: Path)
    ensures !StartsWith(name, "/") && dir != [] && !EndsWith(dir, "/") ==> p == dir + "/" + name
  {
    if StartsWith(name, "/") then name
    else if dir == [] || EndsWith(dir, "/") then dir + name
    else dir + "/" + name
  }

  /** A name built as "{job_id}{rest}", with `rest` starting with "_", lands inside the
      temp directory unless the job id itself is an absolute path. */
  lemma TempPathIsInTempDir(jobId: string, rest: string)
    requires rest != [] && rest[0] == '_'
    ensures !StartsWith(jobId, "/") ==> Join(TempFilesDir, jobId + rest) == TempFilesDir + "/" + (jobId + rest)
  {
    var name := jobId + rest;
    assert name[0] == (if jobId == [] then '_' else jobId[0]);
    assert !EndsWith(TempFilesDir, "/") by {
      assert TempFilesDir[|TempFilesDir| - 1] == 's';
    }
  }

  /** The temp file "{job_id}_{name}" in the temp directory, as the gateway names an
      upload and the media processor names a saved upload. */
  function JobTempPath(jobId: string, name: string): (p: Path)
    ensures !StartsWith(jobId, "/") ==> p == TempFilesDir + "/" + (jobId + "_" + name)
  {
    TempPathIsInTempDir(jobId, "_" + name);
    Join(TempFilesDir, jobId + "_" + name)
  }

  /** A directory of files, each path mapped to its bytes. */
  class TempDir {
    var files: map<Path, Bytes>

    constructor (initial: map<Path, Bytes>)
      ensures files == initial
    {
      files := initial;
    }

    /** `os.path.exists(path)` */
    function Exists(path: Path): bool
      reads this
    {
      path in files
    }

    /** `open(path, "wb").write(data)`: creates or overwrites the file. */
    method Write(path: Path, data: Bytes)
      modifies this
      ensures files == old(files)[path := data]
    {
      files := files[path := data];
    }

    /** `if os.path.exists(path): os.remove(path)` */
    method RemoveIfExists(path: Path)
      modifies this
      ensures files == old(files) - {path}
      ensures !Exists(path)
    {
      if Exists(path) {
        files := files - {path};
      }
    }
  }
}
