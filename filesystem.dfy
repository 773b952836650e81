/**
  The file system the components touch: model weights looked up by path,
  temporary files for replies, and WAV files written by the synthesizer.
 */
module FileSystem {

  newtype byte = b: int | 0 <= b < 256

  /** A WAV file's format fields: channel count, sample width in bytes, frames per second. */
  datatype WavHeader = WavHeader(channels: nat, sampleWidth: nat, frameRate: nat)

  /** What a file holds: plain bytes, or a WAV container (a header and its frame bytes). */
  datatype FileData = Bytes(data: seq<byte>) | Wave(header: WavHeader, frames: seq<byte>)

  /** Raised when a model file is missing (Python `FileNotFoundError`). */
  datatype LoadError = ModelNotFound(path: string)

  /** `s` ends with `suffix`. */
  predicate HasSuffix(s: string, suffix: string) {
    |suffix| <= |s| && s[|s| - |suffix|..] == suffix
  }

  /** The directory and name prefix `tempfile` uses by default. */
  const TempPrefix := "/tmp/tmp"

  /** The `k`-th candidate name tried for a new temporary file. */
  function TempName(k: nat, suffix: string): (r: string)
    ensures |r| == |TempPrefix| + k + |suffix|
    ensures HasSuffix(r, suffix)
  {
    TempPrefix + seq(k, _ => 'x') + suffix
  }

  /** An upper bound on the lengths of the names in `names`. */
  ghost function MaxLength(names: set<string>): (m: nat)
    ensures forall p :: p in names ==> |p| <= m
    decreases names
  {
    if names == {} then 0
    else
      var p :| p in names;
      var rest := MaxLength(names - {p});
      if |p| > rest then |p| else rest
  }

  /** The paths that exist and what each holds. */
  class Disk {
    var files: map<string, FileData>

    constructor(files: map<string, FileData>)
      ensures this.files == files
    {
      this.files := files;
    }

    /** `Path(path).exists()`: true exactly for the paths the disk holds. */
    predicate Exists(path: string): (b: bool)
      reads this
      ensures b <==> path in files
    {
      path in files
    }

    /**
      `tempfile.NamedTemporaryFile(suffix=suffix, delete=False)`, closed at
      once: tries candidate names until one is unused, creates it empty and
      leaves it in place.
     */
    method CreateTemp(suffix: string) returns (path: string)
      modifies this
      ensures path !in old(files)
      ensures HasSuffix(path, suffix)
      ensures files == old(files)[path := Bytes([])]
    {
      ghost var bound := MaxLength(files.Keys);
      var k := 0;
      path := TempName(k, suffix);
      while path in files
        invariant path == TempName(k, suffix)
        invariant k <= bound
        decreases bound - k
      {
        k := k + 1;
        path := TempName(k, suffix);
      }
      files := files[path := Bytes([])];
    }
  }
}
