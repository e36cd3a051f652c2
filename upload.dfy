/**
 * Upload validation and the POST branch of the index route: which error the
 * form is re-rendered with, or which transcription job is launched.
 */
module Upload {
  import opened Wrappers
  import opened Strings

  const UploadFolder: string := "uploads"
  const ResultFolder: string := "results"
  const AllowedExtensions: set<string> := {"mp3", "mp4", "wav", "m4a"}

  /** `allowed_file`: the name has a dot and what follows its last dot,
      lower-cased, is an allowed extension. */
  function AllowedFile(filename: string): bool {
    match LastIndexOf(filename, '.')
    case None => false
    case Some(i) => Lower(filename[i + 1..]) in AllowedExtensions
  }

  /** Both directions of the rule, stated without `LastIndexOf`: some dot has
      no dot after it and the text after it is an allowed extension, ignoring
      case. */
  lemma AllowedFileIff(filename: string)
    ensures AllowedFile(filename) <==>
      exists i :: 0 <= i < |filename| && filename[i] == '.' && '.' !in filename[i + 1..]
                  && Lower(filename[i + 1..]) in AllowedExtensions
  {
    var last := LastIndexOf(filename, '.');
    if AllowedFile(filename) {
      var i := last.value;
      assert 0 <= i < |filename| && filename[i] == '.' && '.' !in filename[i + 1..];
    } else {
      forall i | 0 <= i < |filename| && filename[i] == '.' && '.' !in filename[i + 1..]
        ensures Lower(filename[i + 1..]) !in AllowedExtensions
      {
        assert last.Some?;
      }
    }
  }

  /** Only the final extension decides: `stem.ext` is accepted exactly when
      `ext` is dot-free and an allowed extension in any case, whatever the
      stem holds. */
  lemma {:induction false} OnlyFinalExtensionCounts(stem: string, ext: string)
    requires '.' !in ext
    ensures AllowedFile(stem + "." + ext) <==> Lower(ext) in AllowedExtensions
  {
    var f := stem + "." + ext;
    assert f[|stem|] == '.';
    assert f[|stem| + 1..] == ext;
    AllowedFileIff(f);
    if Lower(ext) in AllowedExtensions {
      assert 0 <= |stem| < |f| && f[|stem|] == '.' && '.' !in f[|stem| + 1..];
    }
  }

  /** Case is ignored everywhere in the name. */
  lemma {:induction false} AllowedFileIgnoresCase(filename: string)
    ensures AllowedFile(Lower(filename)) == AllowedFile(filename)
  {
    LastIndexOfLower(filename);
    match LastIndexOf(filename, '.')
    case None =>
    case Some(i) =>
      LowerSlice(filename, i + 1);
      LowerIdempotent(filename[i + 1..]);
  }

  /** A name without a dot, or whose last dot ends it, is refused. */
  lemma NoExtensionRefused(filename: string)
    requires '.' !in filename || (|filename| > 0 && filename[|filename| - 1] == '.')
    ensures !AllowedFile(filename)
  {
    if '.' in filename {
      var i := LastIndexOf(filename, '.').value;
      assert i == |filename| - 1;
      assert Lower(filename[i + 1..]) == "";
    }
  }

  /** `a.txt.WAV` is accepted: only its last extension is looked at, and
      in lower case. */
  lemma LastExtensionAccepted()
    ensures AllowedFile("a.txt.WAV")
  {
    assert Lower("WAV") == "wav";
    assert "a.txt" + "." + "WAV" == "a.txt.WAV";
    OnlyFinalExtensionCounts("a.txt", "WAV");
  }

  /** `a.mp3.exe` is refused although an allowed extension occurs in it. */
  lemma LastExtensionRefused()
    ensures !AllowedFile("a.mp3.exe")
  {
    assert Lower("exe") == "exe";
    assert "a.mp3" + "." + "exe" == "a.mp3.exe";
    OnlyFinalExtensionCounts("a.mp3", "exe");
  }

  /** `os.path.join(folder, name)` for a folder that does not end in '/': an
      absolute name replaces the folder. */
  function PathJoin(folder: string, name: string): (r: string)
    ensures name != [] && name[0] == '/' ==> r == name
    ensures (name == [] || name[0] != '/') && folder != [] && folder[|folder| - 1] != '/'
            ==> r == folder + "/" + name
  {
    if name != [] && name[0] == '/' then name
    else if folder == [] || folder[|folder| - 1] == '/' then folder + name
    else folder + "/" + name
  }

  /** The parts of a POST to '/' the route looks at: the file name of the
      'file' part, if the part is there, and the 'language' form field. */
  datatype UploadRequest = UploadRequest(file: Option<string>, language: Option<string>)

  /** What the worker thread is started with. */
  datatype Job = Job(filepath: string, resultFilename: string, language: string)

  datatype Response = Rejected(message: string) | Launched(job: Job)

  /** The POST branch of `index`; `sanitize` stands for `secure_filename`. */
  function Dispatch(req: UploadRequest, sanitize: string -> string): (r: Response)
    ensures r.Launched? <==> req.file.Some? && req.file.value != "" && AllowedFile(req.file.value)
    ensures req.file.None? ==> r == Rejected("No file part")
    ensures req.file == Some("") ==> r == Rejected("No selected file")
    ensures req.file.Some? && req.file.value != "" && !AllowedFile(req.file.value)
            ==> r == Rejected("File type not allowed")
    ensures r.Launched? ==>
              && r.job.resultFilename == sanitize(req.file.value) + ".txt"
              && r.job.filepath == PathJoin(UploadFolder, sanitize(req.file.value))
              && r.job.language == (if req.language.Some? then req.language.value else "auto")
  {
    match req.file
    case None => Rejected("No file part")
    case Some(name) =>
      if name == "" then Rejected("No selected file")
      else
        var language := if req.language.Some? then req.language.value else "auto";
        if AllowedFile(name) then
          var filename := sanitize(name);
          Launched(Job(PathJoin(UploadFolder, filename), filename + ".txt", language))
        else Rejected("File type not allowed")
  }

  /** `sample.wav` with language "auto" launches a job on `uploads/sample.wav`
      whose result file is `sample.wav.txt`. */
  lemma SampleWavLaunched(sanitize: string -> string)
    requires sanitize("sample.wav") == "sample.wav"
    ensures Dispatch(UploadRequest(Some("sample.wav"), Some("auto")), sanitize)
              == Launched(Job("uploads/sample.wav", "sample.wav.txt", "auto"))
  {
    SampleWavAllowed();
    assert PathJoin(UploadFolder, "sample.wav") == "uploads/sample.wav";
  }

  lemma SampleWavAllowed()
    ensures AllowedFile("sample.wav")
  {
    var name := "sample.wav";
    assert name[6] == '.' && name[7..] == "wav" && Lower("wav") == "wav";
    AllowedFileIff(name);
  }

  /** A plain result file name lands in the results folder. */
  lemma ResultPathJoins(name: string)
    requires name != [] && name[0] != '/'
    ensures PathJoin(ResultFolder, name) == "results/" + name
  {
  }

  lemma SampleResultPath()
    ensures PathJoin(ResultFolder, "sample.wav.txt") == "results/sample.wav.txt"
  {
    ResultPathJoins("sample.wav.txt");
    assert "results/" + "sample.wav.txt" == "results/sample.wav.txt";
  }
}
