/** scripts/generate-image-data.ts: collect the supported image files at the
    top level of the image library directory, and for each one have a model
    describe and name it and embed the description, collecting the records
    that succeeded and the failures. Unlike the rebuild script it does not
    descend into subdirectories and uploads nothing. */
module GenerateImageData {
  import opened Options
  import opened Seqs
  import opened Paths
  import opened Library
  import Rebuild = RebuildImageLibraryIndex

  // ---------------------------------------------------------------------
  // findImageFiles: map every entry to a list, then flatten
  // ---------------------------------------------------------------------

  /** The callback given to `entries.map`: a directory gives nothing, a
      supported regular file its full path, anything else nothing. */
  function EntryImages(dir: string, e: Entry): seq<string> {
    if IsDirectory(e) then []
    else if e.File? && ExtensionFilter()(e.name) then [Join(dir, e.name)]
    else []
  }

  /** `entries.map(...)`, awaited by `Promise.all`, which keeps the order. */
  function PerEntry(dir: string, entries: seq<Entry>): seq<seq<string>> {
    seq(|entries|, i requires 0 <= i < |entries| => EntryImages(dir, entries[i]))
  }

  /** `files.flat()`: the paths found in a listing. */
  function TopLevelImages(dir: string, entries: seq<Entry>): seq<string> {
    Flatten(PerEntry(dir, entries))
  }

  /** `findImageFiles(dir)` when `readdir(dir)` returns `listing` (`None`
      when it fails, and the script stops). */
  function FindImageFiles(dir: string, listing: Option<seq<Entry>>): (r: Option<seq<string>>)
    ensures r.Some? <==> listing.Some?
    ensures r.Some? ==> forall i :: 0 <= i < |r.value| ==> dir + "/" <= r.value[i]
    ensures r.Some? ==> forall i :: 0 <= i < |r.value| ==> ListedAsFile(dir, listing.value, r.value[i])
  {
    if listing.None? then None
    else
      TopLevelUnderDir(dir, listing.value);
      TopLevelListedDirectly(dir, listing.value);
      Some(TopLevelImages(dir, listing.value))
  }

  /** The paths of a concatenated listing are the paths of its parts one
      after another: the output follows the entry order. */
  lemma {:induction false} TopLevelAppend(dir: string, a: seq<Entry>, b: seq<Entry>)
    ensures TopLevelImages(dir, a + b) == TopLevelImages(dir, a) + TopLevelImages(dir, b)
  {
    var m, ma, mb := PerEntry(dir, a + b), PerEntry(dir, a), PerEntry(dir, b);
    assert m == ma + mb by {
      forall i | 0 <= i < |m| ensures m[i] == (ma + mb)[i] {
        if i < |a| {
          assert (a + b)[i] == a[i];
        } else {
          assert (a + b)[i] == b[i - |a|];
        }
      }
    }
    FlattenAppend(ma, mb);
  }

  /** The paths of a one-entry listing. */
  lemma {:induction false} TopLevelSingle(dir: string, e: Entry)
    ensures TopLevelImages(dir, [e]) == EntryImages(dir, e)
  {
    var m := PerEntry(dir, [e]);
    assert m == [EntryImages(dir, e)];
    assert m[1..] == [];
    assert Flatten(m) == m[0] + Flatten(m[1..]);
    assert EntryImages(dir, e) + [] == EntryImages(dir, e);
  }

  /** The paths of `before`, the new entry's, then those of `after`. */
  lemma {:induction false} TopLevelAround(dir: string, before: seq<Entry>, e: Entry, after: seq<Entry>)
    ensures TopLevelImages(dir, before + [e] + after)
         == TopLevelImages(dir, before) + EntryImages(dir, e) + TopLevelImages(dir, after)
  {
    TopLevelAppend(dir, before + [e], after);
    TopLevelAppend(dir, before, [e]);
    TopLevelSingle(dir, e);
  }

  /** A subdirectory, whatever it holds, contributes no file. */
  lemma {:induction false} SubdirectoriesIgnored(dir: string, before: seq<Entry>, e: Entry, after: seq<Entry>)
    requires IsDirectory(e)
    ensures TopLevelImages(dir, before + [e] + after) == TopLevelImages(dir, before) + TopLevelImages(dir, after)
  {
    TopLevelAround(dir, before, e, after);
    assert EntryImages(dir, e) == [];
  }

  /** What a regular file contributes: its full path when its extension is
      supported, nothing otherwise. */
  lemma {:induction false} EntryImagesOfFile(dir: string, name: string)
    ensures EntryImages(dir, File(name)) == if IsSupported(name) then [Join(dir, name)] else []
  {
    assert ExtensionFilter()(name) == IsSupported(name);
  }

  /** A supported regular file contributes its full path at its position;
      any other regular file contributes nothing. */
  lemma {:induction false} FileInPlace(dir: string, before: seq<Entry>, name: string, after: seq<Entry>)
    ensures TopLevelImages(dir, before + [File(name)] + after)
         == TopLevelImages(dir, before) + (if IsSupported(name) then [Join(dir, name)] else []) + TopLevelImages(dir, after)
  {
    TopLevelAround(dir, before, File(name), after);
    EntryImagesOfFile(dir, name);
  }

  /** `p` is the full path of a supported regular file listed directly in
      `dir`. */
  ghost predicate SupportedTopLevelFile(dir: string, entries: seq<Entry>, p: string) {
    exists i :: 0 <= i < |entries| &&
      entries[i].File? && IsSupported(entries[i].name) && p == Join(dir, entries[i].name)
  }

  /** The paths found are exactly the supported regular files listed
      directly in the directory. */
  lemma {:induction false} TopLevelAreSupportedFiles(dir: string, entries: seq<Entry>, p: string)
    ensures p in TopLevelImages(dir, entries) <==> SupportedTopLevelFile(dir, entries, p)
  {
    var m := PerEntry(dir, entries);
    FlattenHas(m, p);
    forall i | 0 <= i < |entries|
      ensures p in m[i] <==> entries[i].File? && IsSupported(entries[i].name) && p == Join(dir, entries[i].name)
    {
      InEntryImages(dir, entries[i], p);
    }
  }

  lemma {:induction false} TopLevelCons(dir: string, entries: seq<Entry>)
    requires entries != []
    ensures TopLevelImages(dir, entries) == EntryImages(dir, entries[0]) + TopLevelImages(dir, entries[1..])
  {
    assert entries == [entries[0]] + entries[1..];
    TopLevelAppend(dir, [entries[0]], entries[1..]);
    TopLevelSingle(dir, entries[0]);
  }

  lemma {:induction false} InEntryImages(dir: string, e: Entry, p: string)
    ensures p in EntryImages(dir, e) <==> e.File? && IsSupported(e.name) && p == Join(dir, e.name)
  {
    if e.File? {
      EntryImagesOfFile(dir, e.name);
    }
  }

  /** `p` is `dir` joined with the name of a regular file the listing of
      `dir` holds directly. */
  predicate ListedAsFile(dir: string, entries: seq<Entry>, p: string) {
    exists j :: 0 <= j < |entries| && entries[j].File? && p == Join(dir, entries[j].name)
  }

  /** Every path found is the directory joined with the name of a regular
      file it lists: no path comes from deeper in the tree. */
  lemma {:induction false} TopLevelListedDirectly(dir: string, entries: seq<Entry>)
    ensures forall i :: 0 <= i < |TopLevelImages(dir, entries)| ==> ListedAsFile(dir, entries, TopLevelImages(dir, entries)[i])
  {
    var r := TopLevelImages(dir, entries);
    forall i | 0 <= i < |r| ensures ListedAsFile(dir, entries, r[i]) {
      assert r[i] in r;
      TopLevelAreSupportedFiles(dir, entries, r[i]);
      var j :| 0 <= j < |entries| &&
        entries[j].File? && IsSupported(entries[j].name) && r[i] == Join(dir, entries[j].name);
    }
  }

  /** Every path found lies below the directory. */
  lemma {:induction false} TopLevelUnderDir(dir: string, entries: seq<Entry>)
    ensures forall i :: 0 <= i < |TopLevelImages(dir, entries)| ==> dir + "/" <= TopLevelImages(dir, entries)[i]
  {
    var r := TopLevelImages(dir, entries);
    forall i | 0 <= i < |r| ensures dir + "/" <= r[i] {
      assert r[i] in r;
      TopLevelAreSupportedFiles(dir, entries, r[i]);
    }
  }

  /** In a listing of real entry names, every path found has a supported
      extension itself. */
  lemma {:induction false} TopLevelHaveSupportedExtension(dir: string, entries: seq<Entry>)
    requires WellFormed(entries)
    ensures forall i :: 0 <= i < |TopLevelImages(dir, entries)| ==> IsSupported(TopLevelImages(dir, entries)[i])
  {
    var r := TopLevelImages(dir, entries);
    forall i | 0 <= i < |r| ensures IsSupported(r[i]) {
      assert r[i] in r;
      TopLevelAreSupportedFiles(dir, entries, r[i]);
      var j :| 0 <= j < |entries| &&
        entries[j].File? && IsSupported(entries[j].name) && r[i] == Join(dir, entries[j].name);
      BaseNameOfJoin(dir, entries[j].name);
    }
  }

  /** On a listing without subdirectories this walk and the rebuild
      script's recursive walk find the same paths in the same order. */
  lemma {:induction false} AgreesWithRecursiveWalkOnFlatListing(dir: string, entries: seq<Entry>)
    requires forall i :: 0 <= i < |entries| ==> !entries[i].Directory?
    decreases entries
    ensures TopLevelImages(dir, entries) == Rebuild.ImageFiles(dir, entries)
    ensures Rebuild.Scan(dir, Some(entries)) ==
      if forall i :: 0 <= i < |entries| ==> !entries[i].Unlistable? then FindImageFiles(dir, Some(entries)) else None
  {
    if entries != [] {
      var e, rest := entries[0], entries[1..];
      AgreesWithRecursiveWalkOnFlatListing(dir, rest);
      TopLevelCons(dir, entries);
      assert EntryImages(dir, e) == Rebuild.EntryFiles(dir, e);
    } else {
      assert TopLevelImages(dir, entries) == [];
    }
  }

  // ---------------------------------------------------------------------
  // main: processing every image found
  // ---------------------------------------------------------------------

  /** The outside world one image's processing talks to: whether
      `fs.readFile` succeeds, what `generateObject` returns for the image at
      a path (`None` when it throws), and the embedding `embed` returns for a
      description (`None` when it throws). */
  datatype Services = Services(
    readFile: string -> bool,
    generate: string -> Option<Generated>,
    embed: string -> Option<Vector>)

  /** `ImageData`: one record of the library index; it has no `url`. */
  datatype ImageData = ImageData(path: string, description: string, shortName: string, embedding: Vector)

  /** How the `try` block for one image ends. */
  datatype Outcome = Recorded(data: ImageData) | Failed(error: ImageError)

  /** `/${path.relative(path.join(process.cwd(), 'public'), imagePath)}`. */
  function PublicPath(cwd: string, imagePath: string): (p: string)
    requires InLibrary(cwd, imagePath)
    ensures p == LibraryUrlPrefix + RelativeUnder(LibraryDir(cwd), imagePath)
  {
    RelativeToPublic(cwd, imagePath);
    "/" + RelativeUnder(PublicDir(cwd), imagePath)
  }

  /** A file found at the top level of the library is served at
      `/images/library/` followed by its name. */
  lemma {:induction false} PublicPathOfTopLevelFile(cwd: string, name: string)
    ensures InLibrary(cwd, Join(LibraryDir(cwd), name))
    ensures PublicPath(cwd, Join(LibraryDir(cwd), name)) == LibraryUrlPrefix + name
  {
    var p := Join(LibraryDir(cwd), name);
    assert p == LibraryDir(cwd) + "/" + name;
    assert RelativeUnder(LibraryDir(cwd), p) == name;
  }

  /** The `try` block for one image: read it, generate its description and
      short name, validate them, embed the description. */
  function Process(cwd: string, sv: Services, imagePath: string): (o: Outcome)
    requires InLibrary(cwd, imagePath)
    ensures o.Recorded? <==>
      sv.readFile(imagePath) && IsComplete(sv.generate(imagePath)) &&
      sv.embed(sv.generate(imagePath).value.description).Some?
    ensures o.Recorded? ==>
      o.data.path == PublicPath(cwd, imagePath) &&
      o.data.description == sv.generate(imagePath).value.description != "" &&
      o.data.shortName == sv.generate(imagePath).value.shortName != "" &&
      o.data.embedding == sv.embed(o.data.description).value
    ensures o.Failed? ==> o.error.path == imagePath
    ensures (sv.readFile(imagePath) && sv.generate(imagePath).Some? && !IsComplete(sv.generate(imagePath))) ==>
      o == Failed(ImageError(imagePath, IncompleteData))
  {
    if !sv.readFile(imagePath) then Failed(ImageError(imagePath, ReadFailed))
    else
      var generated := sv.generate(imagePath);
      if generated.None? then Failed(ImageError(imagePath, GenerationFailed))
      else if !IsComplete(generated) then Failed(ImageError(imagePath, IncompleteData))
      else
        var embedding := sv.embed(generated.value.description);
        if embedding.None? then Failed(ImageError(imagePath, EmbeddingFailed))
        else Recorded(ImageData(PublicPath(cwd, imagePath), generated.value.description,
                                generated.value.shortName, embedding.value))
  }

  /** The record one image adds to `results`, if any. */
  function RecordStep(cwd: string, sv: Services): string -> Option<ImageData> {
    p => if InLibrary(cwd, p) && Process(cwd, sv, p).Recorded? then Some(Process(cwd, sv, p).data) else None
  }

  /** The failure one image adds to `errors`, if any. */
  function ErrorStep(cwd: string, sv: Services): string -> Option<ImageError> {
    p => if InLibrary(cwd, p) && Process(cwd, sv, p).Failed? then Some(Process(cwd, sv, p).error) else None
  }

  /** The test "this image is recorded". */
  function Succeeds(cwd: string, sv: Services): string -> bool {
    p => InLibrary(cwd, p) && Process(cwd, sv, p).Recorded?
  }

  /** The test "this image ends up in `errors`". */
  function Fails(cwd: string, sv: Services): string -> bool {
    p => InLibrary(cwd, p) && Process(cwd, sv, p).Failed?
  }

  predicate AllInLibrary(cwd: string, paths: seq<string>) {
    forall i :: 0 <= i < |paths| ==> InLibrary(cwd, paths[i])
  }

  /** `results` after the loop over `paths`. */
  function Results(cwd: string, sv: Services, paths: seq<string>): seq<ImageData> {
    FilterMap(paths, RecordStep(cwd, sv))
  }

  /** `errors` after the loop over `paths`. */
  function Errors(cwd: string, sv: Services, paths: seq<string>): seq<ImageError> {
    FilterMap(paths, ErrorStep(cwd, sv))
  }

  /** How a run of the script ends: it stops with an error because the
      library directory could not be listed; it finds no image and returns;
      or it processes every image found, with the records, the failures,
      the final progress-bar value and what was written to the output file
      (`None` when it is not written). */
  datatype Run =
    | ScanFailed
    | NoImagesFound
    | Completed(results: seq<ImageData>, errors: seq<ImageError>, progress: nat,
                written: Option<seq<ImageData>>)

  /** The `try` block for one image, step by step. */
  method ProcessImage(cwd: string, sv: Services, imagePath: string) returns (outcome: Outcome)
    requires InLibrary(cwd, imagePath)
    ensures outcome == Process(cwd, sv, imagePath)
  {
    if !sv.readFile(imagePath) {
      return Failed(ImageError(imagePath, ReadFailed));
    }
    var generatedData := sv.generate(imagePath);
    if generatedData.None? {
      return Failed(ImageError(imagePath, GenerationFailed));
    }
    if generatedData.value.description == "" || generatedData.value.shortName == "" {
      return Failed(ImageError(imagePath, IncompleteData));
    }
    var embedding := sv.embed(generatedData.value.description);
    if embedding.None? {
      return Failed(ImageError(imagePath, EmbeddingFailed));
    }
    outcome := Recorded(ImageData(PublicPath(cwd, imagePath), generatedData.value.description,
                                  generatedData.value.shortName, embedding.value));
  }

  /** `main()`, given the listing of the image library directory (`None`
      when it cannot be listed) and the services. */
  method RunScript(cwd: string, library: Option<seq<Entry>>, sv: Services) returns (run: Run)
    ensures run.ScanFailed? <==> library.None?
    ensures run.NoImagesFound? <==> FindImageFiles(LibraryDir(cwd), library) == Some([])
    ensures run.Completed? ==>
      var paths := FindImageFiles(LibraryDir(cwd), library).value;
      run.results == Results(cwd, sv, paths) &&
      run.errors == Errors(cwd, sv, paths) &&
      run.progress == |paths| &&
      run.written == (if run.results != [] then Some(run.results) else None)
  {
    var found := FindImageFiles(LibraryDir(cwd), library);
    if found.None? {
      return ScanFailed;
    }
    var imagePaths := found.value;
    if |imagePaths| == 0 {
      return NoImagesFound;
    }
    var results, errors, progress := ProcessAll(cwd, sv, imagePaths);
    var written: Option<seq<ImageData>> := None;
    if |results| > 0 {
      written := Some(results);
    }
    return Completed(results, errors, progress, written);
  }

  /** The loop of `main()` over the images found, with its progress bar. */
  method ProcessAll(cwd: string, sv: Services, imagePaths: seq<string>)
    returns (results: seq<ImageData>, errors: seq<ImageError>, progress: nat)
    requires AllInLibrary(cwd, imagePaths)
    ensures results == Results(cwd, sv, imagePaths)
    ensures errors == Errors(cwd, sv, imagePaths)
    ensures progress == |imagePaths|
  {
    results, errors, progress := [], [], 0;
    for i := 0 to |imagePaths|
      invariant results == Results(cwd, sv, imagePaths[..i])
      invariant errors == Errors(cwd, sv, imagePaths[..i])
      invariant progress == i
    {
      var imagePath := imagePaths[i];
      assert imagePaths[..i + 1] == imagePaths[..i] + [imagePath];
      OneMoreImage(cwd, sv, imagePaths[..i], imagePath);
      var outcome := ProcessImage(cwd, sv, imagePath);
      match outcome {
        case Recorded(data) => results := results + [data];
        case Failed(error) => errors := errors + [error];
      }
      progress := progress + 1;
    }
    assert imagePaths[..|imagePaths|] == imagePaths;
  }

  // ---------------------------------------------------------------------
  // What the loop guarantees
  // ---------------------------------------------------------------------

  /** Processing one more image adds its record to `results` or its failure
      to `errors`, never both; nothing else changes. */
  lemma {:induction false} OneMoreImage(cwd: string, sv: Services, done: seq<string>, p: string)
    requires InLibrary(cwd, p)
    ensures Results(cwd, sv, done + [p]) ==
      Results(cwd, sv, done) + (if Process(cwd, sv, p).Recorded? then [Process(cwd, sv, p).data] else [])
    ensures Errors(cwd, sv, done + [p]) ==
      Errors(cwd, sv, done) + (if Process(cwd, sv, p).Failed? then [Process(cwd, sv, p).error] else [])
  {
    FilterMapAppend(done, [p], RecordStep(cwd, sv));
    FilterMapAppend(done, [p], ErrorStep(cwd, sv));
    assert [p][0] == p && [p][1..] == [];
  }

  /** Every processed image lands in exactly one of `results` and `errors`:
      the two together are as many as the images, the records are those of
      the succeeding images in order, and the failures name the failing
      images in order. */
  lemma {:induction false} EachImageOnce(cwd: string, sv: Services, paths: seq<string>)
    requires AllInLibrary(cwd, paths)
    ensures |Results(cwd, sv, paths)| + |Errors(cwd, sv, paths)| == |paths|
    ensures |Results(cwd, sv, paths)| == |Filter(paths, Succeeds(cwd, sv))|
    ensures forall k :: 0 <= k < |Results(cwd, sv, paths)| ==>
      Process(cwd, sv, Filter(paths, Succeeds(cwd, sv))[k]) == Recorded(Results(cwd, sv, paths)[k])
    ensures |Errors(cwd, sv, paths)| == |Filter(paths, Fails(cwd, sv))|
    ensures forall k :: 0 <= k < |Errors(cwd, sv, paths)| ==>
      Errors(cwd, sv, paths)[k].path == Filter(paths, Fails(cwd, sv))[k]
  {
    FilterMapPartition(paths, RecordStep(cwd, sv), ErrorStep(cwd, sv));
    FilterMapIsFilterThenMap(paths, RecordStep(cwd, sv), Succeeds(cwd, sv));
    FilterMapIsFilterThenMap(paths, ErrorStep(cwd, sv), Fails(cwd, sv));
    var r, ok := Results(cwd, sv, paths), Filter(paths, Succeeds(cwd, sv));
    forall k | 0 <= k < |r| ensures Process(cwd, sv, ok[k]) == Recorded(r[k]) {
      assert Succeeds(cwd, sv)(ok[k]);
    }
    var e, bad := Errors(cwd, sv, paths), Filter(paths, Fails(cwd, sv));
    forall k | 0 <= k < |e| ensures e[k].path == bad[k] {
      assert Fails(cwd, sv)(bad[k]);
    }
  }

  /** Every record has a non-empty description and short name and a path
      that starts with `/images/library/`. */
  lemma {:induction false} RecordsAreValid(cwd: string, sv: Services, paths: seq<string>, k: nat)
    requires AllInLibrary(cwd, paths)
    requires k < |Results(cwd, sv, paths)|
    ensures var d := Results(cwd, sv, paths)[k];
      d.description != "" && d.shortName != "" && LibraryUrlPrefix <= d.path
  {
    var d := Results(cwd, sv, paths)[k];
    FilterMapFrom(paths, RecordStep(cwd, sv), k);
    var i :| 0 <= i < |paths| && RecordStep(cwd, sv)(paths[i]) == Some(d);
    assert Process(cwd, sv, paths[i]) == Recorded(d);
  }
}
