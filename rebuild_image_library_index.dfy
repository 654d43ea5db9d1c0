/** scripts/rebuild-image-library-index.ts: walk the image library directory
    tree for supported image files, and for each one upload it to blob
    storage, have a model describe and name it, embed the description, and
    collect the records that succeeded and the failures. */
module RebuildImageLibraryIndex {
  import opened Options
  import opened Seqs
  import opened Paths
  import opened Library

  // ---------------------------------------------------------------------
  // findImageFiles: the recursive walk
  // ---------------------------------------------------------------------

  /** Every directory in the tree can be listed, so the walk does not throw. */
  predicate Listable(entries: seq<Entry>)
    decreases entries
  {
    forall i :: 0 <= i < |entries| ==>
      !entries[i].Unlistable? &&
      (entries[i].Directory? ==> Listable(entries[i].entries))
  }

  /** The files the walk finds below `dir`, whose listing is `entries`:
      the files each entry contributes, one entry after another. */
  function ImageFiles(dir: string, entries: seq<Entry>): seq<string>
    decreases entries, 1
  {
    if entries == [] then [] else EntryFiles(dir, entries[0]) + ImageFiles(dir, entries[1..])
  }

  /** What one entry of `dir` contributes: a subdirectory its own files, a
      supported regular file its full path, anything else nothing. */
  function EntryFiles(dir: string, e: Entry): seq<string>
    decreases e, 0
  {
    match e
    case Directory(n, sub) => ImageFiles(Join(dir, n), sub)
    case File(n) => if ExtensionFilter()(n) then [Join(dir, n)] else []
    case _ => []
  }

  /** What `findImageFiles(dir)` gives when `readdir(dir)` returns
      `listing` (`None` when that listing fails): the paths, or `None` when
      the script stops because some directory could not be listed. */
  function Scan(dir: string, listing: Option<seq<Entry>>): (r: Option<seq<string>>)
    ensures r.Some? <==> listing.Some? && Listable(listing.value)
    ensures r.Some? ==> forall i :: 0 <= i < |r.value| ==> dir + "/" <= r.value[i]
  {
    if listing.Some? && Listable(listing.value) then
      ImageFilesUnderDir(dir, listing.value);
      Some(ImageFiles(dir, listing.value))
    else None
  }

  /** `findImageFiles(dir)` once `readdir(dir)` has returned `entries`:
      the loop over the entries, concatenating what each entry gives. */
  method FindImageFiles(dir: string, entries: seq<Entry>) returns (imageFiles: Option<seq<string>>)
    decreases entries, 1
    ensures imageFiles == if Listable(entries) then Some(ImageFiles(dir, entries)) else None
  {
    var files: seq<string> := [];
    var i := 0;
    while i < |entries|
      invariant 0 <= i <= |entries|
      invariant Listable(entries[..i])
      invariant files == ImageFiles(dir, entries[..i])
    {
      var found := FindEntryFiles(dir, entries[i]);
      WalkStep(dir, entries, i);
      if found.None? {
        ListableSplit(entries, i);
        return None;
      }
      files := files + found.value;
      i := i + 1;
    }
    assert entries[..i] == entries;
    return Some(files);
  }

  /** One pass of the loop body: a subdirectory is searched recursively
      (and the search fails when some directory in it cannot be listed), a
      supported regular file is pushed, anything else is skipped. */
  method FindEntryFiles(dir: string, entry: Entry) returns (found: Option<seq<string>>)
    decreases entry, 0
    ensures found == if EntryListable(entry) then Some(EntryFiles(dir, entry)) else None
  {
    var fullPath := Join(dir, entry.name);
    match entry {
      case Directory(_, sub) =>
        found := FindImageFiles(fullPath, sub);
      case Unlistable(_) =>
        found := None;
      case File(n) =>
        found := Some(if ExtensionFilter()(n) then [fullPath] else []);
      case Other(_) =>
        found := Some([]);
    }
  }

  /** The entry's own listing, if it is a directory, does not fail. */
  predicate EntryListable(e: Entry) {
    !e.Unlistable? && (e.Directory? ==> Listable(e.entries))
  }

  /** One more entry of the loop: the prefix walked so far grows by that
      entry's files, and stays listable when the entry is. */
  lemma {:induction false} WalkStep(dir: string, entries: seq<Entry>, i: nat)
    requires i < |entries|
    ensures Listable(entries[..i + 1]) <==> Listable(entries[..i]) && EntryListable(entries[i])
    ensures ImageFiles(dir, entries[..i + 1]) == ImageFiles(dir, entries[..i]) + EntryFiles(dir, entries[i])
  {
    assert entries[..i + 1] == entries[..i] + [entries[i]];
    ListableAppend(entries[..i], [entries[i]]);
    ListableSingle(entries[i]);
    ImageFilesAppend(dir, entries[..i], [entries[i]]);
    ImageFilesSingle(dir, entries[i]);
  }

  lemma {:induction false} ListableAppend(a: seq<Entry>, b: seq<Entry>)
    ensures Listable(a + b) <==> Listable(a) && Listable(b)
  {
    assert forall i :: 0 <= i < |a| ==> (a + b)[i] == a[i];
    assert forall i :: 0 <= i < |b| ==> (a + b)[|a| + i] == b[i];
  }

  lemma {:induction false} ListableSingle(e: Entry)
    ensures Listable([e]) <==> EntryListable(e)
  {
    assert [e][0] == e;
  }

  /** A list with an unlistable entry, or with an entry whose own tree is
      not listable, is not listable. */
  lemma {:induction false} ListableSplit(entries: seq<Entry>, i: nat)
    requires i < |entries|
    ensures Listable(entries) ==> EntryListable(entries[i])
  {
  }

  /** The walk of a concatenated listing is the walks one after another. */
  lemma {:induction false} ImageFilesAppend(dir: string, a: seq<Entry>, b: seq<Entry>)
    decreases a
    ensures ImageFiles(dir, a + b) == ImageFiles(dir, a) + ImageFiles(dir, b)
  {
    if a == [] {
      assert a + b == b;
    } else {
      var here, tail := EntryFiles(dir, a[0]), ImageFiles(dir, a[1..] + b);
      assert ImageFiles(dir, a + b) == here + tail by {
        assert a + b != [] && (a + b)[0] == a[0];
        assert (a + b)[1..] == a[1..] + b;
      }
      assert tail == ImageFiles(dir, a[1..]) + ImageFiles(dir, b) by {
        ImageFilesAppend(dir, a[1..], b);
      }
      assert ImageFiles(dir, a) == here + ImageFiles(dir, a[1..]);
      assert here + (ImageFiles(dir, a[1..]) + ImageFiles(dir, b)) == (here + ImageFiles(dir, a[1..])) + ImageFiles(dir, b);
    }
  }

  /** The walk of a one-entry listing. */
  lemma {:induction false} ImageFilesSingle(dir: string, e: Entry)
    ensures ImageFiles(dir, [e]) == EntryFiles(dir, e)
  {
    assert [e][0] == e && [e][1..] == [];
    assert EntryFiles(dir, e) + [] == EntryFiles(dir, e);
  }

  /** Every path the walk finds lies below the directory walked. */
  lemma {:induction false} ImageFilesUnderDir(dir: string, entries: seq<Entry>)
    decreases entries
    ensures forall i :: 0 <= i < |ImageFiles(dir, entries)| ==> dir + "/" <= ImageFiles(dir, entries)[i]
  {
    if entries != [] {
      var e, rest := entries[0], entries[1..];
      ImageFilesUnderDir(dir, rest);
      var here := EntryFiles(dir, e);
      assert ImageFiles(dir, entries) == here + ImageFiles(dir, rest);
      if e.Directory? {
        var sub := Join(dir, e.name);
        ImageFilesUnderDir(sub, e.entries);
        assert here == ImageFiles(sub, e.entries);
        assert dir + "/" <= sub + "/" by {
          assert (sub + "/")[..|dir| + 1] == dir + "/";
        }
        forall i | 0 <= i < |here| ensures dir + "/" <= here[i] {
          PrefixThrough(dir + "/", sub + "/", here[i]);
        }
      }
    }
  }

  lemma {:induction false} PrefixThrough(a: string, b: string, c: string)
    requires a <= b && b <= c
    ensures a <= c
  {
    assert c[..|a|] == b[..|a|];
  }

  /** A subdirectory's files appear in the result exactly at that
      subdirectory's position among its siblings, whatever its depth. */
  lemma {:induction false} SubdirectorySplicedInPlace(dir: string, before: seq<Entry>, name: string, sub: seq<Entry>, after: seq<Entry>)
    ensures ImageFiles(dir, before + [Directory(name, sub)] + after)
         == ImageFiles(dir, before) + ImageFiles(Join(dir, name), sub) + ImageFiles(dir, after)
  {
    var e := Directory(name, sub);
    ImageFilesAppend(dir, before + [e], after);
    ImageFilesAppend(dir, before, [e]);
    ImageFilesSingle(dir, e);
  }

  /** A supported file appears exactly at its position among its siblings. */
  lemma {:induction false} SupportedFileInPlace(dir: string, before: seq<Entry>, name: string, after: seq<Entry>)
    requires IsSupported(name)
    ensures ImageFiles(dir, before + [File(name)] + after)
         == ImageFiles(dir, before) + [Join(dir, name)] + ImageFiles(dir, after)
  {
    var e := File(name);
    ImageFilesAppend(dir, before + [e], after);
    ImageFilesAppend(dir, before, [e]);
    ImageFilesSingle(dir, e);
  }

  /** An entry that is neither a directory nor a supported file contributes
      nothing: unsupported files, other kinds of entry, and (as far as the
      paths go) a directory whose listing fails. */
  lemma {:induction false} OtherEntriesContributeNothing(dir: string, before: seq<Entry>, e: Entry, after: seq<Entry>)
    requires !e.Directory? && !(e.File? && IsSupported(e.name))
    ensures ImageFiles(dir, before + [e] + after) == ImageFiles(dir, before) + ImageFiles(dir, after)
  {
    ImageFilesAppend(dir, before + [e], after);
    ImageFilesAppend(dir, before, [e]);
    ImageFilesSingle(dir, e);
  }

  /** `p` is the full path of a supported regular file somewhere in the
      tree below `dir`, at any depth. */
  ghost predicate SupportedFileIn(dir: string, entries: seq<Entry>, p: string)
    decreases entries
  {
    exists i :: 0 <= i < |entries| &&
      ((entries[i].File? && IsSupported(entries[i].name) && p == Join(dir, entries[i].name)) ||
       (entries[i].Directory? && SupportedFileIn(Join(dir, entries[i].name), entries[i].entries, p)))
  }

  /** The walk finds exactly the supported regular files of the tree, at
      every depth, and nothing else. */
  lemma {:induction false} ImageFilesAreSupportedFiles(dir: string, entries: seq<Entry>, p: string)
    decreases entries
    ensures p in ImageFiles(dir, entries) <==> SupportedFileIn(dir, entries, p)
  {
    if entries != [] {
      var e, rest := entries[0], entries[1..];
      ImageFilesAreSupportedFiles(dir, rest, p);
      var here := EntryFiles(dir, e);
      assert ImageFiles(dir, entries) == here + ImageFiles(dir, rest);
      var atHead := (e.File? && IsSupported(e.name) && p == Join(dir, e.name)) ||
                    (e.Directory? && SupportedFileIn(Join(dir, e.name), e.entries, p));
      if e.Directory? {
        ImageFilesAreSupportedFiles(Join(dir, e.name), e.entries, p);
      }
      assert p in here <==> atHead;
      if SupportedFileIn(dir, entries, p) && !atHead {
        var i :| 0 <= i < |entries| &&
          ((entries[i].File? && IsSupported(entries[i].name) && p == Join(dir, entries[i].name)) ||
           (entries[i].Directory? && SupportedFileIn(Join(dir, entries[i].name), entries[i].entries, p)));
        assert i > 0 && rest[i - 1] == entries[i];
      }
      if SupportedFileIn(dir, rest, p) {
        var j :| 0 <= j < |rest| &&
          ((rest[j].File? && IsSupported(rest[j].name) && p == Join(dir, rest[j].name)) ||
           (rest[j].Directory? && SupportedFileIn(Join(dir, rest[j].name), rest[j].entries, p)));
        assert entries[j + 1] == rest[j];
      }
      if atHead {
        assert entries[0] == e;
      }
    }
  }

  /** In a tree of real entry names, every path found has a supported
      extension itself: the extension test on the entry name and on the
      full path agree. */
  lemma {:induction false} ImageFilesHaveSupportedExtension(dir: string, entries: seq<Entry>)
    requires WellFormed(entries)
    decreases entries
    ensures forall i :: 0 <= i < |ImageFiles(dir, entries)| ==> IsSupported(ImageFiles(dir, entries)[i])
  {
    if entries != [] {
      var e, rest := entries[0], entries[1..];
      assert WellFormed(rest) by {
        forall i | 0 <= i < |rest| ensures IsEntryName(rest[i].name) && (rest[i].Directory? ==> WellFormed(rest[i].entries)) {
          assert rest[i] == entries[i + 1];
        }
      }
      ImageFilesHaveSupportedExtension(dir, rest);
      var here := EntryFiles(dir, e);
      assert ImageFiles(dir, entries) == here + ImageFiles(dir, rest);
      assert forall i :: 0 <= i < |here| ==> IsSupported(here[i]) by {
        assert IsEntryName(e.name);
        if e.Directory? {
          assert WellFormed(e.entries);
          ImageFilesHaveSupportedExtension(Join(dir, e.name), e.entries);
          assert here == ImageFiles(Join(dir, e.name), e.entries);
        } else {
          EntryFilesOfFile(dir, e);
        }
      }
    }
  }

  /** A regular file that the walk keeps has a supported full path. */
  lemma {:induction false} EntryFilesOfFile(dir: string, e: Entry)
    requires !e.Directory? && IsEntryName(e.name)
    ensures forall i :: 0 <= i < |EntryFiles(dir, e)| ==> IsSupported(EntryFiles(dir, e)[i])
  {
    if e.File? && ExtensionFilter()(e.name) {
      assert EntryFiles(dir, e) == [Join(dir, e.name)];
      BaseNameOfJoin(dir, e.name);
    } else {
      assert EntryFiles(dir, e) == [];
    }
  }

  // ---------------------------------------------------------------------
  // main: processing every image found
  // ---------------------------------------------------------------------

  /** The outside world one image's processing talks to, each call keyed by
      what it is given: whether `fs.readFile` succeeds, the URL Vercel Blob's
      `put` returns for a blob pathname (`None` when it throws), what
      `generateObject` returns for the image at a path (`None` when it
      throws), and the embedding `embed` returns for a description. */
  datatype Services = Services(
    readFile: string -> bool,
    put: string -> Option<string>,
    generate: string -> Option<Generated>,
    embed: string -> Option<Vector>)

  /** `ImageData`: one record of the library index. */
  datatype ImageData = ImageData(path: string, url: string, description: string, shortName: string, embedding: Vector)

  /** How the `try` block for one image ends. */
  datatype Outcome = Recorded(data: ImageData) | Failed(error: ImageError)

  /** `path.posix.join('library', path.relative(IMAGE_LIBRARY_DIR, imagePath))`. */
  function BlobPathname(cwd: string, imagePath: string): (b: string)
    requires InLibrary(cwd, imagePath)
    ensures "library/" <= b
  {
    PosixJoin("library", RelativeUnder(LibraryDir(cwd), imagePath))
  }

  /** `/${path.relative(path.join(process.cwd(), 'public'), imagePath)}`: the
      image's path as the web site serves it. */
  function PublicPath(cwd: string, imagePath: string): (p: string)
    requires InLibrary(cwd, imagePath)
    ensures p == "/images/" + BlobPathname(cwd, imagePath)
    ensures p == LibraryUrlPrefix + RelativeUnder(LibraryDir(cwd), imagePath)
  {
    RelativeToPublic(cwd, imagePath);
    "/" + RelativeUnder(PublicDir(cwd), imagePath)
  }

  /** The `try` block for one image: read it, upload it, generate its
      description and short name, validate them, embed the description. */
  function Process(cwd: string, sv: Services, imagePath: string): (o: Outcome)
    requires InLibrary(cwd, imagePath)
    ensures o.Recorded? <==>
      sv.readFile(imagePath) && sv.put(BlobPathname(cwd, imagePath)).Some? &&
      IsComplete(sv.generate(imagePath)) && sv.embed(sv.generate(imagePath).value.description).Some?
    ensures o.Recorded? ==>
      o.data.path == PublicPath(cwd, imagePath) &&
      o.data.url == sv.put(BlobPathname(cwd, imagePath)).value &&
      o.data.description == sv.generate(imagePath).value.description != "" &&
      o.data.shortName == sv.generate(imagePath).value.shortName != "" &&
      o.data.embedding == sv.embed(o.data.description).value
    ensures o.Failed? ==> o.error.path == imagePath
    ensures (sv.readFile(imagePath) && sv.put(BlobPathname(cwd, imagePath)).Some? &&
             sv.generate(imagePath).Some? && !IsComplete(sv.generate(imagePath))) ==>
      o == Failed(ImageError(imagePath, IncompleteData))
  {
    if !sv.readFile(imagePath) then Failed(ImageError(imagePath, ReadFailed))
    else
      var blob := sv.put(BlobPathname(cwd, imagePath));
      if blob.None? then Failed(ImageError(imagePath, UploadFailed))
      else
        var generated := sv.generate(imagePath);
        if generated.None? then Failed(ImageError(imagePath, GenerationFailed))
        else if !IsComplete(generated) then Failed(ImageError(imagePath, IncompleteData))
        else
          var embedding := sv.embed(generated.value.description);
          if embedding.None? then Failed(ImageError(imagePath, EmbeddingFailed))
          else Recorded(ImageData(PublicPath(cwd, imagePath), blob.value,
                                  generated.value.description, generated.value.shortName,
                                  embedding.value))
  }

  /** The blob pathname written to the store while processing this image,
      if the upload went through. */
  function Upload(cwd: string, sv: Services, imagePath: string): (u: Option<string>)
    requires InLibrary(cwd, imagePath)
    ensures u.Some? <==> sv.readFile(imagePath) && sv.put(BlobPathname(cwd, imagePath)).Some?
    ensures u.Some? ==> u.value == BlobPathname(cwd, imagePath)
  {
    if sv.readFile(imagePath) && sv.put(BlobPathname(cwd, imagePath)).Some?
    then Some(BlobPathname(cwd, imagePath)) else None
  }

  /** The record one image adds to `results`, if any. */
  function RecordStep(cwd: string, sv: Services): string -> Option<ImageData> {
    p => if InLibrary(cwd, p) && Process(cwd, sv, p).Recorded? then Some(Process(cwd, sv, p).data) else None
  }

  /** The failure one image adds to `errors`, if any. */
  function ErrorStep(cwd: string, sv: Services): string -> Option<ImageError> {
    p => if InLibrary(cwd, p) && Process(cwd, sv, p).Failed? then Some(Process(cwd, sv, p).error) else None
  }

  /** The blob one image adds to the store, if any. */
  function UploadStep(cwd: string, sv: Services): string -> Option<string> {
    p => if InLibrary(cwd, p) then Upload(cwd, sv, p) else None
  }

  /** The test "this image is recorded". */
  function Succeeds(cwd: string, sv: Services): string -> bool {
    p => InLibrary(cwd, p) && Process(cwd, sv, p).Recorded?
  }

  /** The test "this image ends up in `errors`". */
  function Fails(cwd: string, sv: Services): string -> bool {
    p => InLibrary(cwd, p) && Process(cwd, sv, p).Failed?
  }

  predicate AllInLibrary(cwd: string, paths: seq<string>) {
    forall i :: 0 <= i < |paths| ==> InLibrary(cwd, paths[i])
  }

  /** `results` after the loop over `paths`. */
  function Results(cwd: string, sv: Services, paths: seq<string>): seq<ImageData>
  {
    FilterMap(paths, RecordStep(cwd, sv))
  }

  /** `errors` after the loop over `paths`. */
  function Errors(cwd: string, sv: Services, paths: seq<string>): seq<ImageError>
  {
    FilterMap(paths, ErrorStep(cwd, sv))
  }

  /** The blob pathnames uploaded during the loop over `paths`, in order. */
  function Uploads(cwd: string, sv: Services, paths: seq<string>): seq<string>
  {
    FilterMap(paths, UploadStep(cwd, sv))
  }

  /** How a run of the script ends: it stops with an error because a
      directory could not be listed; it finds no image and returns; or it
      processes every image found, with the records, the failures, the final
      progress-bar value, the blobs uploaded and what was written to the
      output file (`None` when it is not written). */
  datatype Run =
    | ScanFailed
    | NoImagesFound
    | Completed(results: seq<ImageData>, errors: seq<ImageError>, progress: nat,
                uploads: seq<string>, written: Option<seq<ImageData>>)

  /** The `try` block for one image, step by step. */
  method ProcessImage(cwd: string, sv: Services, imagePath: string) returns (outcome: Outcome, uploaded: Option<string>)
    requires InLibrary(cwd, imagePath)
    ensures outcome == Process(cwd, sv, imagePath)
    ensures uploaded == Upload(cwd, sv, imagePath)
  {
    uploaded := None;
    if !sv.readFile(imagePath) {
      return Failed(ImageError(imagePath, ReadFailed)), uploaded;
    }
    var blobPathname := BlobPathname(cwd, imagePath);
    var blob := sv.put(blobPathname);
    if blob.None? {
      return Failed(ImageError(imagePath, UploadFailed)), uploaded;
    }
    uploaded := Some(blobPathname);
    var generatedData := sv.generate(imagePath);
    if generatedData.None? {
      return Failed(ImageError(imagePath, GenerationFailed)), uploaded;
    }
    if generatedData.value.description == "" || generatedData.value.shortName == "" {
      return Failed(ImageError(imagePath, IncompleteData)), uploaded;
    }
    var embedding := sv.embed(generatedData.value.description);
    if embedding.None? {
      return Failed(ImageError(imagePath, EmbeddingFailed)), uploaded;
    }
    outcome := Recorded(ImageData(PublicPath(cwd, imagePath), blob.value,
                                  generatedData.value.description, generatedData.value.shortName,
                                  embedding.value));
  }

  /** `main()`, given the listing of the image library directory (`None`
      when it cannot be listed) and the services. */
  method RunScript(cwd: string, library: Option<seq<Entry>>, sv: Services) returns (run: Run)
    ensures run.ScanFailed? <==> Scan(LibraryDir(cwd), library).None?
    ensures run.NoImagesFound? <==> Scan(LibraryDir(cwd), library) == Some([])
    ensures run.Completed? ==>
      var paths := Scan(LibraryDir(cwd), library).value;
      run.results == Results(cwd, sv, paths) &&
      run.errors == Errors(cwd, sv, paths) &&
      run.uploads == Uploads(cwd, sv, paths) &&
      run.progress == |paths| &&
      run.written == (if run.results != [] then Some(run.results) else None)
  {
    if library.None? {
      return ScanFailed;
    }
    var found := FindImageFiles(LibraryDir(cwd), library.value);
    if found.None? {
      return ScanFailed;
    }
    assert found == Scan(LibraryDir(cwd), library);
    var imagePaths := found.value;
    if |imagePaths| == 0 {
      return NoImagesFound;
    }
    var results, errors, uploads, progress := ProcessAll(cwd, sv, imagePaths);
    var written: Option<seq<ImageData>> := None;
    if |results| > 0 {
      written := Some(results);
    }
    return Completed(results, errors, progress, uploads, written);
  }

  /** The loop of `main()` over the images found, with its progress bar. */
  method ProcessAll(cwd: string, sv: Services, imagePaths: seq<string>)
    returns (results: seq<ImageData>, errors: seq<ImageError>, uploads: seq<string>, progress: nat)
    requires AllInLibrary(cwd, imagePaths)
    ensures results == Results(cwd, sv, imagePaths)
    ensures errors == Errors(cwd, sv, imagePaths)
    ensures uploads == Uploads(cwd, sv, imagePaths)
    ensures progress == |imagePaths|
  {
    results, errors, uploads, progress := [], [], [], 0;
    for i := 0 to |imagePaths|
      invariant results == Results(cwd, sv, imagePaths[..i])
      invariant errors == Errors(cwd, sv, imagePaths[..i])
      invariant uploads == Uploads(cwd, sv, imagePaths[..i])
      invariant progress == i
    {
      var imagePath := imagePaths[i];
      assert imagePaths[..i + 1] == imagePaths[..i] + [imagePath];
      OneMoreImage(cwd, sv, imagePaths[..i], imagePath);
      var outcome, uploaded := ProcessImage(cwd, sv, imagePath);
      match outcome {
        case Recorded(data) => results := results + [data];
        case Failed(error) => errors := errors + [error];
      }
      if uploaded.Some? {
        uploads := uploads + [uploaded.value];
      }
      progress := progress + 1;
    }
    assert imagePaths[..|imagePaths|] == imagePaths;
  }

  // ---------------------------------------------------------------------
  // What the loop guarantees
  // ---------------------------------------------------------------------

  /** Processing one more image adds its record to `results` or its failure
      to `errors`, never both, and its blob to the uploads if the upload
      went through; nothing else changes. */
  lemma {:induction false} OneMoreImage(cwd: string, sv: Services, done: seq<string>, p: string)
    requires InLibrary(cwd, p)
    ensures Results(cwd, sv, done + [p]) ==
      Results(cwd, sv, done) + (if Process(cwd, sv, p).Recorded? then [Process(cwd, sv, p).data] else [])
    ensures Errors(cwd, sv, done + [p]) ==
      Errors(cwd, sv, done) + (if Process(cwd, sv, p).Failed? then [Process(cwd, sv, p).error] else [])
    ensures Uploads(cwd, sv, done + [p]) ==
      Uploads(cwd, sv, done) + (if Upload(cwd, sv, p).Some? then [Upload(cwd, sv, p).value] else [])
  {
    FilterMapAppend(done, [p], RecordStep(cwd, sv));
    FilterMapAppend(done, [p], ErrorStep(cwd, sv));
    FilterMapAppend(done, [p], UploadStep(cwd, sv));
    assert [p][0] == p && [p][1..] == [];
  }

  /** Every processed image lands in exactly one of `results` and `errors`:
      the two together are as many as the images, the records are those of
      the succeeding images in order, and the failures name the failing
      images in order. */
  lemma {:induction false} EachImageOnce(cwd: string, sv: Services, paths: seq<string>)
    requires AllInLibrary(cwd, paths)
    ensures |Results(cwd, sv, paths)| + |Errors(cwd, sv, paths)| == |paths|
    ensures |Results(cwd, sv, paths)| == |Filter(paths, Succeeds(cwd, sv))|
    ensures forall k :: 0 <= k < |Results(cwd, sv, paths)| ==>
      Process(cwd, sv, Filter(paths, Succeeds(cwd, sv))[k]) == Recorded(Results(cwd, sv, paths)[k])
    ensures |Errors(cwd, sv, paths)| == |Filter(paths, Fails(cwd, sv))|
    ensures forall k :: 0 <= k < |Errors(cwd, sv, paths)| ==>
      Errors(cwd, sv, paths)[k].path == Filter(paths, Fails(cwd, sv))[k]
  {
    FilterMapPartition(paths, RecordStep(cwd, sv), ErrorStep(cwd, sv));
    FilterMapIsFilterThenMap(paths, RecordStep(cwd, sv), Succeeds(cwd, sv));
    FilterMapIsFilterThenMap(paths, ErrorStep(cwd, sv), Fails(cwd, sv));
    var r, ok := Results(cwd, sv, paths), Filter(paths, Succeeds(cwd, sv));
    forall k | 0 <= k < |r| ensures Process(cwd, sv, ok[k]) == Recorded(r[k]) {
      assert Succeeds(cwd, sv)(ok[k]);
    }
    var e, bad := Errors(cwd, sv, paths), Filter(paths, Fails(cwd, sv));
    forall k | 0 <= k < |e| ensures e[k].path == bad[k] {
      assert Fails(cwd, sv)(bad[k]);
    }
  }

  /** Every record has a non-empty description and short name, a path that
      starts with `/images/library/`, and a path that is `/images/` before a
      blob pathname uploaded during the run. */
  lemma {:induction false} RecordsAreValid(cwd: string, sv: Services, paths: seq<string>, k: nat)
    requires AllInLibrary(cwd, paths)
    requires k < |Results(cwd, sv, paths)|
    ensures var d := Results(cwd, sv, paths)[k];
      d.description != "" && d.shortName != "" && LibraryUrlPrefix <= d.path &&
      exists j :: 0 <= j < |Uploads(cwd, sv, paths)| && d.path == "/images/" + Uploads(cwd, sv, paths)[j]
  {
    var d := Results(cwd, sv, paths)[k];
    FilterMapFrom(paths, RecordStep(cwd, sv), k);
    var i :| 0 <= i < |paths| && RecordStep(cwd, sv)(paths[i]) == Some(d);
    assert Process(cwd, sv, paths[i]) == Recorded(d);
    FilterMapHas(paths, UploadStep(cwd, sv), i);
    var u := Uploads(cwd, sv, paths);
    var j :| 0 <= j < |u| && u[j] == BlobPathname(cwd, paths[i]);
  }

  /** Every blob pathname uploaded starts with `library/`. */
  lemma {:induction false} UploadsAreUnderLibrary(cwd: string, sv: Services, paths: seq<string>, k: nat)
    requires AllInLibrary(cwd, paths)
    requires k < |Uploads(cwd, sv, paths)|
    ensures "library/" <= Uploads(cwd, sv, paths)[k]
  {
    FilterMapFrom(paths, UploadStep(cwd, sv), k);
  }
}
