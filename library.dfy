/** What scripts/rebuild-image-library-index.ts and scripts/generate-image-data.ts
    share: the directory tree they scan, the extension filter, the directories
    they read from, and the shape of the generated fields and of a failure. */
module Library {
  import opened Ascii
  import opened Options
  import opened Paths

  /** One entry of `fs.readdir(dir, { withFileTypes: true })`: a regular
      file, a directory with the entries its own listing returns, a
      directory whose listing fails (it is missing by then, or unreadable),
      or anything else (a symbolic link, a socket, a device), for which both
      `isFile()` and `isDirectory()` are false. */
  datatype Entry =
    | File(name: string)
    | Directory(name: string, entries: seq<Entry>)
    | Unlistable(name: string)
    | Other(name: string)

  /** `entry.isDirectory()`. */
  predicate IsDirectory(e: Entry) {
    e.Directory? || e.Unlistable?
  }

  /** Every name in the tree is a real directory-entry name. */
  predicate WellFormed(entries: seq<Entry>)
    decreases entries
  {
    forall i :: 0 <= i < |entries| ==>
      IsEntryName(entries[i].name) &&
      (entries[i].Directory? ==> WellFormed(entries[i].entries))
  }

  /** `SUPPORTED_EXTENSIONS`. */
  const SupportedExtensions: seq<string> := [".jpg", ".jpeg", ".png", ".webp"]

  /** `SUPPORTED_EXTENSIONS.includes(path.extname(name).toLowerCase())`. */
  predicate IsSupported(name: string) {
    Lower(ExtName(name)) in SupportedExtensions
  }

  /** The same test as a function value, the form in which the directory
      walks apply it to each regular file's name. Behind a function value
      the test is not unfolded while the verifier reasons about the
      recursive walks; the lemmas that need its meaning connect the two
      with `ExtensionFilter()(name) == IsSupported(name)`. */
  function ExtensionFilter(): string -> bool {
    name => IsSupported(name)
  }

  /** The extension test ignores case: two names that agree once
      lower-cased are both supported or both not. */
  lemma {:induction false} SupportedIgnoresCase(a: string, b: string)
    requires Lower(a) == Lower(b)
    ensures IsSupported(a) == IsSupported(b)
  {
    ExtNameOfLower(a);
    ExtNameOfLower(b);
  }

  /** `path.join(process.cwd(), 'public')`. */
  function PublicDir(cwd: string): string {
    Join(cwd, "public")
  }

  /** `IMAGE_LIBRARY_DIR`: `path.join(process.cwd(), 'public', 'images', 'library')`. */
  function LibraryDir(cwd: string): string {
    Join(Join(PublicDir(cwd), "images"), "library")
  }

  /** Where the web site serves the files of the library directory: the
      library's path below `public`, as an absolute URL path. */
  const LibraryUrlPrefix: string := "/images/library/"

  /** `p` lies below the image library directory. */
  predicate InLibrary(cwd: string, p: string) {
    LibraryDir(cwd) + "/" <= p
  }

  /** A path below the library directory is below the public directory, and
      its path relative to the public directory is `images/library/`
      followed by its path relative to the library directory. */
  lemma {:induction false} RelativeToPublic(cwd: string, p: string)
    requires InLibrary(cwd, p)
    ensures PublicDir(cwd) + "/" <= p
    ensures RelativeUnder(PublicDir(cwd), p) == "images/library/" + RelativeUnder(LibraryDir(cwd), p)
  {
    var pub, lib := PublicDir(cwd), LibraryDir(cwd);
    assert lib + "/" == pub + "/" + "images/library/";
    assert p == pub + "/" + ("images/library/" + RelativeUnder(lib, p));
  }

  /** The two fields `generateObject` is asked for. */
  datatype Generated = Generated(description: string, shortName: string)

  /** The validation `generatedData && generatedData.description &&
      generatedData.shortName`: an object came back and both of its strings
      are non-empty. */
  predicate IsComplete(g: Option<Generated>) {
    g.Some? && g.value.description != "" && g.value.shortName != ""
  }

  /** An embedding vector; its numbers are never inspected. */
  type Vector = seq<real>

  /** The step at which processing one image threw. */
  datatype Failure =
    | ReadFailed
    | UploadFailed
    | GenerationFailed
    | IncompleteData
    | EmbeddingFailed

  /** One element of `errors`: the image path and what went wrong. */
  datatype ImageError = ImageError(path: string, error: Failure)
}
