/** scripts/download-initial-images.ts: a one-off script that downloads a
    fixed list of product images, saves each under a file name derived from
    its short name, and writes an index of the images it saved. */
module DownloadInitialImages {
  import opened Ascii
  import opened Options
  import opened Seqs
  import opened Paths
  import Library

  // ---------------------------------------------------------------------
  // sanitizeFilename
  // ---------------------------------------------------------------------

  /** The characters `[a-z0-9-]` that survive sanitisation. */
  predicate IsSafe(c: char) {
    IsLowerLetter(c) || IsDigit(c) || c == '-'
  }

  predicate IsAlnum(c: char) {
    IsLowerLetter(c) || IsDigit(c)
  }

  predicate HasNoSpace(s: string) {
    forall i :: 0 <= i < |s| ==> !IsSpace(s[i])
  }

  predicate AllSpace(s: string) {
    forall i :: 0 <= i < |s| ==> IsSpace(s[i])
  }

  /** `s` without its leading whitespace run. */
  function DropLeadingSpace(s: string): (r: string)
    ensures |r| <= |s|
  {
    if s != [] && IsSpace(s[0]) then DropLeadingSpace(s[1..]) else s
  }

  /** What `DropLeadingSpace` removes is whitespace, and what it keeps is a
      suffix that does not open with whitespace. */
  lemma {:induction false} DropLeadingSpaceSplits(s: string)
    ensures var r := DropLeadingSpace(s);
      r == s[|s| - |r|..] && AllSpace(s[..|s| - |r|]) && (r == [] || !IsSpace(r[0]))
  {
    if s != [] && IsSpace(s[0]) {
      DropLeadingSpaceSplits(s[1..]);
    }
  }

  /** `.replace(/\s+/g, '-')`: every maximal run of whitespace becomes a
      single `-`; every other character is kept in place. */
  function CollapseSpace(s: string): (r: string)
    ensures |r| <= |s|
    decreases |s|
  {
    if s == [] then []
    else if IsSpace(s[0]) then "-" + CollapseSpace(DropLeadingSpace(s[1..]))
    else [s[0]] + CollapseSpace(s[1..])
  }

  /** `.replace(/[^a-z0-9-]/g, '')`. */
  function KeepSafe(s: string): (r: string)
    ensures forall i :: 0 <= i < |r| ==> IsSafe(r[i])
    ensures |r| <= |s|
  {
    Filter(s, IsSafe)
  }

  /** `sanitizeFilename(name)`: lower-case, whitespace runs to `-`, then
      drop everything outside `[a-z0-9-]`. The result is made of lower-case
      ASCII letters, digits and `-` only, so it holds no whitespace, and it
      is never longer than the name. */
  function SanitizeFilename(name: string): (r: string)
    ensures forall i :: 0 <= i < |r| ==> IsSafe(r[i])
    ensures HasNoSpace(r)
    ensures |r| <= |name|
  {
    KeepSafe(CollapseSpace(Lower(name)))
  }

  lemma {:induction false} DropLeadingSpaceAppend(a: string, b: string)
    ensures DropLeadingSpace(a + b) == if AllSpace(a) then DropLeadingSpace(b) else DropLeadingSpace(a) + b
  {
    if a != [] {
      assert (a + b)[0] == a[0] && (a + b)[1..] == a[1..] + b;
      if IsSpace(a[0]) {
        DropLeadingSpaceAppend(a[1..], b);
        assert AllSpace(a) == AllSpace(a[1..]);
      } else {
        assert !AllSpace(a);
      }
    } else {
      assert a + b == b;
    }
  }

  /** Whitespace collapsing works piecewise when the cut does not fall inside
      a whitespace run. */
  lemma {:induction false} CollapseSpaceAppend(a: string, b: string)
    requires a == [] || b == [] || !IsSpace(a[|a| - 1]) || !IsSpace(b[0])
    ensures CollapseSpace(a + b) == CollapseSpace(a) + CollapseSpace(b)
    decreases |a|, 1
  {
    if a == [] {
      assert a + b == b;
    } else if b == [] {
      assert a + b == a;
    } else if IsSpace(a[0]) {
      CollapseSpaceAppendRun(a, b);
    } else {
      assert (a + b)[0] == a[0] && (a + b)[1..] == a[1..] + b;
      if a[1..] != [] { assert a[1..][|a[1..]| - 1] == a[|a| - 1]; }
      CollapseSpaceAppend(a[1..], b);
      assert CollapseSpace(a + b) == [a[0]] + (CollapseSpace(a[1..]) + CollapseSpace(b));
    }
  }

  /** The case of `CollapseSpaceAppend` where `a` opens with whitespace. */
  lemma {:induction false} CollapseSpaceAppendRun(a: string, b: string)
    requires a != [] && b != [] && IsSpace(a[0])
    requires !IsSpace(a[|a| - 1]) || !IsSpace(b[0])
    ensures CollapseSpace(a + b) == CollapseSpace(a) + CollapseSpace(b)
    decreases |a|, 0
  {
    var t := a[1..];
    DropLeadingSpaceAppend(t, b);
    if AllSpace(t) {
      assert AllSpace(a) && !IsSpace(b[0]) by {
        assert a[|a| - 1] == if t == [] then a[0] else t[|t| - 1];
        assert forall i :: 1 <= i < |a| ==> a[i] == t[i - 1];
      }
      CollapseWholeRun(a, b);
    } else {
      var d := DropLeadingSpace(t);
      assert d != [] && d[|d| - 1] == a[|a| - 1] by {
        DropLeadingSpaceSplits(t);
      }
      CollapseSpaceAppend(d, b);
      CollapseRunThenRest(a, b, d);
    }
  }

  /** `a` is one whitespace run and `b` opens with another character. */
  lemma {:induction false} CollapseWholeRun(a: string, b: string)
    requires a != [] && AllSpace(a) && b != [] && !IsSpace(b[0])
    requires DropLeadingSpace(a[1..] + b) == DropLeadingSpace(b)
    ensures CollapseSpace(a + b) == CollapseSpace(a) + CollapseSpace(b)
  {
    assert (a + b)[0] == a[0] && (a + b)[1..] == a[1..] + b;
    DropAllSpace(a[1..]);
    assert DropLeadingSpace(b) == b;
    assert CollapseSpace(a) == "-";
  }

  /** `a` is a whitespace run followed by `d`, which holds another character. */
  lemma {:induction false} CollapseRunThenRest(a: string, b: string, d: string)
    requires a != [] && IsSpace(a[0]) && d == DropLeadingSpace(a[1..])
    requires DropLeadingSpace(a[1..] + b) == d + b
    requires CollapseSpace(d + b) == CollapseSpace(d) + CollapseSpace(b)
    ensures CollapseSpace(a + b) == CollapseSpace(a) + CollapseSpace(b)
  {
    var cd, cb := CollapseSpace(d), CollapseSpace(b);
    assert CollapseSpace(a + b) == "-" + CollapseSpace(d + b) by {
      assert a + b != [] && (a + b)[0] == a[0] && (a + b)[1..] == a[1..] + b;
    }
    assert CollapseSpace(a) == "-" + cd;
    assert "-" + (cd + cb) == ("-" + cd) + cb;
  }

  lemma {:induction false} DropAllSpace(s: string)
    requires AllSpace(s)
    ensures DropLeadingSpace(s) == []
  {
    if s != [] {
      DropAllSpace(s[1..]);
    }
  }

  /** A string without whitespace passes the whitespace step unchanged. */
  lemma {:induction false} CollapseSpaceKeepsSpaceless(s: string)
    requires HasNoSpace(s)
    ensures CollapseSpace(s) == s
  {
    if s != [] {
      CollapseSpaceKeepsSpaceless(s[1..]);
    }
  }

  /** A maximal run of whitespace, whatever its length, becomes exactly one
      `-` before filtering, and the text on each side is processed on its
      own. */
  lemma {:induction false} CollapseMaximalRun(a: string, w: string, b: string)
    requires w != [] && AllSpace(w)
    requires a == [] || !IsSpace(a[|a| - 1])
    requires b == [] || !IsSpace(b[0])
    ensures CollapseSpace(a + w + b) == CollapseSpace(a) + "-" + CollapseSpace(b)
  {
    assert a + w + b == a + (w + b);
    if w + b != [] { assert (w + b)[0] == w[0]; }
    CollapseSpaceAppend(a, w + b);
    CollapseSpaceAppend(w, b);
    DropAllSpace(w[1..]);
  }

  /** Sanitisation cuts the same way: one `-` per whitespace run between
      the two sanitised sides. */
  lemma {:induction false} SanitizeMaximalRun(a: string, w: string, b: string)
    requires w != [] && AllSpace(w)
    requires a == [] || !IsSpace(a[|a| - 1])
    requires b == [] || !IsSpace(b[0])
    ensures SanitizeFilename(a + w + b) == SanitizeFilename(a) + "-" + SanitizeFilename(b)
  {
    LowerAppend(a + w, b);
    LowerAppend(a, w);
    var la, lw, lb := Lower(a), Lower(w), Lower(b);
    if a != [] { ToLowerKeepsClasses(a[|a| - 1]); }
    if b != [] { ToLowerKeepsClasses(b[0]); }
    forall i | 0 <= i < |lw| ensures IsSpace(lw[i]) { ToLowerKeepsClasses(w[i]); }
    CollapseMaximalRun(la, lw, lb);
    var ca, cb := CollapseSpace(la), CollapseSpace(lb);
    FilterAppend(ca + "-", cb, IsSafe);
    FilterAppend(ca, "-", IsSafe);
    assert Filter("-", IsSafe) == "-" by { assert "-"[1..] == []; }
  }

  /** Names already made of `[a-z0-9-]` are fixed points. */
  lemma {:induction false} SanitizeKeepsSafe(s: string)
    requires forall i :: 0 <= i < |s| ==> IsSafe(s[i])
    ensures SanitizeFilename(s) == s
  {
    assert Lower(s) == s;
    CollapseSpaceKeepsSpaceless(s);
    FilterKeepsAll(s, IsSafe);
  }

  /** Sanitising twice is sanitising once. */
  lemma {:induction false} SanitizeIdempotent(name: string)
    ensures SanitizeFilename(SanitizeFilename(name)) == SanitizeFilename(name)
  {
    SanitizeKeepsSafe(SanitizeFilename(name));
  }

  /** Whitespace collapsing touches no letter or digit. */
  lemma {:induction false} CollapseSpaceKeepsAlnum(s: string)
    ensures Filter(CollapseSpace(s), IsAlnum) == Filter(s, IsAlnum)
    decreases |s|
  {
    if s != [] {
      if IsSpace(s[0]) {
        var d := DropLeadingSpace(s[1..]);
        DropLeadingSpaceSplits(s[1..]);
        var n := |s[1..]| - |d|;
        assert s[1..] == s[1..][..n] + d;
        FilterAppend(s[1..][..n], d, IsAlnum);
        NoAlnumInSpace(s[1..][..n]);
        CollapseSpaceKeepsAlnum(d);
        FilterAppend("-", CollapseSpace(d), IsAlnum);
        assert Filter("-", IsAlnum) == [] by { assert "-"[1..] == []; }
      } else {
        CollapseSpaceKeepsAlnum(s[1..]);
        FilterAppend([s[0]], CollapseSpace(s[1..]), IsAlnum);
        assert Filter([s[0]], IsAlnum) == (if IsAlnum(s[0]) then [s[0]] else []) + Filter([], IsAlnum);
      }
    }
  }

  lemma {:induction false} NoAlnumInSpace(s: string)
    requires AllSpace(s)
    ensures Filter(s, IsAlnum) == []
  {
    if s != [] {
      NoAlnumInSpace(s[1..]);
    }
  }

  /** The letters and digits of the lower-cased name all survive, in their
      original order, and nothing else but `-` does: the sanitised name is
      the lower-cased name's `[a-z0-9]` characters with dashes between. */
  lemma {:induction false} SanitizeKeepsAlnum(name: string)
    ensures Filter(SanitizeFilename(name), IsAlnum) == Filter(Lower(name), IsAlnum)
    ensures IsSubsequence(Filter(Lower(name), IsAlnum), SanitizeFilename(name))
  {
    var c := CollapseSpace(Lower(name));
    FilterNarrow(c, IsSafe, IsAlnum);
    CollapseSpaceKeepsAlnum(Lower(name));
    FilterIsSubsequence(SanitizeFilename(name), IsAlnum);
  }

  // ---------------------------------------------------------------------
  // File name and local path of one image
  // ---------------------------------------------------------------------

  /** `path.extname(pathname) || '.png'`. */
  function FileExtension(pathname: string): (ext: string)
    ensures ext != [] && ext[0] == '.' && '.' !in ext[1..] && '/' !in ext
    ensures ExtName(pathname) != "" ==> ext == ExtName(pathname)
    ensures ExtName(pathname) == "" ==> ext == ".png"
  {
    var e := ExtName(pathname);
    if e == "" then ".png" else e
  }

  /** `${sanitizeFilename(shortName)}${fileExtension}`. */
  function SavedFilename(shortName: string, pathname: string): (filename: string)
    ensures '/' !in filename
    ensures filename != []
  {
    var stem := SanitizeFilename(shortName);
    var ext := FileExtension(pathname);
    assert forall i :: 0 <= i < |stem + ext| ==> (stem + ext)[i] != '/' by {
      forall i | 0 <= i < |stem + ext| ensures (stem + ext)[i] != '/' {
        if i < |stem| { assert IsSafe(stem[i]); } else { assert (stem + ext)[i] == ext[i - |stem|]; }
      }
    }
    stem + ext
  }

  /** `/images/library/${filename}`. */
  function LocalImagePath(filename: string): (p: string)
    ensures Library.LibraryUrlPrefix <= p
    ensures p[|Library.LibraryUrlPrefix|..] == filename
  {
    Library.LibraryUrlPrefix + filename
  }

  /** The saved file name splits back into its two parts: `path.extname`
      of the file name is the extension taken from the URL (or `.png`), and
      what precedes it is the sanitised short name. */
  lemma {:induction false} SavedFilenameRoundTrip(shortName: string, pathname: string)
    requires SanitizeFilename(shortName) != ""
    ensures var f := SavedFilename(shortName, pathname);
      ExtName(f) == FileExtension(pathname) &&
      f[..|f| - |ExtName(f)|] == SanitizeFilename(shortName)
  {
    var stem := SanitizeFilename(shortName);
    assert '.' !in stem && '/' !in stem by {
      forall i | 0 <= i < |stem| ensures stem[i] != '.' && stem[i] != '/' { assert IsSafe(stem[i]); }
    }
    ExtOfStemAndExt(stem, FileExtension(pathname));
  }

  /** A short name with nothing to keep (`"!!!"`) yields a hidden file such
      as `.png`, whose own extension is empty. */
  lemma {:induction false} EmptyStemHidesExtension(shortName: string, pathname: string)
    requires SanitizeFilename(shortName) == ""
    ensures SavedFilename(shortName, pathname) == FileExtension(pathname)
    ensures ExtName(SavedFilename(shortName, pathname)) == ""
  {
    assert SavedFilename(shortName, pathname) == "" + FileExtension(pathname);
    ExtOfBareExt(FileExtension(pathname));
  }

  /** The saved name is `.` exactly when the short name sanitises to
      nothing and the URL's pathname ends in a lone `.` (as in
      `https://host/a.`, whose extension `.` is not empty and so replaces the
      default). `path.join` of the target directory and `.` is then the
      target directory itself, not a file in it. */
  lemma {:induction false} DotFilename(shortName: string, pathname: string)
    ensures SavedFilename(shortName, pathname) == "." <==>
      SanitizeFilename(shortName) == "" && FileExtension(pathname) == "."
  {
    var stem, ext := SanitizeFilename(shortName), FileExtension(pathname);
    assert SavedFilename(shortName, pathname) == stem + ext;
    if stem + ext == "." {
      assert |stem| + |ext| == 1 && ext != [];
      assert stem == [];
      assert ext == stem + ext;
    }
  }

  /** The recorded local path names the saved file: its last component is
      the file name and the file sits directly in `/images/library`. */
  lemma {:induction false} LocalPathNamesFile(shortName: string, pathname: string)
    ensures var f := SavedFilename(shortName, pathname);
      BaseName(LocalImagePath(f)) == f
    ensures var f := SavedFilename(shortName, pathname);
      LocalImagePath(f) == Join("/images/library", f)
  {
    var f := SavedFilename(shortName, pathname);
    assert LocalImagePath(f) == Join("/images/library", f);
    BaseNameOfJoin("/images/library", f);
  }

  // ---------------------------------------------------------------------
  // The download loop of main
  // ---------------------------------------------------------------------

  /** One element of the script's `imageData.images` list. */
  datatype SourceImage = SourceImage(imageUrl: string, shortName: string, alt: string)

  /** One record of the index file. */
  datatype IndexEntry = IndexEntry(originalUrl: string, localPath: string, shortName: string, description: string)

  /** What the script learns from the outside world: the `pathname` of
      `new URL(imageUrl)` (None when the URL does not parse and the
      constructor throws), and whether downloading a URL to a destination
      file succeeds. */
  datatype Network = Network(
    urlPathname: string -> Option<string>,
    download: (string, string) -> bool)

  /** The body of the `try` block for one image: the index entry it pushes,
      or None when the URL does not parse or the download fails. */
  function EntryFor(cwd: string, net: Network, image: SourceImage): (e: Option<IndexEntry>)
    ensures e.Some? <==> (net.urlPathname(image.imageUrl).Some? &&
      net.download(image.imageUrl, Join(Library.LibraryDir(cwd), SavedFilename(image.shortName, net.urlPathname(image.imageUrl).value))))
    ensures e.Some? ==>
      e.value.originalUrl == image.imageUrl && e.value.shortName == image.shortName &&
      e.value.description == image.alt &&
      e.value.localPath == LocalImagePath(SavedFilename(image.shortName, net.urlPathname(image.imageUrl).value))
  {
    match net.urlPathname(image.imageUrl)
    case None => None
    case Some(pathname) =>
      var filename := SavedFilename(image.shortName, pathname);
      if net.download(image.imageUrl, Join(Library.LibraryDir(cwd), filename)) then
        Some(IndexEntry(image.imageUrl, LocalImagePath(filename), image.shortName, image.alt))
      else None
  }

  /** `EntryFor` as a step over the image list. */
  function EntryStep(cwd: string, net: Network): SourceImage -> Option<IndexEntry> {
    image => EntryFor(cwd, net, image)
  }

  /** Whether an image's download went through. */
  function Saved(cwd: string, net: Network): SourceImage -> bool {
    image => EntryFor(cwd, net, image).Some?
  }

  /** The index the loop builds: one entry per image that was saved. */
  function IndexData(cwd: string, net: Network, images: seq<SourceImage>): seq<IndexEntry> {
    FilterMap(images, EntryStep(cwd, net))
  }

  /** The `for` loop of `main`: each image is attempted in turn; an entry is
      pushed only after its download succeeded, and a failure is logged and
      skipped. The returned list is what is written to `index.json` (always,
      even when empty). */
  method DownloadAll(cwd: string, net: Network, images: seq<SourceImage>) returns (indexData: seq<IndexEntry>)
    ensures indexData == IndexData(cwd, net, images)
  {
    indexData := [];
    var i := 0;
    while i < |images|
      invariant 0 <= i <= |images|
      invariant indexData == IndexData(cwd, net, images[..i])
    {
      var image := images[i];
      var parsed := net.urlPathname(image.imageUrl);
      if parsed.Some? {
        var fileExtension := FileExtension(parsed.value);
        var baseName := SanitizeFilename(image.shortName);
        var filename := baseName + fileExtension;
        var destinationPath := Join(Library.LibraryDir(cwd), filename);
        var localImagePath := Library.LibraryUrlPrefix + filename;
        if net.download(image.imageUrl, destinationPath) {
          indexData := indexData + [IndexEntry(image.imageUrl, localImagePath, image.shortName, image.alt)];
        }
      }
      FilterMapSnoc(images[..i], image, EntryStep(cwd, net));
      assert images[..i + 1] == images[..i] + [image];
      i := i + 1;
    }
    assert images[..i] == images;
  }

  /** The image an index entry records. */
  function SourceOf(e: IndexEntry): SourceImage {
    SourceImage(e.originalUrl, e.shortName, e.description)
  }

  /** The index is an order-preserving sub-list of the input images: mapping
      each entry back to the image it describes gives exactly the images
      whose download succeeded, in input order. */
  lemma {:induction false} IndexIsOrderedSubList(cwd: string, net: Network, images: seq<SourceImage>)
    ensures |IndexData(cwd, net, images)| <= |images|
    ensures var saved := Filter(images, Saved(cwd, net));
      |IndexData(cwd, net, images)| == |saved| &&
      (forall k :: 0 <= k < |saved| ==> SourceOf(IndexData(cwd, net, images)[k]) == saved[k])
    ensures IsSubsequence(Filter(images, Saved(cwd, net)), images)
  {
    FilterIsSubsequence(images, Saved(cwd, net));
    FilterMapIsFilterThenMap(images, EntryStep(cwd, net), Saved(cwd, net));
    var idx, saved := IndexData(cwd, net, images), Filter(images, Saved(cwd, net));
    forall k | 0 <= k < |saved| ensures SourceOf(idx[k]) == saved[k] {
      assert Some(idx[k]) == EntryFor(cwd, net, saved[k]);
    }
  }

  /** A failed image adds nothing and the loop goes on; a saved image adds
      exactly its own entry at its own position. */
  lemma {:induction false} IndexAroundOneImage(cwd: string, net: Network, before: seq<SourceImage>, image: SourceImage, after: seq<SourceImage>)
    ensures EntryFor(cwd, net, image).None? ==>
      IndexData(cwd, net, before + [image] + after) == IndexData(cwd, net, before) + IndexData(cwd, net, after)
    ensures EntryFor(cwd, net, image).Some? ==>
      IndexData(cwd, net, before + [image] + after) ==
        IndexData(cwd, net, before) + [EntryFor(cwd, net, image).value] + IndexData(cwd, net, after)
  {
    var f := EntryStep(cwd, net);
    FilterMapAppend(before + [image], after, f);
    FilterMapSnoc(before, image, f);
  }

  /** Every recorded local path is `/images/library/` followed by a single
      file name made of the sanitised short name and an extension. */
  lemma {:induction false} IndexPaths(cwd: string, net: Network, images: seq<SourceImage>, k: nat)
    requires k < |IndexData(cwd, net, images)|
    ensures var e := IndexData(cwd, net, images)[k];
      Library.LibraryUrlPrefix <= e.localPath &&
      '/' !in e.localPath[|Library.LibraryUrlPrefix|..] &&
      exists pathname :: e.localPath == LocalImagePath(SavedFilename(e.shortName, pathname))
  {
    var f := EntryStep(cwd, net);
    FilterMapFrom(images, f, k);
    var e := IndexData(cwd, net, images)[k];
    var i :| 0 <= i < |images| && f(images[i]) == Some(e);
    var pathname := net.urlPathname(images[i].imageUrl).value;
    assert e.localPath == LocalImagePath(SavedFilename(e.shortName, pathname));
  }
}
