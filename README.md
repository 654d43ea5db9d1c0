# Image-library scripts

The repository keeps a library of product and hero images under
`public/images/library`. It also keeps a JSON index that describes every image
in words and as an embedding vector. Three offline scripts build that library
and its index. This project models their deterministic logic and proves what
that logic guarantees.

- `scripts/download-initial-images.ts` downloads a fixed list of images. It
  saves each one under a file name derived from the image's short name and
  writes `index.json`.
  - The file name is built by `sanitizeFilename` plus the URL's extension,
    with `.png` as the default.
  - `index.json` lists every image that was saved, in input order.
- `scripts/rebuild-image-library-index.ts` walks the library directory tree
  recursively and collects the supported image files (`.jpg`, `.jpeg`,
  `.png`, `.webp`, compared case-insensitively). For each file it:
  - uploads the file to blob storage under `library/<relative path>`;
  - has a model generate a description and a short name;
  - validates both;
  - embeds the description;
  - records `{path, url, description, shortName, embedding}`, or records the
    failure.

  The output file is written only when at least one image succeeded.
- `scripts/generate-image-data.ts` runs the same pipeline with two
  differences:
  - it looks only at the top level of the library directory;
  - it uploads nothing, so its records carry no `url`.

The Dafny modules follow that structure:

| module | file | contents |
|---|---|---|
| `Ascii` | ascii.dfy | character classes, `toLowerCase` over ASCII |
| `Paths` | paths.dfy | `path.extname`, `path.basename`, `path.join`, `path.relative`, `path.posix.join` for plain names |
| `Options`, `Seqs` | seqs.dfy | optional values; order-preserving filter, filter-map, flatten |
| `Library` | library.dfy | the directory-tree datatype, the supported extensions, the library directories, the generated fields, the failure kinds |
| `DownloadInitialImages` | download_initial_images.dfy | `sanitizeFilename`, file name and path derivation, the download loop |
| `RebuildImageLibraryIndex` | rebuild_image_library_index.dfy | the recursive `findImageFiles`, per-image processing, the main loop |
| `GenerateImageData` | generate_image_data.dfy | the flat `findImageFiles`, per-image processing, the main loop |

The loops of the scripts are `method`s with loop invariants. Each method is
proved equal to a specification function, such as `IndexData`, `ImageFiles`,
`Results`, `Errors` or `Uploads`. The lemmas then prove what the scripts
promise about those functions.

The outside world is a parameter, a datatype of total functions:

- a directory listing is an `Entry` tree;
- `readFile`, blob `put`, `generateObject`, `embed`, URL parsing and the
  HTTPS download each either give a value or fail.

The "## Left out" section lists everything that is abstracted this way. The
scripts' `main()` is `RunScript` in the model, and in the download script it
is `DownloadAll`.

## Model

| member | source | states |
|---|---|---|
| DownloadInitialImages.SanitizeFilename | scripts/download-initial-images.ts:49-55 | the sanitised name consists only of `[a-z0-9-]`, holds no whitespace, and is never longer than the input |
| DownloadInitialImages.KeepSafe | scripts/download-initial-images.ts:54 | the last replace keeps only `[a-z0-9-]` characters and never lengthens the string |
| DownloadInitialImages.CollapseMaximalRun | scripts/download-initial-images.ts:53 | a maximal whitespace run of any length becomes exactly one `-`, and the text on each side is collapsed independently |
| DownloadInitialImages.SanitizeMaximalRun | scripts/download-initial-images.ts:51-54 | after all three stages, a maximal whitespace run between two parts gives `sanitize(a) + "-" + sanitize(b)` |
| DownloadInitialImages.CollapseSpaceKeepsSpaceless | scripts/download-initial-images.ts:53 | a string with no whitespace passes the whitespace replacement unchanged |
| DownloadInitialImages.DropLeadingSpaceSplits | scripts/download-initial-images.ts:53 | the `\s+` match at the start of a string is exactly its leading whitespace, and what follows does not begin with whitespace |
| DownloadInitialImages.SanitizeKeepsSafe | scripts/download-initial-images.ts:51-54 | a name already made of `[a-z0-9-]` is a fixed point of sanitisation |
| DownloadInitialImages.SanitizeIdempotent | scripts/download-initial-images.ts:51-54 | sanitising an already sanitised name changes nothing |
| DownloadInitialImages.CollapseSpaceKeepsAlnum | scripts/download-initial-images.ts:53 | the whitespace replacement keeps every `[a-z0-9]` character, in order |
| DownloadInitialImages.SanitizeKeepsAlnum | scripts/download-initial-images.ts:51-54 | the `[a-z0-9]` characters of the sanitised name are exactly those of the lower-cased name, in their original order |
| DownloadInitialImages.FileExtension | scripts/download-initial-images.ts:96 | the extension is the URL pathname's `path.extname` when that is non-empty and `.png` otherwise; in both cases it is one `.` followed by a segment without `.` or `/` |
| DownloadInitialImages.SavedFilename | scripts/download-initial-images.ts:97-98 | the saved file name is non-empty and contains no `/`; `DotFilename` gives the one case in which it is `.` |
| DownloadInitialImages.SavedFilenameRoundTrip | scripts/download-initial-images.ts:96-98 | when the sanitised short name is non-empty, `path.extname` of the saved name gives back the chosen extension, and the part before it is the sanitised short name |
| DownloadInitialImages.EmptyStemHidesExtension | scripts/download-initial-images.ts:96-98 | when the short name sanitises to nothing, the file name is the bare extension, such as `.png`, and `path.extname` of it is empty |
| DownloadInitialImages.DotFilename | scripts/download-initial-images.ts:96-99 | the saved name is `.` if and only if the short name sanitises to nothing and the URL's extension is a lone `.`; the destination `path.join(targetDir, '.')` is then the target directory itself |
| DownloadInitialImages.LocalImagePath | scripts/download-initial-images.ts:100 | the local path is `/images/library/` followed by the file name |
| DownloadInitialImages.LocalPathNamesFile | scripts/download-initial-images.ts:99-100 | the local path is the `/images/library` directory joined with the file name, and its last component is that file name |
| DownloadInitialImages.EntryFor | scripts/download-initial-images.ts:95-113 | an entry is produced exactly when the URL parses and the download to `targetDir/filename` succeeds; it carries the original URL, the local path, the short name and the description |
| DownloadInitialImages.DownloadAll | scripts/download-initial-images.ts:90-119 | the loop builds exactly `IndexData`: one entry per image that was saved |
| DownloadInitialImages.IndexIsOrderedSubList | scripts/download-initial-images.ts:94-119 | the index maps back, element by element, to the images whose download succeeded, in input order; it is therefore an ordered sub-list no longer than the input |
| DownloadInitialImages.IndexAroundOneImage | scripts/download-initial-images.ts:103-118 | a failed image contributes nothing and the loop goes on; a saved image contributes exactly its own entry, at its own position |
| DownloadInitialImages.IndexPaths | scripts/download-initial-images.ts:96-100 | every recorded local path is `/images/library/` followed by a `/`-free name built from the entry's own short name and an extension; that name is `.` only in the case `DotFilename` describes |
| Library.SupportedIgnoresCase | scripts/rebuild-image-library-index.ts:79 | the extension test ignores case: two names that lower-case to the same string are both supported or both not |
| Paths.ExtNameOfLower | scripts/rebuild-image-library-index.ts:79 | `path.extname` commutes with lower-casing |
| Library.RelativeToPublic | scripts/rebuild-image-library-index.ts:145-155 | a path under the library directory is also under `public`, and its path relative to `public` is `images/library/` followed by its path relative to the library |
| RebuildImageLibraryIndex.Scan | scripts/rebuild-image-library-index.ts:67-89 | the walk gives a result exactly when every directory in the tree can be listed (otherwise it re-throws), and every path it gives lies under the directory |
| RebuildImageLibraryIndex.FindImageFiles | scripts/rebuild-image-library-index.ts:67-89 | the loop over the entries, which concatenates what each entry gives, yields `ImageFiles` when the tree is listable and fails otherwise |
| RebuildImageLibraryIndex.FindEntryFiles | scripts/rebuild-image-library-index.ts:72-82 | one pass of the loop body recurses into a subdirectory, gives a supported file's full path and skips anything else; it fails exactly when a directory below the entry cannot be listed |
| RebuildImageLibraryIndex.ImageFilesAppend | scripts/rebuild-image-library-index.ts:70-83 | the files of a concatenated listing are the files of each part, one after the other, so the output follows entry order |
| RebuildImageLibraryIndex.SubdirectorySplicedInPlace | scripts/rebuild-image-library-index.ts:73-76 | a subdirectory's files are spliced into the result at that subdirectory's position |
| RebuildImageLibraryIndex.SupportedFileInPlace | scripts/rebuild-image-library-index.ts:77-81 | a supported regular file contributes its full path at its own position |
| RebuildImageLibraryIndex.OtherEntriesContributeNothing | scripts/rebuild-image-library-index.ts:77-82 | an unsupported file, or an entry that is neither a file nor a directory, contributes nothing |
| RebuildImageLibraryIndex.ImageFilesAreSupportedFiles | scripts/rebuild-image-library-index.ts:67-84 | a path is in the result if and only if it is the full path of a supported regular file somewhere in the tree, at any depth |
| RebuildImageLibraryIndex.ImageFilesHaveSupportedExtension | scripts/rebuild-image-library-index.ts:77-81 | in a tree of real entry names, every path found has a lower-cased extension in `.jpg`, `.jpeg`, `.png`, `.webp` |
| RebuildImageLibraryIndex.ImageFilesUnderDir | scripts/rebuild-image-library-index.ts:72 | every path found lies below the directory that was scanned |
| RebuildImageLibraryIndex.BlobPathname | scripts/rebuild-image-library-index.ts:155-157 | every blob pathname starts with `library/` |
| RebuildImageLibraryIndex.PublicPath | scripts/rebuild-image-library-index.ts:145-157 | the recorded path starts with `/` and equals `/images/` followed by the blob pathname, that is, `/images/library/` followed by the path relative to the library |
| RebuildImageLibraryIndex.Process | scripts/rebuild-image-library-index.ts:149-200 | an image is recorded if and only if the read, the upload, the generation with a non-empty description and short name, and the embedding all succeed; the record carries the public path, the blob URL, the two generated fields and the embedding; an incomplete generation fails with `IncompleteData`; a failure names the image path |
| RebuildImageLibraryIndex.Upload | scripts/rebuild-image-library-index.ts:151-164 | a blob is written exactly when the read and the `put` succeed, whatever happens afterwards, and it is written under the blob pathname |
| RebuildImageLibraryIndex.ProcessImage | scripts/rebuild-image-library-index.ts:149-200 | the try block, step by step, ends with `Process`'s outcome and leaves behind `Upload`'s blob |
| RebuildImageLibraryIndex.ProcessAll | scripts/rebuild-image-library-index.ts:141-202 | the loop leaves `results`, `errors` and the uploads equal to their specification functions, and the progress counter equal to the number of images |
| RebuildImageLibraryIndex.RunScript | scripts/rebuild-image-library-index.ts:120-252 | the run stops if and only if a directory cannot be listed; it returns before any processing if and only if no image is found; otherwise the outputs are the loop's, and the output file is written if and only if `results` is non-empty, with exactly `results` |
| RebuildImageLibraryIndex.OneMoreImage | scripts/rebuild-image-library-index.ts:191-201 | one more image appends its record to `results` or its failure to `errors`, never both, and appends its blob when the upload went through |
| RebuildImageLibraryIndex.EachImageOnce | scripts/rebuild-image-library-index.ts:144-202 | every image lands in exactly one of `results` and `errors`; the records are those of the succeeding images and the failures name the failing images, both in input order |
| RebuildImageLibraryIndex.RecordsAreValid | scripts/rebuild-image-library-index.ts:179-197 | every record has a non-empty description and short name and a path under `/images/library/`, and that path is `/images/` followed by one of the uploaded blob pathnames |
| RebuildImageLibraryIndex.UploadsAreUnderLibrary | scripts/rebuild-image-library-index.ts:157-164 | every blob uploaded during the run has a pathname starting with `library/` |
| GenerateImageData.FindImageFiles | scripts/generate-image-data.ts:55-80 | the scan fails if and only if the listing fails; every path found lies under the directory and is the directory joined with the name of a regular file listed directly in it |
| GenerateImageData.TopLevelAppend | scripts/generate-image-data.ts:58-75 | the paths of a concatenated listing are the paths of its parts, one after the other, so `map` followed by `flat` keeps entry order |
| GenerateImageData.TopLevelAround | scripts/generate-image-data.ts:58-75 | an entry's own list sits between the paths of the entries before it and after it |
| GenerateImageData.SubdirectoriesIgnored | scripts/generate-image-data.ts:61-65 | a subdirectory contributes no path, whatever it contains |
| GenerateImageData.FileInPlace | scripts/generate-image-data.ts:66-72 | a regular file contributes its full path at its position when its extension is supported, and nothing otherwise |
| GenerateImageData.TopLevelAreSupportedFiles | scripts/generate-image-data.ts:55-75 | a path is in the result if and only if it is the full path of a supported regular file listed directly in the directory |
| GenerateImageData.TopLevelListedDirectly | scripts/generate-image-data.ts:58-75 | every path found is the directory joined with the name of a regular file of its own listing, never a path from deeper in the tree |
| GenerateImageData.TopLevelUnderDir | scripts/generate-image-data.ts:60 | every path found lies below the directory that was scanned |
| GenerateImageData.TopLevelHaveSupportedExtension | scripts/generate-image-data.ts:66-71 | in a listing of real entry names, every path found has a lower-cased extension in the supported list |
| GenerateImageData.AgreesWithRecursiveWalkOnFlatListing | scripts/generate-image-data.ts:55-80 | on a listing without subdirectories, this walk finds the same paths, in the same order, as the recursive walk of the rebuild script; the rebuild script's scan of that listing gives the same outcome as this one when no entry is an unlistable directory, and fails otherwise |
| GenerateImageData.PublicPath | scripts/generate-image-data.ts:136 | the recorded path is `/images/library/` followed by the path relative to the library directory |
| GenerateImageData.PublicPathOfTopLevelFile | scripts/generate-image-data.ts:136 | a file found at the top level is served at `/images/library/` followed by its name |
| GenerateImageData.Process | scripts/generate-image-data.ts:140-176 | an image is recorded if and only if the read, the generation with a non-empty description and short name, and the embedding all succeed; the record carries only the path, the description, the short name and the embedding; an incomplete generation fails with `IncompleteData`; a failure names the image path |
| GenerateImageData.ProcessImage | scripts/generate-image-data.ts:140-176 | the try block, step by step, ends with `Process`'s outcome |
| GenerateImageData.ProcessAll | scripts/generate-image-data.ts:132-178 | the loop leaves `results` and `errors` equal to their specification functions, and the progress counter equal to the number of images |
| GenerateImageData.RunScript | scripts/generate-image-data.ts:111-227 | the run stops if and only if the library directory cannot be listed; it returns before any processing if and only if no image is found; otherwise the outputs are the loop's, and the output file is written if and only if `results` is non-empty, with exactly `results` |
| GenerateImageData.OneMoreImage | scripts/generate-image-data.ts:168-177 | one more image appends its record to `results` or its failure to `errors`, never both |
| GenerateImageData.EachImageOnce | scripts/generate-image-data.ts:135-178 | every image lands in exactly one of `results` and `errors`; the records are those of the succeeding images and the failures name the failing images, both in input order |
| GenerateImageData.RecordsAreValid | scripts/generate-image-data.ts:156-173 | every record has a non-empty description and short name and a path under `/images/library/` |

## Left out

- Unicode: `toLowerCase` and the regular-expression class `\s` are modelled over ASCII only. Non-ASCII letters and non-ASCII whitespace are treated as ordinary characters.
- URL parsing: `new URL(...).pathname` is a given function of the URL, which fails when the constructor would throw.
- Node path semantics are modelled only for plain names.
  - `path.join` is `dir + "/" + name`, with no normalisation of `.`, `..`, repeated separators or absolute names.
  - `path.relative` is modelled only for paths under the base. Every path the walks produce is one, as `ImageFilesUnderDir` and `TopLevelUnderDir` prove.
  - `path.extname` takes the text from the last `.` of the basename, after trailing slashes are removed. It is empty when the basename has no `.`, when the only `.` is the leading character, or when the basename is `..`.
- The HTTPS download (`downloadImage`) is a single success-or-failure outcome per URL and destination. The deletion of a partial file on error is not modelled.
- File contents are not modelled. `readFile` is success or failure per path, and `generateObject` is keyed by the image path instead of the buffer read from it.
- GenerateImageData.FindImageFiles: `Promise.all` over `entries.map` is modelled as a sequential map. The promises do not depend on each other and `Promise.all` keeps their order.
- Embeddings are opaque sequences of numbers. The model names, prompt, schema, retries and timeouts are not modelled.
- Environment-variable checks and `process.exit`, `mkdirSync` and directory creation are not modelled. The same goes for the progress-bar display (only its counter is kept), console output and the summary tables.
- The writes themselves are not modelled: `index.json` in the download script and the JSON output file in the other two. The model records what would be written. A failing write, which exits the process, is not modelled.
- RebuildImageLibraryIndex.Scan: an entry that is a directory but cannot be listed stops the whole walk, as in the script. The model does not say which error is reported.
- DownloadInitialImages.EntryFor: the download outcome is not constrained for the destination `path.join(targetDir, '.')`, which is the target directory itself (see `DotFilename`). The model lets the environment decide it as for any other destination, so it can record an entry with local path `/images/library/.` that the script could not have written.
- DownloadInitialImages.DownloadAll: the fixed image list of the script is a parameter of the model.
- The lookup that matches images against the index is not in these scripts and is not modelled. `app/api/generate/route.ts` is not part of this model.
- The user interface, authentication, database and configuration files are not part of this model.
