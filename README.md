# Asset combining helper and upload validation rules, in Dafny

This project models the two parts of a small CakePHP utility library that hold logic of their own.

- **The Minify view helper** (`src/View/Helper/MinifyHelper.php`) keeps two containers:
  `css` for stylesheets and `js` for scripts. Each container holds two parallel lists:
  - `intern`: the resolved filesystem paths.
  - `extern`: the references exactly as the page gave them.

  When a kind is fetched, the helper does one of two things:
  - In development it lists the references.
  - In production it combines the files into a single cache file, writes that file only when it is missing, and points at it.
- **The upload validation rules** (`src/Validation/UploadValidation.php`): seven predicates. Each one rejects an upload whose `error` entry is strictly identical to one of PHP's upload error codes.

Modules, one per file:
- `Wrappers`: `Option` and `Result`.
- `PhpStrings`: the PHP built-ins the helper relies on. These are `trim`, `implode`, and integer-to-string conversion, all over byte strings.
- `UploadValidation`: the seven rules.
- `AssetFiles`: the filesystem, the newest-mtime scan, the cache file name, and the chunking rule.
- `CssRewrite`: the `(\.\.\/)+` replacement, with the root URL inserted literally.
- `MinifyHelper`: the class `Minify`, whose fields are the two containers and the `live` flag, and whose methods are the helper's operations.

Modelling choices:
- The filesystem is a map from path to file. A file is its content plus its mtime.
- Foreign calls are fields of an `Env` value:
  - `md5(serialize(...))`
  - the three minifiers
  - `Url->build(webroot, true)`
  - the two candidate paths that `path()` computes
- The time stamp of a written file is a parameter.
- A `char` stands for one byte, so PHP's `strlen` is the sequence length.
- A `null` chunk is the empty string. This loses nothing: a chunk that received a file holds at least the two wrapping newlines.

The chunking rule: a new chunk is started when the current chunk plus the next wrapped file would be strictly longer than 100,000 bytes. The file is then appended whatever its size. Wrapped sizes 502, 99,802 and 402 therefore give three chunks of one file each, because 502 + 99,802 = 100,304 and 99,802 + 402 = 100,204 are both over the limit (`AssetFiles.ChunkExample`).

## Model

| member | source | states |
|---|---|---|
| `UploadValidation.IsUnderPhpSizeLimit` | src/Validation/UploadValidation.php:14-16 | false exactly when the `error` entry exists and is the integer 1 (UPLOAD_ERR_INI_SIZE) |
| `UploadValidation.IsUnderFormSizeLimit` | src/Validation/UploadValidation.php:23-25 | false exactly when `error` is the integer 2 (UPLOAD_ERR_FORM_SIZE) |
| `UploadValidation.IsCompletedUpload` | src/Validation/UploadValidation.php:32-34 | false exactly when `error` is the integer 3 (UPLOAD_ERR_PARTIAL) |
| `UploadValidation.IsFileUpload` | src/Validation/UploadValidation.php:41-43 | false exactly when `error` is the integer 4 (UPLOAD_ERR_NO_FILE) |
| `UploadValidation.IsTemporaryDirectory` | src/Validation/UploadValidation.php:50-52 | false exactly when `error` is the integer 6 (UPLOAD_ERR_NO_TMP_DIR) |
| `UploadValidation.IsSuccessfulWrite` | src/Validation/UploadValidation.php:59-61 | false exactly when `error` is the integer 7 (UPLOAD_ERR_CANT_WRITE) |
| `UploadValidation.IsNotStoppedByExtension` | src/Validation/UploadValidation.php:68-70 | false exactly when `error` is the integer 8 (UPLOAD_ERR_EXTENSION) |
| `UploadValidation.MissingErrorPassesAll` | src/Validation/UploadValidation.php:15 | with no `error` entry the lookup is `null` and all seven rules pass |
| `UploadValidation.UploadOkPassesAll` | src/Validation/UploadValidation.php:14-70 | `error` = 0 (UPLOAD_ERR_OK) passes all seven rules |
| `UploadValidation.OneRulePerCode` | src/Validation/UploadValidation.php:14-70 | the number of failing rules is 1 when `error` is an integer in {1,2,3,4,6,7,8}, and 0 for every other value (5, strings, floats, null) |
| `UploadValidation.StrictComparison` | src/Validation/UploadValidation.php:15 | the string "1" and the float 1.0 pass the size rule; only the integer 1 fails it |
| `UploadValidation.OnlyErrorEntryMatters` | src/Validation/UploadValidation.php:15-69 | two upload arrays with the same `error` lookup get the same seven verdicts, whatever their other entries |
| `MinifyHelper.Minify.constructor` | src/View/Helper/MinifyHelper.php:68-72 | both containers start with empty, parallel lists and `live` starts false |
| `MinifyHelper.Minify.ResolveGroup` | src/View/Helper/MinifyHelper.php:114-116 | one resolved entry per reference, in order, each the result of `path()` |
| `MinifyHelper.Resolve` | src/View/Helper/MinifyHelper.php:180-193 | the web root path when that file exists, else the loaded plugin's path, else nothing |
| `MinifyHelper.Minify.Style` | src/View/Helper/MinifyHelper.php:100-121 | `null` or a value that is neither a string nor a list changes nothing; a string counts as a one-element list; the resolved group is put in front of `intern` and the references in front of `extern`; the lists stay parallel; scripts and `live` are unchanged |
| `MinifyHelper.Minify.Script` | src/View/Helper/MinifyHelper.php:127-148 | the same as `Style`, for the script container, leaving stylesheets unchanged |
| `MinifyHelper.Minify.Fetch` | src/View/Helper/MinifyHelper.php:155-166 | any name other than "style"/"script" fails with nothing set or built; otherwise `live` is set and the result is the rendering of that kind |
| `MinifyHelper.Minify.Filename` | src/View/Helper/MinifyHelper.php:202-214 | any name other than "css"/"js" fails; otherwise the name is `cache-{last}-{hash(intern)}.{ext}`, where `last` is the running maximum mtime of the existing entries |
| `AssetFiles.LastModifiedIsNewest` | src/View/Helper/MinifyHelper.php:207-211 | `last` is at least the mtime of every existing entry and is either 0 or the mtime of one of them |
| `AssetFiles.LastModifiedReadsOnlyMtimes` | src/View/Helper/MinifyHelper.php:207-213 | the name depends only on which entries exist and on their mtimes, so the same list with the same mtimes gives the same name |
| `AssetFiles.LastModifiedAfterWrite` | src/View/Helper/MinifyHelper.php:209-211 | writing a file that is not one of the entries does not change `last` |
| `AssetFiles.CacheNameSeparatesMtimes` | src/View/Helper/MinifyHelper.php:213 | a different newest mtime gives a different cache name for the same hash and extension |
| `PhpStrings.NatToStringRoundTrip` | src/View/Helper/MinifyHelper.php:213 | the decimal text of `last` in the name reads back as `last` |
| `MinifyHelper.Minify.Chunks` | src/View/Helper/MinifyHelper.php:221-239 | the output equals the chunking of the wrapped file contents, `"\n" . content . "\n"`, in list order |
| `AssetFiles.ChunksWellChunked` | src/View/Helper/MinifyHelper.php:222-235 | each chunk is the concatenation of a group of whole files, and the groups flattened give the files in order. Only the first group can be empty, and only when there are no files or the first is over the limit. A chunk with two or more files is within 100,000 bytes. A chunk is closed only when the next file would have pushed it over. |
| `AssetFiles.ChunksRoundTrip` | src/View/Helper/MinifyHelper.php:226-235 | the chunks joined in order are exactly the wrapped files joined in order |
| `AssetFiles.OversizedChunkHoldsOneFile` | src/View/Helper/MinifyHelper.php:228-234 | a chunk of two or more files is within the limit, and a chunk over the limit holds exactly one file |
| `AssetFiles.NoFilesOneEmptyChunk` | src/View/Helper/MinifyHelper.php:222-223 | an empty list gives a single empty (`null`) chunk |
| `AssetFiles.OversizedFirstFile` | src/View/Helper/MinifyHelper.php:228-231 | a first file over the limit leaves chunk 0 empty and starts a second chunk |
| `AssetFiles.SmallFilesOneChunk` | src/View/Helper/MinifyHelper.php:226-235 | files whose wrapped sizes add up to at most the limit form one chunk |
| `AssetFiles.ChunkExample` | src/View/Helper/MinifyHelper.php:228-234 | wrapped sizes 502, 99,802, 402 give three chunks, one file each |
| `CssRewrite.RewriteWithoutUp` | src/View/Helper/MinifyHelper.php:271 | text without `../` is left unchanged |
| `CssRewrite.RewriteRun` | src/View/Helper/MinifyHelper.php:271 | a run of one or more `../` becomes one copy of the root URL |
| `CssRewrite.RewritePlainPrefix` | src/View/Helper/MinifyHelper.php:271 | text without `../` that does not end in `.` passes through in front of what follows, so no match straddles it |
| `CssRewrite.RewriteRunAfter` | src/View/Helper/MinifyHelper.php:271 | a maximal run of `../` after any text without `../`, including text that ends in `.`, becomes one copy of the root URL, with the text before it unchanged |
| `CssRewrite.DotBeforeRun` | src/View/Helper/MinifyHelper.php:271 | `a.../b` becomes `a.`, the root URL, then `b`: the dot before the run is kept |
| `MinifyHelper.Minify.RewriteChunks` | src/View/Helper/MinifyHelper.php:270-271 | every chunk is replaced by its rewrite and the number of chunks is kept |
| `MinifyHelper.RewriteAllWithoutUp` | src/View/Helper/MinifyHelper.php:270-271 | chunks without `../` come through the rewrite unchanged |
| `MinifyHelper.Minify.Compress` | src/View/Helper/MinifyHelper.php:274-278 | the output is each chunk minified and trimmed, concatenated in order |
| `PhpStrings.Trim` | src/View/Helper/MinifyHelper.php:277 | the result is a slice of the input that neither starts nor ends with a trim character, and everything cut off at either end is a trim character; an unpadded string is kept as it is |
| `PhpStrings.Implode` | src/View/Helper/MinifyHelper.php:281 | an empty list joins to the empty string and a single chunk to itself |
| `PhpStrings.ImplodeLength` | src/View/Helper/MinifyHelper.php:281 | the joined output is as long as all chunks plus one separator between each pair of neighbours |
| `PhpStrings.ImplodeContents` | src/View/Helper/MinifyHelper.php:281 | the uncompressed output is the first chunk followed by every further chunk preceded by `"\n"` |
| `PhpStrings.ImplodeSplit` | src/View/Helper/MinifyHelper.php:314 | joining two non-empty lists of chunks is joining each and putting one separator between them |
| `MinifyHelper.UncompressedScriptIsFiles` | src/View/Helper/MinifyHelper.php:306-314 | uncompressed scripts that fit in one chunk are cached as exactly their wrapped contents, in order |
| `MinifyHelper.Render` | src/View/Helper/MinifyHelper.php:261-291 | in development: nothing written and the references listed as given. In production: one URL, the cache file's. An existing cache file is never rewritten, a missing one is written with the combined content, and the file exists afterwards. |
| `MinifyHelper.Minify.BuildStyle` | src/View/Helper/MinifyHelper.php:259-292 | the filesystem and URLs left behind are the rendering of the stylesheets: chunks, `../` rewrite, then compression or newline join, written once |
| `MinifyHelper.Minify.BuildScript` | src/View/Helper/MinifyHelper.php:298-325 | the same for scripts, without the rewrite |
| `MinifyHelper.CacheReused` | src/View/Helper/MinifyHelper.php:261-288 | fetching again with nothing touched reuses the cache file: same URL and nothing rewritten |
| `MinifyHelper.RegistrationOrderExample` | src/View/Helper/MinifyHelper.php:119-120 | in development, `style("x.css")` then `style(["y.css"])` lists y.css before x.css |
| `MinifyHelper.Html` | src/View/Helper/MinifyHelper.php:246-253 | the page is unchanged in debug mode or with compression off; otherwise it is the trimmed minifier output, without surrounding whitespace |

## Left out

- `src/Error/EmailErrorHandler.php` is not part of this model. It only adds a skip list to the framework's error hooks and sends email.
- The minifier libraries, `md5`/`serialize`, and `Url->build` are foreign calls. They are taken as arbitrary functions (`Env`), so nothing is proved about what they compute.
- `path()`'s URL computation is framework code: `Url->assetUrl`, `webroot`, `Inflector::camelize`, `Plugin::loaded` and `Plugin::path`. The model takes its two candidate paths from `Env`. Only the choice between them is modelled.
- Tag rendering through `Html->css`/`Html->script`, and the `async` attribute, are left out. The output is modelled as the argument handed to `Html->css`/`Html->script`: in development the references as given, which the tag helper still turns into URLs (base URL prefix, extension); in production the cache file's URL.
- Paths are POSIX. The source joins the cache route and the cache file name with PHP's `DS`, the platform's directory separator (`\` on Windows). The model fixes `DS` to `"/"`.
- `afterLayout` is left out. It only stores `_html`'s result in the view's content block, and `_html` is modelled (`Html`).
- The constructor's route computation from `WWW_ROOT` and `Configure::read` is left out. The debug flag, paths and routes are fields of `Config`.
- Two cache misses can race and rebuild the same file at once. Concurrency is not modelled.
- `style()`/`script()` given an array with string keys or non-string elements is left out. The list `Arr` is a plain list of strings, which is what `array_merge` concatenates.
- An unsupported kind name is modelled as the failure `NotSupported`, with nothing set or built. The source throws an unqualified `CakeException` inside its own namespace without importing it, so PHP in fact fails with a class-not-found error at the `throw`. The call aborts before anything happens either way, which is all the model states.
- `fetch()`/`filename()` given a non-string argument is left out. For strings, PHP's loose `in_array` comparison against "style"/"script" (or "css"/"js") behaves as strict equality, because those names are not numeric.
- File reads that fail are modelled as reading the empty string. This covers a missing file and an unresolved `null` entry, where PHP 7 returns `false`. PHP 8's error for an empty path is not modelled.
- `Hash::get` on a `$check` that is not an array is left out, because the framework throws there. The upload array is a map from key to scalar. Array-valued entries are not modelled.
- `CssRewrite.RewriteRelative` inserts the root URL literally. `preg_replace` expands `$n`, `${n}` and `\n` back-references in its replacement string, so the model agrees with the source only for a root URL without such sequences.
- `MinifyHelper.Render` assumes the minifiers and the cache write succeed. A minifier (`CSSmin->run`, `Minify_JS_ClosureCompiler::minify`) that throws propagates to the caller, so nothing is written or rendered. A `file_put_contents` that fails (cache directory missing or not writable) still emits the URL, but no file exists. Neither failure path is modelled, so "the cache file exists afterwards" holds only under this assumption.
- `MinifyHelper.Minify.BuildStyle` assumes, as `Render` does, that `CSSmin` and the cache write succeed; their failure paths are not modelled.
- `MinifyHelper.Minify.BuildScript` assumes, as `Render` does, that the Closure compiler and the cache write succeed; their failure paths are not modelled.
