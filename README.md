# amanga-cli download pass, in Dafny

This project models the download core of amanga-cli (`common.js`) and the two
option-name helpers of its command line (`index.js`).

## What it models

`downloadUrls(manga, args)` goes through these steps:

1. It normalises the manga's image list. A list whose first element is a bare
   address becomes descriptors `{index, filename, url}`:
   - `filename` is the 1-based position, zero-padded to the digit count of the list length.
   - `url` is the `encodeURI` of the address.

   Any other list is used as it is.
2. It creates `outputDir/title`.
3. It walks the jobs in order:
   - A job whose file `outputDir/title/filename.ext` exists is skipped when `force` is off.
   - Otherwise the image is downloaded and converted to `ext`.
   - A failure removes the file and appends the job to `failImages`.
4. When something failed and `args.retry > 0`, it decrements `args.retry` in the caller's object. It then calls itself on a copy of `args`, with the manga's images replaced by `failImages`.

The model has four modules:

- `Decimal` (decimal.dfy):
  - `String(n)` of a non-negative integer (`Show`).
  - `padStart` with a one-character fill (`PadStart`).
  - A reading-back function `Value`. It exists only to prove that file names are distinct.
- `Subsequences` (subsequence.dfy): order-preserving selection from a sequence.
- `Common` (common.js):
  - `IsSupportedExt`.
  - The normalisation `Normalize`.
  - Destinations `FilePath`.
  - One iteration of the loop `Step`, and its fold over the jobs, `Sweep`.
  - The loop itself, the method `RunPass`, proved equal to `Sweep`.
  - The recursion as a function. `Run` normalises and then calls `Retries`, which runs the passes.
  - The mutable `args` object, `class Args`.
  - The recursive method `DownloadUrls`. It changes `args.retry` in place and is proved to return exactly the files `Run` predicts.
- `Cli` (index.js):
  - `camelize` (`Camelize`).
  - `cleanArgs` (`CleanArgs`), a loop over the command's options that fills a dictionary.

## How the outside world is represented

- **File system:** the set of paths that exist. It is passed in and returned.
- **Download and conversion:** the HTTP download followed by the `sharp` conversion is an oracle `Fetcher`. Given the request of a job, it returns either `Written(size)` or `Failed`.
  - A request carries the pass number, the url, the referer and the format, so the remote side may answer differently on a retry.
  - `pass` is a modelling device for that. It is not a variable of the program.
- **`encodeURI`:** a function parameter on strings.

In these places the model follows the code as written:

- **Empty files.** A conversion that writes an empty file is only logged (common.js:62-67). It is neither a failure nor progress, and the file stays.
  - `SweepAccounting` states this as: ticks + failures + empty writes = jobs.
- **No final report.** When the retries run out, the remaining failures are dropped without being reported (common.js:75-87).
  - The model keeps them in the last pass record, so that properties can talk about them.
- **`args.retry` is mutated in the caller's object** before the copy is made (common.js:77, 82).
  - `DownloadUrls` states which value the caller's `retry` ends with.
- **Formats are not checked here.** `downloadUrls` never checks `ext` against the supported formats; only `isSupportedExt` and the wrapper in lib/get.js do.
- **Filename width on retries.** For a manga given as addresses, or as a list made only of descriptors, the width of the file names is not recomputed on retries. The failures are then descriptors, which the normalisation passes through (`NormalizeKeepsDescriptors`, `RetriesOnFailures`).
  - A list that starts with a descriptor but holds a bare address later is different. If that address fails, the recursive call numbers it again against the failures alone (common.js:17-23, 82).

## Model

| member | source | states |
|---|---|---|
| Decimal.Show | common.js:23 | `String(n)` is `"0"` for 0, otherwise a non-empty digit string without leading zeros; in both cases it reads back as `n` |
| Decimal.ShowWidthMonotone | common.js:23 | a larger number never has a shorter decimal form, so the width of the total bounds every position's width |
| Decimal.PadStart | common.js:23 | `padStart(width, fill)` has length `max(width, len)`, ends with the input and is `fill` before it |
| Decimal.PadValue | common.js:23 | padding a digit string with `'0'` keeps it a digit string with the same value |
| Common.IsSupportedExt | common.js:8-10 | true exactly for `jpeg`, `png`, `webp` and `tiff` |
| Common.StartsWithAddress | common.js:19 | the gate `images.length && typeof images[0] === 'string'`: the list is non-empty and its first element is an address |
| Common.Normalize | common.js:17-27 | one job per image |
| Common.TextOf | common.js:24 | the string form of an element that `encodeURI` receives: the address itself, or `[object Object]` for a descriptor |
| Common.Filename | common.js:23 | the file name of position `index` out of `total`: `String(index + 1).padStart(String(total).length, '0')`; its properties are `FilenameWidth` and `FilenameValue` |
| Common.NormalizeShape | common.js:18-27 | a list starting with an address becomes descriptors in input order: each `index` is the position, each `filename` is a digit string of the width of the list length that reads back as the 1-based position, each `url` is `encodeURI` of the element; an empty list or one starting with a descriptor is returned unchanged |
| Common.FilenameWidth | common.js:17-23 | every file name has the digit width of the list length |
| Common.FilenameValue | common.js:23 | a file name is a digit string that reads back as the 1-based position |
| Common.FilenamesDistinct | common.js:20-23 | different positions get different file names |
| Common.NormalizeIdempotent | common.js:18-27 | normalising a normalised list changes nothing |
| Common.NormalizeKeepsDescriptors | common.js:18-27 | a list of descriptors is passed through, so retried jobs keep their names |
| Common.Join | common.js:29 | `path.join` of two parts, read as concatenation with `/` |
| Common.FilenameOf | common.js:48 | the `filename` field a job destructures to, `undefined` for a bare address |
| Common.UrlOf | common.js:48 | the `url` field a job destructures to, `undefined` for a bare address |
| Common.FilePath | common.js:49 | the destination `path.join(outputDir/title, filename + '.' + ext)`; `FilePathInjective` proves it tells file names apart |
| Common.FilePathInjective | common.js:49 | within one directory and format, different file names give different destinations |
| Common.NormalizedPathsDistinct | common.js:18-49 | the jobs made from a list of addresses all have different destinations |
| Common.AddressJobs | common.js:18-49 | the jobs made from a list of addresses are descriptors with distinct destinations |
| Common.DirectoryIsNotAFile | common.js:29-49 | no job's destination is the directory itself |
| Common.RequestFor | common.js:56-59 | what the oracle answers: the pass, the job's `url`, the `sourceUrl` sent as referer and the target format `ext`; two jobs with the same url in one pass get the same answer |
| Common.Step | common.js:47-72 | one iteration of the loop: skip with a tick when `force` is off and the file exists; otherwise start the download, add the file on success (a tick only for a non-empty write) or remove it and record the job as failed |
| Common.Sweep | common.js:46-72 | the loop as a fold of `Step` over the jobs in order, starting from no failures and no ticks; its properties are the `Sweep…` lemmas below |
| Common.RunPass | common.js:46-73 | the loop ends with exactly the files, failures, ticks and started downloads of the fold `Sweep` over the jobs |
| Common.StepOrder | common.js:47-72 | one iteration appends the current job, if at all, after everything recorded before it |
| Common.SweepOrder | common.js:46-72 | downloads are started in job order, and `failImages` is an ordered selection of them |
| Common.SweepFailuresSubsequence | common.js:46-72 | `failImages` is an ordered subsequence of the pass's jobs |
| Common.SweepFailIff | common.js:56-72 | a job is in `failImages` exactly when its download was started and failed |
| Common.SweepFrame | common.js:47-72 | a pass changes no path other than its jobs' destinations |
| Common.SweepAttemptIff | common.js:49-56 | with distinct destinations, a download is started exactly when `force` is set or the file did not exist |
| Common.SweepSkipsExisting | common.js:51-54 | with `force` off, a job whose file exists before the pass is not downloaded and not failed, and its file stays, even among jobs with repeated names |
| Common.SweepAttemptsOnce | common.js:46-56 | with distinct destinations, a pass starts the download of a job at most once |
| Common.SweepFiles | common.js:49-72 | with distinct destinations, after a pass a job's file exists exactly when the job did not fail |
| Common.PassFacts | common.js:46-73 | for jobs with distinct destinations, a pass leaves failures that are jobs with distinct destinations; a job's file exists iff it did not fail; no other path changed |
| Common.SweepAccounting | common.js:51-67 | ticks + failures + empty writes = number of jobs, so an empty write is neither progress nor failure |
| Common.SweepIdempotent | common.js:51-54 | with `force` off and every file present, a pass downloads nothing, fails nothing and leaves the files as they were |
| Common.DirName | common.js:29 | the manga's directory `path.join(outputDir, title)` |
| Common.Retries | common.js:75-87 | the recursion terminates and runs at least one and at most `max(retry, 0) + 1` passes |
| Common.RetriesPassBound | common.js:75-87 | every pass but the last had failures, and a last pass with failures means all `retry + 1` passes ran |
| Common.RetriesOnFailures | common.js:75-82 | for jobs that are descriptors, every retry runs on exactly the failures of the pass before, and every pass's jobs are an ordered selection of the first pass's jobs |
| Common.PathsDistinctSubsequence | common.js:71-82 | a selection of jobs with distinct destinations has distinct destinations |
| Common.SettledAfterRetry | common.js:69-82 | for first-pass jobs with distinct destinations, a first pass followed by a retry call that settles the failures settles all the first pass's jobs |
| Common.RetriesSettle | common.js:46-87 | for descriptor jobs with distinct destinations, which every list of addresses gives (`AddressJobs`), after the call a job's file exists exactly when the job is not among the last pass's failures; the directory exists; no other path changed |
| Common.Run | common.js:14-87 | `downloadUrls` as a function: normalise the images, then `Retries` on the manga's directory; its properties are `RunFinalState` and `DownloadUrls` |
| Common.RunFinalState | common.js:14-87 | the final state of `RetriesSettle`, for a manga given as a list of addresses |
| Common.RetriesAlwaysFailing | common.js:69-87 | for descriptor jobs with distinct destinations, which every list of addresses gives (`AddressJobs`), a job that always fails and is not skipped is downloaded in every pass, all `retry + 1` passes run, and it ends among the last failures with no file |
| Common.AttemptCount | common.js:56 | the number of downloads of a job started over all the passes of a call |
| Common.RetriesAttemptsOncePerPass | common.js:46-87 | for descriptor jobs with distinct destinations, which every list of addresses gives (`AddressJobs`), each pass downloads a job at most once, so a job is downloaded at most `max(retry, 0) + 1` times over the call |
| Common.RetriesIdempotent | common.js:29-54 | with `force` off and every file present, the call runs one pass, downloads nothing and only creates the directory |
| Common.Args.Options | common.js:15 | the destructuring `{ext, force, sourceUrl, outputDir}` of `args`, with the defaults already applied |
| Common.Args.Copy | common.js:82 | `{...args}` copies every field, including the already decremented `retry` |
| Common.FirstPass | common.js:18-72 | the first pass of a call: normalise, create `outputDir/title`, run the loop; its failures decide whether the caller's `retry` is decremented |
| Common.DownloadUrls | common.js:14-88 | the files afterwards are those of `Run`; the caller's `args.retry` drops by one exactly when the first pass failed somewhere and `retry > 0` |
| Cli.IsWordChar | index.js:48 | `\w` without the `u` flag: ASCII letters, digits and `_` |
| Cli.ToUpper | index.js:48 | `toUpperCase` on the characters `\w` matches: lower-case ASCII letters become upper-case, the rest stay |
| Cli.Camelize | index.js:47-49 | `str.replace(/-(\w)/g, …)` never lengthens the string |
| Cli.CamelizeUnchangedIff | index.js:48 | a string is left unchanged exactly when no `-` in it is followed by a word character |
| Cli.CamelizeWithoutHyphen | index.js:48 | a string with no `-` is returned unchanged |
| Cli.CamelizeKeepsTrailingHyphen | index.js:48 | a `-` at the end of the string stays |
| Cli.CamelizeOnlyDropsHyphens | index.js:48 | apart from removed hyphens and upper-cased letters, the characters are kept in order |
| Cli.CamelizeHyphenFreePrefix | index.js:48 | a prefix without hyphens is copied unchanged |
| Cli.CamelizeSplit | index.js:48 | the global replace can be split at any cut that does not separate a `-` from a following word character: the result is the two parts' results joined |
| Cli.CamelizeKeepsHyphenBeforeNonWord | index.js:48 | a `-` followed by a character that is not a word character stays, and the scan resumes at that character |
| Cli.CamelizeReplacesHyphenWord | index.js:48 | a `-` followed by a word character is removed and that character upper-cased, wherever it stands, and the scan resumes after it |
| Cli.CamelizeOutputDir | index.js:17 | `output-dir` becomes `outputDir` |
| Cli.StripLongPrefix | index.js:54 | `replace(/^--/, '')` removes a leading `--` and nothing else |
| Cli.OptionKey | index.js:54 | the property name of an option: `camelize(o.long.replace(/^--/, ''))` |
| Cli.OutputDirOptionKey | index.js:54 | the option `--output-dir` is stored under `outputDir`, the key common.js:15 reads |
| Cli.FlagKey | index.js:54 | a long flag without inner hyphens is stored under its own name |
| Cli.Copied | index.js:55 | the two `typeof` tests: the command has a value under the key and it is not a function |
| Cli.CleanArgs | index.js:51-60 | every key is copied unchanged from a value that is neither undefined nor a function, every key belongs to some option, and every option with such a value has its key |

## Left out

- The HTTP client (`download`, referer header, 10 s timeout) and the `sharp` conversion: replaced by the `Fetcher` oracle. What it writes is reduced to a size, and a failure by either one is the same `Failed`.
- `fs-extra`: the file system is a set of path strings.
  - `ensureDir` only adds the directory itself; intermediate directories and failures of the call are not modelled.
  - A `remove` that fails is not modelled.
- `path.join` is read as concatenation with `/`, without normalising `..`, `.` or repeated separators.
- `encodeURI` is a parameter; its escaping rules are not modelled.
- The `Fetcher` oracle answers by request (pass, url, referer and format). Two jobs of one pass with the same url therefore get the same outcome in the model, whereas the program (common.js:56) makes two independent requests that may end differently.
- `delay`/`setTimeout`, `console.log`, `chalk`, the progress bar beyond a per-pass tick counter, and `printInfo`: output and timing only.
- The asynchronous sequencing: every job is awaited before the next one starts, so the loop is sequential.
- The destructuring defaults of `ext` and `force` (common.js:15): `Args` holds values with the defaults already applied. An undefined `sourceUrl` or `outputDir` is not modelled.
- `retry` is an integer. A string from the command line, or an undefined value, is not modelled.
- Elements of a pass-through list that are bare addresses (when the first element is a descriptor) are read with filename and url `undefined`, as the destructuring at common.js:48 gives them. JavaScript values other than strings and descriptors are not modelled.
- `CleanArgs`: a command property is a `Value` (text, flag, number or a function), and one that is missing is `undefined`. JavaScript's prototype lookup for properties is not modelled.
- The commander setup, help output, the `unhandledRejection` handler and lib/get.js (the `ow` check of `ext` and the `amanga` resolver): command-line plumbing and an external resolver.
