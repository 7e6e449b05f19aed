/**
 * The download pass of common.js: naming the images of a manga, walking them
 * in order, skipping those already on disk, fetching and converting the rest,
 * deleting what failed, and retrying exactly the failures while the retry
 * budget lasts.
 *
 * The world the pass talks to is passed in: the file system is the set of
 * paths that exist, `encodeURI` is a function on strings, and the HTTP
 * download followed by the `sharp` conversion is an oracle that, given the
 * request of a job, either reports the size of the file it wrote or fails.
 */
module Common {
  import opened Decimal
  import opened Subsequences

  // ---------------------------------------------------------------------------
  // Image formats

  const SupportedImageTypes: seq<string> := ["jpeg", "png", "webp", "tiff"]

  /** The formats the converter can write. */
  function IsSupportedExt(ext: string): (supported: bool)
    ensures supported <==> ext == "jpeg" || ext == "png" || ext == "webp" || ext == "tiff"
  {
    ext in SupportedImageTypes
  }

  // ---------------------------------------------------------------------------
  // Images and their names

  /**
   * An element of a manga's image list: a bare address as the resolver gives
   * it, or a descriptor built by an earlier normalisation.
   */
  datatype ImageRef =
    | Address(text: string)
    | Descriptor(index: nat, filename: string, url: string)

  datatype Manga = Manga(title: string, images: seq<ImageRef>)

  /** What `encodeURI` receives for an element: JavaScript's string conversion of it. */
  function TextOf(image: ImageRef): string {
    match image
    case Address(text) => text
    case Descriptor(_, _, _) => "[object Object]"
  }

  /** The file name of the image at 0-based position `index` out of `total`. */
  function Filename(index: nat, total: nat): string {
    PadStart(Show(index + 1), |Show(total)|, '0')
  }

  predicate StartsWithAddress(images: seq<ImageRef>) {
    images != [] && images[0].Address?
  }

  predicate AllDescriptors(images: seq<ImageRef>) {
    forall j :: j in images ==> j.Descriptor?
  }

  /**
   * `finalImages`: when the list is non-empty and its first element is a bare
   * address, every element becomes a descriptor numbered by its position;
   * otherwise the list is used as it is.
   */
  function Normalize(images: seq<ImageRef>, encodeUri: string -> string): (jobs: seq<ImageRef>)
    ensures |jobs| == |images|
  {
    if StartsWithAddress(images) then
      seq(|images|, i requires 0 <= i < |images| =>
        Descriptor(i, Filename(i, |images|), encodeUri(TextOf(images[i]))))
    else
      images
  }

  /**
   * A list starting with an address becomes descriptors in input order: the
   * `index` of each is its position, its file name is a digit string of the
   * width of the list length that reads back as the 1-based position, and its
   * url is `encodeURI` of the element. Any other list is kept as it is.
   */
  lemma NormalizeShape(images: seq<ImageRef>, encodeUri: string -> string)
    ensures var jobs := Normalize(images, encodeUri);
      && (StartsWithAddress(images) ==>
        AllDescriptors(jobs) &&
        forall i :: 0 <= i < |jobs| ==>
          && jobs[i].Descriptor? && jobs[i].index == i
          && AllDigits(jobs[i].filename) && Value(jobs[i].filename) == i + 1
          && |jobs[i].filename| == |Show(|images|)|
          && jobs[i].url == encodeUri(TextOf(images[i])))
      && (!StartsWithAddress(images) ==> jobs == images)
  {
    var jobs := Normalize(images, encodeUri);
    if StartsWithAddress(images) {
      forall i | 0 <= i < |jobs|
        ensures AllDigits(jobs[i].filename) && Value(jobs[i].filename) == i + 1
        ensures |jobs[i].filename| == |Show(|images|)|
      {
        FilenameValue(i, |images|);
        FilenameWidth(i, |images|);
      }
    }
  }

  /** Every file name has the width of the image count, for every position in the list. */
  lemma FilenameWidth(index: nat, total: nat)
    requires index < total
    ensures |Filename(index, total)| == |Show(total)|
  {
    ShowWidthMonotone(index + 1, total);
  }

  /** A file name reads back as the 1-based position it was made from. */
  lemma FilenameValue(index: nat, total: nat)
    ensures AllDigits(Filename(index, total))
    ensures Value(Filename(index, total)) == index + 1
  {
    PadValue(Show(index + 1), |Show(total)|);
  }

  /** Different positions get different file names. */
  lemma FilenamesDistinct(i: nat, k: nat, total: nat)
    requires i != k
    ensures Filename(i, total) != Filename(k, total)
  {
    FilenameValue(i, total);
    FilenameValue(k, total);
  }

  /** Normalising twice is normalising once: a normalised list is passed through. */
  lemma NormalizeIdempotent(images: seq<ImageRef>, encodeUri: string -> string)
    ensures Normalize(Normalize(images, encodeUri), encodeUri) == Normalize(images, encodeUri)
  {
  }

  /** A list made only of descriptors is passed through unchanged. */
  lemma NormalizeKeepsDescriptors(images: seq<ImageRef>, encodeUri: string -> string)
    requires AllDescriptors(images)
    ensures Normalize(images, encodeUri) == images
  {
    if images != [] {
      assert images[0] in images;
    }
  }

  // ---------------------------------------------------------------------------
  // Destinations

  /** `path.join`, read as plain concatenation with a separator. */
  function Join(dir: string, name: string): string {
    dir + "/" + name
  }

  /** The `filename` field of an element; a bare address has none. */
  function FilenameOf(image: ImageRef): string {
    match image
    case Descriptor(_, filename, _) => filename
    case Address(_) => "undefined"
  }

  /** The `url` field of an element; a bare address has none. */
  function UrlOf(image: ImageRef): string {
    match image
    case Descriptor(_, _, url) => url
    case Address(_) => "undefined"
  }

  function FilePath(dirName: string, image: ImageRef, ext: string): string {
    Join(dirName, FilenameOf(image) + "." + ext)
  }

  /** Within one directory and format, different file names give different paths. */
  lemma FilePathInjective(dirName: string, a: ImageRef, b: ImageRef, ext: string)
    requires FilenameOf(a) != FilenameOf(b)
    ensures FilePath(dirName, a, ext) != FilePath(dirName, b, ext)
  {
    var fa, fb := FilenameOf(a) + "." + ext, FilenameOf(b) + "." + ext;
    var pa, pb := Join(dirName, fa), Join(dirName, fb);
    var n := |dirName| + 1;
    assert pa[n..] == fa && pb[n..] == fb;
    assert fa[..|FilenameOf(a)|] == FilenameOf(a);
    assert fb[..|FilenameOf(b)|] == FilenameOf(b);
  }

  function PathsOf(dirName: string, ext: string, jobs: seq<ImageRef>): set<string> {
    set j | j in jobs :: FilePath(dirName, j, ext)
  }

  /** No two jobs of the list write to the same file. */
  predicate PathsDistinct(dirName: string, ext: string, jobs: seq<ImageRef>) {
    forall i, k :: 0 <= i < k < |jobs| ==> FilePath(dirName, jobs[i], ext) != FilePath(dirName, jobs[k], ext)
  }

  /** The descriptors made from a list of addresses all write to different files. */
  lemma NormalizedPathsDistinct(images: seq<ImageRef>, encodeUri: string -> string, dirName: string, ext: string)
    requires StartsWithAddress(images)
    ensures PathsDistinct(dirName, ext, Normalize(images, encodeUri))
  {
    var jobs := Normalize(images, encodeUri);
    forall i, k | 0 <= i < k < |jobs|
      ensures FilePath(dirName, jobs[i], ext) != FilePath(dirName, jobs[k], ext)
    {
      FilenamesDistinct(i, k, |images|);
      FilePathInjective(dirName, jobs[i], jobs[k], ext);
    }
  }

  /** The jobs made from a list of addresses are descriptors with distinct destinations. */
  lemma AddressJobs(images: seq<ImageRef>, encodeUri: string -> string, dirName: string, ext: string)
    requires StartsWithAddress(images)
    ensures AllDescriptors(Normalize(images, encodeUri)) && PathsDistinct(dirName, ext, Normalize(images, encodeUri))
  {
    NormalizeShape(images, encodeUri);
    NormalizedPathsDistinct(images, encodeUri, dirName, ext);
  }

  /** The destination directory is never the path of a job inside it. */
  lemma DirectoryIsNotAFile(dirName: string, image: ImageRef, ext: string)
    ensures FilePath(dirName, image, ext) != dirName
  {
  }

  // ---------------------------------------------------------------------------
  // One pass

  /** The options `downloadUrls` reads, after their defaults are applied. */
  datatype Settings = Settings(ext: string, force: bool, sourceUrl: string, outputDir: string)

  /**
   * What the download of one job depends on: the pass it belongs to (the
   * remote side may answer differently on a retry), the address, the referer
   * header and the target format.
   */
  datatype Request = Request(pass: nat, url: string, referer: string, ext: string)

  /** The outcome of the download and conversion: the size of the written file, or an error. */
  datatype Transfer = Written(size: nat) | Failed

  type Fetcher = Request -> Transfer

  function RequestFor(image: ImageRef, cfg: Settings, pass: nat): Request {
    Request(pass, UrlOf(image), cfg.sourceUrl, cfg.ext)
  }

  /**
   * The state of a pass: the files that exist, the failed jobs (`failImages`),
   * the progress-bar ticks, and the jobs for which a download was started.
   */
  datatype PassState = PassState(fs: set<string>, fails: seq<ImageRef>, ticks: nat, attempted: seq<ImageRef>)

  /** One iteration of the loop body. */
  function Step(st: PassState, image: ImageRef, dirName: string, cfg: Settings, pass: nat, fetch: Fetcher): PassState {
    var path := FilePath(dirName, image, cfg.ext);
    if !cfg.force && path in st.fs then
      st.(ticks := st.ticks + 1)
    else
      var attempted := st.attempted + [image];
      match fetch(RequestFor(image, cfg, pass))
      case Written(size) =>
        st.(fs := st.fs + {path}, ticks := if size > 0 then st.ticks + 1 else st.ticks, attempted := attempted)
      case Failed =>
        st.(fs := st.fs - {path}, fails := st.fails + [image], attempted := attempted)
  }

  /** The state after the loop has run over `jobs`, starting from the files `fs`. */
  function Sweep(jobs: seq<ImageRef>, dirName: string, cfg: Settings, pass: nat, fetch: Fetcher, fs: set<string>): PassState
    decreases |jobs|
  {
    if jobs == [] then PassState(fs, [], 0, [])
    else Step(Sweep(jobs[..|jobs| - 1], dirName, cfg, pass, fetch, fs), jobs[|jobs| - 1], dirName, cfg, pass, fetch)
  }

  /** The `for` loop of `downloadUrls` over the normalised jobs. */
  method RunPass(jobs: seq<ImageRef>, dirName: string, cfg: Settings, pass: nat, fetch: Fetcher, fs: set<string>)
    returns (files: set<string>, failImages: seq<ImageRef>, ticks: nat, attempted: seq<ImageRef>)
    ensures PassState(files, failImages, ticks, attempted) == Sweep(jobs, dirName, cfg, pass, fetch, fs)
  {
    files, failImages, ticks, attempted := fs, [], 0, [];
    for i := 0 to |jobs|
      invariant PassState(files, failImages, ticks, attempted) == Sweep(jobs[..i], dirName, cfg, pass, fetch, fs)
    {
      assert jobs[..i + 1][..i] == jobs[..i];
      var image := jobs[i];
      var filePath := FilePath(dirName, image, cfg.ext);
      if !cfg.force && filePath in files {
        ticks := ticks + 1;
        continue;
      }
      attempted := attempted + [image];
      var outcome := fetch(RequestFor(image, cfg, pass));
      match outcome {
        case Written(size) =>
          files := files + {filePath};
          if size > 0 {
            ticks := ticks + 1;
          }
        case Failed =>
          files := files - {filePath};
          failImages := failImages + [image];
      }
    }
    assert jobs[..|jobs|] == jobs;
  }

  // ---------------------------------------------------------------------------
  // Properties of one pass

  /** Downloads are started in job order, and failures are recorded in that order too. */
  lemma {:induction false} SweepOrder(jobs: seq<ImageRef>, dirName: string, cfg: Settings, pass: nat, fetch: Fetcher, fs: set<string>)
    ensures var st := Sweep(jobs, dirName, cfg, pass, fetch, fs);
      Subsequence(st.attempted, jobs) && Subsequence(st.fails, st.attempted)
    decreases |jobs|
  {
    if jobs != [] {
      var init, last := jobs[..|jobs| - 1], jobs[|jobs| - 1];
      assert jobs == init + [last];
      SweepOrder(init, dirName, cfg, pass, fetch, fs);
      StepOrder(Sweep(init, dirName, cfg, pass, fetch, fs), init, last, dirName, cfg, pass, fetch);
    }
  }

  /** One step keeps both orderings, the job being appended after the jobs before it. */
  lemma StepOrder(prev: PassState, init: seq<ImageRef>, image: ImageRef, dirName: string, cfg: Settings, pass: nat, fetch: Fetcher)
    requires Subsequence(prev.attempted, init) && Subsequence(prev.fails, prev.attempted)
    ensures var next := Step(prev, image, dirName, cfg, pass, fetch);
      Subsequence(next.attempted, init + [image]) && Subsequence(next.fails, next.attempted)
  {
    var attempted := prev.attempted + [image];
    SubsequenceExtend(prev.attempted, init, image);
    SubsequenceExtend(prev.fails, prev.attempted, image);
    if !cfg.force && FilePath(dirName, image, cfg.ext) in prev.fs {
      assert Step(prev, image, dirName, cfg, pass, fetch).attempted == prev.attempted;
      assert Step(prev, image, dirName, cfg, pass, fetch).fails == prev.fails;
    } else if fetch(RequestFor(image, cfg, pass)).Failed? {
      assert Step(prev, image, dirName, cfg, pass, fetch).attempted == attempted;
      assert Step(prev, image, dirName, cfg, pass, fetch).fails == prev.fails + [image];
    } else {
      assert Step(prev, image, dirName, cfg, pass, fetch).attempted == attempted;
      assert Step(prev, image, dirName, cfg, pass, fetch).fails == prev.fails;
    }
  }

  /** The failures of a pass are a subsequence of its jobs. */
  lemma SweepFailuresSubsequence(jobs: seq<ImageRef>, dirName: string, cfg: Settings, pass: nat, fetch: Fetcher, fs: set<string>)
    ensures Subsequence(Sweep(jobs, dirName, cfg, pass, fetch, fs).fails, jobs)
  {
    var st := Sweep(jobs, dirName, cfg, pass, fetch, fs);
    SweepOrder(jobs, dirName, cfg, pass, fetch, fs);
    SubsequenceTransitive(st.fails, st.attempted, jobs);
  }

  /** A job is recorded as failed exactly when its download was started and errored. */
  lemma {:induction false} SweepFailIff(jobs: seq<ImageRef>, dirName: string, cfg: Settings, pass: nat, fetch: Fetcher, fs: set<string>)
    ensures var st := Sweep(jobs, dirName, cfg, pass, fetch, fs);
      forall j :: j in st.fails <==> j in st.attempted && fetch(RequestFor(j, cfg, pass)).Failed?
    decreases |jobs|
  {
    if jobs != [] {
      SweepFailIff(jobs[..|jobs| - 1], dirName, cfg, pass, fetch, fs);
    }
  }

  /** Files other than the jobs' destinations are left as they were. */
  lemma {:induction false} SweepFrame(jobs: seq<ImageRef>, dirName: string, cfg: Settings, pass: nat, fetch: Fetcher, fs: set<string>, p: string)
    requires p !in PathsOf(dirName, cfg.ext, jobs)
    ensures p in Sweep(jobs, dirName, cfg, pass, fetch, fs).fs <==> p in fs
    decreases |jobs|
  {
    if jobs != [] {
      var init := jobs[..|jobs| - 1];
      assert forall j :: j in init ==> j in jobs;
      SweepFrame(init, dirName, cfg, pass, fetch, fs, p);
    }
  }

  lemma PathsDistinctInit(dirName: string, ext: string, jobs: seq<ImageRef>)
    requires jobs != [] && PathsDistinct(dirName, ext, jobs)
    ensures PathsDistinct(dirName, ext, jobs[..|jobs| - 1])
    ensures FilePath(dirName, jobs[|jobs| - 1], ext) !in PathsOf(dirName, ext, jobs[..|jobs| - 1])
    ensures jobs[|jobs| - 1] !in jobs[..|jobs| - 1]
  {
    var init, last := jobs[..|jobs| - 1], jobs[|jobs| - 1];
    forall j | j in init ensures FilePath(dirName, j, ext) != FilePath(dirName, last, ext) {
      var i :| 0 <= i < |init| && init[i] == j;
      assert jobs[i] == j;
    }
  }

  /**
   * With distinct destinations, a job's download is started exactly when
   * `force` is set or its file did not exist before the pass.
   */
  lemma {:induction false} SweepAttemptIff(jobs: seq<ImageRef>, dirName: string, cfg: Settings, pass: nat, fetch: Fetcher, fs: set<string>)
    requires PathsDistinct(dirName, cfg.ext, jobs)
    ensures var st := Sweep(jobs, dirName, cfg, pass, fetch, fs);
      forall j :: j in st.attempted <==> j in jobs && (cfg.force || FilePath(dirName, j, cfg.ext) !in fs)
    decreases |jobs|
  {
    if jobs != [] {
      var init, last := jobs[..|jobs| - 1], jobs[|jobs| - 1];
      assert jobs == init + [last];
      PathsDistinctInit(dirName, cfg.ext, jobs);
      SweepAttemptIff(init, dirName, cfg, pass, fetch, fs);
      SweepFrame(init, dirName, cfg, pass, fetch, fs, FilePath(dirName, last, cfg.ext));
    }
  }

  /**
   * With `force` off, a job whose file exists before the pass is neither
   * downloaded nor failed, and its file stays, whatever the other jobs are.
   */
  lemma {:induction false} SweepSkipsExisting(jobs: seq<ImageRef>, dirName: string, cfg: Settings, pass: nat, fetch: Fetcher, fs: set<string>, j: ImageRef)
    requires !cfg.force && FilePath(dirName, j, cfg.ext) in fs
    ensures var st := Sweep(jobs, dirName, cfg, pass, fetch, fs);
      j !in st.attempted && j !in st.fails && FilePath(dirName, j, cfg.ext) in st.fs
    decreases |jobs|
  {
    if jobs != [] {
      var init, last := jobs[..|jobs| - 1], jobs[|jobs| - 1];
      var prev := Sweep(init, dirName, cfg, pass, fetch, fs);
      SweepSkipsExisting(init, dirName, cfg, pass, fetch, fs, j);
      if FilePath(dirName, last, cfg.ext) !in prev.fs {
        assert last != j;
        assert FilePath(dirName, last, cfg.ext) != FilePath(dirName, j, cfg.ext);
      }
    }
  }

  /**
   * With distinct destinations, the download of a job is started at most once
   * in a pass.
   */
  lemma {:induction false} SweepAttemptsOnce(jobs: seq<ImageRef>, dirName: string, cfg: Settings, pass: nat, fetch: Fetcher, fs: set<string>, j: ImageRef)
    requires PathsDistinct(dirName, cfg.ext, jobs)
    ensures multiset(Sweep(jobs, dirName, cfg, pass, fetch, fs).attempted)[j] <= 1
    decreases |jobs|
  {
    if jobs != [] {
      var init, last := jobs[..|jobs| - 1], jobs[|jobs| - 1];
      var prev := Sweep(init, dirName, cfg, pass, fetch, fs);
      PathsDistinctInit(dirName, cfg.ext, jobs);
      SweepAttemptsOnce(init, dirName, cfg, pass, fetch, fs, j);
      var next := Step(prev, last, dirName, cfg, pass, fetch);
      if next.attempted != prev.attempted {
        assert next.attempted == prev.attempted + [last];
        assert last !in prev.attempted by {
          SweepOrder(init, dirName, cfg, pass, fetch, fs);
          SubsequenceMembers(prev.attempted, init);
        }
      }
    }
  }

  /** A step leaves the file and the failure record of every other destination alone. */
  lemma StepOthers(st: PassState, image: ImageRef, dirName: string, cfg: Settings, pass: nat, fetch: Fetcher, j: ImageRef)
    requires FilePath(dirName, j, cfg.ext) != FilePath(dirName, image, cfg.ext)
    ensures var next := Step(st, image, dirName, cfg, pass, fetch);
      && (FilePath(dirName, j, cfg.ext) in next.fs <==> FilePath(dirName, j, cfg.ext) in st.fs)
      && (j in next.fails <==> j in st.fails)
  {
  }

  /** After its own step, a job that had not failed before has a file exactly when it did not fail. */
  lemma StepOwn(st: PassState, image: ImageRef, dirName: string, cfg: Settings, pass: nat, fetch: Fetcher)
    requires image !in st.fails
    ensures var next := Step(st, image, dirName, cfg, pass, fetch);
      FilePath(dirName, image, cfg.ext) in next.fs <==> image !in next.fails
  {
  }

  /** With distinct destinations, a job's file exists after the pass exactly when the job did not fail. */
  lemma {:induction false} SweepFiles(jobs: seq<ImageRef>, dirName: string, cfg: Settings, pass: nat, fetch: Fetcher, fs: set<string>)
    requires PathsDistinct(dirName, cfg.ext, jobs)
    ensures var st := Sweep(jobs, dirName, cfg, pass, fetch, fs);
      forall j :: j in jobs ==> (FilePath(dirName, j, cfg.ext) in st.fs <==> j !in st.fails)
    decreases |jobs|
  {
    if jobs != [] {
      var init, last := jobs[..|jobs| - 1], jobs[|jobs| - 1];
      assert jobs == init + [last];
      var prev := Sweep(init, dirName, cfg, pass, fetch, fs);
      PathsDistinctInit(dirName, cfg.ext, jobs);
      SweepFiles(init, dirName, cfg, pass, fetch, fs);
      SweepFailuresSubsequence(init, dirName, cfg, pass, fetch, fs);
      SubsequenceMembers(prev.fails, init);
      forall j | j in jobs
        ensures FilePath(dirName, j, cfg.ext) in Step(prev, last, dirName, cfg, pass, fetch).fs
          <==> j !in Step(prev, last, dirName, cfg, pass, fetch).fails
      {
        if j == last {
          StepOwn(prev, last, dirName, cfg, pass, fetch);
        } else {
          assert j in init;
          assert FilePath(dirName, j, cfg.ext) in PathsOf(dirName, cfg.ext, init);
          StepOthers(prev, last, dirName, cfg, pass, fetch, j);
        }
      }
    }
  }

  /** Number of started downloads whose conversion wrote an empty file. */
  function CountEmpty(attempted: seq<ImageRef>, cfg: Settings, pass: nat, fetch: Fetcher): nat
    decreases |attempted|
  {
    if attempted == [] then 0
    else
      CountEmpty(attempted[..|attempted| - 1], cfg, pass, fetch)
      + (if fetch(RequestFor(attempted[|attempted| - 1], cfg, pass)) == Written(0) then 1 else 0)
  }

  /**
   * Progress accounting: every job is a tick, a failure or an empty write.
   * An empty write is therefore neither progress nor a failure.
   */
  lemma {:induction false} SweepAccounting(jobs: seq<ImageRef>, dirName: string, cfg: Settings, pass: nat, fetch: Fetcher, fs: set<string>)
    ensures var st := Sweep(jobs, dirName, cfg, pass, fetch, fs);
      st.ticks + |st.fails| + CountEmpty(st.attempted, cfg, pass, fetch) == |jobs|
    decreases |jobs|
  {
    if jobs != [] {
      var init := jobs[..|jobs| - 1];
      var prev := Sweep(init, dirName, cfg, pass, fetch, fs);
      SweepAccounting(init, dirName, cfg, pass, fetch, fs);
      var att := prev.attempted + [jobs[|jobs| - 1]];
      assert att[..|att| - 1] == prev.attempted;
    }
  }

  /** With `force` off and every file present, a pass downloads nothing and changes nothing. */
  lemma {:induction false} SweepIdempotent(jobs: seq<ImageRef>, dirName: string, cfg: Settings, pass: nat, fetch: Fetcher, fs: set<string>)
    requires !cfg.force
    requires forall j :: j in jobs ==> FilePath(dirName, j, cfg.ext) in fs
    ensures Sweep(jobs, dirName, cfg, pass, fetch, fs) == PassState(fs, [], |jobs|, [])
    decreases |jobs|
  {
    if jobs != [] {
      var init := jobs[..|jobs| - 1];
      assert forall j :: j in init ==> j in jobs;
      SweepIdempotent(init, dirName, cfg, pass, fetch, fs);
    }
  }

  // ---------------------------------------------------------------------------
  // The retry recursion

  function Budget(retry: int): nat {
    if retry > 0 then retry else 0
  }

  /** `path.join(outputDir, manga.title)` */
  function DirName(manga: Manga, cfg: Settings): string {
    Join(cfg.outputDir, manga.title)
  }

  datatype PassRecord = PassRecord(jobs: seq<ImageRef>, outcome: PassState)

  /** The files after the whole call, and the passes it ran in order. */
  datatype RunResult = RunResult(fs: set<string>, trace: seq<PassRecord>)

  lemma LastAfterFirst(first: PassRecord, passes: seq<PassRecord>)
    requires passes != []
    ensures ([first] + passes)[|passes|] == passes[|passes| - 1]
  {
  }

  lemma AttemptedInEveryPass(first: PassRecord, passes: seq<PassRecord>, j: ImageRef)
    requires j in first.outcome.attempted
    requires forall k :: 0 <= k < |passes| ==> j in passes[k].outcome.attempted
    ensures forall k :: 0 <= k < |passes| + 1 ==> j in ([first] + passes)[k].outcome.attempted
  {
    forall k | 0 < k < |passes| + 1 ensures j in ([first] + passes)[k].outcome.attempted {
      assert ([first] + passes)[k] == passes[k - 1];
    }
  }

  /**
   * `downloadUrls` from the normalisation on, for a manga whose normalised
   * images are `jobs` and whose directory is `dirName`: create the directory,
   * run one pass, then, if it had failures and `retry > 0`, do the same on
   * the failures (normalised again, as the recursive call does) with `retry`
   * reduced by one. When the budget is spent the failures are dropped. The
   * recursive call is on the same title and output directory, so the
   * directory does not change.
   */
  function Retries(jobs: seq<ImageRef>, dirName: string, cfg: Settings, retry: int, fs: set<string>,
                   encodeUri: string -> string, fetch: Fetcher, pass: nat): (r: RunResult)
    ensures 1 <= |r.trace| <= Budget(retry) + 1
    decreases Budget(retry)
  {
    var st := Sweep(jobs, dirName, cfg, pass, fetch, fs + {dirName});
    if st.fails != [] && retry > 0 then
      var rest := Retries(Normalize(st.fails, encodeUri), dirName, cfg, retry - 1, st.fs, encodeUri, fetch, pass + 1);
      RunResult(rest.fs, [PassRecord(jobs, st)] + rest.trace)
    else
      RunResult(st.fs, [PassRecord(jobs, st)])
  }

  /** `downloadUrls(manga, args)` as a function of the files before the call. */
  function Run(manga: Manga, cfg: Settings, retry: int, fs: set<string>, encodeUri: string -> string, fetch: Fetcher, pass: nat): RunResult {
    Retries(Normalize(manga.images, encodeUri), DirName(manga, cfg), cfg, retry, fs, encodeUri, fetch, pass)
  }

  /** The first pass of a call: normalise, create the directory, run the loop. */
  function FirstPass(manga: Manga, cfg: Settings, fs: set<string>, encodeUri: string -> string, fetch: Fetcher, pass: nat): PassState {
    var dirName := DirName(manga, cfg);
    Sweep(Normalize(manga.images, encodeUri), dirName, cfg, pass, fetch, fs + {dirName})
  }

  /**
   * Every pass but the last had failures, and a last pass with failures means
   * the budget ran out.
   */
  lemma {:induction false} RetriesPassBound(jobs: seq<ImageRef>, dirName: string, cfg: Settings, retry: int, fs: set<string>,
                                            encodeUri: string -> string, fetch: Fetcher, pass: nat)
    ensures var t := Retries(jobs, dirName, cfg, retry, fs, encodeUri, fetch, pass).trace;
      && (forall k :: 0 <= k < |t| - 1 ==> t[k].outcome.fails != [])
      && (t[|t| - 1].outcome.fails != [] ==> |t| == Budget(retry) + 1)
    decreases Budget(retry)
  {
    var st := Sweep(jobs, dirName, cfg, pass, fetch, fs + {dirName});
    if st.fails != [] && retry > 0 {
      RetriesPassBound(Normalize(st.fails, encodeUri), dirName, cfg, retry - 1, st.fs, encodeUri, fetch, pass + 1);
    }
  }

  /**
   * Once the jobs are descriptors, every retry runs on exactly the failures of
   * the pass before it, and every pass's jobs are an ordered selection of the
   * first pass's jobs, so file names never change across retries.
   */
  lemma {:induction false} RetriesOnFailures(jobs: seq<ImageRef>, dirName: string, cfg: Settings, retry: int, fs: set<string>,
                                             encodeUri: string -> string, fetch: Fetcher, pass: nat)
    requires AllDescriptors(jobs)
    ensures var t := Retries(jobs, dirName, cfg, retry, fs, encodeUri, fetch, pass).trace;
      && t[0].jobs == jobs
      && (forall k :: 0 <= k < |t| - 1 ==> t[k + 1].jobs == t[k].outcome.fails)
      && (forall k :: 0 <= k < |t| ==> Subsequence(t[k].jobs, jobs))
    decreases Budget(retry)
  {
    var st := Sweep(jobs, dirName, cfg, pass, fetch, fs + {dirName});
    SubsequenceReflexive(jobs);
    if st.fails != [] && retry > 0 {
      SweepFailuresSubsequence(jobs, dirName, cfg, pass, fetch, fs + {dirName});
      SubsequenceMembers(st.fails, jobs);
      NormalizeKeepsDescriptors(st.fails, encodeUri);
      RetriesOnFailures(st.fails, dirName, cfg, retry - 1, st.fs, encodeUri, fetch, pass + 1);
      var rest := Retries(st.fails, dirName, cfg, retry - 1, st.fs, encodeUri, fetch, pass + 1).trace;
      var t := Retries(jobs, dirName, cfg, retry, fs, encodeUri, fetch, pass).trace;
      assert t == [PassRecord(jobs, st)] + rest;
      forall k | 0 <= k < |t| ensures Subsequence(t[k].jobs, jobs) {
        if k > 0 {
          assert t[k] == rest[k - 1];
          SubsequenceTransitive(rest[k - 1].jobs, st.fails, jobs);
        }
      }
    }
  }

  lemma PathsDistinctSubsequence(dirName: string, ext: string, xs: seq<ImageRef>, ys: seq<ImageRef>)
    requires Subsequence(xs, ys) && PathsDistinct(dirName, ext, ys)
    ensures PathsDistinct(dirName, ext, xs)
    decreases |ys|
  {
    if xs != [] {
      var xi, yi := xs[..|xs| - 1], ys[..|ys| - 1];
      PathsDistinctInit(dirName, ext, ys);
      if xs[|xs| - 1] == ys[|ys| - 1] && Subsequence(xi, yi) {
        PathsDistinctSubsequence(dirName, ext, xi, yi);
        SubsequenceMembers(xi, yi);
        forall i, k | 0 <= i < k < |xs|
          ensures FilePath(dirName, xs[i], ext) != FilePath(dirName, xs[k], ext)
        {
          if k < |xs| - 1 {
            assert xs[i] == xi[i] && xs[k] == xi[k];
          } else {
            assert xs[i] == xi[i] && xs[i] in yi;
          }
        }
      } else {
        PathsDistinctSubsequence(dirName, ext, xs, yi);
      }
    }
  }

  /**
   * What a pass over `jobs` left in `st`, starting from the files `before`:
   * its failures are jobs with distinct destinations, a job's file exists
   * exactly when it did not fail, and no other path changed.
   */
  ghost predicate PassSettled(dirName: string, ext: string, jobs: seq<ImageRef>, before: set<string>, st: PassState) {
    && PathsDistinct(dirName, ext, st.fails)
    && (forall j :: j in st.fails ==> j in jobs)
    && (forall j :: j in jobs ==> (FilePath(dirName, j, ext) in st.fs <==> j !in st.fails))
    && (forall p :: p !in PathsOf(dirName, ext, jobs) ==> (p in st.fs <==> p in before))
  }

  /** What one pass over jobs with distinct destinations leaves behind. */
  lemma PassFacts(jobs: seq<ImageRef>, dirName: string, cfg: Settings, pass: nat, fetch: Fetcher, fs: set<string>)
    requires PathsDistinct(dirName, cfg.ext, jobs)
    ensures PassSettled(dirName, cfg.ext, jobs, fs, Sweep(jobs, dirName, cfg, pass, fetch, fs))
  {
    var st := Sweep(jobs, dirName, cfg, pass, fetch, fs);
    SweepFiles(jobs, dirName, cfg, pass, fetch, fs);
    SweepFailuresSubsequence(jobs, dirName, cfg, pass, fetch, fs);
    SubsequenceMembers(st.fails, jobs);
    PathsDistinctSubsequence(dirName, cfg.ext, st.fails, jobs);
    forall p | p !in PathsOf(dirName, cfg.ext, jobs) ensures p in st.fs <==> p in fs {
      SweepFrame(jobs, dirName, cfg, pass, fetch, fs, p);
    }
  }

  /** A job that did not fail shares its destination with no failed job. */
  lemma PathNotAmongFailures(dirName: string, ext: string, jobs: seq<ImageRef>, fails: seq<ImageRef>, j: ImageRef)
    requires PathsDistinct(dirName, ext, jobs)
    requires forall k :: k in fails ==> k in jobs
    requires j in jobs && j !in fails
    ensures FilePath(dirName, j, ext) !in PathsOf(dirName, ext, fails)
  {
    forall k | k in fails ensures FilePath(dirName, k, ext) != FilePath(dirName, j, ext) {
      var a :| 0 <= a < |jobs| && jobs[a] == j;
      var b :| 0 <= b < |jobs| && jobs[b] == k;
      assert a != b;
    }
  }

  /** The destinations of a selection of jobs are among the destinations of all of them. */
  lemma PathsOfMonotone(dirName: string, ext: string, xs: seq<ImageRef>, ys: seq<ImageRef>)
    requires forall x :: x in xs ==> x in ys
    ensures PathsOf(dirName, ext, xs) <= PathsOf(dirName, ext, ys)
  {
  }

  /**
   * The state of the output directory after a call over `jobs` that started
   * from the files `before`: a job's file exists exactly when the job is not among
   * the failures `last` of the last pass, every such failure is one of the
   * jobs, the directory exists, and no other path changed.
   */
  ghost predicate Settled(dirName: string, ext: string, jobs: seq<ImageRef>, before: set<string>, after: set<string>, last: seq<ImageRef>) {
    && (forall j :: j in last ==> j in jobs)
    && (forall j :: j in jobs ==> (FilePath(dirName, j, ext) in after <==> j !in last))
    && dirName in after
    && (forall p :: p !in PathsOf(dirName, ext, jobs) && p != dirName ==> (p in after <==> p in before))
  }

  /** A first pass that is not retried settles its jobs. */
  lemma SettledWithoutRetry(dirName: string, ext: string, jobs: seq<ImageRef>, before: set<string>, st: PassState)
    requires PassSettled(dirName, ext, jobs, before + {dirName}, st)
    ensures Settled(dirName, ext, jobs, before, st.fs, st.fails)
  {
    assert dirName !in PathsOf(dirName, ext, jobs);
  }

  /** A first pass followed by a settled retry call settles the first pass's jobs. */
  lemma SettledAfterRetry(dirName: string, ext: string, jobs: seq<ImageRef>, before: set<string>, st: PassState, after: set<string>, last: seq<ImageRef>)
    requires PathsDistinct(dirName, ext, jobs)
    requires PassSettled(dirName, ext, jobs, before + {dirName}, st)
    requires Settled(dirName, ext, st.fails, st.fs, after, last)
    ensures Settled(dirName, ext, jobs, before, after, last)
  {
    forall j | j in jobs && j !in st.fails ensures FilePath(dirName, j, ext) in after {
      PathNotAmongFailures(dirName, ext, jobs, st.fails, j);
      DirectoryIsNotAFile(dirName, j, ext);
    }
    PathsOfMonotone(dirName, ext, st.fails, jobs);
  }

  /**
   * The final state of the output directory: for every job of the first pass,
   * its file exists exactly when the job is not among the failures of the last
   * pass; the directory exists; no other path changed.
   */
  lemma {:induction false} RetriesSettle(jobs: seq<ImageRef>, dirName: string, cfg: Settings, retry: int, fs: set<string>,
                                         encodeUri: string -> string, fetch: Fetcher, pass: nat, r: RunResult)
    requires r == Retries(jobs, dirName, cfg, retry, fs, encodeUri, fetch, pass)
    requires AllDescriptors(jobs) && PathsDistinct(dirName, cfg.ext, jobs)
    ensures Settled(dirName, cfg.ext, jobs, fs, r.fs, r.trace[|r.trace| - 1].outcome.fails)
    decreases Budget(retry)
  {
    var st := Sweep(jobs, dirName, cfg, pass, fetch, fs + {dirName});
    assert PassSettled(dirName, cfg.ext, jobs, fs + {dirName}, st) by {
      PassFacts(jobs, dirName, cfg, pass, fetch, fs + {dirName});
    }
    if st.fails != [] && retry > 0 {
      var rest := Retries(Normalize(st.fails, encodeUri), dirName, cfg, retry - 1, st.fs, encodeUri, fetch, pass + 1);
      assert Settled(dirName, cfg.ext, st.fails, st.fs, rest.fs, rest.trace[|rest.trace| - 1].outcome.fails) by {
        NormalizeKeepsDescriptors(st.fails, encodeUri);
        RetriesSettle(st.fails, dirName, cfg, retry - 1, st.fs, encodeUri, fetch, pass + 1, rest);
      }
      assert r.fs == rest.fs && r.trace[|r.trace| - 1] == rest.trace[|rest.trace| - 1] by {
        assert r == RunResult(rest.fs, [PassRecord(jobs, st)] + rest.trace);
        LastAfterFirst(PassRecord(jobs, st), rest.trace);
      }
      SettledAfterRetry(dirName, cfg.ext, jobs, fs, st, rest.fs, rest.trace[|rest.trace| - 1].outcome.fails);
    } else {
      assert r == RunResult(st.fs, [PassRecord(jobs, st)]);
      SettledWithoutRetry(dirName, cfg.ext, jobs, fs, st);
    }
  }

  /**
   * For a manga whose images are addresses, after the call a page's file
   * exists exactly when the page is not among the failures of the last pass;
   * the directory exists; no other path changed.
   */
  lemma RunFinalState(manga: Manga, cfg: Settings, retry: int, fs: set<string>, encodeUri: string -> string, fetch: Fetcher, pass: nat, r: RunResult)
    requires StartsWithAddress(manga.images)
    requires r == Run(manga, cfg, retry, fs, encodeUri, fetch, pass)
    ensures Settled(DirName(manga, cfg), cfg.ext, Normalize(manga.images, encodeUri), fs, r.fs, r.trace[|r.trace| - 1].outcome.fails)
  {
    var jobs, dirName := Normalize(manga.images, encodeUri), DirName(manga, cfg);
    AddressJobs(manga.images, encodeUri, dirName, cfg.ext);
    RetriesSettle(jobs, dirName, cfg, retry, fs, encodeUri, fetch, pass, r);
  }

  /**
   * A job that fails in every pass it is downloaded in, and whose download is
   * started in the first pass, is retried until the budget is spent: the call
   * runs `retry + 1` passes, each of them downloads the job, and the job ends
   * among the unreported failures without a file.
   */
  lemma {:induction false} RetriesAlwaysFailing(jobs: seq<ImageRef>, dirName: string, cfg: Settings, retry: int, fs: set<string>,
                                                encodeUri: string -> string, fetch: Fetcher, pass: nat, j: ImageRef, r: RunResult)
    requires r == Retries(jobs, dirName, cfg, retry, fs, encodeUri, fetch, pass)
    requires AllDescriptors(jobs) && PathsDistinct(dirName, cfg.ext, jobs) && j in jobs
    requires cfg.force || FilePath(dirName, j, cfg.ext) !in fs
    requires forall n :: pass <= n ==> fetch(RequestFor(j, cfg, n)) == Failed
    ensures |r.trace| == Budget(retry) + 1
    ensures forall k :: 0 <= k < |r.trace| ==> j in r.trace[k].outcome.attempted
    ensures j in r.trace[|r.trace| - 1].outcome.fails
    ensures FilePath(dirName, j, cfg.ext) !in r.fs
    decreases Budget(retry)
  {
    var fs1 := fs + {dirName};
    var st := Sweep(jobs, dirName, cfg, pass, fetch, fs1);
    var path := FilePath(dirName, j, cfg.ext);
    assert j in st.attempted && j in st.fails && path !in st.fs by {
      DirectoryIsNotAFile(dirName, j, cfg.ext);
      SweepAttemptIff(jobs, dirName, cfg, pass, fetch, fs1);
      SweepFailIff(jobs, dirName, cfg, pass, fetch, fs1);
      SweepFiles(jobs, dirName, cfg, pass, fetch, fs1);
    }
    if retry > 0 {
      var rest := Retries(Normalize(st.fails, encodeUri), dirName, cfg, retry - 1, st.fs, encodeUri, fetch, pass + 1);
      assert AllDescriptors(st.fails) && PathsDistinct(dirName, cfg.ext, st.fails) && Normalize(st.fails, encodeUri) == st.fails by {
        SweepFailuresSubsequence(jobs, dirName, cfg, pass, fetch, fs1);
        SubsequenceMembers(st.fails, jobs);
        NormalizeKeepsDescriptors(st.fails, encodeUri);
        PathsDistinctSubsequence(dirName, cfg.ext, st.fails, jobs);
      }
      RetriesAlwaysFailing(st.fails, dirName, cfg, retry - 1, st.fs, encodeUri, fetch, pass + 1, j, rest);
      assert r == RunResult(rest.fs, [PassRecord(jobs, st)] + rest.trace);
      LastAfterFirst(PassRecord(jobs, st), rest.trace);
      AttemptedInEveryPass(PassRecord(jobs, st), rest.trace, j);
    } else {
      assert r == RunResult(st.fs, [PassRecord(jobs, st)]);
    }
  }

  /** How many downloads of `j` the passes of a trace started, all together. */
  function AttemptCount(trace: seq<PassRecord>, j: ImageRef): nat {
    if trace == [] then 0 else multiset(trace[0].outcome.attempted)[j] + AttemptCount(trace[1..], j)
  }

  /**
   * For descriptor jobs with distinct destinations, every pass starts the
   * download of a job at most once, so over the whole call a job is
   * downloaded at most `retry + 1` times.
   */
  lemma {:induction false} RetriesAttemptsOncePerPass(jobs: seq<ImageRef>, dirName: string, cfg: Settings, retry: int, fs: set<string>,
                                                      encodeUri: string -> string, fetch: Fetcher, pass: nat, j: ImageRef, r: RunResult)
    requires r == Retries(jobs, dirName, cfg, retry, fs, encodeUri, fetch, pass)
    requires AllDescriptors(jobs) && PathsDistinct(dirName, cfg.ext, jobs)
    ensures forall k :: 0 <= k < |r.trace| ==> multiset(r.trace[k].outcome.attempted)[j] <= 1
    ensures AttemptCount(r.trace, j) <= Budget(retry) + 1
    decreases Budget(retry)
  {
    var fs1 := fs + {dirName};
    var st := Sweep(jobs, dirName, cfg, pass, fetch, fs1);
    SweepAttemptsOnce(jobs, dirName, cfg, pass, fetch, fs1, j);
    var first := PassRecord(jobs, st);
    if st.fails != [] && retry > 0 {
      var rest := Retries(Normalize(st.fails, encodeUri), dirName, cfg, retry - 1, st.fs, encodeUri, fetch, pass + 1);
      assert AllDescriptors(st.fails) && PathsDistinct(dirName, cfg.ext, st.fails) && Normalize(st.fails, encodeUri) == st.fails by {
        SweepFailuresSubsequence(jobs, dirName, cfg, pass, fetch, fs1);
        SubsequenceMembers(st.fails, jobs);
        NormalizeKeepsDescriptors(st.fails, encodeUri);
        PathsDistinctSubsequence(dirName, cfg.ext, st.fails, jobs);
      }
      RetriesAttemptsOncePerPass(st.fails, dirName, cfg, retry - 1, st.fs, encodeUri, fetch, pass + 1, j, rest);
      assert r.trace == [first] + rest.trace;
      assert r.trace[1..] == rest.trace;
      forall k | 0 <= k < |r.trace| ensures multiset(r.trace[k].outcome.attempted)[j] <= 1 {
        if k > 0 {
          assert r.trace[k] == rest.trace[k - 1];
        }
      }
    } else {
      assert r.trace == [first];
      assert r.trace[1..] == [];
    }
  }

  /**
   * Running again with `force` off over a directory that already holds every
   * file downloads nothing, runs a single pass and changes nothing but
   * creating the directory.
   */
  lemma RetriesIdempotent(jobs: seq<ImageRef>, dirName: string, cfg: Settings, retry: int, fs: set<string>,
                          encodeUri: string -> string, fetch: Fetcher, pass: nat)
    requires !cfg.force
    requires forall j :: j in jobs ==> FilePath(dirName, j, cfg.ext) in fs
    ensures var r := Retries(jobs, dirName, cfg, retry, fs, encodeUri, fetch, pass);
      |r.trace| == 1 && r.trace[0].outcome.attempted == [] && r.trace[0].outcome.fails == []
      && r.fs == fs + {dirName}
  {
    SweepIdempotent(jobs, dirName, cfg, pass, fetch, fs + {dirName});
  }

  // ---------------------------------------------------------------------------
  // The call itself

  /**
   * The `args` object `downloadUrls` receives. Only `retry` is changed by it,
   * in place, before the object is copied for the next pass.
   */
  class Args {
    const ext: string
    const force: bool
    const sourceUrl: string
    const outputDir: string
    var retry: int

    constructor (ext: string, force: bool, sourceUrl: string, outputDir: string, retry: int)
      ensures this.ext == ext && this.force == force && this.sourceUrl == sourceUrl
      ensures this.outputDir == outputDir && this.retry == retry
    {
      this.ext, this.force, this.sourceUrl, this.outputDir := ext, force, sourceUrl, outputDir;
      this.retry := retry;
    }

    /** `{...args}` */
    constructor Copy(other: Args)
      ensures ext == other.ext && force == other.force && sourceUrl == other.sourceUrl
      ensures outputDir == other.outputDir && retry == other.retry
    {
      ext, force, sourceUrl, outputDir := other.ext, other.force, other.sourceUrl, other.outputDir;
      retry := other.retry;
    }

    function Options(): Settings {
      Settings(ext, force, sourceUrl, outputDir)
    }
  }

  /**
   * `downloadUrls(manga, args)`: returns the files that exist afterwards. The
   * caller's `args.retry` goes down by one when the first pass failed somewhere
   * and retries were left; the deeper passes only change copies.
   */
  method DownloadUrls(manga: Manga, args: Args, fs: set<string>, encodeUri: string -> string, fetch: Fetcher, pass: nat)
    returns (files: set<string>)
    modifies args
    ensures files == Run(manga, args.Options(), old(args.retry), fs, encodeUri, fetch, pass).fs
    ensures args.retry ==
      if FirstPass(manga, args.Options(), fs, encodeUri, fetch, pass).fails != [] && old(args.retry) > 0
      then old(args.retry) - 1 else old(args.retry)
    decreases Budget(args.retry)
  {
    var cfg := args.Options();
    var images := Normalize(manga.images, encodeUri);
    var dirName := Join(args.outputDir, manga.title);
    var failImages, ticks, attempted;
    files, failImages, ticks, attempted := RunPass(images, dirName, cfg, pass, fetch, fs + {dirName});
    if |failImages| > 0 && args.retry > 0 {
      args.retry := args.retry - 1;
      var copy := new Args.Copy(args);
      files := DownloadUrls(manga.(images := failImages), copy, files, encodeUri, fetch, pass + 1);
    }
  }
}
