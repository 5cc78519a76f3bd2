/**
 * Build selection and the artifact cache decision made by `main` before the
 * first deploy: pick the last build the registry lists, and download its
 * artifact into the build directory only when no file of that name is there.
 */
module Builds {
  import opened Wrappers

  /** A registry build entry: its number and the file name of its application download. */
  datatype Build = Build(number: int, artifact: string)

  /** The download request: its URL is built from the version, the build number and the file name. */
  datatype DownloadRequest = DownloadRequest(version: string, build: int, name: string)

  /** Why `main` gives up before deploying. */
  datatype BuildError =
    | NoBuilds                   // the registry listed no build: `lastBuild` is undefined
    | DownloadFailed(status: int) // the download answered with a status above 299

  /** The directory the artifacts are cached in. */
  const BuildDir: string := "/mcserver/"

  /** The local path probed and written for an artifact. */
  function ArtifactPath(name: string): (p: string)
    ensures |p| == |BuildDir| + |name| && p[..|BuildDir|] == BuildDir && p[|BuildDir|..] == name
  {
    BuildDir + name
  }

  /** Distinct artifact names live at distinct paths. */
  lemma ArtifactPathInjective(a: string, b: string)
    ensures ArtifactPath(a) == ArtifactPath(b) <==> a == b
  {
  }

  /** The selected build: the registry's last entry, with no sorting; an empty list selects nothing. */
  function LatestBuild(builds: seq<Build>): (r: Option<Build>)
    ensures r.None? <==> builds == []
    ensures r.Some? ==> r.value in builds
  {
    if builds == [] then None else Some(builds[|builds| - 1])
  }

  /** Whatever came before, a build listed last is the one selected, regardless of its number. */
  lemma LatestIsLastListed(earlier: seq<Build>, b: Build)
    ensures LatestBuild(earlier + [b]) == Some(b)
  {
  }

  /** No sorting happens: a list whose builds are out of order selects the last listed, not the highest-numbered. */
  lemma LatestIsNotMaximum()
    ensures LatestBuild([Build(2, "paper-2.jar"), Build(1, "paper-1.jar")]) == Some(Build(1, "paper-1.jar"))
  {
  }

  /** The effect of the cache step: the file store after it, the downloads it requested, and its error. */
  datatype CacheStep = CacheStep(files: set<string>, requests: seq<DownloadRequest>, error: Option<BuildError>)

  /**
   * The cache decision for build `b`: a file at the artifact's path means no
   * request and no write; otherwise one download is requested, and a status
   * above 299 is an error that writes nothing, any other status writes that
   * one file.
   */
  function Sync(version: string, files: set<string>, b: Build, status: int): (r: CacheStep)
    ensures ArtifactPath(b.artifact) in r.files <==> r.error.None?
    ensures files <= r.files && r.files - files <= {ArtifactPath(b.artifact)}
    ensures r.requests == if ArtifactPath(b.artifact) in files then [] else [DownloadRequest(version, b.number, b.artifact)]
    ensures r.error.Some? ==> r.files == files && r.error == Some(DownloadFailed(status)) && status > 299
    ensures ArtifactPath(b.artifact) !in files ==> (r.error.Some? <==> status > 299)
  {
    var path := ArtifactPath(b.artifact);
    if path in files then CacheStep(files, [], None)
    else
      var request := DownloadRequest(version, b.number, b.artifact);
      if status > 299 then CacheStep(files, [request], Some(DownloadFailed(status)))
      else CacheStep(files + {path}, [request], None)
  }

  /**
   * Everything `main` does before the first deploy: select the last build,
   * then run the cache decision on it; an empty list is an error that
   * requests and writes nothing.
   */
  function Prepare(version: string, files: set<string>, builds: seq<Build>, status: int): (r: CacheStep)
    ensures builds == [] ==> r == CacheStep(files, [], Some(NoBuilds))
    ensures builds != [] ==> r == Sync(version, files, builds[|builds| - 1], status)
    ensures files <= r.files && |r.requests| <= 1
    ensures r.error.None? ==> builds != [] && ArtifactPath(builds[|builds| - 1].artifact) in r.files
  {
    match LatestBuild(builds)
    case None => CacheStep(files, [], Some(NoBuilds))
    case Some(b) => Sync(version, files, b, status)
  }

  /**
   * Idempotence: once preparation succeeded, preparing again from the
   * resulting store with the same registry answer requests no download and
   * changes nothing, whatever status a download would have had.
   */
  lemma PrepareIdempotent(version: string, files: set<string>, builds: seq<Build>, status1: int, status2: int)
    requires Prepare(version, files, builds, status1).error.None?
    ensures var r1 := Prepare(version, files, builds, status1);
      Prepare(version, r1.files, builds, status2) == CacheStep(r1.files, [], None)
  {
  }

  /**
   * After a successful first preparation, two preparations in a row request
   * at most one download in total: exactly one when the artifact was absent,
   * none when it was already present.
   */
  lemma AtMostOneDownload(version: string, files: set<string>, builds: seq<Build>, status1: int, status2: int)
    requires builds != []
    ensures var r1 := Prepare(version, files, builds, status1);
      var r2 := Prepare(version, r1.files, builds, status2);
      r1.error.None? ==> |r1.requests + r2.requests| == (if ArtifactPath(builds[|builds| - 1].artifact) in files then 0 else 1)
  {
  }
}
