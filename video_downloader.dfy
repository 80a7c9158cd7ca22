/**
 * `download_video` of app/core/video_downloader.py: check the quality, run
 * `yt-dlp` with the matching format expression, and pick the newest file of
 * the requested extension from the output directory.
 *
 * The process outcome and the directory listing after the run are inputs;
 * the function returns the effects it performs, in order, with its result.
 */
module VideoDownloader {
  import opened Wrappers
  import opened Host
  import opened Utils

  /** `quality_levels`: quality name to yt-dlp format expression, in the dict's insertion order. */
  const QualityLevels: seq<(string, string)> := [
    ("low", "worst"),
    ("medium", "best[height<=720]"),
    ("high", "best[height<=1080]"),
    ("best", "best")
  ]

  /** The quality names the endpoint accepts. */
  const ValidQualities: set<string> := {"low", "medium", "high", "best"}

  /** The message raised when the download reports success but no file matches. */
  const VideoNotFound := "Download succeeded, but the video file could not be found."

  /** The value of the first pair keyed by `key`, as a dict lookup. */
  function Lookup(table: seq<(string, string)>, key: string): (r: Option<string>)
    ensures r.None? <==> forall i :: 0 <= i < |table| ==> table[i].0 != key
    ensures r.Some? ==> (key, r.value) in table
  {
    if table == [] then None
    else if table[0].0 == key then Some(table[0].1)
    else Lookup(table[1..], key)
  }

  /** The format expression for a quality name, or nothing for a name outside the table. */
  function QualityExpression(quality: string): (r: Option<string>)
    ensures quality == "low" ==> r == Some("worst")
    ensures quality == "medium" ==> r == Some("best[height<=720]")
    ensures quality == "high" ==> r == Some("best[height<=1080]")
    ensures quality == "best" ==> r == Some("best")
    ensures r.None? <==> quality !in ValidQualities
  {
    Lookup(QualityLevels, quality)
  }

  /** The keys of a table, in order. */
  function Keys(table: seq<(string, string)>): (ks: seq<string>)
    ensures |ks| == |table| && forall i :: 0 <= i < |table| ==> ks[i] == table[i].0
  {
    if table == [] then [] else [table[0].0] + Keys(table[1..])
  }

  /** `', '.join(xs)`. */
  function CommaJoin(xs: seq<string>): string
  {
    if xs == [] then ""
    else if |xs| == 1 then xs[0]
    else xs[0] + ", " + CommaJoin(xs[1..])
  }

  /** The table's keys, in insertion order. */
  lemma QualityNames()
    ensures Keys(QualityLevels) == ["low", "medium", "high", "best"]
  {
    var ks := Keys(QualityLevels);
    assert |ks| == 4 && ks[0] == "low" && ks[1] == "medium" && ks[2] == "high" && ks[3] == "best";
  }

  /** Joining a name in front of a non-empty list puts ", " between it and the rest. */
  lemma CommaJoinCons(x: string, xs: seq<string>)
    requires xs != []
    ensures CommaJoin([x] + xs) == x + ", " + CommaJoin(xs)
  {
    assert ([x] + xs)[1..] == xs;
  }

  /** `', '.join(quality_levels.keys())` spells the names in insertion order. */
  lemma AllowedQualitiesText()
    ensures CommaJoin(Keys(QualityLevels)) == "low, medium, high, best"
  {
    QualityNames();
    var rest := ["medium", "high", "best"];
    assert ["low", "medium", "high", "best"] == ["low"] + rest;
    CommaJoinCons("low", rest);
    TailText();
  }

  /** The part after the first name. */
  lemma TailText()
    ensures CommaJoin(["medium", "high", "best"]) == "medium, high, best"
  {
    var rest := ["high", "best"];
    assert ["medium", "high", "best"] == ["medium"] + rest;
    CommaJoinCons("medium", rest);
    assert ["high", "best"] == ["high"] + ["best"];
    CommaJoinCons("high", ["best"]);
  }

  /** The `ValueError` message: the bad value in quotes, then the allowed names in table order. */
  function InvalidQuality(quality: string): (m: string)
    ensures m == "Invalid quality: '" + quality + "'. Use one of low, medium, high, best."
  {
    AllowedQualitiesText();
    "Invalid quality: '" + quality + "'. Use one of " + CommaJoin(Keys(QualityLevels)) + "."
  }

  /** The command line: format selection, output template, and the URL last. */
  function DownloadCommand(expression: string, template: string, url: string): seq<string>
  {
    [Tool, "-f", expression, "-o", template, url]
  }

  /** Whether validation and the output-directory lookup both pass, so that the tool is run. */
  predicate ReachesTool(system: string, env: map<string, string>, quality: string)
  {
    quality in ValidQualities && DefaultOutputDir(system, env).Success?
  }

  /**
   * `download_video(url, format, quality)`, given the tool's outcome `run`
   * and the output directory's `listing` after the run.
   */
  function DownloadVideo(system: string, env: map<string, string>, url: string, format: string,
                         quality: string, run: Completed, listing: seq<Entry>): (t: Trace<Entry>)
    // an unknown quality is rejected before any directory or process work
    ensures quality !in ValidQualities ==> t == Trace([], Failure(ValueError(InvalidQuality(quality))))
    // a missing home variable propagates, still before any effect
    ensures quality in ValidQualities && DefaultOutputDir(system, env).Failure? ==>
              t == Trace([], Failure(DefaultOutputDir(system, env).error))
    // otherwise the directory is created, then the exact command is run
    ensures ReachesTool(system, env, quality) ==>
              var dir := DefaultOutputDir(system, env).value;
              && 2 <= |t.effects| <= 3
              && t.effects[0] == MakeDirs(dir)
              && t.effects[1] == RunProcess([Tool, "-f", QualityExpression(quality).value, "-o",
                                             Join(system, dir, OutputTemplate), url])
              && (|t.effects| == 3 <==> run.returncode == 0)
              && (run.returncode == 0 ==> t.effects[2] == Scan(dir, "*." + format))
    // a failed run carries the tool's stderr and the directory is not scanned
    ensures ReachesTool(system, env, quality) && run.returncode != 0 ==>
              t.result == Failure(RuntimeError(ToolFailure(run.stderr)))
    // a clean run with no file of the requested extension
    ensures ReachesTool(system, env, quality) && run.returncode == 0 ==>
              (t.result == Failure(RuntimeError(VideoNotFound)) <==>
               forall e :: e in listing ==> !MatchesExt(e.name, format))
    // a clean run with a file of the requested extension returns a file
    ensures ReachesTool(system, env, quality) && run.returncode == 0 ==>
              ((exists e :: e in listing && MatchesExt(e.name, format)) ==> t.result.Success?)
    // a returned file has the requested extension and the first maximal mtime, whatever its sign
    ensures t.result.Success? ==>
              && ReachesTool(system, env, quality) && run.returncode == 0
              && t.result.value in listing && MatchesExt(t.result.value.name, format)
              && exists k :: IsFirstNewest(Glob(listing, format), k) && Glob(listing, format)[k] == t.result.value
  {
    match QualityExpression(quality)
    case None => Trace([], Failure(ValueError(InvalidQuality(quality))))
    case Some(expression) =>
      match DefaultOutputDir(system, env)
      case Failure(e) => Trace([], Failure(e))
      case Success(dir) =>
        var ran := [MakeDirs(dir), RunProcess(DownloadCommand(expression, Join(system, dir, OutputTemplate), url))];
        if run.returncode != 0 then Trace(ran, Failure(RuntimeError(ToolFailure(run.stderr))))
        else
          var videos := Glob(listing, format);
          var scanned := ran + [Scan(dir, "*." + format)];
          if videos == [] then Trace(scanned, Failure(RuntimeError(VideoNotFound)))
          else Trace(scanned, Success(videos[MaxByMtime(videos)]))
  }

  /**
   * With the extension "mp3", `download_video`'s `max` and `get_mp3_file`
   * select the same file whenever the latter selects one; when every
   * matching file has an mtime of at most 0, `get_mp3_file` finds nothing
   * while `download_video` still returns the first of them.
   */
  lemma {:induction false} MaxAgreesWithGetMp3File(system: string, env: map<string, string>, url: string,
                                                   quality: string, run: Completed, listing: seq<Entry>)
    requires ReachesTool(system, env, quality) && run.returncode == 0
    ensures NewestMp3(listing).Some? ==>
              DownloadVideo(system, env, url, Mp3, quality, run, listing).result == Success(NewestMp3(listing).value)
    ensures NewestMp3(listing).None? && (exists e :: e in listing && MatchesExt(e.name, Mp3)) ==>
              DownloadVideo(system, env, url, Mp3, quality, run, listing).result.Success?
  {
    var videos := Glob(listing, Mp3);
    if videos != [] {
      var k := MaxByMtime(videos);
      if videos[k].mtime > 0 {
        assert NewestPositive(videos) == Some(videos[k]);
      }
    }
  }

  /**
   * Ties in listing order: after a clean run, the file listed first among
   * the matches of maximal mtime is returned, whatever the sign of that mtime.
   */
  lemma FirstListedNewestReturned(system: string, env: map<string, string>, url: string, format: string,
                                  quality: string, run: Completed, listing: seq<Entry>, i: int)
    requires ReachesTool(system, env, quality) && run.returncode == 0
    requires 0 <= i < |listing| && MatchesExt(listing[i].name, format)
    requires forall e :: e in listing && MatchesExt(e.name, format) ==> e.mtime <= listing[i].mtime
    requires forall j :: 0 <= j < i && MatchesExt(listing[j].name, format) ==> listing[j].mtime < listing[i].mtime
    ensures DownloadVideo(system, env, url, format, quality, run, listing).result == Success(listing[i])
  {
    FirstNewestInListing(listing, format, i);
    var videos := Glob(listing, format);
    var k, m := |Glob(listing[..i], format)|, MaxByMtime(videos);
    assert m == k by {
      assert !(m < k) && !(k < m);
    }
  }

  /** A clean run leaving exactly one file of the requested extension returns that file. */
  lemma OnlyMatchingFileReturned(system: string, env: map<string, string>, url: string, format: string,
                                 quality: string, run: Completed, listing: seq<Entry>, e: Entry)
    requires ReachesTool(system, env, quality) && run.returncode == 0
    requires e in listing && MatchesExt(e.name, format)
    requires forall x :: x in listing && MatchesExt(x.name, format) ==> x == e
    ensures DownloadVideo(system, env, url, format, quality, run, listing).result == Success(e)
  {
  }
}
