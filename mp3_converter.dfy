/**
 * `convert_to_mp3` of app/core/mp3_converter.py: run `yt-dlp` to extract
 * MP3 audio into the default output directory, then hand back the file
 * `get_mp3_file` locates there.
 *
 * The process outcome and the directory listing after the run are inputs;
 * the function returns the effects it performs, in order, with its result.
 */
module Mp3Converter {
  import opened Wrappers
  import opened Host
  import opened Utils

  /** The message raised when the conversion reports success but no MP3 is located. */
  const Mp3NotFound := "Conversion succeeded, but the MP3 file could not be found."

  /** The command line: audio extraction to MP3, output template, and the URL last. */
  function ConvertCommand(template: string, url: string): seq<string>
  {
    [Tool, "--extract-audio", "--audio-format", Mp3, "-o", template, url]
  }

  /**
   * `convert_to_mp3(url)`, given the tool's outcome `run` and the output
   * directory's `listing` after the run. `get_mp3_file` is taken by its
   * specification `NewestMp3`, which `Utils.GetMp3File` is proved to meet.
   */
  function ConvertToMp3(system: string, env: map<string, string>, url: string,
                        run: Completed, listing: seq<Entry>): (t: Trace<Entry>)
    // a missing home variable propagates before any effect
    ensures DefaultOutputDir(system, env).Failure? ==>
              t == Trace([], Failure(DefaultOutputDir(system, env).error))
    // otherwise the directory is created, the exact command is run, and the
    // locator scans the directory the template writes into
    ensures DefaultOutputDir(system, env).Success? ==>
              var dir := DefaultOutputDir(system, env).value;
              && 2 <= |t.effects| <= 3
              && t.effects[0] == MakeDirs(dir)
              && t.effects[1] == RunProcess([Tool, "--extract-audio", "--audio-format", "mp3", "-o",
                                             Join(system, dir, OutputTemplate), url])
              && (|t.effects| == 3 <==> run.returncode == 0)
              && (run.returncode == 0 ==> t.effects[2] == Scan(dir, "*.mp3"))
    // a failed run carries the tool's stderr and the locator is not consulted
    ensures DefaultOutputDir(system, env).Success? && run.returncode != 0 ==>
              t.result == Failure(RuntimeError(ToolFailure(run.stderr)))
    // after a clean run: the missing-file error exactly when the locator finds nothing
    ensures DefaultOutputDir(system, env).Success? && run.returncode == 0 ==>
              (t.result == Failure(RuntimeError(Mp3NotFound)) <==> NewestMp3(listing).None?)
    // a located file is returned after a clean run
    ensures DefaultOutputDir(system, env).Success? && run.returncode == 0 && NewestMp3(listing).Some? ==>
              t.result == Success(NewestMp3(listing).value)
    // a returned file is the located one, unchanged
    ensures t.result.Success? ==>
              && DefaultOutputDir(system, env).Success? && run.returncode == 0
              && NewestMp3(listing) == Some(t.result.value)
  {
    match DefaultOutputDir(system, env)
    case Failure(e) => Trace([], Failure(e))
    case Success(dir) =>
      var ran := [MakeDirs(dir), RunProcess(ConvertCommand(Join(system, dir, OutputTemplate), url))];
      if run.returncode != 0 then Trace(ran, Failure(RuntimeError(ToolFailure(run.stderr))))
      else
        var scanned := ran + [Scan(dir, "*." + Mp3)];
        match NewestMp3(listing)
        case None => Trace(scanned, Failure(RuntimeError(Mp3NotFound)))
        case Some(newest) => Trace(scanned, Success(newest))
  }

  /** The tool's own diagnostics reach the caller: the message ends with its stderr. */
  lemma {:induction false} ToolErrorCarriesStderr(system: string, env: map<string, string>, url: string,
                                                  run: Completed, listing: seq<Entry>)
    requires DefaultOutputDir(system, env).Success? && run.returncode != 0
    ensures var t := ConvertToMp3(system, env, url, run, listing);
            t.result.Failure? && t.result.error.RuntimeError? &&
            var m := t.result.error.message;
            m[..|ToolFailurePrefix|] == ToolFailurePrefix && m[|m| - |run.stderr|..] == run.stderr
  {
  }
}
