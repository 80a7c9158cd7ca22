# Toolbox core: yt-dlp orchestration and newest-file selection

A Dafny model of the core of a small HTTP service that fetches YouTube
video or audio by running the `yt-dlp` command-line tool and returns the
file it produced. The core is three Python files:

- `app/core/utils.py`: `get_default_output_dir` (the Downloads folder under
  the user's home, from `USERPROFILE` on Windows and `HOME` elsewhere) and
  `get_mp3_file` (the newest `*.mp3` in a folder, by modification time).
- `app/core/video_downloader.py`: `download_video` validates the quality
  against a four-entry table. It then runs `yt-dlp -f <expr> -o <template> <url>`,
  checks the exit code, and returns the newest file of the requested extension.
- `app/core/mp3_converter.py`: `convert_to_mp3` runs
  `yt-dlp --extract-audio --audio-format mp3 -o <template> <url>`, checks the
  exit code, and returns what `get_mp3_file` locates.

Modules, one per file:

- `Wrappers` (`wrappers.dfy`): `Option` and `Result`.
- `Host` (`host.dfy`): what the core sees of its host.
  - A directory entry is a `(name, mtime)` pair.
  - The finished process is a `(returncode, stderr)` pair.
  - The raised exceptions are `KeyError`, `ValueError` and `RuntimeError`.
  - `os.path.join` is modelled for a relative second argument.
  - The glob `*.<ext>` is a name-suffix test.
  - The builtin `max(..., key=mtime)` is `MaxByMtime`.
  - An `Effect` records each outside action: `MakeDirs`, `RunProcess` or `Scan`.
- `Utils` (`utils.dfy`): `get_default_output_dir` is a function of the
  platform name and an environment map. `get_mp3_file` is the method
  `GetMp3File`, with the loop of the source. That method is proved equal to
  the specification function `NewestMp3`.
- `VideoDownloader`, `Mp3Converter`: each orchestrator is a total function.
  - Its inputs are the platform, the environment, the request, the
    process outcome and the directory listing after the run.
  - It returns a `Trace`: the effects performed, in order, and the returned
    file or raised error. Ordering guarantees can therefore be stated. One
    example: an invalid quality fails with no effect at all.

The orchestrators are functions, and functions cannot call methods. So
`ConvertToMp3` uses `NewestMp3`, the function that `GetMp3File` is proved to
meet.

Selection semantics worth knowing:

- `get_mp3_file` starts its running maximum at 0 and replaces the winner
  only on a strictly greater mtime. Ties go to the entry scanned first, and
  an MP3 whose mtime is 0 or less is never returned. A folder holding only
  such MP3s yields "not found".
- `download_video` uses Python's `max`, which also keeps the first of equal
  maxima. It has no floor, though: with matches present it always returns
  one. `VideoDownloader.MaxAgreesWithGetMp3File` states where the two agree
  and where they differ.
- So `get_mp3_file` and `download_video` select differently when every
  matching mtime is 0 or less. The model follows each as written.

## Model

| member | source | states |
|---|---|---|
| `Host.ToolFailure` | app/core/video_downloader.py:36-37 | The message of a failed run is "Error in yt-dlp: " followed by the tool's stderr, unchanged. |
| `Host.Join` | app/core/utils.py:13-15 | The joined path starts with the directory and ends with the name. A separator is added exactly when the directory is non-empty and does not already end in one. |
| `Host.Glob` | app/core/utils.py:25 | An entry is kept exactly when it is in the listing and its name ends in "." + the extension. Nothing else is added. |
| `Host.GlobSnoc` | app/core/utils.py:25 | One more listed entry is appended to the glob exactly when its name matches. |
| `Host.GlobAppend` | app/core/utils.py:25 | The glob of two listings, one after the other, is the glob of the first followed by the glob of the second. So the glob keeps the scan order. |
| `Host.GlobAround` | app/core/utils.py:25 | For a matching `listing[i]`, the glob is the matches before `i`, then `listing[i]`, then the matches after `i`. |
| `Host.FirstNewestInListing` | app/core/video_downloader.py:39-43 | A matching `listing[i]` that no match exceeds, and that every earlier match is strictly older than, sits in the glob at its first position of maximal mtime. That position is the number of matches before `i`. |
| `Host.MaxByMtime` | app/core/video_downloader.py:43 | `max(..., key=mtime)` picks an index whose mtime no entry exceeds, and every earlier entry is strictly older. This is the first maximum. |
| `Utils.DefaultOutputDir` | app/core/utils.py:8-15 | On "Windows" the result is `USERPROFILE` joined with `Downloads`. On any other platform it is `HOME` joined with `Downloads`. If that variable is missing, the result is `KeyError` naming it. |
| `Utils.DefaultOutputDirReadsOneVariable` | app/core/utils.py:12-15 | Environments that agree on the platform's home variable give the same result. A success starts with that variable's value and ends with `Downloads`. |
| `Utils.NewestPositiveSpec` | app/core/utils.py:22-31 | Characterizes `Utils.NewestPositive`, the selection the loop of `GetMp3File` is proved against. The result is `None` exactly when every scanned mtime is ≤ 0, the empty scan included. Otherwise it is the entry at the first position of maximal mtime, and that mtime is > 0. |
| `Utils.NewestPositiveSnoc` | app/core/utils.py:26-29 | One more scanned entry replaces the selection exactly when its mtime is strictly greater than the running maximum. The running maximum is the selected mtime, or 0. |
| `Utils.NewestMp3` | app/core/utils.py:18-31 | A selected file is a listed `*.mp3` with mtime > 0, and no listed `*.mp3` is newer. The result is `None` exactly when every listed `*.mp3` has mtime ≤ 0. |
| `Utils.GetMp3File` | app/core/utils.py:18-31 | The loop, with its running maximum starting at 0 and its strict `>` update, returns exactly `NewestMp3` of the listing. |
| `Utils.FirstNewestIsSelected` | app/core/utils.py:27 | The first position of maximal mtime is selected whenever that mtime is positive. This is the converse of `NewestPositiveSpec`. |
| `Utils.TieGoesToFirstScanned` | app/core/utils.py:27 | With two distinct entries of equal positive mtime, whichever is scanned first is returned, so scan order decides ties. |
| `Utils.NewestPositiveOrderIndependent` | app/core/utils.py:25-29 | When mtimes are pairwise distinct, any reordering of the scanned entries gives the same selection. |
| `Utils.StrictlyNewestMp3Selected` | app/core/utils.py:25-29 | An `*.mp3` newer than 0 and strictly newer than every other listed `*.mp3` is the one returned. |
| `Utils.NewestMp3InListingOrder` | app/core/utils.py:25-29 | In listing order: a positive-mtime MP3 that no listed MP3 exceeds, and that every earlier-listed MP3 is strictly older than, is returned. So of tied MP3s, the one listed first wins. |
| `Utils.NewestOfThreeSongs` | tests/test_main.py:53-78 | Given mtimes 100, 200, 150, the song with mtime 200 is returned. |
| `Utils.MixedListingNewestMp3` | tests/test_main.py:113-139 | Given `song.mp3`@100, `document.txt`@50 and `new_song.mp3`@200, `new_song.mp3` is returned. The test replaces the glob with a mock that yields all three files, so it passes both when the text file is filtered out and when it merely loses on mtime. In the model it is filtered out, as the `*.mp3` glob at app/core/utils.py:25 does. |
| `Utils.NewerNonMp3Ignored` | app/core/utils.py:25 | Given `a.mp3`@100, `b.mp3`@200 and `c.txt`@300, `b.mp3` is returned. A newer non-MP3 never wins. |
| `Utils.OnlyMp3Returned` | tests/test_main.py:94-111 | A single `*.mp3` with positive mtime is returned as it is. |
| `Utils.NonPositiveMtimeNeverSelected` | app/core/utils.py:23-27 | MP3s exist, but all have mtime ≤ 0, whatever the mtimes of other files. The glob matches some entries and the result is still `None`. |
| `VideoDownloader.Lookup` | app/core/video_downloader.py:15-16 | A dict lookup: nothing exactly when no pair has the key; otherwise a value paired with the key. |
| `VideoDownloader.QualityExpression` | app/core/video_downloader.py:8-13 | The table maps low → `worst`, medium → `best[height<=720]`, high → `best[height<=1080]` and best → `best`. Every other name gives nothing. |
| `VideoDownloader.Keys` | app/core/video_downloader.py:16 | `quality_levels.keys()`: one key per pair, in the same order. |
| `VideoDownloader.CommaJoinCons` | app/core/video_downloader.py:16 | `', '.join` (`CommaJoin`) puts ", " between a name and the join of a non-empty rest. |
| `VideoDownloader.QualityNames` | app/core/video_downloader.py:8-13 | The keys of `quality_levels`, in insertion order, are exactly `low`, `medium`, `high`, `best`. |
| `VideoDownloader.AllowedQualitiesText` | app/core/video_downloader.py:16 | `', '.join` (`CommaJoin`) of the table's keys (`Keys`) is exactly `low, medium, high, best`. |
| `VideoDownloader.InvalidQuality` | app/core/video_downloader.py:16 | The message quotes the bad value and lists `low, medium, high, best` in table order. |
| `VideoDownloader.DownloadVideo` | app/core/video_downloader.py:7-43 | An invalid quality raises `ValueError` with no effect. A missing home variable raises `KeyError` with no effect. Otherwise: `MakeDirs(dir)`, then exactly `["yt-dlp", "-f", expr, "-o", dir/%(title)s.%(ext)s, url]`. A non-zero exit raises "Error in yt-dlp: " + stderr, with no scan. On exit 0 the scan uses `*.<format>`. The not-found error comes exactly when no listed name has that extension; when some listed name has it, a file is returned. A returned file is a listed match at the first position of maximal mtime, whatever its sign. |
| `VideoDownloader.MaxAgreesWithGetMp3File` | app/core/video_downloader.py:43 | With format "mp3" and a clean run, the download returns the file `get_mp3_file` would pick whenever that one exists. When all matching mtimes are ≤ 0, the download still succeeds where `get_mp3_file` finds nothing. |
| `VideoDownloader.FirstListedNewestReturned` | app/core/video_downloader.py:39-43 | In listing order: after a clean run, a match that no match exceeds, and that every earlier-listed match is strictly older than, is returned, whatever the sign of its mtime. So of tied matches, the one listed first wins. |
| `VideoDownloader.OnlyMatchingFileReturned` | app/core/video_downloader.py:39-43 | After a clean run, if exactly one listed file has the requested extension, that file is returned. |
| `Mp3Converter.ConvertToMp3` | app/core/mp3_converter.py:6-44 | A missing home variable raises `KeyError` with no effect. Otherwise: `MakeDirs(dir)`, then exactly `["yt-dlp", "--extract-audio", "--audio-format", "mp3", "-o", dir/%(title)s.%(ext)s, url]`. A non-zero exit raises "Error in yt-dlp: " + stderr, and the locator is not run. On exit 0 the locator scans `dir` itself for `*.mp3`. The not-found error comes exactly when the locator `NewestMp3` returns `None`, which by its contract means every listed MP3 has mtime ≤ 0. When the locator finds a file, that file is returned; a returned file is always the located one, unchanged. |
| `Mp3Converter.ToolErrorCarriesStderr` | app/core/mp3_converter.py:36-37 | A failed run raises a `RuntimeError` whose message starts with "Error in yt-dlp: " and ends with the captured stderr. |

## Left out

- The HTTP layer (app/routers/youtube.py, app/routers/mp3.py) is not modelled. It builds `FileResponse`s, chooses media types, and maps `ValueError` to 400 and other errors to 500. The application wiring and startup folder of app/main.py are also not modelled.
- The real `yt-dlp` process is not modelled. Its outcome is an input `(returncode, stderr)`. Its stdout is ignored, as in the source. An exception raised by `subprocess.run` itself, such as a missing executable, is not modelled.
- Filesystem effects are recorded as `Effect`s and not performed. `mkdir` failures are not modelled.
- The post-run listing is an input. `glob` is a name-suffix test. Case sensitivity, hidden files, directories that match, and glob metacharacters inside `format` are not modelled.
- Modification times are integers. The float `st_mtime` and its precision are not modelled.
- `platform.system()` is the platform name, with "Windows" the only value that matters. `pathlib` path normalisation is not modelled: no collapsing of `//` or trailing `/.`. The drive-relative case of `ntpath.join` (`C:` + name) is not modelled.
- Concurrency is not modelled: two requests sharing the output directory may pick up each other's files. The model is sequential.
- The parameter defaults of `download_video` (`format="mp4"`, `quality="medium"`) are not modelled: the model always takes both arguments explicitly.
