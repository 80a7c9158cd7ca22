/**
 * What the core sees of its host: the directory listing, the finished
 * `yt-dlp` process, the exceptions it raises, and the few library functions
 * it relies on (`os.path.join`, `Path.glob`, the builtin `max` with a key).
 * Every effect on the outside world is recorded as an `Effect`, so that the
 * order in which the orchestrators act can be stated.
 */
module Host {
  import opened Wrappers

  /** A directory entry as a scan after the process run reports it. */
  datatype Entry = Entry(name: string, mtime: int)

  /** What `subprocess.run(..., capture_output=True, text=True)` hands back and the core reads. */
  datatype Completed = Completed(returncode: int, stderr: string)

  /** The exceptions the core raises. */
  datatype Error =
    | KeyError(key: string)          // a missing environment variable
    | ValueError(message: string)    // a caller-supplied parameter out of range
    | RuntimeError(message: string)  // the tool failed, or its output is missing

  /** One step that touches the world outside the process, in the order taken. */
  datatype Effect =
    | MakeDirs(path: string)           // `Path.mkdir(parents=True, exist_ok=True)`
    | RunProcess(argv: seq<string>)    // `subprocess.run(argv, ...)`
    | Scan(dir: string, pattern: string)  // `Path.glob(pattern)` on `dir`

  /** The effects an operation performed and what it returned or raised. */
  datatype Trace<+T> = Trace(effects: seq<Effect>, result: Result<T, Error>)

  /** Name of the external tool, first element of every command line. */
  const Tool := "yt-dlp"

  /** The file name template handed to the tool with `-o`. */
  const OutputTemplate := "%(title)s.%(ext)s"

  /** What the message of a failed run starts with. */
  const ToolFailurePrefix := "Error in yt-dlp: "

  /** The message of the error raised when the tool exits non-zero. */
  function ToolFailure(stderr: string): (m: string)
    ensures |m| == |ToolFailurePrefix| + |stderr|
    ensures m[..|ToolFailurePrefix|] == ToolFailurePrefix && m[|ToolFailurePrefix|..] == stderr
  {
    ToolFailurePrefix + stderr
  }

  /** Whether `c` ends a path component on the platform `system` names. */
  predicate IsSeparator(system: string, c: char)
  {
    c == '/' || (system == "Windows" && c == '\\')
  }

  /** The separator `os.path.join` inserts on the platform `system` names. */
  function Separator(system: string): (c: char)
    ensures IsSeparator(system, c)
  {
    if system == "Windows" then '\\' else '/'
  }

  /**
   * `os.path.join(dir, name)` for a relative `name`: a separator is inserted
   * unless `dir` is empty or already ends with one.
   */
  function Join(system: string, dir: string, name: string): (r: string)
    ensures |dir| + |name| <= |r| <= |dir| + |name| + 1
    ensures r[..|dir|] == dir && r[|r| - |name|..] == name
    ensures |r| == |dir| + |name| + 1 <==> dir != [] && !IsSeparator(system, dir[|dir| - 1])
    ensures |r| == |dir| + |name| + 1 ==> r[|dir|] == Separator(system)
  {
    if dir == [] || IsSeparator(system, dir[|dir| - 1]) then dir + name
    else dir + [Separator(system)] + name
  }

  /** The glob `*.<ext>`: the name ends in a dot followed by `ext`. */
  predicate MatchesExt(name: string, ext: string)
  {
    |name| > |ext| && name[|name| - |ext| - 1..] == "." + ext
  }

  /** `Path.glob("*.<ext>")` over a listing: the matching entries, in scan order. */
  function Glob(listing: seq<Entry>, ext: string): (r: seq<Entry>)
    ensures |r| <= |listing|
    ensures forall e :: e in r <==> e in listing && MatchesExt(e.name, ext)
    decreases |listing|
  {
    if listing == [] then []
    else
      var last := listing[|listing| - 1];
      Glob(listing[..|listing| - 1], ext) + (if MatchesExt(last.name, ext) then [last] else [])
  }

  /** One more listed entry: it is appended exactly when it matches. */
  lemma GlobSnoc(s: seq<Entry>, x: Entry, ext: string)
    ensures Glob(s + [x], ext) == Glob(s, ext) + (if MatchesExt(x.name, ext) then [x] else [])
  {
    assert (s + [x])[..|s|] == s;
  }

  /** Globbing a listing split in two globs each part, in order: the scan order is kept. */
  lemma {:induction false} GlobAppend(s: seq<Entry>, t: seq<Entry>, ext: string)
    ensures Glob(s + t, ext) == Glob(s, ext) + Glob(t, ext)
    decreases |t|
  {
    if t == [] {
      assert s + t == s;
    } else {
      var front, last := t[..|t| - 1], t[|t| - 1];
      var tail := if MatchesExt(last.name, ext) then [last] else [];
      calc {
        Glob(s + t, ext);
        { assert s + t == (s + front) + [last]; }
        Glob((s + front) + [last], ext);
        { GlobSnoc(s + front, last, ext); }
        Glob(s + front, ext) + tail;
        { GlobAppend(s, front, ext); }
        (Glob(s, ext) + Glob(front, ext)) + tail;
        Glob(s, ext) + (Glob(front, ext) + tail);
        { GlobSnoc(front, last, ext); assert t == front + [last]; }
        Glob(s, ext) + Glob(t, ext);
      }
    }
  }

  /** Globbing around a matching entry: the matches before it, the entry, then the matches after it. */
  lemma GlobAround(listing: seq<Entry>, ext: string, i: int)
    requires 0 <= i < |listing| && MatchesExt(listing[i].name, ext)
    ensures Glob(listing, ext) == Glob(listing[..i], ext) + [listing[i]] + Glob(listing[i + 1..], ext)
  {
    var x, before, after := listing[i], listing[..i], listing[i + 1..];
    assert listing == (before + [x]) + after;
    GlobAppend(before + [x], after, ext);
    assert (before + [x])[..|before + [x]| - 1] == before;
    assert Glob(before + [x], ext) == Glob(before, ext) + [x];
  }

  /** Every match listed before position `i` is older than `listing[i]` when each earlier match is. */
  lemma EarlierMatchesOlder(listing: seq<Entry>, ext: string, i: int)
    requires 0 <= i < |listing|
    requires forall j :: 0 <= j < i && MatchesExt(listing[j].name, ext) ==> listing[j].mtime < listing[i].mtime
    ensures forall e :: e in Glob(listing[..i], ext) ==> e.mtime < listing[i].mtime
  {
    var before := listing[..i];
    forall e | e in Glob(before, ext) ensures e.mtime < listing[i].mtime {
      var n :| 0 <= n < |before| && before[n] == e;
      assert listing[n] == e;
    }
  }

  /** No glob match is newer than `x` when no listed match is. */
  lemma NoMatchNewer(listing: seq<Entry>, ext: string, x: Entry)
    requires forall e :: e in listing && MatchesExt(e.name, ext) ==> e.mtime <= x.mtime
    ensures forall e :: e in Glob(listing, ext) ==> e.mtime <= x.mtime
  {
  }

  /**
   * In listing terms: when `listing[i]` matches, no match is newer, and every
   * earlier match is strictly older, the glob holds `listing[i]` at its first
   * position of maximal mtime.
   */
  lemma FirstNewestInListing(listing: seq<Entry>, ext: string, i: int)
    requires 0 <= i < |listing| && MatchesExt(listing[i].name, ext)
    requires forall e :: e in listing && MatchesExt(e.name, ext) ==> e.mtime <= listing[i].mtime
    requires forall j :: 0 <= j < i && MatchesExt(listing[j].name, ext) ==> listing[j].mtime < listing[i].mtime
    ensures IsFirstNewest(Glob(listing, ext), |Glob(listing[..i], ext)|)
    ensures Glob(listing, ext)[|Glob(listing[..i], ext)|] == listing[i]
  {
    var x := listing[i];
    GlobAround(listing, ext, i);
    EarlierMatchesOlder(listing, ext, i);
    NoMatchNewer(listing, ext, x);
    var c, early := Glob(listing, ext), Glob(listing[..i], ext);
    forall j | 0 <= j < |early| ensures c[j].mtime < x.mtime {
      assert c[j] == early[j] && early[j] in early;
    }
    forall j | 0 <= j < |c| ensures c[j].mtime <= x.mtime {
      assert c[j] in c;
    }
  }

  /** `k` is the first position of an entry whose mtime no other entry exceeds. */
  ghost predicate IsFirstNewest(s: seq<Entry>, k: int)
  {
    && 0 <= k < |s|
    && (forall j :: 0 <= j < |s| ==> s[j].mtime <= s[k].mtime)
    && (forall j :: 0 <= j < k ==> s[j].mtime < s[k].mtime)
  }

  /**
   * The position of `max(s, key=mtime)`: Python's `max` keeps the running
   * winner and replaces it only on a strictly greater key, so the first of
   * several equal maxima wins.
   */
  function MaxByMtime(s: seq<Entry>): (k: nat)
    requires |s| > 0
    ensures IsFirstNewest(s, k)
    decreases |s|
  {
    if |s| == 1 then 0
    else
      var k := MaxByMtime(s[..|s| - 1]);
      if s[|s| - 1].mtime > s[k].mtime then |s| - 1 else k
  }
}
