/**
 * The two helpers of app/core/utils.py: where downloads go by default, and
 * which MP3 in that directory is the newest.
 */
module Utils {
  import opened Wrappers
  import opened Host

  /** The sub-directory of the user's home that receives every download. */
  const Downloads := "Downloads"

  /** The extension `get_mp3_file` scans for. */
  const Mp3 := "mp3"

  /** The environment variable holding the user's home on the platform `system` names. */
  function HomeVariable(system: string): string
  {
    if system == "Windows" then "USERPROFILE" else "HOME"
  }

  /**
   * `get_default_output_dir()`: the Downloads folder under the user's home,
   * read from `USERPROFILE` on Windows and from `HOME` on every other
   * platform; a missing variable raises `KeyError`.
   */
  function DefaultOutputDir(system: string, env: map<string, string>): (r: Result<string, Error>)
    ensures system == "Windows" && "USERPROFILE" in env ==>
              r == Success(Join(system, env["USERPROFILE"], Downloads))
    ensures system == "Windows" && "USERPROFILE" !in env ==> r == Failure(KeyError("USERPROFILE"))
    ensures system != "Windows" && "HOME" in env ==> r == Success(Join(system, env["HOME"], Downloads))
    ensures system != "Windows" && "HOME" !in env ==> r == Failure(KeyError("HOME"))
  {
    var key := HomeVariable(system);
    if key in env then Success(Join(system, env[key], Downloads)) else Failure(KeyError(key))
  }

  /** The result depends on one environment variable only, and names a folder inside it. */
  lemma DefaultOutputDirReadsOneVariable(system: string, env1: map<string, string>, env2: map<string, string>)
    requires var key := HomeVariable(system);
             (key in env1 <==> key in env2) && (key in env1 ==> env1[key] == env2[key])
    ensures DefaultOutputDir(system, env1) == DefaultOutputDir(system, env2)
    ensures DefaultOutputDir(system, env1).Success? ==>
              var dir := DefaultOutputDir(system, env1).value;
              var home := env1[HomeVariable(system)];
              dir[..|home|] == home && dir[|dir| - |Downloads|..] == Downloads
  {
  }

  /**
   * The selection `get_mp3_file` makes among the entries it scans: the first
   * entry of maximal mtime, provided that mtime exceeds the initial 0 of the
   * running maximum; otherwise nothing.
   */
  function NewestPositive(s: seq<Entry>): Option<Entry>
  {
    if s == [] then None
    else
      var k := MaxByMtime(s);
      if s[k].mtime > 0 then Some(s[k]) else None
  }

  /**
   * What `NewestPositive` selects: nothing exactly when every mtime is at
   * most 0, the empty scan included; otherwise the entry at the first
   * position of maximal mtime, and that mtime is positive.
   */
  lemma NewestPositiveSpec(s: seq<Entry>)
    ensures NewestPositive(s).None? <==> forall j :: 0 <= j < |s| ==> s[j].mtime <= 0
    ensures NewestPositive(s).Some? ==>
              NewestPositive(s).value.mtime > 0 &&
              exists k :: IsFirstNewest(s, k) && s[k] == NewestPositive(s).value
  {
  }

  /** The mtime the running maximum holds once `found` is the selection so far. */
  function LatestMtime(found: Option<Entry>): int
  {
    match found
    case None => 0
    case Some(e) => e.mtime
  }

  /** One more scanned entry: it takes over exactly when it beats the running maximum. */
  lemma NewestPositiveSnoc(s: seq<Entry>, e: Entry)
    ensures LatestMtime(NewestPositive(s)) >= 0
    ensures NewestPositive(s + [e]) ==
              if e.mtime > LatestMtime(NewestPositive(s)) then Some(e) else NewestPositive(s)
  {
  }

  /** The newest MP3 of a listing, as a value: the specification of `GetMp3File`. */
  function NewestMp3(listing: seq<Entry>): (r: Option<Entry>)
    ensures r.Some? ==> r.value in listing && MatchesExt(r.value.name, Mp3) && r.value.mtime > 0
    ensures r.Some? ==> forall e :: e in listing && MatchesExt(e.name, Mp3) ==> e.mtime <= r.value.mtime
    ensures r.None? <==> forall e :: e in listing && MatchesExt(e.name, Mp3) ==> e.mtime <= 0
  {
    var candidates := Glob(listing, Mp3);
    NewestPositiveSpec(candidates);
    var r := NewestPositive(candidates);
    assert r.None? <==> forall e :: e in candidates ==> e.mtime <= 0;
    r
  }

  /**
   * `get_mp3_file(output_folder)`: walk the `*.mp3` entries in scan order,
   * keeping the one whose mtime is strictly greater than the best so far,
   * which starts at 0.
   */
  method GetMp3File(listing: seq<Entry>) returns (newest: Option<Entry>)
    ensures newest == NewestMp3(listing)
  {
    var candidates := Glob(listing, Mp3);
    newest := None;
    var latest := 0;
    for i := 0 to |candidates|
      invariant newest == NewestPositive(candidates[..i])
      invariant latest == LatestMtime(newest)
    {
      var f := candidates[i];
      NewestPositiveSnoc(candidates[..i], f);
      assert candidates[..i + 1] == candidates[..i] + [f];
      if f.mtime > latest {
        latest := f.mtime;
        newest := Some(f);
      }
    }
    assert candidates[..|candidates|] == candidates;
  }

  /**
   * The converse of `NewestPositive`'s contract: the first position of
   * maximal mtime is selected whenever that mtime is positive.
   */
  lemma FirstNewestIsSelected(s: seq<Entry>, k: int)
    requires IsFirstNewest(s, k) && s[k].mtime > 0
    ensures NewestPositive(s) == Some(s[k])
  {
  }

  /** With exactly tied entries the one scanned first wins, so the scan order decides. */
  lemma TieGoesToFirstScanned(a: Entry, b: Entry)
    requires a != b && a.mtime == b.mtime > 0
    ensures NewestPositive([a, b]) == Some(a)
    ensures NewestPositive([b, a]) == Some(b)
  {
  }

  /** No two positions carry the same mtime. */
  ghost predicate DistinctMtimes(s: seq<Entry>)
  {
    forall i, j :: 0 <= i < |s| && 0 <= j < |s| && i != j ==> s[i].mtime != s[j].mtime
  }

  /** When mtimes are distinct, the selection does not depend on the scan order. */
  lemma {:induction false} NewestPositiveOrderIndependent(s: seq<Entry>, t: seq<Entry>)
    requires DistinctMtimes(s) && multiset(s) == multiset(t)
    ensures NewestPositive(s) == NewestPositive(t)
  {
    NewestPositiveSpec(s);
    NewestPositiveSpec(t);
    assert forall x :: x in t <==> x in s by {
      forall x ensures x in t <==> x in s {
        assert x in t <==> x in multiset(t);
        assert x in s <==> x in multiset(s);
      }
    }
    match NewestPositive(s)
    case None =>
      forall j | 0 <= j < |t| ensures t[j].mtime <= 0 {
        assert t[j] in s;
      }
    case Some(e) =>
      var k :| IsFirstNewest(s, k) && s[k] == e;
      assert e in t;
      var m := MaxByMtime(t);
      assert t[m] in s;
      var i :| 0 <= i < |s| && s[i] == t[m];
      var n :| 0 <= n < |t| && t[n] == e;
      assert t[m].mtime == e.mtime;
      assert i == k;
      FirstNewestIsSelected(t, m);
  }

  /**
   * Ties in listing order: the MP3 listed first among those of maximal
   * positive mtime is the one selected.
   */
  lemma NewestMp3InListingOrder(listing: seq<Entry>, i: int)
    requires 0 <= i < |listing| && MatchesExt(listing[i].name, Mp3) && listing[i].mtime > 0
    requires forall e :: e in listing && MatchesExt(e.name, Mp3) ==> e.mtime <= listing[i].mtime
    requires forall j :: 0 <= j < i && MatchesExt(listing[j].name, Mp3) ==> listing[j].mtime < listing[i].mtime
    ensures NewestMp3(listing) == Some(listing[i])
  {
    FirstNewestInListing(listing, Mp3, i);
    FirstNewestIsSelected(Glob(listing, Mp3), |Glob(listing[..i], Mp3)|);
  }

  /** An MP3 newer than every other MP3 of the listing, and newer than 0, is the one selected. */
  lemma StrictlyNewestMp3Selected(listing: seq<Entry>, e: Entry)
    requires e in listing && MatchesExt(e.name, Mp3) && e.mtime > 0
    requires forall x :: x in listing && MatchesExt(x.name, Mp3) && x != e ==> x.mtime < e.mtime
    ensures NewestMp3(listing) == Some(e)
  {
    var r := NewestMp3(listing);
    assert r.Some?;
    assert e.mtime <= r.value.mtime;
  }

  /** The listing of tests/test_main.py:53-78: the mtime-200 song wins. */
  lemma NewestOfThreeSongs()
    ensures NewestMp3([Entry("song1.mp3", 100), Entry("song2.mp3", 200), Entry("song3.mp3", 150)]) ==
            Some(Entry("song2.mp3", 200))
  {
    var s := [Entry("song1.mp3", 100), Entry("song2.mp3", 200), Entry("song3.mp3", 150)];
    assert MatchesExt(s[1].name, Mp3);
    StrictlyNewestMp3Selected(s, s[1]);
  }

  /** The mixed listing of tests/test_main.py:113-139: the text file is not a candidate. */
  lemma MixedListingNewestMp3()
    ensures NewestMp3([Entry("song.mp3", 100), Entry("document.txt", 50), Entry("new_song.mp3", 200)]) ==
            Some(Entry("new_song.mp3", 200))
  {
    var s := [Entry("song.mp3", 100), Entry("document.txt", 50), Entry("new_song.mp3", 200)];
    assert MatchesExt(s[2].name, Mp3) && !MatchesExt(s[1].name, Mp3);
    StrictlyNewestMp3Selected(s, s[2]);
  }

  /** A newer file with another extension never wins. */
  lemma NewerNonMp3Ignored()
    ensures NewestMp3([Entry("a.mp3", 100), Entry("b.mp3", 200), Entry("c.txt", 300)]) ==
            Some(Entry("b.mp3", 200))
  {
    var s := [Entry("a.mp3", 100), Entry("b.mp3", 200), Entry("c.txt", 300)];
    assert MatchesExt(s[1].name, Mp3) && !MatchesExt(s[2].name, Mp3);
    StrictlyNewestMp3Selected(s, s[1]);
  }

  /** A single MP3 with a positive mtime is returned as it is (tests/test_main.py:94-111). */
  lemma OnlyMp3Returned(e: Entry)
    requires MatchesExt(e.name, Mp3) && e.mtime > 0
    ensures NewestMp3([e]) == Some(e)
  {
    StrictlyNewestMp3Selected([e], e);
  }

  /** MP3s that exist but carry mtimes no later than 0 are never selected, whatever else is listed. */
  lemma NonPositiveMtimeNeverSelected(listing: seq<Entry>)
    requires exists e :: e in listing && MatchesExt(e.name, Mp3)
    requires forall e :: e in listing && MatchesExt(e.name, Mp3) ==> e.mtime <= 0
    ensures NewestMp3(listing) == None
    ensures |Glob(listing, Mp3)| > 0
  {
  }
}
