/** The pure part of "Load Songs": from the result of walking a directory
    tree, keep the files whose extension is exactly `.mp3`, join each to its
    directory with `/`, and turn every backslash into a forward slash. The
    walk itself (and its filesystem-dependent order) is an input here. */
module PathScan {

  /** One step of the directory walk: a directory and the file names in it. */
  datatype WalkEntry = WalkEntry(root: string, files: seq<string>)

  /** Index of the last occurrence of `c` in `s`, or -1 when there is none. */
  function LastIndexOf(s: string, c: char): (i: int)
    ensures -1 <= i < |s|
    ensures i >= 0 ==> s[i] == c
    ensures forall j :: i < j < |s| ==> s[j] != c
    decreases |s|
  {
    if |s| == 0 then -1
    else if s[|s| - 1] == c then |s| - 1
    else LastIndexOf(s[..|s| - 1], c)
  }

  predicate AllDots(s: string)
  {
    forall k :: 0 <= k < |s| ==> s[k] == '.'
  }

  /** The last path component has an extension: something other than a
      dot lies between the last separator and the last dot. */
  predicate HasExt(p: string)
  {
    exists k :: LastIndexOf(p, '/') < k < LastIndexOf(p, '.') && p[k] != '.'
  }

  /** Where POSIX `splitext` starts the extension: at the last dot after the
      last separator, unless everything between that separator and the dot
      is dots (a hidden file such as `.mp3` has no extension); `|p|` when
      there is no extension. */
  function ExtStart(p: string): (e: nat)
    ensures e <= |p|
    ensures e < |p| ==> p[e] == '.'
    ensures forall k :: e < k < |p| ==> p[k] != '.' && p[k] != '/'
    ensures e < |p| <==> HasExt(p)
    ensures e < |p| ==> e == LastIndexOf(p, '.')
  {
    var sepIndex := LastIndexOf(p, '/');
    var dotIndex := LastIndexOf(p, '.');
    if dotIndex > sepIndex && !AllDots(p[sepIndex + 1..dotIndex]) then dotIndex else |p|
  }

  /** `os.path.splitext`: the name split into root and extension; the
      extension is empty or a dot followed by neither dot nor separator. */
  function SplitExt(p: string): (parts: (string, string))
    ensures parts.0 + parts.1 == p
    ensures |parts.1| == 0 || parts.1[0] == '.'
    ensures forall k :: 0 < k < |parts.1| ==> parts.1[k] != '.' && parts.1[k] != '/'
    ensures 0 < |parts.1| <==> HasExt(p)
    ensures 0 < |parts.1| ==> |parts.0| == LastIndexOf(p, '.')
  {
    var e := ExtStart(p);
    (p[..e], p[e..])
  }

  /** The filter of the scan: the extension is `.mp3`, case-sensitively. */
  predicate IsMp3(name: string)
  {
    SplitExt(name).1 == ".mp3"
  }

  /** For a bare file name (no separator): it is kept exactly when it ends in
      `.mp3` and something other than dots comes before that suffix. */
  lemma IsMp3Iff(name: string)
    requires forall k :: 0 <= k < |name| ==> name[k] != '/'
    ensures IsMp3(name) <==>
      |name| > 4 && name[|name| - 4..] == ".mp3" && !AllDots(name[..|name| - 4])
  {
    var dotIndex := LastIndexOf(name, '.');
    assert LastIndexOf(name, '/') == -1;
    if |name| > 4 && name[|name| - 4..] == ".mp3" {
      assert name[|name| - 4] == '.';
      assert dotIndex == |name| - 4;
    }
    if IsMp3(name) {
      assert dotIndex > -1;
      assert name[dotIndex..] == ".mp3";
    }
  }

  /** `str.replace("\\", "/")`: every backslash becomes a forward slash. */
  function Normalise(p: string): (q: string)
    ensures |q| == |p|
    ensures forall k :: 0 <= k < |p| && p[k] != '\\' ==> q[k] == p[k]
    ensures forall k :: 0 <= k < |p| && p[k] == '\\' ==> q[k] == '/'
    ensures forall k :: 0 <= k < |q| ==> q[k] != '\\'
  {
    seq(|p|, k requires 0 <= k < |p| => if p[k] == '\\' then '/' else p[k])
  }

  predicate NoBackslash(p: string)
  {
    forall k :: 0 <= k < |p| ==> p[k] != '\\'
  }

  /** Normalising twice is normalising once; a path without backslashes is
      left as it is. */
  lemma NormaliseIdempotent(p: string)
    ensures Normalise(Normalise(p)) == Normalise(p)
    ensures NoBackslash(p) <==> Normalise(p) == p
  {
  }

  /** The path recorded for file `name` found in directory `root`. */
  function TrackPath(root: string, name: string): (path: string)
  {
    Normalise(root + "/" + name)
  }

  /** The walk's filter: the file name's extension is `.mp3`. The scan
      below is stated for any filter `keep`, so that its order, membership
      and count properties do not depend on how the extension is found. */
  const Mp3Filter: string -> bool := IsMp3

  /** What one file contributes: its path when the filter keeps it. */
  function Keep(keep: string -> bool, root: string, name: string): (kept: seq<string>)
  {
    if keep(name) then [TrackPath(root, name)] else []
  }

  /** The tracks of one directory, in the order the walk listed its files. */
  function ScanDir(keep: string -> bool, root: string, files: seq<string>): (tracks: seq<string>)
    ensures |tracks| <= |files|
    ensures forall k :: 0 <= k < |tracks| ==> NoBackslash(tracks[k])
    decreases |files|
  {
    if |files| == 0 then []
    else Keep(keep, root, files[0]) + ScanDir(keep, root, files[1..])
  }

  function FileCount(walk: seq<WalkEntry>): (n: nat)
  {
    if |walk| == 0 then 0 else |walk[0].files| + FileCount(walk[1..])
  }

  /** The new playlist built from a walk, directory after directory; the
      program scans with `Mp3Filter`. */
  function Scan(keep: string -> bool, walk: seq<WalkEntry>): (tracks: seq<string>)
    ensures |tracks| <= FileCount(walk)
    ensures forall k :: 0 <= k < |tracks| ==> NoBackslash(tracks[k])
    decreases |walk|
  {
    if |walk| == 0 then []
    else ScanDir(keep, walk[0].root, walk[0].files) + Scan(keep, walk[1..])
  }

  /** Walk order is kept inside a directory: scanning a file list in two
      pieces gives the two results one after the other. */
  lemma {:induction false} ScanDirAppend(keep: string -> bool, root: string, f: seq<string>, g: seq<string>)
    ensures ScanDir(keep, root, f + g) == ScanDir(keep, root, f) + ScanDir(keep, root, g)
    decreases |f|
  {
    if |f| == 0 {
      assert f + g == g;
    } else {
      assert (f + g)[0] == f[0];
      assert (f + g)[1..] == f[1..] + g;
      ScanDirAppend(keep, root, f[1..], g);
    }
  }

  /** Walk order is kept across directories: the tracks of an earlier part of
      the walk come before those of a later part. */
  lemma {:induction false} ScanAppend(keep: string -> bool, v: seq<WalkEntry>, w: seq<WalkEntry>)
    ensures Scan(keep, v + w) == Scan(keep, v) + Scan(keep, w)
    decreases |v|
  {
    if |v| == 0 {
      assert v + w == w;
    } else {
      assert (v + w)[0] == v[0];
      assert (v + w)[1..] == v[1..] + w;
      ScanAppend(keep, v[1..], w);
    }
  }

  /** A directory contributes exactly the paths of the files it keeps. */
  lemma {:induction false} ScanDirMembers(keep: string -> bool, root: string, files: seq<string>, p: string)
    ensures p in ScanDir(keep, root, files) <==>
      exists j :: 0 <= j < |files| && keep(files[j]) && p == TrackPath(root, files[j])
    decreases |files|
  {
    if |files| > 0 {
      ScanDirMembers(keep, root, files[1..], p);
      if p in ScanDir(keep, root, files[1..]) {
        var j :| 0 <= j < |files[1..]| && keep(files[1..][j]) && p == TrackPath(root, files[1..][j]);
        assert files[j + 1] == files[1..][j];
      }
      if exists j :: 0 <= j < |files| && keep(files[j]) && p == TrackPath(root, files[j]) {
        var j :| 0 <= j < |files| && keep(files[j]) && p == TrackPath(root, files[j]);
        if j > 0 {
          assert files[1..][j - 1] == files[j];
        }
      }
    }
  }

  /** The file at position `j` of directory `i` of the walk is kept, and
      its path is `p`. */
  ghost predicate FoundAt(keep: string -> bool, walk: seq<WalkEntry>, i: int, j: int, p: string)
  {
    && 0 <= i < |walk|
    && 0 <= j < |walk[i].files|
    && keep(walk[i].files[j])
    && p == TrackPath(walk[i].root, walk[i].files[j])
  }

  /** The new playlist holds exactly the paths of the files of the walk
      that the filter keeps, and nothing else. */
  lemma {:induction false} ScanMembers(keep: string -> bool, walk: seq<WalkEntry>, p: string)
    ensures p in Scan(keep, walk) <==> exists i, j :: FoundAt(keep, walk, i, j, p)
    decreases |walk|
  {
    if |walk| > 0 {
      ScanMembers(keep, walk[1..], p);
      ScanDirMembers(keep, walk[0].root, walk[0].files, p);
      if p in ScanDir(keep, walk[0].root, walk[0].files) {
        var j :| 0 <= j < |walk[0].files| && keep(walk[0].files[j])
          && p == TrackPath(walk[0].root, walk[0].files[j]);
        assert FoundAt(keep, walk, 0, j, p);
      }
      if p in Scan(keep, walk[1..]) {
        var i, j :| FoundAt(keep, walk[1..], i, j, p);
        assert FoundAt(keep, walk, i + 1, j, p);
      }
      if exists i, j :: FoundAt(keep, walk, i, j, p) {
        var i, j :| FoundAt(keep, walk, i, j, p);
        if i > 0 {
          assert FoundAt(keep, walk[1..], i - 1, j, p);
        } else {
          assert p in ScanDir(keep, walk[0].root, walk[0].files);
        }
      }
    }
  }

  predicate AllKept(keep: string -> bool, files: seq<string>)
  {
    forall j :: 0 <= j < |files| ==> keep(files[j])
  }

  lemma AllKeptCons(keep: string -> bool, files: seq<string>)
    requires 0 < |files|
    ensures AllKept(keep, files) <==> keep(files[0]) && AllKept(keep, files[1..])
  {
    if keep(files[0]) && AllKept(keep, files[1..]) {
      forall j | 0 <= j < |files| ensures keep(files[j]) {
        if j > 0 { assert files[j] == files[1..][j - 1]; }
      }
    }
  }

  /** A directory loses no file exactly when the filter keeps every file. */
  lemma {:induction false} ScanDirKeepsAll(keep: string -> bool, root: string, files: seq<string>)
    ensures |ScanDir(keep, root, files)| == |files| <==> AllKept(keep, files)
    decreases |files|
  {
    if |files| > 0 {
      ScanDirKeepsAll(keep, root, files[1..]);
      AllKeptCons(keep, files);
    }
  }

  /** The scan keeps every file of the walk exactly when the filter keeps
      all of them; otherwise the playlist is strictly shorter. */
  lemma {:induction false} ScanKeepsAll(keep: string -> bool, walk: seq<WalkEntry>)
    ensures |Scan(keep, walk)| == FileCount(walk) <==>
      forall i :: 0 <= i < |walk| ==> AllKept(keep, walk[i].files)
    decreases |walk|
  {
    if |walk| > 0 {
      ScanKeepsAll(keep, walk[1..]);
      ScanDirKeepsAll(keep, walk[0].root, walk[0].files);
      if forall i :: 0 <= i < |walk| ==> AllKept(keep, walk[i].files) {
        forall i | 0 <= i < |walk[1..]| ensures AllKept(keep, walk[1..][i].files) {
          assert walk[1..][i] == walk[i + 1];
        }
      }
      if |Scan(keep, walk)| == FileCount(walk) {
        forall i | 0 <= i < |walk| ensures AllKept(keep, walk[i].files) {
          if i > 0 {
            assert walk[i] == walk[1..][i - 1];
          }
        }
      }
    }
  }

  /** Every stored path is already normalised: normalising it again changes
      nothing. */
  lemma ScanIsNormalised(keep: string -> bool, walk: seq<WalkEntry>)
    ensures forall k :: 0 <= k < |Scan(keep, walk)| ==>
      Normalise(Scan(keep, walk)[k]) == Scan(keep, walk)[k]
  {
  }

  /** A name is kept when its stem holds something other than dots: the
      `.mp3` suffix of `song.mp3` or `.hidden.mp3` is an extension. */
  lemma KeptWithStem(stem: string)
    requires forall k :: 0 <= k < |stem| ==> stem[k] != '/'
    requires !AllDots(stem)
    ensures IsMp3(stem + ".mp3")
  {
    var name := stem + ".mp3";
    assert name[..|name| - 4] == stem;
    assert name[|name| - 4..] == ".mp3";
    IsMp3Iff(name);
  }

  /** A name made of dots and `.mp3` (`.mp3`, `..mp3`) is a hidden file with
      no extension, so it is dropped. */
  lemma DroppedWhenAllDots(stem: string)
    requires AllDots(stem)
    ensures !IsMp3(stem + ".mp3")
  {
  }

  /** The match is case-sensitive: an upper-case `.MP3` is dropped. */
  lemma DroppedWhenUpperCase(stem: string)
    requires forall k :: 0 <= k < |stem| ==> stem[k] != '/'
    ensures !IsMp3(stem + ".MP3")
  {
  }

  /** Only what follows the last dot counts: `song.mp3.bak` is dropped. */
  lemma DroppedWhenSuffixed(stem: string)
    requires forall k :: 0 <= k < |stem| ==> stem[k] != '/'
    ensures !IsMp3(stem + ".mp3.bak")
  {
  }
}
