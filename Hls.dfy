/** HLS output housekeeping of the detection service
    (yolo-service/modules/hls_manager.py): the playlist sanity check (the
    EXTM3U tag of section 4.3.1.1 of RFC 8216 and a segment reference) and the
    choice of which old segments to delete. */
module Hls {
  import opened Common

  // ---------------------------------------------------------------------
  // Substrings around a multi-character marker

  /** `p` occurs in `a + p + b`. */
  lemma {:induction false} ContainsInfix(a: string, p: string, b: string)
    ensures Contains(a + p + b, p)
  {
    if a == [] {
      assert (a + p + b)[..|p|] == p;
    } else {
      ContainsInfix(a[1..], p, b);
      assert (a + p + b)[1..] == a[1..] + p + b;
    }
  }

  /** `is_playlist_valid`: the file is readable and mentions both the EXTM3U
      tag and a ".ts" segment somewhere, not necessarily on the first line.
      `None` stands for a file that cannot be read. */
  predicate IsPlaylistValid(content: Option<string>)
  {
    content.Some? && Contains(content.value, "#EXTM3U") && Contains(content.value, ".ts")
  }

  /** The tag need not open the playlist: any text before it, between and
      after still makes a valid playlist; an unreadable one is never valid. */
  lemma PlaylistValidAnywhere(before: string, between: string, after: string)
    ensures IsPlaylistValid(Some(before + "#EXTM3U" + between + ".ts" + after))
    ensures !IsPlaylistValid(None)
  {
    var s := before + "#EXTM3U" + between + ".ts" + after;
    ContainsInfix(before, "#EXTM3U", between + ".ts" + after);
    assert s == before + "#EXTM3U" + (between + ".ts" + after);
    ContainsInfix(before + "#EXTM3U" + between, ".ts", after);
  }

  /** `s.split(p)[-1]`: the text after the last occurrence of the marker, for
      markers such as "stream" that cannot overlap themselves. */
  function AfterLast(s: string, p: string): (r: string)
    requires p != []
    ensures |r| <= |s| && r == s[|s| - |r|..]
    ensures |r| < |s| ==> |r| + |p| <= |s| && s[|s| - |r| - |p|..|s| - |r|] == p
  {
    if |s| >= |p| && s[|s| - |p|..] == p then []
    else if s == [] then []
    else AfterLast(s[..|s| - 1], p) + [s[|s| - 1]]
  }

  /** `s.split(p)[0]`: the text before the first occurrence of the marker. */
  function BeforeFirst(s: string, p: string): (r: string)
    requires p != []
    ensures |r| <= |s| && r == s[..|r|]
    ensures |r| < |s| ==> StartsWith(s[|r|..], p)
  {
    if StartsWith(s, p) then []
    else if s == [] then []
    else [s[0]] + BeforeFirst(s[1..], p)
  }

  lemma AfterLastStep(s: string, p: string)
    requires p != [] && s != [] && !(|s| >= |p| && s[|s| - |p|..] == p)
    ensures AfterLast(s, p) == AfterLast(s[..|s| - 1], p) + [s[|s| - 1]]
  {
  }

  lemma {:induction false} AfterLastOf(a: string, p: string, b: string)
    requires p != [] && p[|p| - 1] !in b
    ensures AfterLast(a + p + b, p) == b
  {
    var s := a + p + b;
    if b == [] {
      assert s == a + p;
      assert s[|s| - |p|..] == p;
    } else {
      var init := b[..|b| - 1];
      var c := b[|b| - 1];
      assert b == init + [c];
      assert p[|p| - 1] !in init;
      AfterLastOf(a, p, init);
      assert s == (a + p + init) + [c];
      assert s[..|s| - 1] == a + p + init;
      assert s[|s| - |p|..] != p by {
        assert s[|s| - 1] == c;
        assert c != p[|p| - 1];
      }
      AfterLastStep(s, p);
    }
  }

  lemma {:induction false} BeforeFirstOf(a: string, p: string, b: string)
    requires p != [] && p[0] !in a
    ensures BeforeFirst(a + p + b, p) == a
  {
    var s := a + p + b;
    if a == [] {
      assert s[..|p|] == p;
    } else {
      assert s[0] == a[0] != p[0];
      assert !StartsWith(s, p);
      BeforeFirstOf(a[1..], p, b);
      assert s[1..] == a[1..] + p + b;
      BeforeFirstStep(s, p);
      assert [a[0]] + a[1..] == a;
    }
  }

  lemma BeforeFirstStep(s: string, p: string)
    requires p != [] && s != [] && !StartsWith(s, p)
    ensures BeforeFirst(s, p) == [s[0]] + BeforeFirst(s[1..], p)
  {
  }

  // ---------------------------------------------------------------------
  // Segment ordering

  /** The sort key of a segment file: the integer between the last "stream"
      and the first ".ts"; None where int() raises. */
  function SegmentIndex(path: string): Option<int>
  {
    PyInt(BeforeFirst(AfterLast(path, "stream"), ".ts"))
  }

  /** The files ffmpeg writes, `<dir>/stream<n>.ts`, sort by n itself. */
  lemma SegmentIndexOfName(prefix: string, n: nat)
    ensures SegmentIndex(prefix + "stream" + NatToDecimal(n) + ".ts") == Some(n)
  {
    var d := NatToDecimal(n);
    var tail := d + ".ts";
    var name := prefix + "stream" + tail;
    assert name == prefix + "stream" + NatToDecimal(n) + ".ts";
    assert 'm' !in tail by {
      forall k | 0 <= k < |tail| ensures tail[k] != 'm' {
        if k < |d| { assert IsDigit(d[k]); }
      }
    }
    assert "stream"[5] == 'm';
    AfterLastOf(prefix, "stream", tail);
    assert '.' !in d by {
      forall k | 0 <= k < |d| ensures d[k] != '.' { assert IsDigit(d[k]); }
    }
    assert ".ts"[0] == '.';
    BeforeFirstOf(d, ".ts", "");
    assert d + ".ts" + "" == tail;
    assert BeforeFirst(AfterLast(name, "stream"), ".ts") == d;
    PyIntOfDecimal(n);
  }

  /** A file name with its sort key. */
  type Entry = (string, int)

  /** Every file with its key, or None as soon as one key cannot be read
      (the key function raising inside `sort`). */
  function KeysOf(files: seq<string>, key: string -> Option<int>): (r: Option<seq<Entry>>)
    ensures r.Some? <==> forall i :: 0 <= i < |files| ==> key(files[i]).Some?
    ensures r.Some? ==> |r.value| == |files|
    ensures r.Some? ==> forall i :: 0 <= i < |files| ==>
      r.value[i].0 == files[i] && key(files[i]) == Some(r.value[i].1)
  {
    if files == [] then Some([])
    else
      var k := key(files[0]);
      var rest := KeysOf(files[1..], key);
      assert forall i :: 1 <= i < |files| ==> files[i] == files[1..][i - 1];
      if k.None? || rest.None? then None
      else Some([(files[0], k.value)] + rest.value)
  }

  predicate SortedByKey(s: seq<Entry>)
  {
    forall i, j :: 0 <= i < j < |s| ==> s[i].1 <= s[j].1
  }

  function Insert(x: Entry, s: seq<Entry>): (r: seq<Entry>)
    ensures multiset(r) == multiset(s) + multiset{x}
    ensures forall e :: e in r ==> e == x || e in s
    ensures SortedByKey(s) ==> SortedByKey(r)
  {
    if s == [] then [x]
    else if x.1 <= s[0].1 then [x] + s
    else
      var rest := Insert(x, s[1..]);
      assert s == [s[0]] + s[1..];
      var r := [s[0]] + rest;
      assert SortedByKey(s) ==> SortedByKey(r) by {
        if SortedByKey(s) {
          forall j | 0 < j < |r| ensures s[0].1 <= r[j].1 {
            assert r[j] in rest;
          }
        }
      }
      r
  }

  /** `list.sort(key=...)`: ascending by key, stable for equal keys. */
  function SortByKey(s: seq<Entry>): (r: seq<Entry>)
    ensures SortedByKey(r)
    ensures multiset(r) == multiset(s)
  {
    if s == [] then []
    else
      assert s == [s[0]] + s[1..];
      Insert(s[0], SortByKey(s[1..]))
  }

  /** Python's `s[:stop]` for an integer `stop`, negative values counting
      from the end. */
  function SliceTo<T>(s: seq<T>, stop: int): (r: seq<T>)
    ensures |r| <= |s| && r == s[..|r|]
    ensures stop >= 0 ==> |r| == if stop <= |s| then stop else |s|
    ensures stop < 0 ==> |r| == if -stop <= |s| then |s| + stop else 0
  {
    if stop >= 0 then (if stop <= |s| then s[..stop] else s)
    else if -stop <= |s| then s[..|s| + stop] else []
  }

  function Names(entries: seq<Entry>): (names: seq<string>)
    ensures |names| == |entries| && forall i :: 0 <= i < |entries| ==> names[i] == entries[i].0
  {
    if entries == [] then [] else [entries[0].0] + Names(entries[1..])
  }

  /** The files `cleanup_old_segments` deletes: none when a key cannot be read
      or when there are at most keep_count files; otherwise `sorted[:-keep_count]`. */
  function CleanupPlan(files: seq<string>, keepCount: int, key: string -> Option<int>): seq<string>
  {
    match KeysOf(files, key)
    case None => []
    case Some(entries) =>
      var sorted := SortByKey(entries);
      if |sorted| > keepCount then Names(SliceTo(sorted, -keepCount)) else []
  }

  /** With more files than it keeps (and a positive keep count), exactly the
      surplus is deleted, and each deleted segment's index is no larger than
      any kept one's. */
  lemma CleanupDeletesOldest(files: seq<string>, keepCount: int, key: string -> Option<int>)
    requires 0 < keepCount < |files|
    requires forall i :: 0 <= i < |files| ==> key(files[i]).Some?
    ensures var plan := CleanupPlan(files, keepCount, key);
      var sorted := SortByKey(KeysOf(files, key).value);
      |plan| == |files| - keepCount
      && plan == Names(sorted[..|files| - keepCount])
      && forall i, j :: 0 <= i < |files| - keepCount <= j < |files| ==> sorted[i].1 <= sorted[j].1
  {
    var keys := KeysOf(files, key);
    assert keys.Some?;
    var entries := keys.value;
    var sorted := SortByKey(entries);
    assert |sorted| == |files| by {
      assert |multiset(sorted)| == |multiset(entries)|;
    }
    var kept := SliceTo(sorted, -keepCount);
    assert kept == sorted[..|files| - keepCount];
    assert CleanupPlan(files, keepCount, key) == Names(kept);
  }

  /** `[:-0]` is empty: a keep count of 0 deletes nothing. */
  lemma KeepZeroDeletesNothing(files: seq<string>, key: string -> Option<int>)
    ensures CleanupPlan(files, 0, key) == []
  {
  }

  /** Nothing is deleted when every file is kept or when a name has no index. */
  lemma CleanupNoOp(files: seq<string>, keepCount: int, key: string -> Option<int>)
    requires |files| <= keepCount || exists i :: 0 <= i < |files| && key(files[i]).None?
    ensures CleanupPlan(files, keepCount, key) == []
  {
    var keys := KeysOf(files, key);
    if keys.Some? {
      assert |multiset(SortByKey(keys.value))| == |multiset(keys.value)|;
    }
  }

  function Without(files: seq<string>, gone: seq<string>): (r: seq<string>)
    ensures forall f :: f in r <==> f in files && f !in gone
  {
    if files == [] then []
    else (if files[0] in gone then [] else [files[0]]) + Without(files[1..], gone)
  }

  class HlsManager {
    const outputDir: string
    const keepCount: int
    /** The `stream*.ts` files in the output directory, in the order the
        directory listing returns them. */
    var segmentFiles: seq<string>

    constructor (outputDirArg: string, keepCountArg: int, files: seq<string>)
      ensures outputDir == outputDirArg && keepCount == keepCountArg && segmentFiles == files
    {
      outputDir := outputDirArg;
      keepCount := keepCountArg;
      segmentFiles := files;
    }

    /** `cleanup_old_segments`: deletes the planned files and returns how
        many it deleted. */
    method CleanupOldSegments() returns (deleted: int)
      modifies this
      ensures deleted == |CleanupPlan(old(segmentFiles), keepCount, SegmentIndex)|
      ensures segmentFiles == Without(old(segmentFiles), CleanupPlan(old(segmentFiles), keepCount, SegmentIndex))
    {
      var toDelete := CleanupPlan(segmentFiles, keepCount, SegmentIndex);
      RemoveAll(toDelete);
      deleted := |toDelete|;
    }

    /** The `os.remove` loop over the files to delete. */
    method RemoveAll(toDelete: seq<string>)
      modifies this
      ensures segmentFiles == Without(old(segmentFiles), toDelete)
    {
      var listed := segmentFiles;
      WithoutNothing(listed);
      assert toDelete[..0] == [];
      var i := 0;
      while i < |toDelete|
        invariant 0 <= i <= |toDelete|
        invariant segmentFiles == Without(listed, toDelete[..i])
      {
        assert toDelete[..i + 1] == toDelete[..i] + [toDelete[i]];
        segmentFiles := Without(segmentFiles, [toDelete[i]]);
        WithoutTwice(listed, toDelete[..i], [toDelete[i]]);
        i := i + 1;
      }
      assert toDelete[..i] == toDelete;
    }
  }

  lemma {:induction false} WithoutNothing(files: seq<string>)
    ensures Without(files, []) == files
  {
    if files != [] {
      WithoutNothing(files[1..]);
      assert files == [files[0]] + files[1..];
    }
  }

  lemma {:induction false} WithoutTwice(files: seq<string>, a: seq<string>, b: seq<string>)
    ensures Without(Without(files, a), b) == Without(files, a + b)
  {
    if files != [] {
      var f := files[0];
      WithoutTwice(files[1..], a, b);
      var wa := Without(files, a);
      var tail := Without(files[1..], a);
      assert wa == (if f in a then [] else [f]) + tail;
      if f !in a {
        assert wa[0] == f && wa[1..] == tail;
      } else {
        assert wa == tail;
      }
    }
  }
}
