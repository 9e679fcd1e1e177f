/**
 * The scan of the duplicate file scanner (mina.cs, FindAndProcessDuplicates, lines
 * 41-101): every enumerated file is hashed and filed under its hex digest, the buckets
 * holding more than one file are the duplicate sets, and in each set the first file is
 * kept while every later one goes through the action prompt.
 *
 * The enumeration is a sequence of entries, each carrying what hashing that file
 * produced: a digest, an I/O failure (reported and skipped) or any other failure (which
 * ends the whole scan). The dictionary keeps its keys in insertion order. An exception
 * of a file action that no handler of the prompt catches also ends the scan.
 */
module DuplicateScanner {
  import opened HexEncoding
  import opened DuplicateActions

  /** What hashing one file produces. */
  datatype HashResult = Digest(bytes: seq<byte>) | IoFailure | OtherFailure

  /** One enumerated file and the result of hashing it. */
  datatype FileEntry = FileEntry(path: string, hash: HashResult)

  /** A duplicate set: the hex digest and the files that share it, in enumeration order. */
  type DuplicateSet = (string, seq<string>)

  predicate Hashed(e: FileEntry)
  {
    e.hash.Digest?
  }

  /** The dictionary key of a hashed file: its digest in hex. */
  function KeyOf(e: FileEntry): string
    requires Hashed(e)
  {
    Hex(e.hash.bytes)
  }

  /** Some file's hashing failed with an exception other than an I/O error. */
  predicate Fatal(files: seq<FileEntry>)
  {
    exists j :: 0 <= j < |files| && files[j].hash.OtherFailure?
  }

  /** The files filed under `key`, in enumeration order. */
  function Bucket(files: seq<FileEntry>, key: string): seq<string>
  {
    if files == [] then []
    else
      var e := files[|files| - 1];
      Bucket(files[..|files| - 1], key) + (if Hashed(e) && KeyOf(e) == key then [e.path] else [])
  }

  /** The keys of the dictionary. */
  function Keys(files: seq<FileEntry>): set<string>
  {
    if files == [] then {}
    else
      var e := files[|files| - 1];
      Keys(files[..|files| - 1]) + (if Hashed(e) then {KeyOf(e)} else {})
  }

  /** The keys in the order they were first inserted. */
  function KeyOrder(files: seq<FileEntry>): seq<string>
  {
    if files == [] then []
    else
      var init, e := files[..|files| - 1], files[|files| - 1];
      KeyOrder(init) + (if Hashed(e) && KeyOf(e) !in Keys(init) then [KeyOf(e)] else [])
  }

  /** The dictionary after the grouping loop: each key maps to its bucket. */
  function BucketMap(files: seq<FileEntry>): map<string, seq<string>>
  {
    map k | k in Keys(files) :: Bucket(files, k)
  }

  /** The number of files that were hashed. */
  function HashedCount(files: seq<FileEntry>): nat
  {
    if files == [] then 0
    else HashedCount(files[..|files| - 1]) + (if Hashed(files[|files| - 1]) then 1 else 0)
  }

  /** The paths of the enumeration are pairwise different. */
  predicate DistinctPaths(files: seq<FileEntry>)
  {
    forall a, b :: 0 <= a < b < |files| ==> files[a].path != files[b].path
  }

  predicate Distinct<T(==)>(s: seq<T>)
  {
    forall a, b :: 0 <= a < b < |s| ==> s[a] != s[b]
  }

  /** Unfolds the back-recursive definitions at `files + [e]`. */
  lemma Snoc(files: seq<FileEntry>, e: FileEntry)
    ensures (files + [e])[..|files|] == files && (files + [e])[|files|] == e
    ensures Fatal(files + [e]) <==> Fatal(files) || e.hash.OtherFailure?
  {
    var s := files + [e];
    if Fatal(s) && !e.hash.OtherFailure? {
      var j :| 0 <= j < |s| && s[j].hash.OtherFailure?;
      assert files[j] == s[j];
    }
    if Fatal(files) {
      var j :| 0 <= j < |files| && files[j].hash.OtherFailure?;
      assert s[j] == files[j];
    }
    assert s[|files|] == e;
  }

  /** Adding a file changes its own bucket and key set only. */
  lemma BucketStep(files: seq<FileEntry>, e: FileEntry)
    ensures Keys(files + [e]) == Keys(files) + (if Hashed(e) then {KeyOf(e)} else {})
    ensures forall k :: Bucket(files + [e], k) == Bucket(files, k) + (if Hashed(e) && KeyOf(e) == k then [e.path] else [])
  {
    Snoc(files, e);
  }

  /** One step of the grouping loop on the dictionary. */
  lemma BucketMapStep(files: seq<FileEntry>, e: FileEntry)
    ensures !Hashed(e) ==> BucketMap(files + [e]) == BucketMap(files)
    ensures Hashed(e) && KeyOf(e) in BucketMap(files) ==>
      BucketMap(files + [e]) == BucketMap(files)[KeyOf(e) := BucketMap(files)[KeyOf(e)] + [e.path]]
    ensures Hashed(e) && KeyOf(e) !in BucketMap(files) ==>
      BucketMap(files + [e]) == BucketMap(files)[KeyOf(e) := [e.path]]
  {
    var s := files + [e];
    BucketStep(files, e);
    var m, m2 := BucketMap(files), BucketMap(s);
    if !Hashed(e) {
      assert m2.Keys == m.Keys;
      forall k | k in m2
        ensures m2[k] == m[k]
      {
      }
    } else {
      var key := KeyOf(e);
      var target := if key in m then m[key := m[key] + [e.path]] else m[key := [e.path]];
      if key !in m {
        BucketsNonEmpty(files, key);
      }
      assert m2.Keys == target.Keys;
      forall k | k in m2
        ensures m2[k] == target[k]
      {
      }
    }
  }

  /** One step of the grouping loop on the key order. */
  lemma KeyOrderStep(files: seq<FileEntry>, e: FileEntry)
    ensures KeyOrder(files + [e])
            == KeyOrder(files) + (if Hashed(e) && KeyOf(e) !in BucketMap(files) then [KeyOf(e)] else [])
  {
    Snoc(files, e);
  }

  /**
   * The grouping loop (lines 51-72): hashes each file in turn and appends its path to
   * the bucket of its digest, creating the bucket on first sight. An I/O failure skips
   * the file; any other failure leaves the loop and ends the scan.
   */
  method GroupByHash(files: seq<FileEntry>)
    returns (aborted: bool, order: seq<string>, hashes: map<string, seq<string>>)
    ensures aborted <==> Fatal(files)
    ensures !aborted ==> order == KeyOrder(files) && hashes == BucketMap(files)
  {
    order, hashes := [], map[];
    for i := 0 to |files|
      invariant !Fatal(files[..i])
      invariant order == KeyOrder(files[..i]) && hashes == BucketMap(files[..i])
    {
      var e := files[i];
      assert files[..i + 1] == files[..i] + [e];
      Snoc(files[..i], e);
      BucketMapStep(files[..i], e);
      KeyOrderStep(files[..i], e);
      match e.hash {
        case OtherFailure =>
          return true, order, hashes;
        case IoFailure =>
        case Digest(bytes) =>
          var fileHash := HexEncode(bytes);
          if fileHash in hashes {
            hashes := hashes[fileHash := hashes[fileHash] + [e.path]];
          } else {
            order := order + [fileHash];
            hashes := hashes[fileHash := [e.path]];
          }
      }
    }
    assert files[..|files|] == files;
    return false, order, hashes;
  }

  /** A key is present exactly when its bucket is not empty. */
  lemma {:induction false} BucketsNonEmpty(files: seq<FileEntry>, key: string)
    ensures key in Keys(files) <==> Bucket(files, key) != []
  {
    if files != [] {
      BucketsNonEmpty(files[..|files| - 1], key);
    }
  }

  /** Every key is inserted once, and the insertion order lists exactly the keys. */
  lemma {:induction false} KeyOrderExact(files: seq<FileEntry>)
    ensures Distinct(KeyOrder(files))
    ensures forall k :: k in KeyOrder(files) <==> k in Keys(files)
  {
    if files != [] {
      KeyOrderExact(files[..|files| - 1]);
    }
  }

  /** A path is in the bucket of `key` exactly when some hashed file with that path has that key. */
  lemma {:induction false} BucketMembership(files: seq<FileEntry>, key: string, p: string)
    ensures p in Bucket(files, key) <==>
      exists j :: 0 <= j < |files| && files[j].path == p && Hashed(files[j]) && KeyOf(files[j]) == key
  {
    if files != [] {
      var init, e := files[..|files| - 1], files[|files| - 1];
      BucketMembership(init, key, p);
      if exists j :: 0 <= j < |files| && files[j].path == p && Hashed(files[j]) && KeyOf(files[j]) == key {
        var j :| 0 <= j < |files| && files[j].path == p && Hashed(files[j]) && KeyOf(files[j]) == key;
        if j < |init| {
          assert init[j] == files[j];
        }
      }
      if p in Bucket(init, key) {
        var j :| 0 <= j < |init| && init[j].path == p && Hashed(init[j]) && KeyOf(init[j]) == key;
        assert files[j] == init[j];
      }
    }
  }

  /** With distinct paths, no bucket lists a file twice. */
  lemma {:induction false} BucketDistinct(files: seq<FileEntry>, key: string)
    requires DistinctPaths(files)
    ensures Distinct(Bucket(files, key))
  {
    if files != [] {
      var init, e := files[..|files| - 1], files[|files| - 1];
      BucketDistinct(init, key);
      BucketMembership(init, key, e.path);
      forall j | 0 <= j < |init|
        ensures init[j].path != e.path
      {
        assert init[j] == files[j];
      }
    }
  }

  /**
   * With distinct paths, a hashed file is in the bucket of its own digest and in no
   * other, and a file whose hashing failed is in no bucket.
   */
  lemma ExactlyOneBucket(files: seq<FileEntry>, j: nat, key: string)
    requires DistinctPaths(files) && j < |files|
    ensures files[j].path in Bucket(files, key) <==> Hashed(files[j]) && KeyOf(files[j]) == key
  {
    BucketMembership(files, key, files[j].path);
  }

  /** The sum of the bucket sizes over a list of keys. */
  function SizeSum(order: seq<string>, files: seq<FileEntry>): nat
  {
    if order == [] then 0 else |Bucket(files, order[0])| + SizeSum(order[1..], files)
  }

  lemma {:induction false} SizeSumAppend(order: seq<string>, key: string, files: seq<FileEntry>)
    ensures SizeSum(order + [key], files) == SizeSum(order, files) + |Bucket(files, key)|
  {
    if order != [] {
      assert (order + [key])[1..] == order[1..] + [key];
      SizeSumAppend(order[1..], key, files);
    }
  }

  /** Adding a file grows the bucket sizes over distinct keys by one exactly when its key is among them. */
  lemma {:induction false} SizeSumStep(order: seq<string>, files: seq<FileEntry>, e: FileEntry)
    requires Distinct(order)
    ensures SizeSum(order, files + [e]) == SizeSum(order, files) + (if Hashed(e) && KeyOf(e) in order then 1 else 0)
  {
    Snoc(files, e);
    if order != [] {
      assert Distinct(order[1..]);
      SizeSumStep(order[1..], files, e);
      assert order == [order[0]] + order[1..];
    }
  }

  /** Every hashed file is in exactly one bucket, so the bucket sizes add up to the hashed count. */
  lemma {:induction false} BucketSizesAddUp(files: seq<FileEntry>)
    ensures SizeSum(KeyOrder(files), files) == HashedCount(files)
  {
    if files != [] {
      var init, e := files[..|files| - 1], files[|files| - 1];
      assert files == init + [e];
      BucketSizesAddUp(init);
      KeyOrderExact(init);
      SizeSumStep(KeyOrder(init), init, e);
      if Hashed(e) && KeyOf(e) !in Keys(init) {
        var k := KeyOf(e);
        assert KeyOrder(files) == KeyOrder(init) + [k];
        SizeSumAppend(KeyOrder(init), k, files);
        BucketsNonEmpty(init, k);
        assert Bucket(files, k) == Bucket(init, k) + [e.path];
        assert k !in KeyOrder(init);
      } else {
        assert KeyOrder(files) == KeyOrder(init);
        assert Hashed(e) ==> KeyOf(e) in KeyOrder(init);
      }
    }
  }

  /** The filter of line 77: the entries, in key order, whose bucket holds more than one file. */
  function Duplicates(order: seq<string>, hashes: map<string, seq<string>>): (d: seq<DuplicateSet>)
    requires forall k :: k in order ==> k in hashes
    ensures forall s :: s in d <==> s.0 in order && s.1 == hashes[s.0] && |s.1| > 1
  {
    if order == [] then []
    else
      (if |hashes[order[0]]| > 1 then [(order[0], hashes[order[0]])] else [])
      + Duplicates(order[1..], hashes)
  }

  /**
   * The duplicate sets of a scan that ran to the end: a digest with its bucket, for
   * every digest whose bucket holds two or more files.
   */
  function DuplicateSets(files: seq<FileEntry>): (d: seq<DuplicateSet>)
    ensures forall s :: s in d <==> s.0 in Keys(files) && s.1 == Bucket(files, s.0) && |s.1| >= 2
  {
    KeyOrderExact(files);
    Duplicates(KeyOrder(files), BucketMap(files))
  }

  /** The files that go through the prompt: every file of every set except its first. */
  function Tails(d: seq<DuplicateSet>): seq<string>
  {
    if d == [] then [] else (if d[0].1 == [] then [] else d[0].1[1..]) + Tails(d[1..])
  }

  lemma {:induction false} TailsMembership(d: seq<DuplicateSet>, p: string)
    requires p in Tails(d)
    ensures exists j, m :: 0 <= j < |d| && 1 <= m < |d[j].1| && d[j].1[m] == p
  {
    if p in (if d[0].1 == [] then [] else d[0].1[1..]) {
      var m :| 0 <= m < |d[0].1[1..]| && d[0].1[1..][m] == p;
      assert d[0].1[m + 1] == p;
    } else {
      TailsMembership(d[1..], p);
      var j, m :| 0 <= j < |d[1..]| && 1 <= m < |d[1..][j].1| && d[1..][j].1[m] == p;
      assert d[j + 1] == d[1..][j];
    }
  }

  /** With distinct paths, the file a set keeps is never offered to the prompt. */
  lemma KeptFileNeverProcessed(files: seq<FileEntry>, s: DuplicateSet)
    requires DistinctPaths(files)
    requires s in DuplicateSets(files)
    ensures s.1[0] !in Tails(DuplicateSets(files))
  {
    var d := DuplicateSets(files);
    if s.1[0] in Tails(d) {
      TailsMembership(d, s.1[0]);
      var j, m :| 0 <= j < |d| && 1 <= m < |d[j].1| && d[j].1[m] == s.1[0];
      assert d[j] in d;
      var p := s.1[0];
      BucketMembership(files, s.0, p);
      BucketMembership(files, d[j].0, p);
      var a :| 0 <= a < |files| && files[a].path == p && Hashed(files[a]) && KeyOf(files[a]) == s.0;
      var b :| 0 <= b < |files| && files[b].path == p && Hashed(files[b]) && KeyOf(files[b]) == d[j].0;
      assert a == b;
      BucketDistinct(files, s.0);
    }
  }

  /** The file paths of a trace of actions. */
  function Paths(trace: seq<(string, Action)>): (ps: seq<string>)
    ensures |ps| == |trace| && forall k :: 0 <= k < |trace| ==> ps[k] == trace[k].0
  {
    seq(|trace|, k requires 0 <= k < |trace| => trace[k].0)
  }

  /** How the prompts over a list of files stop. */
  datatype RunEnd = AllHandled | PromptHung | ExceptionEscaped

  /** What the prompts over a list of files did, and how they stopped. */
  datatype Run = Run(trace: seq<(string, Action)>, end: RunEnd)

  /** Prompts for the files in turn, sharing one console cursor, until one hangs or throws. */
  function RunPrompts(paths: seq<string>, lines: seq<string>, pos: nat, disk: Disk): (r: Run)
    requires pos <= |lines|
    ensures |r.trace| <= |paths|
    ensures Paths(r.trace) == paths[..|r.trace|]
    ensures r.end == AllHandled <==> |r.trace| == |paths|
    decreases |paths|
  {
    if paths == [] then Run([], AllHandled)
    else
      match Prompt(paths[0], lines, pos, disk)
      case Hung => Run([], PromptHung)
      case Escaped => Run([], ExceptionEscaped)
      case Done(action, next) =>
        var rest := RunPrompts(paths[1..], lines, next, disk);
        Run([(paths[0], action)] + rest.trace, rest.end)
  }

  /** The trace so far, followed by what the remaining prompts do. */
  function After(trace: seq<(string, Action)>, r: Run): Run
  {
    Run(trace + r.trace, r.end)
  }

  lemma TailsStep(d: seq<DuplicateSet>, j: nat)
    requires j < |d| && d[j].1 != []
    ensures Tails(d[j..]) == d[j].1[1..] + Tails(d[j + 1..])
  {
    assert d[j..][1..] == d[j + 1..];
  }

  /** One prompt of the run: a hang or an exception stops the run there, otherwise the action is traced. */
  lemma RunStep(trace: seq<(string, Action)>, paths: seq<string>, i: nat, rest: seq<string>,
                lines: seq<string>, pos: nat, disk: Disk)
    requires i < |paths| && pos <= |lines|
    ensures Prompt(paths[i], lines, pos, disk).Hung? ==>
      After(trace, RunPrompts(paths[i..] + rest, lines, pos, disk)) == Run(trace, PromptHung)
    ensures Prompt(paths[i], lines, pos, disk).Escaped? ==>
      After(trace, RunPrompts(paths[i..] + rest, lines, pos, disk)) == Run(trace, ExceptionEscaped)
    ensures Prompt(paths[i], lines, pos, disk).Done? ==>
      var o := Prompt(paths[i], lines, pos, disk);
      After(trace, RunPrompts(paths[i..] + rest, lines, pos, disk))
      == After(trace + [(paths[i], o.action)], RunPrompts(paths[i + 1..] + rest, lines, o.next, disk))
  {
    var all := paths[i..] + rest;
    assert all[0] == paths[i] && all[1..] == paths[i + 1..] + rest;
    assert trace + [] == trace;
  }

  /**
   * The processing loops (lines 88-100): for each set, keep the first file and prompt
   * for every later one, in order. Once a prompt hangs or throws nothing further happens.
   */
  method ProcessDuplicateSets(d: seq<DuplicateSet>, lines: seq<string>, disk: Disk)
    returns (trace: seq<(string, Action)>, end: RunEnd)
    requires forall j :: 0 <= j < |d| ==> |d[j].1| > 1
    ensures Run(trace, end) == RunPrompts(Tails(d), lines, 0, disk)
    ensures end == AllHandled ==> Paths(trace) == Tails(d)
  {
    trace := [];
    var pos: nat := 0;
    ghost var goal := RunPrompts(Tails(d), lines, 0, disk);
    for j := 0 to |d|
      invariant pos <= |lines|
      invariant goal == After(trace, RunPrompts(Tails(d[j..]), lines, pos, disk))
    {
      var filePaths := d[j].1;
      TailsStep(d, j);
      for i := 1 to |filePaths|
        invariant pos <= |lines|
        invariant goal == After(trace, RunPrompts(filePaths[i..] + Tails(d[j + 1..]), lines, pos, disk))
      {
        RunStep(trace, filePaths, i, Tails(d[j + 1..]), lines, pos, disk);
        var outcome := ProcessDuplicateFile(filePaths[i], lines, pos, disk);
        if outcome.Hung? {
          return trace, PromptHung;
        } else if outcome.Escaped? {
          return trace, ExceptionEscaped;
        }
        trace := trace + [(filePaths[i], outcome.action)];
        pos := outcome.next;
      }
      assert filePaths[|filePaths|..] + Tails(d[j + 1..]) == Tails(d[j + 1..]);
    }
    assert trace + [] == trace;
    end := AllHandled;
  }

  /**
   * How a scan ends: aborted by an exception, with the actions taken before it; with no
   * duplicate sets; or with the sets processed, the actions taken and whether a prompt
   * hung on exhausted input.
   */
  datatype ScanReport =
    | Aborted(done: seq<(string, Action)>)
    | NoDuplicates
    | Processed(sets: seq<DuplicateSet>, trace: seq<(string, Action)>, hung: bool)

  /**
   * The whole scan: group, then either report that there are no duplicates or process
   * the duplicate sets. A fatal hashing failure ends the scan before any prompt; an
   * exception escaping a file action ends it after the actions taken so far.
   */
  method FindAndProcessDuplicates(files: seq<FileEntry>, lines: seq<string>, disk: Disk)
    returns (report: ScanReport)
    ensures Fatal(files) ==> report == Aborted([])
    ensures report.NoDuplicates? <==> !Fatal(files) && DuplicateSets(files) == []
    ensures !Fatal(files) ==>
      var run := RunPrompts(Tails(DuplicateSets(files)), lines, 0, disk);
      && (report.Aborted? <==> run.end == ExceptionEscaped)
      && (report.Aborted? ==> report.done == run.trace)
      && (report.Processed? ==>
            report.sets == DuplicateSets(files) && report.trace == run.trace
            && (report.hung <==> run.end == PromptHung))
  {
    var aborted, order, hashes := GroupByHash(files);
    if aborted {
      return Aborted([]);
    }
    KeyOrderExact(files);
    var duplicates := Duplicates(order, hashes);
    if duplicates == [] {
      return NoDuplicates;
    }
    var trace, end := ProcessDuplicateSets(duplicates, lines, disk);
    if end == ExceptionEscaped {
      return Aborted(trace);
    }
    return Processed(duplicates, trace, end == PromptHung);
  }
}
