/** What an ingest pass reports and names, in terms of the files the walk yields and the index before
    (crates/labello-storage/src/ingest.rs). */
module IngestReport {
  import opened Domain
  import opened Ingest

  // ---------------------------------------------------------------------------------------------
  // The walk
  // ---------------------------------------------------------------------------------------------

  /** The files of the existing roots, in the order they are visited. */
  function Walk(fs: seq<Root>): seq<File> {
    if fs == [] then [] else Walk(fs[..|fs| - 1]) + FilesOf(fs[|fs| - 1])
  }

  predicate Reads(file: File, hash: Hash) {
    file.Image? && file.content == Some(hash)
  }

  function FirstRead(walk: seq<File>, hash: Hash): Option<File> {
    if walk == [] then None
    else
      var before, last := FirstRead(walk[..|walk| - 1], hash), walk[|walk| - 1];
      if before.Some? then before else if Reads(last, hash) then Some(last) else None
  }

  lemma {:induction false} FirstReadIsFirst(walk: seq<File>, hash: Hash) returns (i: nat)
    ensures i <= |walk| && forall j :: 0 <= j < i ==> !Reads(walk[j], hash)
    ensures FirstRead(walk, hash) == if i < |walk| then Some(walk[i]) else None
    ensures i < |walk| ==> Reads(walk[i], hash)
  {
    if walk == [] {
      i := 0;
    } else {
      i := FirstReadIsFirst(walk[..|walk| - 1], hash);
      if i == |walk| - 1 && !Reads(walk[i], hash) { i := |walk|; }
    }
  }

  /** How many of the files look like images, readable or not. */
  function ImagesIn(walk: seq<File>): nat {
    if walk == [] then 0 else ImagesIn(walk[..|walk| - 1]) + (if walk[|walk| - 1].Image? then 1 else 0)
  }

  /** The names of the files that could not be placed or read. */
  function FailuresIn(walk: seq<File>): seq<string> {
    if walk == [] then []
    else
      FailuresIn(walk[..|walk| - 1])
      + match walk[|walk| - 1]
        case Outside(display) => [display]
        case Image(path, None, _) => [path.text]
        case _ => []
  }

  /** A root that does not exist is a failure too. */
  function Failures(fs: seq<Root>): seq<string> {
    if fs == [] then []
    else
      Failures(fs[..|fs| - 1])
      + match fs[|fs| - 1]
        case Missing(display) => [display]
        case Present(_, files) => FailuresIn(files)
  }

  /** The visits that find a path under another hash than it was filed under. */
  function ChangesIn(previous: map<Path, Hash>, walk: seq<File>): seq<Changed> {
    if walk == [] then []
    else
      ChangesIn(previous, walk[..|walk| - 1])
      + match walk[|walk| - 1]
        case Image(path, Some(hash), _) =>
          if path in previous && previous[path] != hash then [Changed(path, previous[path], hash)] else []
        case _ => []
  }

  // ---------------------------------------------------------------------------------------------
  // A pass is one scan along the walk
  // ---------------------------------------------------------------------------------------------

  function Along(index: Index, previous: map<Path, Hash>, walk: seq<File>): Scan {
    ScanFiles(previous, StartScan(index), walk)
  }

  /** The scans differ at most in their roots and in the failures reported. */
  predicate Alike(s: Scan, t: Scan) {
    && s.index == t.index && s.seen == t.seen && s.preserve == t.preserve
    && s.report == t.report.(unreadable := s.report.unreadable)
  }

  lemma FileAlike(previous: map<Path, Hash>, s: Scan, t: Scan, file: File)
    requires Alike(s, t)
    ensures Alike(ScanFile(previous, s, file), ScanFile(previous, t, file))
    ensures ScanFile(previous, s, file).report.unreadable == s.report.unreadable + FailuresIn([file])
  {
    assert [file][..0] == [];
  }

  lemma {:induction false} ScanAlike(previous: map<Path, Hash>, s: Scan, t: Scan, files: seq<File>)
    requires Alike(s, t)
    ensures Alike(ScanFiles(previous, s, files), ScanFiles(previous, t, files))
    ensures ScanFiles(previous, s, files).report.unreadable == s.report.unreadable + FailuresIn(files)
  {
    if files != [] {
      var init, last := files[..|files| - 1], files[|files| - 1];
      ScanAlike(previous, s, t, init);
      FileAlike(previous, ScanFiles(previous, s, init), ScanFiles(previous, t, init), last);
      assert [last][..0] == [] && FailuresIn(files) == FailuresIn(init) + FailuresIn([last]);
    }
  }

  lemma {:induction false} ScanOn(previous: map<Path, Hash>, s: Scan, a: seq<File>, b: seq<File>)
    ensures ScanFiles(previous, s, a + b) == ScanFiles(previous, ScanFiles(previous, s, a), b)
    ensures ReadablePairs(a + b) == ReadablePairs(a) + ReadablePairs(b)
  {
    if b == [] {
      assert a + b == a;
    } else {
      ScanOn(previous, s, a, b[..|b| - 1]);
      assert (a + b)[..|a + b| - 1] == a + b[..|b| - 1];
    }
  }

  lemma {:induction false} PassIsWalk(index: Index, previous: map<Path, Hash>, fs: seq<Root>)
    ensures Alike(Scanned(index, previous, fs), Along(index, previous, Walk(fs)))
    ensures Scanned(index, previous, fs).report.unreadable == Failures(fs)
    ensures ReadablePairs(Walk(fs)) == Readable(fs)
  {
    if fs != [] {
      var init, last := fs[..|fs| - 1], fs[|fs| - 1];
      PassIsWalk(index, previous, init);
      ScanOn(previous, StartScan(index), Walk(init), FilesOf(last));
      if last.Present? {
        var s := Scanned(index, previous, init);
        ScanAlike(previous, s.(roots := s.roots + [last.relative]), Along(index, previous, Walk(init)), last.files);
      }
    }
  }

  // ---------------------------------------------------------------------------------------------
  // The report
  // ---------------------------------------------------------------------------------------------

  /** `d` was read for the first time, beside the canonical path of its record. */
  ghost predicate NewBeside(index: Index, s: Scan, readable: set<Pair>, d: Duplicate) {
    && Pair(d.hash, d.duplicate) in readable && !Knows(index, Pair(d.hash, d.duplicate))
    && d.hash in s.index && s.index[d.hash].canonical == d.canonical && d.canonical != d.duplicate
  }

  lemma NoteImageDuplicate(index: Index, previous: map<Path, Hash>, s: Scan, readable: set<Pair>,
                           path: Path, hash: Hash, facts: nat, d: Duplicate)
    requires RecordsOk(s.index)
    requires forall pair :: pair in {Pair(hash, path), Pair(d.hash, d.duplicate)} ==>
               (Knows(s.index, pair) <==> Knows(index, pair) || pair in readable)
    requires d in s.report.duplicates <==> NewBeside(index, s, readable, d)
    ensures var s' := NoteImage(previous, s, path, hash, facts);
            d in s'.report.duplicates <==> NewBeside(index, s', readable + {Pair(hash, path)}, d)
  {
    assert Pair(hash, path) in {Pair(hash, path), Pair(d.hash, d.duplicate)};
    assert Pair(d.hash, d.duplicate) in {Pair(hash, path), Pair(d.hash, d.duplicate)};
    if hash in s.index { assert RecordOk(s.index[hash]); }
  }

  lemma {:induction false} WalkDuplicate(index: Index, previous: map<Path, Hash>, walk: seq<File>, d: Duplicate)
    requires RecordsOk(index)
    ensures d in Along(index, previous, walk).report.duplicates
            <==> NewBeside(index, Along(index, previous, walk), ReadablePairs(walk), d)
  {
    if walk != [] {
      var init, last := walk[..|walk| - 1], walk[|walk| - 1];
      WalkDuplicate(index, previous, init, d);
      if last.Image? && last.content.Some? {
        WalkKnows(index, previous, init, Pair(d.hash, d.duplicate));
        WalkKnows(index, previous, init, Pair(last.content.value, last.path));
        NoteImageDuplicate(index, previous, Along(index, previous, init), ReadablePairs(init), last.path,
                           last.content.value, last.facts, d);
      } else {
        assert ReadablePairs(walk) == ReadablePairs(init);
      }
    }
  }

  lemma WalkKnows(index: Index, previous: map<Path, Hash>, walk: seq<File>, pair: Pair)
    requires RecordsOk(index)
    ensures RecordsOk(Along(index, previous, walk).index)
    ensures Knows(Along(index, previous, walk).index, pair) <==> Knows(index, pair) || pair in ReadablePairs(walk)
  {
    assert NewPairs(index, {}) == {};
    ScanFilesKeep(index, previous, StartScan(index), {}, {}, walk);
    assert {} + ReadablePairs(walk) == ReadablePairs(walk);
  }

  lemma {:induction false} WalkDuplicatesOnce(index: Index, previous: map<Path, Hash>, walk: seq<File>,
                                              j: nat, k: nat)
    requires RecordsOk(index) && j < k < |Along(index, previous, walk).report.duplicates|
    ensures var duplicates := Along(index, previous, walk).report.duplicates; duplicates[j] != duplicates[k]
  {
    var init, last := walk[..|walk| - 1], walk[|walk| - 1];
    var s := Along(index, previous, init);
    if k < |s.report.duplicates| {
      WalkDuplicatesOnce(index, previous, init, j, k);
    } else {
      var d := s.report.duplicates[j];
      WalkDuplicate(index, previous, init, d);
      WalkKnows(index, previous, init, Pair(d.hash, d.duplicate));
    }
  }

  /** A record of the index keeps its name and first paths; a new one is that of the first file read as its hash. */
  ghost predicate RecordExact(index: Index, s: Scan, walk: seq<File>, hash: Hash) {
    && (hash in s.index <==> hash in index || FirstRead(walk, hash).Some?)
    && (hash in index ==>
          && s.index[hash].canonical == index[hash].canonical && s.index[hash].fileName == index[hash].fileName
          && s.index[hash].facts == index[hash].facts && index[hash].known <= s.index[hash].known)
    && (hash !in index && FirstRead(walk, hash).Some? ==>
          var file := FirstRead(walk, hash).value;
          && file.Image? && s.index[hash].canonical == file.path && s.index[hash].facts == file.facts
          && s.index[hash].fileName == FileName(file.path.text)
          && [file.path] <= s.index[hash].known)
  }

  lemma {:induction false} WalkRecord(index: Index, previous: map<Path, Hash>, walk: seq<File>, hash: Hash)
    ensures RecordExact(index, Along(index, previous, walk), walk, hash)
  {
    if walk != [] { WalkRecord(index, previous, walk[..|walk| - 1], hash); }
  }

  lemma {:induction false} WalkCounts(index: Index, previous: map<Path, Hash>, walk: seq<File>)
    ensures var s := Along(index, previous, walk);
            s.report.discovered == ImagesIn(walk) && s.report.changed == ChangesIn(previous, walk)
  {
    if walk != [] { WalkCounts(index, previous, walk[..|walk| - 1]); }
  }

  lemma {:induction false} WalkNews(index: Index, previous: map<Path, Hash>, walk: seq<File>)
    ensures var s := Along(index, previous, walk);
            index.Keys <= s.index.Keys && s.report.newImages == |s.index.Keys - index.Keys|
  {
    if walk == [] {
      assert index.Keys - index.Keys == {};
    } else {
      var init, last := walk[..|walk| - 1], walk[|walk| - 1];
      WalkNews(index, previous, init);
      FileNews(index, previous, Along(index, previous, init), last);
    }
  }

  lemma FileNews(index: Index, previous: map<Path, Hash>, s: Scan, file: File)
    requires index.Keys <= s.index.Keys && s.report.newImages == |s.index.Keys - index.Keys|
    ensures var s' := ScanFile(previous, s, file);
            index.Keys <= s'.index.Keys && s'.report.newImages == |s'.index.Keys - index.Keys|
  {
    if file.Image? && file.content.Some? {
      NoteImageKeys(previous, s, file.path, file.content.value, file.facts);
      OneMoreKey(index.Keys, s.index.Keys, file.content.value);
    }
  }

  lemma OneMoreKey(base: set<Hash>, keys: set<Hash>, hash: Hash)
    requires base <= keys
    ensures |(keys + {hash}) - base| == |keys - base| + if hash in keys then 0 else 1
  {
    if hash in keys {
      assert keys + {hash} == keys;
    } else {
      assert (keys + {hash}) - base == (keys - base) + {hash};
    }
  }

  lemma NoteImageKeys(previous: map<Path, Hash>, s: Scan, path: Path, hash: Hash, facts: nat)
    ensures var s' := NoteImage(previous, s, path, hash, facts);
            && s'.index.Keys == s.index.Keys + {hash}
            && s'.report.newImages == s.report.newImages + if hash in s.index then 0 else 1
  {
  }

  /** A pass reports how many files look like images, which paths changed, what could not be placed or read, how many
      records are new, and as duplicates exactly the new paths beside a canonical one, each once. */
  lemma PassReported(index: Index, previous: map<Path, Hash>, fs: seq<Root>, d: Duplicate, j: nat, k: nat)
    requires RecordsOk(index)
    ensures var s := Scanned(index, previous, fs);
            && s.report.discovered == ImagesIn(Walk(fs))
            && s.report.changed == ChangesIn(previous, Walk(fs))
            && s.report.unreadable == Failures(fs)
            && s.report.newImages == |s.index.Keys - index.Keys|
            && (d in s.report.duplicates <==> NewBeside(index, s, Readable(fs), d))
            && (j < k < |s.report.duplicates| ==> s.report.duplicates[j] != s.report.duplicates[k])
  {
    PassIsWalk(index, previous, fs);
    WalkCounts(index, previous, Walk(fs));
    WalkNews(index, previous, Walk(fs));
    WalkDuplicate(index, previous, Walk(fs), d);
    if j < k < |Scanned(index, previous, fs).report.duplicates| {
      WalkDuplicatesOnce(index, previous, Walk(fs), j, k);
    }
  }

  // ---------------------------------------------------------------------------------------------
  // Names
  // ---------------------------------------------------------------------------------------------

  /** The file name is what follows the last slash. */
  lemma {:induction false} FileNameMeans(text: string) returns (directory: string)
    ensures text == directory + FileName(text)
    ensures '/' !in FileName(text)
    ensures directory == [] || directory[|directory| - 1] == '/'
  {
    if text == [] || text[|text| - 1] == '/' {
      directory := text;
    } else {
      directory := FileNameMeans(text[..|text| - 1]);
    }
  }

  /** After a pass a record that kept its canonical path has its old name, and a new or promoted one is named after
      its canonical path, which is the first file read as its hash or the oldest path that is left. */
  lemma PassNames(index: Index, previous: map<Path, Hash>, fs: seq<Root>, hash: Hash)
    requires RecordsOk(index) && hash in Reconcile(Scanned(index, previous, fs))
    ensures var s := Scanned(index, previous, fs);
            var record := Reconcile(s)[hash];
            var first := FirstRead(Walk(fs), hash);
            && (hash in index || first.Some?)
            && record.known != []
            && (hash in index ==>
                  && record.facts == index[hash].facts
                  && if Pair(hash, index[hash].canonical) in Readable(fs) || Spared(fs, index[hash].canonical)
                     then record.canonical == index[hash].canonical && record.fileName == index[hash].fileName
                     else record.canonical == record.known[0] && record.fileName == FileName(record.canonical.text))
            && (hash !in index ==>
                  && first.value.Image? && record.canonical == first.value.path && record.facts == first.value.facts
                  && record.fileName == FileName(record.canonical.text))
  {
    var s := Scanned(index, previous, fs);
    PassIsWalk(index, previous, fs);
    WalkRecord(index, previous, Walk(fs), hash);
    ScanRootsKeep(index, previous, fs);
    assert RecordOk(s.index[hash]);
    ReconciledRecord(s, hash, s.index[hash]);
    if hash !in index {
      var i := FirstReadIsFirst(Walk(fs), hash);
      ReadOnWalk(Walk(fs), i, hash);
    }
  }

  lemma {:induction false} ReadOnWalk(walk: seq<File>, i: nat, hash: Hash)
    requires i < |walk| && Reads(walk[i], hash)
    ensures Pair(hash, walk[i].path) in ReadablePairs(walk)
  {
    if i < |walk| - 1 { ReadOnWalk(walk[..|walk| - 1], i, hash); }
  }
}
