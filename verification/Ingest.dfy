/** Scanning the image roots and reconciling the hash index in place
    (crates/labello-storage/src/ingest.rs). Hashes stand for BLAKE3 digests and image ids alike; a
    record is filed under its own hash. */
module Ingest {
  import opened Domain

  type Hash = nat

  /** A dataset-relative path with `/` between its components. */
  datatype Path = Path(text: string)

  datatype Record = Record(
    canonical: Path,
    known: seq<Path>,
    duplicates: seq<Path>,
    fileName: string,
    facts: nat)

  type Index = map<Hash, Record>

  /** One file the walk yields: outside the dataset, not an image, or an image whose bytes could
      (`Some`) or could not be read. */
  datatype File = Outside(display: string) | Other | Image(path: Path, content: Option<Hash>, facts: nat)

  datatype Root = Missing(display: string) | Present(relative: Path, files: seq<File>)

  datatype Duplicate = Duplicate(canonical: Path, duplicate: Path, hash: Hash)

  datatype Changed = Changed(path: Path, previous: Hash, current: Hash)

  datatype Report = Report(
    discovered: nat,
    newImages: nat,
    duplicates: seq<Duplicate>,
    changed: seq<Changed>,
    unreadable: seq<string>)

  /** The variables of the scan loop. */
  datatype Scan = Scan(
    index: Index,
    seen: map<Hash, set<Path>>,
    preserve: set<Path>,
    roots: seq<Path>,
    report: Report)

  function FileName(text: string): string {
    if text == [] || text[|text| - 1] == '/' then []
    else FileName(text[..|text| - 1]) + [text[|text| - 1]]
  }

  predicate PathInRoots(path: Path, roots: seq<Path>) {
    exists root | root in roots :: path == root || root.text + "/" <= path.text
  }

  function Seen(seen: map<Hash, set<Path>>, hash: Hash): set<Path> {
    if hash in seen then seen[hash] else {}
  }

  // ---------------------------------------------------------------------------------------------
  // One file, one record
  // ---------------------------------------------------------------------------------------------

  function NoteRecord(record: Record, path: Path): Record {
    record.(
      known := if path in record.known then record.known else record.known + [path],
      duplicates := if path != record.canonical && path !in record.duplicates
                    then record.duplicates + [path] else record.duplicates)
  }

  function NoteImage(previous: map<Path, Hash>, s: Scan, path: Path, hash: Hash, facts: nat): Scan {
    var report := s.report.(
      discovered := s.report.discovered + 1,
      changed := s.report.changed
                 + if path in previous && previous[path] != hash
                   then [Changed(path, previous[path], hash)] else []);
    var seen := s.seen[hash := Seen(s.seen, hash) + {path}];
    if hash in s.index then
      var record := s.index[hash];
      s.(index := s.index[hash := NoteRecord(record, path)],
         seen := seen,
         report := report.(duplicates := report.duplicates
                             + if path !in record.known && path != record.canonical
                               then [Duplicate(record.canonical, path, hash)] else []))
    else
      s.(index := s.index[hash := Record(path, [path], [], FileName(path.text), facts)],
         seen := seen,
         report := report.(newImages := report.newImages + 1))
  }

  function ScanFile(previous: map<Path, Hash>, s: Scan, file: File): Scan {
    match file
    case Outside(display) => s.(report := s.report.(unreadable := s.report.unreadable + [display]))
    case Other => s
    case Image(path, None, _) =>
      s.(preserve := s.preserve + {path},
         report := s.report.(discovered := s.report.discovered + 1,
                             unreadable := s.report.unreadable + [path.text]))
    case Image(path, Some(hash), facts) => NoteImage(previous, s, path, hash, facts)
  }

  function ScanFiles(previous: map<Path, Hash>, s: Scan, files: seq<File>): Scan {
    if files == [] then s
    else ScanFile(previous, ScanFiles(previous, s, files[..|files| - 1]), files[|files| - 1])
  }

  function ScanRoot(previous: map<Path, Hash>, s: Scan, root: Root): Scan {
    match root
    case Missing(display) => s.(report := s.report.(unreadable := s.report.unreadable + [display]))
    case Present(relative, files) => ScanFiles(previous, s.(roots := s.roots + [relative]), files)
  }

  function ScanRoots(previous: map<Path, Hash>, s: Scan, fs: seq<Root>): Scan {
    if fs == [] then s
    else ScanRoot(previous, ScanRoots(previous, s, fs[..|fs| - 1]), fs[|fs| - 1])
  }

  predicate Kept(s: Scan, hash: Hash, path: Path) {
    !PathInRoots(path, s.roots) || path in Seen(s.seen, hash) || path in s.preserve
  }

  function KeptOf(s: Scan, hash: Hash, paths: seq<Path>): set<Path> {
    set path | path in paths && Kept(s, hash, path)
  }

  /** The elements of `paths` that are in `kept`, in order. */
  function Retain(paths: seq<Path>, kept: set<Path>): seq<Path> {
    if paths == [] then []
    else (if paths[0] in kept then [paths[0]] else []) + Retain(paths[1..], kept)
  }

  function RetainKnown(s: Scan, hash: Hash, paths: seq<Path>): seq<Path> {
    Retain(paths, KeptOf(s, hash, paths))
  }

  function RetainDuplicates(known: seq<Path>, canonical: Path, paths: seq<Path>): seq<Path> {
    Retain(paths, (set path | path in known) - {canonical})
  }

  /** Duplicates are filtered against the old canonical path, before a new one may be promoted. */
  function ReconcileRecord(s: Scan, hash: Hash, record: Record): Record {
    var known := RetainKnown(s, hash, record.known);
    var filtered := record.(known := known,
                            duplicates := RetainDuplicates(known, record.canonical, record.duplicates));
    if record.canonical !in known && known != [] then
      filtered.(canonical := known[0], fileName := FileName(known[0].text))
    else filtered
  }

  function Reconcile(s: Scan): Index {
    map hash | hash in s.index && RetainKnown(s, hash, s.index[hash].known) != [] ::
      ReconcileRecord(s, hash, s.index[hash])
  }

  function StartScan(index: Index): Scan {
    Scan(index, map[], {}, [], Report(0, 0, [], [], []))
  }

  function Scanned(index: Index, previous: map<Path, Hash>, fs: seq<Root>): Scan {
    ScanRoots(previous, StartScan(index), fs)
  }

  predicate KnowsPath(index: Index, hash: Hash, path: Path) {
    hash in index && path in index[hash].known
  }

  /** `m` files every known path under the greatest hash whose record knows it. */
  ghost predicate IsPathMap(index: Index, m: map<Path, Hash>) {
    && (forall path :: path in m ==> KnowsPath(index, m[path], path))
    && (forall hash, path :: KnowsPath(index, hash, path) ==> path in m && hash <= m[path])
  }

  // ---------------------------------------------------------------------------------------------
  // The pass itself
  // ---------------------------------------------------------------------------------------------

  /** Records are walked in order of their hashes, so a later record takes over a path. */
  method PathToHash(index: Index) returns (m: map<Path, Hash>)
    ensures IsPathMap(index, m)
  {
    m := map[];
    var todo := index.Keys;
    while todo != {}
      invariant todo <= index.Keys
      invariant forall done, next :: done in index && done !in todo && next in todo ==> done < next
      invariant forall path :: path in m ==> KnowsPath(index, m[path], path) && m[path] !in todo
      invariant forall hash, path :: KnowsPath(index, hash, path) && hash !in todo ==> path in m && hash <= m[path]
      decreases todo
    {
      var hash := LeastHash(todo);
      todo := todo - {hash};
      m := FilePaths(m, index[hash].known, hash);
    }
  }

  method FilePaths(m: map<Path, Hash>, paths: seq<Path>, hash: Hash) returns (filed: map<Path, Hash>)
    ensures filed == map path | path in m.Keys + (set p | p in paths) :: if path in paths then hash else m[path]
  {
    filed := m;
    for i := 0 to |paths|
      invariant filed == map path | path in m.Keys + (set p | p in paths[..i]) ::
                           if path in paths[..i] then hash else m[path]
    {
      assert paths[..i + 1] == paths[..i] + [paths[i]];
      filed := filed[paths[i] := hash];
    }
    assert paths[..|paths|] == paths;
  }

  method LeastHash(hashes: set<Hash>) returns (least: Hash)
    requires hashes != {}
    ensures least in hashes && forall hash :: hash in hashes ==> least <= hash
  {
    least :| least in hashes;
    var todo := hashes;
    while todo != {}
      invariant todo <= hashes && least in hashes
      invariant forall hash :: hash in hashes && hash !in todo ==> least <= hash
      decreases todo
    {
      var hash :| hash in todo;
      todo := todo - {hash};
      if hash < least {
        least := hash;
      }
    }
  }

  method IngestImages(index: Index, fs: seq<Root>) returns (result: Index, report: Report)
    ensures exists previous ::
              && IsPathMap(index, previous)
              && result == Reconcile(Scanned(index, previous, fs))
              && report == Scanned(index, previous, fs).report
  {
    var paths := PathToHash(index);
    var scan := StartScan(index);
    for i := 0 to |fs|
      invariant scan == ScanRoots(paths, StartScan(index), fs[..i])
    {
      assert fs[..i + 1][..i] == fs[..i];
      match fs[i] {
        case Missing(display) =>
          scan := scan.(report := scan.report.(unreadable := scan.report.unreadable + [display]));
        case Present(relative, files) =>
          scan := scan.(roots := scan.roots + [relative]);
          ghost var before := scan;
          for k := 0 to |files|
            invariant scan == ScanFiles(paths, before, files[..k])
          {
            assert files[..k + 1][..k] == files[..k];
            scan := VisitFile(paths, scan, files[k]);
          }
          assert files[..|files|] == files;
      }
    }
    assert fs[..|fs|] == fs;
    report := scan.report;
    result := ReconcileIndex(scan);
  }

  lemma PathMapUnique(index: Index, a: map<Path, Hash>, b: map<Path, Hash>)
    requires IsPathMap(index, a) && IsPathMap(index, b)
    ensures a == b
  {
    forall path | path in a || path in b ensures path in a && path in b && a[path] == b[path] {
      if path in a { assert KnowsPath(index, a[path], path); }
      if path in b { assert KnowsPath(index, b[path], path); }
    }
    assert a.Keys == b.Keys;
  }

  method VisitFile(previous: map<Path, Hash>, s: Scan, file: File) returns (scan: Scan)
    ensures scan == ScanFile(previous, s, file)
  {
    scan := s;
    match file {
      case Outside(display) =>
        scan := scan.(report := scan.report.(unreadable := scan.report.unreadable + [display]));
      case Other =>
      case Image(path, content, facts) =>
        var report := scan.report.(discovered := scan.report.discovered + 1);
        match content {
          case None =>
            scan := scan.(preserve := scan.preserve + {path},
                          report := report.(unreadable := report.unreadable + [path.text]));
          case Some(hash) =>
            if path in previous && previous[path] != hash {
              report := report.(changed := report.changed + [Changed(path, previous[path], hash)]);
            }
            scan := scan.(seen := scan.seen[hash := Seen(scan.seen, hash) + {path}]);
            if hash in scan.index {
              var record := scan.index[hash];
              var newlyDiscovered := path !in record.known;
              if newlyDiscovered {
                record := record.(known := record.known + [path]);
              }
              if path != record.canonical && path !in record.duplicates {
                record := record.(duplicates := record.duplicates + [path]);
              }
              if newlyDiscovered && path != record.canonical {
                report := report.(duplicates := report.duplicates + [Duplicate(record.canonical, path, hash)]);
              }
              scan := scan.(index := scan.index[hash := record]);
            } else {
              scan := scan.(index := scan.index[hash := Record(path, [path], [], FileName(path.text), facts)]);
              report := report.(newImages := report.newImages + 1);
            }
            scan := scan.(report := report);
        }
    }
  }

  method ReconcileIndex(s: Scan) returns (result: Index)
    ensures result == Reconcile(s)
  {
    result := map[];
    var todo := s.index.Keys;
    while todo != {}
      invariant todo <= s.index.Keys
      invariant result == map hash | hash in s.index && hash !in todo
                                     && RetainKnown(s, hash, s.index[hash].known) != [] ::
                            ReconcileRecord(s, hash, s.index[hash])
      decreases todo
    {
      var hash :| hash in todo;
      todo := todo - {hash};
      var record := ReconcileOne(s, hash, s.index[hash]);
      if record.known != [] {
        result := result[hash := record];
      }
    }
  }

  method ReconcileOne(s: Scan, hash: Hash, record: Record) returns (result: Record)
    ensures result == ReconcileRecord(s, hash, record)
  {
    var known := RetainKnown(s, hash, record.known);
    result := record.(known := known,
                      duplicates := RetainDuplicates(known, record.canonical, record.duplicates));
    if result.canonical !in known && known != [] {
      result := result.(canonical := known[0], fileName := FileName(known[0].text));
    }
  }

  // ---------------------------------------------------------------------------------------------
  // Meaning
  // ---------------------------------------------------------------------------------------------

  function Under(root: Path, rest: string): Path {
    Path(root.text + "/" + rest)
  }

  /** A path lies in the roots when it is one of them or goes on from one after a slash, so `images2/a.png` is not in
      `images`. */
  lemma InRootsMeans(path: Path, roots: seq<Path>)
    ensures PathInRoots(path, roots)
            <==> exists root :: root in roots && (path == root || exists rest :: path == Under(root, rest))
  {
    forall root | root in roots && root.text + "/" <= path.text ensures exists rest :: path == Under(root, rest) {
      var rest := path.text[|root.text| + 1..];
      assert path == Under(root, rest);
    }
  }

  datatype Pair = Pair(hash: Hash, path: Path)

  /** The index files the path under the hash. */
  predicate Knows(index: Index, pair: Pair) {
    KnowsPath(index, pair.hash, pair.path)
  }

  function PairOf(file: File): set<Pair> {
    if file.Image? && file.content.Some? then {Pair(file.content.value, file.path)} else {}
  }

  function UnreadableOf(file: File): set<Path> {
    if file.Image? && file.content.None? then {file.path} else {}
  }

  function ReadablePairs(files: seq<File>): set<Pair> {
    if files == [] then {} else ReadablePairs(files[..|files| - 1]) + PairOf(files[|files| - 1])
  }

  function UnreadablePaths(files: seq<File>): set<Path> {
    if files == [] then {} else UnreadablePaths(files[..|files| - 1]) + UnreadableOf(files[|files| - 1])
  }

  function FilesOf(root: Root): seq<File> {
    if root.Present? then root.files else []
  }

  function Readable(fs: seq<Root>): set<Pair> {
    if fs == [] then {} else Readable(fs[..|fs| - 1]) + ReadablePairs(FilesOf(fs[|fs| - 1]))
  }

  function Unreadable(fs: seq<Root>): set<Path> {
    if fs == [] then {} else Unreadable(fs[..|fs| - 1]) + UnreadablePaths(FilesOf(fs[|fs| - 1]))
  }

  function Roots(fs: seq<Root>): seq<Path> {
    if fs == [] then []
    else Roots(fs[..|fs| - 1]) + (if fs[|fs| - 1].Present? then [fs[|fs| - 1].relative] else [])
  }

  /** A pass leaves an unseen path alone when it lies outside the roots or could not be read. */
  predicate Spared(fs: seq<Root>, path: Path) {
    !PathInRoots(path, Roots(fs)) || path in Unreadable(fs)
  }

  predicate Distinct(paths: seq<Path>) {
    forall j, k :: 0 <= j < k < |paths| ==> paths[j] != paths[k]
  }

  predicate RecordOk(record: Record) {
    Distinct(record.known) && record.canonical in record.known
  }

  /** Each record knows its canonical path and no path twice. */
  predicate RecordsOk(index: Index) {
    forall hash | hash in index :: RecordOk(index[hash])
  }

  /** No path is filed under two hashes. */
  ghost predicate Disjoint(index: Index) {
    forall a, b :: Knows(index, a) && Knows(index, b) && a.path == b.path ==> a.hash == b.hash
  }

  /** Within one pass a path always reads the same way. */
  ghost predicate Consistent(fs: seq<Root>) {
    && (forall a, b :: a in Readable(fs) && b in Readable(fs) && a.path == b.path ==> a.hash == b.hash)
    && (forall a :: a in Readable(fs) ==> a.path !in Unreadable(fs))
  }

  predicate Filed(index: Index, pair: Pair) {
    && Knows(index, pair)
    && (pair.path == index[pair.hash].canonical || pair.path in index[pair.hash].duplicates)
  }

  function NewPairs(index: Index, pairs: set<Pair>): set<Pair> {
    set pair | pair in pairs && !Knows(index, pair)
  }

  // ---------------------------------------------------------------------------------------------
  // The scan
  // ---------------------------------------------------------------------------------------------

  /** The index knows what it knew plus the readable pairs, and the report accounts for the new ones. */
  ghost predicate IndexGrew(index: Index, s: Scan, readable: set<Pair>) {
    && RecordsOk(s.index)
    && (forall pair {:trigger Knows(s.index, pair)} ::
          Knows(s.index, pair) <==> Knows(index, pair) || pair in readable)
    && s.report.newImages + |s.report.duplicates| == |NewPairs(index, readable)|
  }

  /** Every pair read so far has been seen, and is canonical or a duplicate of its record. */
  ghost predicate SeenFiled(s: Scan, readable: set<Pair>) {
    && (forall pair: Pair :: pair.path in Seen(s.seen, pair.hash) <==> pair in readable)
    && (forall pair {:trigger Filed(s.index, pair)} :: pair in readable ==> Filed(s.index, pair))
  }

  /** The changed paths are exactly the readable ones filed under another hash before. */
  ghost predicate ChangesListed(previous: map<Path, Hash>, s: Scan, readable: set<Pair>) {
    forall c {:trigger c in s.report.changed} :: c in s.report.changed <==>
      Pair(c.current, c.path) in readable
      && c.path in previous && previous[c.path] == c.previous && c.previous != c.current
  }

  ghost predicate ScanInv(index: Index, previous: map<Path, Hash>, s: Scan, readable: set<Pair>,
                          unreadable: set<Path>)
  {
    && IndexGrew(index, s, readable) && SeenFiled(s, readable) && ChangesListed(previous, s, readable)
    && s.preserve == unreadable
  }

  lemma OneMorePair(index: Index, readable: set<Pair>, pair: Pair)
    ensures |NewPairs(index, readable + {pair})|
         == |NewPairs(index, readable)| + if Knows(index, pair) || pair in readable then 0 else 1
  {
    var before, after := NewPairs(index, readable), NewPairs(index, readable + {pair});
    if Knows(index, pair) || pair in readable {
      assert after == before;
    } else {
      assert after == before + {pair};
    }
  }

  lemma NoteRecordOk(record: Record, path: Path)
    requires RecordOk(record)
    ensures RecordOk(NoteRecord(record, path))
    ensures forall p :: p in NoteRecord(record, path).known <==> p in record.known || p == path
    ensures forall p :: p in NoteRecord(record, path).duplicates <==>
              p in record.duplicates || (p == path && path != record.canonical)
  {
  }

  lemma NoteImageGrows(index: Index, previous: map<Path, Hash>, s: Scan, readable: set<Pair>,
                       path: Path, hash: Hash, facts: nat)
    requires IndexGrew(index, s, readable)
    ensures IndexGrew(index, NoteImage(previous, s, path, hash, facts), readable + {Pair(hash, path)})
  {
    var s' := NoteImage(previous, s, path, hash, facts);
    OneMorePair(index, readable, Pair(hash, path));
    assert Knows(s.index, Pair(hash, path)) <==> Knows(index, Pair(hash, path)) || Pair(hash, path) in readable;
    if hash in s.index { NoteRecordOk(s.index[hash], path); }
    forall pair ensures Knows(s'.index, pair) <==> Knows(index, pair) || pair in readable + {Pair(hash, path)} {
      assert Knows(s.index, pair) <==> Knows(index, pair) || pair in readable;
    }
  }

  lemma NoteImageFiles(previous: map<Path, Hash>, s: Scan, readable: set<Pair>, path: Path, hash: Hash, facts: nat)
    requires RecordsOk(s.index) && SeenFiled(s, readable)
    ensures SeenFiled(NoteImage(previous, s, path, hash, facts), readable + {Pair(hash, path)})
  {
    var s' := NoteImage(previous, s, path, hash, facts);
    if hash in s.index { NoteRecordOk(s.index[hash], path); }
    forall pair | pair in readable + {Pair(hash, path)} ensures Filed(s'.index, pair) {
      if pair in readable { assert Filed(s.index, pair); }
    }
  }

  lemma NoteImageLists(previous: map<Path, Hash>, s: Scan, readable: set<Pair>, path: Path, hash: Hash, facts: nat)
    requires ChangesListed(previous, s, readable)
    ensures ChangesListed(previous, NoteImage(previous, s, path, hash, facts), readable + {Pair(hash, path)})
  {
    var s' := NoteImage(previous, s, path, hash, facts);
    forall c
      ensures c in s'.report.changed <==>
              Pair(c.current, c.path) in readable + {Pair(hash, path)}
              && c.path in previous && previous[c.path] == c.previous && c.previous != c.current
    {
      assert c in s'.report.changed <==>
             c in s.report.changed
             || (path in previous && previous[path] != hash && c == Changed(path, previous[path], hash));
    }
  }

  lemma NoteImageKeeps(index: Index, previous: map<Path, Hash>, s: Scan, readable: set<Pair>,
                       unreadable: set<Path>, path: Path, hash: Hash, facts: nat)
    requires ScanInv(index, previous, s, readable, unreadable)
    ensures ScanInv(index, previous, NoteImage(previous, s, path, hash, facts), readable + {Pair(hash, path)},
                    unreadable)
  {
    NoteImageGrows(index, previous, s, readable, path, hash, facts);
    NoteImageFiles(previous, s, readable, path, hash, facts);
    NoteImageLists(previous, s, readable, path, hash, facts);
  }

  lemma NoImageKeeps(index: Index, previous: map<Path, Hash>, s: Scan, s': Scan, readable: set<Pair>,
                     unreadable: set<Path>)
    requires ScanInv(index, previous, s, readable, unreadable)
    requires s'.index == s.index && s'.seen == s.seen
    requires s'.report == s.report.(discovered := s'.report.discovered, unreadable := s'.report.unreadable)
    ensures ScanInv(index, previous, s', readable, s'.preserve)
  {
  }

  lemma ReadableFileKeeps(index: Index, previous: map<Path, Hash>, s: Scan, readable: set<Pair>,
                          unreadable: set<Path>, file: File)
    requires ScanInv(index, previous, s, readable, unreadable) && file.Image? && file.content.Some?
    ensures ScanInv(index, previous, ScanFile(previous, s, file), readable + PairOf(file),
                    unreadable + UnreadableOf(file))
  {
    NoteImageKeeps(index, previous, s, readable, unreadable, file.path, file.content.value, file.facts);
    var s', grown := NoteImage(previous, s, file.path, file.content.value, file.facts), readable + PairOf(file);
    assert ScanInv(index, previous, s', grown, unreadable);
    assert unreadable + UnreadableOf(file) == unreadable;
  }

  lemma ScanFileKeeps(index: Index, previous: map<Path, Hash>, s: Scan, readable: set<Pair>,
                      unreadable: set<Path>, file: File)
    requires ScanInv(index, previous, s, readable, unreadable)
    ensures ScanInv(index, previous, ScanFile(previous, s, file), readable + PairOf(file),
                    unreadable + UnreadableOf(file))
  {
    if file.Image? && file.content.Some? {
      ReadableFileKeeps(index, previous, s, readable, unreadable, file);
    } else {
      assert readable + PairOf(file) == readable;
      var s' := ScanFile(previous, s, file);
      assert s'.preserve == unreadable + UnreadableOf(file);
      NoImageKeeps(index, previous, s, s', readable, unreadable);
    }
  }

  lemma {:induction false} ScanFilesKeep(index: Index, previous: map<Path, Hash>, s: Scan, readable: set<Pair>,
                                         unreadable: set<Path>, files: seq<File>)
    requires ScanInv(index, previous, s, readable, unreadable)
    ensures ScanInv(index, previous, ScanFiles(previous, s, files), readable + ReadablePairs(files),
                    unreadable + UnreadablePaths(files))
  {
    if files == [] {
      assert readable + ReadablePairs(files) == readable && unreadable + UnreadablePaths(files) == unreadable;
    } else {
      var init, last := files[..|files| - 1], files[|files| - 1];
      ScanFilesKeep(index, previous, s, readable, unreadable, init);
      var s', r, u := ScanFiles(previous, s, init), readable + ReadablePairs(init),
                      unreadable + UnreadablePaths(init);
      assert r + PairOf(last) == readable + ReadablePairs(files);
      assert u + UnreadableOf(last) == unreadable + UnreadablePaths(files);
      assert ScanFiles(previous, s, files) == ScanFile(previous, s', last);
      ScanFileKeeps(index, previous, s', r, u, last);
    }
  }

  lemma {:induction false} ScanFilesRoots(previous: map<Path, Hash>, s: Scan, files: seq<File>)
    ensures ScanFiles(previous, s, files).roots == s.roots
  {
    if files != [] {
      ScanFilesRoots(previous, s, files[..|files| - 1]);
    }
  }

  lemma {:induction false} ScanRootsKeep(index: Index, previous: map<Path, Hash>, fs: seq<Root>)
    requires RecordsOk(index)
    ensures ScanInv(index, previous, Scanned(index, previous, fs), Readable(fs), Unreadable(fs))
    ensures Scanned(index, previous, fs).roots == Roots(fs)
  {
    if fs == [] {
      assert NewPairs(index, {}) == {};
    } else {
      var init, last := fs[..|fs| - 1], fs[|fs| - 1];
      ScanRootsKeep(index, previous, init);
      var s := Scanned(index, previous, init);
      match last {
        case Missing(display) =>
          assert Readable(fs) == Readable(init) && Unreadable(fs) == Unreadable(init) && Roots(fs) == Roots(init);
        case Present(relative, files) =>
          ScanFilesKeep(index, previous, s.(roots := s.roots + [relative]), Readable(init), Unreadable(init), files);
          ScanFilesRoots(previous, s.(roots := s.roots + [relative]), files);
      }
    }
  }

  // ---------------------------------------------------------------------------------------------
  // Reconciliation
  // ---------------------------------------------------------------------------------------------

  lemma {:induction false} RetainMembers(paths: seq<Path>, kept: set<Path>)
    ensures forall path :: path in Retain(paths, kept) <==> path in paths && path in kept
  {
    if paths != [] {
      RetainMembers(paths[1..], kept);
      assert paths == [paths[0]] + paths[1..];
    }
  }

  lemma {:induction false} RetainDistinct(paths: seq<Path>, kept: set<Path>)
    requires Distinct(paths)
    ensures Distinct(Retain(paths, kept))
  {
    if paths != [] {
      RetainDistinct(paths[1..], kept);
      RetainMembers(paths[1..], kept);
      var rest := Retain(paths[1..], kept);
      forall k | 0 <= k < |rest| ensures rest[k] != paths[0] {
        assert rest[k] in paths[1..];
      }
    }
  }

  lemma {:induction false} RetainAll(paths: seq<Path>, kept: set<Path>)
    requires forall path :: path in paths ==> path in kept
    ensures Retain(paths, kept) == paths
  {
    if paths != [] {
      RetainAll(paths[1..], kept);
      assert paths == [paths[0]] + paths[1..];
    }
  }

  lemma RetainKnownMembers(s: Scan, hash: Hash, paths: seq<Path>)
    ensures forall path :: path in RetainKnown(s, hash, paths) <==> path in paths && Kept(s, hash, path)
    ensures Distinct(paths) ==> Distinct(RetainKnown(s, hash, paths))
    ensures (forall path :: path in paths ==> Kept(s, hash, path)) ==> RetainKnown(s, hash, paths) == paths
  {
    var kept := KeptOf(s, hash, paths);
    RetainMembers(paths, kept);
    if Distinct(paths) { RetainDistinct(paths, kept); }
    if forall path :: path in paths ==> Kept(s, hash, path) { RetainAll(paths, kept); }
  }

  lemma RetainDuplicatesMembers(known: seq<Path>, canonical: Path, paths: seq<Path>)
    ensures forall path :: path in RetainDuplicates(known, canonical, paths) <==>
              path in paths && path in known && path != canonical
    ensures (forall path :: path in paths ==> path in known && path != canonical) ==>
              RetainDuplicates(known, canonical, paths) == paths
  {
    var kept := (set path | path in known) - {canonical};
    RetainMembers(paths, kept);
    if forall path :: path in paths ==> path in known && path != canonical { RetainAll(paths, kept); }
  }

  /** A reconciled record knows exactly the kept paths; only an unseen canonical path is replaced, and
      only paths that are gone or were canonical leave the duplicates. */
  lemma ReconciledRecord(s: Scan, hash: Hash, record: Record)
    requires RecordOk(record)
    ensures var result := ReconcileRecord(s, hash, record);
            && (forall path :: path in result.known <==> path in record.known && Kept(s, hash, path))
            && (result.known != [] ==> RecordOk(result))
            && (Kept(s, hash, record.canonical) ==> result.canonical == record.canonical)
            && (forall path :: path in result.duplicates <==>
                  path in record.duplicates && path in result.known && path != record.canonical)
  {
    RetainKnownMembers(s, hash, record.known);
    RetainDuplicatesMembers(RetainKnown(s, hash, record.known), record.canonical, record.duplicates);
    if RetainKnown(s, hash, record.known) != [] {
      assert RetainKnown(s, hash, record.known)[0] in RetainKnown(s, hash, record.known);
    }
  }

  /** The exact condition under which one pass leaves the canonical path among the duplicates: the old
      canonical path is gone and the path promoted in its place was listed as a duplicate. */
  lemma CanonicalListedExactly(s: Scan, hash: Hash, record: Record)
    requires RecordOk(record) && RetainKnown(s, hash, record.known) != []
    ensures var result := ReconcileRecord(s, hash, record);
            result.canonical in result.duplicates
            <==> !Kept(s, hash, record.canonical) && RetainKnown(s, hash, record.known)[0] in record.duplicates
  {
    ReconciledRecord(s, hash, record);
    RetainKnownMembers(s, hash, record.known);
  }

  lemma ReconciledIndex(s: Scan)
    requires RecordsOk(s.index)
    ensures RecordsOk(Reconcile(s))
    ensures forall pair :: Knows(Reconcile(s), pair) <==> Knows(s.index, pair) && Kept(s, pair.hash, pair.path)
  {
    var result := Reconcile(s);
    forall hash | hash in result ensures RecordOk(result[hash]) {
      ReconciledRecord(s, hash, s.index[hash]);
    }
    forall pair ensures Knows(result, pair) <==> Knows(s.index, pair) && Kept(s, pair.hash, pair.path) {
      if pair.hash in s.index {
        assert RecordOk(s.index[pair.hash]);
        ReconciledRecord(s, pair.hash, s.index[pair.hash]);
      }
    }
  }

  // ---------------------------------------------------------------------------------------------
  // One pass is exact
  // ---------------------------------------------------------------------------------------------

  /** After a pass the index files exactly the readable pairs and the spared old ones, and the report
      counts the pairs it added. */
  lemma PassExact(index: Index, previous: map<Path, Hash>, fs: seq<Root>)
    requires RecordsOk(index)
    ensures var s := Scanned(index, previous, fs);
            && RecordsOk(Reconcile(s))
            && (forall pair :: Knows(Reconcile(s), pair) <==>
                  pair in Readable(fs) || (Knows(index, pair) && Spared(fs, pair.path)))
            && s.report.newImages + |s.report.duplicates| == |NewPairs(index, Readable(fs))|
  {
    ScanRootsKeep(index, previous, fs);
    var s := Scanned(index, previous, fs);
    ReconciledIndex(s);
    forall pair
      ensures Knows(Reconcile(s), pair) <==>
              pair in Readable(fs) || (Knows(index, pair) && Spared(fs, pair.path))
    {
      assert pair.path in Seen(s.seen, pair.hash) <==> pair in Readable(fs);
      assert Knows(s.index, pair) <==> Knows(index, pair) || pair in Readable(fs);
    }
  }

  /** A path readable now and filed under another hash before is a listed change. */
  lemma ChangeIsListed(index: Index, previous: map<Path, Hash>, fs: seq<Root>, before: Pair, now: Pair)
    requires RecordsOk(index) && Disjoint(index) && IsPathMap(index, previous)
    requires Knows(index, before) && now in Readable(fs) && before.path == now.path
    ensures before.hash == now.hash
            || Changed(now.path, before.hash, now.hash) in Scanned(index, previous, fs).report.changed
  {
    ScanRootsKeep(index, previous, fs);
    assert KnowsPath(index, before.hash, now.path);
    assert now.path in previous && Knows(index, Pair(previous[now.path], now.path));
    assert previous[now.path] == before.hash;
    assert Pair(now.hash, now.path) == now;
  }

  lemma ChangeIsReal(index: Index, previous: map<Path, Hash>, fs: seq<Root>, c: Changed)
    requires RecordsOk(index) && IsPathMap(index, previous) && c in Scanned(index, previous, fs).report.changed
    ensures Knows(index, Pair(c.previous, c.path)) && Pair(c.current, c.path) in Readable(fs)
    ensures c.previous != c.current
  {
    ScanRootsKeep(index, previous, fs);
  }

  /** Every path that now reads differently than it is filed lies within the reconciled roots. */
  ghost predicate ChangesWithinRoots(index: Index, fs: seq<Root>) {
    forall before, now :: Knows(index, before) && now in Readable(fs)
                          && before.path == now.path && before.hash != now.hash ==>
      PathInRoots(now.path, Roots(fs))
  }

  /** No path ends up in two records exactly when every path whose content changed lies within the
      reconciled roots. */
  lemma PassKeepsPathsApart(index: Index, previous: map<Path, Hash>, fs: seq<Root>)
    requires RecordsOk(index) && Disjoint(index) && Consistent(fs)
    ensures Disjoint(Reconcile(Scanned(index, previous, fs))) <==> ChangesWithinRoots(index, fs)
  {
    PassExact(index, previous, fs);
    var result := Reconcile(Scanned(index, previous, fs));
    if ChangesWithinRoots(index, fs) {
      forall a, b | Knows(result, a) && Knows(result, b) && a.path == b.path ensures a.hash == b.hash { }
    } else {
      var before, now :| Knows(index, before) && now in Readable(fs) && before.path == now.path
                         && before.hash != now.hash && !PathInRoots(now.path, Roots(fs));
      assert Knows(result, before) && Knows(result, now);
    }
  }

  /** An image root of `.` has an empty relative path, which contains nothing: after a file under it
      changes, its path is filed under both hashes. */
  lemma DotRootFilesPathTwice(path: Path, index: Index, previous: map<Path, Hash>, fs: seq<Root>)
    requires |path.text| > 0 && path.text[0] != '/'
    requires index.Keys == {1} && index[1] == Record(path, [path], [], path.text, 0) && IsPathMap(index, previous)
    requires fs == [Present(Path(""), [Image(path, Some(2), 0)])]
    ensures RecordsOk(index) && Disjoint(index) && Consistent(fs)
    ensures !Disjoint(Reconcile(Scanned(index, previous, fs)))
  {
    OneFile(Path(""), Image(path, Some(2), 0));
    OnePathInIndex(index, path);
    PassExact(index, previous, fs);
    OutsideEmptyRoot(path);
    var before, now := Pair(1, path), Pair(2, path);
    assert Knows(index, before) && now in Readable(fs);
    var result := Reconcile(Scanned(index, previous, fs));
    assert Knows(result, before) && Knows(result, now);
  }

  lemma OnePathInIndex(index: Index, path: Path)
    requires index.Keys == {1} && index[1] == Record(path, [path], [], path.text, 0)
    ensures RecordsOk(index) && Disjoint(index) && Knows(index, Pair(1, path))
  {
  }

  lemma OutsideEmptyRoot(path: Path)
    requires |path.text| > 0 && path.text[0] != '/'
    ensures !PathInRoots(path, [Path("")])
  {
    assert ("" + "/")[0] == '/';
  }

  lemma OneFile(relative: Path, file: File)
    ensures var fs := [Present(relative, [file])];
            Readable(fs) == PairOf(file) && Unreadable(fs) == UnreadableOf(file) && Roots(fs) == [relative]
  {
    var fs := [Present(relative, [file])];
    assert fs[..0] == [] && [file][..0] == [];
    assert ReadablePairs([file]) == PairOf(file) && UnreadablePaths([file]) == UnreadableOf(file);
  }

  // ---------------------------------------------------------------------------------------------
  // Repeated passes settle
  // ---------------------------------------------------------------------------------------------

  /** Another pass over `fs` has nothing to add to and nothing to drop from `index`. */
  ghost predicate Settled(index: Index, fs: seq<Root>) {
    && RecordsOk(index)
    && (forall pair :: Knows(index, pair) ==> pair in Readable(fs) || Spared(fs, pair.path))
    && (forall pair :: pair in Readable(fs) ==> Filed(index, pair))
    && (forall hash, path :: hash in index && path in index[hash].duplicates ==> path in index[hash].known)
  }

  /** Only a freshly promoted canonical path leaves the duplicates. */
  function Cleaned(index: Index): Index {
    map hash | hash in index :: CleanRecord(index[hash])
  }

  lemma PassSettles(index: Index, previous: map<Path, Hash>, fs: seq<Root>)
    requires RecordsOk(index)
    ensures Settled(Reconcile(Scanned(index, previous, fs)), fs)
  {
    PassExact(index, previous, fs);
    ScanRootsKeep(index, previous, fs);
    var s := Scanned(index, previous, fs);
    var result := Reconcile(s);
    forall hash, path | hash in result && path in result[hash].duplicates ensures path in result[hash].known {
      ReconciledRecord(s, hash, s.index[hash]);
    }
    forall pair | pair in Readable(fs) ensures Filed(result, pair) {
      assert Knows(result, pair) && Filed(s.index, pair);
      assert pair.path in Seen(s.seen, pair.hash);
      ReconciledRecord(s, pair.hash, s.index[pair.hash]);
    }
  }

  /** Scanning a settled index changes nothing in it and reports nothing new. */
  ghost predicate Quiet(index: Index, previous: map<Path, Hash>, s: Scan) {
    && s.index == index && s.report.newImages == 0 && s.report.duplicates == []
    && (Disjoint(index) && IsPathMap(index, previous) ==> s.report.changed == [])
  }

  lemma ScanFileQuiet(index: Index, previous: map<Path, Hash>, s: Scan, file: File)
    requires Quiet(index, previous, s) && forall pair :: pair in PairOf(file) ==> Filed(index, pair)
    ensures Quiet(index, previous, ScanFile(previous, s, file))
  {
    if file.Image? && file.content.Some? {
      var pair := Pair(file.content.value, file.path);
      assert pair in PairOf(file);
      assert index[pair.hash := index[pair.hash]] == index;
      if Disjoint(index) && IsPathMap(index, previous) {
        assert KnowsPath(index, pair.hash, pair.path);
        assert Knows(index, Pair(previous[pair.path], pair.path));
      }
    }
  }

  lemma {:induction false} ScanFilesQuiet(index: Index, previous: map<Path, Hash>, s: Scan, files: seq<File>)
    requires Quiet(index, previous, s) && forall pair :: pair in ReadablePairs(files) ==> Filed(index, pair)
    ensures Quiet(index, previous, ScanFiles(previous, s, files))
  {
    if files != [] {
      var init, last := files[..|files| - 1], files[|files| - 1];
      ScanFilesQuiet(index, previous, s, init);
      ScanFileQuiet(index, previous, ScanFiles(previous, s, init), last);
    }
  }

  lemma {:induction false} ScanRootsQuiet(index: Index, previous: map<Path, Hash>, fs: seq<Root>)
    requires forall pair :: pair in Readable(fs) ==> Filed(index, pair)
    ensures Quiet(index, previous, Scanned(index, previous, fs))
  {
    if fs != [] {
      var init, last := fs[..|fs| - 1], fs[|fs| - 1];
      ScanRootsQuiet(index, previous, init);
      if last.Present? {
        var s := Scanned(index, previous, init);
        ScanFilesQuiet(index, previous, s.(roots := s.roots + [last.relative]), last.files);
      }
    }
  }

  /** A pass over a settled index only drops promoted canonical paths from the duplicates. */
  lemma SettledPass(index: Index, previous: map<Path, Hash>, fs: seq<Root>)
    requires Settled(index, fs)
    ensures Quiet(index, previous, Scanned(index, previous, fs))
    ensures Reconcile(Scanned(index, previous, fs)) == Cleaned(index)
  {
    ScanRootsQuiet(index, previous, fs);
    ScanRootsKeep(index, previous, fs);
    var s := Scanned(index, previous, fs);
    forall hash | hash in index
      ensures RetainKnown(s, hash, index[hash].known) == index[hash].known
    {
      forall path | path in index[hash].known ensures Kept(s, hash, path) {
        var pair := Pair(hash, path);
        assert Knows(index, pair);
        assert pair.path in Seen(s.seen, pair.hash) <==> pair in Readable(fs);
      }
      RetainKnownMembers(s, hash, index[hash].known);
    }
    NothingDropped(index, s);
  }

  lemma NothingDropped(index: Index, s: Scan)
    requires s.index == index && RecordsOk(index)
    requires forall hash :: hash in index ==> RetainKnown(s, hash, index[hash].known) == index[hash].known
    ensures Reconcile(s) == Cleaned(index)
  {
    forall hash | hash in index ensures hash in Reconcile(s) && Reconcile(s)[hash] == Cleaned(index)[hash] {
      assert RecordOk(index[hash]);
    }
    assert Reconcile(s).Keys == Cleaned(index).Keys;
  }

  function CleanRecord(record: Record): Record {
    record.(duplicates := RetainDuplicates(record.known, record.canonical, record.duplicates))
  }

  lemma CleanRecordTwice(record: Record)
    ensures CleanRecord(CleanRecord(record)) == CleanRecord(record)
    ensures forall path :: path in CleanRecord(record).duplicates <==>
              path in record.duplicates && path in record.known && path != record.canonical
  {
    RetainDuplicatesMembers(record.known, record.canonical, record.duplicates);
    RetainDuplicatesMembers(record.known, record.canonical, CleanRecord(record).duplicates);
  }

  lemma CleanedSettles(index: Index, fs: seq<Root>)
    requires Settled(index, fs)
    ensures Settled(Cleaned(index), fs) && Cleaned(Cleaned(index)) == Cleaned(index)
  {
    var clean := Cleaned(index);
    forall hash | hash in index
      ensures clean[hash] == CleanRecord(index[hash]) && RecordOk(clean[hash])
      ensures Cleaned(clean)[hash] == clean[hash]
      ensures forall path :: path in clean[hash].duplicates ==> path in clean[hash].known
    {
      CleanRecordTwice(index[hash]);
      assert RecordOk(index[hash]);
    }
    forall pair | pair in Readable(fs) ensures Filed(clean, pair) {
      assert Filed(index, pair);
      CleanRecordTwice(index[pair.hash]);
    }
    forall pair | Knows(clean, pair) ensures pair in Readable(fs) || Spared(fs, pair.path) {
      assert Knows(index, pair);
    }
  }

  /** Outside the reconciled roots, what reads now has at least the hash of everything filed at its path. */
  ghost predicate NewestOutsideRoots(index: Index, fs: seq<Root>) {
    forall before, now :: Knows(index, before) && now in Readable(fs) && before.path == now.path
                          && !PathInRoots(now.path, Roots(fs)) ==>
      before.hash <= now.hash
  }

  /** A change is reported again by the second pass exactly when its old record was kept and outranks the new one
      in the path map. */
  lemma SecondPassChanges(index: Index, previous: map<Path, Hash>, fs: seq<Root>, previous2: map<Path, Hash>)
    requires RecordsOk(index) && Consistent(fs)
    requires IsPathMap(Reconcile(Scanned(index, previous, fs)), previous2)
    ensures Scanned(Reconcile(Scanned(index, previous, fs)), previous2, fs).report.changed == []
            <==> NewestOutsideRoots(index, fs)
  {
    var first := Reconcile(Scanned(index, previous, fs));
    PassExact(index, previous, fs);
    var changed := Scanned(first, previous2, fs).report.changed;
    if changed != [] {
      var c := changed[0];
      ChangeIsReal(first, previous2, fs, c);
      var before, now := Pair(c.previous, c.path), Pair(c.current, c.path);
      ChangeOutranks(first, previous2, fs, before, now);
    }
    if before, now :| Knows(index, before) && now in Readable(fs) && before.path == now.path
                      && !PathInRoots(now.path, Roots(fs)) && before.hash > now.hash {
      OutrankedIsListed(first, previous2, fs, before, now);
    }
  }

  lemma ChangeOutranks(index: Index, previous: map<Path, Hash>, fs: seq<Root>, before: Pair, now: Pair)
    requires RecordsOk(index) && IsPathMap(index, previous) && Knows(index, now) && now.path == before.path
    requires Changed(now.path, before.hash, now.hash) in Scanned(index, previous, fs).report.changed
    ensures before.hash > now.hash
  {
    ScanRootsKeep(index, previous, fs);
    assert KnowsPath(index, now.hash, now.path);
  }

  lemma OutrankedIsListed(index: Index, previous: map<Path, Hash>, fs: seq<Root>, before: Pair, now: Pair)
    requires RecordsOk(index) && IsPathMap(index, previous)
    requires Knows(index, before) && now in Readable(fs) && before.path == now.path && before.hash > now.hash
    ensures Scanned(index, previous, fs).report.changed != []
  {
    ScanRootsKeep(index, previous, fs);
    assert KnowsPath(index, before.hash, before.path);
    assert Pair(now.hash, now.path) == now;
    assert Changed(now.path, previous[now.path], now.hash) in Scanned(index, previous, fs).report.changed;
  }

  /** Over a fixed file system the second pass finds nothing new and only drops a freshly promoted
      canonical path from the duplicates; the third pass equals the second; and the second pass reports
      no change exactly when no kept record outside the roots outranks what reads now at one of its paths. */
  lemma PassesSettle(index: Index, previous: map<Path, Hash>, fs: seq<Root>,
                     previous2: map<Path, Hash>, previous3: map<Path, Hash>)
    requires RecordsOk(index)
    ensures var first := Reconcile(Scanned(index, previous, fs));
            var scan2 := Scanned(first, previous2, fs);
            var second := Reconcile(scan2);
            && scan2.report.newImages == 0 && scan2.report.duplicates == []
            && second == Cleaned(first)
            && Reconcile(Scanned(second, previous3, fs)) == second
            && (Disjoint(first) && IsPathMap(first, previous2) ==> scan2.report.changed == [])
            && (Consistent(fs) && IsPathMap(first, previous2) ==>
                  (scan2.report.changed == [] <==> NewestOutsideRoots(index, fs)))
  {
    var first := Reconcile(Scanned(index, previous, fs));
    PassSettles(index, previous, fs);
    SettledPass(first, previous2, fs);
    CleanedSettles(first, fs);
    SettledPass(Cleaned(first), previous3, fs);
    if Consistent(fs) && IsPathMap(first, previous2) { SecondPassChanges(index, previous, fs, previous2); }
  }

  /** A path that was a duplicate, but not canonical, and is read again stays listed. */
  lemma LeftIsListed(index: Index, previous: map<Path, Hash>, fs: seq<Root>, hash: Hash, path: Path)
    requires RecordsOk(index) && (forall pair :: pair in Readable(fs) ==> Filed(index, pair))
    requires hash in index && path in index[hash].duplicates && path != index[hash].canonical
    requires Pair(hash, path) in Readable(fs)
    ensures var first := Reconcile(Scanned(index, previous, fs));
            hash in first && path in first[hash].duplicates
  {
    ScanRootsQuiet(index, previous, fs);
    PassExact(index, previous, fs);
    var s := Scanned(index, previous, fs);
    assert Knows(Reconcile(s), Pair(hash, path));
    assert RecordOk(index[hash]);
    ReconciledRecord(s, hash, index[hash]);
  }

  /** One pass need not be clean: when the canonical file of a duplicated image disappears, the promoted
      path is still listed among the duplicates. */
  lemma PromotionLingers(root: Path, gone: Path, left: Path, index: Index, previous: map<Path, Hash>, fs: seq<Root>)
    requires gone != left && PathInRoots(gone, [root])
    requires index.Keys == {1} && index[1] == Record(gone, [gone, left], [left], gone.text, 0)
    requires fs == [Present(root, [Image(left, Some(1), 0)])]
    ensures RecordsOk(index) && Disjoint(index)
    ensures var first := Reconcile(Scanned(index, previous, fs));
            1 in first && first[1].canonical == left && left in first[1].duplicates
  {
    OneFile(root, Image(left, Some(1), 0));
    TwoPathsInIndex(index, gone, left);
    assert Pair(1, left) in Readable(fs);
    PassExact(index, previous, fs);
    LeftIsListed(index, previous, fs, 1, left);
    OnlyLeftRemains(index, fs, Reconcile(Scanned(index, previous, fs)), gone, left);
  }

  lemma TwoPathsInIndex(index: Index, gone: Path, left: Path)
    requires gone != left && index.Keys == {1} && index[1] == Record(gone, [gone, left], [left], gone.text, 0)
    ensures RecordsOk(index) && Disjoint(index) && Filed(index, Pair(1, left))
    ensures left in index[1].duplicates
    ensures forall pair :: Knows(index, pair) ==> pair.path == gone || pair.path == left
  {
    assert index[1].known[1] == left && index[1].duplicates[0] == left;
  }

  lemma OnlyLeftRemains(index: Index, fs: seq<Root>, first: Index, gone: Path, left: Path)
    requires RecordsOk(first) && 1 in first
    requires forall pair :: Knows(first, pair) ==> pair in Readable(fs) || (Knows(index, pair) && Spared(fs, pair.path))
    requires Readable(fs) == {Pair(1, left)} && !Spared(fs, gone)
    requires forall pair :: Knows(index, pair) ==> pair.path == gone || pair.path == left
    ensures first[1].canonical == left
  {
    assert RecordOk(first[1]);
    assert Knows(first, Pair(1, first[1].canonical));
  }
}
