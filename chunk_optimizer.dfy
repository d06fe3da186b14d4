/**
 * The chunk store of the scheme finder (utils/chunk_optimizer.py): chunk files
 * named `state_<state>_doc_<n>_chunks.txt` are grouped by state, looked up by a
 * normalised state name, summarised in statistics, checked against the
 * compressed archive and, on request, deleted.
 *
 * The file system is an input: the glob's result is a sequence of files in the
 * order the glob returned them, each with its text or `None` when opening or
 * reading it raised. The compressed archive is an input too.
 */
module ChunkOptimizer {
  import opened Text
  import opened Optional

  /** The value the state selector shows before a state is chosen. */
  const StatePlaceholder: string := "Select your state"

  /** A path the glob returned, with the file's text or `None` when `open`/`read` raised. */
  datatype ChunkFile = ChunkFile(path: string, content: Option<string>)

  /** The state of the compressed archive `chunks/compressed_chunks.json.gz`. */
  datatype Archive =
    | Missing                                   // the file does not exist
    | Unreadable                                // gzip or JSON decoding raised
    | Stored(data: map<string, seq<string>>)    // what decoding returned

  /** A path the clean-up glob returned, and whether `os.remove` on it succeeds. */
  datatype Removal = Removal(path: string, removes: bool)

  /** Why `cleanup_original_chunks` stopped, or how many files it deleted. */
  datatype CleanupOutcome = NotConfirmed | IntegrityFailed | Deleted(count: nat)

  /** The dictionary `get_chunk_statistics` returns. */
  datatype ChunkStatistics = ChunkStatistics(
    totalStates: nat,
    totalChunks: nat,
    chunksByState: map<string, nat>,
    averageChunkSize: nat,
    totalContentSize: nat)

  /** The dictionary `get_memory_usage_estimate` returns. */
  datatype MemoryEstimate = MemoryEstimate(
    allChunksLoaded: nat,
    singleStateAverage: nat,
    compressedFileSize: nat)

  // ---------------------------------------------------------------------------
  // Grouping chunk files by state
  // ---------------------------------------------------------------------------

  /** `os.path.basename` (POSIX form): the text after the last `/`, or all of `path` when it holds none. */
  function Basename(path: string): (b: string)
    ensures '/' !in b
    ensures |b| <= |path| && b == path[|path| - |b|..]
    ensures |b| == |path| || path[|path| - |b| - 1] == '/'
  {
    if path == [] || path[|path| - 1] == '/' then []
    else Basename(path[..|path| - 1]) + [path[|path| - 1]]
  }

  /** The `_`-separated fields of a chunk file's name. */
  function NameFields(f: ChunkFile): seq<string> {
    Split(Basename(f.path), '_')
  }

  /** The loader reads a file only when its name has a second field to serve as the state. */
  predicate HasStateField(f: ChunkFile) {
    |NameFields(f)| >= 3
  }

  /** The state a chunk file belongs to: the second field of its name. */
  function StateOf(f: ChunkFile): string
    requires HasStateField(f)
  {
    NameFields(f)[1]
  }

  /** A file contributes a chunk: it names a state, it could be read, and its stripped text is not empty. */
  predicate Accepted(f: ChunkFile) {
    HasStateField(f) && f.content.Some? && Strip(f.content.value) != []
  }

  /** The chunk an accepted file contributes: its stripped text. */
  function ChunkOf(f: ChunkFile): string
    requires Accepted(f)
  {
    Strip(f.content.value)
  }

  /** One iteration of the loader's loop. */
  function AddFile(m: map<string, seq<string>>, f: ChunkFile): map<string, seq<string>> {
    if Accepted(f) then
      var k := StateOf(f);
      m[k := (if k in m then m[k] else []) + [ChunkOf(f)]]
    else m
  }

  /** The dictionary the loader builds from the files processed so far. */
  function Organize(files: seq<ChunkFile>): map<string, seq<string>> {
    if files == [] then map[] else AddFile(Organize(files[..|files| - 1]), files[|files| - 1])
  }

  /** Reference definition, state by state: the chunks of the accepted files of state `k`, in file order. */
  function ChunksFor(files: seq<ChunkFile>, k: string): (chunks: seq<string>)
    ensures |chunks| <= |files|
  {
    if files == [] then []
    else
      var f := files[|files| - 1];
      ChunksFor(files[..|files| - 1], k) + (if Accepted(f) && StateOf(f) == k then [ChunkOf(f)] else [])
  }

  /** Number of files that contribute a chunk. */
  function AcceptedCount(files: seq<ChunkFile>): (n: nat)
    ensures n <= |files|
  {
    if files == [] then 0
    else AcceptedCount(files[..|files| - 1]) + (if Accepted(files[|files| - 1]) then 1 else 0)
  }

  /**
   * The loader groups exactly by state: a state is a key precisely when one of
   * its files contributes a chunk, and its list holds those chunks in file order.
   */
  lemma {:induction false} OrganizeGroups(files: seq<ChunkFile>, k: string)
    ensures k in Organize(files) <==> ChunksFor(files, k) != []
    ensures k in Organize(files) ==> Organize(files)[k] == ChunksFor(files, k)
  {
    if files != [] {
      OrganizeGroups(files[..|files| - 1], k);
    }
  }

  /** A dictionary as the loader leaves it: no empty list, every chunk non-empty and already stripped. */
  ghost predicate WellFormed(m: map<string, seq<string>>) {
    forall k :: k in m ==>
      && m[k] != []
      && forall i :: 0 <= i < |m[k]| ==> m[k][i] != [] && Strip(m[k][i]) == m[k][i]
  }

  /** Every dictionary the loader builds is well formed. */
  lemma {:induction false} OrganizeWellFormed(files: seq<ChunkFile>)
    ensures WellFormed(Organize(files))
  {
    if files != [] {
      var f := files[|files| - 1];
      var m := Organize(files[..|files| - 1]);
      OrganizeWellFormed(files[..|files| - 1]);
      AddFileCases(m, f);
      if Accepted(f) {
        StripIdempotent(f.content.value);
        var k := StateOf(f);
        var m' := m[k := (if k in m then m[k] else []) + [ChunkOf(f)]];
        assert Organize(files) == m';
        forall j | j in m' ensures m'[j] != [] && forall i :: 0 <= i < |m'[j]| ==> m'[j][i] != [] && Strip(m'[j][i]) == m'[j][i] {
          if j != k {
            assert m'[j] == m[j];
          }
        }
      }
    }
  }

  /** A key of a loaded dictionary is the second name field of one of the files. */
  lemma {:induction false} OrganizeKeysFromFiles(files: seq<ChunkFile>, k: string)
    requires k in Organize(files)
    ensures exists i :: 0 <= i < |files| && Accepted(files[i]) && StateOf(files[i]) == k
  {
    var p := files[..|files| - 1];
    var f := files[|files| - 1];
    if Accepted(f) && StateOf(f) == k {
      assert files[|files| - 1] == f;
    } else {
      OrganizeKeysFromFiles(p, k);
      var i :| 0 <= i < |p| && Accepted(p[i]) && StateOf(p[i]) == k;
      assert files[i] == p[i];
    }
  }

  /** What one iteration of the loader's loop does, case by case. */
  lemma AddFileCases(m: map<string, seq<string>>, f: ChunkFile)
    ensures !Accepted(f) ==> AddFile(m, f) == m
    ensures Accepted(f) ==>
      var k := StateOf(f);
      AddFile(m, f) == m[k := (if k in m then m[k] else []) + [ChunkOf(f)]]
  {
  }

  /** The loader's dictionary after one more file. */
  lemma OrganizeStep(files: seq<ChunkFile>, i: nat)
    requires i < |files|
    ensures Organize(files[..i + 1]) == AddFile(Organize(files[..i]), files[i])
  {
    assert files[..i + 1][..i] == files[..i];
  }

  /**
   * `load_and_organize_chunks`: walks the glob's files in order, skips those
   * that raise, and appends each non-empty stripped text to its state's list.
   */
  method LoadAndOrganizeChunks(files: seq<ChunkFile>) returns (chunksByState: map<string, seq<string>>)
    ensures chunksByState == Organize(files)
    ensures WellFormed(chunksByState)
    ensures TotalChunks(chunksByState) == AcceptedCount(files) <= |files|
  {
    chunksByState := map[];
    for i := 0 to |files|
      invariant chunksByState == Organize(files[..i])
    {
      var file := files[i];
      ghost var before := chunksByState;
      AddFileCases(before, file);
      var parts := Split(Basename(file.path), '_');
      if |parts| >= 3 {
        var stateName := parts[1];
        match file.content
        case None =>
          // opening or reading raised: the file is skipped
          assert !Accepted(file);
        case Some(text) =>
          var content := Strip(text);
          if content != [] {
            assert Accepted(file) && StateOf(file) == stateName && ChunkOf(file) == content;
            // a new state starts with an empty list; the chunk is appended to it
            var stateChunks := if stateName in chunksByState then chunksByState[stateName] else [];
            chunksByState := chunksByState[stateName := stateChunks + [content]];
          } else {
            assert !Accepted(file);
          }
      } else {
        assert !Accepted(file);
      }
      assert chunksByState == AddFile(before, file);
      OrganizeStep(files, i);
    }
    assert files[..|files|] == files;
    OrganizeWellFormed(files);
    OrganizeTotal(files);
  }

  // ---------------------------------------------------------------------------
  // Sums over the states of a dictionary
  // ---------------------------------------------------------------------------

  /** The sum of `w[k]` over the keys `ks`, in no particular order. */
  ghost function SumSet(ks: set<string>, w: map<string, nat>): nat
    requires ks <= w.Keys
    decreases ks
  {
    if ks == {} then 0 else var k :| k in ks; w[k] + SumSet(ks - {k}, w)
  }

  /** Any key can be taken out of the sum first: the sum does not depend on the order of the keys. */
  lemma SumSetRemove(ks: set<string>, w: map<string, nat>, k: string)
    requires ks <= w.Keys && k in ks
    ensures SumSet(ks, w) == w[k] + SumSet(ks - {k}, w)
    decreases ks
  {
    var j :| j in ks && SumSet(ks, w) == w[j] + SumSet(ks - {j}, w);
    if j != k {
      SumSetRemove(ks - {j}, w, k);
      SumSetRemove(ks - {k}, w, j);
      assert ks - {j} - {k} == ks - {k} - {j};
    }
  }

  /** Weights that agree on `ks` have the same sum over `ks`. */
  lemma SumSetAgree(ks: set<string>, w1: map<string, nat>, w2: map<string, nat>)
    requires ks <= w1.Keys && ks <= w2.Keys
    requires forall k :: k in ks ==> w1[k] == w2[k]
    ensures SumSet(ks, w1) == SumSet(ks, w2)
    decreases ks
  {
    if ks != {} {
      var k :| k in ks && SumSet(ks, w1) == w1[k] + SumSet(ks - {k}, w1);
      SumSetAgree(ks - {k}, w1, w2);
      SumSetRemove(ks, w2, k);
    }
  }

  /** Weights that are pointwise no larger have no larger sum. */
  lemma SumSetMonotone(ks: set<string>, w1: map<string, nat>, w2: map<string, nat>)
    requires ks <= w1.Keys && ks <= w2.Keys
    requires forall k :: k in ks ==> w1[k] <= w2[k]
    ensures SumSet(ks, w1) <= SumSet(ks, w2)
    decreases ks
  {
    if ks != {} {
      var k :| k in ks && SumSet(ks, w1) == w1[k] + SumSet(ks - {k}, w1);
      SumSetMonotone(ks - {k}, w1, w2);
      SumSetRemove(ks, w2, k);
    }
  }

  /** The number of chunks of each state, keyed like the dictionary itself. */
  function CountsByState(m: map<string, seq<string>>): (counts: map<string, nat>)
    ensures counts.Keys == m.Keys
    ensures forall k :: k in m ==> counts[k] == |m[k]|
  {
    map k | k in m :: |m[k]|
  }

  /** The number of chunks over all states. */
  ghost function TotalChunks(m: map<string, seq<string>>): nat {
    SumSet(m.Keys, CountsByState(m))
  }

  /** Total size of a state's chunks, each measured in UTF-8 bytes. */
  function ContentSize(chunks: seq<string>): nat {
    if chunks == [] then 0 else ContentSize(chunks[..|chunks| - 1]) + Utf8Length(chunks[|chunks| - 1])
  }

  /** Byte size of each state's chunks. */
  function SizesByState(m: map<string, seq<string>>): (sizes: map<string, nat>)
    ensures sizes.Keys == m.Keys
  {
    map k | k in m :: ContentSize(m[k])
  }

  /** Byte size of all chunks of all states. */
  ghost function TotalContentSize(m: map<string, seq<string>>): nat {
    SumSet(m.Keys, SizesByState(m))
  }

  /** Adding one file to the dictionary adds one chunk to the total exactly when the file is accepted. */
  lemma AddFileTotal(m: map<string, seq<string>>, f: ChunkFile)
    ensures TotalChunks(AddFile(m, f)) == TotalChunks(m) + (if Accepted(f) then 1 else 0)
  {
    AddFileCases(m, f);
    if Accepted(f) {
      var k := StateOf(f);
      var old_k: seq<string> := if k in m then m[k] else [];
      var m' := m[k := old_k + [ChunkOf(f)]];
      assert AddFile(m, f) == m';
      var c, c' := CountsByState(m), CountsByState(m');
      assert c'[k] == |old_k| + 1;
      assert m'.Keys - {k} == m.Keys - {k};
      SumSetRemove(m'.Keys, c', k);
      SumSetAgree(m.Keys - {k}, c, c');
      if k in m {
        SumSetRemove(m.Keys, c, k);
      } else {
        assert m.Keys - {k} == m.Keys;
      }
    }
  }

  /** The loader stores one chunk per accepted file, hence never more chunks than files. */
  lemma {:induction false} OrganizeTotal(files: seq<ChunkFile>)
    ensures TotalChunks(Organize(files)) == AcceptedCount(files) <= |files|
  {
    if files != [] {
      OrganizeTotal(files[..|files| - 1]);
      AddFileTotal(Organize(files[..|files| - 1]), files[|files| - 1]);
    }
  }

  /** A chunk list with no empty chunk holds at least one byte per chunk. */
  lemma {:induction false} ContentSizeAtLeastCount(chunks: seq<string>)
    requires forall i :: 0 <= i < |chunks| ==> chunks[i] != []
    ensures ContentSize(chunks) >= |chunks|
  {
    if chunks != [] {
      ContentSizeAtLeastCount(chunks[..|chunks| - 1]);
    }
  }

  /** In a well-formed dictionary the content is at least one byte per chunk, so the average chunk size is at least 1. */
  lemma WellFormedSizeBound(m: map<string, seq<string>>)
    requires WellFormed(m)
    ensures TotalContentSize(m) >= TotalChunks(m)
  {
    forall k | k in m ensures CountsByState(m)[k] <= SizesByState(m)[k] {
      ContentSizeAtLeastCount(m[k]);
    }
    SumSetMonotone(m.Keys, CountsByState(m), SizesByState(m));
  }

  // ---------------------------------------------------------------------------
  // Statistics
  // ---------------------------------------------------------------------------

  /** Moving one key from the keys still to visit to the visited ones adds its weight to the running sum. */
  lemma SumSetStep(keys: set<string>, todo: set<string>, w: map<string, nat>, k: string)
    requires todo <= keys <= w.Keys && k in todo
    ensures SumSet(keys - (todo - {k}), w) == SumSet(keys - todo, w) + w[k]
  {
    assert keys - (todo - {k}) - {k} == keys - todo;
    SumSetRemove(keys - (todo - {k}), w, k);
  }

  /** Adds up the chunk counts of all states, visiting the states in any order. */
  method SumChunkCounts(allChunks: map<string, seq<string>>) returns (total: nat)
    ensures total == TotalChunks(allChunks)
  {
    var keys := allChunks.Keys;
    ghost var counts := CountsByState(allChunks);
    total := 0;
    var todo := keys;
    while todo != {}
      invariant todo <= keys
      invariant total == SumSet(keys - todo, counts)
      decreases todo
    {
      var k :| k in todo;
      SumSetStep(keys, todo, counts, k);
      total := total + |allChunks[k]|;
      todo := todo - {k};
    }
    assert keys - {} == keys;
  }

  /**
   * The nested loop of the statistics: the UTF-8 size of every chunk of every
   * state, and how many chunks it visited.
   */
  method MeasureAllChunks(allChunks: map<string, seq<string>>) returns (totalContentSize: nat, totalChunkCount: nat)
    ensures totalContentSize == TotalContentSize(allChunks)
    ensures totalChunkCount == TotalChunks(allChunks)
  {
    var keys := allChunks.Keys;
    ghost var counts := CountsByState(allChunks);
    ghost var sizes := SizesByState(allChunks);
    totalContentSize := 0;
    totalChunkCount := 0;
    var todo := keys;
    while todo != {}
      invariant todo <= keys
      invariant totalContentSize == SumSet(keys - todo, sizes)
      invariant totalChunkCount == SumSet(keys - todo, counts)
      decreases todo
    {
      var k :| k in todo;
      var chunks := allChunks[k];
      SumSetStep(keys, todo, counts, k);
      SumSetStep(keys, todo, sizes, k);
      for i := 0 to |chunks|
        invariant totalContentSize == SumSet(keys - todo, sizes) + ContentSize(chunks[..i])
        invariant totalChunkCount == SumSet(keys - todo, counts) + i
      {
        assert chunks[..i + 1][..i] == chunks[..i];
        totalContentSize := totalContentSize + Utf8Length(chunks[i]);
        totalChunkCount := totalChunkCount + 1;
      }
      assert chunks[..|chunks|] == chunks;
      todo := todo - {k};
    }
    assert keys - {} == keys;
  }

  /** Python's `a // b` on naturals, the rounded-down quotient. */
  function NatDiv(a: nat, b: nat): (q: nat)
    requires b > 0
    ensures q * b <= a < (q + 1) * b
  {
    a / b
  }

  /**
   * `get_chunk_statistics` on the dictionary `all_chunks`: the number of
   * states, the number of chunks (in total and by state), their total UTF-8
   * size, and the integer average chunk size (0 when there is no chunk).
   */
  method GetChunkStatistics(allChunks: map<string, seq<string>>) returns (stats: ChunkStatistics)
    ensures stats.totalStates == |allChunks|
    ensures stats.chunksByState.Keys == allChunks.Keys
    ensures forall k :: k in allChunks ==> stats.chunksByState[k] == |allChunks[k]|
    ensures stats.totalChunks == TotalChunks(allChunks) == SumSet(stats.chunksByState.Keys, stats.chunksByState)
    ensures stats.totalContentSize == TotalContentSize(allChunks)
    ensures stats.averageChunkSize == if stats.totalChunks > 0 then NatDiv(stats.totalContentSize, stats.totalChunks) else 0
  {
    var totalChunks := SumChunkCounts(allChunks);
    var chunksByState := CountsByState(allChunks);

    // the nested loop over every chunk of every state
    var totalContentSize, totalChunkCount := MeasureAllChunks(allChunks);
    assert totalChunkCount == totalChunks;
    var averageChunkSize: nat := 0;
    if totalChunkCount > 0 {
      averageChunkSize := NatDiv(totalContentSize, totalChunkCount);
    }
    stats := ChunkStatistics(
      totalStates := |allChunks|,
      totalChunks := totalChunks,
      chunksByState := chunksByState,
      averageChunkSize := averageChunkSize,
      totalContentSize := totalContentSize);
  }

  /**
   * `get_memory_usage_estimate`: all chunks' size, the integer average per
   * state (0 when there is no state) and the archive's size (0 when it is absent).
   */
  function MemoryUsageEstimate(stats: ChunkStatistics, archiveSize: Option<nat>): (r: MemoryEstimate)
    ensures r.allChunksLoaded == stats.totalContentSize
    ensures stats.totalStates == 0 ==> r.singleStateAverage == 0
    ensures stats.totalStates > 0 ==>
      r.singleStateAverage * stats.totalStates <= stats.totalContentSize < (r.singleStateAverage + 1) * stats.totalStates
    ensures r.compressedFileSize == if archiveSize.Some? then archiveSize.value else 0
  {
    MemoryEstimate(
      allChunksLoaded := stats.totalContentSize,
      singleStateAverage := if stats.totalStates > 0 then NatDiv(stats.totalContentSize, stats.totalStates) else 0,
      compressedFileSize := archiveSize.GetOr(0))
  }

  // ---------------------------------------------------------------------------
  // Lookup by state
  // ---------------------------------------------------------------------------

  /**
   * The key `get_chunks_for_state` looks up: lower-cased, spaces removed,
   * "pradesh" replaced by itself. The last replacement does nothing, so the
   * key is the lower-cased name without its spaces.
   */
  function NormalizeStateName(stateName: string): (key: string)
    ensures key == RemoveChar(Lower(stateName), ' ')
    ensures ' ' !in key
    ensures forall c :: c in key ==> !('A' <= c <= 'Z')
  {
    ReplaceCharByEmpty(Lower(stateName), ' ');
    ReplaceIdentity(Replace(Lower(stateName), " ", ""), "pradesh");
    RemoveCharKeeps(Lower(stateName), ' ');
    Replace(Replace(Lower(stateName), " ", ""), "pradesh", "pradesh")
  }

  /** Every character that survives `RemoveChar` was in the input. */
  lemma {:induction false} RemoveCharKeeps(s: string, c: char)
    ensures forall x :: x in RemoveChar(s, c) ==> x in s
  {
    if s != [] {
      RemoveCharKeeps(s[1..], c);
    }
  }

  /**
   * `get_chunks_for_state`: nothing for an empty name or the placeholder,
   * otherwise the list stored under the normalised name, or nothing.
   */
  function GetChunksForState(stateName: string, allChunks: map<string, seq<string>>): (r: seq<string>)
    ensures stateName == [] || stateName == StatePlaceholder ==> r == []
    ensures stateName != [] && stateName != StatePlaceholder ==>
      var key := RemoveChar(Lower(stateName), ' ');
      r == if key in allChunks then allChunks[key] else []
  {
    if stateName == [] || stateName == StatePlaceholder then []
    else
      var key := NormalizeStateName(stateName);
      if key in allChunks then allChunks[key] else []
  }

  /**
   * Looking a state up in freshly loaded chunks yields exactly that state's
   * stripped, non-empty chunks in file order.
   */
  lemma GetChunksForLoadedState(stateName: string, files: seq<ChunkFile>)
    requires stateName != [] && stateName != StatePlaceholder
    ensures GetChunksForState(stateName, Organize(files)) == ChunksFor(files, RemoveChar(Lower(stateName), ' '))
    ensures forall c :: c in GetChunksForState(stateName, Organize(files)) ==> c != [] && Strip(c) == c
  {
    OrganizeGroups(files, RemoveChar(Lower(stateName), ' '));
    OrganizeWellFormed(files);
  }

  // ---------------------------------------------------------------------------
  // The compressed archive, integrity check and clean-up
  // ---------------------------------------------------------------------------

  /**
   * `get_compressed_chunks_data`: the archive's contents when it decodes,
   * otherwise the chunks loaded afresh from the files.
   */
  method GetCompressedChunksData(archive: Archive, files: seq<ChunkFile>) returns (data: map<string, seq<string>>)
    ensures archive.Stored? ==> data == archive.data
    ensures !archive.Stored? ==> data == Organize(files) && WellFormed(data)
  {
    match archive
    case Stored(d) =>
      data := d;
    case Unreadable =>
      data := LoadAndOrganizeChunks(files);
    case Missing =>
      data := LoadAndOrganizeChunks(files);
  }

  /**
   * `validate_chunk_integrity`: the freshly loaded chunks equal the archive's.
   * It can only fail when a decodable archive exists and differs from the files.
   */
  method ValidateChunkIntegrity(files: seq<ChunkFile>, archive: Archive) returns (ok: bool)
    ensures ok <==> (archive.Stored? ==> archive.data == Organize(files))
  {
    var originalChunks := LoadAndOrganizeChunks(files);
    var compressedChunks := GetCompressedChunksData(archive, files);
    ok := originalChunks == compressedChunks;
  }

  /** An archive holding an empty list or an unstripped chunk never passes the integrity check. */
  lemma MalformedArchiveFailsIntegrity(files: seq<ChunkFile>, data: map<string, seq<string>>)
    requires !WellFormed(data)
    ensures data != Organize(files)
  {
    OrganizeWellFormed(files);
  }

  /** The paths whose removal succeeds, in glob order. */
  function RemovedPaths(targets: seq<Removal>): (r: seq<string>)
    ensures |r| <= |targets|
    ensures forall p :: p in r ==> exists i :: 0 <= i < |targets| && targets[i].path == p && targets[i].removes
    ensures forall i :: 0 <= i < |targets| && targets[i].removes ==> targets[i].path in r
  {
    if targets == [] then []
    else
      var last := targets[|targets| - 1];
      RemovedPaths(targets[..|targets| - 1]) + (if last.removes then [last.path] else [])
  }

  /**
   * `cleanup_original_chunks`: deletes nothing unless `confirm` is set and the
   * integrity check passes; then removes every path of the glob, counting the
   * removals that succeed.
   */
  method CleanupOriginalChunks(confirm: bool, files: seq<ChunkFile>, archive: Archive, targets: seq<Removal>)
    returns (outcome: CleanupOutcome, deleted: seq<string>)
    ensures !confirm ==> outcome == NotConfirmed && deleted == []
    ensures confirm && archive.Stored? && archive.data != Organize(files) ==> outcome == IntegrityFailed && deleted == []
    ensures deleted != [] ==> confirm && (archive.Stored? ==> archive.data == Organize(files))
    ensures confirm && (archive.Stored? ==> archive.data == Organize(files)) ==>
      outcome == Deleted(|deleted|) && deleted == RemovedPaths(targets)
    ensures outcome.Deleted? ==> outcome.count <= |targets|
  {
    deleted := [];
    if !confirm {
      return NotConfirmed, deleted;
    }
    var valid := ValidateChunkIntegrity(files, archive);
    if !valid {
      return IntegrityFailed, deleted;
    }
    var deletedCount := 0;
    for i := 0 to |targets|
      invariant deleted == RemovedPaths(targets[..i])
      invariant deletedCount == |deleted|
    {
      assert targets[..i + 1][..i] == targets[..i];
      if targets[i].removes {
        deleted := deleted + [targets[i].path];
        deletedCount := deletedCount + 1;
      }
    }
    assert targets[..|targets|] == targets;
    outcome := Deleted(deletedCount);
  }
}
