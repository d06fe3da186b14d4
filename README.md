# RightScheme AI performance helpers, modelled in Dafny

RightScheme AI answers questions about government schemes, drawing on text
chunks stored one file per document and state. Three Python files prepare
and serve those chunks and the Streamlit session:

- `utils/chunk_optimizer.py` groups the chunk files by state into a
  dictionary of lists and keeps a compressed copy of it. It looks one
  state's chunks up and reports statistics: counts, UTF-8 byte sizes and
  integer averages. It deletes the original files only after a confirmed
  integrity check.
- `optimize_app.py` is the pre-deployment script. It checks that the
  required packages import, minifies the stylesheet line by line, and
  counts how many of its six steps succeeded to decide its exit status.
- `utils/performance_utils.py` initialises the session state once. It loads
  one state's chunk files on demand, wraps functions in a timing
  decorator, and turns scheme recommendations into plain records for
  caching.

The model has four modules, one per source file plus shared text operations:

- `Text` (`text.dfy`): the Python `str` operations the scripts use, stated
  on `seq<char>`. These are `strip` (with the whole of Python's whitespace
  set), `split`, `join`, `replace`, `lower`, `startswith`, and the length
  of the UTF-8 encoding.
- `ChunkOptimizer` (`chunk_optimizer.dfy`): the chunk grouping, lookup,
  statistics, memory estimate, integrity check and clean-up. The file
  system is a sequence of `ChunkFile(path, content)` in glob order, where
  `content` is `None` when opening or reading the file raises. The
  compressed archive is an `Archive`: missing, undecodable, or holding a
  dictionary.
- `OptimizeApp` (`optimize_app.dfy`): `check_dependencies`, `optimize_css`
  and `main`. Importability is a predicate parameter.
- `PerformanceUtils` (`performance_utils.dfy`): `optimize_session_state`
  as a class over the session map, plus `load_chunks_on_demand`,
  `performance_timer` and the projection in `cached_scheme_recommendations`.
- `Optional` (`option.dfy`): the `Option` datatype.

The loops of the source (grouping, statistics, clean-up, dependency
collection, CSS filtering, on-demand loading) are methods with loop
invariants. Each is proved equal to a specification function, and the
source's promises are lemmas about those functions.

## Model

| member | source | states |
|---|---|---|
| ChunkOptimizer.LoadAndOrganizeChunks | utils/chunk_optimizer.py:37-66 | The dictionary built by the loop equals `Organize(files)`. It is well formed (no empty list; every chunk non-empty and stripped). The number of stored chunks equals the number of accepted files, which is at most the number of files. |
| ChunkOptimizer.OrganizeGroups | utils/chunk_optimizer.py:45-64 | A state is a key exactly when some accepted file has that state as its second name field. Its list is exactly those files' stripped contents, in file order. |
| ChunkOptimizer.OrganizeWellFormed | utils/chunk_optimizer.py:56-61 | No key maps to an empty list, and every stored chunk is non-empty and equal to its own `strip()`. |
| ChunkOptimizer.OrganizeKeysFromFiles | utils/chunk_optimizer.py:48-61 | Every key comes from an accepted file whose basename has at least three `_`-separated fields, with the key as the second field. |
| ChunkOptimizer.AddFileCases | utils/chunk_optimizer.py:51-61 | One loop iteration leaves the dictionary unchanged for a rejected file. For an accepted file it appends the stripped text to its state's list, starting a new list when the state is new. |
| ChunkOptimizer.OrganizeStep | utils/chunk_optimizer.py:45-64 | Processing one more file applies one iteration to the dictionary built so far. |
| ChunkOptimizer.AcceptedCount | utils/chunk_optimizer.py:45-64 | At most as many files contribute as were processed. |
| ChunkOptimizer.Basename | utils/chunk_optimizer.py:48 | The basename is a suffix of the path that contains no `/` and is either the whole path or preceded by a `/`: the text after the last `/`. |
| ChunkOptimizer.AddFile | utils/chunk_optimizer.py:51-61 | Definition of one loop iteration: an accepted file's stripped text is appended to its state's list, a new list when the state is new; any other file leaves the dictionary unchanged. `AddFileCases` states the cases. |
| ChunkOptimizer.ChunksFor | utils/chunk_optimizer.py:45-61 | Reference definition of one state's list: the stripped texts of that state's accepted files, in file order, at most one per file. `OrganizeGroups` proves the loader agrees with it. |
| ChunkOptimizer.AddFileTotal | utils/chunk_optimizer.py:58-61 | One file adds one chunk to the total exactly when it is accepted; otherwise the total is unchanged. |
| ChunkOptimizer.OrganizeTotal | utils/chunk_optimizer.py:45-64 | The total chunk count of the loaded dictionary is the number of accepted files, hence at most the number of files. |
| ChunkOptimizer.SumSetRemove | utils/chunk_optimizer.py:120 | A sum over the states can take out any one state first, so its value does not depend on the dictionary's iteration order. |
| ChunkOptimizer.SumSetAgree | utils/chunk_optimizer.py:120 | Sums over the same states with the same weights are equal. |
| ChunkOptimizer.SumSetMonotone | utils/chunk_optimizer.py:120-134 | Pointwise larger weights give a larger sum. |
| ChunkOptimizer.SumSetStep | utils/chunk_optimizer.py:132 | Visiting one more state adds its weight to the running sum. |
| ChunkOptimizer.CountsByState | utils/chunk_optimizer.py:121-123 | `chunks_by_state` has the same keys as the dictionary and maps each state to its list length. |
| ChunkOptimizer.SizesByState | utils/chunk_optimizer.py:132-134 | The per-state byte sizes have the same keys as the dictionary. |
| ChunkOptimizer.SumChunkCounts | utils/chunk_optimizer.py:120 | Summing the list lengths over the states, in any order, gives the total chunk count. |
| ChunkOptimizer.MeasureAllChunks | utils/chunk_optimizer.py:129-135 | The nested loop's byte total is the UTF-8 size of all chunks. Its chunk counter equals the total chunk count. |
| ChunkOptimizer.ContentSize | utils/chunk_optimizer.py:133-134 | Definition of a state's size: the sum of its chunks' UTF-8 byte lengths. `ContentSizeAtLeastCount` bounds it. |
| ChunkOptimizer.Organize | utils/chunk_optimizer.py:45-61 | Definition of the loader's dictionary: one loop iteration per file, in glob order. `OrganizeGroups`, `OrganizeWellFormed` and `OrganizeTotal` state its properties. |
| ChunkOptimizer.ContentSizeAtLeastCount | utils/chunk_optimizer.py:133-134 | Chunks that are all non-empty occupy at least one byte each. |
| ChunkOptimizer.WellFormedSizeBound | utils/chunk_optimizer.py:129-138 | For a well-formed dictionary the total byte size is at least the chunk count. |
| ChunkOptimizer.NatDiv | utils/chunk_optimizer.py:138 | `//` on naturals: the quotient `q` satisfies `q*b <= a < (q+1)*b`. |
| ChunkOptimizer.GetChunkStatistics | utils/chunk_optimizer.py:111-140 | `total_states` is the number of keys. `chunks_by_state` maps every state to its list length, and its values sum to `total_chunks`, the total length. `total_content_size` is the UTF-8 size of all chunks. `average_chunk_size` is the floor quotient of size by count, or 0 when there is no chunk. |
| ChunkOptimizer.MemoryUsageEstimate | utils/chunk_optimizer.py:200-210 | `all_chunks_loaded` is the total content size. `single_state_average` is its floor quotient by the number of states, or 0 when there is none. The archive size is 0 when the archive is absent. |
| ChunkOptimizer.NormalizeStateName | utils/chunk_optimizer.py:103 | The normalised name is the lower-cased name with every space removed, so the `"pradesh"` replacement is the identity. It holds no space and no upper-case ASCII letter. |
| ChunkOptimizer.RemoveCharKeeps | utils/chunk_optimizer.py:103 | Removing spaces only deletes characters. |
| ChunkOptimizer.GetChunksForState | utils/chunk_optimizer.py:93-109 | The result is empty for an empty name or `"Select your state"`. Otherwise it is the list under the lower-cased, space-free name, or empty when that key is absent. |
| ChunkOptimizer.GetChunksForLoadedState | utils/chunk_optimizer.py:99-109 | Looked up in freshly loaded chunks, a state yields exactly its accepted files' stripped, non-empty chunks in file order. |
| ChunkOptimizer.GetCompressedChunksData | utils/chunk_optimizer.py:14-35 | A decodable archive gives its contents. A missing or undecodable one gives the chunks loaded from the files. |
| ChunkOptimizer.ValidateChunkIntegrity | utils/chunk_optimizer.py:180-198 | The check passes exactly when any decodable archive equals the freshly loaded dictionary. |
| ChunkOptimizer.MalformedArchiveFailsIntegrity | utils/chunk_optimizer.py:193 | An archive holding an empty list or an unstripped chunk can never equal the loaded dictionary. |
| ChunkOptimizer.RemovedPaths | utils/chunk_optimizer.py:228-233 | A path is reported exactly when some matched file with that path is removed successfully, and there is at most one report per matched file. |
| ChunkOptimizer.CleanupOriginalChunks | utils/chunk_optimizer.py:212-235 | Nothing is deleted without `confirm`, or when the integrity check fails. Once both pass, every matched path is attempted. The deleted count is the number of successful removals, at most the number of matched files. An undecodable or missing archive makes the check compare the loaded files with themselves, so a confirmed clean-up then deletes the originals. |
| OptimizeApp.ImportName | optimize_app.py:126 | The import name has the package's length, every `-` becomes `_`, and no `-` is left. |
| OptimizeApp.MissingPackages | optimize_app.py:124-130 | At most one report per required package, and every reported package fails to import. |
| OptimizeApp.MissingPackagesExactly | optimize_app.py:112-130 | A package is reported missing exactly when it is required and its import name is not importable. |
| OptimizeApp.MissingPackagesAppend | optimize_app.py:124-130 | Missing packages are reported in list order. |
| OptimizeApp.CheckDependencies | optimize_app.py:108-138 | The missing list is the ordered list of non-importable required packages. The check succeeds exactly when that list is empty, i.e. when every required package imports. |
| OptimizeApp.KeepLine | optimize_app.py:157 | Definition of the filter: a stripped line is kept when it is non-empty and does not start with `/*`. |
| OptimizeApp.Minified | optimize_app.py:163 | Definition of the written text: the kept lines joined by single spaces. `MinifiedHasNoNewline` and `MinifiedSize` state its properties. |
| OptimizeApp.KeptLines | optimize_app.py:152-158 | At most as many pieces are kept as there are lines. |
| OptimizeApp.KeptLinesClean | optimize_app.py:155-158 | Every kept piece is non-empty, already stripped, and does not start with `/*`. |
| OptimizeApp.KeptLinesSound | optimize_app.py:155-158 | Every kept piece is some line stripped, and is neither empty nor starting with `/*`. |
| OptimizeApp.KeptLinesComplete | optimize_app.py:155-158 | Every line that strips to a non-empty text not starting with `/*` is kept. |
| OptimizeApp.KeptLinesExactly | optimize_app.py:155-158 | A piece is kept exactly when it is some line stripped and is neither empty nor starting with `/*`, so comment continuation lines and trailing comments survive. |
| OptimizeApp.KeptLinesAppend | optimize_app.py:152-158 | The filter keeps lines in their original relative order. |
| OptimizeApp.KeptLinesNoNewline | optimize_app.py:152-158 | Pieces cut at newlines contain no newline after stripping. |
| OptimizeApp.MinifiedHasNoNewline | optimize_app.py:152-163 | The minified stylesheet is a single line. |
| OptimizeApp.MinifiedSize | optimize_app.py:163-166 | The minified size is the sum of the kept pieces' lengths plus one space between each neighbouring pair, or 0 when nothing is kept. |
| OptimizeApp.KeptLinesStep | optimize_app.py:155-158 | One more line adds its stripped text to the kept pieces exactly when that text is kept. |
| OptimizeApp.FilterLines | optimize_app.py:153-158 | The loop keeps exactly `KeptLines` of its lines, in order. |
| OptimizeApp.MinifyCss | optimize_app.py:150-163 | The kept pieces are `KeptLines` of the newline-separated lines. The written text is their space-join and holds no newline. |
| OptimizeApp.OptimizeCss | optimize_app.py:140-179 | The minified file is written exactly when the stylesheet exists and was read and the write succeeds. Success additionally needs a non-empty stylesheet, because the reduction ratio divides by its length. |
| OptimizeApp.SuccessCount | optimize_app.py:264-284 | The number of successful steps is at most the number of steps. |
| OptimizeApp.SuccessCountAll | optimize_app.py:290-302 | The count of successes reaches the number of steps exactly when every step succeeded. |
| OptimizeApp.SuccessCountOfSix | optimize_app.py:264-284 | The count over the six step results is the number of them that are true. |
| OptimizeApp.RunOptimization | optimize_app.py:259-306 | The success count is the number of the six steps that return true, between 1 and 6, since step 5 always succeeds. `main` returns true exactly when all six succeed, and the exit status is 0 exactly then. |
| PerformanceUtils.InitializeSession | utils/performance_utils.py:149-163 | `core_initialized` and `scheme_components` are present afterwards. On a first run the three core entries get `True`, `"Select your state"` and `"en"`. Otherwise the existing entries are kept. An existing `scheme_components` is kept, else it becomes an empty dictionary. No other key is touched. |
| PerformanceUtils.InitializeSessionIdempotent | utils/performance_utils.py:149-163 | A second initialisation changes nothing. |
| PerformanceUtils.InitializeSessionOverwrites | utils/performance_utils.py:154-157 | The only entries ever changed are `user_state` and `language`, and only when `core_initialized` was absent. |
| PerformanceUtils.SessionState.OptimizeSessionState | utils/performance_utils.py:149-163 | The session map after the call is `InitializeSession` of the map before. The two guard keys are present, and entries outside the four managed keys are unchanged. |
| PerformanceUtils.CleanStateName | utils/performance_utils.py:132 | The cleaned name is the lower-cased name with all spaces removed. |
| PerformanceUtils.CleanStateNameAgrees | utils/performance_utils.py:132 | On-demand loading and `get_chunks_for_state` normalise a state name identically. |
| PerformanceUtils.OnDemandPattern | utils/performance_utils.py:135 | The glob pattern embeds the same key under which `get_chunks_for_state` looks the state up. |
| PerformanceUtils.ReadContents | utils/performance_utils.py:138-144 | At most one text per globbed file is returned. |
| PerformanceUtils.ReadContentsKeepsEverything | utils/performance_utils.py:139-142 | Every file that can be read contributes its text exactly as read, even when blank: there is no strip and no filter. |
| PerformanceUtils.ReadContentsAllReadable | utils/performance_utils.py:138-144 | When every file can be read, the result is all their texts in glob order. |
| PerformanceUtils.LoadChunksOnDemand | utils/performance_utils.py:121-147 | The glob pattern is `chunks/state_` + the lower-cased, space-free name + `_*.txt`. The chunks are the readable files' texts in glob order. |
| PerformanceUtils.PerformanceTimer | utils/performance_utils.py:107-119 | The wrapper returns exactly what the wrapped function returns, for every argument. |
| PerformanceUtils.ToRecord | utils/performance_utils.py:73-81 | A record has exactly the seven attribute keys. |
| PerformanceUtils.RecordRoundTrip | utils/performance_utils.py:73-81 | Reading a record back gives the recommendation, so every copied attribute is kept. |
| PerformanceUtils.RecommendationRecords | utils/performance_utils.py:72-83 | There is one record per recommendation, in the same order. Each has the seven keys and reads back as that recommendation. |
| PerformanceUtils.RecommendationRecordsInjective | utils/performance_utils.py:72-83 | Different recommendation lists give different record lists. |
| Text.IsSpace | utils/chunk_optimizer.py:56 | Definition of the characters `str.strip()` removes: those for which Python's `str.isspace()` holds. |
| Text.LStrip | utils/chunk_optimizer.py:56 | The result is no longer than the input and does not start with whitespace. |
| Text.LStripSpec | utils/chunk_optimizer.py:56 | The left strip is a suffix of the input, and everything it drops is whitespace. |
| Text.RStrip | utils/chunk_optimizer.py:56 | The result is no longer than the input and does not end with whitespace. |
| Text.RStripSpec | utils/chunk_optimizer.py:56 | The right strip is a prefix of the input, and everything it drops is whitespace. |
| Text.Strip | optimize_app.py:156 | The result is no longer than the input and neither starts nor ends with whitespace. |
| Text.StripFixed | utils/chunk_optimizer.py:56 | A string without edge whitespace strips to itself. |
| Text.StripIdempotent | utils/chunk_optimizer.py:56 | `strip()` is idempotent. |
| Text.StripEmptyIff | utils/chunk_optimizer.py:58 | A string strips to empty exactly when it is all whitespace. |
| Text.StripChars | optimize_app.py:156 | Stripping introduces no character. |
| Text.Count | optimize_app.py:152 | The count is at most the length, and zero exactly when the character is absent. |
| Text.Split | utils/chunk_optimizer.py:50 | Splitting on a character gives one field more than there are occurrences of it. |
| Text.SplitExcludes | optimize_app.py:152 | No field of a split contains the separator. |
| Text.JoinSplit | optimize_app.py:152 | Joining the fields of a split with the separator gives back the text. |
| Text.Join | optimize_app.py:163 | Definition of `sep.join(parts)`: the parts with one separator between each neighbouring pair. `JoinLength`, `JoinExcludes` and `JoinSplit` state its properties. |
| Text.JoinCons | optimize_app.py:163 | Joining with a new leading part puts that part and one separator in front. |
| Text.JoinPrepend | optimize_app.py:163 | A character put in front of the first part ends up in front of the join. |
| Text.JoinLength | optimize_app.py:166 | A join is as long as its parts plus one separator between each neighbouring pair. |
| Text.JoinExcludes | optimize_app.py:163 | A character in neither the parts nor the separator is not in the join. |
| Text.StartsWith | optimize_app.py:157 | Definition of `startswith`: the prefix is no longer than the text and equals its first characters. |
| Text.Replace | utils/chunk_optimizer.py:103 | Replacing by a text of the pattern's length keeps the length, and by a shorter text never lengthens. |
| Text.ReplaceIdentity | utils/chunk_optimizer.py:103 | Replacing a pattern by itself changes nothing. |
| Text.RemoveChar | utils/chunk_optimizer.py:103 | Deleting a character leaves none of it and shortens the text by its count. |
| Text.ReplaceCharByEmpty | utils/performance_utils.py:132 | `replace(c, "")` is deletion of `c`. |
| Text.ReplaceCharByChar | optimize_app.py:126 | Replacing one character by another keeps the length and rewrites exactly that character. |
| Text.Lower | utils/chunk_optimizer.py:103 | Lower-casing keeps the length and maps each character independently. |
| Text.Utf8Length | utils/chunk_optimizer.py:134 | A text encodes to between one and four UTF-8 bytes per character. |

## Left out

- File-system I/O (`glob`, `open`, `os.path.exists`, `os.remove`, `os.makedirs`, `shutil.copytree`) is not executed. What it yields is an input: the files in glob order with their contents or a failure, and per target path whether removal succeeds. Glob order is unspecified in Python, so every result is stated for the order given.
- `open(..., 'r')` translates `\r\n` and `\r` to `\n` when reading. The texts given to the model are taken to be as read, after that translation.
- gzip and JSON serialisation (`save_compressed_chunks`, the decoding in `get_compressed_chunks_data`) are library calls. The archive is an input that is missing, undecodable, or a dictionary, and no round trip through the codec is claimed. `save_compressed_chunks` and its compression ratio are not modelled.
- `optimize_chunks_directory` and `create_backup_of_chunks` are orchestration and copying around the modelled functions. They are not modelled.
- Streamlit caching (`st.cache_data`, `st.cache_resource`, TTLs), `clear_performance_cache`, the semantic matcher, the LangChain agent, Pinecone, the embeddings and `cached_scheme_search` are framework or foreign calls. They are not modelled; the matcher's recommendations are an input.
- Floating-point figures (CSS reduction percentage, compression ratio, MB values) and timing via `time.time()` are not modelled. The timer's log line is not modelled either.
- All `print` and `logger` output is left out.
- Steps 1, 2 and 6 of `main` (`run_chunk_optimization`, `validate_performance_utils`, `generate_optimization_report`) are inputs: their boolean results. Step 5 (`run_performance_tests`) is modelled as `true`: its only fallible work, the three `exec` imports, is caught inside its loop, and its outer handler, which would return false, is reached only when printing or `time.time()` raises, and both are left out.
- Strings holding lone surrogates (which a Python `str` can, e.g. from `json.load`) are not modelled: characters are Unicode scalar values, so the error `encode('utf-8')` raises on them in `get_chunk_statistics` is not modelled.
- `validate_chunk_integrity` loads the chunk files twice when the archive is missing or undecodable: once directly and once inside `get_compressed_chunks_data`. The model gives both loads the same files and contents, assuming the directory does not change in between.
- Python dictionaries keep insertion order; Dafny's `map` has none. Key order is not modelled, and dictionary equality (as `==` compares dicts) ignores it anyway. `os.path.basename` is modelled in its POSIX form, splitting at `/` only.
- OptimizeApp.CheckDependencies: `__import__` is the predicate `importable`. An exception other than `ImportError` escaping the import is not modelled.
- Text.Lower: only ASCII letters are lower-cased. Python's `str.lower` also maps non-ASCII letters, and a few of them expand to more than one character.
- The glob pattern of `load_chunks_on_demand` is produced as a string, but glob matching itself (`*`, `?`, `[...]`) is not modelled.
- The browser-side chat and accordion Markdown rendering is not part of this model.
