# Chunk cache and file wrapper, modelled in Dafny

This project models two parts of the game engine.

- **`ChunkCache`** (module `Chunk`, `chunk_cache.dfy`) is a direct-mapped table of
  W × W chunk slots (W = 32) around a movable centre. It has a one-entry memo
  of the last chunk handed out. On a miss it evicts the slot's occupant
  (unload, save, save entities), then takes the chunk from storage; when a
  storage lacks it, from the chunk source; otherwise it uses the shared empty
  chunk. It post-processes a new
  chunk and its west, north and north-west neighbours when the 2×2 block each
  one starts is present. A throttled save loop stops at the second save unless
  forced.

  The cache is a class over an `array<LevelChunk?>`. Chunks are a class whose
  fields the cache writes in place; the level is a class the cache only reads
  (its time and its spawn-search flag). The storage's contents are a field of
  the cache, `stored`: a map from each coordinate the storage can load to the
  `terrainPopulated` flag saved for it. Saving a chunk writes its entry, and
  `load` reads it. The source is a flag saying whether one exists.
  `LevelChunk::shouldSave(force)` is a function of the force flag, the chunk's
  fields and the level time. Every effect the cache has on its collaborators
  (unload, save, save entities, light lava, load, source post-processing,
  flush) is appended to a plain `trace` field. The method contracts state that
  trace. A ghost set `seen` collects every chunk the cache has held, so the
  contracts can say which of those chunks a call leaves alone.
- **`File_Impl`** (module `JavaFile`, `java_file.dfy`) is the Linux
  implementation of the engine's `java.io.File` look-alike. Every system call
  is an input function:
  - `realpath` is a resolver `Path -> Option<Path>`;
  - `stat` gives `Option<StatRec>`;
  - `opendir`/`readdir` give `Option<seq<string>>`;
  - `getenv("HOME")` and the target of `/proc/self/exe` are optional strings.

  The path rules, the metadata folding and the directory listing are
  functions. `listFiles` is a method with a loop proved against them.

`wrappers.dfy` holds `Option` and one sequence lemma both modules use.

`File_Impl`'s constructor stores the resolved path in both `u8path` and `path`
(File.cpp lines 50-51). The path that `getParentFile` cuts is therefore the
resolved path, not the path as the caller gave it. The model follows the code:
a `File` has one `path`.

## Model

| member | source | states |
|---|---|---|
| Chunk.Mask | src/world/level/chunk/ChunkCache.cpp:34-35 | the masked coordinate lies in [0, W) and differs from the coordinate by a multiple of W, negative coordinates included |
| Chunk.SlotOf | src/world/level/chunk/ChunkCache.cpp:34-36 | the slot index lies in [0, W*W) for every coordinate; its row and column are the two masked coordinates |
| Chunk.SameSlot | src/world/level/chunk/ChunkCache.cpp:48-50 | two coordinates share a slot exactly when they agree modulo W on both axes |
| Chunk.WindowSlotsDistinct | src/world/level/chunk/ChunkCache.cpp:21-25 | two coordinates inside the same window that share a slot are the same coordinate |
| Chunk.NeighbourSlotsDiffer | src/world/level/chunk/ChunkCache.cpp:76-83 | each of the eight neighbours of a coordinate lies in another slot than the coordinate |
| Chunk.VisitEvents | src/world/level/chunk/ChunkCache.cpp:149-154 | one slot visit asks the storage for at most the entities and the chunk of its occupant, and for each that was requested; a vacant slot asks nothing |
| Chunk.EventsAppend | src/world/level/chunk/ChunkCache.cpp:145-163 | a further visit adds exactly its own requests after the earlier ones |
| Chunk.EventsHaveEveryVisit | src/world/level/chunk/ChunkCache.cpp:145-163 | every request of every visit appears in the requests of the whole walk |
| Chunk.EventsOnlyFromVisits | src/world/level/chunk/ChunkCache.cpp:145-163 | the walk asks the storage for nothing that no visit asked for |
| Chunk.UnforcedSaveOnlySaves | src/world/level/chunk/ChunkCache.cpp:149-150 | when no visit requests entities, as in a save without force, every request of the walk is a chunk save |
| Chunk.VisitRequestsInWalk | src/world/level/chunk/ChunkCache.cpp:149-153 | a visit that requested a chunk's entities or the chunk itself has that request in the walk's requests |
| Chunk.StoreVisitsAppend | src/world/level/chunk/ChunkCache.cpp:145-163 | what the storage holds after one more visit is what that visit stores on top of what it held |
| Chunk.StoredKeys | src/world/level/chunk/ChunkCache.cpp:108-113 | after a walk the storage can load exactly the coordinates it held before and those of the chunks saved on the walk |
| Chunk.StoredLatest | src/world/level/chunk/ChunkCache.cpp:108-113 | a chunk saved on the walk, with no later save at its coordinate, is loadable there with the population flag it had when saved |
| Chunk.RecordedAppend | src/world/level/chunk/ChunkCache.cpp:149-156 | a visit recorded by the save rule (saved exactly when the chunk wants saving, entities exactly when forced and allowed) extends the record of the walk |
| Chunk.ChunkCache.constructor | src/world/level/chunk/ChunkCache.cpp:7-13 | a new cache has all slots empty, no memo, a fresh empty chunk at (0, 0), the given level, storage contents and source, and has held only the empty chunk |
| Chunk.ChunkCache.CenterOn | src/world/level/chunk/ChunkCache.cpp:15-19 | the centre becomes (x, y) and nothing else changes, so a valid table with a coherent memo stays valid and coherent |
| Chunk.ChunkCache.Fits | src/world/level/chunk/ChunkCache.cpp:21-25 | a coordinate fits exactly when it is at most W/2 - 1 from the centre on both axes |
| Chunk.ChunkCache.HasChunk | src/world/level/chunk/ChunkCache.cpp:27-39 | false outside the window; true for the memoised coordinate inside it; otherwise true exactly when the slot holds the empty chunk or a chunk at that coordinate |
| Chunk.ChunkCache.HasChunkIgnoresMemo | src/world/level/chunk/ChunkCache.cpp:27-39 | while the memo names its slot's occupant, `hasChunk` is the window test and the slot test alone |
| Chunk.ChunkCache.HasChunkOnlyAtOwnCoordinate | src/world/level/chunk/ChunkCache.cpp:27-39 | a real chunk found by `hasChunk` sits at the asked coordinate, and no other coordinate of the window maps to its slot |
| Chunk.ChunkCache.OriginOf | src/world/level/chunk/ChunkCache.cpp:61-68 | a missed chunk comes from storage exactly when storage holds it, from the source exactly when storage exists but lacks it and a source exists, otherwise from nowhere |
| Chunk.ChunkCache.Eviction | src/world/level/chunk/ChunkCache.cpp:54-59 | evicting an occupant unloads it, then saves it and its entities when there is a storage; an empty slot has no effects |
| Chunk.ChunkCache.SaveChunk | src/world/level/chunk/ChunkCache.cpp:108-113 | with a storage the chunk is stamped with the level time, saved, and stored at its coordinate with its population flag, where `load` then finds it; without one nothing changes |
| Chunk.ChunkCache.SaveEntities | src/world/level/chunk/ChunkCache.cpp:102-106 | the storage, when there is one, is asked for the chunk's entities; otherwise nothing happens |
| Chunk.ChunkCache.Flush | src/world/level/chunk/ChunkCache.cpp:165-170 | the storage, when there is one, is flushed; otherwise nothing happens |
| Chunk.ChunkCache.Load | src/world/level/chunk/ChunkCache.cpp:92-100 | the empty chunk without storage; null when the storage holds nothing at the coordinate; otherwise a new chunk at the coordinate with the population flag stored there, stamped with the level time |
| Chunk.ChunkCache.Generate | src/world/level/chunk/ChunkCache.cpp:66-67 | the source yields a new, unpopulated chunk at the coordinate |
| Chunk.ChunkCache.Evict | src/world/level/chunk/ChunkCache.cpp:54-59 | the occupant is unloaded; with a storage it is then saved, stamped with the level time, stored at its coordinate and entity-saved; without one nothing else happens |
| Chunk.ChunkCache.Install | src/world/level/chunk/ChunkCache.cpp:61-74 | the slot holds the chunk from storage (stamped, with the stored population); when a storage lacks it, a new unpopulated one from the source; otherwise the empty chunk; a new chunk is neither unsaved nor `dontSave`; no other slot changes; it is lit and loaded; the table stays valid |
| Chunk.ChunkCache.Refill | src/world/level/chunk/ChunkCache.cpp:52-74 | after eviction the slot holds the chunk from storage; when a storage lacks it, one from the source; otherwise the empty chunk; a new chunk is neither unsaved nor `dontSave`; no other slot changes; effects are eviction, light lava, load; the storage gains only the evicted occupant; no chunk held before changes except the evicted occupant, which is only stamped and only when there is a storage; the table stays valid |
| Chunk.ChunkCache.GetChunk | src/world/level/chunk/ChunkCache.cpp:41-90 | the memo answers first, unchanged, even outside the window; outside the window without spawn search the empty chunk, unchanged; otherwise memo and result are the slot's occupant at (x, z); no other slot changes; without a fetch nothing else changes; a fetch evicts and stores the old occupant, then lights and loads the new chunk, taken from storage (stamped, keeping the stored population flag), the source or the empty chunk, populated when its 2×2 block is present; a new chunk is not `dontSave`, and is unsaved only when there is a source; only the evicted occupant is stamped, no chunk loses its population and none changes `dontSave`; no `unsaved` flag of a chunk held before is cleared, and none changes when there is no source |
| Chunk.ChunkCache.Fetch | src/world/level/chunk/ChunkCache.cpp:52-83 | on a miss the slot ends with a chunk at (x, z) or the empty chunk; the old occupant was evicted, and stored and stamped when there is a storage; the origin facts hold, and a chunk loaded from storage is stamped and keeps the stored population flag; the new chunk is populated when its 2×2 block was present; a new chunk is not `dontSave`, and is unsaved only when there is a source; other slots unchanged; no other save time changes, no population flag is cleared and no `dontSave` changes; no `unsaved` flag of a chunk held before is cleared, and none changes when there is no source |
| Chunk.ChunkCache.PostProcessNeighbours | src/world/level/chunk/ChunkCache.cpp:76-83 | the table, the slots and the storage are unchanged, the trace only grows, no save time and no `dontSave` changes, no population flag is cleared, and the new chunk is populated when the block it starts is present; no `unsaved` flag of a chunk held before is cleared, and none changes when there is no source |
| Chunk.ChunkCache.PostProcessIfBlockPresent | src/world/level/chunk/ChunkCache.cpp:78-83 | one neighbour step leaves the slots and the storage unchanged, only extends the trace, keeps every save time and `dontSave`, never clears a population flag, and leaves the neighbour populated when it and the two other chunks of its block are present; no `unsaved` flag of a chunk held before is cleared, and none changes when there is no source |
| Chunk.ChunkCache.Populate | src/world/level/chunk/ChunkCache.cpp:118-125 | the chunk ends populated; an already populated chunk changes neither trace nor `unsaved`; otherwise, exactly when there is a source, the source is told and the chunk marked unsaved |
| Chunk.ChunkCache.PostProcess | src/world/level/chunk/ChunkCache.cpp:115-127 | the chunk `getChunk` yields ends populated; a fetching call leaves in its slot the empty chunk when there is no chunk to take, otherwise a new chunk at (x, z), stamped when it came from storage, not `dontSave`, and unsaved only when there is a source, and leaves every other slot as it was; only an evicted occupant is stamped, and only with a storage; the storage changes only by that eviction; no chunk loses its population or changes `dontSave`; no `unsaved` flag of a chunk held before is cleared, and none changes when there is no source; a fetching call's trace begins with the old occupant, if any, unloaded and, when there is a storage, saved with its entities, then the new chunk lit and loaded; when `getChunk` does not fetch, the slots, the save time and every other chunk stay as they were, a call on a populated chunk changes neither trace nor `unsaved`, and a first call tells the source and marks the chunk unsaved exactly when there is a source; past the memo and the window the memo ends on (x, z) and its slot's occupant, otherwise it stays as it was |
| Chunk.ChunkCache.VisitSlot | src/world/level/chunk/ChunkCache.cpp:147-162 | the chunk is saved exactly when it wants saving then; when saved it is cleared, and stamped and stored when there is a storage; untouched otherwise; without a storage no save time changes; the storage requests are the visit's; earlier stamps survive and every chunk outside the saved slots keeps its flag and time |
| Chunk.ChunkCache.LinkedAppend | src/world/level/chunk/ChunkCache.cpp:145-163 | a visit to the next slot's occupant, or a vacant visit to an empty slot, keeps the visits matched to the slots |
| Chunk.SawEntryAppend | src/world/level/chunk/ChunkCache.cpp:145-155 | a visit to the next slot that saw its chunk's entry coordinate, population flag and `dontSave`, and its whole entry state when no earlier visit was to that chunk, extends the record of what the walk saw |
| Chunk.ChunkCache.EntryHere | src/world/level/chunk/ChunkCache.cpp:145-155 | the occupant of the next slot still has its entry coordinate, population flag and `dontSave`, and, when no earlier visit was to it, its entry flag and time too, since every slot saved so far comes before it and was visited |
| Chunk.ChunkCache.EntrySeen | src/world/level/chunk/ChunkCache.cpp:145-155 | each visit of the walk saw its chunk's own coordinate, population flag and `dontSave`, and at the chunk's first slot its whole state on entry |
| Chunk.ChunkCache.SaveStart | src/world/level/chunk/ChunkCache.cpp:131-143 | before the first slot the loop invariant holds with nothing visited and nothing saved |
| Chunk.ChunkCache.VacantStep | src/world/level/chunk/ChunkCache.cpp:145-147 | a pass at an empty slot records a vacant visit and keeps the loop invariant, the trace and the storage |
| Chunk.ChunkCache.VisitedStep | src/world/level/chunk/ChunkCache.cpp:149-156 | a pass at an occupied slot whose visit followed the save rule moves the throttle, the stop at the second unforced save, the record, the trace and the storage on by that visit |
| Chunk.ChunkCache.SaveOccupied | src/world/level/chunk/ChunkCache.cpp:147-162 | the pass at an occupied slot states what `SaveStep` states, for that slot |
| Chunk.ChunkCache.SaveStep | src/world/level/chunk/ChunkCache.cpp:145-163 | one pass of the loop keeps the throttle count, the stop at the second save, the record of visits, the stamps, the trace and the storage contents; it saves at most slot i; a chunk in no saved slot keeps its flag and time, and without a storage every chunk keeps its time; no population flag or `dontSave` changes; the earlier visits stay, and the new one saw its chunk's entry coordinate, population flag and `dontSave`, and its whole entry state when no earlier visit was to that chunk |
| Chunk.ChunkCache.SaveSlots | src/world/level/chunk/ChunkCache.cpp:131-163 | the loop visits the slots in order until the last one or the stop, keeping the loop invariant, the trace of the visits' requests and the storage they leave; a chunk in no saved slot keeps its flag and time, and without a storage no time changes; every occupant keeps its entry coordinate, population flag and `dontSave`, and each visit saw those, and its chunk's whole entry state at the chunk's first visit |
| Chunk.ChunkCache.SaveOutcome | src/world/level/chunk/ChunkCache.cpp:143-172 | at the loop's end the throttle, visit and stamp facts hold for the reached prefix, and it ends at the last slot unless stopped at the second unforced save |
| Chunk.ChunkCache.Save | src/world/level/chunk/ChunkCache.cpp:129-173 | forced: every slot visited, the entities of every chunk whose own `dontSave` is false saved when there is a storage, and every chunk that wants saving on entry cleared at its first slot and saved when there is a storage (at a later slot, in the state that slot's visit saw), then a flush when there is a storage, result true; unforced: at most two saves, false exactly at the second, which ends the walk; a chunk in no saved slot keeps its flag and time; without a storage no save time changes; the storage ends holding what the visits stored, each visit having seen its chunk's own coordinate and population flag |
| Chunk.ChunkCache.Tick | src/world/level/chunk/ChunkCache.cpp:175-178 | there is never anything to unload |
| Chunk.ChunkCache.ShouldSave | src/world/level/chunk/ChunkCache.cpp:180-183 | the cache as a chunk source always wants saving |
| JavaFile.ToPath | src/pc/linux/java/File.cpp:26-35 | the resolved path when resolution succeeds, and the input itself when it fails; never an error |
| JavaFile.Open | src/pc/linux/java/File.cpp:48-53 | an opened entry carries the resolution of the path when it resolves, and the path itself when it does not |
| JavaFile.ReopenIsIdentity | src/pc/linux/java/File.cpp:48-53 | for a path whose resolution is a fixed point, opening an opened entry's path again gives the same entry |
| JavaFile.OpenChild | src/pc/linux/java/File.cpp:195-199 | the child entry is opened at exactly parent path + '/' + child: its resolution, or that string when it does not resolve |
| JavaFile.FindLastOf | src/pc/linux/java/File.cpp:159 | the index of the last character from the set, or none when no character is in the set |
| JavaFile.FindLastOfJoin | src/pc/linux/java/File.cpp:159 | after a separator followed by a separator-free segment, the last separator is the joined one |
| JavaFile.ParentPath | src/pc/linux/java/File.cpp:157-163 | the prefix before the last '/' or '\\', strictly shorter than the path, with no separator after it; "" when the path has no separator |
| JavaFile.GetParentFile | src/pc/linux/java/File.cpp:157-163 | the parent entry is opened at the parent path |
| JavaFile.ParentExamples | src/pc/linux/java/File.cpp:157-163 | "/x/y/z" has the parent "/x/y"; "name" has the parent "" |
| JavaFile.ParentOfChild | src/pc/linux/java/File.cpp:157-163 | the parent of a separator-free child of a resolved entry is that entry again, when the child does not resolve (not yet existing) or resolves to its own path (existing under a canonical parent) |
| JavaFile.Exists | src/pc/linux/java/File.cpp:84-88 | true exactly when stat succeeds |
| JavaFile.IsDirectory | src/pc/linux/java/File.cpp:90-96 | false when stat fails; otherwise the directory type; implies existence |
| JavaFile.IsFile | src/pc/linux/java/File.cpp:98-104 | false when stat fails; otherwise the regular type; implies existence and is never true together with `isDirectory` |
| JavaFile.CDiv | src/pc/linux/java/File.cpp:117 | C++ division of `long long` values truncates toward zero: the remainder has the sign of the dividend and is smaller than the divisor |
| JavaFile.Millis | src/pc/linux/java/File.cpp:117 | for non-negative nanoseconds the seconds times 1000 plus the whole milliseconds; for nanoseconds in [0, 10^9) the milliseconds lie in [sec*1000, sec*1000 + 999], with sec and the whole milliseconds recoverable |
| JavaFile.LastModified | src/pc/linux/java/File.cpp:106-121 | 0 when stat fails; otherwise the milliseconds of the modification time, seconds times 1000 plus whole milliseconds of the nanoseconds, which lie within that second |
| JavaFile.Length | src/pc/linux/java/File.cpp:123-129 | 0 when stat fails; otherwise the size |
| JavaFile.FailureLooksLikeZero | src/pc/linux/java/File.cpp:106-129 | a failed stat and an empty file from the epoch give the same length and modification time; only `exists` tells them apart |
| JavaFile.RemoveDispatch | src/pc/linux/java/File.cpp:70-76 | `rmdir` exactly when the entry is a directory, `unlink` otherwise (regular or missing), always on the entry's path |
| JavaFile.Remove | src/pc/linux/java/File.cpp:70-76 | success exactly when the dispatched call returns 0 |
| JavaFile.Listed | src/pc/linux/java/File.cpp:143-151 | the kept names are exactly the names other than "." and "..", no more of them than names |
| JavaFile.ListedAppend | src/pc/linux/java/File.cpp:143-151 | filtering keeps iteration order: the listing of a concatenation is the concatenation of the listings |
| JavaFile.ChildFiles | src/pc/linux/java/File.cpp:149-150 | one entry per kept name, in order, each opened at base + "/" + name |
| JavaFile.ListFiles | src/pc/linux/java/File.cpp:131-155 | nothing for a non-directory or an unreadable directory; otherwise exactly the child entries of the kept names in iteration order |
| JavaFile.ListingNamesChildren | src/pc/linux/java/File.cpp:143-151 | a name other than "." and ".." is in the directory exactly when the listing has its entry at the same position as the kept name |
| JavaFile.ReadLink | src/pc/linux/java/File.cpp:213 | reading a link yields nothing exactly when there is no target, otherwise the target cut to the buffer budget, and the whole target when it fits |
| JavaFile.ExecutablePathAsWritten | src/pc/linux/java/File.cpp:213 | with `sizeof(path) - 1` on a pointer as the budget, at most 7 bytes of the executable path are read |
| JavaFile.ExecutablePath | src/pc/linux/java/File.cpp:204-218 | the intended read gives the whole executable path when it is shorter than PATH_MAX, and nothing when readlink fails |
| JavaFile.ResourceDirectoryPath | src/pc/linux/java/File.cpp:215-229 | "" without a path or without '/'; otherwise the prefix before the last '/' followed by "/resource" |
| JavaFile.OpenResourceDirectory | src/pc/linux/java/File.cpp:201-232 | the resource entry is opened at the resource directory path of the executable, read with the intended budget |
| JavaFile.ResourceBesideExecutable | src/pc/linux/java/File.cpp:224-229 | an executable dir/name has its resources in dir/resource |
| JavaFile.ReadlinkTruncates | src/pc/linux/java/File.cpp:213 | the as-written budget turns "/usr/local/bin/game" into "/usr/lo" and the resources into "/usr/resource", where the intended read gives "/usr/local/bin/resource" |
| JavaFile.WorkingDirectoryPath | src/pc/linux/java/File.cpp:236-244 | "" when HOME is unset; otherwise HOME, one '/', then the name |
| JavaFile.WorkingDirectoryParent | src/pc/linux/java/File.cpp:234-245 | the parent of a working directory HOME/name is HOME |
| JavaFile.OpenWorkingDirectory | src/pc/linux/java/File.cpp:234-245 | the working-directory entry is opened at the working directory path |

## Left out

- System calls are inputs, not effects: `realpath`, `stat`, `opendir`/`readdir`/`closedir`, `rmdir`/`unlink`, `readlink` and `getenv`. `createNewFile`, `renameTo` and `mkdir` (File.cpp 60-68, 78-82, 165-168) are single system calls with a status result. They are not part of this model.
- The stream factories `toStreamIn`/`toStreamOut` (File.cpp 170-184) open C++ streams; they are I/O and not part of this model.
- The UTF-8/UTF-16 conversions `toUTF8`/`fromUTF8` are a foreign codec. Host strings and engine strings are one type.
- The `std::cout` line of the constructor (File.cpp 52) is logging.
- The platform selection between `st_mtim` and `st_mtimespec` (File.cpp 116-120), and the Apple `_NSGetExecutablePath` branch (File.cpp 206-211): the model takes one (seconds, nanoseconds) pair and the Linux `readlink` branch.
- The `malloc`ed buffer of `openResourceDirectory` is never freed on the early returns (File.cpp 216, 226). Memory is not modelled.
- `ProgressListener` reporting and the `chunksToSave` count (ChunkCache.cpp 133-141, 159-160) only feed a progress bar.
- `gatherStats` (ChunkCache.cpp 185-189) only formats a string.
- The internals of `LevelChunk` (`unload`, `load`, `lightLava`, `shouldSave`), of `ChunkStorage`, of `ChunkSource` and of `EmptyLevelChunk` belong to other classes. Their calls are trace events (`markUnsaved`, a virtual call at ChunkCache.cpp 124, is modelled as setting `unsaved`, the empty chunk included), and the storage's `save` and `load` also write and read `stored`; `shouldSave` is a given function of the force flag, the chunk's fields and the level time.
- `shared_ptr`/`unique_ptr` ownership becomes nullable references.
- `chunk->lightLava()` runs before the null test (ChunkCache.cpp 71-74). The source is modelled as always yielding a chunk, so the crash the source could reach is not modelled.
- `int_t` and `long long` are unbounded integers: the coordinate arithmetic, the slot index and the millisecond formula are stated without overflow.
- Chunk.Mask: the identity between the two's-complement `x & (W - 1)` and the Euclidean `x % W` is a design fact for W a power of two, stated in the function's comment and not proved over bit-vectors.
- `CHUNK_CACHE_WIDTH` comes from a header that is not part of this model; W = 32 is taken, and W/2 - 1 is 15 as `fits` computes it.
- Chunk.ChunkCache.Save: each chunk's `shouldSave` is evaluated on its state when its slot is visited, as the source does. At the chunk's first slot that is its state on entry. At a repeated slot of the same chunk (only the empty chunk can fill several slots) the contract does not relate the `unsaved` flag and save time the visit saw to the entry state, since the visit of an earlier slot may have changed them.
- Chunk.ChunkCache.GetChunk: on a fetch the trace is only said to begin with the eviction, light-lava and load events; the post-processing events that follow are not listed one by one.
- Chunk.ChunkCache.PostProcessNeighbours: which of the three neighbours end populated is not stated, only that no population flag is cleared and that the new chunk is populated when its own block is present; each neighbour step states its own outcome.
- Chunk.ChunkCache.Generate: `source->getChunk(x, z)` belongs to the chunk source, which is not part of this model. The model takes it to return a new chunk at (x, z) whose terrain is not populated, not unsaved and not `dontSave`; `Valid`, `IsAt` facts and the origin clauses of `Install`, `Refill`, `Fetch` and `GetChunk` rest on that.
- JavaFile.ToPath: `toPath` resolves into a function-static `buffer` (File.cpp 30), which concurrent calls share and may overwrite; the model treats resolution as a pure function and does not model that race.
- Chunk.ChunkCache.PostProcess: `source->postProcess(parent, x, z)` (ChunkCache.cpp 123) receives the cache itself as `parent` (line 77) and could call back into it. It is modelled as one trace event with no effect on the cache, and the `unchanged` clauses and the trace equation of `PostProcess` rest on that.
- The storage's `load` and `save` are modelled by the population flag alone: a stored chunk comes back with that flag and otherwise as a fresh chunk. The rest of a chunk's saved contents (blocks, entities) are not modelled.

## Findings

| source | as written | input that shows it | evidently intended | confidence | as-written member | corrected member |
|---|---|---|---|---|---|---|
| src/pc/linux/java/File.cpp:213 | `readlink("/proc/self/exe", path, sizeof(path) - 1)` with `path` a `char *`, so at most 7 bytes are read on a 64-bit target | executable "/usr/local/bin/game": the path read is "/usr/lo" and the resource directory "/usr/resource" | read up to `PATH_MAX - 1` bytes, giving "/usr/local/bin/resource" | not executed | JavaFile.ExecutablePathAsWritten | JavaFile.ExecutablePath |
