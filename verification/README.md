# The memory storage of libtorrent-go

`memory_storage` (in `memory_storage.hpp`) replaces libtorrent's disk storage by a fixed
pool of byte buffers. A piece of the torrent that is written to gets a buffer on demand;
when the pool is full, `writev` ends with a call of `trim`, which evicts the least recently
used piece, pieces without download priority first, and never one that is reserved. Reads
are served from the pool, and `read` refuses a piece until a byte counter says it is
complete. The pool can grow while it is in use.

This project models that storage and proves what it does over whole runs.

| file | contents |
|---|---|
| `Bytes.dfy` | byte strings, scatter/gather lists, the log of writes of a piece |
| `Model.dfy` | the storage as a value, every operation as a function on it, the invariant |
| `Storage.dfy` | the storage as objects with fields, loops and byte arrays; each method computes its function of `Model` |
| `Trimming.dfy` | the counter law; when `trim` terminates, how much it evicts |
| `Effects.dfy` | what one operation does to residency and bytes |
| `Runs.dfy` | sequential runs: conservation, availability, memory bound, drift, growth, counters |
| `Ledger.dfy` | refinement to a cache of write logs; scatter/gather round trip |
| `Completeness.dfy` | the byte counter as a completeness test |
| `EvictionOrder.dfy` | least recently used, measured by the trace of the run |
| `Segments.dfy` | reserved pieces, agreement with the piece picker, no readmission |
| `Lru.dfy` | refinement to a least-recently-used cache that needs nothing from the storage |
| `Threads.dfy` | several threads: a step for each unlocked test, unlocked access to the byte counter, lock operation and stage of the locked work; what every step keeps |
| `Interleaving.dfy` | exactly in which runs of the threads the tables stay sound, and a rule for callers of `set_memory_size` |
| `Writers.dfy` | exactly in which runs a `writev` keeps its buffer and the byte counter is complete, and two rules for callers of `writev` |
| `Sections.dfy` | the locked section of `trim` under interleaving: when it is stuck, how much it evicts |
| `Answers.dfy` | what the locked part of a call does and answers under interleaving |
| `Progress.dfy` | calls come to an end; what the unlocked tests decide |
| `Solo.dfy` | calls of one thread without interference |
| `Simulation.dfy` | one thread on its own does what the sequential storage does |
| `Races.dfy` | runs in which threads get in each other's way |

The main results:

* The tables `pieces[p].bi` and `buffers[b].pi` are inverse to each other after every
  operation (`Model.StepInv`), and the two counters obey
  `#used == buffer_used + (buffer_size - buffer_limit) + drift`, where only
  `set_memory_size` adds to the drift (`Trimming.Conservation`, `Runs.ConservationLaw`).
* `trim` fails to terminate in exactly one situation, told before the call by
  `Effects.WriteSpins`; as long as the reserved set leaves two buffers it never arises, each
  `writev` evicts one piece at most, and a buffer is free between any two calls
  (`Runs.Availability`). The bound is tight for every torrent and every budget, and a
  torrent of one piece hangs at its first write (`Runs.ReservedBoundIsReached`,
  `Runs.OnePieceHangs`).
* To its callers the storage is a least-recently-used cache in which each piece is the log of
  the writes made since it was admitted: call for call it returns what that cache returns,
  and it fails to return exactly where the cache hangs (`Lru.StorageIsLru`). The answers of
  the cache depend on the operations alone.
* The completeness test of `read` is not right for every history: writing the same bytes
  twice lets a read through with bytes that were never written
  (`Completeness.OverlapFoolsRead`). It can be trusted exactly for histories without
  overlapping writes, or that cover the piece already (`Completeness.TrustedExactly`); from
  any other, further writes of bytes not yet written make `read` deliver one that never
  was, as long as writes to the piece return (`Completeness.MisledExactly`).
* The victim is the least recently used piece of the run (`EvictionOrder.EvictionFollowsTrace`).
* Under interleaving the tables do not stay sound in every run: `set_memory_size` tests the
  capacity before it takes the lock, so two calls served in the wrong order shrink the pool,
  a third appends buffers under indices already in use, and two pieces come to share one
  (`Races.StaleGrowthBreaks`). The tables stay sound in all states of a run if and only if no
  admission takes a buffer whose index is not its position; positions stay indices as well
  if and only if each `set_memory_size` that appends buffers finds as many as the old
  `buffer_size` says (`Interleaving.InterleavingSafety`). Callers can see to both by making
  one call of `set_memory_size` at a time (`Interleaving.SerializedGrowthIsSafe`).
* Between `get_buffer` and its last line a `writev` holds no lock. Another thread can evict
  its piece in between, and then the counter is raised on a piece without a buffer: its next
  admission starts with a full counter and no bytes (`Races.DanglingWriter`). Every `writev`
  of a piece keeps its buffer, in all states of a run, if and only if the piece's eviction
  never begins while one is past `get_buffer` and none passes the unlocked test of
  `get_buffer` while the eviction is under way (`Writers.BufferKeptExactly`).
* The counter itself is read and written without the lock, so of two updates one can be lost
  (`Races.LostUpdate`). None is lost if and only if each finds the counter as it read it
  (`Writers.CounterExactly`).
* Callers that make one call of `writev` and one of `set_memory_size` at a time get all of
  this (`Writers.OneCallOfEachIsSafe`); keeping a piece reserved also keeps its buffer
  (`Writers.ReservedFromTheStart`).
* With one `set_memory_size` at a time, whatever else the threads do, each locked section of
  `trim` evicts one piece at most, and none once there is drift; it is stuck in the situation
  of the sequential case only, which a reserved set that leaves two buffers rules out
  (`Sections.TrimUnderInterleaving`).
* Under interleaving each locked section is one operation of the sequential model on the tables
  and counters it found: `get_buffer` admits exactly the first free buffer or turns the piece
  away exactly when it should, `trim` leaves only below the limit and evicts one piece exactly
  if it found the pool full without drift, and growth is the sequential growth
  (`Answers.SectionsAreOperations`). The tests made outside the lock decide alone whether it is
  taken (`Progress.TestsDecide`), and every move of a call brings its return nearer unless
  `trim` is stuck (`Progress.CallsEnd`).
* Conversely every run of the sequential storage whose calls return is a run of one thread
  (`Simulation.StorageIsSimulated`), and where a call does not return the thread is stuck
  (`Simulation.SpinSimulated`).

Assumptions. `now()` is read from a logical clock that never repeats a value. The budget is
not negative, and every piece is between 1 byte and `piece_length` bytes long (the "info
dictionary" section of BEP 3). A call of `writev` starts within its piece and a `readv`
within the buffer. The priority libtorrent reports for a piece is the one last set. The
constructor leaves `m_handle` and `t` without a value; here they start as null.

## Model

| member | source | states |
|---|---|---|
| Model.StepInv | memory_storage.hpp:112-141 | every operation with any arguments keeps the piece and buffer tables inverse to each other, "used" equal to "assigned", positions equal to indices, free buffers and the tail of a short piece zero, and the pool size at its formula |
| Model.Init | memory_storage.hpp:143-186 | a new storage satisfies the invariant, with no buffer used and no piece resident |
| Model.FirstFreeIsFree | memory_storage.hpp:460-487 | the allocation loop stops at the lowest free buffer, and fails only when there is none |
| Model.AssignInv | memory_storage.hpp:469-484 | giving a free buffer to a piece without one keeps the tables inverse and adds that buffer and that piece, no other |
| Model.EvictInv | memory_storage.hpp:560-570 | removing a piece keeps the tables inverse and takes away its buffer and itself, no other |
| Model.TrimBodyInv | memory_storage.hpp:499-523 | an iteration of trim that finds a victim leaves fewer used buffers and a consistent pool |
| Storage.MemoryStorage.constructor | memory_storage.hpp:143-186 | builds fresh piece and buffer objects whose values are the initial state |
| Storage.MemoryStorage.SetMemorySize | memory_storage.hpp:196-221 | ignores a request that is not larger; else sets capacity, size and limit and appends fresh zeroed buffers |
| Storage.MemoryStorage.Read | memory_storage.hpp:230-269 | returns -1 and disclaims an absent or incomplete piece, 0 past the end, else the requested size, having put the bytes of the piece's buffer from the offset on at the start of the caller's buffer and left the rest of it alone |
| Storage.MemoryStorage.Readv | memory_storage.hpp:271-316 | each destination receives its share of the piece in turn and keeps the rest of its bytes; the count returned is the number of bytes copied; an absent piece copies nothing |
| Storage.MemoryStorage.Writev | memory_storage.hpp:318-362 | admits the piece if it may, stores the concatenation of the sources clipped to the piece, counts it, and trims |
| Storage.MemoryStorage.GetWriteBuffer | memory_storage.hpp:435-490 | finds or assigns a buffer, or turns the piece away at the reader gate, and reports whether there is one |
| Storage.MemoryStorage.Trim | memory_storage.hpp:492-524 | evicts until the counters allow another admission, or reports that no victim is left |
| Storage.MemoryStorage.FindLastBuffer | memory_storage.hpp:540-558 | the loop over the buffers returns the oldest candidate |
| Storage.MemoryStorage.RemovePiece | memory_storage.hpp:560-570 | resets and zeroes the buffer, resets its piece, lowers the counter, and tells libtorrent |
| Storage.MemoryStorage.RestorePiece | memory_storage.hpp:572-585 | with a handle and a torrent, sets the priority to 0 and marks the piece as not held; else nothing |
| Storage.MemoryStorage.UpdateReservedPieces | memory_storage.hpp:605-615 | the reserved set becomes exactly the list given |
| Storage.MemoryStorage.SetTorrentHandle | memory_storage.hpp:398-401 | sets the handle, and the torrent if there still is one |
| Storage.CopyIn | memory_storage.hpp:336-345 | the copy loop of writev overwrites one stretch of the buffer with the clipped concatenation of the sources |
| Storage.CopyOut | memory_storage.hpp:287-299 | the copy loop of readv hands each destination the next stretch of the buffer |
| Trimming.Conservation | memory_storage.hpp:478-484 | no operation changes #used - buffer_used - (buffer_size - buffer_limit), but an effective set_memory_size, which adds the old buffer_size - buffer_limit |
| Trimming.FullTest | memory_storage.hpp:357-359 | without drift, buffer_used >= buffer_limit says exactly that no buffer is free; with drift it is never true |
| Trimming.BodySpins | memory_storage.hpp:499-523 | an iteration finds no victim exactly when every used buffer other than the kept one holds a reserved piece |
| Trimming.TrimTerminates | memory_storage.hpp:492-524 | trim hangs exactly when the counters are in step, the pool is full and nothing may be evicted; otherwise it evicts one piece if the pool was full and none if not |
| Trimming.SpinsForever | memory_storage.hpp:499-523 | after an iteration without a victim the loop is in the same state but for the clock after any number of iterations, its guard still true |
| Trimming.StopsSometime | memory_storage.hpp:499-523 | in every other case a finite number of iterations ends the loop in the state computed |
| Trimming.ResidentCount | memory_storage.hpp:439-490 | as many pieces are resident as buffers are used |
| Trimming.Pigeonhole | memory_storage.hpp:540-558 | a full pool with at most buffer_size - 2 reserved pieces always offers a victim |
| Effects.WriteEffect | memory_storage.hpp:318-362 | after storing, a writev takes away at most one piece, resident, unreserved and not the one written, and only when the pool is full; all other pieces keep bytes and counter |
| Effects.WriteLands | memory_storage.hpp:336-359 | the written piece is resident afterwards with the payload in place over its old bytes (zeros if new) and its counter raised by as much; its own trim never evicts it |
| Effects.WriteSpins | memory_storage.hpp:357-359 | a writev hangs exactly when the counters are in step, the piece is admitted, it fills the pool, and every other resident piece is reserved |
| Effects.WriteEvicts | memory_storage.hpp:357-359 | a writev evicts exactly when the counters are in step, the piece is admitted, it fills the pool, and some other resident piece is not reserved |
| Effects.RefusedWrite | memory_storage.hpp:449-458 | a write turned away returns 0 and changes nothing but libtorrent's record of that piece |
| Runs.ConservationLaw | memory_storage.hpp:196-221 | in every reachable state the counter law holds with the drift that set_memory_size has accumulated |
| Runs.Availability | memory_storage.hpp:318-362 | in calm runs, whatever replaces the reserved set between calls, a buffer is always free, no writev hangs or evicts more than one piece, and a piece past the reader gate always gets its bytes stored |
| Runs.FreshIsAvailable | memory_storage.hpp:170-180 | a new storage for at least one piece has a free buffer and counters in step |
| Runs.MemoryBound | memory_storage.hpp:170-175 | in calm runs the resident pieces take at most capacity + piece_length bytes, and the pool at most capacity + 2 * piece_length |
| Runs.PoolBytes | memory_storage.hpp:206-209 | in every state the pool takes at most capacity + 2 * piece_length bytes |
| Runs.OnePieceHangs | memory_storage.hpp:171-174 | the first writev of a one-piece torrent never returns |
| Runs.ReservedBoundIsTight | memory_storage.hpp:492-524 | with buffer_size - 1 reserved pieces resident the next admission hangs |
| Runs.ReservedBoundIsReached | memory_storage.hpp:492-524 | whatever the torrent and the budget, a new storage whose reserved set has buffer_size - 1 pieces has a run of writes the last of which hangs |
| Runs.DriftAbsorbs | memory_storage.hpp:357-359 | once there is drift nothing is ever evicted, residents only grow, no writev hangs, and a full pool returns 0 to every other piece |
| Runs.DriftStarts | memory_storage.hpp:196-210 | drift starts exactly with an effective set_memory_size while buffer_limit is below buffer_size |
| Runs.GrowthIsPathIndependent | memory_storage.hpp:196-221 | after any run the pool has min(largest request / piece_length + 2, piece_count) buffers, each at its index |
| Runs.GrowthKeepsPieces | memory_storage.hpp:218-220 | growing moves no piece, changes no byte and adds only free buffers |
| Runs.CountersUnderFixedReservations | memory_storage.hpp:478-484 | while the reserved set stays, buffer_used counts the unreserved residents and buffer_limit is buffer_size less the reserved ones |
| Runs.CountersFromTheStart | memory_storage.hpp:170-186 | so in every such run of a new storage that starts with a reservation |
| Runs.GrowthLosesMeaning | memory_storage.hpp:206-210 | growth keeps that meaning exactly when no reserved piece is resident |
| Runs.ReserveLosesMeaning | memory_storage.hpp:605-615 | replacing the reserved set keeps it exactly when as many residents are reserved as before |
| Ledger.StepRefines | memory_storage.hpp:230-362 | each operation is one step of a cache of write logs with the same output; the cache admits a piece exactly if it may come in and there is a place, drops one unreserved piece exactly if the write fills the last place and there is one to drop, and hangs exactly if there is none |
| Ledger.RunRefines | memory_storage.hpp:230-362 | along every run the storage returns what the cache of logs returns, and fails to return exactly where that cache hangs; so no read sees a byte not written to its piece since it was admitted |
| Ledger.ScatterGather | memory_storage.hpp:287-345 | writev depends on its buffers only through their concatenation, and a readv of as many bytes gets the clipped concatenation back whatever its split |
| Lru.StepMatches | memory_storage.hpp:196-615 | each operation of the storage returns what the least-recently-used cache returns and leaves a state that the cache's next one describes: logs, budget, reserved set, priorities, drift, and the order of last touches |
| Lru.StorageIsLru | memory_storage.hpp:143-615 | for every sequence of operations on a new storage, it is a run of the storage exactly if it is one of an empty least-recently-used cache, and then all results agree, hangs included |
| Bytes.FlattenScatter | memory_storage.hpp:289-295 | whatever the split, the destinations of a readv receive a prefix of the source, in order |
| Bytes.CoverageBound | memory_storage.hpp:354 | the byte counter is at least the number of distinct bytes written, and equal to it exactly when no two writes overlap |
| Bytes.ReplayAt | memory_storage.hpp:341 | a byte of the piece is the one last written there, zero if none was |
| Completeness.CounterTest | memory_storage.hpp:245-251 | a piece written in full passes the test; without overlapping writes a piece passes it exactly when it was written in full |
| Completeness.ReadDelivers | memory_storage.hpp:253-268 | a read that passes delivers the bytes last written, and returns the size asked for, which is the number of bytes copied exactly when the request ends within the buffer |
| Completeness.ReadAfterRun | memory_storage.hpp:245-268 | after any run of a new storage, a read that passes delivers the bytes last written since the piece was admitted, all of them written if no writes overlapped |
| Completeness.TrustedExactly | memory_storage.hpp:245-251 | the test errs in no continuation by fresh writes exactly if the writes so far do not overlap or cover the piece |
| Completeness.MisledExactly | memory_storage.hpp:245-268 | fresh writes to a resident piece, all of which return, can make a read deliver a byte never written exactly if its writes have overlapped, a byte is missing, and writes to it return or its counter has reached the length already |
| Completeness.OverlapFoolsRead | memory_storage.hpp:245-268 | a run in which a byte written twice makes a read succeed with a byte that was never written |
| EvictionOrder.OldestIsLeast | memory_storage.hpp:545-555 | one scan finds the earliest access among the candidates, the lowest index among equals |
| EvictionOrder.PickIsLeast | memory_storage.hpp:504-522 | the two scans together pick the least of all evictable buffers by priority being non-zero, last access and index |
| EvictionOrder.StepTimes | memory_storage.hpp:266 | every operation stamps what it reads or writes with a time later than all earlier ones, and nothing else |
| EvictionOrder.RunInStep | memory_storage.hpp:313-355 | in every state of a run access times order the residents as the last operation that touched each of them does |
| EvictionOrder.EvictionFollowsTrace | memory_storage.hpp:492-558 | the victim of a writev is, among the residents neither reserved nor written, one without priority if there is any, and of those the one touched longest ago in the run |
| Segments.PinnedResidency | memory_storage.hpp:540-558 | a resident piece that stays reserved is never evicted, and its bytes and counter are those left by its own writes |
| Segments.PickerAgreement | memory_storage.hpp:560-585 | with the torrent attached, every piece libtorrent counts as downloaded is resident and passes the completeness test |
| Segments.WriteAgrees | memory_storage.hpp:572-573 | a writev keeps that agreement exactly if the torrent is attached or no evicted piece was counted on |
| Segments.EvictionBars | memory_storage.hpp:560-585 | a piece evicted is barred, out of the pool with priority 0 after reading has begun, exactly if there is a handle, reading has begun, and there is a torrent or the priority was 0 already |
| Segments.NoReadmission | memory_storage.hpp:455-458 | until its priority is raised, each writev to such a piece returns 0 and leaves buffers, counters and all other pieces unchanged |
| Threads.DoSafe | memory_storage.hpp:196-570 | every step of every thread, but an admission that takes a buffer whose index is not its position, keeps mutual exclusion, the links between the tables but for those of the thread inside the lock, and the counter law |
| Interleaving.TablesExactly | memory_storage.hpp:439-524 | in all states of a run each piece has one buffer, the tables are linked but for the entries under work, and whenever the lock is free they are inverse and the counter law holds, exactly if every admission takes a buffer whose index is its position |
| Interleaving.SoundExactly | memory_storage.hpp:196-524 | that and positions equal to indices hold in all states exactly if each set_memory_size that appends buffers finds as many as the old buffer_size says |
| Interleaving.InterleavingSafety | memory_storage.hpp:143-524 | both for every run of any number of threads on a new storage, and the second condition implies the first |
| Interleaving.SerializedGrowthIsSafe | memory_storage.hpp:196-221 | if no set_memory_size is called while another is under way, the run of a new storage is sound in all its states, whatever else the threads do |
| Writers.BufferKeptExactly | memory_storage.hpp:318-359 | every writev of a piece that is past get_buffer has the piece's buffer, and no counter stands without one, in all states of a run with sound tables, exactly if the eviction of the piece never begins meanwhile and no writev of it passes the unlocked test during its eviction |
| Writers.CounterExactly | memory_storage.hpp:354 | in all states of a run the counter is the number of bytes its writevs have added since the last eviction exactly if each that writes it finds in it what it had read |
| Writers.WritersExactly | memory_storage.hpp:318-359 | both for every piece and every run of a new storage |
| Writers.ReservedIsSpared | memory_storage.hpp:543 | a piece that stays reserved meets the condition for keeping the buffer |
| Writers.AloneIsSpared | memory_storage.hpp:318-362 | with one writev at a time every piece meets both conditions |
| Writers.OneCallOfEachIsSafe | memory_storage.hpp:196-362 | with one writev and one set_memory_size at a time a new storage has sound tables, kept buffers and complete counters in all states |
| Writers.ReservedFromTheStart | memory_storage.hpp:318-359 | with one set_memory_size at a time, a piece reserved from the start always keeps its buffer |
| Sections.StuckExactly | memory_storage.hpp:499-523 | a thread in the loop of trim cannot go on exactly if there is no drift, no buffer is free, and every piece in the pool but the one it keeps is reserved |
| Sections.TrimUnderInterleaving | memory_storage.hpp:492-524 | in runs with one set_memory_size at a time each locked section of trim evicts one piece at most, none with drift, and the loop can always go on while the reserved set leaves two buffers |
| Answers.SectionsAnswer | memory_storage.hpp:196-524 | in runs with sound tables each locked section that ends has made of the tables and counters it found what the sequential operation makes of them; get_buffer ends with the thread past it exactly if its piece has a buffer then, and with it turned away exactly if the piece had none and the gate was closed or every buffer used; trim ends only with the counter below the limit |
| Answers.SectionsEvict | memory_storage.hpp:492-524 | with one set_memory_size at a time a section of trim that ends has evicted one piece if it found the pool full and no drift, and else none |
| Answers.SectionsAreOperations | memory_storage.hpp:143-524 | both for every run of any number of threads on a new storage |
| Progress.CallsEnd | memory_storage.hpp:196-524 | in runs with one set_memory_size at a time every move of a call lowers a measure of what is left of it, but where trim is stuck; moves of others leave it as it is; and each thread in a call can move or waits for one that can |
| Progress.TestsDecide | memory_storage.hpp:196-497 | a call at an unlocked test takes the lock before its end exactly if, in the state it tests, the piece has no buffer, the counters ask for an eviction, or the budget is larger; otherwise it changes nothing and get_buffer answers yes, the others return |
| Simulation.StorageIsSimulated | memory_storage.hpp:143-615 | every run of a new storage whose calls return is a run of one thread with the same tables, counters, byte counters, reserved set and drift |
| Simulation.SpinSimulated | memory_storage.hpp:492-524 | where a sequential writev does not return, the thread on its own ends stuck in the loop of trim |
| Races.StaleGrowthAlone | memory_storage.hpp:196-221 | a run in which growth out of place leaves positions that are not indices and yet sound tables |
| Races.StaleGrowthBreaks | memory_storage.hpp:196-221 | a run in which growth calls served in the wrong order end with two pieces pointing to one buffer |
| Races.DanglingWriter | memory_storage.hpp:324-354 | a run, sound in all its states, in which a writev loses its buffer to another thread and the piece then has a full counter before a byte of it is stored |
| Races.LostUpdate | memory_storage.hpp:354 | a run, sound in all its states, in which two writevs add five bytes each and the counter ends at five |

## Left out

- Model.Writev: `size`, `buffer_used` and `buffer_limit` are unbounded integers; the 32-bit width of the C++ fields is not modelled.
- Storage.MemoryStorage.Now: two readings of the clock never agree; with the microsecond clock of the source, a buffer accessed in the very microsecond of a scan is passed over until the clock moves.
- Storage.MemoryStorage.Trim: the endless loop of the source is left with the result `spins`; `Trimming.SpinsForever` and `Trimming.StopsSometime` say why that is the same thing.
- Model.Init: a negative budget is outside the model, so the test `capacity < 0` of `trim` is kept but never true.
- Ledger.RunRefines: sequential runs only; the source copies bytes outside its mutex, and byte contents under concurrent calls are not modelled.
- Threads.Advance: four stages of the locked work (marking a buffer, resetting one, resetting its piece, setting the capacity and the sizes) write their two or three fields in one step, and new buffers are appended in one step; no test outside the lock reads two of them in a way that could tell.
- Sections.TrimUnderInterleaving: the two scans of an iteration, each of which sees one reserved set under `r_mutex`, are one step, taken at the scan that finds the victim or, if neither does, at the second.
- Threads.Do: the copy in `writev` and its stamp of the buffer are not steps; a `writev` whose buffer has been taken away goes on to use index -1, and only the counter it then raises is modelled. The unlocked accesses to the counter are one read and one write, each of a whole value. Replacing the reserved set is one step; an admission, which looks at the set without `r_mutex`, in the middle of a replacement is a run with two replacements.
- Interleaving.InterleavingSafety: bytes, access times and priorities are not part of the threads' state; a scan may settle on any evictable buffer, and the reader gate may go either way. The read path of `get_buffer` writes nothing and is not a step.
- Logging and `get_buffer_info`: no effect on the state.
- The stub overrides (`rename_file`, `move_storage`, `delete_files`, resume data, file priorities): they do nothing.
- `is_completed`, `is_read` and `buffer_reserved`: never set to anything that is used.
- `is_initialized`: true from the end of the constructor on, so its tests never fail.
- `update_reader_pieces`: the bits are never consulted; only the width of the bitset is, and it is never zero.
- `reset_piece_deadline` and the rest of libtorrent: outside the repository; the model has the pieces held and their priorities, no more.
- The floating-point rounding of the pool size: its argument is an integer quotient already.
- The SWIG interfaces, the Go wrappers, `session_handle.hpp`, `upload_plugin.hpp` and the build scripts: declarations and bindings.
