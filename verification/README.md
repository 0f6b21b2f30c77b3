# fspy: verification of the Unix file-access tracker

fspy records the file accesses of a tree of processes. This project models the parts of it that carry state or
a protocol, on Linux, and proves what they are for. Everything is checked by `dafny verify dfyconfig.toml`.

## What is modelled

**The access log.** Every thread of every traced process appends records to 256 KiB chunks of shared memory
whose descriptors it has sent to the supervisor. `log_machine.dfy` is the protocol as a state machine over its
real steps: reserving, storing payload bytes in any order, storing the flag byte, the sub-steps of creating a
chunk (open, send, size, map), fork with its atfork handler, exec, death at any moment, and readers that load a
flag or decode a record at a time. `log_safety.dfy` holds the invariant and its proof step by step,
`log_theorems.dfy` what it means for whole runs, `log_slots.dfy` what forks do to slots of ended threads.
`client.dfy` is the same writer as one thread's imperative code over real buffers with every system call able to
fail, `packing.dfy` its use of space; `log_paths.dfy` shows that each of its sends is a path of the machine, and
`log_progress.dfy` which sends are published. The reader and the frame layout are in `access_log.dfy`, the record
format in `path_access.dfy` and `bincode.dfy`.

**Rewriting exec calls.** PATH search (`which.dfy`), shebang lines (`shebang.dfy`), the environment
(`envs.dfy`), resolving (`exec.dfy`), recording and equipping a command (`spawn.dfy`), C arrays in memory
(`raw_exec.dfy`), the payload a child finds in its environment (`payload.dfy`, `base64.dfy`) and the builder
the root process is spawned from (`command.dfy`). `tracking.dfy` puts these together into trees of processes
that fork, execute and spawn; `tracking_runs.dfy` proves that nobody escapes tracking.

**Three protocols.** Installing a fixture by temporary and rename with concurrent callers (`fixture.dfy`, the
call itself in `fixture_call.dfy`), the seccomp supervisor (`supervisor.dfy`), and cloning a descriptor until
its number is safe (`fd_table.dfy`).

Code that changes things in place is imperative here too and is proved against a specification function; the
main results are lemmas about those functions or about all runs of a state machine. Clocks, randomness and the
answers of the operating system are parameters: each call that can fail may fail each time.

## What the proofs found

- `Spawns.PanicsExactly`: `Exec::resolve` documents that it returns the errno an exec function would return
  (`crates/fspy_shared_unix/src/exec/mod.rs:92-95`). It panics instead on a script with an empty argument list.
  `handle_exec` panics on a script whose first line is blank behind `#!`, because the empty interpreter reaches
  `std::path::absolute`, and on any relative path it is to record while the working directory cannot be read, for
  example because it was removed. The lemma gives the exact set of inputs, `Spawns.BlankScriptPanics` and
  `Spawns.RelativeProgramPanics` one of each kind.
- `TrackingRuns.TrackingLostExactly`: a call that reaches `handle_exec` loses tracking in three ways, and in no other.
  `ensure_env` compares the first valued entry while glibc's loader takes the last LD_PRELOAD, so a second, different
  entry passes the check (`ShadowedCall`). The path of the library is `/proc/self/fd/N`, and nothing checks that the
  program has left descriptor N open and inheritable (`ClosedDescriptorCall`). A program that runs in secure mode, as a
  set-user-ID one does, is given a path its loader does not look at (`SecureCall`). `TrackingRuns.TrackedExactly`
  says the same of whole runs, execs that do not reach `handle_exec` included; one of those is the branch of the
  `execveat` hook that calls the original
  (`crates/fspy_preload_unix/src/interceptions/spawn/exec/mod.rs:198-201`).
- `LogSlots.ForkIsExactExactly`: the atfork handler resets only the slot of the thread that forks. A slot whose thread
  has ended keeps its cursor and may be given to a later thread; after a fork parent and child both have it, with the
  same free space, and two threads that are given the copies lose a record (`LogSlots.RecordIsLost`). A fork is harmless
  exactly when no such slot has room for a request, which is three bytes.
- The branches of `parse_shebang` that answer ENOEXEC or nothing for a missing first piece
  (`crates/fspy_shared_unix/src/exec/shebang.rs:48-55`) are never taken: splitting always yields a piece.
- A chunk whose sizing or mapping fails stays with the supervisor as an object without a record
  (`Client.Client.NewShm`); the reader copes with it.

## Assumptions

- Processes fork as they like, but a slot that a fork has copied is not given to a thread again while it has room and
  its cursor is out of date or its chunk in use (`LogMachine.SafeReuse`); without that records are lost, see above.
  Slots of threads that still run in the parent are never given to a thread of the child: `thread_local` hands out the
  slot of an ended thread or a new one.
- The kernel shares pages between mappings of one object, makes `rename` atomic, gives the lowest free descriptor,
  allows one seccomp filter with a listener per process, and delivers descriptors in the order they were sent.
- Payload stores become visible before the flag store; this is the release and acquire pair of the code.
- Callers of `write_to` that name the same final file bring the same content, and a final file that is there before
  the first call is complete. Nobody else removes or renames files of the directory.
- `std::path::absolute` fails on the empty path, and on a relative path exactly when the working directory cannot be
  read; what it gives is absolute (`Spawns.WellBehaved`).
- A dynamic loader takes the last LD_PRELOAD, as glibc's does, or the first, as musl's does; which one it is depends on
  the executable. The check for a dynamic program (`crates/fspy_shared_unix/src/spawn/linux/elf.rs:10-20`) admits both.
- The file system does not change within one exec call: a path opens to the same content each time.
- `/proc` is mounted, and descriptor numbers that the payload names are not closed and taken for something else: while the
  library's is open it is the library. A send or an installation over a closed socket fails, which is a death or a
  failed call of the model.
- An exec that does not reach `handle_exec` runs any program with any environment; filters survive it.

## Model

| member | source | states |
|---|---|---|
| `LogTheorems.OutputIsHistory` | crates/fspy/src/unix/mod.rs:147-176 | In every reachable state of any number of processes and threads, iterating over the sent chunks panics nowhere and yields exactly the multiset of published accesses, then the arenas; each writer's accesses come in the order it published them |
| `LogTheorems.ChunkDecodesToStores` | crates/fspy_preload_unix/src/client/mod.rs:103-174 | At any moment a chunk decodes to exactly the accesses whose flag byte was stored in it, in order; a chunk whose descriptor was not sent holds none |
| `LogTheorems.SingleWriter` | crates/fspy_preload_unix/src/client/mod.rs:59-67 | In every reachable state at most one slot with room left points into any chunk, leaving out slots of ended threads that a fork has copied and nobody uses |
| `LogTheorems.WritesAreExclusive` | crates/fspy_preload_unix/src/client/mod.rs:162-171 | A store into a reserved record touches no published byte, stays inside the chunk, and nobody else has room in or is writing to that chunk |
| `LogTheorems.ForkForcesFreshChunk` | crates/fspy_preload_unix/src/client/mod.rs:299-308 | Whatever a forked child sends first, its copied cursor refuses it and it goes on to create a chunk of its own |
| `LogSlots.ForkIsExactExactly` | crates/fspy_preload_unix/src/client/mod.rs:299-308 | However the run goes on and whatever slots are reused, the supervisor reads exactly what was published, if and only if the fork leaves no room for a request behind in slots of ended threads (other forks, earlier or later, not leaving any) |
| `LogSlots.RecordIsLost` | crates/fspy_preload_unix/src/client/mod.rs:299-308 | Concrete run: one thread sends and ends, another forks, the next threads of parent and child get the slot and its copy, each publishes, and one record is lost |
| `LogSlots.LostRecord` | crates/fspy_preload_unix/src/client/mod.rs:299-308 | After any fork that leaves room behind, two threads can lose a record |
| `LogSlots.GoesSafely` | crates/fspy_preload_unix/src/client/mod.rs:299-308 | Where no fork leaves room behind, every reuse of a slot is one the results about runs allow |
| `LogSlots.ForkKeepsOneWriterExactly` | crates/fspy_preload_unix/src/client/mod.rs:299-308 | The same condition says when no two slots at all, used or not, have room in one chunk after the fork |
| `LogTheorems.ReadersAreSafe` | crates/fspy/src/unix/mod.rs:155-174 | A reader interleaved with writers, deaths and half-made chunks never slices out of range and never meets an undecodable record; what it read is a prefix of the chunk's log in every later state and, when it stops, holds everything published before it started |
| `LogTheorems.LaterReadExtends` | crates/fspy/src/unix/mod.rs:155-174 | A read started after another of the same chunk finished extends what that one gave |
| `LogTheorems.RunExtends` | crates/fspy_preload_unix/src/client/mod.rs:162-171 | Along every run published records, sent descriptors and history only grow |
| `LogProgress.ExactCapacity` | crates/fspy_preload_unix/src/client/mod.rs:90-174 | From every reachable state, whatever the cursor of an idle slot: the slot's own fault-free steps can publish an access exactly when its path is not below `/dev/`, `/proc/` or `/sys/` and has at most 262137 bytes |
| `LogProgress.SendOut` | crates/fspy_preload_unix/src/client/mod.rs:127-174 | Left alone, a send of a record that fits a chunk ends with that record published next; every step is the slot's own and none is a failure |
| `LogProgress.EverySendPublishes` | crates/fspy_preload_unix/src/client/mod.rs:127-174 | In any company: once a send of a fitting record has begun, none of its own calls fails and its process stays, it has published the record whenever its slot is idle again |
| `LogPaths.SendIsPath` | crates/fspy_preload_unix/src/client/mod.rs:103-174 | Whatever `Client.Send` comes to, with any of its calls failing, is a path of steps of one slot of the machine that starts and ends idle, has the same effect on cursor and objects, and publishes what the send publishes |
| `LogProgress.SendInCompany` | crates/fspy_preload_unix/src/client/mod.rs:151-174 | A run of any number of processes goes on with that path, and the supervisor then reads what it read before and, if the send published, one more access |
| `LogPaths.ForkLinked` | crates/fspy_preload_unix/src/client/mod.rs:299-308 | After a fork the child's slot is the client that `ResetAtFork` leaves |
| `LogProgress.PublishedFits` | crates/fspy_preload_unix/src/client/mod.rs:132-148 | Whatever was ever published fits a chunk |
| `LogSafety.StepKeepsInv` | crates/fspy_preload_unix/src/client/mod.rs:103-174 | Each single step of sending, chunk creation, fork, exec, death and reading keeps the invariant of the log |
| `LogSafety.RunKeepsInv` | crates/fspy_preload_unix/src/client/mod.rs:103-174 | The invariant holds in every state of every run |
| `AccessLog.ReaderRecoversLog` | crates/fspy/src/unix/mod.rs:155-174 | Reading a chunk that holds the frames of a log followed by a zero byte or the end gives exactly that log |
| `AccessLog.ReadAllRecoversLogs` | crates/fspy/src/unix/mod.rs:148-176 | Reading all chunks and then the arenas gives the logs one after the other, then the arenas |
| `AccessLog.HoldsUnique` | crates/fspy/src/unix/mod.rs:155-174 | A chunk's bytes determine its log |
| `AccessLog.ReadChunk` | crates/fspy/src/unix/mod.rs:157-173 | The flag-record loop over one mapped chunk computes the reading function, on any bytes, panics included |
| `AccessLog.ReadEverything` | crates/fspy/src/unix/mod.rs:148-176 | The whole iteration, chunks in descriptor order and then arenas, computes the reading function |
| `Client.ShmCursor.Advance` | crates/fspy_preload_unix/src/client/mod.rs:59-67 | Reserves exactly when the end fits the chunk and a `usize`; otherwise the cursor stays |
| `Client.Client.NewShm` | crates/fspy_preload_unix/src/client/mod.rs:103-125 | Creates a zeroed chunk with cursor 0; the descriptor goes out before the chunk is sized or mapped, so a later failure leaves a sent object without a record; the id counter is advanced first, modulo the machine word |
| `Client.Client.Reserve` | crates/fspy_preload_unix/src/client/mod.rs:127-149 | Succeeds exactly when the request fits the current chunk, or fits a chunk at all and the needed creation succeeds; the reservation starts right behind the published frames |
| `Client.Client.Send` | crates/fspy_preload_unix/src/client/mod.rs:151-174 | Succeeds exactly when the path is ignored, the record fits the current chunk, or the path has at most 262137 bytes and creating a chunk succeeds; success publishes exactly that record last, failure publishes nothing; a path below `/dev/`, `/proc/` or `/sys/` leaves no trace, any other that fits is published when no call fails; cursor and objects are the specified ones in every case |
| `Client.Client.ResetAtFork` | crates/fspy_preload_unix/src/client/mod.rs:299-308 | Afterwards no request of at least one byte fits, and the client's invariant holds |
| `Client.ShmCursor.WriteRecord` | crates/fspy_preload_unix/src/client/mod.rs:159-171 | Stores every payload byte and then, last, the flag byte, and overwrites exactly the reserved bytes |
| `Client.RequestFits` | crates/fspy_preload_unix/src/client/mod.rs:90-90 | A record fits a chunk of 262144 bytes exactly when its path has at most 262137 bytes |
| `AccessLog.IgnoredExactly` | crates/fspy_preload_unix/src/client/mod.rs:152-158 | The ignored paths are those that start with `/dev/`, `/proc/` or `/sys/`, byte by byte |
| `AccessLog.FrameBytes` | crates/fspy_preload_unix/src/client/mod.rs:159-171 | A frame byte by byte: 1, tag, length, path |
| `Client.SupervisorReads` | crates/fspy/src/unix/mod.rs:147-176 | After any sends, failures and resets the supervisor reads back exactly what the client published, in order |
| `Packing.ChunkBound` | crates/fspy_preload_unix/src/client/mod.rs:127-149 | k chunks of which any two consecutive ones overflow one chunk hold T bytes with k / 2 * (C + 1) <= T |
| `Packing.PlacedStaysDense` | crates/fspy_preload_unix/src/client/mod.rs:127-149 | Placing a record keeps any two consecutive chunks together above the chunk size |
| `Packing.RecordAll` | crates/fspy_preload_unix/src/client/mod.rs:151-174 | One thread recording any list of accesses that fit or are ignored publishes all that are not ignored, in order, within the chunk-count bound |
| `Packing.RecordedOneMore` | crates/fspy_preload_unix/src/client/mod.rs:151-158 | What is recorded of a list: all but the paths with the three prefixes, in order |
| `PathAccesses.RecordRoundTrip` | crates/fspy_shared/src/ipc/mod.rs:12-25 | Decoding an encoded access followed by any bytes gives it back and stops right behind it; the size pass equals the bytes written |
| `PathAccesses.RecordBytes` | crates/fspy_shared/src/ipc/mod.rs:12-25 | The bytes of a record: tags 0 to 3 for the four modes, length of one, three or five bytes, path |
| `PathAccesses.Decode` | crates/fspy_shared/src/ipc/mod.rs:20-25 | A decoded record consumes at least one byte and never more than there are |
| `Bincode.SliceRoundTrip` | crates/fspy_shared/src/ipc/native_str.rs:14-20 | A byte slice of any length survives length prefix and raw bytes, whatever follows |
| `Bincode.VarintRoundTrip` | crates/fspy_shared/src/ipc/mod.rs:10-10 | The variable-length integer of the standard configuration decodes to itself at each width, with the announced size |
| `Bincode.VarintBytes` | crates/fspy_shared/src/ipc/mod.rs:10-10 | The bytes of an integer: itself below 251, else behind 251, 252 or 253 with the least significant byte first |
| `Bincode.I32RoundTrip` | crates/fspy_shared_unix/src/payload.rs:18-30 | Signed descriptors survive zigzag and variable-length coding |
| `Bincode.SignedBytes` | crates/fspy_shared_unix/src/payload.rs:18-30 | The bytes of a signed number: 0, -1, 1, -2 become 0, 1, 2, 3 and so on |
| `Payloads.SockFilterRoundTrip` | crates/seccomp_unotify/src/payload/filter.rs:3-9 | One BPF instruction survives its wire form, whatever follows |
| `Payloads.FilterRoundTrip` | crates/seccomp_unotify/src/payload/filter.rs:27-28 | A filter of any length survives its wire form |
| `Payloads.SeccompRoundTrip` | crates/seccomp_unotify/src/payload/mod.rs:6-10 | The nested payload survives its wire form |
| `Payloads.WireRoundTrip` | crates/fspy_shared_unix/src/payload.rs:18-30 | The whole payload survives its wire form, whatever follows |
| `Payloads.PayloadBytes` | crates/fspy_shared_unix/src/payload.rs:18-30 | The bytes of a payload: descriptor, path, descriptor, instructions with code, jumps and operand, in this order |
| `Payloads.PayloadHandoff` | crates/fspy_shared_unix/src/payload.rs:41-65 | Decoding undoes encoding for every payload, consumes every byte so the length assertion holds, and keeps the same text |
| `Payloads.PayloadTextIsInjective` | crates/fspy_shared_unix/src/payload.rs:41-48 | Different payloads have different texts |
| `Payloads.PayloadTextHasNoNul` | crates/fspy_shared_unix/src/payload.rs:41-48 | The text holds no NUL, so it survives an environment block |
| `Base64.DecodeEncode` | crates/fspy_shared_unix/src/payload.rs:43-43 | Unpadded base64 (sections 3.2 and 4 of RFC 4648) decodes to the bytes it was made from |
| `Base64.EncodeDecode` | crates/fspy_shared_unix/src/payload.rs:58-58 | Only canonical text decodes: encoding what was decoded gives the same text |
| `Base64.EncodeIsText` | crates/fspy_shared_unix/src/payload.rs:43-43 | Encoded text consists of the 64 symbols only |
| `Base64.TextBytes` | crates/fspy_shared_unix/src/payload.rs:43-43 | Which symbols stand for three, two and one byte |
| `Base64.Alphabet` | crates/fspy_shared_unix/src/payload.rs:43-43 | The 64 symbols |
| `Base64.FixedTexts` | crates/fspy_shared_unix/src/payload.rs:43-43 | Two fixed texts, `TWFu` and `+/8` |
| `FdTables.FdTable.DuplicateUntilSafe` | crates/fspy/src/unix/mod.rs:180-189 | Ends within 15 clones, using up one free low number per round; the result is at least 17 and the table is the old one with the descriptor replaced by the lowest free number from 17 up on the same file; a failed clone loses the descriptor and nothing else |
| `FdTables.NextClone` | crates/fspy/src/unix/mod.rs:183-187 | Each clone shrinks the set of free numbers in 3..16 by one, or that set is empty and the clone is the lowest free number from 17 up |
| `FdTables.FdTable.TryClone` | crates/fspy/src/unix/mod.rs:184-184 | A clone takes the lowest free number from 3 up and shares the file |
| `PathSearch.Which` | crates/fspy_shared_unix/src/exec/which.rs:32-77 | Empty name, name with a slash, overlong name and search, each with its answer; the callback is called once exactly when a program is found, and its answer, an error too, is passed on |
| `PathSearch.FindsFirstUsable` | crates/fspy_shared_unix/src/exec/which.rs:55-75 | A candidate that passes, all before it answering EACCES, ENOENT or ENOTDIR, is the answer, and no later one is probed |
| `PathSearch.StopsAtOtherError` | crates/fspy_shared_unix/src/exec/which.rs:62-74 | Any other error after such answers ends the search with that error |
| `PathSearch.AllUnusable` | crates/fspy_shared_unix/src/exec/which.rs:62-76 | When all answer so, the result is EACCES if one did, else the last error |
| `PathSearch.CandidateNames` | crates/fspy_shared_unix/src/exec/which.rs:55-59 | The candidates: entries between colons, a slash and the name behind each; an empty entry stands for the bare name |
| `PathSearch.SecondEntryIsFound` | crates/fspy_shared_unix/src/exec/which.rs:113-125 | Fixed input: `x` in `/a:/b`, present only below `/b` |
| `PathSearch.Search` | crates/fspy_shared_unix/src/exec/which.rs:51-76 | The answer is that of the first candidate whose check is not EACCES, ENOENT or ENOTDIR; otherwise EACCES if any was seen, else the last error; probes are the candidates up to there |
| `PathSearch.AnswersUnique` | crates/fspy_shared_unix/src/exec/which.rs:51-76 | The specification of a search determines answer and probes |
| `PathSearch.SearchAnswers` | crates/fspy_shared_unix/src/exec/which.rs:51-76 | The computed answer meets that specification |
| `PathSearch.Concat` | crates/fspy_shared_unix/src/exec/which.rs:6-20 | The buffer is filled exactly, with the concatenation of the parts |
| `PathSearch.EntriesCoverPath` | crates/fspy_shared_unix/src/exec/which.rs:55-55 | The entries contain no colon and joined by colons are the search path again |
| `Shebangs.PrintParse` | crates/fspy_shared_unix/src/exec/shebang.rs:30-82 | Printing a parsed shebang and parsing it again gives the same result in both modes, even when the printed line is longer than what is peeked at |
| `Shebangs.ModesAgree` | crates/fspy_shared_unix/src/exec/shebang.rs:53-76 | Both modes give the same interpreter; the split arguments are the trimmed non-empty words of the single one |
| `Shebangs.PeekExecutable` | crates/fspy_shared_unix/src/exec/mod.rs:73-84 | However the reads are cut short, the buffer holds the longest prefix of the file that fits; it fails only when a read fails |
| `Shebangs.ParseShebang` | crates/fspy_shared_unix/src/exec/shebang.rs:30-82 | The result is that of parsing the first 128 bytes of the file, however the reads are cut short |
| `Shebangs.OnlyMagic` | crates/fspy_shared_unix/src/exec/shebang.rs:44-46 | A shebang is exactly what starts with bytes 35 and 33 |
| `Shebangs.FirstLineOnly` | crates/fspy_shared_unix/src/exec/shebang.rs:48-51 | Nothing behind the first byte 10 matters |
| `Shebangs.InterpreterIsOneWord` | crates/fspy_shared_unix/src/exec/shebang.rs:53-55 | The interpreter holds no newline, space or tab |
| `Shebangs.InterpreterAndText` | crates/fspy_shared_unix/src/exec/shebang.rs:52-76 | An interpreter, a space or a tab and a text give that interpreter and the text as single argument, or its words |
| `Shebangs.InterpreterAlone` | crates/fspy_shared_unix/src/exec/shebang.rs:52-76 | An interpreter alone has no argument |
| `Shebangs.SpacesAround` | crates/fspy_shared_unix/src/exec/shebang.rs:52-52 | Spaces, tabs, form feeds and carriage returns around the line do not matter |
| `Shebangs.WordsApart` | crates/fspy_shared_unix/src/exec/shebang.rs:59-69 | Words are separated by spaces and tabs |
| `Shebangs.OneWord` | crates/fspy_shared_unix/src/exec/shebang.rs:61-68 | A word is itself |
| `Shebangs.ArgumentFacts` | crates/fspy_shared_unix/src/exec/shebang.rs:52-56 | The interpreter holds no blank; the argument text is trimmed and behind it |
| `Execs.Exec.UnwrapShebang` | crates/fspy_shared_unix/src/exec/mod.rs:130-149 | Program and arguments become interpreter, shebang arguments, script and old arguments from index 1; an empty argument list panics; without success, also after a failed read, nothing has changed |
| `Execs.Exec.Resolve` | crates/fspy_shared_unix/src/exec/mod.rs:96-128 | Search, then script: the command, the outcome and the paths reported on the way, in order; without success only the program was looked up |
| `Execs.SearchPathIs` | crates/fspy_shared_unix/src/exec/mod.rs:102-109 | The path searched: the given one, else PATH, else `/usr/local/bin:/bin:/usr/bin` |
| `Execs.SearchedIs` | crates/fspy_shared_unix/src/exec/mod.rs:101-123 | Without a search the program is taken as it is and nothing is probed |
| `Execs.Exec.EnsureEnv` | crates/fspy_shared_unix/src/exec/mod.rs:152-171 | Looks at the first valued entry only: equal is fine, different is EINVAL, absent is appended |
| `Envs.EnsuredFacts` | crates/fspy_shared_unix/src/exec/mod.rs:152-171 | After ensuring, the name has the value, other names and user entries are untouched, and ensuring again changes nothing |
| `Envs.InjectFacts` | crates/fspy_shared_unix/src/spawn/linux/mod.rs:31-42 | Injection succeeds exactly on compatible environments and fails only with EINVAL; user entries keep place and order; a second injection changes nothing |
| `Envs.InjectStaysUnambiguous` | crates/fspy_shared_unix/src/spawn/linux/mod.rs:31-42 | Injection never makes a reserved name ambiguous |
| `Envs.StripFacts` | crates/fspy_shared_unix/src/spawn/linux/mod.rs:43-46 | Stripping leaves no reserved name and every user entry, in order |
| `Envs.NamesSpelled` | crates/fspy_shared_unix/src/spawn/linux/mod.rs:15-15 | The two reserved names, byte by byte |
| `Envs.FirstValuedIs` | crates/fspy_shared_unix/src/exec/mod.rs:159-161 | Entries of the name without a value are skipped, the first with one counts |
| `Envs.InjectIntoUnset` | crates/fspy_shared_unix/src/spawn/linux/mod.rs:31-42 | Where neither name has a value both entries are appended, LD_PRELOAD first |
| `Envs.StripOne` | crates/fspy_shared_unix/src/spawn/linux/mod.rs:43-46 | Stripping drops the entries of the two names and keeps every other |
| `Spawns.HandleExec` | crates/fspy_shared_unix/src/spawn/mod.rs:23-49 | Records what the specification says, ends as it says and leaves the command it says, also when it fails; a failed read ends it early, with the accesses made and the program looked up until then; user entries are kept in every case |
| `Spawns.HandleOs` | crates/fspy_shared_unix/src/spawn/linux/mod.rs:24-51 | The Linux part computes its specification, including the half-made injection a refusal leaves |
| `Spawns.AccessesAreAbsolute` | crates/fspy_shared_unix/src/spawn/mod.rs:29-40 | Everything recorded is an absolute path, also when the call fails or panics later, with or without a readable working directory |
| `Spawns.AccessOrder` | crates/fspy_shared_unix/src/spawn/mod.rs:42-46 | A call that gets a command to run records the probed candidates, the script, the final program, in this order and nothing else, absolute ones as they are |
| `Spawns.AccessPaths` | crates/fspy_shared_unix/src/spawn/mod.rs:29-40 | Each path seen is recorded as it is if it starts with a slash and as made absolute otherwise; recording stops at the first that cannot be |
| `Spawns.SeenWithoutResult` | crates/fspy_shared_unix/src/exec/mod.rs:101-141 | What is seen of a call that fails: the candidates, then the script if one was found |
| `Spawns.Failures` | crates/fspy_shared_unix/src/spawn/linux/mod.rs:24-41 | The error of a call: that of the search, of opening the script, of opening, mapping or inspecting the program, or EINVAL |
| `Spawns.PlainCallRecorded` | crates/fspy_shared_unix/src/spawn/mod.rs:42-46 | Fixed input: `/a`, no script, no search, is recorded twice as `/a` |
| `Spawns.ProbesAreTheSearch` | crates/fspy_shared_unix/src/exec/mod.rs:101-123 | Corollary of `Which`: the recorded probes and the found program are those of the search over the configured path |
| `Spawns.ArgumentsAreKept` | crates/fspy_shared_unix/src/exec/mod.rs:143-146 | Corollary of `HandleExec`: the command run has interpreter, shebang arguments, old program, old arguments from index 1; without a shebang it is unchanged |
| `Spawns.PanicsExactly` | crates/fspy_shared_unix/src/spawn/mod.rs:29-46 | handle_exec panics exactly when there is no program to look up without a search, or the program is a script and the argument list or the shebang line is empty, or a relative path is to be recorded while the working directory cannot be read |
| `Spawns.BlankScriptPanics` | crates/fspy_shared_unix/src/spawn/mod.rs:33-34 | Concrete input: a file `/a` that is only `#!` and a newline makes the caller panic |
| `Spawns.RelativeProgramPanics` | crates/fspy_shared_unix/src/spawn/mod.rs:33-34 | Concrete input: without a readable working directory the program `./a` makes the caller panic |
| `Spawns.DoneExactly` | crates/fspy_shared_unix/src/spawn/linux/mod.rs:24-51 | A command is run exactly when everything is found, opened and recorded and, for a dynamic program, the environment is compatible; the filter is asked for exactly for a static one |
| `Spawns.BlankMeansNoInterpreter` | crates/fspy_shared_unix/src/exec/shebang.rs:52-55 | The interpreter is empty exactly when only white space follows `#!` on the first line |
| `Spawns.EnvironmentOfRun` | crates/fspy_shared_unix/src/spawn/linux/mod.rs:31-50 | What is run has preload library and payload, or neither of them and the filter to install; user entries are kept; the result is compatible again and equipping it again changes nothing; the only failure is EINVAL, exactly on incompatible environments |
| `Spawns.EquippedFromNothing` | crates/fspy_shared_unix/src/spawn/linux/mod.rs:31-50 | A run from an empty environment: the two entries spelled out and no filter, or none and the payload's filter |
| `RawExecs.BlockRoundTrip` | crates/fspy_preload_unix/src/client/raw_exec.rs:17-100 | Reading any NULL-terminated argv and envp and laying them out again reproduces every string byte for byte, in order |
| `RawExecs.CommandRoundTrip` | crates/fspy_preload_unix/src/client/raw_exec.rs:54-100 | Laying a command out and reading it back is the identity exactly when no string holds a NUL and no variable name a `=` |
| `RawExecs.EntryRoundTrip` | crates/fspy_preload_unix/src/client/raw_exec.rs:63-72 | The same for one environment entry |
| `RawExecs.LaidOut` | crates/fspy_preload_unix/src/client/raw_exec.rs:81-100 | What a C reader finds of any command: every string up to its first NUL |
| `RawExecs.PlacedStrings` | crates/fspy_preload_unix/src/client/raw_exec.rs:41-52 | A laid-out array reads back as its strings, wherever it lies in memory |
| `RawExecs.CollectCStrArray` | crates/fspy_preload_unix/src/client/raw_exec.rs:17-36 | The counting and collecting loops give the strings of the array |
| `RawExecs.ToCStrArray` | crates/fspy_preload_unix/src/client/raw_exec.rs:41-52 | The loop lays the array out as specified |
| `RawExecs.ToExec` | crates/fspy_preload_unix/src/client/raw_exec.rs:54-80 | Reads the command the C arrays stand for |
| `RawExecs.EntryBytes` | crates/fspy_preload_unix/src/client/raw_exec.rs:63-72 | A name ends at the first byte 61; `A=b` reads as name `A`, value `b` |
| `RawExecs.CStrExactly` | crates/fspy_preload_unix/src/client/raw_exec.rs:55-58 | A C string is the bytes up to the first zero |
| `RawExecs.ReadsItsArrays` | crates/fspy_preload_unix/src/client/raw_exec.rs:54-80 | Program, arguments and environment are read at their three addresses and handed on in this order |
| `RawExecs.FromExec` | crates/fspy_preload_unix/src/client/raw_exec.rs:81-100 | Lays the command out |
| `Commands.CommandBuilder.GetExec` | crates/fspy/src/command.rs:36-63 | Program, argv with arg0 or the program first, and every variable once, in the order the hash map is walked |
| `Commands.CommandBuilder.SetExec` | crates/fspy/src/command.rs:66-86 | Takes the command apart again; a later entry wins, a missing value is empty; panics on an empty argument list |
| `Commands.CollectWalked` | crates/fspy/src/command.rs:57-85 | Whatever the order of the hash map, collecting what was walked gives the map again |
| `Commands.LaunchIgnoresOrder` | crates/fspy/src/unix/mod.rs:229-239 | Whether a root can be spawned and with which variables depends on the map alone, not on its order |
| `TrackingRuns.TrackingIsNeverLost` | crates/fspy_shared_unix/src/spawn/linux/mod.rs:24-51 | In every run of fork, exec and posix_spawn from a root that is no dynamic program in secure mode, each process has the preload library with the right payload or carries the filter, given that processes that rely on their client keep the library's descriptor, hand over no shadowed LD_PRELOAD, run no program in secure mode and do not get around handle_exec |
| `TrackingRuns.TrackedExactly` | crates/fspy_shared_unix/src/spawn/linux/mod.rs:24-51 | Every process of a run is tracked in every state if and only if the root is no dynamic program in secure mode and no step is one of those that lose a process |
| `TrackingRuns.TrackingLostExactly` | crates/fspy_shared_unix/src/spawn/mod.rs:23-49 | A call that reaches handle_exec leaves a process that only has its client untracked exactly when the final call runs, the call resolves to a dynamic program with a compatible environment, and the library is not read: its descriptor is gone, the program runs in secure mode, or the loader takes the last LD_PRELOAD and the right one is shadowed |
| `TrackingRuns.SpawnLostExactly` | crates/fspy_preload_unix/src/interceptions/spawn/posix_spawn.rs:22-78 | The same of the child of a spawn, whose file actions may close the descriptor |
| `TrackingRuns.ShadowedCall` | crates/fspy_preload_unix/src/interceptions/spawn/exec/mod.rs:34-65 | Concrete input: a C block for `/a` with two LD_PRELOAD entries, the right one first, leaves a process that is not tracked |
| `TrackingRuns.ClosedDescriptorCall` | crates/fspy/src/unix/mod.rs:214-218 | Concrete input: the same with an empty environment after the descriptor behind `/proc/self/fd/N` was closed |
| `TrackingRuns.SecureCall` | crates/fspy/src/unix/mod.rs:214-218 | Concrete input: the same with an empty environment and a set-user-ID program |
| `TrackingRuns.UserEnvironmentIsKept` | crates/fspy_shared_unix/src/exec/mod.rs:152-171 | When processes pass their environment on, every process of every run has the root's user entries in the root's order and an environment that is not shadowed, injection is never refused, and all are tracked as long as no step loses one |
| `TrackingRuns.FreshImage` | crates/fspy_preload_unix/src/client/mod.rs:176-187 | The image a successful call loads, through the C block: a dynamic program whose loader reads the library finds library and payload again, any other does not |
| `TrackingRuns.StepTrackedExactly` | crates/fspy_preload_unix/src/interceptions/spawn/posix_spawn.rs:22-78 | A step keeps all processes tracked exactly when it does not lose one |
| `TrackingRuns.RootIsFaithful` | crates/fspy/src/unix/mod.rs:229-258 | The root is tracked exactly when it is no dynamic program in secure mode, and its user entries are those of the builder's map |
| `TrackingRuns.DecodesToItself` | crates/fspy_shared_unix/src/payload.rs:50-65 | A process decodes from its environment the payload its parent had |
| `Tracking.LoaderAgreesExactly` | crates/fspy_shared_unix/src/exec/mod.rs:159-170 | After a successful injection the value the loader uses is the library's path, except exactly when it takes the last entry and the environment was shadowed |
| `Tracking.UnambiguousIsNotShadowed` | crates/fspy_shared_unix/src/exec/mod.rs:159-161 | At most one valued entry per reserved name is enough |
| `Tracking.ShadowedExample` | crates/fspy_shared_unix/src/exec/mod.rs:159-167 | Concrete input: two LD_PRELOAD entries, the right one first, pass the check and lose the library |
| `Tracking.HandedOverEnv` | crates/fspy_preload_unix/src/client/raw_exec.rs:81-100 | Entries without NUL and without `=` in the name reach the next image unchanged |
| `Tracking.EquippedSurvives` | crates/fspy_shared_unix/src/spawn/linux/mod.rs:31-46 | What is run only has such entries, injected ones included |
| `Fixtures.FinalIsNeverPartial` | crates/fspy/src/fixture.rs:35-60 | For any number of callers interleaved with crashes, failures and short writes: a final file that exists is complete, and it exists once a call returned `Ok` |
| `Fixtures.NothingIsLeftBehind` | crates/fspy/src/fixture.rs:35-60 | When all calls returned `Ok`, the directory holds the names it started with and the final names, no temporary |
| `Fixtures.OthersAreUntouched` | crates/fspy/src/fixture.rs:35-60 | A file that is no caller's final file keeps its name and content |
| `Fixtures.NeverStuck` | crates/fspy/src/fixture.rs:35-60 | From every reachable state the operations a live call has left, when none fails, lead to its return, given that the name it drew is free; it returns `Ok` exactly unless its rename has already failed and there is no final file |
| `Fixtures.NamesDiffer` | crates/fspy/src/fixture.rs:38-43 | A temporary name never equals a final name: only the latter has an underscore |
| `Fixtures.FinalNameBytes` | crates/fspy/src/fixture.rs:38-38 | The final name: name, underscore, hash, suffix |
| `Fixtures.HexBytes` | crates/fspy/src/fixture.rs:43-43 | The temporary name: lower-case hexadecimal digits |
| `Fixtures.QuietCall` | crates/fspy/src/fixture.rs:40-59 | A call nobody disturbs and in which nothing fails adds one file, the final one, with the content |
| `Fixtures.OtherMoves` | crates/fspy/src/fixture.rs:40-59 | What the existing final file and each failure come to |
| `Fixtures.StepKeepsInv` | crates/fspy/src/fixture.rs:35-60 | Every operation of every caller keeps the invariant behind these results |
| `FixtureCalls.WriteTo` | crates/fspy/src/fixture.rs:35-60 | The call's operations are exactly the moves of a caller of the concurrent model, in order, with the directory changing arbitrarily between them |
| `FixtureCalls.CallIsRun` | crates/fspy/src/fixture.rs:35-60 | When what changes the directory between the operations are moves of the other callers, the call is part of a run of all of them |
| `FixtureCalls.OkMeansInstalled` | crates/fspy/src/fixture.rs:35-60 | So a call that returns `Ok` while others call too leaves the final file, complete |
| `FixtureCalls.WriteAll` | crates/fspy/src/fixture.rs:50-50 | However short the writes, the loop ends with everything written or a failure |
| `FixtureCalls.Install` | crates/fspy/src/fixture.rs:53-59 | Rename; on failure look for the final file and remove the temporary |
| `Supervisors.Serve` | crates/seccomp_unotify/src/supervisor/mod.rs:91-101 | What a task does is whole rounds of receive, handle, continue, however it ends, also by being dropped; only a handler that panics leaves the one notification it was given unanswered; the result is the specified one |
| `Supervisors.RoundAt` | crates/seccomp_unotify/src/supervisor/mod.rs:92-99 | The k-th notification is received, handled and continued at events 3k, 3k+1, 3k+2: none is unanswered when the next one is received or the task ends |
| `Supervisors.ServesDelivered` | crates/seccomp_unotify/src/supervisor/mod.rs:91-101 | A task that finishes has handled every delivered notification in order; one that fails has handled the first of them, and a panic leaves the next one |
| `Supervisors.NotifyListener.Next` | crates/seccomp_unotify/src/supervisor/listener.rs:64-85 | Retries on EINTR, EWOULDBLOCK and ENOENT and when not readable; otherwise the first notification, the hang-up or the error |
| `Supervisors.NotifyListener.SendContinue` | crates/seccomp_unotify/src/supervisor/listener.rs:38-63 | One attempt with a response that is zero but for id and continue flag, whatever the buffer held; ENOENT is not an error |
| `Supervisors.NotifyListener.Receive` | crates/seccomp_unotify/src/bindings/mod.rs:28-41 | Whatever the buffer holds, it is zeroed before the kernel sees it, so the outcome is the kernel's and without a notification the buffer stays zero |
| `Supervisors.HandlingLoop` | crates/seccomp_unotify/src/supervisor/mod.rs:72-108 | `Ok` exactly when the socket reached its end without an error, every listener was registered and every task succeeded, with everything each listener delivered, in the order the tasks ended; otherwise the error of the accepting loop, or that of the first task to fail |
| `Supervisors.TaskResultIs` | crates/seccomp_unotify/src/supervisor/mod.rs:91-107 | A finished task is joined with everything its listener delivered, a failed one with its error, a dropped or panicked one is an error |
| `Supervisors.ServedCases` | crates/seccomp_unotify/src/supervisor/mod.rs:92-99 | How each round ends: a failed continue comes before the handler's error |
| `Supervisors.AwaitCases` | crates/seccomp_unotify/src/supervisor/listener.rs:64-85 | What each poll comes to, error numbers written out |
| `Supervisors.DeliveredCases` | crates/seccomp_unotify/src/supervisor/listener.rs:64-85 | What is delivered, poll by poll |
| `Supervisors.ContinueCases` | crates/seccomp_unotify/src/supervisor/listener.rs:54-62 | Only ENOENT is no error |
| `Supervisors.SpawnedExactly` | crates/seccomp_unotify/src/supervisor/mod.rs:75-86 | The spawned tasks are the registered descriptors before the end of file, or the first error |
| `Supervisors.HandlersOnce` | crates/seccomp_unotify/src/supervisor/mod.rs:103-107 | Whatever the order in which tasks end, each handler is returned exactly once |
| `Supervisors.ReceiveFds` | crates/fspy/src/unix/mod.rs:277-293 | The descriptors received before the end of file, in order, or the first error |
| `Supervisors.AcceptedExactly` | crates/fspy/src/unix/mod.rs:277-293 | What such a loop collects, against the script position by position |

## Left out

- LogTheorems.OutputIsHistory: runs are those in which copied slots are reused safely; `LogSlots.RecordIsLost` shows that the result fails without it, `LogSlots.ForkIsExactExactly` which forks need no such assumption. The same holds of the other results about runs of the log machine.
- Client.Client.NewShm: names of shared-memory objects and their unlinking are outcomes only.
- Spawns.Record: accesses are handed on as paths, because every access made here is a read, and the wrapper is applied to the list of reported paths after they were collected; the callback does not influence them.
- A callback that panics because an access cannot be sent: a process may die at any step of the tracking model, which covers it; it is not part of `Spawns.PanicsExactly`.
- Supervisors.Serve: tasks run one after the other, since they share nothing; the script of a listener is finite and ends in a hang-up.
- Tracking.Load: the loader is asked for exactly the library's path; an LD_PRELOAD that lists several libraries counts as another value, as it does for the code.
- FixtureCalls.WriteTo: errors are one error; which error is returned is not stated. The random name is a parameter.
- ELF parsing, filter generation, socket descriptor passing, mapping files and the file system's own rules: parameters or abstract steps.
- `vfork`-style sharing of memory, signal handlers that send, and memory models weaker than the flag protocol needs.
- `CStrPtr::read` and the handlers' reading of remote memory: not modelled, a handler is the list of notifications it was given.
- `with_argv` and the other symbol interception code: foreign calls.
- The builder's setters, `resolve_program`, standard streams and the tokio command: one-line facts.
- `PathAccessArena`, the command-line examples, the build script, the end-to-end collector.
- macOS (fixtures in the payload, split shebang arguments by default, spawn attributes) and Windows; the `interpose` tree.
