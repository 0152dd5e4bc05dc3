# shared_memory: segment lifecycle, modelled in Dafny

This project models the Unix core of the `shared_memory` Rust crate: how a
`ShmemConf` creates or opens a named shared-memory segment, writes and reads
the "flink" file that holds the segment's identifier, and how the `Shmem` handle
and its `MapData` tear the segment down again. There are two backing stores:
POSIX shm names (`shm_open`) and files under a tmpfs directory.

The operating system is abstract. An `OsState` has byte-sequence objects
(inodes), two namespaces mapping names to objects (shm names and file paths),
a descriptor table, where descriptor 0 is never used, and a table of mapped
addresses, where address 0 is the null pointer. Each system call the library
makes is a pure transition on that state (module `Kernel`). Class `Os` holds
the live state and performs the transitions.

Modules:

- `ShmErrors`: bytes, `u64`, and the `ShmemError` variants the code names.
  Also the `Faults` record, which says for each system call of one step whether
  it succeeds or fails with an errno.
- `Utf8`: how the flink stores an identifier (`as_bytes`) and reads it back
  (`read_to_string`), with both round trips proved.
- `Naming`: random shm names `/shmem_<HEX>` and tmpfs paths
  `base_dir/shmem_<id>`, with `PathBuf::join` semantics.
- `Kernel`: the abstract operating system.
- `Unix`: the driver in `src/unix.rs`.
  - Each entry point has a `*Spec` function stating its effect on the OS.
  - Class `MapData` has methods `SetOwner` and `Drop`.
  - The methods `CreateMapping`, `OpenMapping`, `CreateMappingTmpfs` and
    `OpenMappingTmpfs` run on a live `Os` and are proved equal to the spec
    functions.
- `Config`: the `ShmemConf` builder and `get_tmpfs_file_path`.
- `SharedMemory`: `create`, `open`, the drop of a `ShmemConf`, and the `Shmem`
  handle.
  - The random-name loops and the bounded open retry loop are `while` loops,
    proved equal to recursive spec functions (`RandomLoop`, `OpenLoop`).
  - Those spec functions carry the properties.
- `Scenarios`: properties that span several calls, taken from
  `tests/tmpfs.rs`.

Things the library takes from outside become parameters:

- Randomness is a finite list `ids` of the values `rand::random::<u64>()`
  returns.
- Fault injection is one `Faults` record per step: `f` for `create`, and
  `env[i]` for iteration `i` of `open`.
- During the sleep between open attempts, another process takes one `Step`:
  it does nothing, or it writes a whole file.

## Model

| member | source | states |
|---|---|---|
| Utf8.Encode | src/lib.rs:236 | the flink bytes of an identifier: at least one and at most four bytes per character |
| Utf8.DecodeEncode | src/lib.rs:236 | reading back the bytes an identifier was written as gives the identifier |
| Utf8.EncodeDecode | src/lib.rs:297-298 | bytes that read as a string are exactly that string's encoding, so a flink names one identifier |
| Naming.Hex | src/lib.rs:197 | `{:X}` is non-empty, upper-case hex digits only, with no leading zero |
| Naming.ParseHexOfHex | src/lib.rs:197 | the hex numeral reads back to the random value |
| Naming.HexInjective | src/lib.rs:197 | distinct random values give distinct names |
| Naming.RandomShmIdShape | src/lib.rs:197 | a random shm name starts with '/', holds exactly one '/', and is injective in the random value |
| Naming.TmpfsPath | src/lib.rs:142 | the path is the base, a separator unless the base ends in '/', `shmem_` and the identifier |
| Naming.TmpfsPathInjective | src/lib.rs:140-146 | the backing file lies under the base directory, and distinct identifiers get distinct files |
| Config.Apply | src/lib.rs:86-127 | no builder call changes the owner flag; tmpfs mode is switched on only by `use_tmpfs_with_dir`, and every call keeps a buildable config buildable |
| Config.BuildIsBuildable | src/lib.rs:78-127 | no builder call sets owner, and tmpfs mode is on exactly when `use_tmpfs_with_dir` was called, which always sets a base directory |
| Config.GetTmpfsFilePath | src/lib.rs:130-147 | `NotInTmpfsMode` when tmpfs is off, else `NoTmpfsBaseDir` without a base directory; success exactly when both are set, with a path under the base |
| Config.TmpfsPathDeterministic | src/lib.rs:140-146 | with an os_id the path ignores the random value, so create and open agree; equal paths iff equal os_ids |
| Unix.Teardown | src/unix.rs:42-86 | drop unmaps the pointer, closes the descriptor and keeps every object; it releases the name in its own namespace only when owner with a descriptor (for tmpfs, the backing file); the other namespace is untouched |
| Unix.CreateMappingSpec | src/unix.rs:97-170 | size 0 fails with `MapSizeZero` before touching anything; `MappingIdExists` iff the name is taken; success iff the size is non-zero, the name free and no call fails; a failing `shm_open` or `mmap` gives `MapCreateFailed(errno)`, a failing `ftruncate` `UnknownOsError(errno)`; a failure leaves no name, descriptor or mapping (the half-made object is unlinked as owner); success gives an owning mapping of a new zero-filled object of the asked size |
| Unix.OpenMappingSpec | src/unix.rs:173-242 | a missing name fails with `MapOpenFailed(ENOENT)`; success iff the object exists, is non-empty and no call fails; a zero-length object gives `MapSizeZero`; a failing `shm_open`, `fstat` or `mmap` gives `MapOpenFailed` with that call's errno; success is non-owning and takes the size from fstat |
| Unix.CreateMappingTmpfsSpec | src/unix.rs:245-313 | as for shm create, on files, with the same success condition and per-call errors; the created file survives a failed ftruncate or mmap, and only its descriptor is closed |
| Unix.OpenMappingTmpfsSpec | src/unix.rs:316-375 | as for shm open, on files, with the same per-call `MapOpenFailed(errno)`; the caller's size is ignored |
| Unix.MapData.SetOwner | src/unix.rs:89-93 | returns the previous flag and changes only `owner` |
| Unix.MapData.Drop | src/unix.rs:44-85 | the OS state afterwards is `Teardown` of the state before |
| Unix.CreateMapping | src/unix.rs:97-170 | result and OS state equal `CreateMappingSpec` |
| Unix.OpenMapping | src/unix.rs:173-242 | result and OS state equal `OpenMappingSpec` |
| Unix.CreateMappingTmpfs | src/unix.rs:245-313 | result and OS state equal `CreateMappingTmpfsSpec` |
| Unix.OpenMappingTmpfs | src/unix.rs:316-375 | result and OS state equal `OpenMappingTmpfsSpec` |
| SharedMemory.DropConf | src/lib.rs:66-76 | dropping a config removes its flink iff it is owner and has one; nothing else changes |
| SharedMemory.DropConfig | src/lib.rs:66-76 | the live drop equals `DropConf` |
| SharedMemory.Candidate | src/lib.rs:164-215 | the identifier an attempt uses: it exists unless tmpfs mode lacks a base directory, a tmpfs one lies under the base, an explicit shm id is used as given |
| SharedMemory.CandidateShape | src/lib.rs:197 | without an os_id, distinct random values give distinct candidates in both modes, and a random shm name has one '/', at its start |
| SharedMemory.Attempt | src/lib.rs:164-215 | one create attempt reports `MappingIdExists` iff its candidate name is taken (then nothing changed); a failure leaves no trace; success is a `NewMapping` on the candidate; a named, free candidate with no failing call succeeds |
| SharedMemory.RandomLoop | src/lib.rs:176-208 | the random loop never returns `MappingIdExists` |
| SharedMemory.RandomLoopFirst | src/lib.rs:176-208 | the loop's result is the attempt at the first value whose name is free, or the first non-collision error; every value before it collided |
| SharedMemory.CreateBackingSpec | src/lib.rs:162-217 | an explicit id gets one attempt, and a taken one is reported; a random id never collides; success is a new owning mapping on the explicit id or one of the random candidates; with a free explicit id (or a random one), a base directory in tmpfs mode and no failing call it succeeds |
| SharedMemory.WriteFlinkSpec | src/lib.rs:221-260 | success leaves tables and names alone and the flink holds the identifier's bytes; a failure tears the mapping down and is one of the three flink errors; without overwrite the flink must be new |
| SharedMemory.WriteFlinkOutcome | src/lib.rs:227-244 | `LinkExists` iff the flink exists and overwrite is off; `LinkCreateFailed` iff opening it fails otherwise; `LinkWriteFailed` iff it opened and the write fails; the handle is made iff there is no flink or both calls succeed |
| SharedMemory.WriteFlinkAddsOnlyFlink | src/lib.rs:221-260 | a successful flink write adds no file other than the flink |
| SharedMemory.WriteFlinkCleanup | src/lib.rs:236-244 | a flink failure removes an owning tmpfs mapping's backing file, a failed write removes the flink too, and no other file changes |
| SharedMemory.CreateSteps | src/lib.rs:150-260 | size 0, then an existing flink without overwrite, are reported first with no change; success is an owning handle of the asked size with agreeing flags |
| SharedMemory.CreateSpec | src/lib.rs:150-261 | as `CreateSteps`, with the config dropped on every error return |
| SharedMemory.CreatePassesErrors | src/lib.rs:164-245 | past the precondition checks, `create` returns the backing mapping's error unchanged, and otherwise the flink stage's outcome |
| SharedMemory.AttemptKeepsFiles | src/lib.rs:164-215 | a failed create attempt removes no file and repoints none |
| SharedMemory.CreateBackingKeepsFiles | src/lib.rs:162-217 | a failed choice of the backing mapping removes no file and repoints none |
| SharedMemory.FlinkFailureKeepsFiles | src/lib.rs:236-244 | removing the flink and tearing down a new mapping keeps every earlier file but the flink |
| SharedMemory.CreateStepsKeepFiles | src/lib.rs:150-260 | the steps of a failed create keep every earlier file, except the flink after `LinkWriteFailed` |
| SharedMemory.CreateFailureKeepsFiles | src/lib.rs:66-76 | a failed `create` keeps every earlier file with its object, except the flink after `LinkWriteFailed` or when the config was already owner; the caller's non-owning config does not delete an existing flink |
| SharedMemory.CreateSucceeds | src/lib.rs:150-261 | `create` returns a handle when the size is non-zero, the flink is free (or overwritable) and not the backing file, an explicit id is free, tmpfs mode has its base directory and no system call fails |
| SharedMemory.CreateCollisions | src/lib.rs:164-215 | with no os_id, create never reports `MappingIdExists`; with a taken explicit id (and preconditions passed) it always does |
| SharedMemory.TeardownUndoesNewMapping | src/unix.rs:126-166 | tearing down, as owner, a mapping just created restores the mapping table, descriptors and shm names |
| SharedMemory.CreateFailureLeavesNoTrace | src/lib.rs:233-245 | a failed create leaves no mapping, descriptor or shm name |
| SharedMemory.CreateSuccess | src/lib.rs:219-260 | success maps a new object under the reported identifier; the identifier is the explicit one or one of the random candidates; the flink holds its bytes |
| SharedMemory.NewObjectNotFlink | src/lib.rs:227-233 | a flink path that already existed names a different object from the one just created, unless it is the tmpfs backing file |
| SharedMemory.CreateZeroFills | src/lib.rs:227-233 | the new mapping's object holds `size` zero bytes, unless the flink was told to overwrite the backing file itself |
| SharedMemory.Target | src/lib.rs:279-302 | `NoLinkOrOsId` iff neither os_id nor flink is set; an os_id resolves as create resolved it; the flink gives `LinkOpenFailed` iff it is missing or cannot be opened, `LinkReadFailed` when reading fails or the bytes are not UTF-8, otherwise its decoded contents |
| SharedMemory.OpenAttempt | src/lib.rs:279-312 | one iteration changes no file; an unresolved target's error is returned as is, with no change; `MapOpenFailed` comes only from the driver, after the target resolved; success is `Opened` on the resolved target |
| SharedMemory.OpenAttemptErrors | src/lib.rs:303-312 | on a resolved target the error is the driver's own: `MapOpenFailed(ENOENT)` for a missing name, `MapOpenFailed` with the errno of a failing open, fstat or mmap, `MapSizeZero` for an empty object |
| SharedMemory.OpenLoop | src/lib.rs:276-332 | at most six iterations, exactly one with an os_id; a flink's `MapOpenFailed` is reported only after all six; failure leaves no trace; no iteration removes or repoints a file; success is non-owning with agreeing flags, of the size the driver reports; through a flink, the segment opened is the one the flink's contents name at the end |
| SharedMemory.OpenSpec | src/lib.rs:264-333 | as `OpenLoop` from the first iteration, with the config dropped on error |
| SharedMemory.OpenFailureKeepsFiles | src/lib.rs:66-76 | a failed `open` keeps every earlier file with its object; only an owning config's drop removes its flink, so the caller's config removes nothing |
| SharedMemory.OpenFirstError | src/lib.rs:313-331 | an error the loop does not retry is what `open` returns, after one iteration, with the config dropped |
| SharedMemory.OpenEmptyTarget | src/lib.rs:303-331 | a flink naming an empty segment fails with `MapSizeZero` on the first try, without a retry |
| SharedMemory.OpenUnreadableFlink | src/lib.rs:289-299 | a flink that opens but cannot be read, or is not UTF-8, fails with `LinkReadFailed` on the first try |
| SharedMemory.OpenLoopRetries | src/lib.rs:324-329 | a flink's `MapOpenFailed` before the sixth iteration leads to the next iteration, after the sleep's step |
| SharedMemory.OpenLoopStops | src/lib.rs:313-331 | any other failed iteration (another error, an os_id, or the sixth try) ends the loop at once with that error |
| SharedMemory.DropHandle | src/lib.rs:337-340 | dropping a handle unmaps and closes its mapping and keeps every object; the files lose exactly an owning config's flink and an owning tmpfs mapping's backing file, the shm names exactly an owning shm mapping's name; a non-owning synced handle leaves names and files alone |
| SharedMemory.Shmem.IsOwner | src/lib.rs:344-346 | the config's flag is the flag the mapping's drop acts on |
| SharedMemory.Shmem.Len | src/lib.rs:377-379 | the length is the configured size and never 0 |
| SharedMemory.Shmem.GetOsId | src/lib.rs:358-360 | the identifier is the mapping's name, the one its owner's drop releases (that it reopens the same object is `Scenarios.ShareData`) |
| SharedMemory.Shmem.SetOwner | src/lib.rs:350-356 | both flags take the new value, the previous config flag is returned, the handle stays consistent |
| SharedMemory.Shmem.Drop | src/lib.rs:337-340 | the live drop equals `DropHandle`: config first, then mapping |
| SharedMemory.RandomTmpfsLoop | src/lib.rs:177-189 | the live tmpfs loop equals `RandomLoop` |
| SharedMemory.RandomShmLoop | src/lib.rs:196-208 | the live shm loop equals `RandomLoop` |
| SharedMemory.CreateBacking | src/lib.rs:162-217 | the live choice of the backing mapping equals `CreateBackingSpec` |
| SharedMemory.WriteFlink | src/lib.rs:221-260 | the live flink writing equals `WriteFlinkSpec` |
| SharedMemory.RunCreate | src/lib.rs:150-260 | the live steps of `create` equal `CreateSteps` |
| SharedMemory.Create | src/lib.rs:150-261 | the live `create` equals `CreateSpec` and hands out a consistent handle |
| SharedMemory.ReadTarget | src/lib.rs:279-302 | the live target resolution equals `Target` |
| SharedMemory.OpenOnce | src/lib.rs:279-312 | the live iteration equals `OpenAttempt` |
| SharedMemory.Open | src/lib.rs:264-333 | the live `open` equals `OpenSpec` and hands out a consistent handle |
| Scenarios.OpenByIdentifier | src/lib.rs:279-322 | opening by os_id fails with `MapOpenFailed(ENOENT)` on a missing name, and succeeds on the first try on an existing non-empty one |
| Scenarios.SecondCreateCollides | src/lib.rs:210-215 | a second create of the same os_id reports `MappingIdExists` and changes nothing |
| Scenarios.StoreVisibleThroughAlias | tests/tmpfs.rs:198-204 | two whole mappings of one object: a store through one is what the other shows |
| Scenarios.ShareData | tests/tmpfs.rs:176-204 | creator and opener by os_id map the same object at different addresses and see each other's stores |
| Scenarios.OwnerDropThenOpenFails | tests/tmpfs.rs:121-129 | after the owner's handle is dropped, opening by its os_id fails |
| Scenarios.NonOwnerDropKeepsSegment | src/unix.rs:60-75 | dropping a non-owner keeps every name and file, and the segment still opens |
| Scenarios.FlinkRoundTrip | tests/tmpfs.rs:135-160 | opening through the flink create wrote reaches the same identifier and object on the first try |
| Scenarios.OwnerDropDeletesFlink | tests/tmpfs.rs:89-91 | dropping the owner deletes its flink, and opening through it then fails at once with `LinkOpenFailed` |
| Scenarios.FlinkRace | src/lib.rs:324-329 | a flink read before the creator wrote it makes the first try fail; after the sleep the second try opens the segment |
| Scenarios.CreatedIdentifierShape | tests/tmpfs.rs:229-231 | a random shm id has one '/', at its start; an explicit shm id is used as given; a tmpfs id lies under the base directory |

## Left out

- System calls, `std::fs`, and `nix` are replaced by transitions on the abstract `OsState`. Permissions, other file kinds than regular files, and errno values beyond "which call failed" are not modelled.
- Logging macros, the `cfg_if` platform selection and the Windows driver are left out. `error.rs` is not part of this model, so `ShmemError` lists only the variants the code names, without their `io::Error` payloads.
- `Mode` permission bits are carried in the configuration and never interpreted.
- The `to_str` failure that maps a non-UTF-8 tmpfs path to `UnknownOsError(0)` cannot occur, because paths are strings here.
- `raw_os_error().unwrap_or(0)` always has an errno here, because injected faults carry a non-zero code.
- `rand::random` is the finite supply `ids`. `create` requires that some value in it gives a free name, because the source's loop would spin forever if every name were taken.
- `std::thread::sleep` and inter-process concurrency are reduced to one `Step` by another process between open iterations. Races inside a single call are not modelled, including between the `is_file` check and opening the flink.
- Unix.Teardown: failures of `munmap`, `shm_unlink`, `remove_file` and `close` during drop are not modelled. The source ignores them, and the model lets each step succeed.
- SharedMemory.WriteFlinkSpec: a short `write` of the flink (fewer bytes than the identifier, without error) is not modelled; the write puts all bytes or fails.
- Descriptors of the flink `File`s are not entered in the descriptor table, because each is closed within the block that opens it.
- The descriptor of a tmpfs backing file is not closed on a failed `create_mapping_tmpfs` as a separate error path. It is closed through `Close`, as the `File`'s drop does.
- The `open` guard at src/lib.rs:266-272 can never fire on Unix (`!cfg!(not(windows))` is false), so only the `NoLinkOrOsId` branch at 300-301 is modelled.
- The size hint that `open` passes to the drivers is ignored by them, so the model does not pass it.
- `Shmem::get_tmpfs_file_path` would regenerate a random path when no os_id is set, so it is left out. `get_flink_path`, `as_ptr`, `as_slice` and `as_slice_mut` are left out because they are about pointers and aliasing. Mapped bytes are modelled as `OsState.View` and `Store`.
- File paths are compared as strings, with no normalisation (`/tmp//x`), no resolution of relative paths against a working directory, and no symbolic or hard links. `SharedMemory.NewObjectNotFlink`, `SharedMemory.CreateZeroFills`, `SharedMemory.FlinkApart` and `SharedMemory.CreateSucceeds` tell a flink from the backing file by spelling, so they hold only under that assumption.
- `usize` bounds on sizes are not modelled, because sizes are unbounded naturals.
