/** The library front end (lib.rs): `ShmemConf::create`, `ShmemConf::open`,
    the configuration's drop, and the `Shmem` handle. The `*Spec` functions
    state what each call does to the operating system; the methods perform
    the same steps on a live `Os` and are proved equal to them. */
module SharedMemory {
  import opened ShmErrors
  import opened Kernel
  import opened Unix
  import opened Config
  import opened Naming
  import opened Utf8

  /** The contents of a `Shmem` handle: its configuration and its mapping. */
  datatype HandleInfo = HandleInfo(config: ShmemConf, mapping: MapInfo)

  /** The handle's two owner flags agree, and its configured size is the
      mapping's true, non-zero size. */
  predicate Synced(h: HandleInfo)
  {
    h.config.owner == h.mapping.owner && h.config.size == h.mapping.mapSize && h.mapping.mapSize > 0
  }

  /** The namespace a configuration creates and opens its mapping in. */
  function BackingNs(c: ShmemConf): Namespace
  {
    if c.useTmpfs then FileNs else ShmNs
  }

  // ---------------------------------------------------------------------
  // Drop for ShmemConf (lib.rs:66-76)
  // ---------------------------------------------------------------------

  /** An owning configuration deletes its flink; deletion errors are ignored. */
  function DropConf(st: OsState, c: ShmemConf): (r: OsState)
    requires st.Valid()
    ensures r.Valid()
    ensures r.objects == st.objects && r.shm == st.shm && r.fds == st.fds && r.maps == st.maps
    ensures r.files == if c.owner && c.flinkPath.Some? then st.files - {c.flinkPath.value} else st.files
  {
    if c.owner && c.flinkPath.Some? then Unlink(st, FileNs, c.flinkPath.value) else st
  }

  // ---------------------------------------------------------------------
  // Choosing and creating the backing mapping (lib.rs:162-217)
  // ---------------------------------------------------------------------

  /** The identifier one creation attempt uses when `rand::random` yields
      `n`: the tmpfs file path, the explicit os_id, or `/shmem_<HEX>`. */
  function Candidate(c: ShmemConf, n: U64): (r: Result<string>)
    // only tmpfs mode can fail to name a candidate, for want of a base dir
    ensures r.Ok? <==> !c.useTmpfs || c.tmpfsBaseDir.Some?
    ensures r.Ok? && c.useTmpfs ==> c.tmpfsBaseDir.value <= r.value
    // an explicit shm id is used as given
    ensures !c.useTmpfs && c.osId.Some? ==> r == Ok(c.osId.value)
  {
    if c.useTmpfs then GetTmpfsFilePath(c, n)
    else if c.osId.Some? then Ok(c.osId.value)
    else Ok(RandomShmId(n))
  }

  /** Without an os_id, distinct random values give distinct candidates in
      either mode, and a random shm name has one '/', at its start. */
  lemma CandidateShape(c: ShmemConf, n: U64, m: U64)
    requires c.osId.None?
    ensures Candidate(c, n).Ok? && Candidate(c, n) == Candidate(c, m) ==> n == m
    ensures !c.useTmpfs ==> Candidate(c, n).value[0] == '/' && Count(Candidate(c, n).value, '/') == 1
  {
    RandomShmIdShape(n, m);
    if c.useTmpfs && c.tmpfsBaseDir.Some? {
      TmpfsPathInjective(c.tmpfsBaseDir.value, Hex(n), Hex(m));
      HexInjective(n, m);
    }
  }

  /** Whether the attempt for random value `n` would not collide. */
  predicate CandidateFree(st: OsState, c: ShmemConf, n: U64)
  {
    match Candidate(c, n)
    case Err(_) => true
    case Ok(id) => !st.Exists(BackingNs(c), id)
  }

  /** What a successful creation did: `m` is a new owning mapping of the
      asked size on a name that was free, and nothing else changed in the
      descriptor and mapping tables or in the other namespace. */
  predicate NewMapping(st: OsState, st1: OsState, c: ShmemConf, m: MapInfo)
  {
    var ns := BackingNs(c);
    var obj := |st.objects|;
    && m.owner && m.mapSize == c.size && c.size > 0 && m.isTmpfs == c.useTmpfs
    && m.uniqueId !in st.Names(ns) && m.mapPtr !in st.maps && m.mapFd !in st.fds && m.mapFd != 0
    && st1.Names(ns) == st.Names(ns)[m.uniqueId := obj]
    && st1.Names(Other(ns)) == st.Names(Other(ns))
    && st1.fds == st.fds[m.mapFd := obj]
    && st1.maps == st.maps[m.mapPtr := Mapping(obj, c.size)]
    && |st1.objects| == obj + 1 && AllZero(st1.objects[obj], c.size)
  }

  /** Every file of `st` is still there in `st1`, naming the same object. */
  predicate KeepsFiles(st: OsState, st1: OsState)
  {
    forall p :: p in st.files ==> p in st1.files && st1.files[p] == st.files[p]
  }

  /** What a failed creation left: no new mapping, descriptor or shm name. */
  predicate NoTrace(st: OsState, st1: OsState)
  {
    st1.maps == st.maps && st1.fds == st.fds && st1.shm == st.shm
  }

  /** One call of the driver's create for random value `n`. */
  function Attempt(st: OsState, c: ShmemConf, n: U64, f: Faults): (r: (Result<MapInfo>, OsState))
    requires st.Valid()
    ensures r.1.Valid()
    ensures r.0 == Err(MappingIdExists) <==> c.size > 0 && !CandidateFree(st, c, n)
    ensures r.0 == Err(MappingIdExists) ==> r.1 == st
    ensures r.0.Err? ==> NoTrace(st, r.1)
    ensures r.0.Ok? ==> Candidate(c, n) == Ok(r.0.value.uniqueId) && NewMapping(st, r.1, c, r.0.value)
    // a named, free candidate is created unless a system call fails
    ensures (c.size > 0 && Candidate(c, n).Ok? && CandidateFree(st, c, n)
             && f.open.Succeeds? && f.truncate.Succeeds? && f.mmap.Succeeds?) ==> r.0.Ok?
  {
    match Candidate(c, n)
    case Err(e) => (Err(e), st)
    case Ok(id) =>
      if c.useTmpfs then CreateMappingTmpfsSpec(st, id, c.size, f)
      else CreateMappingSpec(st, id, c.size, f)
  }
  /** Some value of the random supply from `i` on would not collide. */
  predicate FreeFrom(st: OsState, c: ShmemConf, ids: seq<U64>, i: nat)
  {
    exists k :: i <= k < |ids| && CandidateFree(st, c, ids[k])
  }

  /** The random-identifier loops (lib.rs:177-189, 196-208): `ids[i..]` are
      the values `rand::random` returns from now on. A collision moves on to
      the next value; any other outcome ends the loop. */
  function RandomLoop(st: OsState, c: ShmemConf, ids: seq<U64>, i: nat, f: Faults)
    : (r: (Result<MapInfo>, OsState))
    requires st.Valid() && FreeFrom(st, c, ids, i)
    ensures r.1.Valid()
    ensures r.0 != Err(MappingIdExists)
    decreases |ids| - i
  {
    var k :| i <= k < |ids| && CandidateFree(st, c, ids[k]);
    var a := Attempt(st, c, ids[i], f);
    if a.0 == Err(MappingIdExists) then
      assert k != i && FreeFrom(st, c, ids, i + 1);
      RandomLoop(st, c, ids, i + 1, f)
    else a
  }

  /** The random loop's result is the attempt at the first value from `i`
      on whose name is free or that fails otherwise. */
  lemma {:induction false} RandomLoopFirst(st: OsState, c: ShmemConf, ids: seq<U64>, i: nat, f: Faults)
    requires st.Valid() && FreeFrom(st, c, ids, i)
    ensures exists j :: i <= j < |ids|
              && (forall l :: i <= l < j ==> !CandidateFree(st, c, ids[l]))
              && RandomLoop(st, c, ids, i, f) == Attempt(st, c, ids[j], f)
    decreases |ids| - i
  {
    var k :| i <= k < |ids| && CandidateFree(st, c, ids[k]);
    if Attempt(st, c, ids[i], f).0 == Err(MappingIdExists) {
      assert k != i && FreeFrom(st, c, ids, i + 1);
      RandomLoopFirst(st, c, ids, i + 1, f);
      var j :| i + 1 <= j < |ids| && (forall l :: i + 1 <= l < j ==> !CandidateFree(st, c, ids[l]))
               && RandomLoop(st, c, ids, i + 1, f) == Attempt(st, c, ids[j], f);
      assert !CandidateFree(st, c, ids[i]);
      assert forall l :: i <= l < j ==> !CandidateFree(st, c, ids[l]);
    } else {
      assert RandomLoop(st, c, ids, i, f) == Attempt(st, c, ids[i], f);
    }
  }

  /** A value whose attempt collides is not the free one. */
  lemma FreeFromNext(st: OsState, c: ShmemConf, ids: seq<U64>, i: nat, f: Faults)
    requires st.Valid() && FreeFrom(st, c, ids, i) && i < |ids|
    requires Attempt(st, c, ids[i], f).0 == Err(MappingIdExists)
    ensures FreeFrom(st, c, ids, i + 1)
  {
    var k :| i <= k < |ids| && CandidateFree(st, c, ids[k]);
    assert k != i;
  }

  /** The random supply is long enough for the loops to end: with no os_id,
      some value in it does not collide. */
  predicate SupplyAdequate(st: OsState, c: ShmemConf, ids: seq<U64>)
  {
    c.osId.Some? || FreeFrom(st, c, ids, 0)
  }

  /** lib.rs:162-217: one attempt with an explicit os_id, the random loop
      otherwise. */
  function CreateBackingSpec(st: OsState, c: ShmemConf, ids: seq<U64>, f: Faults)
    : (r: (Result<MapInfo>, OsState))
    requires st.Valid() && SupplyAdequate(st, c, ids)
    ensures r.1.Valid()
    ensures c.osId.None? ==> r.0 != Err(MappingIdExists)
    ensures c.osId.Some? && c.size > 0 && !CandidateFree(st, c, 0) ==> r.0 == Err(MappingIdExists)
    ensures r.0.Err? ==> NoTrace(st, r.1)
    ensures r.0.Ok? ==> NewMapping(st, r.1, c, r.0.value)
    ensures r.0.Ok? && c.osId.Some? ==> Candidate(c, 0) == Ok(r.0.value.uniqueId)
    ensures r.0.Ok? && c.osId.None? ==>
              exists k :: 0 <= k < |ids| && Candidate(c, ids[k]) == Ok(r.0.value.uniqueId)
    // with a free explicit id, or any random id, creation succeeds unless a
    // system call fails
    ensures (c.size > 0 && (c.useTmpfs ==> c.tmpfsBaseDir.Some?) && (c.osId.Some? ==> CandidateFree(st, c, 0))
             && f.open.Succeeds? && f.truncate.Succeeds? && f.mmap.Succeeds?) ==> r.0.Ok?
  {
    if c.osId.Some? then Attempt(st, c, 0, f)
    else RandomLoopFirst(st, c, ids, 0, f); RandomLoop(st, c, ids, 0, f)
  }

  // ---------------------------------------------------------------------
  // create (lib.rs:150-261)
  // ---------------------------------------------------------------------

  /** A failed creation attempt removes no file and repoints none; only a
      tmpfs backing file it created may stay behind. */
  lemma AttemptKeepsFiles(st: OsState, c: ShmemConf, n: U64, f: Faults)
    requires st.Valid()
    ensures Attempt(st, c, n, f).0.Err? ==> KeepsFiles(st, Attempt(st, c, n, f).1)
  {
  }

  /** The same for the whole choice of the backing mapping. */
  lemma CreateBackingKeepsFiles(st: OsState, c: ShmemConf, ids: seq<U64>, f: Faults)
    requires st.Valid() && SupplyAdequate(st, c, ids)
    ensures CreateBackingSpec(st, c, ids, f).0.Err? ==> KeepsFiles(st, CreateBackingSpec(st, c, ids, f).1)
  {
    if c.osId.Some? {
      AttemptKeepsFiles(st, c, 0, f);
    } else {
      RandomLoopFirst(st, c, ids, 0, f);
      var j :| 0 <= j < |ids| && RandomLoop(st, c, ids, 0, f) == Attempt(st, c, ids[j], f);
      AttemptKeepsFiles(st, c, ids[j], f);
    }
  }

  /** The early `LinkExists`: the flink path is an existing file and
      overwriting was not asked for. */
  predicate FlinkTaken(st: OsState, c: ShmemConf)
  {
    c.flinkPath.Some? && !c.overwriteFlink && c.flinkPath.value in st.files
  }

  /** lib.rs:221-260, once the mapping `m` exists: write the flink, tear the
      mapping down again if that fails, and hand out an owning handle. */
  function WriteFlinkSpec(st: OsState, c: ShmemConf, m: MapInfo, f: Faults)
    : (r: (Result<HandleInfo>, OsState))
    requires st.Valid()
    ensures r.1.Valid()
    ensures r.0.Ok? ==> r.0.value == HandleInfo(c.(owner := true, size := m.mapSize), m)
    // success: only the flink changed, and it holds the identifier's bytes
    ensures r.0.Ok? ==>
              && r.1.maps == st.maps && r.1.fds == st.fds && r.1.shm == st.shm
              && (forall p :: p in st.files ==> p in r.1.files && r.1.files[p] == st.files[p])
              && |r.1.objects| >= |st.objects|
    ensures r.0.Ok? ==>
              forall o :: 0 <= o < |st.objects| && !(c.flinkPath.Some? && c.flinkPath.value in st.files && o == st.files[c.flinkPath.value])
                ==> r.1.objects[o] == st.objects[o]
    // without overwriting, the flink must be a new file
    ensures r.0.Ok? && c.flinkPath.Some? && !c.overwriteFlink ==> c.flinkPath.value !in st.files
    ensures r.0.Ok? && c.flinkPath.Some? ==>
              && c.flinkPath.value in r.1.files
              && r.1.objects[r.1.files[c.flinkPath.value]] == Encode(m.uniqueId)
    // failure: the mapping is torn down and a half-written flink removed
    ensures r.0.Err? ==>
              && c.flinkPath.Some?
              && r.0.error in {LinkExists, LinkCreateFailed, LinkWriteFailed}
              && r.1.maps == st.maps - {m.mapPtr} && r.1.fds == st.fds - {m.mapFd}
              && r.1.shm == if m.owner && !m.isTmpfs && m.mapFd != 0 then st.shm - {m.uniqueId} else st.shm
    ensures r.0 == Err(LinkWriteFailed) ==> c.flinkPath.value !in r.1.files
    ensures r.0 == Err(LinkCreateFailed) ==> f.linkOpen.FailsWith?
  {
    if c.flinkPath.None? then (Ok(HandleInfo(c.(owner := true, size := m.mapSize), m)), st)
    else
      var path := c.flinkPath.value;
      var (o, st1) := OpenForWrite(st, path, c.overwriteFlink, f.linkOpen);
      if o.Errno? then
        (Err(if o.code == EEXIST then LinkExists else LinkCreateFailed), Teardown(st1, m))
      else
        var (w, st2) := WriteObject(st1, o.value, Encode(m.uniqueId), f.linkWrite);
        if w.Errno? then (Err(LinkWriteFailed), Teardown(Unlink(st2, FileNs, path), m))
        else (Ok(HandleInfo(c.(owner := true, size := m.mapSize), m)), st2)
  }

  /** lib.rs:233-244: which flink error `create` reports. An existing flink
      without overwrite is `LinkExists`, any other failure to open it
      `LinkCreateFailed`, a failed write `LinkWriteFailed`; when open and
      write succeed the handle is made. */
  lemma WriteFlinkOutcome(st: OsState, c: ShmemConf, m: MapInfo, f: Faults)
    requires st.Valid()
    ensures var r := WriteFlinkSpec(st, c, m, f).0;
            var clear := c.flinkPath.Some? && (c.overwriteFlink || c.flinkPath.value !in st.files);
            && (r == Err(LinkExists) <==> c.flinkPath.Some? && !c.overwriteFlink && c.flinkPath.value in st.files)
            && (r == Err(LinkCreateFailed) <==> clear && f.linkOpen.FailsWith?)
            && (r == Err(LinkWriteFailed) <==> clear && f.linkOpen.Succeeds? && f.linkWrite.FailsWith?)
            && (r.Ok? <==> c.flinkPath.None? || (clear && f.linkOpen.Succeeds? && f.linkWrite.Succeeds?))
  {
  }

  /** A failed flink removes an owning tmpfs mapping's backing file with the
      mapping, and a failed write removes the flink itself (lib.rs:236-243);
      no other file changes. */
  lemma WriteFlinkCleanup(st: OsState, c: ShmemConf, m: MapInfo, f: Faults)
    requires st.Valid()
    ensures var (r, st1) := WriteFlinkSpec(st, c, m, f);
            r.Err? ==>
              st1.files == (if r == Err(LinkWriteFailed) then st.files - {c.flinkPath.value} else st.files)
                           - (if m.owner && m.isTmpfs && m.mapFd != 0 then {m.uniqueId} else {})
  {
    if c.flinkPath.Some? {
      var (o, st1) := OpenForWrite(st, c.flinkPath.value, c.overwriteFlink, f.linkOpen);
      if o.Errno? {
        FlinkOpenFailState(st, c, m, f);
      } else if WriteObject(st1, o.value, Encode(m.uniqueId), f.linkWrite).0.Errno? {
        FlinkWriteFailFiles(st, c, m, f);
      }
    }
  }

  /** A flink that cannot be opened leaves only the teardown. */
  lemma FlinkOpenFailState(st: OsState, c: ShmemConf, m: MapInfo, f: Faults)
    requires st.Valid() && c.flinkPath.Some?
    requires OpenForWrite(st, c.flinkPath.value, c.overwriteFlink, f.linkOpen).0.Errno?
    ensures WriteFlinkSpec(st, c, m, f).1 == Teardown(st, m)
  {
  }

  /** A flink that cannot be written is removed before the teardown. */
  lemma FlinkWriteFailFiles(st: OsState, c: ShmemConf, m: MapInfo, f: Faults)
    requires st.Valid() && c.flinkPath.Some?
    requires var (o, st1) := OpenForWrite(st, c.flinkPath.value, c.overwriteFlink, f.linkOpen);
             o.Done? && WriteObject(st1, o.value, Encode(m.uniqueId), f.linkWrite).0.Errno?
    ensures WriteFlinkSpec(st, c, m, f).1.files
              == (st.files - {c.flinkPath.value}) - (if m.owner && m.isTmpfs && m.mapFd != 0 then {m.uniqueId} else {})
  {
    var path := c.flinkPath.value;
    var (o, st1) := OpenForWrite(st, path, c.overwriteFlink, f.linkOpen);
    var st2 := WriteObject(st1, o.value, Encode(m.uniqueId), f.linkWrite).1;
    assert WriteFlinkSpec(st, c, m, f).1 == Teardown(Unlink(st2, FileNs, path), m);
    OpenForWriteOthers(st, path, c.overwriteFlink, f.linkOpen);
    assert st2.files == st1.files;
    UnlinkTeardownFiles(st, st2, path, m);
  }

  /** Files left after removing `path` and tearing down `m`. */
  lemma UnlinkTeardownFiles(st: OsState, st2: OsState, path: string, m: MapInfo)
    requires st.Valid() && st2.Valid() && st2.files - {path} == st.files - {path}
    ensures Teardown(Unlink(st2, FileNs, path), m).files
              == (st.files - {path}) - (if m.owner && m.isTmpfs && m.mapFd != 0 then {m.uniqueId} else {})
  {
    assert Unlink(st2, FileNs, path).files == st.files - {path};
  }

  /** A successful flink write adds no file but the flink. */
  lemma WriteFlinkAddsOnlyFlink(st: OsState, c: ShmemConf, m: MapInfo, f: Faults)
    requires st.Valid()
    ensures var (r, st1) := WriteFlinkSpec(st, c, m, f);
            r.Ok? ==> forall p :: p in st1.files && p !in st.files ==> c.flinkPath == Some(p)
  {
  }

  /** The steps of `create` up to its return. */
  function CreateSteps(st: OsState, c: ShmemConf, ids: seq<U64>, f: Faults)
    : (r: (Result<HandleInfo>, OsState))
    requires st.Valid() && SupplyAdequate(st, c, ids)
    ensures r.1.Valid()
    ensures c.size == 0 ==> r == (Err(MapSizeZero), st)
    ensures c.size > 0 && FlinkTaken(st, c) ==> r == (Err(LinkExists), st)
    ensures r.0.Ok? ==> Synced(r.0.value) && r.0.value.config == c.(owner := true)
  {
    if c.size == 0 then (Err(MapSizeZero), st)
    else if FlinkTaken(st, c) then (Err(LinkExists), st)
    else
      var (mr, st1) := CreateBackingSpec(st, c, ids, f);
      if mr.Err? then (Err(mr.error), st1) else WriteFlinkSpec(st1, c, mr.value, f)
  }

  /** `ShmemConf::create`: on an error return the configuration is dropped. */
  function CreateSpec(st: OsState, c: ShmemConf, ids: seq<U64>, f: Faults)
    : (r: (Result<HandleInfo>, OsState))
    requires st.Valid() && SupplyAdequate(st, c, ids)
    ensures r.1.Valid()
    // precondition errors come first, in this order, before any mapping exists
    ensures c.size == 0 ==> r == (Err(MapSizeZero), DropConf(st, c))
    ensures c.size > 0 && FlinkTaken(st, c) ==> r == (Err(LinkExists), DropConf(st, c))
    // success: an owning handle whose flags agree, of the asked size
    ensures r.0.Ok? ==>
              && Synced(r.0.value) && r.0.value.config.owner
              && r.0.value.config == c.(owner := true)
  {
    var (res, st1) := CreateSteps(st, c, ids, f);
    if res.Err? then (res, DropConf(st1, c)) else (res, st1)
  }

  /** Every file of `st` other than `except` is still there in `st1`,
      naming the same object. */
  predicate KeepsFilesExcept(st: OsState, st1: OsState, except: Option<string>)
  {
    forall p :: p in st.files && except != Some(p) ==> p in st1.files && st1.files[p] == st.files[p]
  }

  /** A flink failure after a new mapping keeps the files from before the
      mapping, except possibly the flink. */
  lemma FlinkFailureKeepsFiles(st: OsState, st1: OsState, st2: OsState, c: ShmemConf, m: MapInfo, except: Option<string>)
    requires NewMapping(st, st1, c, m)
    requires st2.files == (if except.Some? then st1.files - {except.value} else st1.files)
                          - (if m.owner && m.isTmpfs && m.mapFd != 0 then {m.uniqueId} else {})
    ensures KeepsFilesExcept(st, st2, except)
  {
    if c.useTmpfs {
      assert st1.files == st.files[m.uniqueId := |st.objects|];
      assert m.uniqueId !in st.files;
    } else {
      assert st1.files == st.Names(Other(ShmNs));
    }
  }

  /** The steps of `create`, failing, keep every file from before except a
      flink whose write failed. */
  lemma CreateStepsKeepFiles(st: OsState, c: ShmemConf, ids: seq<U64>, f: Faults)
    requires st.Valid() && SupplyAdequate(st, c, ids)
    ensures var (r, st3) := CreateSteps(st, c, ids, f);
            r.Err? ==> KeepsFilesExcept(st, st3, if r == Err(LinkWriteFailed) then c.flinkPath else None)
  {
    var (r, st3) := CreateSteps(st, c, ids, f);
    if r.Err? && c.size > 0 && !FlinkTaken(st, c) {
      var (mr, st1) := CreateBackingSpec(st, c, ids, f);
      if mr.Ok? {
        var m := mr.value;
        assert (r, st3) == WriteFlinkSpec(st1, c, m, f);
        WriteFlinkCleanup(st1, c, m, f);
        FlinkFailureKeepsFiles(st, st1, st3, c, m, if r == Err(LinkWriteFailed) then c.flinkPath else None);
      } else {
        CreateBackingKeepsFiles(st, c, ids, f);
      }
    }
  }

  /** A failed `create` keeps every file that existed before it, except the
      flink: that is removed after a failed write, and by the configuration's
      drop when it is owner (which a caller's configuration never is). */
  lemma CreateFailureKeepsFiles(st: OsState, c: ShmemConf, ids: seq<U64>, f: Faults)
    requires st.Valid() && SupplyAdequate(st, c, ids)
    ensures var (r, st1) := CreateSpec(st, c, ids, f);
            r.Err? ==>
              forall p :: p in st.files && !((r == Err(LinkWriteFailed) || c.owner) && c.flinkPath == Some(p)) ==>
                p in st1.files && st1.files[p] == st.files[p]
  {
    CreateStepsKeepFiles(st, c, ids, f);
  }

  /** lib.rs:164-245: past its precondition checks, `create` returns the
      backing mapping's error, or the flink stage's outcome, unchanged. */
  lemma CreatePassesErrors(st: OsState, c: ShmemConf, ids: seq<U64>, f: Faults)
    requires st.Valid() && SupplyAdequate(st, c, ids)
    ensures var (mr, st1) := CreateBackingSpec(st, c, ids, f);
            c.size > 0 && !FlinkTaken(st, c) ==>
              && (mr.Err? ==> CreateSpec(st, c, ids, f).0 == Err(mr.error))
              && (mr.Ok? ==> CreateSpec(st, c, ids, f).0 == WriteFlinkSpec(st1, c, mr.value, f).0)
  {
  }

  /** A random identifier never surfaces as a collision; an explicit one
      that is taken always does, after the precondition checks passed. */
  lemma CreateCollisions(st: OsState, c: ShmemConf, ids: seq<U64>, f: Faults)
    requires st.Valid() && SupplyAdequate(st, c, ids)
    ensures c.osId.None? ==> CreateSpec(st, c, ids, f).0 != Err(MappingIdExists)
    ensures (c.size > 0 && !FlinkTaken(st, c) && c.osId.Some? && !CandidateFree(st, c, 0)) ==>
              CreateSpec(st, c, ids, f).0 == Err(MappingIdExists)
  {
    if c.size > 0 && !FlinkTaken(st, c) {
      var (mr, st1) := CreateBackingSpec(st, c, ids, f);
      if mr.Ok? {
        WriteFlinkOutcome(st1, c, mr.value, f);
      }
    }
  }

  /** Tearing down, as owner, a mapping that was just created gives back
      the tables and shm names from before its creation. */
  lemma TeardownUndoesNewMapping(st: OsState, st1: OsState, st2: OsState, c: ShmemConf, m: MapInfo)
    requires NewMapping(st, st1, c, m)
    requires st2.maps == st1.maps - {m.mapPtr} && st2.fds == st1.fds - {m.mapFd}
    requires st2.shm == if m.owner && !m.isTmpfs && m.mapFd != 0 then st1.shm - {m.uniqueId} else st1.shm
    ensures NoTrace(st, st2)
  {
    assert st2.maps == st.maps;
    assert st2.fds == st.fds;
    if c.useTmpfs {
      assert st1.Names(Other(FileNs)) == st.Names(Other(FileNs));
    } else {
      assert st1.shm == st.shm[m.uniqueId := |st.objects|];
    }
  }

  /** A failed create leaves no mapping, descriptor or shm name behind: a
      mapping made before the flink failed is torn down as owner. */
  lemma CreateFailureLeavesNoTrace(st: OsState, c: ShmemConf, ids: seq<U64>, f: Faults)
    requires st.Valid() && SupplyAdequate(st, c, ids)
    ensures CreateSpec(st, c, ids, f).0.Err? ==> NoTrace(st, CreateSpec(st, c, ids, f).1)
  {
    var (r, st3) := CreateSteps(st, c, ids, f);
    if r.Err? && c.size > 0 && !FlinkTaken(st, c) {
      var (mr, st1) := CreateBackingSpec(st, c, ids, f);
      if mr.Ok? {
        var (w, st2) := WriteFlinkSpec(st1, c, mr.value, f);
        assert st3 == st2;
        TeardownUndoesNewMapping(st, st1, st2, c, mr.value);
      }
    }
  }

  /** A successful create maps a new, zero-sized-then-sized object under the
      identifier it reports, and the flink names that identifier. */
  lemma CreateSuccess(st: OsState, c: ShmemConf, ids: seq<U64>, f: Faults)
    requires st.Valid() && SupplyAdequate(st, c, ids)
    ensures var (r, st2) := CreateSpec(st, c, ids, f);
            r.Ok? ==>
              var m := r.value.mapping;
              var ns := BackingNs(c);
              && m.owner && m.mapSize == c.size && m.isTmpfs == c.useTmpfs
              && m.uniqueId !in st.Names(ns) && m.uniqueId in st2.Names(ns)
              && st2.Names(ns)[m.uniqueId] == |st.objects|
              && m.mapFd != 0 && m.mapFd in st2.fds && m.mapPtr in st2.maps
              && st2.maps[m.mapPtr] == Mapping(|st.objects|, c.size)
              && (c.osId.Some? ==> Candidate(c, 0) == Ok(m.uniqueId))
              && (c.osId.None? ==> exists k :: 0 <= k < |ids| && Candidate(c, ids[k]) == Ok(m.uniqueId))
              && (c.flinkPath.Some? ==>
                    && c.flinkPath.value in st2.files
                    && st2.objects[st2.files[c.flinkPath.value]] == Encode(m.uniqueId))
  {
    if c.size > 0 && !FlinkTaken(st, c) {
      var (mr, st1) := CreateBackingSpec(st, c, ids, f);
      if mr.Ok? {
        var m := mr.value;
        var ns := BackingNs(c);
        assert m.uniqueId in st1.Names(ns) && st1.Names(ns)[m.uniqueId] == |st.objects|;
        var (w, st2) := WriteFlinkSpec(st1, c, m, f);
        if w.Ok? {
          if c.useTmpfs {
            assert st2.files[m.uniqueId] == st1.files[m.uniqueId];
          }
        }
      }
    }
  }

  /** The flink is not a file `create` may make as its tmpfs backing file. */
  predicate FlinkApart(c: ShmemConf, ids: seq<U64>)
  {
    || c.flinkPath.None? || !c.useTmpfs
    || (&& Candidate(c, 0) != Ok(c.flinkPath.value)
        && forall k :: 0 <= k < |ids| ==> Candidate(c, ids[k]) != Ok(c.flinkPath.value))
  }

  /** When `create` succeeds: a non-zero size, a flink that is free (or may
      be overwritten) and is not the backing file itself, a free explicit id,
      a base directory in tmpfs mode, and no failing system call. */
  lemma CreateSucceeds(st: OsState, c: ShmemConf, ids: seq<U64>, f: Faults)
    requires st.Valid() && SupplyAdequate(st, c, ids)
    requires c.size > 0 && !FlinkTaken(st, c) && (c.overwriteFlink || FlinkApart(c, ids))
    requires c.useTmpfs ==> c.tmpfsBaseDir.Some?
    requires c.osId.Some? ==> CandidateFree(st, c, 0)
    requires f.open.Succeeds? && f.truncate.Succeeds? && f.mmap.Succeeds?
    requires f.linkOpen.Succeeds? && f.linkWrite.Succeeds?
    ensures CreateSpec(st, c, ids, f).0.Ok?
  {
    var (mr, st1) := CreateBackingSpec(st, c, ids, f);
    var m := mr.value;
    if c.flinkPath.Some? && !c.overwriteFlink {
      var path := c.flinkPath.value;
      if c.useTmpfs {
        assert st1.files == st.files[m.uniqueId := |st.objects|];
        assert path != m.uniqueId;
      } else {
        assert st1.files == st.Names(Other(ShmNs));
      }
    }
    WriteFlinkOutcome(st1, c, m, f);
  }

  /** The object a creation made is not the one an existing flink path
      names, unless the flink path is the tmpfs backing file itself. */
  lemma NewObjectNotFlink(st: OsState, st1: OsState, c: ShmemConf, m: MapInfo)
    requires st.Valid() && NewMapping(st, st1, c, m)
    requires c.flinkPath.Some? && c.flinkPath.value in st1.files
    requires !(c.useTmpfs && c.flinkPath.value == m.uniqueId)
    ensures st1.files[c.flinkPath.value] != |st.objects|
  {
    var path := c.flinkPath.value;
    if c.useTmpfs {
      assert st1.files == st.files[m.uniqueId := |st.objects|];
    } else {
      assert st1.files == st.Names(Other(ShmNs));
    }
    assert path in st.files;
  }

  /** The object a successful create maps holds `size` zero bytes, unless
      the flink was told to overwrite the very file backing the mapping. */
  lemma CreateZeroFills(st: OsState, c: ShmemConf, ids: seq<U64>, f: Faults)
    requires st.Valid() && SupplyAdequate(st, c, ids)
    ensures var (r, st2) := CreateSpec(st, c, ids, f);
            (r.Ok? && !(c.useTmpfs && c.overwriteFlink && c.flinkPath == Some(r.value.mapping.uniqueId))) ==>
              |st.objects| < |st2.objects| && AllZero(st2.objects[|st.objects|], c.size)
  {
    if c.size > 0 && !FlinkTaken(st, c) {
      var (mr, st1) := CreateBackingSpec(st, c, ids, f);
      if mr.Ok? {
        var m := mr.value;
        var (w, st2) := WriteFlinkSpec(st1, c, m, f);
        if w.Ok? && !(c.useTmpfs && c.overwriteFlink && c.flinkPath == Some(m.uniqueId)) {
          if c.flinkPath.Some? && c.flinkPath.value in st1.files {
            NewObjectNotFlink(st, st1, c, m);
          }
          assert st2.objects[|st.objects|] == st1.objects[|st.objects|];
        }
      }
    }
  }

  // ---------------------------------------------------------------------
  // open (lib.rs:264-333)
  // ---------------------------------------------------------------------

  /** The faults of iteration `i` of the open loop; none past the list. */
  function FaultsAt(env: seq<Faults>, i: nat): Faults
  {
    if i < |env| then env[i] else NoFaults
  }

  /** What other processes do during the sleep after iteration `i`. */
  function StepAt(steps: seq<Step>, i: nat): Step
  {
    if i < |steps| then steps[i] else Idle
  }

  /** lib.rs:279-302: the identifier one iteration opens. An os_id resolves
      exactly as `create` resolved it; otherwise the flink is read as UTF-8. */
  function Target(st: OsState, c: ShmemConf, f: Faults): (r: Result<string>)
    requires st.Valid()
    ensures r == Err(NoLinkOrOsId) <==> c.osId.None? && c.flinkPath.None?
    ensures c.osId.Some? ==> r == Candidate(c, 0)
    ensures c.osId.None? && c.flinkPath.Some? ==>
              var path := c.flinkPath.value;
              && (r == Err(LinkOpenFailed) <==> path !in st.files || f.linkOpen.FailsWith?)
              && (r.Ok? <==>
                    && path in st.files && f.linkOpen.Succeeds? && f.linkRead.Succeeds?
                    && Decode(st.objects[st.files[path]]).Some?)
              && (r.Ok? ==> Decode(st.objects[st.files[path]]) == Some(r.value))
              // an opened flink that cannot be read, or is not UTF-8
              && ((path in st.files && f.linkOpen.Succeeds?
                   && !(f.linkRead.Succeeds? && Decode(st.objects[st.files[path]]).Some?))
                  ==> r == Err(LinkReadFailed))
    ensures r.Err? ==> r.error in {NoLinkOrOsId, LinkOpenFailed, LinkReadFailed, NotInTmpfsMode, NoTmpfsBaseDir}
  {
    if c.osId.Some? then
      if c.useTmpfs then GetTmpfsFilePath(c, 0) else Ok(c.osId.value)
    else if c.flinkPath.Some? then
      match OpenForRead(st, c.flinkPath.value, f.linkOpen)
      case Errno(_) => Err(LinkOpenFailed)
      case Done(obj) =>
        match ReadObject(st, obj, f.linkRead)
        case Errno(_) => Err(LinkReadFailed)
        case Done(bytes) =>
          match Decode(bytes)
          case None => Err(LinkReadFailed)
          case Some(text) => Ok(text)
    else Err(NoLinkOrOsId)
  }

  /** What a successful open did, seen from the state `st` before it and the
      state `st1` at the end: `m` is a new non-owning mapping of the whole
      object its identifier names in `st1`, at its true size. */
  predicate Opened(st: OsState, st1: OsState, c: ShmemConf, m: MapInfo)
  {
    var ns := BackingNs(c);
    && st1.Valid()
    && !m.owner && m.mapSize > 0 && m.isTmpfs == c.useTmpfs
    && m.uniqueId in st1.Names(ns)
    && st1.Names(ns)[m.uniqueId] < |st1.objects|
    && m.mapSize == |st1.objects[st1.Names(ns)[m.uniqueId]]|
    && m.mapPtr !in st.maps && m.mapFd !in st.fds && m.mapFd != 0
    && st1.maps == st.maps[m.mapPtr := Mapping(st1.Names(ns)[m.uniqueId], m.mapSize)]
    && st1.fds == st.fds[m.mapFd := st1.Names(ns)[m.uniqueId]]
    && st1.shm == st.shm
  }

  /** lib.rs:279-312: one iteration, resolving the target and calling the
      driver's open on it. */
  function OpenAttempt(st: OsState, c: ShmemConf, f: Faults): (r: (Result<MapInfo>, OsState))
    requires st.Valid()
    ensures r.1.Valid()
    ensures r.1.files == st.files && r.1.objects == st.objects
    ensures r.0.Err? ==> NoTrace(st, r.1)
    ensures r.0.Err? ==>
              r.0.error == MapSizeZero || r.0.error.MapOpenFailed? || Target(st, c, f) == Err(r.0.error)
    ensures r.0.Err? && r.0.error.MapOpenFailed? ==> Target(st, c, f).Ok?
    // an unresolved target is reported as is, before the driver runs
    ensures Target(st, c, f).Err? ==> r == (Err(Target(st, c, f).error), st)
    ensures r.0.Ok? ==> Target(st, c, f) == Ok(r.0.value.uniqueId) && Opened(st, r.1, c, r.0.value)
  {
    match Target(st, c, f)
    case Err(e) => (Err(e), st)
    case Ok(t) =>
      if c.useTmpfs then OpenMappingTmpfsSpec(st, t, f) else OpenMappingSpec(st, t, f)
  }

  /** lib.rs:303-312: on a resolved target, an iteration's error is the
      driver's own: `MapOpenFailed` with the errno of the failing call (or
      ENOENT for a missing name), and `MapSizeZero` for an empty object. */
  lemma OpenAttemptErrors(st: OsState, c: ShmemConf, f: Faults)
    requires st.Valid()
    ensures Target(st, c, f).Ok? ==>
              var t := Target(st, c, f).value;
              var names := st.Names(BackingNs(c));
              var r := OpenAttempt(st, c, f).0;
              && (t !in names ==> r == Err(MapOpenFailed(ENOENT)))
              && (t in names && f.open.FailsWith? ==> r == Err(MapOpenFailed(f.open.errno)))
              && (t in names && f.open.Succeeds? && f.stat.FailsWith? ==> r == Err(MapOpenFailed(f.stat.errno)))
              && ((t in names && f.open.Succeeds? && f.stat.Succeeds? && |st.objects[names[t]]| == 0)
                    ==> r == Err(MapSizeZero))
              && ((t in names && f.open.Succeeds? && f.stat.Succeeds? && |st.objects[names[t]]| > 0
                   && f.mmap.FailsWith?) ==> r == Err(MapOpenFailed(f.mmap.errno)))
  {
  }

  /** The open loop (lib.rs:278-332) from iteration `retry` on. It returns
      the outcome, the final state and the number of iterations run. Only
      `MapOpenFailed` through a flink is retried, after a sleep during which
      other processes act; an os_id forces `retry` to 5, so it gets one. */
  function OpenLoop(st: OsState, c: ShmemConf, retry: nat, env: seq<Faults>, steps: seq<Step>)
    : (r: (Result<HandleInfo>, OsState, nat))
    requires st.Valid() && retry <= 5
    ensures r.1.Valid()
    ensures retry < r.2 <= 6
    ensures c.osId.Some? ==> r.2 == retry + 1 && r.1.files == st.files && r.1.objects == st.objects
    ensures r.0 == Err(NoLinkOrOsId) <==> c.osId.None? && c.flinkPath.None?
    // a flink's MapOpenFailed is reported only once all six tries failed
    ensures r.0.Err? && r.0.error.MapOpenFailed? && c.osId.None? ==> r.2 == 6
    ensures r.0.Err? ==> NoTrace(st, r.1)
    // no iteration removes or repoints a file: the driver only opens, and
    // another process only writes files
    ensures KeepsFiles(st, r.1)
    ensures r.0.Ok? ==>
              var h := r.0.value;
              && Synced(h) && h.config == c.(owner := false, size := h.mapping.mapSize)
              && Opened(st, r.1, c, h.mapping)
              && (c.osId.Some? ==> Candidate(c, 0) == Ok(h.mapping.uniqueId))
    // through a flink, the segment opened is the one the flink names
    ensures r.0.Ok? && c.osId.None? ==>
              && c.flinkPath.Some? && c.flinkPath.value in r.1.files
              && Decode(r.1.objects[r.1.files[c.flinkPath.value]]) == Some(r.0.value.mapping.uniqueId)
    decreases 5 - retry
  {
    var (mr, st1) := OpenAttempt(st, c, FaultsAt(env, retry));
    match mr
    case Ok(m) => (Ok(HandleInfo(c.(size := m.mapSize, owner := false), m)), st1, retry + 1)
    case Err(e) =>
      if e.MapOpenFailed? && c.osId.None? && retry < 5 then
        OpenLoop(ApplyStep(st1, StepAt(steps, retry)), c, retry + 1, env, steps)
      else (Err(e), st1, retry + 1)
  }

  /** `ShmemConf::open`: on an error return the configuration is dropped.
      The third component counts the loop's iterations. */
  function OpenSpec(st: OsState, c: ShmemConf, env: seq<Faults>, steps: seq<Step>)
    : (r: (Result<HandleInfo>, OsState, nat))
    requires st.Valid()
    ensures r.1.Valid()
    // at most six tries, and exactly one with an os_id
    ensures 1 <= r.2 <= 6 && (c.osId.Some? ==> r.2 == 1)
    ensures r.0 == Err(NoLinkOrOsId) <==> c.osId.None? && c.flinkPath.None?
    ensures r.0.Err? && r.0.error.MapOpenFailed? && c.osId.None? ==> r.2 == 6
    ensures r.0.Err? ==> NoTrace(st, r.1)
    // success: a non-owning handle of the size the system reports
    ensures r.0.Ok? ==>
              var h := r.0.value;
              && Synced(h) && !h.config.owner && h.config == c.(owner := false, size := h.mapping.mapSize)
              && Opened(st, r.1, c, h.mapping)
              && (c.osId.Some? ==> Candidate(c, 0) == Ok(h.mapping.uniqueId))
    ensures r.0.Ok? && c.osId.None? ==>
              && c.flinkPath.Some? && c.flinkPath.value in r.1.files
              && Decode(r.1.objects[r.1.files[c.flinkPath.value]]) == Some(r.0.value.mapping.uniqueId)
  {
    var (res, st1, n) := OpenLoop(st, c, 0, env, steps);
    if res.Err? then (res, DropConf(st1, c), n) else (res, st1, n)
  }

  /** A failed `open` keeps every file that existed before it, naming the
      same object; only an owning configuration's drop removes its flink,
      so the caller's non-owning configuration removes nothing. */
  lemma OpenFailureKeepsFiles(st: OsState, c: ShmemConf, env: seq<Faults>, steps: seq<Step>)
    requires st.Valid()
    ensures var r := OpenSpec(st, c, env, steps);
            r.0.Err? ==> KeepsFilesExcept(st, r.1, if c.owner then c.flinkPath else None)
  {
  }

  /** An error the loop does not retry is what `open` returns, after one
      iteration and the configuration's drop. */
  lemma OpenFirstError(st: OsState, c: ShmemConf, env: seq<Faults>, steps: seq<Step>)
    requires st.Valid()
    requires var a := OpenAttempt(st, c, FaultsAt(env, 0)).0;
             a.Err? && !(a.error.MapOpenFailed? && c.osId.None?)
    ensures var a := OpenAttempt(st, c, FaultsAt(env, 0));
            OpenSpec(st, c, env, steps) == (Err(a.0.error), DropConf(a.1, c), 1)
  {
    OpenLoopStops(st, c, 0, env, steps);
  }

  /** A flink naming an empty segment fails `open` with `MapSizeZero` on the
      first try; it is not retried. */
  lemma OpenEmptyTarget(st: OsState, c: ShmemConf, env: seq<Faults>, steps: seq<Step>)
    requires st.Valid() && c.osId.None?
    requires var f := FaultsAt(env, 0);
             && Target(st, c, f).Ok? && Target(st, c, f).value in st.Names(BackingNs(c))
             && |st.objects[st.Names(BackingNs(c))[Target(st, c, f).value]]| == 0
             && f.open.Succeeds? && f.stat.Succeeds?
    ensures OpenSpec(st, c, env, steps).0 == Err(MapSizeZero) && OpenSpec(st, c, env, steps).2 == 1
  {
    OpenAttemptErrors(st, c, FaultsAt(env, 0));
    OpenFirstError(st, c, env, steps);
  }

  /** A flink that opens but cannot be read, or does not hold UTF-8, fails
      `open` with `LinkReadFailed` on the first try. */
  lemma OpenUnreadableFlink(st: OsState, c: ShmemConf, env: seq<Faults>, steps: seq<Step>)
    requires st.Valid() && c.osId.None? && c.flinkPath.Some? && c.flinkPath.value in st.files
    requires var f := FaultsAt(env, 0);
             f.linkOpen.Succeeds? && !(f.linkRead.Succeeds? && Decode(st.objects[st.files[c.flinkPath.value]]).Some?)
    ensures OpenSpec(st, c, env, steps).0 == Err(LinkReadFailed) && OpenSpec(st, c, env, steps).2 == 1
  {
    OpenFirstError(st, c, env, steps);
  }

  // ---------------------------------------------------------------------
  // Shmem (lib.rs:337-396) and its drop
  // ---------------------------------------------------------------------

  /** Dropping a `Shmem`: its fields go in declaration order, the
      configuration (deleting the flink if owner) and then the mapping. */
  function DropHandle(st: OsState, h: HandleInfo): (r: OsState)
    requires st.Valid()
    ensures r.Valid()
    ensures r.maps == st.maps - {h.mapping.mapPtr} && r.fds == st.fds - {h.mapping.mapFd}
    // only an owner releases the name
    ensures h.mapping.owner && h.mapping.mapFd != 0 ==> !r.Exists(Backing(h.mapping), h.mapping.uniqueId)
    ensures Synced(h) && !h.mapping.owner ==> r.shm == st.shm && r.files == st.files
    // nothing else goes: an owner loses exactly its flink and its name
    ensures r.objects == st.objects
    ensures r.files == st.files
                       - (if h.config.owner && h.config.flinkPath.Some? then {h.config.flinkPath.value} else {})
                       - (if h.mapping.owner && h.mapping.isTmpfs && h.mapping.mapFd != 0 then {h.mapping.uniqueId} else {})
    ensures r.shm == if h.mapping.owner && !h.mapping.isTmpfs && h.mapping.mapFd != 0
                     then st.shm - {h.mapping.uniqueId} else st.shm
  {
    Teardown(DropConf(st, h.config), h.mapping)
  }

  /** A handle on one mapping. Rust drops it exactly once; `mapping.dropped`
      records that it has been. */
  class Shmem {
    var config: ShmemConf
    var mapping: MapData

    function Info(): HandleInfo
      reads this, mapping
    {
      HandleInfo(config, mapping.Info())
    }

    /** The two owner flags agree and the handle is live. */
    ghost predicate Valid()
      reads this, mapping
    {
      Synced(Info()) && !mapping.dropped
    }

    constructor (c: ShmemConf, m: MapData)
      ensures config == c && mapping == m
    {
      config := c;
      mapping := m;
    }

    /** `Shmem::is_owner` (lib.rs:344-346) reads the configuration's flag,
        which is the flag the mapping's teardown acts on. */
    function IsOwner(): (b: bool)
      reads this, mapping
      requires Valid()
      ensures b == mapping.owner
    {
      config.owner
    }

    /** `Shmem::len` (lib.rs:377-379): the mapping's size, which is never 0
        and is what the configuration records. */
    function Len(): (n: nat)
      reads this, mapping
      requires Valid()
      ensures n == config.size && n > 0
    {
      mapping.mapSize
    }

    /** `Shmem::get_os_id` (lib.rs:358-360): the name the mapping was
        created or opened under, the one its owner's drop releases. */
    function GetOsId(): (id: string)
      reads this, mapping
      ensures id == Info().mapping.uniqueId
    {
      mapping.uniqueId
    }

    /** `Shmem::set_owner` (lib.rs:350-356): both flags take the new value,
        the previous configuration flag is returned, nothing else changes. */
    method SetOwner(isOwner: bool) returns (prev: bool)
      requires Valid()
      modifies this`config, mapping`owner
      ensures Valid()
      ensures prev == old(config.owner)
      ensures Info() == HandleInfo(old(config).(owner := isOwner), old(mapping.Info()).(owner := isOwner))
    {
      var _ := mapping.SetOwner(isOwner);
      prev := config.owner;
      config := config.(owner := isOwner);
    }

    /** Drop for `Shmem`. */
    method Drop(os: Os)
      requires Valid() && os.Valid()
      modifies os, mapping`dropped
      ensures os.State() == DropHandle(old(os.State()), old(Info())) && mapping.dropped
    {
      DropConfig(os, config);
      mapping.Drop(os);
    }
  }

  /** Drop for `ShmemConf` on a live `Os`. */
  method DropConfig(os: Os, c: ShmemConf)
    requires os.Valid()
    modifies os
    ensures os.State() == DropConf(old(os.State()), c)
  {
    if c.owner && c.flinkPath.Some? {
      os.Remove(FileNs, c.flinkPath.value);
    }
  }

  /** What `create` or `open` returned, as plain data. */
  function Handle(r: Result<Shmem>): Result<HandleInfo>
    reads if r.Ok? then {r.value, r.value.mapping} else {}
  {
    if r.Ok? then Ok(r.value.Info()) else Err(r.error)
  }

  /** A handle just handed out: new, live, its flags in agreement. */
  ghost predicate Fresh(r: Result<Shmem>)
    reads if r.Ok? then {r.value, r.value.mapping} else {}
  {
    r.Ok? ==> r.value.Valid()
  }

  // ---------------------------------------------------------------------
  // create and open on a live Os
  // ---------------------------------------------------------------------

  /** lib.rs:177-189 on a live `Os`: random tmpfs paths until one is free. */
  method RandomTmpfsLoop(os: Os, c: ShmemConf, ids: seq<U64>, f: Faults) returns (r: Result<MapData>)
    requires os.Valid() && c.useTmpfs && FreeFrom(os.State(), c, ids, 0)
    modifies os
    ensures r.Ok? ==> fresh(r.value)
    ensures Handed(r)
    ensures (Snapshot(r), os.State()) == RandomLoop(old(os.State()), c, ids, 0, f)
  {
    ghost var st := os.State();
    var i := 0;
    while i < |ids|
      invariant 0 <= i <= |ids| && os.State() == st
      invariant FreeFrom(st, c, ids, i)
      invariant RandomLoop(st, c, ids, 0, f) == RandomLoop(st, c, ids, i, f)
      decreases |ids| - i
    {
      var path := GetTmpfsFilePath(c, ids[i]);
      if path.Err? {
        return Err(path.error);
      }
      r := CreateMappingTmpfs(os, path.value, c.size, f);
      if !(r.Err? && r.error == MappingIdExists) {
        return;
      }
      FreeFromNext(st, c, ids, i, f);
      i := i + 1;
    }
    assert false;
  }

  /** lib.rs:196-208 on a live `Os`: random shm names until one is free. */
  method RandomShmLoop(os: Os, c: ShmemConf, ids: seq<U64>, f: Faults) returns (r: Result<MapData>)
    requires os.Valid() && !c.useTmpfs && c.osId.None? && FreeFrom(os.State(), c, ids, 0)
    modifies os
    ensures r.Ok? ==> fresh(r.value)
    ensures Handed(r)
    ensures (Snapshot(r), os.State()) == RandomLoop(old(os.State()), c, ids, 0, f)
  {
    ghost var st := os.State();
    var i := 0;
    while i < |ids|
      invariant 0 <= i <= |ids| && os.State() == st
      invariant FreeFrom(st, c, ids, i)
      invariant RandomLoop(st, c, ids, 0, f) == RandomLoop(st, c, ids, i, f)
      decreases |ids| - i
    {
      r := CreateMapping(os, RandomShmId(ids[i]), c.size, f);
      if !(r.Err? && r.error == MappingIdExists) {
        return;
      }
      FreeFromNext(st, c, ids, i, f);
      i := i + 1;
    }
    assert false;
  }

  /** lib.rs:162-217 on a live `Os`: `ids` are the values `rand::random`
      returns, in order. */
  method CreateBacking(os: Os, c: ShmemConf, ids: seq<U64>, f: Faults) returns (r: Result<MapData>)
    requires os.Valid() && SupplyAdequate(os.State(), c, ids)
    modifies os
    ensures r.Ok? ==> fresh(r.value)
    ensures Handed(r)
    ensures (Snapshot(r), os.State()) == CreateBackingSpec(old(os.State()), c, ids, f)
  {
    if c.osId.None? {
      if c.useTmpfs {
        r := RandomTmpfsLoop(os, c, ids, f);
      } else {
        r := RandomShmLoop(os, c, ids, f);
      }
    } else if c.useTmpfs {
      var path := GetTmpfsFilePath(c, 0);
      if path.Err? {
        return Err(path.error);
      }
      r := CreateMappingTmpfs(os, path.value, c.size, f);
    } else {
      r := CreateMapping(os, c.osId.value, c.size, f);
    }
  }

  /** lib.rs:221-260 on a live `Os`, once `mapping` exists. */
  method WriteFlink(os: Os, c: ShmemConf, mapping: MapData, f: Faults) returns (r: Result<Shmem>)
    requires os.Valid() && !mapping.dropped && mapping.owner && mapping.mapSize > 0
    modifies os, mapping`dropped
    ensures r.Ok? ==> fresh(r.value) && r.value.mapping == mapping
    ensures Fresh(r)
    ensures (Handle(r), os.State()) == WriteFlinkSpec(old(os.State()), c, old(mapping.Info()), f)
  {
    if c.flinkPath.Some? {
      var path := c.flinkPath.value;
      var file := os.OpenWrite(path, c.overwriteFlink, f.linkOpen);
      if file.Errno? {
        mapping.Drop(os);
        return Err(if file.code == EEXIST then LinkExists else LinkCreateFailed);
      }
      var w := os.Write(file.value, Encode(mapping.uniqueId), f.linkWrite);
      if w.Errno? {
        os.Remove(FileNs, path);
        mapping.Drop(os);
        return Err(LinkWriteFailed);
      }
    }
    var h := new Shmem(c.(owner := true, size := mapping.mapSize), mapping);
    return Ok(h);
  }

  /** lib.rs:150-261 on a live `Os`, up to the return of `create`. */
  method RunCreate(os: Os, c: ShmemConf, ids: seq<U64>, f: Faults) returns (r: Result<Shmem>)
    requires os.Valid() && SupplyAdequate(os.State(), c, ids)
    modifies os
    ensures r.Ok? ==> fresh(r.value) && fresh(r.value.mapping)
    ensures Fresh(r)
    ensures (Handle(r), os.State()) == CreateSteps(old(os.State()), c, ids, f)
  {
    if c.size == 0 {
      return Err(MapSizeZero);
    }
    if c.flinkPath.Some? && !c.overwriteFlink && c.flinkPath.value in os.files {
      return Err(LinkExists);
    }
    var mr := CreateBacking(os, c, ids, f);
    if mr.Err? {
      return Err(mr.error);
    }
    r := WriteFlink(os, c, mr.value, f);
  }

  /** `ShmemConf::create` (lib.rs:150-261) on a live `Os`: an error return
      drops the configuration (lib.rs:66-76). */
  method Create(os: Os, c: ShmemConf, ids: seq<U64>, f: Faults) returns (r: Result<Shmem>)
    requires os.Valid() && SupplyAdequate(os.State(), c, ids)
    modifies os
    ensures r.Ok? ==> fresh(r.value) && fresh(r.value.mapping)
    ensures Fresh(r)
    ensures (Handle(r), os.State()) == CreateSpec(old(os.State()), c, ids, f)
  {
    r := RunCreate(os, c, ids, f);
    if r.Err? {
      DropConfig(os, c);
    }
  }

  /** lib.rs:279-302 on a live `Os`: the identifier one iteration opens,
      read from the flink when there is no os_id. */
  method ReadTarget(os: Os, c: ShmemConf, f: Faults) returns (r: Result<string>)
    requires os.Valid()
    ensures r == Target(os.State(), c, f)
  {
    if c.osId.Some? {
      if c.useTmpfs {
        r := GetTmpfsFilePath(c, 0);
      } else {
        r := Ok(c.osId.value);
      }
    } else if c.flinkPath.Some? {
      var file := os.OpenRead(c.flinkPath.value, f.linkOpen);
      if file.Errno? {
        return Err(LinkOpenFailed);
      }
      var bytes := os.ReadAll(file.value, f.linkRead);
      if bytes.Errno? {
        return Err(LinkReadFailed);
      }
      var text := Decode(bytes.value);
      if text.None? {
        return Err(LinkReadFailed);
      }
      r := Ok(text.value);
    } else {
      r := Err(NoLinkOrOsId);
    }
  }

  /** lib.rs:279-312 on a live `Os`: one iteration's target and driver call. */
  method OpenOnce(os: Os, c: ShmemConf, f: Faults) returns (r: Result<MapData>)
    requires os.Valid()
    modifies os
    ensures r.Ok? ==> fresh(r.value)
    ensures Handed(r)
    ensures (Snapshot(r), os.State()) == OpenAttempt(old(os.State()), c, f)
  {
    var target := ReadTarget(os, c, f);
    if target.Err? {
      return Err(target.error);
    }
    if c.useTmpfs {
      r := OpenMappingTmpfs(os, target.value, f);
    } else {
      r := OpenMapping(os, target.value, f);
    }
  }

  /** One turn of the open loop: a flink's `MapOpenFailed` before the sixth
      iteration leads to the next iteration, after the sleep's step. */
  lemma OpenLoopRetries(st: OsState, c: ShmemConf, retry: nat, env: seq<Faults>, steps: seq<Step>)
    requires st.Valid() && retry < 5 && c.osId.None?
    requires OpenAttempt(st, c, FaultsAt(env, retry)).0.Err?
    requires OpenAttempt(st, c, FaultsAt(env, retry)).0.error.MapOpenFailed?
    ensures OpenLoop(st, c, retry, env, steps)
         == OpenLoop(ApplyStep(OpenAttempt(st, c, FaultsAt(env, retry)).1, StepAt(steps, retry)), c, retry + 1, env, steps)
  {
  }

  /** The other side of `OpenLoopRetries`: an iteration that fails in any
      other way, or fails with an os_id or in the sixth iteration, ends the
      loop with that error and without a sleep. */
  lemma OpenLoopStops(st: OsState, c: ShmemConf, retry: nat, env: seq<Faults>, steps: seq<Step>)
    requires st.Valid() && retry <= 5
    requires OpenAttempt(st, c, FaultsAt(env, retry)).0.Err?
    requires !(OpenAttempt(st, c, FaultsAt(env, retry)).0.error.MapOpenFailed? && c.osId.None? && retry < 5)
    ensures var a := OpenAttempt(st, c, FaultsAt(env, retry));
            OpenLoop(st, c, retry, env, steps) == (Err(a.0.error), a.1, retry + 1)
  {
  }

  /** `ShmemConf::open` (lib.rs:264-333) on a live `Os`. Iteration `i` runs
      with faults `FaultsAt(env, i)`, and the sleep after it lets other
      processes take `StepAt(steps, i)`. */
  method Open(os: Os, c: ShmemConf, env: seq<Faults>, steps: seq<Step>) returns (r: Result<Shmem>)
    requires os.Valid()
    modifies os
    ensures r.Ok? ==> fresh(r.value) && fresh(r.value.mapping)
    ensures Fresh(r)
    ensures Handle(r) == OpenSpec(old(os.State()), c, env, steps).0
    ensures os.State() == OpenSpec(old(os.State()), c, env, steps).1
  {
    ghost var st := os.State();
    var retry := 0;
    while true
      invariant os.Valid() && retry <= 5
      invariant OpenLoop(st, c, 0, env, steps) == OpenLoop(os.State(), c, retry, env, steps)
      decreases 5 - retry
    {
      ghost var before := os.State();
      var f := FaultsAt(env, retry);
      if c.osId.Some? {
        retry := 5;
      }
      var mr := OpenOnce(os, c, f);
      if mr.Ok? {
        var h := new Shmem(c.(size := mr.value.mapSize, owner := false), mr.value);
        return Ok(h);
      }
      if mr.error.MapOpenFailed? && c.osId.None? && retry < 5 {
        OpenLoopRetries(before, c, retry, env, steps);
        retry := retry + 1;
        os.Sleep(StepAt(steps, retry - 1));
      } else {
        DropConfig(os, c);
        return Err(mr.error);
      }
    }
  }
}
