/** The Unix backing-store driver: creating, opening and tearing down one
    mapping, either in the POSIX shm namespace or as a file under a tmpfs
    directory. Each `*Spec` function states what one driver call does to the
    operating system; the methods perform the same steps on a live `Os`. */
module Unix {
  import opened ShmErrors
  import opened Kernel

  /** The fields of a `MapData`. `mapPtr` 0 is the null pointer, `mapFd` 0
      means "no descriptor". */
  datatype MapInfo = MapInfo(
    owner: bool,
    mapFd: int,
    uniqueId: string,
    mapSize: nat,
    mapPtr: nat,
    isTmpfs: bool)

  /** Where the mapping's name lives. */
  function Backing(m: MapInfo): Namespace
  {
    if m.isTmpfs then FileNs else ShmNs
  }

  function Other(ns: Namespace): Namespace
  {
    if ns == ShmNs then FileNs else ShmNs
  }

  /** A freshly sized object holds only zero bytes. */
  predicate AllZero(s: seq<Byte>, n: nat)
  {
    |s| == n && forall i :: 0 <= i < n ==> s[i] == 0
  }

  // ---------------------------------------------------------------------
  // Drop for MapData (unix.rs:42-86)
  // ---------------------------------------------------------------------

  /** Teardown: unmap when the pointer is not null; when there is a
      descriptor, release the name if owner (remove_file for tmpfs,
      shm_unlink otherwise) and then close it. Errors are swallowed: a step
      that fails changes nothing and the next one still runs. */
  function Teardown(st: OsState, m: MapInfo): (r: OsState)
    requires st.Valid()
    ensures r.Valid()
    ensures r.objects == st.objects
    ensures r.maps == st.maps - {m.mapPtr}
    ensures r.fds == st.fds - {m.mapFd}
    ensures r.Names(Backing(m)) ==
              if m.owner && m.mapFd != 0 then st.Names(Backing(m)) - {m.uniqueId}
              else st.Names(Backing(m))
    ensures r.Names(Other(Backing(m))) == st.Names(Other(Backing(m)))
    ensures r.files == if m.isTmpfs && m.owner && m.mapFd != 0 then st.files - {m.uniqueId} else st.files
  {
    var st1 := if m.mapPtr != 0 then Unmap(st, m.mapPtr) else st;
    if m.mapFd != 0 then
      var st2 := if m.owner then Unlink(st1, Backing(m), m.uniqueId) else st1;
      Close(st2, m.mapFd)
    else st1
  }

  // ---------------------------------------------------------------------
  // create_mapping (unix.rs:97-170)
  // ---------------------------------------------------------------------

  function CreateMappingSpec(st: OsState, id: string, size: nat, f: Faults)
    : (r: (Result<MapInfo>, OsState))
    requires st.Valid()
    ensures r.1.Valid()
    // size 0 is refused before the namespace is touched
    ensures size == 0 ==> r == (Err(MapSizeZero), st)
    // creation is exclusive: a taken name is reported, never reused
    ensures r.0 == Err(MappingIdExists) <==> size > 0 && id in st.shm
    ensures r.0.Err? ==>
              r.0.error in {MapSizeZero, MappingIdExists} || r.0.error.MapCreateFailed? || r.0.error.UnknownOsError?
    // success exactly when the name is free and no call fails
    ensures r.0.Ok? <==>
              size > 0 && id !in st.shm && f.open.Succeeds? && f.truncate.Succeeds? && f.mmap.Succeeds?
    // each failing call has its own error: shm_open and mmap give
    // MapCreateFailed, ftruncate UnknownOsError, all with the errno
    ensures (size > 0 && id !in st.shm && f.open.FailsWith?) ==> r.0 == Err(MapCreateFailed(f.open.errno))
    ensures (size > 0 && id !in st.shm && f.open.Succeeds? && f.truncate.FailsWith?) ==>
              r.0 == Err(UnknownOsError(f.truncate.errno))
    ensures (size > 0 && id !in st.shm && f.open.Succeeds? && f.truncate.Succeeds? && f.mmap.FailsWith?) ==>
              r.0 == Err(MapCreateFailed(f.mmap.errno))
    // a failure leaves no name, descriptor or mapping behind
    ensures r.0.Err? ==>
              r.1.shm == st.shm && r.1.files == st.files && r.1.fds == st.fds && r.1.maps == st.maps
    ensures r.0.Ok? ==>
              var m := r.0.value;
              && m == MapInfo(true, st.nextFd, id, size, st.nextAddr, false)
              && id !in st.shm
              && r.1.shm == st.shm[id := |st.objects|]
              && r.1.files == st.files
              && r.1.fds == st.fds[m.mapFd := |st.objects|]
              && r.1.maps == st.maps[m.mapPtr := Mapping(|st.objects|, size)]
              && |r.1.objects| == |st.objects| + 1 && r.1.objects[..|st.objects|] == st.objects
              && AllZero(r.1.objects[|st.objects|], size)
  {
    if size == 0 then (Err(MapSizeZero), st)
    else
      var (o, st1) := OpenName(st, ShmNs, id, true, f.open);
      if o.Errno? then
        (Err(if o.code == EEXIST then MappingIdExists else MapCreateFailed(o.code)), st1)
      else
        var m := MapInfo(true, o.value, id, size, 0, false);
        var (t, st2) := Truncate(st1, m.mapFd, size, f.truncate);
        if t.Errno? then (Err(UnknownOsError(t.code)), Teardown(st2, m))
        else
          var (p, st3) := MapFd(st2, m.mapFd, size, f.mmap);
          if p.Errno? then (Err(MapCreateFailed(p.code)), Teardown(st3, m))
          else (Ok(m.(mapPtr := p.value)), st3)
  }

  // ---------------------------------------------------------------------
  // open_mapping (unix.rs:173-242)
  // ---------------------------------------------------------------------

  /** The driver's open ignores the caller's size hint, so it takes none. */
  function OpenMappingSpec(st: OsState, id: string, f: Faults): (r: (Result<MapInfo>, OsState))
    requires st.Valid()
    ensures r.1.Valid()
    ensures id !in st.shm ==> r == (Err(MapOpenFailed(ENOENT)), st)
    ensures r.0.Ok? <==>
              && id in st.shm && |st.objects[st.shm[id]]| > 0
              && f.open.Succeeds? && f.stat.Succeeds? && f.mmap.Succeeds?
    ensures (id in st.shm && |st.objects[st.shm[id]]| == 0 && f.open.Succeeds? && f.stat.Succeeds?)
              ==> r.0 == Err(MapSizeZero)
    ensures r.0.Err? ==> r.0.error == MapSizeZero || r.0.error.MapOpenFailed?
    // each failing call is reported as MapOpenFailed with its errno
    ensures (id in st.shm && f.open.FailsWith?) ==> r.0 == Err(MapOpenFailed(f.open.errno))
    ensures (id in st.shm && f.open.Succeeds? && f.stat.FailsWith?) ==> r.0 == Err(MapOpenFailed(f.stat.errno))
    ensures (id in st.shm && |st.objects[st.shm[id]]| > 0 && f.open.Succeeds? && f.stat.Succeeds? && f.mmap.FailsWith?)
              ==> r.0 == Err(MapOpenFailed(f.mmap.errno))
    ensures r.0.Err? ==>
              r.1.shm == st.shm && r.1.files == st.files && r.1.fds == st.fds && r.1.maps == st.maps
    ensures r.0.Ok? ==>
              var m := r.0.value;
              var obj := st.shm[id];
              && m == MapInfo(false, st.nextFd, id, |st.objects[obj]|, st.nextAddr, false)
              && r.1.shm == st.shm && r.1.files == st.files && r.1.objects == st.objects
              && r.1.fds == st.fds[m.mapFd := obj]
              && r.1.maps == st.maps[m.mapPtr := Mapping(obj, m.mapSize)]
  {
    var (o, st1) := OpenName(st, ShmNs, id, false, f.open);
    if o.Errno? then (Err(MapOpenFailed(o.code)), st1)
    else
      var m0 := MapInfo(false, o.value, id, 0, 0, false);
      var s := Stat(st1, m0.mapFd, f.stat);
      if s.Errno? then (Err(MapOpenFailed(s.code)), Teardown(st1, m0))
      else
        var m := m0.(mapSize := s.value);
        if m.mapSize == 0 then (Err(MapSizeZero), Teardown(st1, m))
        else
          var (p, st2) := MapFd(st1, m.mapFd, m.mapSize, f.mmap);
          if p.Errno? then (Err(MapOpenFailed(p.code)), Teardown(st2, m))
          else (Ok(m.(mapPtr := p.value)), st2)
  }

  // ---------------------------------------------------------------------
  // create_mapping_tmpfs (unix.rs:245-313)
  // ---------------------------------------------------------------------

  function CreateMappingTmpfsSpec(st: OsState, path: string, size: nat, f: Faults)
    : (r: (Result<MapInfo>, OsState))
    requires st.Valid()
    ensures r.1.Valid()
    ensures size == 0 ==> r == (Err(MapSizeZero), st)
    ensures r.0 == Err(MappingIdExists) <==> size > 0 && path in st.files
    ensures r.0.Err? ==>
              r.0.error in {MapSizeZero, MappingIdExists} || r.0.error.MapCreateFailed? || r.0.error.UnknownOsError?
    ensures r.0.Ok? <==>
              size > 0 && path !in st.files && f.open.Succeeds? && f.truncate.Succeeds? && f.mmap.Succeeds?
    ensures (size > 0 && path !in st.files && f.open.FailsWith?) ==> r.0 == Err(MapCreateFailed(f.open.errno))
    ensures (size > 0 && path !in st.files && f.open.Succeeds? && f.truncate.FailsWith?) ==>
              r.0 == Err(UnknownOsError(f.truncate.errno))
    ensures (size > 0 && path !in st.files && f.open.Succeeds? && f.truncate.Succeeds? && f.mmap.FailsWith?) ==>
              r.0 == Err(MapCreateFailed(f.mmap.errno))
    ensures r.0.Err? ==> r.1.shm == st.shm && r.1.fds == st.fds && r.1.maps == st.maps
    // the backing file, once created, survives a failed ftruncate or mmap
    ensures r.0.Err? ==>
              r.1.files == if size > 0 && path !in st.files && f.open.Succeeds?
                           then st.files[path := |st.objects|] else st.files
    ensures r.0.Ok? ==>
              var m := r.0.value;
              && m == MapInfo(true, st.nextFd, path, size, st.nextAddr, true)
              && path !in st.files
              && r.1.files == st.files[path := |st.objects|]
              && r.1.shm == st.shm
              && r.1.fds == st.fds[m.mapFd := |st.objects|]
              && r.1.maps == st.maps[m.mapPtr := Mapping(|st.objects|, size)]
              && |r.1.objects| == |st.objects| + 1 && r.1.objects[..|st.objects|] == st.objects
              && AllZero(r.1.objects[|st.objects|], size)
  {
    if size == 0 then (Err(MapSizeZero), st)
    else
      var (o, st1) := OpenName(st, FileNs, path, true, f.open);
      if o.Errno? then
        (Err(if o.code == EEXIST then MappingIdExists else MapCreateFailed(o.code)), st1)
      else
        var fd := o.value;
        var (t, st2) := Truncate(st1, fd, size, f.truncate);
        if t.Errno? then (Err(UnknownOsError(t.code)), Close(st2, fd))
        else
          var (p, st3) := MapFd(st2, fd, size, f.mmap);
          if p.Errno? then (Err(MapCreateFailed(p.code)), Close(st3, fd))
          else (Ok(MapInfo(true, fd, path, size, p.value, true)), st3)
  }

  // ---------------------------------------------------------------------
  // open_mapping_tmpfs (unix.rs:316-375)
  // ---------------------------------------------------------------------

  function OpenMappingTmpfsSpec(st: OsState, path: string, f: Faults): (r: (Result<MapInfo>, OsState))
    requires st.Valid()
    ensures r.1.Valid()
    ensures path !in st.files ==> r == (Err(MapOpenFailed(ENOENT)), st)
    ensures r.0.Ok? <==>
              && path in st.files && |st.objects[st.files[path]]| > 0
              && f.open.Succeeds? && f.stat.Succeeds? && f.mmap.Succeeds?
    ensures (path in st.files && |st.objects[st.files[path]]| == 0 && f.open.Succeeds? && f.stat.Succeeds?)
              ==> r.0 == Err(MapSizeZero)
    ensures r.0.Err? ==> r.0.error == MapSizeZero || r.0.error.MapOpenFailed?
    // each failing call is reported as MapOpenFailed with its errno
    ensures (path in st.files && f.open.FailsWith?) ==> r.0 == Err(MapOpenFailed(f.open.errno))
    ensures (path in st.files && f.open.Succeeds? && f.stat.FailsWith?) ==> r.0 == Err(MapOpenFailed(f.stat.errno))
    ensures (path in st.files && |st.objects[st.files[path]]| > 0 && f.open.Succeeds? && f.stat.Succeeds? && f.mmap.FailsWith?)
              ==> r.0 == Err(MapOpenFailed(f.mmap.errno))
    ensures r.0.Err? ==>
              r.1.shm == st.shm && r.1.files == st.files && r.1.fds == st.fds && r.1.maps == st.maps
    ensures r.0.Ok? ==>
              var m := r.0.value;
              var obj := st.files[path];
              && m == MapInfo(false, st.nextFd, path, |st.objects[obj]|, st.nextAddr, true)
              && r.1.shm == st.shm && r.1.files == st.files && r.1.objects == st.objects
              && r.1.fds == st.fds[m.mapFd := obj]
              && r.1.maps == st.maps[m.mapPtr := Mapping(obj, m.mapSize)]
  {
    var (o, st1) := OpenName(st, FileNs, path, false, f.open);
    if o.Errno? then (Err(MapOpenFailed(o.code)), st1)
    else
      var fd := o.value;
      var s := Stat(st1, fd, f.stat);
      if s.Errno? then (Err(MapOpenFailed(s.code)), Close(st1, fd))
      else if s.value == 0 then (Err(MapSizeZero), Close(st1, fd))
      else
        var (p, st2) := MapFd(st1, fd, s.value, f.mmap);
        if p.Errno? then (Err(MapOpenFailed(p.code)), Close(st2, fd))
        else (Ok(MapInfo(false, fd, path, s.value, p.value, true)), st2)
  }

  // ---------------------------------------------------------------------
  // MapData (unix.rs:18-94) and the driver entry points on a live Os
  // ---------------------------------------------------------------------

  /** One mapping held by this process. `dropped` records that its teardown
      has run; Rust's ownership rules run it exactly once. */
  class MapData {
    var owner: bool
    var mapFd: int
    var uniqueId: string
    var mapSize: nat
    var mapPtr: nat
    var isTmpfs: bool
    ghost var dropped: bool

    function Info(): MapInfo
      reads this
    {
      MapInfo(owner, mapFd, uniqueId, mapSize, mapPtr, isTmpfs)
    }

    constructor (m: MapInfo)
      ensures Info() == m && !dropped
    {
      owner, mapFd, uniqueId, mapSize, mapPtr, isTmpfs := m.owner, m.mapFd, m.uniqueId, m.mapSize, m.mapPtr, m.isTmpfs;
      dropped := false;
    }

    /** `MapData::set_owner` (unix.rs:89-93): only the owner flag changes. */
    method SetOwner(isOwner: bool) returns (prev: bool)
      modifies this`owner
      ensures prev == old(owner)
      ensures Info() == old(Info()).(owner := isOwner)
    {
      prev := owner;
      owner := isOwner;
    }

    /** `Drop for MapData` (unix.rs:44-85). */
    method Drop(os: Os)
      requires os.Valid() && !dropped
      modifies os, this`dropped
      ensures os.State() == Teardown(old(os.State()), Info()) && dropped
    {
      if mapPtr != 0 {
        os.Munmap(mapPtr);
      }
      if mapFd != 0 {
        if owner {
          os.Remove(if isTmpfs then FileNs else ShmNs, uniqueId);
        }
        os.CloseFd(mapFd);
      }
      dropped := true;
    }
  }

  /** What a driver call returned, as plain data. */
  function Snapshot(r: Result<MapData>): Result<MapInfo>
    reads if r.Ok? then {r.value} else {}
  {
    if r.Ok? then Ok(r.value.Info()) else Err(r.error)
  }

  /** A mapping the driver just handed out: new and not yet torn down. */
  ghost predicate Handed(r: Result<MapData>)
    reads if r.Ok? then {r.value} else {}
  {
    r.Ok? ==> !r.value.dropped
  }

  /** `create_mapping` (unix.rs:97-170). */
  method CreateMapping(os: Os, id: string, size: nat, f: Faults) returns (r: Result<MapData>)
    requires os.Valid()
    modifies os
    ensures r.Ok? ==> fresh(r.value)
    ensures Handed(r)
    ensures (Snapshot(r), os.State()) == CreateMappingSpec(old(os.State()), id, size, f)
  {
    if size == 0 {
      return Err(MapSizeZero);
    }
    var fd := os.Open(ShmNs, id, true, f.open);
    if fd.Errno? {
      if fd.code == EEXIST {
        return Err(MappingIdExists);
      }
      return Err(MapCreateFailed(fd.code));
    }
    var newMap := new MapData(MapInfo(true, fd.value, id, size, 0, false));
    var t := os.Ftruncate(newMap.mapFd, newMap.mapSize, f.truncate);
    if t.Errno? {
      newMap.Drop(os);
      return Err(UnknownOsError(t.code));
    }
    var p := os.Mmap(newMap.mapFd, size, f.mmap);
    if p.Errno? {
      newMap.Drop(os);
      return Err(MapCreateFailed(p.code));
    }
    newMap.mapPtr := p.value;
    return Ok(newMap);
  }

  /** `open_mapping` (unix.rs:173-242). */
  method OpenMapping(os: Os, id: string, f: Faults) returns (r: Result<MapData>)
    requires os.Valid()
    modifies os
    ensures r.Ok? ==> fresh(r.value)
    ensures Handed(r)
    ensures (Snapshot(r), os.State()) == OpenMappingSpec(old(os.State()), id, f)
  {
    var fd := os.Open(ShmNs, id, false, f.open);
    if fd.Errno? {
      return Err(MapOpenFailed(fd.code));
    }
    var newMap := new MapData(MapInfo(false, fd.value, id, 0, 0, false));
    var s := os.Fstat(newMap.mapFd, f.stat);
    if s.Errno? {
      newMap.Drop(os);
      return Err(MapOpenFailed(s.code));
    }
    newMap.mapSize := s.value;
    if newMap.mapSize == 0 {
      newMap.Drop(os);
      return Err(MapSizeZero);
    }
    var p := os.Mmap(newMap.mapFd, newMap.mapSize, f.mmap);
    if p.Errno? {
      newMap.Drop(os);
      return Err(MapOpenFailed(p.code));
    }
    newMap.mapPtr := p.value;
    return Ok(newMap);
  }

  /** `create_mapping_tmpfs` (unix.rs:245-313). On the error returns after
      the file was created, dropping the `File` closes the descriptor only. */
  method CreateMappingTmpfs(os: Os, path: string, size: nat, f: Faults) returns (r: Result<MapData>)
    requires os.Valid()
    modifies os
    ensures r.Ok? ==> fresh(r.value)
    ensures Handed(r)
    ensures (Snapshot(r), os.State()) == CreateMappingTmpfsSpec(old(os.State()), path, size, f)
  {
    if size == 0 {
      return Err(MapSizeZero);
    }
    var fd := os.Open(FileNs, path, true, f.open);
    if fd.Errno? {
      if fd.code == EEXIST {
        return Err(MappingIdExists);
      }
      return Err(MapCreateFailed(fd.code));
    }
    var t := os.Ftruncate(fd.value, size, f.truncate);
    if t.Errno? {
      os.CloseFd(fd.value);
      return Err(UnknownOsError(t.code));
    }
    var p := os.Mmap(fd.value, size, f.mmap);
    if p.Errno? {
      os.CloseFd(fd.value);
      return Err(MapCreateFailed(p.code));
    }
    var m := new MapData(MapInfo(true, fd.value, path, size, p.value, true));
    return Ok(m);
  }

  /** `open_mapping_tmpfs` (unix.rs:316-375). */
  method OpenMappingTmpfs(os: Os, path: string, f: Faults) returns (r: Result<MapData>)
    requires os.Valid()
    modifies os
    ensures r.Ok? ==> fresh(r.value)
    ensures Handed(r)
    ensures (Snapshot(r), os.State()) == OpenMappingTmpfsSpec(old(os.State()), path, f)
  {
    var fd := os.Open(FileNs, path, false, f.open);
    if fd.Errno? {
      return Err(MapOpenFailed(fd.code));
    }
    var s := os.Fstat(fd.value, f.stat);
    if s.Errno? {
      os.CloseFd(fd.value);
      return Err(MapOpenFailed(s.code));
    }
    if s.value == 0 {
      os.CloseFd(fd.value);
      return Err(MapSizeZero);
    }
    var p := os.Mmap(fd.value, s.value, f.mmap);
    if p.Errno? {
      os.CloseFd(fd.value);
      return Err(MapOpenFailed(p.code));
    }
    var m := new MapData(MapInfo(false, fd.value, path, s.value, p.value, true));
    return Ok(m);
  }
}
