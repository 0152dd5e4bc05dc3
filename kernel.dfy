/** The abstract operating system the library runs against: shared-memory
    objects and files are byte sequences reached through names, descriptors
    and mappings. Every system call the library makes is a pure transition
    on an `OsState`; class `Os` holds the live state and performs them. */
module Kernel {
  import opened ShmErrors

  /** A mapping of `len` bytes of object `obj` into the address space. */
  datatype Mapping = Mapping(obj: nat, len: nat)

  /** The two name spaces: POSIX shm names and the filesystem. */
  datatype Namespace = ShmNs | FileNs

  datatype SysResult<T> = Done(value: T) | Errno(code: nat)

  datatype OsState = OsState(
    objects: seq<seq<Byte>>,   // backing objects (inodes) by number
    shm: map<string, nat>,     // shm namespace: name -> object
    files: map<string, nat>,   // filesystem: path -> object
    fds: map<int, nat>,        // open descriptors -> object; 0 is never one
    maps: map<nat, Mapping>,   // mapped addresses -> mapping; 0 is the null pointer
    nextFd: int,
    nextAddr: nat)
  {
    /** Every name, descriptor and mapping refers to an existing object, and
        fresh descriptors and addresses are never 0 nor in use. */
    predicate Valid()
    {
      && (forall n :: n in shm ==> shm[n] < |objects|)
      && (forall p :: p in files ==> files[p] < |objects|)
      && (forall fd :: fd in fds ==> 0 < fd < nextFd && fds[fd] < |objects|)
      && (forall a :: a in maps ==> 0 < a < nextAddr && maps[a].obj < |objects|)
      && nextFd > 0 && nextAddr > 0
    }

    function Names(ns: Namespace): map<string, nat>
    {
      if ns == ShmNs then shm else files
    }

    function WithNames(ns: Namespace, m: map<string, nat>): (st: OsState)
      ensures st.Names(ns) == m
    {
      if ns == ShmNs then this.(shm := m) else this.(files := m)
    }

    /** Whether `name` currently names an object in `ns`. */
    predicate Exists(ns: Namespace, name: string)
    {
      name in Names(ns)
    }

    /** The bytes a mapped address shows. */
    function View(addr: nat): seq<Byte>
      requires Valid() && addr in maps
    {
      var m := maps[addr];
      var o := objects[m.obj];
      if m.len <= |o| then o[..m.len] else o
    }
  }

  /** A system with nothing created yet. */
  const Boot := OsState([], map[], map[], map[], map[], 3, 1)

  /** `Resize(s, n)`: ftruncate semantics, cut or zero-extend to n bytes. */
  function Resize(s: seq<Byte>, n: nat): (r: seq<Byte>)
    ensures |r| == n
    ensures forall i :: 0 <= i < n ==> r[i] == (if i < |s| then s[i] else 0)
  {
    if n <= |s| then s[..n] else s + seq(n - |s|, _ => 0)
  }

  /** shm_open / open(2) on `name`: with `create` exclusively (O_CREAT|O_EXCL,
      `create_new`), failing with EEXIST on a taken name; otherwise an existing
      name, failing with ENOENT on a missing one. */
  function OpenName(st: OsState, ns: Namespace, name: string, create: bool, f: Outcome)
    : (r: (SysResult<int>, OsState))
    requires st.Valid()
    ensures r.1.Valid()
    ensures r.0.Errno? ==> r.1 == st
    ensures r.0.Done? ==>
              && r.0.value == st.nextFd && r.0.value in r.1.fds && name in r.1.Names(ns)
              && r.1.fds[r.0.value] == r.1.Names(ns)[name]
  {
    if create && name in st.Names(ns) then (Errno(EEXIST), st)
    else if !create && name !in st.Names(ns) then (Errno(ENOENT), st)
    else if f.FailsWith? then (Errno(f.errno), st)
    else if create then
      var obj := |st.objects|;
      var st1 := st.(objects := st.objects + [[]]).WithNames(ns, st.Names(ns)[name := obj]);
      (Done(st.nextFd), st1.(fds := st.fds[st.nextFd := obj], nextFd := st.nextFd + 1))
    else
      (Done(st.nextFd), st.(fds := st.fds[st.nextFd := st.Names(ns)[name]], nextFd := st.nextFd + 1))
  }

  /** ftruncate(2). */
  function Truncate(st: OsState, fd: int, size: nat, f: Outcome): (r: (SysResult<()>, OsState))
    requires st.Valid() && fd in st.fds
    ensures r.1.Valid()
  {
    if f.FailsWith? then (Errno(f.errno), st)
    else
      var obj := st.fds[fd];
      (Done(()), st.(objects := st.objects[obj := Resize(st.objects[obj], size)]))
  }

  /** fstat(2), reduced to the size it reports. */
  function Stat(st: OsState, fd: int, f: Outcome): (r: SysResult<nat>)
    requires st.Valid() && fd in st.fds
  {
    if f.FailsWith? then Errno(f.errno) else Done(|st.objects[st.fds[fd]]|)
  }

  /** mmap(2) of `len` bytes of the object behind `fd`, shared, read/write. */
  function MapFd(st: OsState, fd: int, len: nat, f: Outcome): (r: (SysResult<nat>, OsState))
    requires st.Valid() && fd in st.fds
    ensures r.1.Valid()
    ensures r.0.Errno? ==> r.1 == st
    ensures r.0.Done? ==> r.0.value != 0 && r.0.value !in st.maps && r.0.value in r.1.maps
  {
    if f.FailsWith? then (Errno(f.errno), st)
    else
      (Done(st.nextAddr),
       st.(maps := st.maps[st.nextAddr := Mapping(st.fds[fd], len)], nextAddr := st.nextAddr + 1))
  }

  /** munmap(2); unmapping an address that is not mapped changes nothing. */
  function Unmap(st: OsState, addr: nat): (r: OsState)
    requires st.Valid()
    ensures r.Valid()
  {
    st.(maps := st.maps - {addr})
  }

  /** shm_unlink(3) / unlink(2): the name goes, the object stays for whoever
      still has it open or mapped. A missing name changes nothing. */
  function Unlink(st: OsState, ns: Namespace, name: string): (r: OsState)
    requires st.Valid()
    ensures r.Valid()
    ensures !r.Exists(ns, name)
  {
    st.WithNames(ns, st.Names(ns) - {name})
  }

  /** close(2). */
  function Close(st: OsState, fd: int): (r: OsState)
    requires st.Valid()
    ensures r.Valid()
  {
    st.(fds := st.fds - {fd})
  }

  /** `OpenOptions::open` for writing the flink: `create_new` when `overwrite`
      is unset (EEXIST on a taken path), `create` + `truncate` otherwise.
      Returns the file's object; the File handle itself is closed again at
      the end of the block, so no descriptor is kept. */
  function OpenForWrite(st: OsState, path: string, overwrite: bool, f: Outcome)
    : (r: (SysResult<nat>, OsState))
    requires st.Valid()
    ensures r.1.Valid()
    ensures r.0.Errno? ==> r.1 == st
    ensures r.0.Done? ==> path in r.1.files && r.1.files[path] == r.0.value && r.1.objects[r.0.value] == []
  {
    if !overwrite && path in st.files then (Errno(EEXIST), st)
    else if f.FailsWith? then (Errno(f.errno), st)
    else if path in st.files then
      var obj := st.files[path];
      (Done(obj), st.(objects := st.objects[obj := []]))
    else
      var obj := |st.objects|;
      (Done(obj), st.(objects := st.objects + [[]], files := st.files[path := obj]))
  }

  /** Opening the flink touches no other path. */
  lemma OpenForWriteOthers(st: OsState, path: string, overwrite: bool, f: Outcome)
    requires st.Valid()
    ensures OpenForWrite(st, path, overwrite, f).1.files - {path} == st.files - {path}
  {
    if overwrite || path !in st.files {
      if f.Succeeds? && path !in st.files {
        assert st.files[path := |st.objects|] - {path} == st.files - {path};
      }
    }
  }

  /** write(2) of `bytes` at the start of the emptied file object. */
  function WriteObject(st: OsState, obj: nat, bytes: seq<Byte>, f: Outcome): (r: (SysResult<()>, OsState))
    requires st.Valid() && obj < |st.objects|
    ensures r.1.Valid()
  {
    if f.FailsWith? then (Errno(f.errno), st)
    else (Done(()), st.(objects := st.objects[obj := bytes]))
  }

  /** `File::open` of an existing file for reading; returns its object. */
  function OpenForRead(st: OsState, path: string, f: Outcome): (r: SysResult<nat>)
    requires st.Valid()
    ensures r.Done? <==> path in st.files && f.Succeeds?
    ensures r.Done? ==> r.value == st.files[path]
  {
    if path !in st.files then Errno(ENOENT)
    else if f.FailsWith? then Errno(f.errno)
    else Done(st.files[path])
  }

  /** Reading a whole file object. */
  function ReadObject(st: OsState, obj: nat, f: Outcome): (r: SysResult<seq<Byte>>)
    requires st.Valid() && obj < |st.objects|
  {
    if f.FailsWith? then Errno(f.errno) else Done(st.objects[obj])
  }

  /** A store of `bytes` at `offset` through the mapping at `addr`. */
  function Store(st: OsState, addr: nat, offset: nat, bytes: seq<Byte>): (r: OsState)
    requires st.Valid() && addr in st.maps
    requires offset + |bytes| <= |st.View(addr)|
    ensures r.Valid()
  {
    var obj := st.maps[addr].obj;
    var o := st.objects[obj];
    st.(objects := st.objects[obj := o[..offset] + bytes + o[offset + |bytes|..]])
  }

  /** What another process may do to the filesystem while this one sleeps:
      nothing, or write a whole file (creating it if needed). */
  datatype Step = Idle | PutFile(path: string, bytes: seq<Byte>)

  function ApplyStep(st: OsState, s: Step): (r: OsState)
    requires st.Valid()
    ensures r.Valid()
    ensures r.shm == st.shm && r.maps == st.maps && r.fds == st.fds
    // another process never removes a file nor repoints one
    ensures forall p :: p in st.files ==> p in r.files && r.files[p] == st.files[p]
  {
    match s
    case Idle => st
    case PutFile(path, bytes) =>
      if path in st.files then st.(objects := st.objects[st.files[path] := bytes])
      else st.(objects := st.objects + [bytes], files := st.files[path := |st.objects|])
  }

  /** The live operating system. */
  class Os {
    var objects: seq<seq<Byte>>
    var shm: map<string, nat>
    var files: map<string, nat>
    var fds: map<int, nat>
    var maps: map<nat, Mapping>
    var nextFd: int
    var nextAddr: nat

    function State(): OsState
      reads this
    {
      OsState(objects, shm, files, fds, maps, nextFd, nextAddr)
    }

    predicate Valid()
      reads this
    {
      State().Valid()
    }

    constructor ()
      ensures State() == Boot && Valid()
    {
      objects, shm, files, fds, maps, nextFd, nextAddr := [], map[], map[], map[], map[], 3, 1;
    }

    /** Makes `st` the live state. */
    method Become(st: OsState)
      modifies this
      ensures State() == st
    {
      objects, shm, files, fds, maps := st.objects, st.shm, st.files, st.fds, st.maps;
      nextFd, nextAddr := st.nextFd, st.nextAddr;
    }

    method Open(ns: Namespace, name: string, create: bool, f: Outcome) returns (r: SysResult<int>)
      requires Valid()
      modifies this
      ensures (r, State()) == OpenName(old(State()), ns, name, create, f)
    {
      var res := OpenName(State(), ns, name, create, f);
      r := res.0;
      Become(res.1);
    }

    method Ftruncate(fd: int, size: nat, f: Outcome) returns (r: SysResult<()>)
      requires Valid() && fd in fds
      modifies this
      ensures (r, State()) == Truncate(old(State()), fd, size, f)
    {
      var res := Truncate(State(), fd, size, f);
      r := res.0;
      Become(res.1);
    }

    method Fstat(fd: int, f: Outcome) returns (r: SysResult<nat>)
      requires Valid() && fd in fds
      ensures r == Stat(State(), fd, f)
    {
      r := Stat(State(), fd, f);
    }

    method Mmap(fd: int, len: nat, f: Outcome) returns (r: SysResult<nat>)
      requires Valid() && fd in fds
      modifies this
      ensures (r, State()) == MapFd(old(State()), fd, len, f)
    {
      var res := MapFd(State(), fd, len, f);
      r := res.0;
      Become(res.1);
    }

    method Munmap(addr: nat)
      requires Valid()
      modifies this
      ensures State() == Unmap(old(State()), addr)
    {
      maps := maps - {addr};
    }

    method Remove(ns: Namespace, name: string)
      requires Valid()
      modifies this
      ensures State() == Unlink(old(State()), ns, name)
    {
      if ns == ShmNs { shm := shm - {name}; } else { files := files - {name}; }
    }

    method CloseFd(fd: int)
      requires Valid()
      modifies this
      ensures State() == Close(old(State()), fd)
    {
      fds := fds - {fd};
    }

    method OpenWrite(path: string, overwrite: bool, f: Outcome) returns (r: SysResult<nat>)
      requires Valid()
      modifies this
      ensures (r, State()) == OpenForWrite(old(State()), path, overwrite, f)
    {
      var res := OpenForWrite(State(), path, overwrite, f);
      r := res.0;
      Become(res.1);
    }

    method Write(obj: nat, bytes: seq<Byte>, f: Outcome) returns (r: SysResult<()>)
      requires Valid() && obj < |objects|
      modifies this
      ensures (r, State()) == WriteObject(old(State()), obj, bytes, f)
    {
      var res := WriteObject(State(), obj, bytes, f);
      r := res.0;
      Become(res.1);
    }

    method OpenRead(path: string, f: Outcome) returns (r: SysResult<nat>)
      requires Valid()
      ensures r == OpenForRead(State(), path, f)
    {
      r := OpenForRead(State(), path, f);
    }

    method ReadAll(obj: nat, f: Outcome) returns (r: SysResult<seq<Byte>>)
      requires Valid() && obj < |objects|
      ensures r == ReadObject(State(), obj, f)
    {
      r := ReadObject(State(), obj, f);
    }

    /** Another process acts while this one sleeps. */
    method Sleep(s: Step)
      requires Valid()
      modifies this
      ensures State() == ApplyStep(old(State()), s)
    {
      Become(ApplyStep(State(), s));
    }
  }
}
