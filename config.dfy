/** `ShmemConf`, the builder a caller fills in before `create` or `open`,
    and the pure resolution of a tmpfs backing-file path (lib.rs:51-147). */
module Config {
  import opened ShmErrors
  import opened Naming

  /** Permission bits of the backing object; the model has no permissions,
      so they are carried along and never interpreted. */
  datatype Mode = Mode(bits: nat)

  datatype ShmemConf = ShmemConf(
    owner: bool,
    osId: Option<string>,
    overwriteFlink: bool,
    flinkPath: Option<string>,
    size: nat,
    mode: Option<Mode>,
    useTmpfs: bool,
    tmpfsBaseDir: Option<string>)

  /** `ShmemConf::new()` / `Default`: shm backed, random identifier, no
      flink, exclusive flink creation, not owner. */
  function New(): ShmemConf
  {
    ShmemConf(false, None, false, None, 0, None, false, None)
  }

  /** The public builder calls (lib.rs:86-127). */
  datatype Setter =
    | SetOsId(id: string)          // os_id
    | ForceCreateFlink             // force_create_flink
    | SetFlink(path: string)       // flink
    | SetSize(n: nat)              // size
    | SetMode(m: Mode)             // mode
    | UseTmpfsWithDir(dir: string) // use_tmpfs_with_dir

  /** One builder call. None touches the owner flag, and none can leave
      tmpfs mode without its base directory. */
  function Apply(c: ShmemConf, s: Setter): (r: ShmemConf)
    ensures r.owner == c.owner
    ensures Buildable(c) ==> Buildable(r)
    ensures r.useTmpfs <==> c.useTmpfs || s.UseTmpfsWithDir?
  {
    match s
    case SetOsId(id) => c.(osId := Some(id))
    case ForceCreateFlink => c.(overwriteFlink := true)
    case SetFlink(path) => c.(flinkPath := Some(path))
    case SetSize(n) => c.(size := n)
    case SetMode(m) => c.(mode := Some(m))
    case UseTmpfsWithDir(dir) => c.(useTmpfs := true, tmpfsBaseDir := Some(dir))
  }

  /** `ShmemConf::new()` followed by the builder calls in `ops`. */
  function Build(ops: seq<Setter>): ShmemConf
  {
    if ops == [] then New() else Apply(Build(ops[..|ops| - 1]), ops[|ops| - 1])
  }

  /** What holds of every configuration a caller can hand to create or
      open: it is not owner, and tmpfs mode always comes with a base dir. */
  predicate Buildable(c: ShmemConf)
  {
    !c.owner && (c.useTmpfs ==> c.tmpfsBaseDir.Some?)
  }

  /** No builder call sets the owner flag, and tmpfs mode is switched on only
      together with its directory; so `NoTmpfsBaseDir` cannot arise from the
      public API, and dropping a caller's configuration deletes nothing. */
  lemma {:induction false} BuildIsBuildable(ops: seq<Setter>)
    ensures Buildable(Build(ops))
    ensures Build(ops).useTmpfs <==> exists i :: 0 <= i < |ops| && ops[i].UseTmpfsWithDir?
  {
    if ops != [] {
      var init := ops[..|ops| - 1];
      BuildIsBuildable(init);
      assert forall i :: 0 <= i < |init| ==> init[i] == ops[i];
    }
  }

  /** `ShmemConf::get_tmpfs_file_path` (lib.rs:130-147). `random` is the value
      `rand::random::<u64>()` would return; it is used only when no os_id is
      set. */
  function GetTmpfsFilePath(c: ShmemConf, random: U64): (r: Result<string>)
    ensures !c.useTmpfs ==> r == Err(NotInTmpfsMode)
    ensures c.useTmpfs && c.tmpfsBaseDir.None? ==> r == Err(NoTmpfsBaseDir)
    ensures r.Ok? <==> c.useTmpfs && c.tmpfsBaseDir.Some?
    ensures r.Ok? ==> c.tmpfsBaseDir.value <= r.value
  {
    if !c.useTmpfs then Err(NotInTmpfsMode)
    else if c.tmpfsBaseDir.None? then Err(NoTmpfsBaseDir)
    else
      var base := c.tmpfsBaseDir.value;
      TmpfsPathInjective(base, if c.osId.Some? then c.osId.value else Hex(random), "");
      if c.osId.Some? then Ok(TmpfsPath(base, c.osId.value))
      else Ok(TmpfsPath(base, Hex(random)))
  }

  /** With an os_id the path does not depend on the random source, so create
      and a later open resolve the same file; different os_ids under one base
      directory resolve different files. */
  lemma TmpfsPathDeterministic(c: ShmemConf, d: ShmemConf, n: U64, m: U64)
    requires c.useTmpfs && c.tmpfsBaseDir.Some? && c.osId.Some?
    requires d.useTmpfs && d.tmpfsBaseDir == c.tmpfsBaseDir && d.osId.Some?
    ensures GetTmpfsFilePath(c, n) == GetTmpfsFilePath(c, m)
    ensures GetTmpfsFilePath(c, n) == GetTmpfsFilePath(d, m) <==> c.osId == d.osId
  {
    TmpfsPathInjective(c.tmpfsBaseDir.value, c.osId.value, d.osId.value);
  }
}
