/** Shared vocabulary of the model: bytes, optional values, the library's
    error kinds and the failures the environment may inject into a call. */
module ShmErrors {

  /** One byte of a file or of a shared-memory object. */
  type Byte = b: int | 0 <= b < 256

  /** Value of `rand::random::<u64>()`. */
  type U64 = n: nat | n < 0x1_0000_0000_0000_0000

  /** errno values the model names. */
  const ENOENT: nat := 2
  const EEXIST: nat := 17

  /** An errno the environment may make a call fail with. EEXIST is not one:
      the kernel reports it only when the name really exists, and the model
      decides that from its own state. */
  type OsErrno = e: nat | e != 0 && e != EEXIST witness 5

  datatype Option<T> = None | Some(value: T)

  /** The variants of `ShmemError` that the Unix code paths produce.
      The io::Error payloads of the Link* variants are not modelled. */
  datatype ShmemError =
    | MapSizeZero
    | LinkExists
    | LinkCreateFailed
    | LinkWriteFailed
    | LinkOpenFailed
    | LinkReadFailed
    | MappingIdExists
    | MapCreateFailed(code: nat)
    | MapOpenFailed(code: nat)
    | NoLinkOrOsId
    | NotInTmpfsMode
    | NoTmpfsBaseDir
    | UnknownOsError(code: nat)

  datatype Result<T> = Ok(value: T) | Err(error: ShmemError)

  /** Whether one system call succeeds or fails for a reason outside the model
      (permissions, exhausted memory, ...). */
  datatype Outcome = Succeeds | FailsWith(errno: OsErrno)

  /** The environment's verdict on each system call one driver or flink
      operation may make. */
  datatype Faults = Faults(
    open: Outcome,       // shm_open / open of a backing file
    truncate: Outcome,   // ftruncate
    stat: Outcome,       // fstat
    mmap: Outcome,       // mmap
    linkOpen: Outcome,   // opening the flink file
    linkWrite: Outcome,  // writing the flink file
    linkRead: Outcome)   // reading the flink file

  const NoFaults := Faults(Succeeds, Succeeds, Succeeds, Succeeds, Succeeds, Succeeds, Succeeds)
}
