/**
 createKey, loadKey and deleteKey of the Linux backend as processes that take one system call at
 a time over a shared store directory. Any call may fail, and the machine may crash at any moment.
 */
module StoreProtocol {
  import opened AtomicStore
  import opened Bytes
  import opened BlobCodec
  import opened Naming
  import opened FileSystem

  const OWNER_ONLY: nat := 0x180  // 0600

  /** The error numbers writeBlob's caller tells apart, by errors.Is(err, os.ErrExist). */
  datatype Errno = EEXIST | OTHER

  /** The system call that a process holding its temporary file performs next. */
  datatype Stage = Chmod | Write | Sync | Close | Link | Unlink

  /** Where a process stands, with the local variables the rest of its code uses. */
  datatype Pc =
    | Idle
    | Stat(name: bytes)
    | Tpm(name: bytes)
    | Mkdir(name: bytes, key: Key)
    | Temp(name: bytes, key: Key)
    | File(stage: Stage, name: bytes, key: Key, tmp: string, ino: nat)
    | FolderSync(name: bytes, key: Key)
    | Cleanup(name: bytes, reply: Reply, tmp: string, ino: nat)
    | Open(name: bytes)
    | Read(name: bytes, ino: nat, got: bytes)
    | Unwrap(name: bytes, key: Key)
    | Remove(name: bytes)
    | Done(call: Call, reply: Reply)

  /** One system call together with what the environment made of it. */
  datatype Step =
    | Invoke(call: Call)
    | StatFound | StatAbsent | StatError
    | KeyMade(key: Key) | KeyError
    | MkdirOk | MkdirError(errno: Errno)
    | TempOk(tmp: string, mode: nat) | TempError(errno: Errno)
    | FileOk | FileError(written: nat)
    | LinkOk | LinkExists | LinkError
    | UnlinkOk | UnlinkError
    | FolderSyncOk | FolderSyncError
    | OpenOk | OpenAbsent | OpenError
    | ReadSome(n: nat) | ReadEnd | ReadError
    | UnwrapOk | UnwrapError
    | RemoveOk | RemoveAbsent | RemoveError
    | Return

  datatype Action = Action(effect: Effect, pc: Pc)

  function Entry(c: Call): Pc {
    match c
    case Create(n) => Stat(n)
    case Load(n) => Open(n)
    case Delete(n) => Remove(n)
  }

  /** How createKey reports an error of writeBlob. */
  function WriteError(e: Errno): Reply {
    if e == EEXIST then AlreadyExists else Failed
  }

  /** What a process does in one step, or None when the step cannot happen there. */
  function Act(fs: Fs, pc: Pc, s: Step): Option<Action> {
    match pc
    case Idle => if s.Invoke? then Some(Action(Nothing, Entry(s.call))) else None
    case Stat(_) | Tpm(_) | Mkdir(_, _) | Temp(_, _) => ActBefore(fs, pc, s)
    case File(_, _, _, _, _) => ActFile(fs, pc, s)
    case FolderSync(n, k) => (
      match s
      case FolderSyncOk => Some(Action(SyncFolder, Done(Create(n), Created(k))))
      case FolderSyncError => Some(Action(Nothing, Done(Create(n), Created(k))))
      case _ => None)
    case Cleanup(n, r, tmp, _) => (
      match s
      case UnlinkOk => Some(Action(Drop(tmp), Done(Create(n), r)))
      case UnlinkError => Some(Action(Nothing, Done(Create(n), r)))
      case _ => None)
    case Open(_) | Read(_, _, _) | Unwrap(_, _) => ActLoad(fs, pc, s)
    case Remove(n) => (
      match s
      case RemoveOk => if BlobFile(n) in fs.dir then Some(Action(Drop(BlobFile(n)), Done(Delete(n), Deleted))) else None
      case RemoveAbsent => if BlobFile(n) in fs.dir then None else Some(Action(Nothing, Done(Delete(n), NotFound)))
      case RemoveError => Some(Action(Nothing, Done(Delete(n), Failed)))
      case _ => None)
    case Done(_, _) => if s == Return then Some(Action(Nothing, Idle)) else None
  }

  /** createKey up to the creation of the temporary file. */
  function ActBefore(fs: Fs, pc: Pc, s: Step): Option<Action>
    requires pc.Stat? || pc.Tpm? || pc.Mkdir? || pc.Temp?
  {
    var failed := Some(Action(Nothing, Done(Create(pc.name), Failed)));
    match pc
    case Stat(n) => (
      match s
      case StatFound =>
        if BlobFile(n) in fs.dir then Some(Action(Nothing, Done(Create(n), AlreadyExists))) else None
      case StatAbsent => if BlobFile(n) in fs.dir then None else Some(Action(Nothing, Tpm(n)))
      case StatError => failed
      case _ => None)
    case Tpm(n) => (
      match s
      case KeyMade(k) => if Fits(k) then Some(Action(Nothing, Mkdir(n, k))) else None
      case KeyError => failed
      case _ => None)
    case Mkdir(n, k) => (
      match s
      case MkdirOk => Some(Action(MakeFolder, Temp(n, k)))
      case MkdirError(e) => Some(Action(Nothing, Done(Create(n), WriteError(e))))
      case _ => None)
    case Temp(n, k) => (
      match s
      case TempOk(tmp, mode) =>
        if IsTempFile(tmp) && tmp !in fs.dir && fs.folder != Missing
        then Some(Action(NewFile(tmp, mode), File(Chmod, n, k, tmp, |fs.inodes|))) else None
      case TempError(e) => Some(Action(Nothing, Done(Create(n), WriteError(e))))
      case _ => None)
  }

  /** writeBlob once the temporary file exists; a failure leads to the deferred cleanup. */
  function ActFile(fs: Fs, pc: Pc, s: Step): Option<Action>
    requires pc.File?
  {
    var File(stage, n, k, tmp, ino) := pc;
    if ino >= |fs.inodes| then None
    else
      var inode := fs.inodes[ino];
      var next := (st: Stage) => File(st, n, k, tmp, ino);
      var fail := (r: Reply) => Cleanup(n, r, tmp, ino);
      match (stage, s)
      case (Chmod, FileOk) => Some(Action(Edit(ino, inode.(mode := OWNER_ONLY, synced := false)), next(Write)))
      case (Write, FileOk) =>
        Some(Action(Edit(ino, inode.(data := inode.data + Encode(k), synced := false)), next(Sync)))
      case (Write, FileError(w)) =>
        if w <= |Encode(k)|
        then Some(Action(Edit(ino, inode.(data := inode.data + Encode(k)[..w], synced := false)), fail(Failed)))
        else None
      case (Sync, FileOk) => Some(Action(Edit(ino, inode.(synced := true)), next(Close)))
      case (Close, FileOk) => Some(Action(Nothing, next(Link)))
      case (Link, LinkOk) =>
        if BlobFile(n) in fs.dir then None else Some(Action(Add(BlobFile(n), ino), next(Unlink)))
      case (Link, LinkExists) =>
        if BlobFile(n) in fs.dir then Some(Action(Nothing, fail(AlreadyExists))) else None
      case (Link, LinkError) => Some(Action(Nothing, fail(Failed)))
      case (Unlink, UnlinkOk) => Some(Action(Drop(tmp), FolderSync(n, k)))
      case (Unlink, UnlinkError) => Some(Action(Nothing, FolderSync(n, k)))
      case (_, FileError(_)) =>
        if stage in {Chmod, Sync, Close} then Some(Action(Nothing, fail(Failed))) else None
      case _ => None
  }

  function ActLoad(fs: Fs, pc: Pc, s: Step): Option<Action>
    requires pc.Open? || pc.Read? || pc.Unwrap?
  {
    var failed := Some(Action(Nothing, Done(Load(pc.name), Failed)));
    match pc
    case Open(n) => (
      match s
      case OpenOk => if BlobFile(n) in fs.dir then Some(Action(Nothing, Read(n, fs.dir[BlobFile(n)], []))) else None
      case OpenAbsent => if BlobFile(n) in fs.dir then None else Some(Action(Nothing, Done(Load(n), NotFound)))
      case OpenError => failed
      case _ => None)
    case Read(n, ino, got) => (
      if ino >= |fs.inodes| then None
      else
        var data := fs.inodes[ino].data;
        match s
        case ReadSome(c) =>
          if 0 < c && |got| + c <= |data|
          then Some(Action(Nothing, Read(n, ino, got + data[|got|..|got| + c]))) else None
        case ReadEnd => (
          if |got| < |data| then None
          else match Decode(got)
            case Ok(k) => Some(Action(Nothing, Unwrap(n, k)))
            case Err(_) => failed)
        case ReadError => failed
        case _ => None)
    case Unwrap(n, k) => (
      match s
      case UnwrapOk => Some(Action(Nothing, Done(Load(n), Loaded(k))))
      case UnwrapError => failed
      case _ => None)
  }

  // ----- runs

  datatype State = State(fs: Fs, procs: map<nat, Pc>)

  const START := State(EMPTY, map[])

  /** A step of a process, its death, the directory becoming durable by itself, or a machine crash. */
  datatype Event =
    | By(p: nat, step: Step)
    | Kill(p: nat)
    | Settle
    | PowerLoss(mask: seq<bool>, after: seq<Inode>, lost: bool)

  function PcOf(s: State, p: nat): Pc {
    if p in s.procs then s.procs[p] else Idle
  }

  function Next(s: State, e: Event): Option<State> {
    match e
    case By(p, step) => (
      match Act(s.fs, PcOf(s, p), step)
      case None => None
      case Some(a) => Some(State(Perform(s.fs, a.effect), s.procs[p := a.pc])))
    case Kill(p) => Some(s.(procs := s.procs - {p}))
    case Settle => if s.fs.folder == Fresh then Some(s.(fs := s.fs.(folder := Durable))) else None
    case PowerLoss(mask, after, lost) =>
      if CrashPossible(s.fs, mask, after, lost) then Some(State(Crash(s.fs, mask, after, lost), map[])) else None
  }

  /** The state after a sequence of events, or None when one of them cannot happen. */
  function Run(s: State, events: seq<Event>): Option<State> {
    if events == [] then Some(s)
    else match Run(s, events[..|events| - 1])
      case None => None
      case Some(t) => Next(t, events[|events| - 1])
  }
}
