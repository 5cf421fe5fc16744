/** The system calls of one process, while other processes use the same store directory. */
module LinuxSystem {
  import opened AtomicStore
  import opened Bytes
  import opened BlobCodec
  import opened Naming
  import opened FileSystem
  import opened StoreProtocol
  import opened StoreInvariant

  datatype StatResult = Present | Absent | Unknown

  datatype OpenResult = Opened(ino: nat) | NoFile | CannotOpen

  datatype ReadResult = Piece(data: bytes) | End | Broken

  datatype RemoveResult = Removed | NoSuchFile | NotRemoved

  datatype TempFile = TempFile(name: string, ino: nat)

  /** As long as a process has followed the protocol, the store invariant covers it. */
  predicate Good(fs: Fs, at: Option<Pc>) {
    at.Some? ==> FsInv(fs) && PcInv(fs, at.value)
  }

  /** What other processes may do between two calls of a process that stands at `at`. */
  predicate Elsewhere(before: Fs, at: Option<Pc>, after: Fs) {
    Grown(before.inodes, after.inodes) && Good(after, at)
  }

  /** Where the protocol's process is after this call, or None when it would not make it. */
  function Moved(at: Option<Pc>, fs: Fs, s: Step, e: Effect): Option<Pc> {
    if at == None then None
    else match Act(fs, at.value, s)
      case None => None
      case Some(a) => if a.effect == e then Some(a.pc) else None
  }

  lemma MovedIsGood(fs: Fs, at: Option<Pc>, s: Step, e: Effect)
    requires Good(fs, at)
    ensures Good(Perform(fs, e), Moved(at, fs, s, e))
  {
    hide FsInv, PcInv, Act, Perform, Permitted, Confined;
    if Moved(at, fs, s, e).Some? {
      ActIsGood(fs, at.value, s);
      PermittedKeepsFs(fs, e);
    }
  }

  lemma StepIsGood(fs: Fs, at: Option<Pc>, log: seq<Step>, s: Step, e: Effect)
    requires Good(fs, at)
    ensures Good(Perform(fs, e), Moved(at, fs, s, e)) && Logged(log, log + [s], s)
  {
    hide Good, Moved, Perform, Logged;
    MovedIsGood(fs, at, s, e);
    AppendLogs(log, s);
  }

  function StatStep(r: StatResult): Step {
    match r
    case Present => StatFound
    case Absent => StatAbsent
    case Unknown => StatError
  }

  function RemoveStep(file: string, r: RemoveResult): Step {
    if IsTempFile(file) then if r == Removed then UnlinkOk else UnlinkError
    else match r
      case Removed => RemoveOk
      case NoSuchFile => RemoveAbsent
      case NotRemoved => RemoveError
  }

  // ----- what decides a call

  /** What is decided about a call: that it is done, refused for one of these reasons, or declined by the TPM. */
  datatype Verdict = Undecided | Yes | Exists | Gone | No | Declined | Twice

  /** What a single step decides. */
  function Says(s: Step): Verdict {
    match s
    case LinkOk | UnwrapOk | RemoveOk => Yes
    case StatFound | LinkExists => Exists
    case MkdirError(e) => if e == EEXIST then Exists else No
    case TempError(e) => if e == EEXIST then Exists else No
    case OpenAbsent | RemoveAbsent => Gone
    case StatError | FileError(_) | LinkError | OpenError | ReadError | RemoveError => No
    case KeyError | UnwrapError => Declined
    case _ => Undecided
  }

  lemma CreateStepsSay()
    ensures Says(StatFound) == Exists && Says(StatAbsent) == Undecided && Says(StatError) == No
    ensures Says(KeyError) == Declined && forall k :: Says(KeyMade(k)) == Undecided
    ensures Says(MkdirOk) == Undecided && Says(MkdirError(EEXIST)) == Exists && Says(MkdirError(OTHER)) == No
    ensures forall f, m :: Says(TempOk(f, m)) == Undecided
    ensures Says(TempError(EEXIST)) == Exists && Says(TempError(OTHER)) == No
  {
  }

  lemma FileStepsSay()
    ensures Says(FileOk) == Undecided && forall n :: Says(FileError(n)) == No
    ensures Says(LinkOk) == Yes && Says(LinkExists) == Exists && Says(LinkError) == No
    ensures Says(FolderSyncOk) == Says(FolderSyncError) == Undecided
    ensures Says(RemoveOk) == Yes && Says(RemoveAbsent) == Gone && Says(RemoveError) == No
  {
  }

  lemma LoadStepsSay()
    ensures Says(OpenOk) == Undecided && Says(OpenAbsent) == Gone && Says(OpenError) == No
    ensures forall n :: Says(ReadSome(n)) == Undecided
    ensures Says(ReadEnd) == Undecided && Says(ReadError) == No
    ensures Says(UnwrapError) == Declined && Says(UnwrapOk) == Yes
  {
  }

  function Then(before: Verdict, said: Verdict): Verdict {
    if said == Undecided then before else if before == Undecided then said else Twice
  }

  /** What a log of steps decides, which at most one of them may do. */
  function Decision(log: seq<Step>): Verdict {
    if log == [] then Undecided else Then(Decision(log[..|log| - 1]), Says(log[|log| - 1]))
  }

  predicate Extends(before: seq<Step>, after: seq<Step>, s: Step) {
    after == before + [s]
  }

  lemma NothingSaid()
    ensures Decision([]) == Undecided
  {
  }

  /** One more step in the log. */
  predicate Logged(before: seq<Step>, after: seq<Step>, s: Step) {
    Extends(before, after, s) && Decision(after) == Then(Decision(before), Says(s))
  }

  lemma AppendLogs(log: seq<Step>, s: Step)
    ensures Logged(log, log + [s], s)
  {
    assert (log + [s])[..|log|] == log;
  }

  /** The decision that a reply goes with. */
  predicate Accords(v: Verdict, r: Reply) {
    match r
    case Created(_) | Loaded(_) | Deleted => v == Yes
    case AlreadyExists => v == Exists
    case NotFound => v == Gone
    case Failed => v in {No, Declined}
  }

  function OfError(err: Option<Errno>): Verdict {
    match err
    case None => Yes
    case Some(EEXIST) => Exists
    case Some(OTHER) => No
  }

  /** A decision was made by exactly one step, the one that says it. */
  lemma {:induction false} DecisionMeans(log: seq<Step>) returns (i: nat)
    requires Decision(log) !in {Undecided, Twice}
    ensures i < |log| && Says(log[i]) == Decision(log)
    ensures forall j :: 0 <= j < |log| && j != i ==> Says(log[j]) == Undecided
  {
    hide Says;
    var front, m := log[..|log| - 1], |log| - 1;
    if Says(log[m]) == Undecided {
      i := DecisionMeans(front);
    } else {
      OpenMeans(front);
      i := m;
    }
    forall j | 0 <= j < |log| && j != i ensures Says(log[j]) == Undecided {
      if j < m { assert log[j] == front[j]; }
    }
  }

  lemma {:induction false} OpenMeans(log: seq<Step>)
    requires Decision(log) == Undecided
    ensures forall i :: 0 <= i < |log| ==> Says(log[i]) == Undecided
  {
    hide Says;
    if log == [] {
    } else {
      OpenMeans(log[..|log| - 1]);
    }
  }

  /** The steps that can say each reply. */
  predicate SaidBy(r: Reply, s: Step) {
    match r
    case Created(_) | Loaded(_) | Deleted => s in {LinkOk, UnwrapOk, RemoveOk}
    case AlreadyExists => s in {StatFound, LinkExists, MkdirError(EEXIST), TempError(EEXIST)}
    case NotFound => s in {OpenAbsent, RemoveAbsent}
    case Failed =>
      || s in {StatError, KeyError, MkdirError(OTHER), TempError(OTHER), LinkError}
      || s in {OpenError, ReadError, UnwrapError, RemoveError}
      || s.FileError?
  }

  /** Each reply was said by one call of a kind that can say it, and no other call of the log decides anything. */
  lemma ReplyWasSaid(log: seq<Step>, r: Reply) returns (i: nat)
    requires Accords(Decision(log), r)
    ensures i < |log| && SaidBy(r, log[i])
    ensures forall j, q :: 0 <= j < |log| && j != i ==> !SaidBy(q, log[j])
  {
    i := DecisionMeans(log);
    StepSaysReply(log[i], r);
    forall j, q | 0 <= j < |log| && j != i ensures !SaidBy(q, log[j]) { UndecidedSaysNothing(log[j], q); }
  }

  lemma StepSaysReply(s: Step, r: Reply)
    requires Accords(Says(s), r)
    ensures SaidBy(r, s)
  {
  }

  lemma UndecidedSaysNothing(s: Step, r: Reply)
    requires Says(s) == Undecided
    ensures !SaidBy(r, s)
  {
  }

  /**
   `at` follows the calls made so far through the protocol of StoreProtocol: it is Some(pc) as
   long as each of them, with its outcome and its effect, is what the process does next there.
   In every call, `seen` is the directory at the moment the call happens. `log` lists the calls with
   their outcomes.
   */
  class Os {
    var fs: Fs
    var at: Option<Pc>
    var log: seq<Step>

    ghost predicate Valid()
      reads this
    {
      Good(fs, at)
    }

    constructor (fs: Fs, call: Call)
      requires FsInv(fs)
      ensures Valid() && this.fs == fs && at == Some(Entry(call)) && log == []
    {
      this.fs, at, log := fs, Some(Entry(call)), [];
    }

    method Yield()
      requires Valid()
      modifies this`fs
      ensures Valid() && Elsewhere(old(fs), at, fs)
    {
      var other: Fs := *;
      if Elsewhere(fs, at, other) {
        fs := other;
      }
    }

    /** What the TPM said, or that all of a file was read: a step that makes no call on the store. */
    method Note(s: Step)
      requires Valid() && (s.KeyMade? || s in {KeyError, UnwrapOk, UnwrapError, ReadEnd})
      modifies this
      ensures Valid() && fs == old(fs) && at == Moved(old(at), fs, s, Nothing)
      ensures Logged(old(log), log, s)
    {
      hide Moved, Good, Logged;
      StepIsGood(fs, at, log, s, Nothing);
      at, log := Moved(at, fs, s, Nothing), log + [s];
    }

    /** Without a configuration directory there is no path, and no call is made. */
    method GiveUp(config: Option<string>, s: Step)
      requires Valid() && config == None && s in {StatError, OpenError, RemoveError}
      modifies this`at
      ensures Valid() && at == Moved(old(at), fs, s, Nothing)
    {
      hide Good, Moved;
      MovedIsGood(fs, at, s, Nothing);
      at := Moved(at, fs, s, Nothing);
    }

    method Stat(file: string) returns (r: StatResult, ghost seen: Fs)
      requires Valid()
      modifies this
      ensures Valid() && Elsewhere(old(fs), old(at), seen)
      ensures (r == Present ==> file in seen.dir) && (r == Absent ==> file !in seen.dir)
      ensures at == Moved(old(at), seen, StatStep(r), Nothing) && Logged(old(log), log, StatStep(r))
    {
      hide Moved, Good, Logged;
      Yield();
      seen := fs;
      var failed: bool := *;
      r := if failed then Unknown else if file in fs.dir then Present else Absent;
      var step, effect := StatStep(r), Nothing;
      StepIsGood(fs, at, log, step, effect);
      at, fs, log := Moved(at, fs, step, effect), Perform(fs, effect), log + [step];
    }

    method MkdirAll() returns (err: Option<Errno>, ghost seen: Fs)
      requires Valid()
      modifies this
      ensures Valid() && Elsewhere(old(fs), old(at), seen)
      ensures err.None? ==> at == Moved(old(at), seen, MkdirOk, MakeFolder)
      ensures err.Some? ==> at == Moved(old(at), seen, MkdirError(err.value), Nothing)
      ensures Logged(old(log), log, if err.None? then MkdirOk else MkdirError(err.value))
    {
      hide Moved, Good, Logged;
      Yield();
      seen := fs;
      err := *;
      if err == None {
        var step, effect := MkdirOk, MakeFolder;
        StepIsGood(fs, at, log, step, effect);
        at, fs, log := Moved(at, fs, step, effect), Perform(fs, effect), log + [step];
      } else {
        var step, effect := MkdirError(err.value), Nothing;
        StepIsGood(fs, at, log, step, effect);
        at, fs, log := Moved(at, fs, step, effect), Perform(fs, effect), log + [step];
      }
    }

    method CreateTemp() returns (r: Result<TempFile, Errno>, ghost seen: Fs, ghost mode: nat)
      requires Valid()
      modifies this
      ensures Valid() && Elsewhere(old(fs), old(at), seen)
      ensures r.Ok? ==>
                && IsTempFile(r.value.name) && r.value.name !in seen.dir && seen.folder != Missing
                && r.value.ino == |seen.inodes| < |fs.inodes|
                && at == Moved(old(at), seen, TempOk(r.value.name, mode), NewFile(r.value.name, mode))
      ensures r.Err? ==> at == Moved(old(at), seen, TempError(r.error), Nothing)
      ensures Logged(old(log), log, if r.Ok? then TempOk(r.value.name, mode) else TempError(r.error))
    {
      hide Moved, Good, IsTempFile, Logged;
      Yield();
      seen := fs;
      var name: string, m: nat, errno: Option<Errno> := *, *, *;
      mode := m;
      if errno.Some? || !IsTempFile(name) || name in fs.dir || fs.folder == Missing {
        r := Err(if errno.Some? then errno.value else OTHER);
        var step, effect := TempError(r.error), Nothing;
        StepIsGood(fs, at, log, step, effect);
        at, fs, log := Moved(at, fs, step, effect), Perform(fs, effect), log + [step];
      } else {
        r := Ok(TempFile(name, |fs.inodes|));
        var step, effect := TempOk(name, m), NewFile(name, m);
        StepIsGood(fs, at, log, step, effect);
        at, fs, log := Moved(at, fs, step, effect), Perform(fs, effect), log + [step];
      }
    }

    method Chmod(ino: nat, mode: nat) returns (ok: bool, ghost seen: Fs)
      requires Valid() && ino < |fs.inodes|
      modifies this
      ensures Valid() && Elsewhere(old(fs), old(at), seen) && |fs.inodes| == |seen.inodes|
      ensures ok ==> at == Moved(old(at), seen, FileOk, Edit(ino, seen.inodes[ino].(mode := mode, synced := false)))
      ensures !ok ==> at == Moved(old(at), seen, FileError(0), Nothing)
      ensures Logged(old(log), log, if ok then FileOk else FileError(0))
    {
      hide Moved, Good, Logged;
      Yield();
      seen := fs;
      ok := *;
      if ok {
        var step, effect := FileOk, Edit(ino, fs.inodes[ino].(mode := mode, synced := false));
        StepIsGood(fs, at, log, step, effect);
        at, fs, log := Moved(at, fs, step, effect), Perform(fs, effect), log + [step];
      } else {
        var step, effect := FileError(0), Nothing;
        StepIsGood(fs, at, log, step, effect);
        at, fs, log := Moved(at, fs, step, effect), Perform(fs, effect), log + [step];
      }
    }

    /** Writes all of `data`, or fails after some of it. */
    method Write(ino: nat, data: bytes) returns (ok: bool, ghost seen: Fs, ghost written: nat)
      requires Valid() && ino < |fs.inodes|
      modifies this
      ensures Valid() && Elsewhere(old(fs), old(at), seen) && |fs.inodes| == |seen.inodes|
      ensures written <= |data| && (ok ==> written == |data|)
      ensures at == Moved(old(at), seen, if ok then FileOk else FileError(written),
                          Edit(ino, seen.inodes[ino].(data := seen.inodes[ino].data + data[..written], synced := false)))
      ensures Logged(old(log), log, if ok then FileOk else FileError(written))
    {
      hide Moved, Good, Logged;
      Yield();
      seen := fs;
      var some: int := *;
      ok := *;
      var w: nat := if ok then |data| else if 0 <= some <= |data| then some else 0;
      written := w;
      var inode := fs.inodes[ino];
      var step, effect := if ok then FileOk else FileError(w), Edit(ino, inode.(data := inode.data + data[..w], synced := false));
      StepIsGood(fs, at, log, step, effect);
      at, fs, log := Moved(at, fs, step, effect), Perform(fs, effect), log + [step];
    }

    method Sync(ino: nat) returns (ok: bool, ghost seen: Fs)
      requires Valid() && ino < |fs.inodes|
      modifies this
      ensures Valid() && Elsewhere(old(fs), old(at), seen) && |fs.inodes| == |seen.inodes|
      ensures ok ==> at == Moved(old(at), seen, FileOk, Edit(ino, seen.inodes[ino].(synced := true)))
      ensures !ok ==> at == Moved(old(at), seen, FileError(0), Nothing)
      ensures Logged(old(log), log, if ok then FileOk else FileError(0))
    {
      hide Moved, Good, Logged;
      Yield();
      seen := fs;
      ok := *;
      if ok {
        var step, effect := FileOk, Edit(ino, fs.inodes[ino].(synced := true));
        StepIsGood(fs, at, log, step, effect);
        at, fs, log := Moved(at, fs, step, effect), Perform(fs, effect), log + [step];
      } else {
        var step, effect := FileError(0), Nothing;
        StepIsGood(fs, at, log, step, effect);
        at, fs, log := Moved(at, fs, step, effect), Perform(fs, effect), log + [step];
      }
    }

    method CloseFile() returns (ok: bool, ghost seen: Fs)
      requires Valid()
      modifies this
      ensures Valid() && Elsewhere(old(fs), old(at), seen) && |fs.inodes| == |seen.inodes|
      ensures at == Moved(old(at), seen, if ok then FileOk else FileError(0), Nothing)
      ensures Logged(old(log), log, if ok then FileOk else FileError(0))
    {
      hide Moved, Good, Logged;
      Yield();
      seen := fs;
      ok := *;
      var step, effect := if ok then FileOk else FileError(0), Nothing;
      StepIsGood(fs, at, log, step, effect);
      at, fs, log := Moved(at, fs, step, effect), Perform(fs, effect), log + [step];
    }

    /** Link fails with EEXIST when the new name is taken. */
    method Link(from: string, to: string) returns (err: Option<Errno>, ghost seen: Fs)
      requires Valid()
      modifies this
      ensures Valid() && Elsewhere(old(fs), old(at), seen) && |fs.inodes| == |seen.inodes|
      ensures err.None? ==> from in seen.dir && to !in seen.dir && at == Moved(old(at), seen, LinkOk, Add(to, seen.dir[from]))
      ensures err == Some(EEXIST) ==> to in seen.dir && at == Moved(old(at), seen, LinkExists, Nothing)
      ensures err == Some(OTHER) ==> at == Moved(old(at), seen, LinkError, Nothing)
      ensures Logged(old(log), log, match err case None => LinkOk case Some(EEXIST) => LinkExists case Some(OTHER) => LinkError)
    {
      hide Moved, Good, Logged;
      Yield();
      seen := fs;
      var failed: bool := *;
      if failed || from !in fs.dir {
        err := Some(OTHER);
        var step, effect := LinkError, Nothing;
        StepIsGood(fs, at, log, step, effect);
        at, fs, log := Moved(at, fs, step, effect), Perform(fs, effect), log + [step];
      } else if to in fs.dir {
        err := Some(EEXIST);
        var step, effect := LinkExists, Nothing;
        StepIsGood(fs, at, log, step, effect);
        at, fs, log := Moved(at, fs, step, effect), Perform(fs, effect), log + [step];
      } else {
        err := None;
        var step, effect := LinkOk, Add(to, fs.dir[from]);
        StepIsGood(fs, at, log, step, effect);
        at, fs, log := Moved(at, fs, step, effect), Perform(fs, effect), log + [step];
      }
    }

    method Remove(file: string) returns (r: RemoveResult, ghost seen: Fs)
      requires Valid()
      modifies this
      ensures Valid() && Elsewhere(old(fs), old(at), seen)
      ensures (r == Removed ==> file in seen.dir) && (r == NoSuchFile ==> file !in seen.dir)
      ensures at == Moved(old(at), seen, RemoveStep(file, r), if r == Removed then Drop(file) else Nothing)
      ensures Logged(old(log), log, RemoveStep(file, r))
    {
      hide Moved, Good, RemoveStep, Logged;
      Yield();
      seen := fs;
      var failed: bool := *;
      r := if failed then NotRemoved else if file in fs.dir then Removed else NoSuchFile;
      var step, effect := RemoveStep(file, r), if r == Removed then Drop(file) else Nothing;
      StepIsGood(fs, at, log, step, effect);
      at, fs, log := Moved(at, fs, step, effect), Perform(fs, effect), log + [step];
    }

    method SyncFolder() returns (ok: bool, ghost seen: Fs)
      requires Valid()
      modifies this
      ensures Valid() && Elsewhere(old(fs), old(at), seen)
      ensures ok ==> at == Moved(old(at), seen, FolderSyncOk, Effect.SyncFolder)
      ensures !ok ==> at == Moved(old(at), seen, FolderSyncError, Nothing)
      ensures Logged(old(log), log, if ok then FolderSyncOk else FolderSyncError)
    {
      hide Moved, Good, Logged;
      Yield();
      seen := fs;
      ok := *;
      if ok {
        var step, effect := FolderSyncOk, Effect.SyncFolder;
        StepIsGood(fs, at, log, step, effect);
        at, fs, log := Moved(at, fs, step, effect), Perform(fs, effect), log + [step];
      } else {
        var step, effect := FolderSyncError, Nothing;
        StepIsGood(fs, at, log, step, effect);
        at, fs, log := Moved(at, fs, step, effect), Perform(fs, effect), log + [step];
      }
    }

    method Open(file: string) returns (r: OpenResult, ghost seen: Fs)
      requires Valid()
      modifies this
      ensures Valid() && Elsewhere(old(fs), old(at), seen) && fs == seen
      ensures r.Opened? ==> file in seen.dir && r.ino == seen.dir[file] && at == Moved(old(at), seen, OpenOk, Nothing)
      ensures r.NoFile? ==> file !in seen.dir && at == Moved(old(at), seen, OpenAbsent, Nothing)
      ensures r.CannotOpen? ==> at == Moved(old(at), seen, OpenError, Nothing)
      ensures Logged(old(log), log, match r case Opened(_) => OpenOk case NoFile => OpenAbsent case CannotOpen => OpenError)
    {
      hide Moved, Good, Logged;
      Yield();
      seen := fs;
      var failed: bool := *;
      if failed {
        r := CannotOpen;
        var step, effect := OpenError, Nothing;
        StepIsGood(fs, at, log, step, effect);
        at, fs, log := Moved(at, fs, step, effect), Perform(fs, effect), log + [step];
      } else if file in fs.dir {
        r := Opened(fs.dir[file]);
        var step, effect := OpenOk, Nothing;
        StepIsGood(fs, at, log, step, effect);
        at, fs, log := Moved(at, fs, step, effect), Perform(fs, effect), log + [step];
      } else {
        r := NoFile;
        var step, effect := OpenAbsent, Nothing;
        StepIsGood(fs, at, log, step, effect);
        at, fs, log := Moved(at, fs, step, effect), Perform(fs, effect), log + [step];
      }
    }

    /** Some bytes from offset `pos` on, the end of the file, or an error. */
    method ReadAt(ino: nat, pos: nat) returns (r: ReadResult, ghost seen: Fs)
      requires Valid() && ino < |fs.inodes|
      modifies this
      ensures Valid() && Elsewhere(old(fs), old(at), seen) && fs == seen
      ensures r.Piece? ==>
                && 0 < |r.data| && pos + |r.data| <= |seen.inodes[ino].data|
                && r.data == seen.inodes[ino].data[pos..pos + |r.data|]
                && at == Moved(old(at), seen, ReadSome(|r.data|), Nothing)
      ensures r.End? ==> pos >= |seen.inodes[ino].data| && at == old(at) && log == old(log)
      ensures r.Broken? ==> at == Moved(old(at), seen, ReadError, Nothing)
      ensures !r.End? ==> Logged(old(log), log, if r.Piece? then ReadSome(|r.data|) else ReadError)
    {
      hide Moved, Good, Logged;
      Yield();
      seen := fs;
      var failed: bool, n: nat := *, *;
      var data := fs.inodes[ino].data;
      if failed {
        r := Broken;
        var step, effect := ReadError, Nothing;
        StepIsGood(fs, at, log, step, effect);
        at, fs, log := Moved(at, fs, step, effect), Perform(fs, effect), log + [step];
      } else if pos >= |data| {
        r := End;
      } else {
        n := if 0 < n <= |data| - pos then n else 1;
        r := Piece(data[pos..pos + n]);
        var step, effect := ReadSome(n), Nothing;
        StepIsGood(fs, at, log, step, effect);
        at, fs, log := Moved(at, fs, step, effect), Perform(fs, effect), log + [step];
      }
    }
  }
}
