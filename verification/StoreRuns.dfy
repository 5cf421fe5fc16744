/**
 Runs from the empty store: the plain ones, and those that reach the exceptions to what the code's
 comments say.
 */
module StoreRuns {
  import opened AtomicStore
  import opened Bytes
  import opened BlobCodec
  import opened Naming
  import opened FileSystem
  import opened StoreProtocol
  import opened StoreTheorems

  lemma OneMore(events: seq<Event>, s: State, e: Event, t: State)
    requires Run(START, events) == Some(s) && Next(s, e) == Some(t)
    ensures Run(START, events + [e]) == Some(t)
  {
    RunOne(START, events, e);
  }

  /** One step of any process. */
  lemma ProcStep(events: seq<Event>, s: State, p: nat, step: Step, t: State)
    requires Run(START, events) == Some(s) && Act(s.fs, PcOf(s, p), step).Some?
    requires var a := Act(s.fs, PcOf(s, p), step).value; t == State(Perform(s.fs, a.effect), s.procs[p := a.pc])
    ensures Run(START, events + [By(p, step)]) == Some(t)
  {
    hide Run, Act, Perform;
    OneMore(events, s, By(p, step), t);
  }

  predicate AllCalm(events: seq<Event>) {
    forall e :: e in events ==> Calm(e)
  }

  /** Process 0 alone, in a folder that was just made. */
  function Solo(dir: Binding, disk: Binding, pending: seq<DirOp>, inode: Inode, pc: Pc): State {
    State(Fs(dir, disk, pending, [inode], Fresh), map[0 := pc])
  }

  lemma SoloStep(events: seq<Event>, s: State, step: Step, t: State)
    requires Run(START, events) == Some(s) && 0 in s.procs && s.procs.Keys == {0}
    requires Act(s.fs, s.procs[0], step).Some?
    requires var a := Act(s.fs, s.procs[0], step).value; t == State(Perform(s.fs, a.effect), map[0 := a.pc])
    ensures Run(START, events + [By(0, step)]) == Some(t)
  {
    hide Run, Act, Perform;
    assert s.procs[0 := t.procs[0]] == t.procs;
    OneMore(events, s, By(0, step), t);
  }

  /** A false report: a create from the empty store is told that its key exists. */
  lemma FalseReport(n: bytes, k: Key) returns (events: seq<Event>)
    requires Fits(k)
    ensures Run(START, events) == Some(State(EMPTY, map[0 := Done(Create(n), AlreadyExists)]))
  {
    hide BlobFile, Encode, Decode, Run;
    events := KeyRun(n, k);
    SoloStep(events, State(EMPTY, map[0 := Mkdir(n, k)]), MkdirError(EEXIST),
             State(EMPTY, map[0 := Done(Create(n), AlreadyExists)]));
    events := events + [By(0, MkdirError(EEXIST))];
  }

  /** A create up to its key. */
  lemma KeyRun(n: bytes, k: Key) returns (events: seq<Event>)
    requires Fits(k)
    ensures Run(START, events) == Some(State(EMPTY, map[0 := Mkdir(n, k)])) && AllCalm(events)
  {
    hide BlobFile, Encode, Decode;
    assert Run(START, []) == Some(START);
    hide Run;
    OneMore([], START, By(0, Invoke(Create(n))), State(EMPTY, map[0 := Stat(n)]));
    events := [] + [By(0, Invoke(Create(n)))];
    SoloStep(events, State(EMPTY, map[0 := Stat(n)]), StatAbsent, State(EMPTY, map[0 := Tpm(n)]));
    events := events + [By(0, StatAbsent)];
    SoloStep(events, State(EMPTY, map[0 := Tpm(n)]), KeyMade(k), State(EMPTY, map[0 := Mkdir(n, k)]));
    events := events + [By(0, KeyMade(k))];
  }

  /** A create up to its new temporary file. */
  lemma BeginRun(n: bytes, k: Key, tmp: string, mode: nat) returns (events: seq<Event>)
    requires Fits(k) && IsTempFile(tmp)
    ensures Run(START, events)
            == Some(Solo(map[tmp := 0], map[], [Bind(tmp, 0)], Inode([], mode, false), File(Chmod, n, k, tmp, 0)))
    ensures AllCalm(events)
  {
    hide BlobFile, IsTempFile, Encode, Decode, Run;
    var made := EMPTY.(folder := Fresh);
    events := KeyRun(n, k);
    SoloStep(events, State(EMPTY, map[0 := Mkdir(n, k)]), MkdirOk, State(made, map[0 := Temp(n, k)]));
    events := events + [By(0, MkdirOk)];
    SoloStep(events, State(made, map[0 := Temp(n, k)]), TempOk(tmp, mode),
             Solo(map[tmp := 0], map[], [Bind(tmp, 0)], Inode([], mode, false), File(Chmod, n, k, tmp, 0)));
    events := events + [By(0, TempOk(tmp, mode))];
  }

  /** A create that fails, and whose cleanup fails too, leaves its temporary file behind. */
  lemma FailedCreateLeavesTemp(n: bytes, k: Key, tmp: string, mode: nat) returns (events: seq<Event>)
    requires Fits(k) && IsTempFile(tmp)
    ensures Run(START, events).Some? && PcOf(Run(START, events).value, 0) == Done(Create(n), Failed)
    ensures tmp in Run(START, events).value.fs.dir
  {
    hide BlobFile, IsTempFile, Encode, Decode, Run;
    events := BeginRun(n, k, tmp, mode);
    var dir, pending, inode := map[tmp := 0], [Bind(tmp, 0)], Inode([], mode, false);
    SoloStep(events, Solo(dir, map[], pending, inode, File(Chmod, n, k, tmp, 0)), FileError(0),
             Solo(dir, map[], pending, inode, Cleanup(n, Failed, tmp, 0)));
    events := events + [By(0, FileError(0))];
    SoloStep(events, Solo(dir, map[], pending, inode, Cleanup(n, Failed, tmp, 0)), UnlinkError,
             Solo(dir, map[], pending, inode, Done(Create(n), Failed)));
    events := events + [By(0, UnlinkError)];
  }

  /** A create that dies in the middle leaves its temporary file behind with nobody to remove it. */
  lemma KilledLeavesTemp(n: bytes, k: Key, tmp: string, mode: nat) returns (events: seq<Event>)
    requires Fits(k) && IsTempFile(tmp)
    ensures Run(START, events).Some? && Run(START, events).value.procs == map[] && tmp in Run(START, events).value.fs.dir
  {
    hide BlobFile, IsTempFile, Encode, Decode, Run, AllCalm;
    events := BeginRun(n, k, tmp, mode);
    var s := Solo(map[tmp := 0], map[], [Bind(tmp, 0)], Inode([], mode, false), File(Chmod, n, k, tmp, 0));
    OneMore(events, s, Kill(0), s.(procs := map[]));
    events := events + [Kill(0)];
  }

  function Published(n: bytes, tmp: string): Binding {
    map[tmp := 0][BlobFile(n) := 0]
  }

  /** A create up to the point where its file is complete. */
  lemma WriteRun(n: bytes, k: Key, tmp: string, mode: nat) returns (events: seq<Event>)
    requires Fits(k) && IsTempFile(tmp)
    ensures Run(START, events)
            == Some(Solo(map[tmp := 0], map[], [Bind(tmp, 0)], Inode(Encode(k), OWNER_ONLY, true), File(Link, n, k, tmp, 0)))
    ensures AllCalm(events)
  {
    hide BlobFile, IsTempFile, Encode, Decode, Run, Solo;
    events := BeginRun(n, k, tmp, mode);
    var dir, pending := map[tmp := 0], [Bind(tmp, 0)];
    var written := Inode(Encode(k), OWNER_ONLY, false);
    var synced := Inode(Encode(k), OWNER_ONLY, true);
    FileStep(events, dir, pending, Inode([], mode, false), Inode([], OWNER_ONLY, false), n, k, tmp, Chmod, Write);
    events := events + [By(0, FileOk)];
    assert [] + Encode(k) == Encode(k);
    FileStep(events, dir, pending, Inode([], OWNER_ONLY, false), written, n, k, tmp, Write, Sync);
    events := events + [By(0, FileOk)];
    FileStep(events, dir, pending, written, synced, n, k, tmp, Sync, Close);
    events := events + [By(0, FileOk)];
    FileStep(events, dir, pending, synced, synced, n, k, tmp, Close, Link);
    events := events + [By(0, FileOk)];
  }

  /** A create up to its link. */
  lemma PublishRun(n: bytes, k: Key, tmp: string, mode: nat) returns (events: seq<Event>)
    requires Fits(k) && IsTempFile(tmp)
    ensures Run(START, events)
            == Some(Solo(Published(n, tmp), map[], [Bind(tmp, 0), Bind(BlobFile(n), 0)],
                         Inode(Encode(k), OWNER_ONLY, true), File(Unlink, n, k, tmp, 0)))
    ensures AllCalm(events)
  {
    hide BlobFile, IsTempFile, Encode, Decode, Run;
    events := WriteRun(n, k, tmp, mode);
    BlobFileIsNotTemp(n);
    var inode := Inode(Encode(k), OWNER_ONLY, true);
    SoloStep(events, Solo(map[tmp := 0], map[], [Bind(tmp, 0)], inode, File(Link, n, k, tmp, 0)), LinkOk,
             Solo(Published(n, tmp), map[], [Bind(tmp, 0), Bind(BlobFile(n), 0)], inode, File(Unlink, n, k, tmp, 0)));
    events := events + [By(0, LinkOk)];
  }

  lemma FileStep(events: seq<Event>, dir: Binding, pending: seq<DirOp>, before: Inode, after: Inode,
                 n: bytes, k: Key, tmp: string, stage: Stage, next: Stage)
    requires Run(START, events) == Some(Solo(dir, map[], pending, before, File(stage, n, k, tmp, 0)))
    requires match stage
             case Chmod => after == before.(mode := OWNER_ONLY, synced := false) && next == Write
             case Write => after == before.(data := before.data + Encode(k), synced := false) && next == Sync
             case Sync => after == before.(synced := true) && next == Close
             case Close => after == before && next == Link
             case _ => false
    ensures Run(START, events + [By(0, FileOk)]) == Some(Solo(dir, map[], pending, after, File(next, n, k, tmp, 0)))
  {
    hide Run, Encode;
    assert [before][0 := after] == [after];
    SoloStep(events, Solo(dir, map[], pending, before, File(stage, n, k, tmp, 0)), FileOk,
             Solo(dir, map[], pending, after, File(next, n, k, tmp, 0)));
  }

  /** A create that succeeds although removing its temporary name failed: its inode has two names. */
  lemma CreatedStillAtTemp(n: bytes, k: Key, tmp: string, mode: nat) returns (events: seq<Event>)
    requires Fits(k) && IsTempFile(tmp)
    ensures Run(START, events).Some? && PcOf(Run(START, events).value, 0) == Done(Create(n), Created(k))
    ensures var dir := Run(START, events).value.fs.dir;
            tmp in dir && BlobFile(n) in dir && dir[tmp] == dir[BlobFile(n)] && tmp != BlobFile(n)
  {
    hide BlobFile, IsTempFile, Encode, Decode, Run;
    events := PublishRun(n, k, tmp, mode);
    BlobFileIsNotTemp(n);
    var dir, pending, inode := Published(n, tmp), [Bind(tmp, 0), Bind(BlobFile(n), 0)], Inode(Encode(k), OWNER_ONLY, true);
    SoloStep(events, Solo(dir, map[], pending, inode, File(Unlink, n, k, tmp, 0)), UnlinkError,
             Solo(dir, map[], pending, inode, FolderSync(n, k)));
    events := events + [By(0, UnlinkError)];
    SoloStep(events, Solo(dir, map[], pending, inode, FolderSync(n, k)), FolderSyncOk,
             Solo(dir, dir, [], inode, Done(Create(n), Created(k))));
    events := events + [By(0, FolderSyncOk)];
  }

  /** The end of an undisturbed create by process 0, in a directory that is not yet durable in its parent. */
  function Stored(n: bytes, k: Key): State {
    var dir := map[BlobFile(n) := 0];
    Solo(dir, dir, [], Inode(Encode(k), OWNER_ONLY, true), Done(Create(n), Created(k)))
  }

  /** A create in which every call works. */
  lemma CreatedRun(n: bytes, k: Key, tmp: string, mode: nat) returns (events: seq<Event>)
    requires Fits(k) && IsTempFile(tmp)
    ensures Run(START, events) == Some(Stored(n, k)) && AllCalm(events) && By(0, FolderSyncOk) in events
  {
    hide BlobFile, IsTempFile, Encode, Decode, Run, AllCalm;
    events := PublishRun(n, k, tmp, mode);
    BlobFileIsNotTemp(n);
    var dir, pending, inode := Published(n, tmp), [Bind(tmp, 0), Bind(BlobFile(n), 0)], Inode(Encode(k), OWNER_ONLY, true);
    assert dir - {tmp} == map[BlobFile(n) := 0];
    SoloStep(events, Solo(dir, map[], pending, inode, File(Unlink, n, k, tmp, 0)), UnlinkOk,
             Solo(dir - {tmp}, map[], pending + [Unbind(tmp)], inode, FolderSync(n, k)));
    CalmMore(events, By(0, UnlinkOk));
    events := events + [By(0, UnlinkOk)];
    SoloStep(events, Solo(dir - {tmp}, map[], pending + [Unbind(tmp)], inode, FolderSync(n, k)), FolderSyncOk, Stored(n, k));
    CalmMore(events, By(0, FolderSyncOk));
    events := events + [By(0, FolderSyncOk)];
  }

  lemma CalmMore(events: seq<Event>, e: Event)
    requires AllCalm(events) && Calm(e)
    ensures AllCalm(events + [e])
  {
  }

  /**
   The first create in a new store directory, with every call successful and the directory synced, is
   lost in a crash, because nothing made the directory itself durable.
   */
  lemma SyncedKeyLost(n: bytes, k: Key, tmp: string, mode: nat) returns (events: seq<Event>, crash: Event)
    requires Fits(k) && IsTempFile(tmp)
    ensures Run(START, events).Some? && PcOf(Run(START, events).value, 0) == Done(Create(n), Created(k))
    ensures BlobFile(n) in Run(START, events).value.fs.disk && By(0, FolderSyncOk) in events
    ensures crash.PowerLoss? && Run(START, events + [crash]).Some?
    ensures BlobFile(n) !in Run(START, events + [crash]).value.fs.dir
  {
    hide BlobFile, IsTempFile, Encode, Decode, Run, AllCalm;
    events := CreatedRun(n, k, tmp, mode);
    var done := Stored(n, k);
    crash := PowerLoss([], done.fs.inodes, true);
    OneMore(events, done, crash, State(Crash(done.fs, [], done.fs.inodes, true), map[]));
  }

  /** Once the directory has become durable by itself, the same key is there after the same crash. */
  lemma SettledKeyKept(n: bytes, k: Key, tmp: string, mode: nat) returns (events: seq<Event>, crash: Event)
    requires Fits(k) && IsTempFile(tmp)
    ensures Run(START, events).Some? && PcOf(Run(START, events).value, 0) == Done(Create(n), Created(k))
    ensures crash.PowerLoss? && Run(START, events + [crash]).Some?
    ensures var fs := Run(START, events + [crash]).value.fs;
            BlobFile(n) in fs.dir && fs.dir[BlobFile(n)] < |fs.inodes| && fs.inodes[fs.dir[BlobFile(n)]].data == Encode(k)
  {
    hide BlobFile, IsTempFile, Encode, Decode, Run, AllCalm;
    events := CreatedRun(n, k, tmp, mode);
    var done := Stored(n, k);
    var settled := done.(fs := done.fs.(folder := Durable));
    OneMore(events, done, Settle, settled);
    events := events + [Settle];
    crash := PowerLoss([], settled.fs.inodes, false);
    OneMore(events, settled, crash, State(Crash(settled.fs, [], settled.fs.inodes, false), map[]));
  }

  /** Two creates of one name with nothing failing: the second is told that the key exists. */
  lemma TwoCreates(n: bytes, k: Key, tmp: string, mode: nat) returns (events: seq<Event>)
    requires Fits(k) && IsTempFile(tmp)
    ensures Run(START, events).Some? && AllCalm(events)
    ensures Run(START, events).value.procs == map[0 := Done(Create(n), Created(k)), 1 := Done(Create(n), AlreadyExists)]
  {
    hide BlobFile, IsTempFile, Encode, Decode, Run, AllCalm;
    events := CreatedRun(n, k, tmp, mode);
    var s := Stored(n, k);
    var t := s.(procs := s.procs[1 := Stat(n)]);
    ProcStep(events, s, 1, Invoke(Create(n)), t);
    CalmMore(events, By(1, Invoke(Create(n))));
    events := events + [By(1, Invoke(Create(n)))];
    ProcStep(events, t, 1, StatFound, t.(procs := t.procs[1 := Done(Create(n), AlreadyExists)]));
    CalmMore(events, By(1, StatFound));
    events := events + [By(1, StatFound)];
  }

  /** A create by process 0 and then a load by process 1 that gets the key. */
  lemma LoadedRun(n: bytes, k: Key, tmp: string, mode: nat) returns (events: seq<Event>)
    requires Fits(k) && IsTempFile(tmp)
    ensures Run(START, events).Some? && AllCalm(events)
    ensures PcOf(Run(START, events).value, 1) == Done(Load(n), Loaded(k))
  {
    hide BlobFile, IsTempFile, Encode, Decode, Run, AllCalm;
    var s := Stored(n, k);
    events := CreatedRun(n, k, tmp, mode);
    events := OpenedRun(events, s, n);
    events := ReadRun(events, s, n, k);
    var unwrapping := s.(procs := s.procs[1 := Unwrap(n, k)]);
    ProcStep(events, unwrapping, 1, UnwrapOk, s.(procs := s.procs[1 := Done(Load(n), Loaded(k))]));
    CalmMore(events, By(1, UnwrapOk));
    events := events + [By(1, UnwrapOk)];
  }

  lemma ReadRun(before: seq<Event>, s: State, n: bytes, k: Key) returns (events: seq<Event>)
    requires Run(START, before) == Some(s.(procs := s.procs[1 := Read(n, 0, [])])) && AllCalm(before)
    requires Fits(k) && |s.fs.inodes| == 1 && s.fs.inodes[0].data == Encode(k)
    ensures Run(START, events) == Some(s.(procs := s.procs[1 := Unwrap(n, k)])) && AllCalm(events)
  {
    hide BlobFile, IsTempFile, Run, AllCalm;
    EncodeShape(k);
    RoundTrip(k);
    hide Encode, Decode;
    var data := Encode(k);
    var reading := s.(procs := s.procs[1 := Read(n, 0, [])]);
    var read := s.(procs := s.procs[1 := Read(n, 0, data)]);
    assert [] + data[0..|data|] == data;
    ProcStep(before, reading, 1, ReadSome(|data|), read);
    CalmMore(before, By(1, ReadSome(|data|)));
    events := before + [By(1, ReadSome(|data|))];
    ProcStep(events, read, 1, ReadEnd, s.(procs := s.procs[1 := Unwrap(n, k)]));
    CalmMore(events, By(1, ReadEnd));
    events := events + [By(1, ReadEnd)];
  }

  lemma OpenedRun(before: seq<Event>, s: State, n: bytes) returns (events: seq<Event>)
    requires Run(START, before) == Some(s) && AllCalm(before) && PcOf(s, 1) == Idle
    requires BlobFile(n) in s.fs.dir && s.fs.dir[BlobFile(n)] == 0
    ensures Run(START, events) == Some(s.(procs := s.procs[1 := Read(n, 0, [])])) && AllCalm(events)
  {
    hide BlobFile, IsTempFile, Encode, Decode, Run, AllCalm;
    var opening := s.(procs := s.procs[1 := Open(n)]);
    ProcStep(before, s, 1, Invoke(Load(n)), opening);
    CalmMore(before, By(1, Invoke(Load(n))));
    events := before + [By(1, Invoke(Load(n)))];
    ProcStep(events, opening, 1, OpenOk, s.(procs := s.procs[1 := Read(n, 0, [])]));
    CalmMore(events, By(1, OpenOk));
    events := events + [By(1, OpenOk)];
  }
}
