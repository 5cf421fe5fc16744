/** The step-by-step protocol over files refines the atomic store, crashes included. */
module StoreRefinement {
  import opened AtomicStore
  import opened Bytes
  import opened BlobCodec
  import opened Naming
  import opened FileSystem
  import opened StoreProtocol
  import opened StoreInvariant

  // ----- the abstract state behind a concrete one

  function KeyOf(i: Inode): Key {
    match Decode(i.data)
    case Ok(k) => k
    case Err(_) => Key([], [])
  }

  ghost function KeysIn(inodes: seq<Inode>, d: Binding): Keys {
    imap n: bytes | BlobFile(n) in d && d[BlobFile(n)] < |inodes| :: KeyOf(inodes[d[BlobFile(n)]])
  }

  /** The map as it was after the first `j` changes that are not durable yet. */
  ghost function Moment(fs: Fs, j: nat): Keys
    requires j <= |fs.pending|
  {
    KeysIn(fs.inodes, Replay(fs.disk, fs.pending[..j]))
  }

  ghost function Recent(fs: Fs): iset<Keys> {
    iset j: nat | j <= |fs.pending| :: Moment(fs, j)
  }

  function StatusAt(inodes: seq<Inode>, pc: Pc): Status {
    match pc
    case Idle => Quiet
    case Stat(n) => Pending(Create(n))
    case Tpm(n) => Pending(Create(n))
    case Mkdir(n, _) => Pending(Create(n))
    case Temp(n, _) => Pending(Create(n))
    case File(st, n, k, _, _) => if st == Unlink then Ready(Create(n), Created(k)) else Pending(Create(n))
    case FolderSync(n, k) => Ready(Create(n), Created(k))
    case Cleanup(n, r, _, _) => Ready(Create(n), r)
    case Open(n) => Pending(Load(n))
    case Read(n, ino, _) => Ready(Load(n), Loaded(if ino < |inodes| then KeyOf(inodes[ino]) else Key([], [])))
    case Unwrap(n, k) => Ready(Load(n), Loaded(k))
    case Remove(n) => Pending(Delete(n))
    case Done(c, r) => Ready(c, r)
  }

  function StatusesOf(s: State): map<nat, Status> {
    map p | p in s.procs :: StatusAt(s.fs.inodes, s.procs[p])
  }

  ghost function Abs(s: State): Spec {
    Spec(KeysIn(s.fs.inodes, s.fs.dir), Recent(s.fs), s.fs.folder == Durable, StatusesOf(s))
  }

  /** The abstract step that a system call stands for. */
  function StepLabel(fs: Fs, p: nat, pc: Pc, s: Step): Label
    requires Act(fs, pc, s).Some?
  {
    match s
    case Invoke(c) => Invoked(p, c)
    case StatFound => TookEffect(p, Create(pc.name), AlreadyExists)
    case StatError => TookEffect(p, Create(pc.name), Failed)
    case KeyError => TookEffect(p, Create(pc.name), Failed)
    case MkdirError(e) => if e == EEXIST then Misreported(p) else TookEffect(p, Create(pc.name), Failed)
    case TempError(e) => if e == EEXIST then Misreported(p) else TookEffect(p, Create(pc.name), Failed)
    case FileError(_) => TookEffect(p, Create(pc.name), Failed)
    case LinkOk => TookEffect(p, Create(pc.name), Created(pc.key))
    case LinkExists => TookEffect(p, Create(pc.name), AlreadyExists)
    case LinkError => TookEffect(p, Create(pc.name), Failed)
    case FolderSyncOk => Flushed
    case OpenOk =>
      var ino := fs.dir[BlobFile(pc.name)];
      TookEffect(p, Load(pc.name), Loaded(if ino < |fs.inodes| then KeyOf(fs.inodes[ino]) else Key([], [])))
    case OpenAbsent => TookEffect(p, Load(pc.name), NotFound)
    case OpenError => TookEffect(p, Load(pc.name), Failed)
    case ReadError => GaveUp(p)
    case UnwrapError => GaveUp(p)
    case RemoveOk => TookEffect(p, Delete(pc.name), Deleted)
    case RemoveAbsent => TookEffect(p, Delete(pc.name), NotFound)
    case RemoveError => TookEffect(p, Delete(pc.name), Failed)
    case Return => Returned(p, pc.call, pc.reply)
    case _ => Silent
  }

  function EventLabel(s: State, e: Event): Label
    requires Next(s, e).Some?
  {
    match e
    case By(p, step) => StepLabel(s.fs, p, PcOf(s, p), step)
    case Kill(p) => Died(p)
    case Settle => Settled
    case PowerLoss(_, _, _) => Crashed
  }

  // ----- the map of keys under one effect

  lemma KeysGrown(a: seq<Inode>, b: seq<Inode>, d: Binding)
    requires GoodDir(a, d) && Grown(a, b)
    ensures KeysIn(b, d) == KeysIn(a, d)
  {
    forall n | BlobFile(n) in d ensures b[d[BlobFile(n)]] == a[d[BlobFile(n)]] {
      BlobFileIsNotTemp(n);
    }
  }

  lemma KeysWithTemp(inodes: seq<Inode>, d: Binding, f: string, ino: nat)
    requires IsTempFile(f)
    ensures KeysIn(inodes, d[f := ino]) == KeysIn(inodes, d) == KeysIn(inodes, d - {f})
  {
    forall n ensures BlobFile(n) != f { BlobFileIsNotTemp(n); }
  }

  lemma KeysWithBlob(inodes: seq<Inode>, d: Binding, n: bytes, ino: nat)
    requires ino < |inodes|
    ensures KeysIn(inodes, d[BlobFile(n) := ino]) == KeysIn(inodes, d)[n := KeyOf(inodes[ino])]
  {
    hide BlobFile, KeyOf;
    forall m | BlobFile(m) == BlobFile(n) ensures m == n { BlobFileInjective(m, n); }
  }

  lemma KeysWithoutBlob(inodes: seq<Inode>, d: Binding, n: bytes)
    ensures KeysIn(inodes, d - {BlobFile(n)}) == KeysIn(inodes, d) - {n}
  {
    hide BlobFile, KeyOf;
    forall m | BlobFile(m) == BlobFile(n) ensures m == n { BlobFileInjective(m, n); }
  }

  lemma KeyAt(fs: Fs, n: bytes)
    requires FsInv(fs)
    ensures n in KeysIn(fs.inodes, fs.dir) <==> BlobFile(n) in fs.dir
    ensures BlobFile(n) in fs.dir ==> fs.dir[BlobFile(n)] < |fs.inodes|
    ensures BlobFile(n) in fs.dir ==> KeysIn(fs.inodes, fs.dir)[n] == KeyOf(fs.inodes[fs.dir[BlobFile(n)]])
    ensures !IsTempFile(BlobFile(n))
  {
    BlobFileIsNotTemp(n);
    if BlobFile(n) in fs.dir {
      assert GoodEntry(fs.inodes, BlobFile(n), fs.dir[BlobFile(n)]);
    }
  }

  lemma EffectGrows(fs: Fs, e: Effect)
    requires FsInv(fs) && Permitted(fs, e)
    ensures Grown(fs.inodes, Perform(fs, e).inodes)
    ensures Perform(fs, e).folder == Durable <==> fs.folder == Durable
    ensures e == Nothing ==> Perform(fs, e) == fs
  {
  }

  /** The earlier moments are untouched by an effect that appends to what is pending. */
  lemma MomentsKept(fs: Fs, gs: Fs, j: nat)
    requires FsInv(fs) && Grown(fs.inodes, gs.inodes)
    requires gs.disk == fs.disk && fs.pending <= gs.pending && j <= |fs.pending|
    ensures Moment(gs, j) == Moment(fs, j)
  {
    assert gs.pending[..j] == fs.pending[..j];
    ReplayGood(fs.inodes, fs.disk, fs.pending[..j]);
    KeysGrown(fs.inodes, gs.inodes, Replay(fs.disk, fs.pending[..j]));
  }

  lemma LastMoment(fs: Fs)
    requires FsInv(fs)
    ensures Moment(fs, |fs.pending|) == KeysIn(fs.inodes, fs.dir)
    ensures KeysIn(fs.inodes, fs.dir) in Recent(fs)
  {
    assert fs.pending[..|fs.pending|] == fs.pending;
  }

  lemma RecentExtends(fs: Fs, gs: Fs)
    requires FsInv(fs) && FsInv(gs) && Grown(fs.inodes, gs.inodes)
    requires gs.disk == fs.disk && fs.pending <= gs.pending && |gs.pending| <= |fs.pending| + 1
    ensures Recent(gs) == Recent(fs) + iset{KeysIn(gs.inodes, gs.dir)}
  {
    hide KeysIn, Replay, FsInv, Moment;
    LastMoment(gs);
    forall j: nat | j <= |fs.pending| ensures Moment(gs, j) == Moment(fs, j) { MomentsKept(fs, gs, j); }
    forall v | v in Recent(gs) ensures v in Recent(fs) + iset{KeysIn(gs.inodes, gs.dir)} {
      var j: nat :| j <= |gs.pending| && v == Moment(gs, j);
      if j <= |fs.pending| { assert v == Moment(fs, j); }
    }
    forall v | v in Recent(fs) ensures v in Recent(gs) {
      var j: nat :| j <= |fs.pending| && v == Moment(fs, j);
      assert v == Moment(gs, j);
    }
  }

  lemma RecentAfterSync(fs: Fs)
    requires FsInv(fs)
    ensures var gs := Perform(fs, SyncFolder);
            Recent(gs) == iset{KeysIn(fs.inodes, fs.dir)} && KeysIn(gs.inodes, gs.dir) == KeysIn(fs.inodes, fs.dir)
  {
    var gs := Perform(fs, SyncFolder);
    assert Moment(gs, 0) == KeysIn(fs.inodes, fs.dir);
  }

  /** What each effect does to the abstract map. */
  lemma EffectOnKeys(fs: Fs, e: Effect)
    requires FsInv(fs) && Permitted(fs, e)
    ensures var gs := Perform(fs, e); var before, after := KeysIn(fs.inodes, fs.dir), KeysIn(gs.inodes, gs.dir);
            match e
            case Add(f, ino) => forall n :: f == BlobFile(n) ==> n !in before && after == before[n := KeyOf(fs.inodes[ino])]
            case Drop(f) => (IsTempFile(f) ==> after == before) && forall n :: f == BlobFile(n) ==> after == before - {n}
            case _ => after == before
  {
    var gs := Perform(fs, e);
    EffectGrows(fs, e);
    KeysGrown(fs.inodes, gs.inodes, fs.dir);
    match e
    case NewFile(f, _) => KeysWithTemp(gs.inodes, fs.dir, f, |fs.inodes|);
    case Add(f, ino) => forall n | f == BlobFile(n) { KeysWithBlob(fs.inodes, fs.dir, n, ino); }
    case Drop(f) =>
      if IsTempFile(f) { KeysWithTemp(fs.inodes, fs.dir, f, 0); }
      forall n | f == BlobFile(n) { KeysWithoutBlob(fs.inodes, fs.dir, n); }
    case _ =>
  }

  // ----- the other processes

  lemma StatusStable(fs: Fs, e: Effect, pc: Pc)
    requires FsInv(fs) && Permitted(fs, e) && PcInv(fs, pc)
    ensures StatusAt(Perform(fs, e).inodes, pc) == StatusAt(fs.inodes, pc)
  {
    EffectGrows(fs, e);
  }

  // ----- one step

  /** The status a step gives its own process, and the change of the map it may claim. */
  ghost predicate OwnStep(fs: Fs, p: nat, pc: Pc, s: Step, a: Action)
    requires Act(fs, pc, s).Some?
  {
    var gs := Perform(fs, a.effect);
    var before, after := KeysIn(fs.inodes, fs.dir), KeysIn(gs.inodes, gs.dir);
    var st, st' := StatusAt(fs.inodes, pc), StatusAt(gs.inodes, a.pc);
    match StepLabel(fs, p, pc, s)
    case Invoked(q, c) => q == p && st == Quiet && st' == Pending(c) && a.effect == Nothing
    case TookEffect(q, c, r) => q == p && st == Pending(c) && st' == Ready(c, r) && Legal(before, c, r, after) && a.effect != SyncFolder
    case GaveUp(q) => q == p && st.Ready? && st.call.Load? && st.reply.Loaded? && st' == Ready(st.call, Failed) && a.effect == Nothing
    case Misreported(q) => q == p && st.Pending? && st.call.Create? && st' == Ready(st.call, AlreadyExists) && a.effect == Nothing
    case Returned(q, c, r) => q == p && st == Ready(c, r) && st' == Quiet && a.effect == Nothing
    case Flushed => st' == st != Quiet && a.effect == SyncFolder
    case Silent => st' == st != Quiet && after == before && a.effect != SyncFolder
    case _ => false
  }

  lemma OwnStepBefore(fs: Fs, p: nat, pc: Pc, s: Step)
    requires FsInv(fs) && PcInv(fs, pc) && (pc.Stat? || pc.Tpm? || pc.Mkdir? || pc.Temp?) && ActBefore(fs, pc, s).Some?
    ensures OwnStep(fs, p, pc, s, ActBefore(fs, pc, s).value)
  {
    hide Whole, KeysIn, KeyOf, BlobFile, IsTempFile, Encode, Decode, Replay, GoodDir, GoodOps;
    ActBeforeIsGood(fs, pc, s);
    EffectOnKeys(fs, ActBefore(fs, pc, s).value.effect);
    KeyAt(fs, pc.name);
  }

  lemma OwnStepWriting(fs: Fs, p: nat, pc: Pc, s: Step)
    requires FsInv(fs) && PcInv(fs, pc) && pc.File? && pc.stage in {Chmod, Write, Sync, Close} && ActFile(fs, pc, s).Some?
    ensures OwnStep(fs, p, pc, s, ActFile(fs, pc, s).value)
  {
    hide KeysIn, KeyOf, BlobFile, IsTempFile;
    ActFileIsGood(fs, pc, s);
    EffectOnKeys(fs, ActFile(fs, pc, s).value.effect);
  }

  lemma OwnStepLinking(fs: Fs, p: nat, pc: Pc, s: Step)
    requires FsInv(fs) && PcInv(fs, pc) && pc.File? && pc.stage in {Link, Unlink} && ActFile(fs, pc, s).Some?
    ensures OwnStep(fs, p, pc, s, ActFile(fs, pc, s).value)
  {
    hide Replay, GoodDir, GoodOps, Whole, KeysIn, BlobFile, IsTempFile, Encode, Decode;
    ActFileIsGood(fs, pc, s);
    EffectOnKeys(fs, ActFile(fs, pc, s).value.effect);
    SealedByEncode(fs.inodes[pc.ino], pc.key);
    assert KeyOf(fs.inodes[pc.ino]) == pc.key;
    KeyAt(fs, pc.name);
  }

  lemma OwnStepLoading(fs: Fs, p: nat, pc: Pc, s: Step)
    requires FsInv(fs) && PcInv(fs, pc) && (pc.Open? || pc.Read? || pc.Unwrap?) && ActLoad(fs, pc, s).Some?
    ensures OwnStep(fs, p, pc, s, ActLoad(fs, pc, s).value)
  {
    hide Replay, GoodDir, GoodOps, Encode, KeysIn, BlobFile, IsTempFile, Decode;
    KeyAt(fs, pc.name);
    if pc.Read? {
      ReadIsGood(fs, pc, s);
    }
  }

  lemma OwnStepRemoving(fs: Fs, p: nat, pc: Pc, s: Step)
    requires FsInv(fs) && PcInv(fs, pc) && pc.Remove? && Act(fs, pc, s).Some?
    ensures OwnStep(fs, p, pc, s, Act(fs, pc, s).value)
  {
    hide KeysIn, KeyOf, BlobFile, IsTempFile, Replay, GoodDir, GoodOps;
    KeyAt(fs, pc.name);
    if s == RemoveOk {
      EffectOnKeys(fs, Drop(BlobFile(pc.name)));
    }
  }

  lemma OwnStepRest(fs: Fs, p: nat, pc: Pc, s: Step)
    requires FsInv(fs) && PcInv(fs, pc) && (pc.Idle? || pc.FolderSync? || pc.Cleanup? || pc.Done?)
    requires Act(fs, pc, s).Some?
    ensures OwnStep(fs, p, pc, s, Act(fs, pc, s).value)
  {
    hide KeysIn, KeyOf, BlobFile, IsTempFile, Encode, Decode, Replay, GoodDir, GoodOps;
    ActRestIsGood(fs, pc, s);
    EffectOnKeys(fs, Act(fs, pc, s).value.effect);
  }

  lemma OwnStepHolds(fs: Fs, p: nat, pc: Pc, s: Step)
    requires FsInv(fs) && PcInv(fs, pc) && Act(fs, pc, s).Some?
    ensures OwnStep(fs, p, pc, s, Act(fs, pc, s).value)
  {
    match pc
    case Stat(_) | Tpm(_) | Mkdir(_, _) | Temp(_, _) => OwnStepBefore(fs, p, pc, s);
    case File(st, _, _, _, _) =>
      if st in {Link, Unlink} { OwnStepLinking(fs, p, pc, s); } else { OwnStepWriting(fs, p, pc, s); }
    case Open(_) | Read(_, _, _) | Unwrap(_, _) => OwnStepLoading(fs, p, pc, s);
    case Remove(_) => OwnStepRemoving(fs, p, pc, s);
    case _ => OwnStepRest(fs, p, pc, s);
  }

  /** The statuses after a step: the mover's changes, everybody else's stays. */
  lemma StatusesAfter(s: State, p: nat, step: Step)
    requires Inv(s) && Act(s.fs, PcOf(s, p), step).Some?
    ensures var a := Act(s.fs, PcOf(s, p), step).value;
            StatusesOf(Next(s, By(p, step)).value) == StatusesOf(s)[p := StatusAt(Perform(s.fs, a.effect).inodes, a.pc)]
  {
    hide StatusAt, Act, FsInv, Perform, Permitted;
    var a := Act(s.fs, PcOf(s, p), step).value;
    ActIsGood(s.fs, PcOf(s, p), step);
    hide PcInv;
    forall q | q in s.procs ensures StatusAt(Perform(s.fs, a.effect).inodes, s.procs[q]) == StatusAt(s.fs.inodes, s.procs[q]) {
      StatusStable(s.fs, a.effect, s.procs[q]);
    }
  }

  lemma StatusIs(s: State, p: nat)
    ensures StatusOf(Abs(s), p) == StatusAt(s.fs.inodes, PcOf(s, p))
  {
    hide KeysIn, Recent;
  }

  lemma StepRefines(s: State, p: nat, step: Step)
    requires Inv(s) && Next(s, By(p, step)).Some?
    ensures SpecNext(Abs(s), EventLabel(s, By(p, step)), Abs(Next(s, By(p, step)).value))
  {
    hide KeysIn, Recent, StatusAt, StatusesOf, Act, StepLabel, FsInv, PcInv, Perform, Permitted;
    var pc := PcOf(s, p);
    var a := Act(s.fs, pc, step).value;
    var t := Next(s, By(p, step)).value;
    StepKeepsInv(s, p, step);
    ActIsGood(s.fs, pc, step);
    OwnStepHolds(s.fs, p, pc, step);
    StatusesAfter(s, p, step);
    StatusIs(s, p);
    if p in StatusesOf(s) {
      assert StatusesOf(s)[p := StatusesOf(s)[p]] == StatusesOf(s);
    }
    EffectGrows(s.fs, a.effect);
    if a.effect == SyncFolder {
      RecentAfterSync(s.fs);
    } else {
      PermittedKeepsFs(s.fs, a.effect);
      RecentExtends(s.fs, t.fs);
      LastMoment(s.fs);
    }
  }

  // ----- a crash

  lemma KeysAgree(inodes: seq<Inode>, a: Binding, b: Binding, n: bytes)
    requires AgreeAt(a, b, BlobFile(n))
    ensures SameAt(KeysIn(inodes, a), KeysIn(inodes, b), n)
  {
  }

  lemma CrashRefines(s: State, mask: seq<bool>, after: seq<Inode>, lost: bool)
    requires Inv(s) && CrashPossible(s.fs, mask, after, lost)
    ensures SpecNext(Abs(s), Crashed, Abs(State(Crash(s.fs, mask, after, lost), map[])))
  {
    var gs := Crash(s.fs, mask, after, lost);
    var b := Abs(State(gs, map[]));
    assert Moment(gs, 0) == b.keys;
    assert b.recent == iset{b.keys};
    if lost {
      assert b.keys == imap[];
    } else {
      var kept := Replay(s.fs.disk, Kept(s.fs.pending, mask));
      KeptGood(s.fs.inodes, s.fs.pending, mask);
      ReplayGood(s.fs.inodes, s.fs.disk, Kept(s.fs.pending, mask));
      KeysGrown(s.fs.inodes, after, kept);
      forall n ensures OnceSo(Recent(s.fs), b.keys, n) {
        var j := CrashAgreesWithSomeMoment(s.fs.disk, s.fs.pending, mask, BlobFile(n));
        KeysAgree(s.fs.inodes, kept, Replay(s.fs.disk, s.fs.pending[..j]), n);
        assert Moment(s.fs, j) in Recent(s.fs);
      }
    }
  }

  lemma SettleRefines(s: State)
    requires Inv(s) && s.fs.folder == Fresh
    ensures SpecNext(Abs(s), Settled, Abs(s.(fs := s.fs.(folder := Durable))))
  {
    var t := s.(fs := s.fs.(folder := Durable));
    assert forall j: nat | j <= |s.fs.pending| :: Moment(t.fs, j) == Moment(s.fs, j);
    assert Recent(t.fs) == Recent(s.fs);
  }

  /** Forward simulation: every event of the protocol is one step of the atomic store. */
  lemma NextRefines(s: State, e: Event)
    requires Inv(s) && Next(s, e).Some?
    ensures SpecNext(Abs(s), EventLabel(s, e), Abs(Next(s, e).value))
  {
    match e
    case By(p, step) => StepRefines(s, p, step);
    case Kill(p) => assert StatusesOf(Next(s, e).value) == StatusesOf(s) - {p};
    case Settle => SettleRefines(s);
    case PowerLoss(mask, after, lost) => CrashRefines(s, mask, after, lost);
  }

  // ----- whole runs

  ghost function AbsStates(s: State, events: seq<Event>): (r: seq<Spec>)
    requires Run(s, events).Some?
    ensures |r| == |events| + 1
  {
    (if events == [] then [] else AbsStates(s, events[..|events| - 1])) + [Abs(Run(s, events).value)]
  }

  function Labels(s: State, events: seq<Event>): (r: seq<Label>)
    requires Run(s, events).Some?
    ensures |r| == |events|
  {
    if events == [] then []
    else
      var before := events[..|events| - 1];
      Labels(s, before) + [EventLabel(Run(s, before).value, events[|events| - 1])]
  }

  /** Every run of the protocol is a run of the atomic store with the same calls and answers. */
  lemma {:induction false} RunRefines(s: State, events: seq<Event>)
    requires Inv(s) && Run(s, events).Some?
    ensures SpecRun(AbsStates(s, events), Labels(s, events))
    ensures AbsStates(s, events)[0] == Abs(s)
    ensures AbsStates(s, events)[|events|] == Abs(Run(s, events).value)
  {
    hide SpecNext, EventLabel, Next, Abs, Inv;
    if events == [] {
    } else {
      var before, m := events[..|events| - 1], |events| - 1;
      RunRefines(s, before);
      RunKeepsInv(s, before);
      NextRefines(Run(s, before).value, events[m]);
      var states, labels := AbsStates(s, events), Labels(s, events);
      forall i | 0 <= i < |labels| ensures SpecNext(states[i], labels[i], states[i + 1]) {
        if i < m {
          assert states[i] == AbsStates(s, before)[i] && states[i + 1] == AbsStates(s, before)[i + 1];
          assert labels[i] == Labels(s, before)[i];
        }
      }
    }
  }

  /** The abstract run at each moment is the abstraction of the concrete state at that moment. */
  lemma {:induction false} RunAt(s: State, events: seq<Event>, i: nat)
    requires Run(s, events).Some? && i <= |events|
    ensures Run(s, events[..i]).Some?
    ensures AbsStates(s, events)[i] == Abs(Run(s, events[..i]).value)
    ensures i < |events| ==> Next(Run(s, events[..i]).value, events[i]).Some?
                             && Labels(s, events)[i] == EventLabel(Run(s, events[..i]).value, events[i])
    decreases |events|
  {
    var m := |events| - 1;
    if i == |events| {
      assert events[..i] == events;
    } else {
      RunAt(s, events[..m], i);
      assert events[..m][..i] == events[..i];
    }
  }
}
