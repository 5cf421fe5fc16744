/** What the store promises its callers, over all runs of the protocol. */
module StoreTheorems {
  import opened AtomicStore
  import opened Bytes
  import opened BlobCodec
  import opened Naming
  import opened FileSystem
  import opened StoreProtocol
  import opened StoreInvariant
  import opened StoreRefinement

  lemma AbsOfStart()
    ensures Abs(START).keys == imap[] && Abs(START).recent == iset{imap[]} && Abs(START).calls == map[]
  {
    assert Moment(EMPTY, 0) == imap[];
  }

  predicate NoPowerLoss(events: seq<Event>) {
    forall i :: 0 <= i < |events| ==> !events[i].PowerLoss?
  }

  lemma {:induction false} NoCrashLabel(s: State, events: seq<Event>)
    requires Run(s, events).Some? && NoPowerLoss(events)
    ensures Crashed !in Labels(s, events)
  {
    if events == [] {
    } else {
      NoCrashLabel(s, events[..|events| - 1]);
    }
  }

  // ----- creates, deletes and races

  /** Without a power loss, successful creates less successful deletes is the change in presence. */
  lemma {:induction false} CreatesLessDeletes(s: State, events: seq<Event>, n: bytes)
    requires Inv(s) && Run(s, events).Some? && NoPowerLoss(events)
    ensures Balance(Labels(s, events), n)
            == Count(BlobFile(n) in Run(s, events).value.fs.dir) - Count(BlobFile(n) in s.fs.dir)
  {
    RunRefines(s, events);
    RunKeepsInv(s, events);
    NoCrashLabel(s, events);
    BalanceIsPresence(AbsStates(s, events), Labels(s, events), n);
    KeyAt(s.fs, n);
    KeyAt(Run(s, events).value.fs, n);
  }

  /** Nothing fails, dies, crashes or returns; removing the temporary name and the directory sync may fail. */
  predicate Calm(e: Event) {
    match e
    case By(_, step) => (
      match step
      case StatError | KeyError | MkdirError(_) | TempError(_) | FileError(_) | LinkError => false
      case OpenError | ReadError | UnwrapError | RemoveError | Return => false
      case _ => true)
    case Settle => true
    case _ => false
  }

  predicate Removes(l: Label, n: bytes) {
    l.TookEffect? && l.call == Delete(n) && l.reply == Deleted
  }

  lemma {:induction false} CalmLabels(s: State, events: seq<Event>, n: bytes)
    requires Run(s, events).Some?
    requires forall i :: 0 <= i < |events| ==> Calm(events[i])
    ensures forall l :: l in Labels(s, events) ==> Undisturbed(l, n) || Removes(l, n)
  {
    if events == [] {
    } else {
      var before, e := events[..|events| - 1], events[|events| - 1];
      CalmLabels(s, before, n);
      assert Calm(e);
      CalmLabel(Run(s, before).value, e, n);
    }
  }

  lemma CalmLabel(s: State, e: Event, n: bytes)
    requires Next(s, e).Some? && Calm(e)
    ensures Undisturbed(EventLabel(s, e), n) || Removes(EventLabel(s, e), n)
  {
    hide KeyOf, BlobFile;
  }

  /**
   Of any number of racing creates of an absent name, when all are done exactly one has made it. Any
   number of calls may have come and gone before.
   */
  lemma ExactlyOneWinner(s: State, events: seq<Event>, n: bytes, q: nat) returns (winner: nat)
    requires Inv(s) && (forall p :: p in s.procs ==> s.procs[p].Idle?) && BlobFile(n) !in s.fs.dir
    requires Run(s, events).Some?
    requires forall i :: 0 <= i < |events| ==> Calm(events[i])
    requires forall l :: l in Labels(s, events) ==> !Removes(l, n)
    requires var t := Run(s, events).value;
             && (forall p :: p in t.procs ==> t.procs[p].Done? || t.procs[p].Idle?)
             && q in t.procs && t.procs[q].Done? && t.procs[q].call == Create(n)
    ensures var t := Run(s, events).value;
            && winner in t.procs && t.procs[winner].Done? && t.procs[winner].call == Create(n) && t.procs[winner].reply.Created?
            && forall p :: p in t.procs && p != winner && t.procs[p].Done? && t.procs[p].call == Create(n) ==>
                 t.procs[p].reply == AlreadyExists
  {
    hide Abs, SpecRun, Run, Labels, AbsStates, Inv, Race, Undisturbed, Removes;
    RunRefines(s, events);
    CalmLabels(s, events, n);
    AbsentAtFirst(s, n);
    var w := RaceKept(AbsStates(s, events), Labels(s, events), n);
    winner := WinnerOf(Run(s, events).value, n, q, w);
  }

  lemma AbsentAtFirst(s: State, n: bytes)
    requires Inv(s) && (forall p :: p in s.procs ==> s.procs[p].Idle?) && BlobFile(n) !in s.fs.dir
    ensures n !in Abs(s).keys && forall p :: p in Abs(s).calls ==> Abs(s).calls[p] == Quiet
  {
    KeyAt(s.fs, n);
  }

  lemma WinnerOf(t: State, n: bytes, q: nat, w: Option<nat>) returns (winner: nat)
    requires Race(Abs(t), n, w) && q in t.procs && t.procs[q].Done? && t.procs[q].call == Create(n)
    requires forall p :: p in t.procs ==> t.procs[p].Done? || t.procs[p].Idle?
    ensures winner in t.procs && t.procs[winner].Done? && t.procs[winner].call == Create(n) && t.procs[winner].reply.Created?
    ensures forall p :: p in t.procs && p != winner && t.procs[p].Done? && t.procs[p].call == Create(n) ==>
              t.procs[p].reply == AlreadyExists
  {
    hide KeysIn, Recent;
    forall p | p in t.procs && t.procs[p].Done? ensures Abs(t).calls[p] == Ready(t.procs[p].call, t.procs[p].reply) { }
    assert Abs(t).calls[q].call == Create(n);
    winner := w.value;
  }

  // ----- which key a load returns

  /**
   The key a load takes effect with was made by a create of that name that nothing has durably undone
   since, and without a power loss by the one live at that moment.
   */
  lemma {:induction false} LoadedKeyWasMade(events: seq<Event>, i: nat, p: nat, n: bytes, k: Key)
    requires Run(START, events).Some? && i < |events|
    requires Labels(START, events)[i] == TookEffect(p, Load(n), Loaded(k))
    ensures exists j :: Origin(Labels(START, events), j, i, n, k)
    ensures NoPowerLoss(events[..i]) ==> exists j :: Live(Labels(START, events), j, i, n, k)
  {
    var states, labels := AbsStates(START, events), Labels(START, events);
    StartHasInv();
    AbsOfStart();
    RunRefines(START, events);
    assert SpecNext(states[i], labels[i], states[i + 1]);
    var origin := KeyOrigin(states, labels, i, n);
    assert Origin(labels, origin, i, n, k);
    if NoPowerLoss(events[..i]) {
      RunAt(START, events, i);
      LabelsOfPrefix(START, events, i);
      NoCrashLabel(START, events[..i]);
      var j := SinceLastTouch(states, labels, i, n);
    }
  }

  lemma {:induction false} LabelsOfPrefix(s: State, events: seq<Event>, i: nat)
    requires Run(s, events).Some? && i <= |events|
    ensures Run(s, events[..i]).Some?
    ensures Labels(s, events)[..i] == Labels(s, events[..i])
    decreases |events|
  {
    if i == |events| {
      assert events[..i] == events;
    } else {
      var before := events[..|events| - 1];
      LabelsOfPrefix(s, before, i);
      assert before[..i] == events[..i];
      assert Labels(s, events)[..i] == Labels(s, before)[..i];
    }
  }

  /** End to end: the key a load answers with is the key that a create of the name answered with. */
  lemma LoadAnswersCreatedKey(events: seq<Event>, p: nat, n: bytes, k: Key) returns (h: nat, i: nat)
    requires Run(START, events).Some?
    requires PcOf(Run(START, events).value, p) == Done(Load(n), Loaded(k))
    ensures Answered(Labels(START, events), h, i, |events|, p, Load(n), Loaded(k))
    ensures Labels(START, events)[i] == TookEffect(p, Load(n), Loaded(k))
    ensures exists j :: Origin(Labels(START, events), j, i, n, k)
    ensures NoPowerLoss(events[..i]) ==> exists j :: Live(Labels(START, events), j, i, n, k)
  {
    StartHasInv();
    AbsOfStart();
    RunRefines(START, events);
    StatusIs(Run(START, events).value, p);
    h, i := AnswerTookEffect(AbsStates(START, events), Labels(START, events), |events|, p);
    LoadedKeyWasMade(events, i, p, n, k);
  }

  /** A reader at the end of its file always has one complete blob; no framing error can happen. */
  lemma ReadNeverMalformed(s: State, p: nat)
    requires Inv(s) && Next(s, By(p, ReadEnd)).Some?
    ensures var pc := PcOf(s, p);
            PcOf(Next(s, By(p, ReadEnd)).value, p) == Unwrap(pc.name, KeyOf(s.fs.inodes[pc.ino]))
  {
    ReadIsGood(s.fs, PcOf(s, p), ReadEnd);
  }

  // ----- what an answer says about the directory

  /** At the step that fixes an answer, the directory is as the answer says, and the file holds the key. */
  lemma AnswerInDirectory(s: State, p: nat, step: Step)
    requires Inv(s) && Next(s, By(p, step)).Some? && EventLabel(s, By(p, step)).TookEffect?
    ensures var l := EventLabel(s, By(p, step)); var f := BlobFile(l.call.name);
            var before, after := s.fs, Next(s, By(p, step)).value.fs;
            && l.p == p
            && match l.reply
               case Created(k) => l.call.Create? && f !in before.dir && Holds(after, f, k)
               case AlreadyExists => l.call.Create? && f in before.dir && after.dir == before.dir
               case Loaded(k) => l.call.Load? && Holds(before, f, k) && after.dir == before.dir
               case NotFound => (l.call.Load? || l.call.Delete?) && f !in before.dir && after.dir == before.dir
               case Deleted => l.call.Delete? && f in before.dir && after.dir == before.dir - {f}
               case Failed => after.dir == before.dir
  {
    hide KeysIn, KeyOf, Encode, Decode, BlobFile, IsTempFile, FsInv, PcInv;
    var l := EventLabel(s, By(p, step));
    StepKeepsInv(s, p, step);
    AnswerMoves(s.fs, PcOf(s, p), step, p);
    if l.reply.Created? { LinkedHolds(s, p, step); }
    if l.reply.Loaded? { OpenedHolds(s, p, step); }
  }

  /** The file is there with exactly this key. */
  predicate Holds(fs: Fs, f: string, k: Key) {
    f in fs.dir && fs.dir[f] < |fs.inodes| && fs.inodes[fs.dir[f]].data == Encode(k)
  }

  lemma AnswerMoves(fs: Fs, pc: Pc, step: Step, p: nat)
    requires Act(fs, pc, step).Some? && StepLabel(fs, p, pc, step).TookEffect?
    ensures var l := StepLabel(fs, p, pc, step); var f := BlobFile(l.call.name);
            var after := Perform(fs, Act(fs, pc, step).value.effect);
            && l.p == p
            && match l.reply
               case Created(k) => step == LinkOk && pc.File? && l.call == Create(pc.name) && k == pc.key && f !in fs.dir
               case AlreadyExists => l.call.Create? && f in fs.dir && after.dir == fs.dir
               case Loaded(k) => step == OpenOk && pc.Open? && l.call == Load(pc.name) && f in fs.dir && after == fs
               case NotFound => (l.call.Load? || l.call.Delete?) && f !in fs.dir && after.dir == fs.dir
               case Deleted => l.call.Delete? && f in fs.dir && after.dir == fs.dir - {f}
               case Failed => after.dir == fs.dir
  {
    if pc.File? {
      hide KeyOf, Encode, Decode, BlobFile, IsTempFile;
    } else {
      hide KeyOf, Encode, Decode, BlobFile, IsTempFile, ActFile;
    }
  }

  lemma LinkedHolds(s: State, p: nat, step: Step)
    requires Inv(s) && PcOf(s, p).File? && step == LinkOk && Next(s, By(p, step)).Some?
    ensures Holds(Next(s, By(p, step)).value.fs, BlobFile(PcOf(s, p).name), PcOf(s, p).key)
  {
    hide FsInv, Encode, BlobFile, IsTempFile;
    PcHolds(s, p);
  }

  lemma OpenedHolds(s: State, p: nat, step: Step)
    requires Inv(s) && PcOf(s, p).Open? && step == OpenOk && Next(s, By(p, step)).Some?
    ensures var l := EventLabel(s, By(p, step));
            l.TookEffect? && l.reply.Loaded? && Holds(s.fs, BlobFile(PcOf(s, p).name), l.reply.key)
  {
    hide Encode, Decode;
    var n := PcOf(s, p).name;
    KeyAt(s.fs, n);
    assert GoodEntry(s.fs.inodes, BlobFile(n), s.fs.dir[BlobFile(n)]);
  }

  // ----- calls that do not succeed

  lemma OwnLabel(s: State, p: nat, step: Step)
    requires Next(s, By(p, step)).Some?
    ensures var l := EventLabel(s, By(p, step)); l != Crashed && (l.TookEffect? ==> l.p == p)
  {
    hide Act, KeyOf, BlobFile;
  }

  lemma OnlySuccessChanges(a: Spec, l: Label, b: Spec)
    requires SpecNext(a, l, b) && l != Crashed
    requires l.TookEffect? ==> l.call.Load? || !(l.reply.Created? || l.reply.Deleted?)
    ensures b.keys == a.keys
  {
  }

  /** A call that answers anything but "created" or "deleted" has not changed the map by any of its steps. */
  lemma UnsuccessfulChangesNothing(events: seq<Event>, p: nat) returns (h: nat)
    requires Run(START, events).Some? && PcOf(Run(START, events).value, p).Done?
    requires !PcOf(Run(START, events).value, p).reply.Created? && !PcOf(Run(START, events).value, p).reply.Deleted?
    ensures h < |events| && Labels(START, events)[h] == Invoked(p, PcOf(Run(START, events).value, p).call)
    ensures forall x :: h < x < |events| && events[x].By? && events[x].p == p ==>
              AbsStates(START, events)[x + 1].keys == AbsStates(START, events)[x].keys
  {
    hide SpecNext, Next, EventLabel, Abs;
    var states, labels := AbsStates(START, events), Labels(START, events);
    StartHasInv();
    AbsOfStart();
    RunRefines(START, events);
    StatusIs(Run(START, events).value, p);
    var i;
    h, i := AnswerTookEffect(states, labels, |events|, p);
    forall x | h < x < |events| && events[x].By? && events[x].p == p ensures states[x + 1].keys == states[x].keys {
      RunAt(START, events, x);
      OwnLabel(Run(START, events[..x]).value, p, events[x].step);
      OnlySuccessChanges(states[x], labels[x], states[x + 1]);
    }
  }

  // ----- published blobs

  /**
   In every reachable state a bound key path leads to one complete, durable blob, which its owner may
   read and write, and nobody else may do anything with.
   */
  lemma PublishedIsWhole(events: seq<Event>, n: bytes)
    requires Run(START, events).Some?
    requires BlobFile(n) in Run(START, events).value.fs.dir
    ensures var fs := Run(START, events).value.fs; var ino := fs.dir[BlobFile(n)];
            && ino < |fs.inodes| && fs.inodes[ino].synced
            && fs.inodes[ino].mode / 64 == 6 && fs.inodes[ino].mode % 64 == 0
            && Fits(KeyOf(fs.inodes[ino])) && fs.inodes[ino].data == Encode(KeyOf(fs.inodes[ino]))
  {
    StartHasInv();
    RunKeepsInv(START, events);
    KeyAt(Run(START, events).value.fs, n);
    BlobFileIsNotTemp(n);
    assert GoodEntry(Run(START, events).value.fs.inodes, BlobFile(n), Run(START, events).value.fs.dir[BlobFile(n)]);
  }

  /** Once synced, an inode is never written again: not by a process, not by a crash. */
  lemma {:induction false} SyncedInodeForever(s: State, events: seq<Event>, ino: nat)
    requires Inv(s) && Run(s, events).Some? && ino < |s.fs.inodes| && s.fs.inodes[ino].synced
    ensures var t := Run(s, events).value;
            ino < |t.fs.inodes| && t.fs.inodes[ino] == s.fs.inodes[ino]
  {
    if events == [] {
    } else {
      var before, e := events[..|events| - 1], events[|events| - 1];
      SyncedInodeForever(s, before, ino);
      RunKeepsInv(s, before);
      InodesGrow(Run(s, before).value, e);
    }
  }

  lemma InodesGrow(s: State, e: Event)
    requires Inv(s) && Next(s, e).Some?
    ensures Grown(s.fs.inodes, Next(s, e).value.fs.inodes)
  {
    match e
    case By(p, step) =>
      hide FsInv, PcInv, Act;
      PcHolds(s, p);
      ActIsGood(s.fs, PcOf(s, p), step);
      EffectGrows(s.fs, Act(s.fs, PcOf(s, p), step).value.effect);
    case _ =>
  }

  /** A bound key path is never rebound, and only a delete of its own name unbinds it. */
  lemma BindingStays(s: State, e: Event, f: string)
    requires Inv(s) && Next(s, e).Some? && !e.PowerLoss?
    requires f in s.fs.dir && !IsTempFile(f)
    ensures var dir := Next(s, e).value.fs.dir;
            if f in dir then dir[f] == s.fs.dir[f]
            else e.By? && e.step == RemoveOk && PcOf(s, e.p).Remove? && f == BlobFile(PcOf(s, e.p).name)
  {
    match e
    case By(p, step) =>
      hide FsInv, PcInv, IsTempFile, BlobFile, Act, Perform, Permitted, Confined;
      PcHolds(s, p);
      ActIsGood(s.fs, PcOf(s, p), step);
      if PcOf(s, p).Remove? { DeleteDrops(s.fs, PcOf(s, p), step); }
      EffectOnName(s.fs, PcOf(s, p), Act(s.fs, PcOf(s, p), step).value.effect, f);
    case _ =>
  }

  lemma EffectOnName(fs: Fs, pc: Pc, e: Effect, f: string)
    requires Permitted(fs, e) && Confined(pc, e) && f in fs.dir && !IsTempFile(f)
    ensures var dir := Perform(fs, e).dir;
            if f in dir then dir[f] == fs.dir[f] else e == Drop(f) && pc.Remove? && f == BlobFile(pc.name)
  {
    hide IsTempFile, BlobFile, Sealed;
  }

  lemma DeleteDrops(fs: Fs, pc: Pc, step: Step)
    requires pc.Remove? && Act(fs, pc, step).Some?
    ensures Act(fs, pc, step).value.effect.Drop? <==> step == RemoveOk
  {
    hide BlobFile;
  }

  // ----- temporary files

  /** Removing a temporary name removes the process's own file, and no other process's and no key. */
  lemma OwnTempOnly(s: State, p: nat)
    requires Inv(s) && Next(s, By(p, UnlinkOk)).Some?
    ensures var pc := PcOf(s, p);
            && Owner(pc) && IsTempFile(pc.tmp) && pc.tmp in s.fs.dir && s.fs.dir[pc.tmp] == pc.ino
            && Next(s, By(p, UnlinkOk)).value.fs.dir == s.fs.dir - {pc.tmp}
            && (forall q :: q in s.procs && q != p && Owner(s.procs[q]) ==> s.procs[q].tmp != pc.tmp)
            && (forall n :: BlobFile(n) != pc.tmp)
  {
    hide FsInv, StageInv, NamesWithin, BlobFile, Encode;
    PcHolds(s, p);
    forall q | q in s.procs && q != p && Owner(s.procs[q]) ensures s.procs[q].tmp != PcOf(s, p).tmp {
      PcHolds(s, q);
      assert Apart(s.procs[p], s.procs[q]);
    }
    forall n ensures BlobFile(n) != PcOf(s, p).tmp { BlobFileIsNotTemp(n); }
  }

  /** At its end a failed create has left no name of its file exactly when its cleanup's remove succeeded. */
  lemma FailedCreateLeavesNothing(s: State, p: nat, step: Step)
    requires Inv(s) && PcOf(s, p).Cleanup? && Next(s, By(p, step)).Some?
    ensures NamesWithin(Next(s, By(p, step)).value.fs.dir, PcOf(s, p).ino, {}) <==> step == UnlinkOk
  {
    hide FsInv, StageInv, BlobFile, IsTempFile, Encode, Decode;
    PcHolds(s, p);
    var pc, t := PcOf(s, p), Next(s, By(p, step)).value;
    if step != UnlinkOk {
      assert pc.tmp in t.fs.dir && t.fs.dir[pc.tmp] == pc.ino;
    }
  }

  /** A successful create leaves its inode reachable only by the key path exactly when that remove succeeds. */
  lemma CreatedOnlyAtKeyPath(s: State, p: nat, step: Step)
    requires Inv(s) && PcOf(s, p).File? && PcOf(s, p).stage == Unlink && Next(s, By(p, step)).Some?
    ensures NamesWithin(Next(s, By(p, step)).value.fs.dir, PcOf(s, p).ino, {BlobFile(PcOf(s, p).name)}) <==> step == UnlinkOk
  {
    hide FsInv, StageInv, BlobFile, IsTempFile, Encode;
    PcHolds(s, p);
    var pc, t := PcOf(s, p), Next(s, By(p, step)).value;
    BlobFileIsNotTemp(pc.name);
    if step != UnlinkOk {
      assert pc.tmp in t.fs.dir && t.fs.dir[pc.tmp] == pc.ino;
    }
  }

  /** A removed temporary name can come back in a crash that lets its binding through and its removal not. */
  lemma RemovedTempMayReturn(s: State, p: nat)
    requires Inv(s) && PcOf(s, p).Cleanup? && Next(s, By(p, UnlinkOk)).Some?
    ensures MayReturn(Next(s, By(p, UnlinkOk)).value.fs, PcOf(s, p).tmp, PcOf(s, p).ino)
  {
    hide Act, PcInv, Replay;
    PcHolds(s, p);
    CleanupOwns(s.fs, PcOf(s, p));
    AfterCleanup(s, p);
    var fs := Next(s, By(p, UnlinkOk)).value.fs;
    assert fs.pending[..|s.fs.pending|] == s.fs.pending;
    NameAfterCrashIff(fs, PcOf(s, p).tmp, PcOf(s, p).ino);
  }

  lemma CleanupOwns(fs: Fs, pc: Pc)
    requires PcInv(fs, pc) && pc.Cleanup?
    ensures pc.tmp in fs.dir && fs.dir[pc.tmp] == pc.ino
  {
  }

  lemma AfterCleanup(s: State, p: nat)
    requires PcOf(s, p).Cleanup? && Next(s, By(p, UnlinkOk)).Some?
    ensures Next(s, By(p, UnlinkOk)).value.fs == Perform(s.fs, Drop(PcOf(s, p).tmp))
  {
    hide Encode, Decode;
  }

  /** After the next directory sync it cannot. */
  lemma SyncedRemovalStays(s: State, p: nat, f: string, ino: nat)
    requires Inv(s) && Next(s, By(p, FolderSyncOk)).Some? && f !in s.fs.dir
    ensures !MayReturn(Next(s, By(p, FolderSyncOk)).value.fs, f, ino)
  {
    hide Act;
    AfterFolderSync(s, p);
    NameAfterCrashIff(Next(s, By(p, FolderSyncOk)).value.fs, f, ino);
  }

  /** Every temporary name belongs to a process that will still remove it. */
  ghost predicate Claimed(s: State) {
    forall f :: f in s.fs.dir && IsTempFile(f) ==> exists p :: ClaimedBy(s, f, p)
  }

  predicate ClaimedBy(s: State, f: string, p: nat) {
    p in s.procs && Owner(s.procs[p]) && s.procs[p].tmp == f
  }

  /** No removal of a temporary name fails, no process dies, and the power stays. */
  predicate Orderly(e: Event) {
    (e.By? && e.step != UnlinkError) || e == Settle
  }

  lemma OwnerMoves(fs: Fs, pc: Pc, step: Step)
    requires Act(fs, pc, step).Some? && step != UnlinkError
    ensures var a := Act(fs, pc, step).value;
            && (Owner(pc) ==> a.effect == Drop(pc.tmp) || (Owner(a.pc) && a.pc.tmp == pc.tmp))
            && (a.effect.NewFile? ==> Owner(a.pc) && a.pc.tmp == a.effect.file && !Owner(pc))
  {
    if pc.File? {
      FileMoves(fs, pc, step);
    } else {
      hide Encode, Decode, BlobFile, IsTempFile, ActFile;
    }
  }

  lemma FileMoves(fs: Fs, pc: Pc, step: Step)
    requires pc.File? && ActFile(fs, pc, step).Some? && step != UnlinkError
    ensures var a := ActFile(fs, pc, step).value;
            && !a.effect.NewFile? && (a.effect == Drop(pc.tmp) || (Owner(a.pc) && a.pc.tmp == pc.tmp))
  {
    hide Encode, Decode, BlobFile;
  }

  lemma OrderlyKeepsClaimed(s: State, e: Event)
    requires Inv(s) && Claimed(s) && Orderly(e) && Next(s, e).Some?
    ensures Claimed(Next(s, e).value)
  {
    hide FsInv, PcInv, IsTempFile, BlobFile, Act, Sealed;
    var t := Next(s, e).value;
    match e
    case By(p, step) =>
      PcHolds(s, p);
      ActIsGood(s.fs, PcOf(s, p), step);
      OwnerMoves(s.fs, PcOf(s, p), step);
      var a := Act(s.fs, PcOf(s, p), step).value;
      forall f | f in t.fs.dir && IsTempFile(f) ensures exists q :: ClaimedBy(t, f, q) {
        if f in s.fs.dir {
          var q :| ClaimedBy(s, f, q);
          assert ClaimedBy(t, f, q);
        } else {
          assert ClaimedBy(t, f, p);
        }
      }
    case Settle =>
      forall f | f in t.fs.dir && IsTempFile(f) ensures exists q :: ClaimedBy(t, f, q) {
        var q :| ClaimedBy(s, f, q);
        assert ClaimedBy(t, f, q);
      }
  }

  /** As long as nothing of that happens, no temporary file is ever left without a process that removes it. */
  lemma {:induction false} NoStrayTemps(events: seq<Event>)
    requires Run(START, events).Some? && forall i :: 0 <= i < |events| ==> Orderly(events[i])
    ensures Claimed(Run(START, events).value)
  {
    if events == [] {
    } else {
      var before := events[..|events| - 1];
      hide Claimed, Next, Inv;
      NoStrayTemps(before);
      StartHasInv();
      RunKeepsInv(START, before);
      OrderlyKeepsClaimed(Run(START, before).value, events[|events| - 1]);
    }
  }

  // ----- durability

  lemma AfterFolderSync(s: State, p: nat)
    requires Next(s, By(p, FolderSyncOk)).Some?
    ensures Next(s, By(p, FolderSyncOk)).value.fs == Perform(s.fs, SyncFolder)
  {
    hide Encode, Decode;
  }

  /** A key present when the directory is synced in a durable store survives until it is deleted. */
  lemma SyncedKeySurvives(s: State, p: nat, events: seq<Event>, n: bytes)
    requires Inv(s) && Next(s, By(p, FolderSyncOk)).Some? && s.fs.folder == Durable && BlobFile(n) in s.fs.dir
    requires Run(Next(s, By(p, FolderSyncOk)).value, events).Some?
    requires forall l :: l in Labels(Next(s, By(p, FolderSyncOk)).value, events) ==> !Removes(l, n)
    ensures var u := Run(Next(s, By(p, FolderSyncOk)).value, events).value;
            && BlobFile(n) in u.fs.dir && u.fs.dir[BlobFile(n)] < |u.fs.inodes|
            && KeyOf(u.fs.inodes[u.fs.dir[BlobFile(n)]]) == KeysIn(s.fs.inodes, s.fs.dir)[n]
  {
    hide Next, Act, KeysIn, KeyOf, Recent, StatusesOf, BlobFile, FsInv, Moment, Run;
    var t := Next(s, By(p, FolderSyncOk)).value;
    StepKeepsInv(s, p, FolderSyncOk);
    AfterFolderSync(s, p);
    RunRefines(t, events);
    RunKeepsInv(t, events);
    RecentAfterSync(s.fs);
    KeyAt(s.fs, n);
    LastMoment(t.fs);
    SecuredKept(AbsStates(t, events), Labels(t, events), n, KeysIn(s.fs.inodes, s.fs.dir)[n]);
    KeyAt(Run(t, events).value.fs, n);
  }

  /** The directory sync makes a key survive every crash exactly when the store directory is durable. */
  lemma SyncSurvivesCrashIff(s: State, p: nat, n: bytes)
    requires Inv(s) && Next(s, By(p, FolderSyncOk)).Some? && BlobFile(n) in s.fs.dir
    ensures var fs := Next(s, By(p, FolderSyncOk)).value.fs;
            (forall mask, after, lost :: CrashPossible(fs, mask, after, lost) ==> BlobFile(n) in Crash(fs, mask, after, lost).dir)
            <==> fs.folder == Durable
  {
    hide BlobFile, Act, FsInv, Next;
    AfterFolderSync(s, p);
    var fs := Next(s, By(p, FolderSyncOk)).value.fs;
    if fs.folder != Durable {
      assert CrashPossible(fs, [], fs.inodes, true);
      assert BlobFile(n) !in Crash(fs, [], fs.inodes, true).dir;
    }
  }

  // ----- "already exists"

  predicate Reports(fs: Fs, pc: Pc, step: Step) {
    && FsInv(fs) && PcInv(fs, pc) && Act(fs, pc, step).Some?
    && StatusAt(fs.inodes, pc).Pending?
    && StatusAt(fs.inodes, Act(fs, pc, step).value.pc) == Ready(StatusAt(fs.inodes, pc).call, AlreadyExists)
  }

  /**
   A step that makes createKey report "already exists" can be relied on, whatever the directory,
   exactly when it is not MkdirAll or CreateTemp failing with EEXIST.
   */
  lemma AlreadyExistsReliableIff(fs: Fs, pc: Pc, step: Step)
    requires Reports(fs, pc, step)
    ensures (forall gs :: Reports(gs, pc, step) ==> BlobFile(pc.name) in gs.dir)
            <==> step !in {MkdirError(EEXIST), TempError(EEXIST)}
  {
    hide KeyOf, Encode, Decode, Replay, BlobFile, IsTempFile;
    if step == MkdirError(EEXIST) {
      assert FsInv(EMPTY) by { EmptyIsGood(); }
      assert Reports(EMPTY, pc, step);
    } else if step == TempError(EEXIST) {
      var fs0 := EMPTY.(folder := Fresh);
      assert FsInv(fs0) by { EmptyIsGood(); }
      assert Reports(fs0, pc, step);
    } else {
      forall gs | Reports(gs, pc, step) ensures BlobFile(pc.name) in gs.dir { ReliableReport(gs, pc, step); }
    }
  }

  lemma EmptyIsGood()
    ensures FsInv(EMPTY) && FsInv(EMPTY.(folder := Fresh))
  {
  }

  lemma ReliableReport(fs: Fs, pc: Pc, step: Step)
    requires Reports(fs, pc, step) && step !in {MkdirError(EEXIST), TempError(EEXIST)}
    ensures BlobFile(pc.name) in fs.dir
  {
    hide KeyOf, Encode, Decode, Replay, BlobFile, IsTempFile, FsInv, PcInv;
  }

  lemma RunOne(s: State, events: seq<Event>, e: Event)
    ensures Run(s, events + [e]) == match Run(s, events) case None => None case Some(t) => Next(t, e)
  {
    assert (events + [e])[..|events|] == events;
  }
}
