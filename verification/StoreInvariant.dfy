/** What holds in every reachable state of the store protocol, crashes included. */
module StoreInvariant {
  import opened AtomicStore
  import opened Bytes
  import opened BlobCodec
  import opened Naming
  import opened FileSystem
  import opened StoreProtocol

  // ----- the file system

  predicate Whole(d: bytes) {
    Decode(d).Ok? && Fits(Decode(d).value) && d == Encode(Decode(d).value)
  }

  /** A published inode: one complete blob, readable by its owner only, and durable. */
  predicate Sealed(i: Inode) {
    i.synced && i.mode == OWNER_ONLY && Whole(i.data)
  }

  predicate GoodEntry(inodes: seq<Inode>, f: string, ino: nat) {
    ino < |inodes| && (!IsTempFile(f) ==> Sealed(inodes[ino]))
  }

  predicate GoodDir(inodes: seq<Inode>, d: Binding) {
    forall f :: f in d ==> GoodEntry(inodes, f, d[f])
  }

  predicate GoodOps(inodes: seq<Inode>, ops: seq<DirOp>) {
    forall j :: 0 <= j < |ops| && ops[j].Bind? ==> GoodEntry(inodes, ops[j].file, ops[j].ino)
  }

  predicate FsInv(fs: Fs) {
    && fs.dir == Replay(fs.disk, fs.pending)
    && GoodDir(fs.inodes, fs.dir)
    && GoodDir(fs.inodes, fs.disk)
    && GoodOps(fs.inodes, fs.pending)
    && (fs.folder == Missing ==> fs.dir == map[] && fs.disk == map[] && fs.pending == [])
  }

  /** The effects that respect the store: new names are temporary, published inodes stay as they are. */
  predicate Permitted(fs: Fs, e: Effect) {
    match e
    case Nothing | MakeFolder | SyncFolder => true
    case NewFile(f, _) => IsTempFile(f) && f !in fs.dir && fs.folder != Missing
    case Edit(ino, _) => ino < |fs.inodes| && !fs.inodes[ino].synced
    case Add(f, ino) => !IsTempFile(f) && f !in fs.dir && ino < |fs.inodes| && Sealed(fs.inodes[ino]) && fs.folder != Missing
    case Drop(f) => f in fs.dir
  }

  lemma BindKeepsFs(fs: Fs, f: string, ino: nat)
    requires FsInv(fs) && fs.folder != Missing && GoodEntry(fs.inodes, f, ino)
    ensures FsInv(Bound(fs, f, ino))
  {
    hide GoodEntry;
    ReplayAppend(fs.disk, fs.pending, Bind(f, ino));
  }

  lemma DropKeepsFs(fs: Fs, f: string)
    requires FsInv(fs) && f in fs.dir
    ensures FsInv(Perform(fs, Drop(f)))
  {
    hide GoodEntry;
    ReplayAppend(fs.disk, fs.pending, Unbind(f));
  }

  predicate Grown(a: seq<Inode>, b: seq<Inode>) {
    |a| <= |b| && forall i :: 0 <= i < |a| && a[i].synced ==> b[i] == a[i]
  }

  lemma GrownKeepsFs(fs: Fs, inodes: seq<Inode>)
    requires FsInv(fs) && Grown(fs.inodes, inodes)
    ensures FsInv(fs.(inodes := inodes))
  {
    hide Replay, Whole, IsTempFile;
  }

  lemma PermittedKeepsFs(fs: Fs, e: Effect)
    requires FsInv(fs) && Permitted(fs, e)
    ensures FsInv(Perform(fs, e))
    ensures e != SyncFolder ==>
              && Perform(fs, e).disk == fs.disk && fs.pending <= Perform(fs, e).pending
              && |Perform(fs, e).pending| <= |fs.pending| + 1
  {
    hide Sealed, IsTempFile;
    match e
    case NewFile(f, mode) =>
      var inodes := fs.inodes + [Inode([], mode, false)];
      GrownKeepsFs(fs, inodes);
      BindKeepsFs(fs.(inodes := inodes), f, |fs.inodes|);
    case Edit(ino, inode) => GrownKeepsFs(fs, fs.inodes[ino := inode]);
    case Add(f, ino) => BindKeepsFs(fs, f, ino);
    case Drop(f) => DropKeepsFs(fs, f);
    case _ =>
  }

  lemma {:induction false} ReplayGood(inodes: seq<Inode>, d: Binding, ops: seq<DirOp>)
    requires GoodDir(inodes, d) && GoodOps(inodes, ops)
    ensures GoodDir(inodes, Replay(d, ops))
  {
    if ops == [] {
    } else {
      ReplayGood(inodes, d, ops[..|ops| - 1]);
    }
  }

  lemma {:induction false} KeptGood(inodes: seq<Inode>, ops: seq<DirOp>, mask: seq<bool>)
    requires |mask| == |ops| && GoodOps(inodes, ops)
    ensures GoodOps(inodes, Kept(ops, mask))
  {
    if ops == [] {
    } else {
      KeptGood(inodes, ops[..|ops| - 1], mask[..|ops| - 1]);
    }
  }

  /** Whatever a crash leaves, every key path is absent or leads to one complete durable blob. */
  lemma CrashKeepsFs(fs: Fs, mask: seq<bool>, after: seq<Inode>, lost: bool)
    requires FsInv(fs) && CrashPossible(fs, mask, after, lost)
    ensures FsInv(Crash(fs, mask, after, lost))
  {
    if !lost {
      var ops := Kept(fs.pending, mask);
      KeptGood(fs.inodes, fs.pending, mask);
      ReplayGood(fs.inodes, fs.disk, ops);
      assert GoodDir(after, Replay(fs.disk, ops));
      if fs.pending == [] {
        assert ops == [];
      }
    }
  }

  // ----- the processes

  /** Holding a temporary file of its own. */
  predicate Owner(pc: Pc) {
    pc.File? || pc.Cleanup?
  }

  predicate Owns(fs: Fs, tmp: string, ino: nat) {
    IsTempFile(tmp) && tmp in fs.dir && fs.dir[tmp] == ino && ino < |fs.inodes|
  }

  /** The inode has no other names in the directory than these. */
  predicate NamesWithin(d: Binding, ino: nat, names: set<string>) {
    forall f :: f in d && d[f] == ino ==> f in names
  }

  predicate StageInv(i: Inode, st: Stage, k: Key) {
    && i.data == (if st in {Chmod, Write} then [] else Encode(k))
    && (st != Chmod ==> i.mode == OWNER_ONLY)
    && i.synced == (st in {Close, Link, Unlink})
  }

  predicate PcInv(fs: Fs, pc: Pc) {
    match pc
    case Mkdir(_, k) => Fits(k)
    case Temp(_, k) => Fits(k) && fs.folder != Missing
    case File(st, n, k, tmp, ino) =>
      && Fits(k) && Owns(fs, tmp, ino) && StageInv(fs.inodes[ino], st, k)
      && NamesWithin(fs.dir, ino, if st == Unlink then {tmp, BlobFile(n)} else {tmp})
    case Cleanup(_, _, tmp, ino) => Owns(fs, tmp, ino) && NamesWithin(fs.dir, ino, {tmp})
    case FolderSync(_, k) => Fits(k)
    case Read(_, ino, got) => ino < |fs.inodes| && Sealed(fs.inodes[ino]) && got <= fs.inodes[ino].data
    case Unwrap(_, k) => Fits(k)
    case _ => true
  }

  predicate Apart(a: Pc, b: Pc) {
    Owner(a) && Owner(b) ==> a.ino != b.ino
  }

  predicate Inv(s: State) {
    && FsInv(s.fs)
    && (forall p :: p in s.procs ==> PcInv(s.fs, s.procs[p]))
    && (forall p, q :: p in s.procs && q in s.procs && p != q ==> Apart(s.procs[p], s.procs[q]))
  }

  /** What a process at `pc` confines itself to: its own inode, its own temporary name, the key it deletes. */
  predicate Confined(pc: Pc, e: Effect) {
    && (e.Edit? ==> Owner(pc) && e.ino == pc.ino)
    && (e.Add? ==> Owner(pc) && e.ino == pc.ino)
    && (e.Drop? ==> if IsTempFile(e.file) then Owner(pc) && e.file == pc.tmp
                   else pc.Remove? && e.file == BlobFile(pc.name))
  }

  lemma SealedByEncode(i: Inode, k: Key)
    requires Fits(k) && i.data == Encode(k) && i.synced && i.mode == OWNER_ONLY
    ensures Sealed(i) && Decode(i.data) == Ok(k)
  {
    RoundTrip(k);
  }

  predicate ActionIsGood(fs: Fs, pc: Pc, a: Action) {
    && Permitted(fs, a.effect) && Confined(pc, a.effect)
    && PcInv(Perform(fs, a.effect), a.pc)
    && (Owner(a.pc) ==> if Owner(pc) then a.pc.ino == pc.ino else a.effect.NewFile? && a.pc.ino == |fs.inodes|)
  }

  lemma ActWriteIsGood(fs: Fs, pc: Pc, s: Step)
    requires FsInv(fs) && PcInv(fs, pc) && pc.File? && pc.stage in {Chmod, Write} && ActFile(fs, pc, s).Some?
    ensures ActionIsGood(fs, pc, ActFile(fs, pc, s).value)
  {
    hide Replay, Encode, Decode, Whole, GoodDir, GoodOps, IsTempFile, BlobFile;
    assert [] + Encode(pc.key) == Encode(pc.key);
  }

  lemma ActSyncIsGood(fs: Fs, pc: Pc, s: Step)
    requires FsInv(fs) && PcInv(fs, pc) && pc.File? && pc.stage in {Sync, Close} && ActFile(fs, pc, s).Some?
    ensures ActionIsGood(fs, pc, ActFile(fs, pc, s).value)
  {
    hide Replay, Encode, Decode, Whole, GoodDir, GoodOps, IsTempFile, BlobFile;
  }

  lemma ActLinkIsGood(fs: Fs, pc: Pc, s: Step)
    requires FsInv(fs) && PcInv(fs, pc) && pc.File? && pc.stage == Link && ActFile(fs, pc, s).Some?
    ensures ActionIsGood(fs, pc, ActFile(fs, pc, s).value)
  {
    hide Replay, GoodDir, GoodOps, Encode, Decode, Whole, Sealed, IsTempFile, BlobFile;
    SealedByEncode(fs.inodes[pc.ino], pc.key);
    BlobFileIsNotTemp(pc.name);
    assert fs.folder != Missing;
  }

  lemma ActUnlinkIsGood(fs: Fs, pc: Pc, s: Step)
    requires FsInv(fs) && PcInv(fs, pc) && pc.File? && pc.stage == Unlink && ActFile(fs, pc, s).Some?
    ensures ActionIsGood(fs, pc, ActFile(fs, pc, s).value)
  {
    hide Replay, GoodDir, GoodOps, Encode, Decode, Whole, Sealed, IsTempFile, BlobFile;
  }

  lemma ActFileIsGood(fs: Fs, pc: Pc, s: Step)
    requires FsInv(fs) && PcInv(fs, pc) && pc.File? && ActFile(fs, pc, s).Some?
    ensures ActionIsGood(fs, pc, ActFile(fs, pc, s).value)
  {
    match pc.stage
    case Chmod | Write => ActWriteIsGood(fs, pc, s);
    case Sync | Close => ActSyncIsGood(fs, pc, s);
    case Link => ActLinkIsGood(fs, pc, s);
    case Unlink => ActUnlinkIsGood(fs, pc, s);
  }

  lemma ActIsGood(fs: Fs, pc: Pc, s: Step)
    requires FsInv(fs) && PcInv(fs, pc) && Act(fs, pc, s).Some?
    ensures ActionIsGood(fs, pc, Act(fs, pc, s).value)
  {
    match pc
    case File(_, _, _, _, _) => ActFileIsGood(fs, pc, s);
    case Stat(_) | Tpm(_) | Mkdir(_, _) | Temp(_, _) => ActBeforeIsGood(fs, pc, s);
    case Open(_) | Read(_, _, _) | Unwrap(_, _) => ActLoadIsGood(fs, pc, s);
    case _ => ActRestIsGood(fs, pc, s);
  }

  lemma ActLoadIsGood(fs: Fs, pc: Pc, s: Step)
    requires FsInv(fs) && PcInv(fs, pc) && (pc.Open? || pc.Read? || pc.Unwrap?) && ActLoad(fs, pc, s).Some?
    ensures ActionIsGood(fs, pc, ActLoad(fs, pc, s).value)
  {
    match pc
    case Open(n) => BlobFileIsNotTemp(n);
    case Read(_, _, _) => ReadIsGood(fs, pc, s);
    case Unwrap(_, _) =>
  }

  lemma ActRestIsGood(fs: Fs, pc: Pc, s: Step)
    requires FsInv(fs) && PcInv(fs, pc) && (pc.Idle? || pc.FolderSync? || pc.Cleanup? || pc.Remove? || pc.Done?)
    requires Act(fs, pc, s).Some?
    ensures ActionIsGood(fs, pc, Act(fs, pc, s).value)
  {
    hide Replay, Encode, Decode, Whole, GoodDir, GoodOps, IsTempFile, BlobFile;
    if pc.Remove? {
      BlobFileIsNotTemp(pc.name);
    }
  }

  lemma ActBeforeIsGood(fs: Fs, pc: Pc, s: Step)
    requires FsInv(fs) && PcInv(fs, pc) && (pc.Stat? || pc.Tpm? || pc.Mkdir? || pc.Temp?)
    requires ActBefore(fs, pc, s).Some?
    ensures ActionIsGood(fs, pc, ActBefore(fs, pc, s).value)
  {
    hide Replay, Encode, Decode, Whole, GoodOps, IsTempFile, BlobFile;
  }

  lemma ReadIsGood(fs: Fs, pc: Pc, s: Step)
    requires FsInv(fs) && PcInv(fs, pc) && pc.Read? && ActLoad(fs, pc, s).Some?
    ensures var a := ActLoad(fs, pc, s).value;
            a.effect == Nothing && PcInv(fs, a.pc) && !Owner(a.pc)
    ensures s == ReadEnd ==> ActLoad(fs, pc, s) == Some(Action(Nothing, Unwrap(pc.name, Decode(fs.inodes[pc.ino].data).value)))
  {
    var data := fs.inodes[pc.ino].data;
    if s == ReadEnd {
      assert pc.got == data;
    }
    if s.ReadSome? {
      assert pc.got + data[|pc.got|..|pc.got| + s.n] == data[..|pc.got| + s.n];
    }
  }

  /** What one process may do leaves what every other process relies on. */
  lemma OthersKeep(fs: Fs, e: Effect, mine: Pc, other: Pc)
    requires FsInv(fs) && Permitted(fs, e) && Confined(mine, e)
    requires PcInv(fs, mine) && PcInv(fs, other) && Apart(mine, other)
    ensures PcInv(Perform(fs, e), other)
  {
    hide Replay, GoodDir, GoodOps, Whole, Encode, IsTempFile, BlobFile;
    if Owner(other) {
      if e.Drop? {
        assert e.file != other.tmp;
      }
    }
  }

  lemma PcHolds(s: State, p: nat)
    requires Inv(s)
    ensures PcInv(s.fs, PcOf(s, p))
  {
  }

  lemma StepKeepsInv(s: State, p: nat, step: Step)
    requires Inv(s) && Next(s, By(p, step)).Some?
    ensures Inv(Next(s, By(p, step)).value)
  {
    var pc := PcOf(s, p);
    var a := Act(s.fs, pc, step).value;
    var t := Next(s, By(p, step)).value;
    ActIsGood(s.fs, pc, step);
    PermittedKeepsFs(s.fs, a.effect);
    forall q | q in t.procs ensures PcInv(t.fs, t.procs[q]) {
      if q != p { OthersKeep(s.fs, a.effect, pc, s.procs[q]); }
    }
    forall q | q in s.procs && q != p ensures Apart(a.pc, s.procs[q]) && Apart(s.procs[q], a.pc) {
      assert PcInv(s.fs, s.procs[q]);
    }
  }

  lemma NextKeepsInv(s: State, e: Event)
    requires Inv(s) && Next(s, e).Some?
    ensures Inv(Next(s, e).value)
  {
    match e
    case By(p, step) => StepKeepsInv(s, p, step);
    case Kill(p) =>
    case Settle =>
      forall q | q in s.procs ensures PcInv(Next(s, e).value.fs, s.procs[q]) {
        assert PcInv(s.fs, s.procs[q]);
      }
    case PowerLoss(mask, after, lost) => CrashKeepsFs(s.fs, mask, after, lost);
  }

  /** Every state that any interleaving of processes, failures and crashes reaches satisfies Inv. */
  lemma {:induction false} RunKeepsInv(s: State, events: seq<Event>)
    requires Inv(s) && Run(s, events).Some?
    ensures Inv(Run(s, events).value)
  {
    if events == [] {
    } else {
      RunKeepsInv(s, events[..|events| - 1]);
      NextKeepsInv(Run(s, events[..|events| - 1]).value, events[|events| - 1]);
    }
  }

  lemma StartHasInv()
    ensures Inv(START)
  {
  }
}
