/**
 The store directory as the operating system keeps it: names bound to inodes, what of that is
 already on disk, and what a crash may leave.
 */
module FileSystem {
  import opened Bytes

  type Binding = map<string, nat>

  /** `synced` says that a file sync made the present contents and mode durable. */
  datatype Inode = Inode(data: bytes, mode: nat, synced: bool)

  /** A directory change that is visible but not yet durable. */
  datatype DirOp = Bind(file: string, ino: nat) | Unbind(file: string)

  /** The store directory itself: not there, there but not yet durable in its parent, or durable. */
  datatype Folder = Missing | Fresh | Durable

  datatype Fs = Fs(dir: Binding, disk: Binding, pending: seq<DirOp>, inodes: seq<Inode>, folder: Folder)

  const EMPTY := Fs(map[], map[], [], [], Missing)

  /** What a single step of a process does to the file system. */
  datatype Effect =
    | Nothing
    | MakeFolder
    | NewFile(file: string, mode: nat)
    | Edit(ino: nat, inode: Inode)
    | Add(file: string, ino: nat)
    | Drop(file: string)
    | SyncFolder

  function Perform(fs: Fs, e: Effect): Fs {
    match e
    case Nothing => fs
    case MakeFolder => if fs.folder == Missing then fs.(folder := Fresh) else fs
    case NewFile(f, mode) => Bound(fs.(inodes := fs.inodes + [Inode([], mode, false)]), f, |fs.inodes|)
    case Edit(ino, inode) => if ino < |fs.inodes| then fs.(inodes := fs.inodes[ino := inode]) else fs
    case Add(f, ino) => Bound(fs, f, ino)
    case Drop(f) => fs.(dir := fs.dir - {f}, pending := fs.pending + [Unbind(f)])
    case SyncFolder => fs.(disk := fs.dir, pending := [])
  }

  function Bound(fs: Fs, f: string, ino: nat): Fs {
    fs.(dir := fs.dir[f := ino], pending := fs.pending + [Bind(f, ino)])
  }

  function ApplyOp(d: Binding, op: DirOp): Binding {
    match op
    case Bind(f, ino) => d[f := ino]
    case Unbind(f) => d - {f}
  }

  function Replay(d: Binding, ops: seq<DirOp>): Binding {
    if ops == [] then d else ApplyOp(Replay(d, ops[..|ops| - 1]), ops[|ops| - 1])
  }

  /** The operations that a crash lets through: any subset, in their order. */
  function Kept(ops: seq<DirOp>, mask: seq<bool>): seq<DirOp>
    requires |mask| == |ops|
  {
    if ops == [] then []
    else
      var n := |ops| - 1;
      Kept(ops[..n], mask[..n]) + if mask[n] then [ops[n]] else []
  }

  /** After a crash, inodes that were not synced may hold anything. */
  predicate Survives(before: seq<Inode>, after: seq<Inode>) {
    |after| == |before| && forall i :: 0 <= i < |before| && before[i].synced ==> after[i] == before[i]
  }

  predicate CrashPossible(fs: Fs, mask: seq<bool>, after: seq<Inode>, lost: bool) {
    |mask| == |fs.pending| && Survives(fs.inodes, after) && (lost ==> fs.folder != Durable)
  }

  /** The machine stops. The whole directory may go when its own entry was never made durable. */
  function Crash(fs: Fs, mask: seq<bool>, after: seq<Inode>, lost: bool): Fs
    requires CrashPossible(fs, mask, after, lost)
  {
    if lost then Fs(map[], map[], [], after, Missing)
    else
      var d := Replay(fs.disk, Kept(fs.pending, mask));
      Fs(d, d, [], after, fs.folder)
  }

  /** A crash may turn an inode that was not synced into anything, and let any of the pending changes through. */
  lemma CrashMayScramble(fs: Fs, mask: seq<bool>, i: nat, any: Inode)
    requires |mask| == |fs.pending| && i < |fs.inodes| && !fs.inodes[i].synced
    ensures CrashPossible(fs, mask, fs.inodes[i := any], false)
    ensures Crash(fs, mask, fs.inodes[i := any], false).inodes[i] == any
  {
  }

  predicate AgreeAt<T(==)>(a: map<string, T>, b: map<string, T>, f: string) {
    (f in a <==> f in b) && (f in a ==> a[f] == b[f])
  }

  lemma ReplayAppend(d: Binding, ops: seq<DirOp>, op: DirOp)
    ensures Replay(d, ops + [op]) == ApplyOp(Replay(d, ops), op)
  {
    assert (ops + [op])[..|ops|] == ops;
  }

  /**
   Whatever subset of the pending operations survives, each name is bound as it was at some
   moment since the last directory sync.
   */
  lemma {:induction false} CrashAgreesWithSomeMoment(d: Binding, ops: seq<DirOp>, mask: seq<bool>, f: string)
    returns (j: nat)
    requires |mask| == |ops|
    ensures j <= |ops| && AgreeAt(Replay(d, Kept(ops, mask)), Replay(d, ops[..j]), f)
  {
    if ops == [] {
      j := 0;
    } else {
      var n := |ops| - 1;
      var i := CrashAgreesWithSomeMoment(d, ops[..n], mask[..n], f);
      var kept := Kept(ops[..n], mask[..n]);
      assert ops[..n][..i] == ops[..i];
      j := i;
      if mask[n] {
        ReplayAppend(d, kept, ops[n]);
        if ops[n].file == f {
          assert ops[..n + 1] == ops;
          j := n + 1;
        }
      } else {
        assert Kept(ops, mask) == kept;
      }
    }
  }

  /** The subset that keeps just the first `j` operations. */
  function FirstOnly(n: nat, j: nat): (mask: seq<bool>)
    ensures |mask| == n
  {
    if n == 0 then [] else FirstOnly(n - 1, j) + [n <= j]
  }

  lemma {:induction false} KeptFirst(ops: seq<DirOp>, j: nat)
    requires j <= |ops|
    ensures Kept(ops, FirstOnly(|ops|, j)) == ops[..j]
  {
    if ops == [] {
    } else {
      var n := |ops| - 1;
      var mask := FirstOnly(|ops|, j);
      assert mask[..n] == FirstOnly(n, j) && mask[n] == (|ops| <= j);
      if j == |ops| {
        KeptAll(ops[..n]);
        FirstOnlyAll(n, j);
        assert ops == ops[..n] + [ops[n]];
        assert Kept(ops, mask) == Kept(ops[..n], mask[..n]) + [ops[n]];
      } else {
        KeptFirst(ops[..n], j);
        assert ops[..n][..j] == ops[..j];
      }
    }
  }

  lemma {:induction false} FirstOnlyAll(n: nat, j: nat)
    requires n <= j
    ensures FirstOnly(n, j) == FirstOnly(n, n)
  {
    if n > 0 {
      FirstOnlyAll(n - 1, j);
      FirstOnlyAll(n - 1, n);
    }
  }

  lemma {:induction false} KeptAll(ops: seq<DirOp>)
    ensures Kept(ops, FirstOnly(|ops|, |ops|)) == ops
  {
    if ops == [] {
    } else {
      var n := |ops| - 1;
      var mask := FirstOnly(|ops|, |ops|);
      FirstOnlyAll(n, |ops|);
      assert mask[..n] == FirstOnly(n, n) && mask[n];
      KeptAll(ops[..n]);
      assert ops == ops[..n] + [ops[n]];
    }
  }

  /** Some crash can leave the name bound to this inode. */
  ghost predicate MayReturn(fs: Fs, f: string, ino: nat) {
    exists mask, after, lost :: ReturnsBy(fs, f, ino, mask, after, lost)
  }

  ghost predicate ReturnsBy(fs: Fs, f: string, ino: nat, mask: seq<bool>, after: seq<Inode>, lost: bool) {
    && CrashPossible(fs, mask, after, lost)
    && var d := Crash(fs, mask, after, lost).dir; f in d && d[f] == ino
  }

  /** A crash can leave a name bound to an inode exactly when it was so at some moment since the last directory sync. */
  lemma NameAfterCrashIff(fs: Fs, f: string, ino: nat)
    ensures MayReturn(fs, f, ino)
            <==> exists j: nat :: j <= |fs.pending| && var d := Replay(fs.disk, fs.pending[..j]); f in d && d[f] == ino
  {
    if MayReturn(fs, f, ino) {
      var mask, after, lost :| ReturnsBy(fs, f, ino, mask, after, lost);
      var j := CrashAgreesWithSomeMoment(fs.disk, fs.pending, mask, f);
      var d := Replay(fs.disk, fs.pending[..j]);
      assert f in d && d[f] == ino;
    }
    if j: nat :| j <= |fs.pending| && var d := Replay(fs.disk, fs.pending[..j]); f in d && d[f] == ino {
      KeptFirst(fs.pending, j);
      assert ReturnsBy(fs, f, ino, FirstOnly(|fs.pending|, j), fs.inodes, false);
    }
  }
}
