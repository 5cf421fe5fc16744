/** key_linux.go in its own form: createKey, loadKey, deleteKey and the signer they hand out. */
module LinuxBackend {
  import opened AtomicStore
  import opened Bytes
  import opened BlobCodec
  import opened Naming
  import opened FileSystem
  import opened StoreProtocol
  import opened StoreInvariant
  import opened LinuxSystem
  import opened SignArguments
  import opened TpmLedger
  import opened Der
  import SignerProtocol

  // ----- the protocol's moves that the code has to make

  lemma ChmodMoves(fs: Fs, n: bytes, k: Key, tmp: string, ino: nat)
    requires ino < |fs.inodes|
    ensures var at := Some(File(Chmod, n, k, tmp, ino));
            && Moved(at, fs, FileOk, Edit(ino, fs.inodes[ino].(mode := OWNER_ONLY, synced := false)))
               == Some(File(Write, n, k, tmp, ino))
            && Moved(at, fs, FileError(0), Nothing) == Some(Cleanup(n, Failed, tmp, ino))
  {
    hide Encode;
  }

  lemma WriteMoves(fs: Fs, n: bytes, k: Key, tmp: string, ino: nat, w: nat)
    requires ino < |fs.inodes| && w <= |Encode(k)|
    ensures var at := Some(File(Write, n, k, tmp, ino)); var i := fs.inodes[ino];
            && Moved(at, fs, FileOk, Edit(ino, i.(data := i.data + Encode(k), synced := false)))
               == Some(File(Sync, n, k, tmp, ino))
            && Moved(at, fs, FileError(w), Edit(ino, i.(data := i.data + Encode(k)[..w], synced := false)))
               == Some(Cleanup(n, Failed, tmp, ino))
  {
    hide Encode;
  }

  lemma SyncMoves(fs: Fs, n: bytes, k: Key, tmp: string, ino: nat)
    requires ino < |fs.inodes|
    ensures var at := Some(File(Sync, n, k, tmp, ino));
            && Moved(at, fs, FileOk, Edit(ino, fs.inodes[ino].(synced := true))) == Some(File(Close, n, k, tmp, ino))
            && Moved(at, fs, FileError(0), Nothing) == Some(Cleanup(n, Failed, tmp, ino))
  {
    hide Encode;
  }

  lemma CloseMoves(fs: Fs, n: bytes, k: Key, tmp: string, ino: nat)
    requires ino < |fs.inodes|
    ensures var at := Some(File(Close, n, k, tmp, ino));
            && Moved(at, fs, FileOk, Nothing) == Some(File(Link, n, k, tmp, ino))
            && Moved(at, fs, FileError(0), Nothing) == Some(Cleanup(n, Failed, tmp, ino))
  {
    hide Encode;
  }

  lemma LinkMoves(fs: Fs, n: bytes, k: Key, tmp: string, ino: nat)
    requires Good(fs, Some(File(Link, n, k, tmp, ino)))
    ensures var at := Some(File(Link, n, k, tmp, ino));
            && tmp in fs.dir && fs.dir[tmp] == ino
            && (BlobFile(n) !in fs.dir ==> Moved(at, fs, LinkOk, Add(BlobFile(n), ino)) == Some(File(Unlink, n, k, tmp, ino)))
            && (BlobFile(n) in fs.dir ==> Moved(at, fs, LinkExists, Nothing) == Some(Cleanup(n, AlreadyExists, tmp, ino)))
            && Moved(at, fs, LinkError, Nothing) == Some(Cleanup(n, Failed, tmp, ino))
  {
    hide Encode, BlobFile, FsInv;
  }

  lemma UnlinkMoves(fs: Fs, n: bytes, k: Key, r: Reply, tmp: string, ino: nat)
    requires IsTempFile(tmp) && ino < |fs.inodes|
    ensures forall res: RemoveResult ::
              var e := if res == Removed then Drop(tmp) else Nothing;
              && Moved(Some(File(Unlink, n, k, tmp, ino)), fs, RemoveStep(tmp, res), e) == Some(FolderSync(n, k))
              && Moved(Some(Cleanup(n, r, tmp, ino)), fs, RemoveStep(tmp, res), e) == Some(Done(Create(n), r))
              && Says(RemoveStep(tmp, res)) == Undecided
  {
    hide Encode, BlobFile, IsTempFile;
  }

  lemma StartMoves(fs: Fs, n: bytes, k: Key, e: Errno)
    ensures Moved(Some(Mkdir(n, k)), fs, MkdirOk, MakeFolder) == Some(Temp(n, k))
    ensures Moved(Some(Mkdir(n, k)), fs, MkdirError(e), Nothing) == Some(Done(Create(n), WriteError(e)))
    ensures Moved(Some(Temp(n, k)), fs, TempError(e), Nothing) == Some(Done(Create(n), WriteError(e)))
    ensures Moved(Some(FolderSync(n, k)), fs, FolderSyncOk, Effect.SyncFolder) == Some(Done(Create(n), Created(k)))
    ensures Moved(Some(FolderSync(n, k)), fs, FolderSyncError, Nothing) == Some(Done(Create(n), Created(k)))
  {
    hide Encode, BlobFile;
  }

  lemma TempMoves(fs: Fs, n: bytes, k: Key, tmp: string, mode: nat)
    requires IsTempFile(tmp) && tmp !in fs.dir && fs.folder != Missing
    ensures Moved(Some(Temp(n, k)), fs, TempOk(tmp, mode), NewFile(tmp, mode)) == Some(File(Chmod, n, k, tmp, |fs.inodes|))
  {
    hide IsTempFile;
  }

  // ----- the store

  lemma LinkedFile(fs: Fs, n: bytes, k: Key, tmp: string, ino: nat)
    requires Good(fs, Some(File(Unlink, n, k, tmp, ino)))
    ensures ino < |fs.inodes| && fs.inodes[ino].mode / 64 == 6 && fs.inodes[ino].mode % 64 == 0
    ensures fs.inodes[ino].synced && fs.inodes[ino].data == Encode(k)
  {
    hide Encode, BlobFile, FsInv;
  }

  /** The part of writeBlob that has a temporary file to clean up when it fails. */
  method CommitBlob(os: Os, f: TempFile, data: bytes, path: string, ghost n: bytes, ghost k: Key)
    returns (err: Option<Errno>)
    requires os.Valid() && f.ino < |os.fs.inodes|
    requires os.at == Some(File(Chmod, n, k, f.name, f.ino)) && data == Encode(k) && path == BlobFile(n)
    requires Decision(os.log) == Undecided
    modifies os
    ensures Decision(os.log) == OfError(err)
    ensures os.Valid() && f.ino < |os.fs.inodes|
    ensures err.None? ==> os.at == Some(File(Unlink, n, k, f.name, f.ino))
    ensures err.None? ==>
              && os.fs.inodes[f.ino].mode / 64 == 6 && os.fs.inodes[f.ino].mode % 64 == 0
              && os.fs.inodes[f.ino].synced && os.fs.inodes[f.ino].data == data
    ensures err.Some? ==> os.at == Some(Cleanup(n, WriteError(err.value), f.name, f.ino))
  {
    hide Decision, Extends, Says, Good, Act, Moved, Encode, BlobFile;
    FileStepsSay();
    ghost var seen, written;
    var ok: bool;
    ok, seen := os.Chmod(f.ino, OWNER_ONLY);
    ChmodMoves(seen, n, k, f.name, f.ino);
    if !ok {
      return Some(OTHER);
    }
    ok, seen, written := os.Write(f.ino, data);
    WriteMoves(seen, n, k, f.name, f.ino, written);
    assert ok ==> data[..written] == data;
    if !ok {
      return Some(OTHER);
    }
    ok, seen := os.Sync(f.ino);
    SyncMoves(seen, n, k, f.name, f.ino);
    if !ok {
      return Some(OTHER);
    }
    ok, seen := os.CloseFile();
    CloseMoves(seen, n, k, f.name, f.ino);
    if !ok {
      return Some(OTHER);
    }
    err, seen := os.Link(f.name, path);
    LinkMoves(seen, n, k, f.name, f.ino);
    if err.None? {
      LinkedFile(os.fs, n, k, f.name, f.ino);
    }
  }

  /**
   writeBlob: the process follows the protocol to its end and reports what the protocol reports, which
   is what the one call that decided said.
   */
  method WriteBlob(os: Os, path: string, ghost n: bytes, k: Key) returns (err: Option<Errno>)
    requires os.Valid() && os.at == Some(Mkdir(n, k)) && path == BlobFile(n) && Decision(os.log) == Undecided
    modifies os
    ensures os.Valid() && Decision(os.log) == OfError(err)
    ensures os.at == Some(Done(Create(n), if err.None? then Created(k) else WriteError(err.value)))
  {
    hide Decision, Extends, Says, Good, Act, Moved, Encode, BlobFile, IsTempFile, RemoveStep;
    CreateStepsSay();
    FileStepsSay();
    ghost var seen, mode;
    var data := FrameBlob(k);
    err, seen := os.MkdirAll();
    StartMoves(seen, n, k, if err.Some? then err.value else OTHER);
    if err.Some? {
      return;
    }
    var tmp;
    tmp, seen, mode := os.CreateTemp();
    if tmp.Err? {
      StartMoves(seen, n, k, tmp.error);
      return Some(tmp.error);
    }
    TempMoves(seen, n, k, tmp.value.name, mode);
    err := CommitBlob(os, tmp.value, data, path, n, k);
    var removed;
    removed, seen := os.Remove(tmp.value.name);
    UnlinkMoves(seen, n, k, if err.Some? then WriteError(err.value) else Failed, tmp.value.name, tmp.value.ino);
    if err.Some? {
      return;
    }
    var synced;
    synced, seen := os.SyncFolder();
    StartMoves(seen, n, k, OTHER);
  }

  // ----- the signer

  /** How SignerProtocol counts a result of Sign. */
  function Report(r: Result<bytes, SignError>): SignerProtocol.Outcome {
    match r
    case Ok(_) => SignerProtocol.Signature(0)
    case Err(SignerClosed) => SignerProtocol.SignerIsClosed
    case Err(_) => SignerProtocol.TpmError
  }

  /**
   tpmSigner; `key` stands for the public key it caches and the private area it was loaded from.
   `device` and `child` are what `tpm` and `handle` were before Close clears them.
   */
  class TpmSigner {
    var tpm: Transport?
    var handle: nat
    const key: Key
    ghost const device: Transport
    ghost const child: nat

    ghost predicate Valid()
      reads this, device
    {
      && device.Valid() && child != 0
      && if tpm != null then tpm == device && handle == child && Usable(device.Books(), child)
         else handle == 0 && !device.open && child in device.Books().released
    }

    /** The signer as SignerProtocol sees it, with its mutex free. */
    ghost function Shape(): (x: SignerProtocol.Signer)
      requires Valid()
      reads this, device
      ensures SignerProtocol.AtRest(x)
    {
      SignerProtocol.Signer(None, tpm != null, handle, child, device.log, [])
    }

    constructor (tpm: Transport, handle: nat, key: Key)
      requires tpm.Valid() && handle != 0 && Usable(tpm.Books(), handle)
      ensures Valid() && this.tpm == tpm && this.handle == handle && this.key == key
      ensures device == tpm && child == handle
    {
      this.tpm, this.handle, this.key := tpm, handle, key;
      this.device, this.child := tpm, handle;
    }

    /**
     A signature is the DER form of the pair the device made for this digest and hash with this key; a
     refusal sends nothing. What happens under the mutex is what SignerProtocol's Sign does there.
     */
    method Sign(digest: bytes, pss: bool, h: Hash) returns (r: Result<bytes, SignError>)
      requires Valid()
      modifies tpm
      ensures Valid() && tpm == old(tpm) && handle == old(handle)
      ensures Refused(pss, h, digest).None? ==>
                SignerProtocol.Section(0, old(Shape()), SignerProtocol.SignOp, Shape(), Report(r))
      ensures pss ==> r == Err(PssUnsupported)
      ensures !pss && h == OtherHash ==> r == Err(HashUnsupported)
      ensures !pss && h != OtherHash ==>
                (r == Err(WrongDigestLength)
                 <==> !((h == SHA256 && |digest| == 32) || (h == SHA384 && |digest| == 48) || (h == SHA512 && |digest| == 64)))
      ensures !pss && h != OtherHash && r != Err(WrongDigestLength) ==> r.Ok? || r in {Err(SignerClosed), Err(DeviceFailed)}
      ensures Refused(pss, h, digest).Some? ==> r == Err(Refused(pss, h, digest).value)
      ensures Refused(pss, h, digest).None? && tpm == null ==> r == Err(SignerClosed)
      ensures Refused(pss, h, digest).Some? && tpm != null ==> tpm.log == old(tpm.log)
      ensures Refused(pss, h, digest).None? && tpm != null ==>
                && tpm.log in {old(tpm.log), old(tpm.log) + [Signed(handle)]}
                && (r.Ok? || r == Err(DeviceFailed))
                && tpm.refused == if r.Ok? then old(tpm.refused) else old(tpm.refused) + [SignRequest(handle)]
      ensures r.Ok? ==>
                && tpm != null && tpm.log == old(tpm.log) + [Signed(handle)]
                && |tpm.signed| == |old(tpm.signed)| + 1 && old(tpm.signed) <= tpm.signed
                && var m := tpm.signed[|old(tpm.signed)|];
                && m.handle == handle && m.hash == h && m.digest == digest
                && DecodeSignature(r.value) == Some((Value(m.r), Value(m.s))) && 8 <= |r.value| <= 72
    {
      hide Accounts, Account, Value, Pow256, DecodeSignature, EncodeSignature, SignatureExpressible, SignerProtocol.Section;
      var refusal := Refused(pss, h, digest);
      if refusal.Some? {
        return Err(refusal.value);
      }
      SignerProtocol.SignSections(0, Shape());
      if tpm == null {
        return Err(SignerClosed);
      }
      var rs := tpm.Sign(handle, h, digest);
      if rs.None? {
        return Err(DeviceFailed);
      }
      var (rBuffer, sBuffer) := rs.value;
      SignatureLength(Value(rBuffer), Value(sBuffer));
      return Ok(LinuxDer(rBuffer, sBuffer));
    }

    /**
     Sends one flush and then closes the device, the first time, and returns what the device answered;
     afterwards does nothing.
     */
    method Close() returns (ok: bool)
      requires Valid()
      modifies this, tpm
      ensures Valid() && tpm == null
      ensures SignerProtocol.Section(0, old(Shape()), SignerProtocol.CloseOp, Shape(), SignerProtocol.CloseReturned)
      ensures old(tpm) != null ==> old(tpm).closings == old(tpm.closings) + [ok]
      ensures old(tpm) != null ==>
                && old(tpm).Valid() && !old(tpm).open && old(tpm).live == {} && handle == 0
                && old(tpm).log == old(tpm.log) + [SentFlush(old(handle)), Closed]
      ensures old(tpm) == null ==> ok && handle == old(handle)
    {
      SignerProtocol.CloseSections(0, Shape());
      if tpm == null {
        return true;
      }
      ghost var log := tpm.log;
      tpm.Flush(handle);
      handle := 0;
      ok := tpm.Close();
      assert log + [SentFlush(old(handle))] + [Closed] == log + [SentFlush(old(handle)), Closed];
      tpm := null;
    }
  }

  // ----- keys

  lemma CreateMoves(fs: Fs, n: bytes, k: Key)
    ensures Moved(Some(Stat(n)), fs, StatError, Nothing) == Some(Done(Create(n), Failed))
    ensures BlobFile(n) in fs.dir ==> Moved(Some(Stat(n)), fs, StatFound, Nothing) == Some(Done(Create(n), AlreadyExists))
    ensures BlobFile(n) !in fs.dir ==> Moved(Some(Stat(n)), fs, StatAbsent, Nothing) == Some(Tpm(n))
    ensures Moved(Some(Tpm(n)), fs, KeyError, Nothing) == Some(Done(Create(n), Failed))
    ensures Fits(k) ==> Moved(Some(Tpm(n)), fs, KeyMade(k), Nothing) == Some(Mkdir(n, k))
  {
    hide BlobFile;
  }

  /**
   Everything a failed operation leaves of its device: the rules kept, nothing loaded, and at the end
   of the log one flush for each handle the device answered, parent first, and then the close.
   */
  ghost predicate LetGo(tpm: Transport)
    reads tpm
  {
    tpm.Valid() && !tpm.open && CleanedUp(tpm.log, tpm.answered)
  }

  /**
   What a signer gets: an open device on which only its own key, loaded from these areas, is neither
   flushed nor gone, which is where SignerProtocol takes over.
   */
  ghost predicate HandedOver(tpm: Transport, child: nat, key: Key)
    reads tpm
  {
    && tpm.Valid() && tpm.open && child != 0 && child in tpm.live
    && child in tpm.areas && tpm.areas[child] == key
    && SignerProtocol.Handed(tpm.log, child)
    && |tpm.answered| == 2 && tpm.answered[1] == child && tpm.answered[0] != child
    && tpm.Books() == Ledger(true, {tpm.answered[0], child}, {tpm.answered[0]})
  }

  /**
   What became of the device an operation opened, if it opened one: it is the signer's, or it was let
   go of.
   */
  ghost predicate Settled(before: seq<Transport>, after: seq<Transport>, signer: TpmSigner?)
    reads after, signer, if signer != null then {signer.device} else {}
  {
    if signer == null then after == before || (|after| == |before| + 1 && before <= after && LetGo(after[|before|]))
    else
      && signer.Valid() && signer.tpm != null && after == before + [signer.tpm]
      && HandedOver(signer.tpm, signer.handle, signer.key)
  }

  /** No device could be opened, or the one opened since was unable. */
  ghost predicate TpmUnable(refusals: nat, devices: nat, driver: Driver, parses: bytes -> bool)
    reads driver, driver.devices
  {
    driver.refusals > refusals || (|driver.devices| > devices && Unable(driver.devices[devices].refused, driver.devices[devices].areas, parses))
  }

  lemma Tidied(work: seq<Command>, log: seq<Command>, handles: seq<nat>)
    requires |handles| <= 2 && Accounts(work).Some? && Accounts(work).value.open && Accounts(work).value.released == {}
    requires log == match |handles|
                    case 0 => work + [Closed]
                    case 1 => work + [SentFlush(handles[0])] + [Closed]
                    case _ => work + [SentFlush(handles[0])] + [SentFlush(handles[1])] + [Closed]
    ensures CleanedUp(log, handles)
  {
    hide Accounts;
    assert log == work + (Flushes(handles) + [Closed]);
    assert log[..|log| - |handles| - 1] == work;
  }

  /** The device refused a request, or a key loaded from these areas has no P-256 public key to return. */
  ghost predicate Unable(refused: seq<Request>, areas: map<nat, Key>, parses: bytes -> bool) {
    refused != [] || exists h :: h in areas && !parses(areas[h].pub)
  }

  lemma UnableOnce(refused: seq<Request>, areas: map<nat, Key>, h: nat, k: Key, parses: bytes -> bool)
    ensures refused != [] ==> Unable(refused, areas, parses)
    ensures refused == [] && areas == map[] ==> !Unable(refused, areas, parses)
    ensures refused == [] && areas == map[][h := k] ==> (Unable(refused, areas, parses) <==> !parses(k.pub))
  {
    if areas == map[][h := k] { assert h in areas && areas[h] == k; }
  }

  /** createKey between the creation of the parent and its deferred flush. */
  method CreateUnder(os: Os, tpm: Transport, parses: bytes -> bool, parent: nat, path: string, ghost name: bytes)
    returns (childHandle: nat, reply: Reply)
    requires os.Valid() && os.at == Some(Tpm(name)) && path == BlobFile(name)
    requires Decision(os.log) == Undecided && tpm.refused == [] && tpm.areas == map[]
    requires tpm.Valid() && tpm.Books() == Ledger(true, {parent}, {}) && tpm.answered == [parent]
    modifies os, tpm
    ensures os.Valid() && os.at == Some(Done(Create(name), reply))
    ensures Accords(Decision(os.log), reply) && (Decision(os.log) == Declined <==> Unable(tpm.refused, tpm.areas, parses))
    ensures tpm.Valid() && tpm.open && parent in tpm.Books().held && tpm.Books().released == {}
    ensures tpm.answered == if childHandle != 0 then [parent, childHandle] else [parent]
    ensures childHandle != 0 ==> childHandle != parent && tpm.Books().held == {parent, childHandle}
    ensures reply.Created? || reply == AlreadyExists ==> childHandle != 0
    ensures reply.Created? ==>
              && childHandle in tpm.areas && tpm.areas[childHandle] == reply.key
              && tpm.made == old(tpm.made) + [reply.key]
  {
    hide Decision, Extends, Says, Good, Act, Moved, BlobFile, Unable, Accounts, Account;
    CreateStepsSay();
    childHandle := 0;
    ghost var k := Key([], []);
    CreateMoves(os.fs, name, k);
    var created := tpm.Create(parent);
    if created.None? {
      os.Note(KeyError);
      UnableOnce(tpm.refused, tpm.areas, 0, k, parses);
      return 0, Failed;
    }
    var loaded := tpm.Load(parent, created.value);
    UnableOnce(tpm.refused, tpm.areas, if loaded.Some? then loaded.value else 0, created.value, parses);
    if loaded.None? {
      os.Note(KeyError);
      return 0, Failed;
    }
    childHandle := loaded.value;
    if !parses(created.value.pub) {
      os.Note(KeyError);
      return childHandle, Failed;
    }
    CreateMoves(os.fs, name, created.value);
    os.Note(KeyMade(created.value));
    var err := WriteBlob(os, path, name, created.value);
    reply := if err.None? then Created(created.value) else WriteError(err.value);
  }

  /** The file of blobPath in the store directory, or None when there is no configuration directory. */
  method Locate(config: Option<string>, name: bytes) returns (file: Option<string>)
    requires config != Some("")
    ensures file == if config.None? then None else Some(BlobFile(name))
  {
    var path := BlobPath(config, name);
    if path.None? {
      return None;
    }
    BlobPathContained(config.value, name);
    return Some(path.value.elements[|path.value.elements| - 1]);
  }

  /** createKey once the name is known to be free and the device open, with its two deferred cleanups. */
  method CreateOnDevice(os: Os, tpm: Transport, parses: bytes -> bool, path: string, ghost name: bytes)
    returns (signer: TpmSigner?, reply: Reply)
    requires os.Valid() && os.at == Some(Tpm(name)) && path == BlobFile(name) && Decision(os.log) == Undecided
    requires tpm.Valid() && tpm.Books() == OPENED && tpm.Untouched()
    modifies os, tpm
    ensures os.Valid() && os.at == Some(Done(Create(name), reply))
    ensures Accords(Decision(os.log), reply) && (Decision(os.log) == Declined <==> Unable(tpm.refused, tpm.areas, parses))
    ensures reply.Created? <==> signer != null
    ensures signer != null ==>
              && fresh(signer) && signer.Valid() && signer.tpm == tpm && reply == Created(signer.key)
              && HandedOver(tpm, signer.handle, signer.key) && tpm.made == old(tpm.made) + [signer.key]
    ensures signer == null ==> LetGo(tpm)
    ensures reply == AlreadyExists ==> tpm.Books().held == tpm.Books().released
  {
    hide Decision, Extends, Says, Good, Act, Moved, BlobFile, Accounts, Account, Unable, CleanedUp, Flushes;
    CreateStepsSay();
    signer := null;
    var childHandle := 0;
    var parent := tpm.CreatePrimary();
    ghost var work := tpm.log;
    if parent.None? {
      UnableOnce(tpm.refused, tpm.areas, 0, Key([], []), parses);
      CreateMoves(os.fs, name, Key([], []));
      os.Note(KeyError);
      reply := Failed;
    } else {
      childHandle, reply := CreateUnder(os, tpm, parses, parent.value, path, name);
      work := tpm.log;
      tpm.Flush(parent.value);
    }
    if !reply.Created? {
      tpm.Flush(childHandle);
      var _ := tpm.Close();
      Tidied(work, tpm.log, tpm.answered);
    } else {
      signer := new TpmSigner(tpm, childHandle, reply.key);
    }
  }

  /** createKey: a free name, then an open device, then the key, published last. */
  method CreateKey(os: Os, driver: Driver, parses: bytes -> bool, config: Option<string>, name: bytes)
    returns (signer: TpmSigner?, reply: Reply)
    requires os.Valid() && os.at == Some(Stat(name)) && os.log == [] && config != Some("")
    modifies os, driver
    ensures config.None? ==> reply == Failed && os.log == [] && driver.refusals == old(driver.refusals) && driver.devices == old(driver.devices)
    ensures config.Some? ==>
              && Accords(Decision(os.log), reply)
              && (Decision(os.log) == Declined <==> TpmUnable(old(driver.refusals), |old(driver.devices)|, driver, parses))
    ensures os.Valid() && os.at == Some(Done(Create(name), reply))
    ensures reply.Created? <==> signer != null
    ensures Settled(old(driver.devices), driver.devices, signer)
    ensures forall tpm :: tpm in driver.devices ==> tpm in old(driver.devices) || fresh(tpm)
    ensures signer != null ==>
              fresh(signer) && fresh(signer.tpm) && reply == Created(signer.key) && signer.tpm.made == [signer.key]
    ensures reply == AlreadyExists && |driver.devices| > |old(driver.devices)| ==>
              var books := driver.devices[|old(driver.devices)|].Books(); books.held == books.released
  {
    hide Unable, Decision, Extends, Says, Good, Act, Moved, BlobFile, Account;
    CreateStepsSay();
    NothingSaid();
    ghost var seen;
    var path := Locate(config, name);
    CreateMoves(os.fs, name, Key([], []));
    if path.None? {
      os.GiveUp(config, StatError);
      return null, Failed;
    }
    var found;
    found, seen := os.Stat(path.value);
    CreateMoves(seen, name, Key([], []));
    if found != Absent {
      return null, if found == Present then AlreadyExists else Failed;
    }
    var tpm := driver.Open();
    CreateMoves(os.fs, name, Key([], []));
    if tpm == null {
      os.Note(KeyError);
      return null, Failed;
    }
    signer, reply := CreateOnDevice(os, tpm, parses, path.value, name);
  }

  datatype ReadError = NotExist | IoError | Malformed(error: FrameError)

  lemma LoadMoves(fs: Fs, n: bytes, k: Key)
    ensures Moved(Some(Open(n)), fs, OpenError, Nothing) == Some(Done(Load(n), Failed))
    ensures BlobFile(n) in fs.dir ==> Moved(Some(Open(n)), fs, OpenOk, Nothing) == Some(Read(n, fs.dir[BlobFile(n)], []))
    ensures BlobFile(n) !in fs.dir ==> Moved(Some(Open(n)), fs, OpenAbsent, Nothing) == Some(Done(Load(n), NotFound))
    ensures Moved(Some(Unwrap(n, k)), fs, UnwrapError, Nothing) == Some(Done(Load(n), Failed))
    ensures Moved(Some(Unwrap(n, k)), fs, UnwrapOk, Nothing) == Some(Done(Load(n), Loaded(k)))
  {
    hide BlobFile;
  }

  lemma ReadMoves(fs: Fs, n: bytes, ino: nat, got: bytes, piece: bytes)
    requires ino < |fs.inodes|
    ensures var at, data := Some(Read(n, ino, got)), fs.inodes[ino].data;
            && Moved(at, fs, ReadError, Nothing) == Some(Done(Load(n), Failed))
            && (|piece| > 0 && |got| + |piece| <= |data| && piece == data[|got|..|got| + |piece|]
                ==> Moved(at, fs, ReadSome(|piece|), Nothing) == Some(Read(n, ino, got + piece)))
            && (|got| >= |data| && Decode(got).Ok?
                ==> Moved(at, fs, ReadEnd, Nothing) == Some(Unwrap(n, Decode(got).value)))
  {
    hide Decode;
  }

  /** A reader's file cannot change under it, and what it has is always the beginning of one whole blob. */
  lemma ReaderRelies(fs: Fs, n: bytes, ino: nat, got: bytes, gs: Fs)
    requires Good(fs, Some(Read(n, ino, got))) && Elsewhere(fs, Some(Read(n, ino, got)), gs)
    ensures ino < |fs.inodes| && ino < |gs.inodes| && gs.inodes[ino] == fs.inodes[ino]
    ensures got <= fs.inodes[ino].data && Decode(fs.inodes[ino].data).Ok?
  {
    hide Decode, Encode, FsInv;
  }

  /** os.ReadFile: the bytes of the file that was opened, complete. */
  method ReadFile(os: Os, path: string, ghost name: bytes) returns (r: Result<bytes, ReadError>, ghost ino: nat)
    requires os.Valid() && os.at == Some(Open(name)) && path == BlobFile(name) && Decision(os.log) == Undecided
    modifies os
    ensures os.Valid()
    ensures Decision(os.log) == (match r case Ok(_) => Undecided case Err(NotExist) => Gone case Err(_) => No)
    ensures r.Ok? ==> os.at == Some(Read(name, ino, r.value)) && ino < |os.fs.inodes| && r.value == os.fs.inodes[ino].data
    ensures r == Err(NotExist) ==> os.at == Some(Done(Load(name), NotFound))
    ensures r.Err? ==> !r.error.Malformed? && (r.error == IoError ==> os.at == Some(Done(Load(name), Failed)))
  {
    hide Decision, Extends, Says, Good, Act, Moved, BlobFile, Decode;
    LoadStepsSay();
    ino := 0;
    ghost var seen;
    var f;
    f, seen := os.Open(path);
    LoadMoves(seen, name, Key([], []));
    if f.NoFile? {
      return Err(NotExist), 0;
    }
    if f.CannotOpen? {
      return Err(IoError), 0;
    }
    ino := f.ino;
    var got: bytes := [];
    ReaderRelies(os.fs, name, ino, got, os.fs) by { SameGood(os.fs, os.at); }
    while true
      invariant os.Valid() && os.at == Some(Read(name, ino, got)) && Decision(os.log) == Undecided
      invariant ino == f.ino < |os.fs.inodes| && got <= os.fs.inodes[ino].data
      decreases |os.fs.inodes[ino].data| - |got|
    {
      ghost var before := os.fs;
      var piece;
      piece, seen := os.ReadAt(f.ino, |got|);
      ReaderRelies(before, name, ino, got, seen);
      ReadMoves(seen, name, ino, got, if piece.Piece? then piece.data else []);
      if piece.Broken? {
        return Err(IoError), 0;
      }
      if piece.End? {
        return Ok(got), ino;
      }
      got := got + piece.data;
    }
  }

  lemma SameGood(fs: Fs, at: Option<Pc>)
    requires Good(fs, at)
    ensures Elsewhere(fs, at, fs)
  {
    hide FsInv, PcInv;
  }

  /** readBlob: the key of the file that was opened; over this store the framing is never malformed. */
  method ReadBlob(os: Os, path: string, ghost name: bytes) returns (r: Result<Key, ReadError>)
    requires os.Valid() && os.at == Some(Open(name)) && path == BlobFile(name) && Decision(os.log) == Undecided
    modifies os
    ensures os.Valid()
    ensures Decision(os.log) == (match r case Ok(_) => Undecided case Err(NotExist) => Gone case Err(_) => No)
    ensures r.Ok? ==> os.at == Some(Unwrap(name, r.value))
    ensures r == Err(NotExist) ==> os.at == Some(Done(Load(name), NotFound))
    ensures r == Err(IoError) ==> os.at == Some(Done(Load(name), Failed))
    ensures r.Err? ==> !r.error.Malformed?
  {
    hide Decision, Extends, Says, Good, Act, Moved, BlobFile, Decode;
    LoadStepsSay();
    ghost var ino;
    var data;
    data, ino := ReadFile(os, path, name);
    if data.Err? {
      return Err(data.error);
    }
    var reader := new Reader(data.value);
    var parsed := reader.ReadBlob();
    ReaderRelies(os.fs, name, ino, data.value, os.fs) by { SameGood(os.fs, os.at); }
    ReadMoves(os.fs, name, ino, data.value, []);
    os.Note(ReadEnd);
    match parsed
    case Ok(k) => r := Ok(k);
    case Err(e) => r := Err(Malformed(e));
  }

  /** loadKey between the creation of the parent and its deferred flush. */
  method LoadUnder(os: Os, tpm: Transport, parses: bytes -> bool, parent: nat, k: Key, ghost name: bytes)
    returns (childHandle: nat, success: bool)
    requires os.Valid() && os.at == Some(Unwrap(name, k)) && Decision(os.log) == Undecided
    requires tpm.refused == [] && tpm.areas == map[]
    requires tpm.Valid() && tpm.Books() == Ledger(true, {parent}, {}) && tpm.answered == [parent]
    modifies os, tpm
    ensures os.Valid() && os.at == Some(Done(Load(name), if success then Loaded(k) else Failed))
    ensures Decision(os.log) == (if success then Yes else Declined) && (success <==> !Unable(tpm.refused, tpm.areas, parses))
    ensures tpm.Valid() && tpm.open && parent in tpm.Books().held && tpm.Books().released == {}
    ensures tpm.answered == if childHandle != 0 then [parent, childHandle] else [parent]
    ensures childHandle != 0 ==> childHandle != parent && tpm.Books().held == {parent, childHandle}
    ensures success ==> childHandle != 0 && childHandle in tpm.areas && tpm.areas[childHandle] == k
  {
    hide Decision, Extends, Says, Good, Act, Moved, BlobFile, Unable, Accounts, Account;
    LoadStepsSay();
    LoadMoves(os.fs, name, k);
    var loaded := tpm.Load(parent, k);
    UnableOnce(tpm.refused, tpm.areas, if loaded.Some? then loaded.value else 0, k, parses);
    if loaded.None? {
      os.Note(UnwrapError);
      return 0, false;
    }
    childHandle := loaded.value;
    success := parses(k.pub);
    os.Note(if success then UnwrapOk else UnwrapError);
  }

  /** loadKey once the blob is read and the device open, with its two deferred cleanups. */
  method LoadOnDevice(os: Os, tpm: Transport, parses: bytes -> bool, k: Key, ghost name: bytes) returns (signer: TpmSigner?)
    requires os.Valid() && os.at == Some(Unwrap(name, k)) && Decision(os.log) == Undecided
    requires tpm.Valid() && tpm.Books() == OPENED && tpm.Untouched()
    modifies os, tpm
    ensures Decision(os.log) == (if signer != null then Yes else Declined) && (signer != null <==> !Unable(tpm.refused, tpm.areas, parses))
    ensures os.Valid() && os.at == Some(Done(Load(name), if signer != null then Loaded(k) else Failed))
    ensures signer != null ==>
              && fresh(signer) && signer.Valid() && signer.tpm == tpm && signer.key == k
              && HandedOver(tpm, signer.handle, k)
    ensures signer == null ==> LetGo(tpm)
  {
    hide Decision, Extends, Says, Good, Act, Moved, BlobFile, Accounts, Account, Unable, CleanedUp, Flushes;
    LoadStepsSay();
    signer := null;
    var success, childHandle := false, 0;
    var parent := tpm.CreatePrimary();
    ghost var work := tpm.log;
    if parent.None? {
      UnableOnce(tpm.refused, tpm.areas, 0, Key([], []), parses);
      LoadMoves(os.fs, name, k);
      os.Note(UnwrapError);
    } else {
      childHandle, success := LoadUnder(os, tpm, parses, parent.value, k, name);
      work := tpm.log;
      tpm.Flush(parent.value);
    }
    if !success {
      tpm.Flush(childHandle);
      var _ := tpm.Close();
      Tidied(work, tpm.log, tpm.answered);
    } else {
      signer := new TpmSigner(tpm, childHandle, k);
    }
  }

  /** loadKey: the blob, then an open device, then the key. */
  method LoadKey(os: Os, driver: Driver, parses: bytes -> bool, config: Option<string>, name: bytes)
    returns (signer: TpmSigner?, reply: Reply)
    requires os.Valid() && os.at == Some(Open(name)) && os.log == [] && config != Some("")
    modifies os, driver
    ensures config.None? ==> reply == Failed && os.log == [] && driver.refusals == old(driver.refusals) && driver.devices == old(driver.devices)
    ensures config.Some? ==>
              && Accords(Decision(os.log), reply)
              && (Decision(os.log) == Declined <==> TpmUnable(old(driver.refusals), |old(driver.devices)|, driver, parses))
    ensures os.Valid() && os.at == Some(Done(Load(name), reply))
    ensures reply.Loaded? <==> signer != null
    ensures Settled(old(driver.devices), driver.devices, signer)
    ensures forall tpm :: tpm in driver.devices ==> tpm in old(driver.devices) || fresh(tpm)
    ensures signer != null ==> fresh(signer) && fresh(signer.tpm) && reply == Loaded(signer.key)
  {
    hide Unable, Decision, Extends, Says, Good, Act, Moved, BlobFile, Account;
    LoadStepsSay();
    NothingSaid();
    signer := null;
    var path := Locate(config, name);
    if path.None? {
      LoadMoves(os.fs, name, Key([], []));
      os.GiveUp(config, OpenError);
      return null, Failed;
    }
    var blob := ReadBlob(os, path.value, name);
    if blob.Err? {
      return null, if blob.error == NotExist then NotFound else Failed;
    }
    var tpm := driver.Open();
    LoadMoves(os.fs, name, blob.value);
    if tpm == null {
      os.Note(UnwrapError);
      return null, Failed;
    }
    signer := LoadOnDevice(os, tpm, parses, blob.value, name);
    reply := if signer != null then Loaded(blob.value) else Failed;
  }

  lemma DeleteMoves(fs: Fs, n: bytes)
    ensures Moved(Some(Pc.Remove(n)), fs, RemoveError, Nothing) == Some(Done(Delete(n), Failed))
    ensures BlobFile(n) in fs.dir ==> Moved(Some(Pc.Remove(n)), fs, RemoveOk, Drop(BlobFile(n))) == Some(Done(Delete(n), Deleted))
    ensures BlobFile(n) !in fs.dir ==> Moved(Some(Pc.Remove(n)), fs, RemoveAbsent, Nothing) == Some(Done(Delete(n), NotFound))
  {
    hide BlobFile;
  }

  /** deleteKey; it touches the store alone, so no open signer can notice it. */
  method DeleteKey(os: Os, config: Option<string>, name: bytes) returns (reply: Reply)
    requires os.Valid() && os.at == Some(Pc.Remove(name)) && os.log == [] && config != Some("")
    modifies os
    ensures if config.None? then reply == Failed && os.log == [] else Accords(Decision(os.log), reply)
    ensures os.Valid() && os.at == Some(Done(Delete(name), reply))
  {
    hide Unable, Decision, Extends, Says, Good, Act, Moved, BlobFile, IsTempFile;
    FileStepsSay();
    NothingSaid();
    ghost var seen;
    var path := Locate(config, name);
    if path.None? {
      DeleteMoves(os.fs, name);
      os.GiveUp(config, RemoveError);
      return Failed;
    }
    BlobFileIsNotTemp(name);
    var r;
    r, seen := os.Remove(path.value);
    DeleteMoves(seen, name);
    return match r case Removed => Deleted case NoSuchFile => NotFound case NotRemoved => Failed;
  }
}
