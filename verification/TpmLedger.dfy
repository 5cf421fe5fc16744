/** An open TPM device and the transient objects behind it, and the rules its use has to keep. */
module TpmLedger {
  import opened Bytes
  import opened BlobCodec
  import opened SignArguments

  /** What reached the device, in order. A flush is listed when it was sent, successful or not. */
  datatype Command =
    | MadePrimary(handle: nat)
    | MadeKey(parent: nat)
    | LoadedKey(parent: nat, handle: nat)
    | Signed(handle: nat)
    | SentFlush(handle: nat)
    | Closed

  /** `held` are the objects ever made or loaded, `released` those a flush was sent for. */
  datatype Ledger = Ledger(open: bool, held: set<nat>, released: set<nat>)

  /** A signature as the device answers: what it was asked for, and the coordinates in buffers of any width. */
  datatype RawSignature = RawSignature(handle: nat, hash: Hash, digest: bytes, r: bytes, s: bytes)

  /** Both coordinates are below 2^256, as those of a P-256 signature are. */
  predicate InRange(r: bytes, s: bytes) {
    Value(r) < Pow256(32) && Value(s) < Pow256(32)
  }

  /** A request that the device, or the way to it, answered with an error. */
  datatype Request = PrimaryRequest | KeyRequest | LoadRequest | SignRequest(handle: nat)

  const OPENED := Ledger(true, {}, {})

  predicate Usable(l: Ledger, h: nat) {
    l.open && h in l.held && h !in l.released
  }

  /**
   The rules: nothing reaches a closed device, no object is used or flushed after its flush, the
   handle 0 is never given out, and no more than two objects are ever there.
   */
  function Account(l: Ledger, c: Command): Option<Ledger> {
    match c
    case MadePrimary(h) =>
      if l.open && h != 0 && l.held == {} then Some(l.(held := {h})) else None
    case MadeKey(parent) => if Usable(l, parent) then Some(l) else None
    case LoadedKey(parent, h) =>
      if Usable(l, parent) && h != 0 && h !in l.held && |l.held| < 2 then Some(l.(held := l.held + {h})) else None
    case Signed(h) => if Usable(l, h) then Some(l) else None
    case SentFlush(h) => if Usable(l, h) then Some(l.(released := l.released + {h})) else None
    case Closed => if l.open then Some(l.(open := false)) else None
  }

  function Accounts(log: seq<Command>): Option<Ledger> {
    if log == [] then Some(OPENED)
    else match Accounts(log[..|log| - 1])
      case None => None
      case Some(l) => Account(l, log[|log| - 1])
  }

  function Times(log: seq<Command>, c: Command): nat {
    if log == [] then 0 else Times(log[..|log| - 1], c) + if log[|log| - 1] == c then 1 else 0
  }

  lemma {:induction false} ClosedOnce(log: seq<Command>)
    requires Accounts(log).Some?
    ensures Times(log, Closed) == if Accounts(log).value.open then 0 else 1
    ensures forall i :: 0 <= i < |log| - 1 ==> log[i] != Closed
  {
    if log == [] {
    } else {
      var before := log[..|log| - 1];
      ClosedOnce(before);
      StillOpen(Accounts(before).value, log[|log| - 1]);
      forall i | 0 <= i < |log| - 1 ensures log[i] != Closed {
        assert log[i] == before[i];
        if i == |before| - 1 { OpenAfter(before); }
      }
    }
  }

  lemma OpenAfter(log: seq<Command>)
    requires Accounts(log).Some? && log != [] && Accounts(log).value.open
    ensures log[|log| - 1] != Closed
  {
  }

  lemma StillOpen(l: Ledger, c: Command)
    requires Account(l, c).Some?
    ensures l.open && Account(l, c).value.open == (c != Closed)
  {
  }

  lemma {:induction false} FlushedOnce(log: seq<Command>, h: nat)
    requires Accounts(log).Some?
    ensures Times(log, SentFlush(h)) == if h in Accounts(log).value.released then 1 else 0
  {
    if log == [] {
    } else {
      FlushedOnce(log[..|log| - 1], h);
    }
  }

  lemma {:induction false} NeverMoreThanTwo(log: seq<Command>)
    requires Accounts(log).Some?
    ensures Accounts(log).value.released <= Accounts(log).value.held && |Accounts(log).value.held| <= 2
    ensures 0 !in Accounts(log).value.held
  {
    if log == [] {
    } else {
      NeverMoreThanTwo(log[..|log| - 1]);
    }
  }

  /** A log that keeps the rules closes at most once, and as the last thing, and flushes nothing twice. */
  lemma RulesMean(log: seq<Command>, h: nat)
    requires Accounts(log).Some?
    ensures Times(log, Closed) == if Accounts(log).value.open then 0 else 1
    ensures forall i :: 0 <= i < |log| - 1 ==> log[i] != Closed
    ensures Times(log, SentFlush(h)) == if h in Accounts(log).value.released then 1 else 0
    ensures Accounts(log).value.released <= Accounts(log).value.held && |Accounts(log).value.held| <= 2
    ensures 0 !in Accounts(log).value.held
  {
    hide Accounts, Times;
    ClosedOnce(log);
    FlushedOnce(log, h);
    NeverMoreThanTwo(log);
  }

  // ----- what the rules mean for each command

  /** The command gives out this handle. */
  predicate Brings(c: Command, h: nat) {
    c == MadePrimary(h) || (c.LoadedKey? && c.handle == h)
  }

  /** The handles a command is sent for. */
  function Uses(c: Command): set<nat> {
    match c
    case MadeKey(p) => {p}
    case LoadedKey(p, _) => {p}
    case Signed(h) => {h}
    case SentFlush(h) => {h}
    case MadePrimary(_) | Closed => {}
  }

  lemma {:induction false} HeldMeans(log: seq<Command>, h: nat)
    requires Accounts(log).Some?
    ensures h in Accounts(log).value.held <==> exists j :: 0 <= j < |log| && Brings(log[j], h)
    ensures h in Accounts(log).value.released <==> SentFlush(h) in log
    ensures Accounts(log).value.open <==> Closed !in log
  {
    if log == [] {
    } else {
      var front, last := log[..|log| - 1], log[|log| - 1];
      HeldMeans(front, h);
      assert log == front + [last];
      if Brings(last, h) { assert Brings(log[|log| - 1], h); }
    }
  }

  lemma {:induction false} PrefixAccounts(log: seq<Command>, i: nat)
    requires Accounts(log).Some? && i <= |log|
    ensures Accounts(log[..i]).Some?
    ensures i < |log| ==> Account(Accounts(log[..i]).value, log[i]).Some?
    decreases |log|
  {
    if i == |log| {
      assert log[..i] == log;
    } else {
      var front := log[..|log| - 1];
      PrefixAccounts(front, i);
      assert front[..i] == log[..i];
    }
  }

  /**
   A command is sent only for handles that were given out before and not flushed since, and only while
   the device is open; no handle is given out twice.
   */
  lemma CommandsAreGood(log: seq<Command>, i: nat, h: nat)
    requires Accounts(log).Some? && i < |log|
    ensures Closed !in log[..i]
    ensures h in Uses(log[i]) ==> SentFlush(h) !in log[..i] && exists j :: 0 <= j < i && Brings(log[j], h)
    ensures Brings(log[i], h) ==> h != 0 && forall j :: 0 <= j < i ==> !Brings(log[j], h)
  {
    hide Accounts;
    PrefixAccounts(log, i);
    HeldMeans(log[..i], h);
    if j :| 0 <= j < i && Brings(log[..i][j], h) { assert Brings(log[j], h); }
    forall j | 0 <= j < i && Brings(log[j], h) ensures Brings(log[..i][j], h) { }
  }

  // ----- cleaning up

  function Flushes(handles: seq<nat>): (cs: seq<Command>)
    ensures |cs| == |handles|
    ensures forall i :: 0 <= i < |handles| ==> cs[i] == SentFlush(handles[i])
  {
    if handles == [] then [] else Flushes(handles[..|handles| - 1]) + [SentFlush(handles[|handles| - 1])]
  }

  /** Work without a flush or a close, then one flush for each of these handles in this order, then the close. */
  predicate CleanedUp(log: seq<Command>, handles: seq<nat>) {
    && |handles| < |log|
    && var n := |log| - |handles| - 1;
    && Accounts(log[..n]).Some? && Accounts(log[..n]).value.open && Accounts(log[..n]).value.released == {}
    && log[n..] == Flushes(handles) + [Closed]
  }

  lemma {:induction false} FlushesRelease(work: seq<Command>, handles: seq<nat>, h: nat)
    requires Accounts(work + Flushes(handles)).Some? && Accounts(work).Some?
    requires Accounts(work).value.released == {}
    ensures h in Accounts(work + Flushes(handles)).value.released <==> h in handles
  {
    if handles == [] {
      assert work + Flushes([]) == work;
    } else {
      var front, last := handles[..|handles| - 1], handles[|handles| - 1];
      assert work + Flushes(handles) == work + Flushes(front) + [SentFlush(last)];
      AccountsAppend(work + Flushes(front), SentFlush(last));
      FlushesRelease(work, front, h);
      assert handles == front + [last];
    }
  }

  /** After a clean-up exactly these handles had their flush, each once, and the device was closed once. */
  lemma CleanedUpMeans(log: seq<Command>, handles: seq<nat>, h: nat)
    requires Accounts(log).Some? && CleanedUp(log, handles)
    ensures Times(log, SentFlush(h)) == if h in handles then 1 else 0
    ensures Times(log, Closed) == 1
  {
    hide Times;
    var work := log[..|log| - |handles| - 1];
    assert log == work + Flushes(handles) + [Closed];
    AccountsAppend(work + Flushes(handles), Closed);
    FlushesRelease(work, handles, h);
    FlushedOnce(log, h);
    ClosedOnce(log);
  }

  lemma AccountsAppend(log: seq<Command>, c: Command)
    ensures Accounts(log + [c]) == match Accounts(log) case None => None case Some(l) => Account(l, c)
  {
    assert (log + [c])[..|log|] == log;
  }

  /**
   The open device; the resource manager drops everything still loaded when it is closed. `made`
   are the keys it made, `areas` tells what each loaded key was loaded from, `signed` are the
   signatures and `answered` the handles it answered with, and `refused` the requests it did not
   answer. `closings` are the results of closing it.
   */
  class Transport {
    var open: bool
    var live: set<nat>
    var log: seq<Command>
    var made: seq<Key>
    var areas: map<nat, Key>
    var signed: seq<RawSignature>
    var answered: seq<nat>
    var refused: seq<Request>
    var closings: seq<bool>
    var unused: nat

    ghost predicate Valid()
      reads this
    {
      && Accounts(log).Some?
      && open == Books().open
      && live <= Books().held
      && (if open then Books().held - Books().released <= live else live == {})
      && unused > 0 && (forall h :: h in Books().held ==> h < unused)
      && (forall h :: h in answered ==> h in Books().held)
    }

    ghost predicate Untouched()
      reads this
    {
      answered == [] && refused == [] && areas == map[]
    }

    ghost function Books(): Ledger
      requires Accounts(log).Some?
      reads this
    {
      Accounts(log).value
    }

    constructor ()
      ensures Valid() && open && log == [] && made == [] && answered == [] && refused == [] && areas == map[]
    {
      open, live, log, unused := true, {}, [], 0x8000_0000;
      made, areas, signed, answered, refused, closings := [], map[], [], [], [], [];
    }

    /** A new transient object, unless the command fails; its reply may be lost on the way. */
    method NewObject(c: Command) returns (r: Option<nat>)
      requires Valid() && open && Account(Books(), c).Some?
      requires c == MadePrimary(unused) || exists p :: c == LoadedKey(p, unused)
      modifies this`log, this`live, this`unused, this`answered
      ensures Valid() && open && old(log) <= log
      ensures answered == if r.Some? then old(answered) + [r.value] else old(answered)
      ensures Books().released == old(Books().released)
      ensures Books().held == old(Books().held) || Books().held == old(Books().held) + {c.handle}
      ensures r.Some? ==> r.value == c.handle && r.value in Books().held
    {
      hide Accounts;
      var performed: bool, replied: bool := *, *;
      if performed {
        AccountsAppend(log, c);
        log, live, unused := log + [c], live + {unused}, unused + 1;
      }
      r := None;
      if performed && replied {
        r, answered := Some(c.handle), answered + [c.handle];
      }
    }

    method CreatePrimary() returns (r: Option<nat>)
      requires Valid() && open && Books() == OPENED && answered == []
      modifies this`log, this`live, this`unused, this`answered, this`refused
      ensures refused == if r.Some? then old(refused) else old(refused) + [PrimaryRequest]
      ensures Valid() && open && old(log) <= log && Books().released == {}
      ensures answered == if r.Some? then [r.value] else []
      ensures r.Some? ==> Books().held == {r.value} && r.value != 0
      ensures r.None? ==> |Books().held| <= 1
    {
      r := NewObject(MadePrimary(unused));
      if r.None? {
        refused := refused + [PrimaryRequest];
      }
    }

    /** The marshaled public and private areas of a new key, each a 16-bit length and its bytes. */
    method Create(parent: nat) returns (r: Option<Key>)
      requires Valid() && open && Usable(Books(), parent)
      modifies this`log, this`made, this`refused
      ensures refused == if r.Some? then old(refused) else old(refused) + [KeyRequest]
      ensures Valid() && open && old(log) <= log && Books() == old(Books())
      ensures r.Some? ==> log == old(log) + [MadeKey(parent)]
      ensures r.Some? ==> |r.value.pub| <= 0x1_0001 && |r.value.priv| <= 0x1_0001 && made == old(made) + [r.value]
    {
      hide Accounts;
      var performed: bool, key: Key := *, *;
      if performed {
        AccountsAppend(log, MadeKey(parent));
        log := log + [MadeKey(parent)];
      }
      if performed && |key.pub| <= 0x1_0001 && |key.priv| <= 0x1_0001 {
        r, made := Some(key), made + [key];
      } else {
        r, refused := None, refused + [KeyRequest];
      }
    }

    /** Loads the key from its two areas. */
    method Load(parent: nat, key: Key) returns (r: Option<nat>)
      requires Valid() && open && Books() == Ledger(true, {parent}, {})
      modifies this`log, this`live, this`unused, this`areas, this`answered, this`refused
      ensures refused == if r.Some? then old(refused) else old(refused) + [LoadRequest]
      ensures Valid() && open && old(log) <= log && Books().released == {}
      ensures answered == if r.Some? then old(answered) + [r.value] else old(answered)
      ensures r.Some? ==> Books().held == {parent, r.value} && r.value !in {0, parent}
      ensures r.Some? ==> areas == old(areas)[r.value := key]
      ensures r.None? ==> parent in Books().held && |Books().held| <= 2
    {
      r := NewObject(LoadedKey(parent, unused));
      if r.Some? {
        areas := areas[r.value := key];
      } else {
        refused := refused + [LoadRequest];
      }
    }

    method Sign(h: nat, hash: Hash, digest: bytes) returns (r: Option<(bytes, bytes)>)
      requires Valid() && open && Usable(Books(), h)
      modifies this`log, this`signed, this`refused
      ensures refused == if r.Some? then old(refused) else old(refused) + [SignRequest(h)]
      ensures Valid() && Books() == old(Books())
      ensures log == old(log) || log == old(log) + [Signed(h)]
      ensures r.None? ==> signed == old(signed)
      ensures r.Some? ==>
                && log == old(log) + [Signed(h)]
                && signed == old(signed) + [RawSignature(h, hash, digest, r.value.0, r.value.1)]
                && InRange(r.value.0, r.value.1)
    {
      var performed: bool, rs: Option<(bytes, bytes)> := *, *;
      r := None;
      if performed {
        AccountsAppend(log, Signed(h));
        log := log + [Signed(h)];
        if rs.Some? && InRange(rs.value.0, rs.value.1) {
          r, signed := rs, signed + [RawSignature(h, hash, digest, rs.value.0, rs.value.1)];
        }
      }
      if r.None? {
        refused := refused + [SignRequest(h)];
      }
    }

    /** flush: nothing for the handle 0; errors are ignored, so the object may stay loaded. */
    method Flush(h: nat)
      requires Valid() && (h == 0 || Usable(Books(), h))
      modifies this`log, this`live
      ensures Valid() && open == old(open) && old(log) <= log
      ensures h == 0 ==> log == old(log) && live == old(live)
      ensures h != 0 ==> log == old(log) + [SentFlush(h)] && live in {old(live), old(live) - {h}}
      ensures h != 0 ==> Books() == old(Books()).(released := old(Books()).released + {h})
    {
      if h == 0 {
        return;
      }
      AccountsAppend(log, SentFlush(h));
      log := log + [SentFlush(h)];
      var done: bool := *;
      if done {
        live := live - {h};
      }
    }

    method Close() returns (ok: bool)
      requires Valid() && open
      modifies this`log, this`open, this`live, this`closings
      ensures closings == old(closings) + [ok]
      ensures Valid() && !open && live == {} && log == old(log) + [Closed]
      ensures Books() == old(Books()).(open := false)
    {
      hide Accounts;
      AccountsAppend(log, Closed);
      ok := *;
      log, open, live, closings := log + [Closed], false, {}, closings + [ok];
    }
  }

  /** openTPM; `devices` are the devices it has opened so far, `refusals` counts the attempts that failed. */
  class Driver {
    var devices: seq<Transport>
    var refusals: nat

    constructor ()
      ensures devices == [] && refusals == 0
    {
      devices, refusals := [], 0;
    }

    method Open() returns (tpm: Transport?)
      modifies this
      ensures tpm == null ==> devices == old(devices)
      ensures refusals == if tpm == null then old(refusals) + 1 else old(refusals)
      ensures tpm != null ==>
                && fresh(tpm) && devices == old(devices) + [tpm]
                && tpm.Valid() && tpm.open && tpm.log == [] && tpm.made == [] && tpm.Untouched()
    {
      var available: bool := *;
      tpm := null;
      if available {
        var device := new Transport();
        tpm, devices := device, devices + [device];
      } else {
        refusals := refusals + 1;
      }
    }
  }
}
