/** key_windows.go: persisted NCrypt keys, and who has to free which handle. */
module WindowsBackend {
  import opened Bytes
  import opened Der
  import opened Environment
  import opened SignArguments
  import EccBlob

  datatype Object = Provider | KeyOf(provider: nat, name: string)

  type Handles = map<nat, Object>

  /** One NCrypt call that had an effect or a result, with that result. */
  datatype Command =
    | OpenedProvider(h: nat)
    | OpenedKey(provider: nat, h: nat, name: string, create: bool)
    | UsageSet(h: nat, ok: bool)
    | Finalized(h: nat, ok: bool)
    | Exported(h: nat, blob: Option<bytes>)
    | Signed(h: nat, digest: bytes, raw: Option<bytes>)
    | Freed(h: nat)
    | DeletedKey(h: nat)

  /** The open handles and the names of the stored keys. */
  datatype Books = Books(live: Handles, stored: set<string>)

  predicate IsKey(live: Handles, h: nat) {
    h in live && live[h].KeyOf?
  }

  predicate HasKeys(live: Handles, p: nat) {
    exists k :: k in live && live[k].KeyOf? && live[k].provider == p
  }

  /**
   The rules: a key is opened for a name that is there, or made for one that is not; only live handles
   are used, freed or used up, and a provider is freed only after all its keys.
   */
  function Account(b: Books, c: Command): Option<Books> {
    match c
    case OpenedProvider(h) => if h != 0 && h !in b.live then Some(b.(live := b.live[h := Provider])) else None
    case OpenedKey(p, h, name, create) =>
      if h != 0 && h !in b.live && p in b.live && b.live[p] == Provider && create == (name !in b.stored)
      then Some(b.(live := b.live[h := KeyOf(p, name)])) else None
    case UsageSet(h, _) => if IsKey(b.live, h) then Some(b) else None
    case Finalized(h, ok) =>
      if !IsKey(b.live, h) then None
      else if ok then Some(b.(stored := b.stored + {b.live[h].name})) else Some(b)
    case Exported(h, _) => if IsKey(b.live, h) then Some(b) else None
    case Signed(h, _, raw) => if raw.None? || IsKey(b.live, h) then Some(b) else None
    case Freed(h) => if h in b.live && !HasKeys(b.live, h) then Some(b.(live := b.live - {h})) else None
    case DeletedKey(h) =>
      if IsKey(b.live, h) then Some(Books(b.live - {h}, b.stored - {b.live[h].name})) else None
  }

  function Accounts(initial: set<string>, log: seq<Command>): Option<Books> {
    if log == [] then Some(Books(map[], initial))
    else match Accounts(initial, log[..|log| - 1])
      case None => None
      case Some(b) => Account(b, log[|log| - 1])
  }

  lemma AccountsAppend(initial: set<string>, log: seq<Command>, c: Command)
    ensures Accounts(initial, log + [c]) == match Accounts(initial, log) case None => None case Some(b) => Account(b, c)
  {
    assert (log + [c])[..|log|] == log;
  }

  // ----- what the rules mean

  predicate Opens(c: Command, h: nat) {
    c == OpenedProvider(h) || (c.OpenedKey? && c.h == h)
  }

  predicate Ends(c: Command, h: nat) {
    c == Freed(h) || c == DeletedKey(h)
  }

  /** Opened, and neither freed nor used up since. */
  predicate Held(log: seq<Command>, j: nat, h: nat) {
    j < |log| && Opens(log[j], h) && forall m :: j < m < |log| ==> !Ends(log[m], h)
  }

  lemma {:induction false} LiveMeans(initial: set<string>, log: seq<Command>, h: nat)
    requires Accounts(initial, log).Some? && h in Accounts(initial, log).value.live
    ensures exists j :: Held(log, j, h)
  {
    var front, m := log[..|log| - 1], |log| - 1;
    if Opens(log[m], h) {
      assert Held(log, m, h);
    } else {
      LiveMeans(initial, front, h);
      var j :| Held(front, j, h);
      assert Held(log, j, h);
    }
  }

  lemma {:induction false} HeldIsLive(initial: set<string>, log: seq<Command>, j: nat, h: nat)
    requires Accounts(initial, log).Some? && Held(log, j, h)
    ensures h in Accounts(initial, log).value.live
    ensures log[j].OpenedKey? ==> Accounts(initial, log).value.live[h] == KeyOf(log[j].provider, log[j].name)
  {
    var front, m := log[..|log| - 1], |log| - 1;
    if j < m {
      assert Held(front, j, h);
      HeldIsLive(initial, front, j, h);
    }
  }

  lemma {:induction false} PrefixAccounts(initial: set<string>, log: seq<Command>, i: nat)
    requires Accounts(initial, log).Some? && i <= |log|
    ensures Accounts(initial, log[..i]).Some?
    ensures i < |log| ==> Account(Accounts(initial, log[..i]).value, log[i]).Some?
    decreases |log|
  {
    if i == |log| {
      assert log[..i] == log;
    } else {
      var front := log[..|log| - 1];
      PrefixAccounts(initial, front, i);
      assert front[..i] == log[..i];
    }
  }

  /** A handle is not 0 and given out only when it is not held, and a key only under a provider that is. */
  lemma OpensAreGood(initial: set<string>, log: seq<Command>, i: nat, h: nat)
    requires Accounts(initial, log).Some? && i < |log| && Opens(log[i], h)
    ensures h != 0 && forall j: nat :: !Held(log[..i], j, h)
    ensures log[i].OpenedKey? ==> exists j :: Held(log[..i], j, log[i].provider)
  {
    hide Accounts;
    PrefixAccounts(initial, log, i);
    forall j: nat ensures !Held(log[..i], j, h) {
      if Held(log[..i], j, h) { HeldIsLive(initial, log[..i], j, h); }
    }
    if log[i].OpenedKey? { LiveMeans(initial, log[..i], log[i].provider); }
  }

  /**
   A handle is freed or used up only while it is held, so never twice; and when a provider is freed, none
   of its keys is held any more.
   */
  lemma FreesAreGood(initial: set<string>, log: seq<Command>, i: nat, h: nat)
    requires Accounts(initial, log).Some? && i < |log| && Ends(log[i], h)
    ensures exists j :: Held(log[..i], j, h)
    ensures log[i] == Freed(h) ==>
              forall j: nat, k: nat :: Held(log[..i], j, k) ==> !(log[j].OpenedKey? && log[j].provider == h)
  {
    hide Accounts;
    PrefixAccounts(initial, log, i);
    LiveMeans(initial, log[..i], h);
    if log[i] == Freed(h) {
      forall j: nat, k: nat | Held(log[..i], j, k) ensures !(log[j].OpenedKey? && log[j].provider == h) {
        HeldIsLive(initial, log[..i], j, k);
      }
    }
  }

  /** Every key handle's provider handle is live. */
  predicate Rooted(live: Handles) {
    forall k :: k in live && live[k].KeyOf? ==> live[k].provider in live && live[live[k].provider] == Provider
  }

  lemma RootedStays(live: Handles, h: nat, p: nat, name: string)
    requires Rooted(live)
    ensures h !in live ==> Rooted(live[h := Provider]) && !HasKeys(live, h) && !HasKeys(live[h := Provider], h)
    ensures h !in live && p in live && live[p] == Provider ==> Rooted(live[h := KeyOf(p, name)])
    ensures !HasKeys(live, h) ==> Rooted(live - {h})
    ensures IsKey(live, h) ==> !HasKeys(live, h)
  {
    if !HasKeys(live, h) {
      forall k | k in live - {h} && live[k].KeyOf? ensures live[k].provider != h { }
    }
  }

  // ----- the calls

  type Plan = seq<Outcome<bytes>>

  /** A buffer of `size` zero bytes after `data` was written to its front. */
  function Fill(data: bytes, size: nat): (buffer: bytes)
    ensures |buffer| == size
  {
    if |data| >= size then data[..size] else data + Zeros(size - |data|)
  }

  /** The answer to a size query; only a positive size leads on to a buffer. */
  function SizeAt(plan: Plan, n: nat): Option<nat> {
    if At(plan, n).Works? && |At(plan, n).value| > 0 then Some(|At(plan, n).value|) else None
  }

  /** What a size query and then an export give: the whole buffer, written to or not. */
  function ExportAt(plan: Plan, n: nat): Option<bytes> {
    if SizeAt(plan, n).Some? && At(plan, n + 1).Works? then Some(Fill(At(plan, n + 1).value, SizeAt(plan, n).value)) else None
  }

  /** The point in such a buffer. */
  function PointAt(plan: Plan, n: nat): Option<(nat, nat)> {
    if ExportAt(plan, n).None? then None
    else match EccBlob.Parse(ExportAt(plan, n).value)
      case Ok(p) => Some(p)
      case Err(_) => None
  }

  /**
   The NCrypt API: open handles, stored keys, and everything done so far. `plan` says how the calls
   turn out, and `turn` is the number of the next one.
   */
  class NCrypt {
    const initial: set<string>
    const plan: Plan
    var turn: nat
    var live: Handles
    var stored: set<string>
    var log: seq<Command>
    var unused: nat

    ghost predicate Valid()
      reads this
    {
      && Accounts(initial, log) == Some(Books(live, stored)) && Rooted(live)
      && unused > 0 && 0 !in live && forall h :: h in live ==> h < unused
    }

    constructor (stored: set<string>, plan: Plan)
      ensures Valid() && live == map[] && this.stored == initial == stored && this.plan == plan && turn == 0 && log == []
    {
      initial, this.stored, this.plan := stored, stored, plan;
      live, log, unused, turn := map[], [], 1, 0;
    }

    /** Adds to the log a call that changes no handle and no key. */
    method Note(c: Command)
      requires Valid() && (c.UsageSet? || c.Exported? || c.Signed? || c == Finalized(c.h, false))
      requires (c.Signed? && c.raw.None?) || IsKey(live, c.h)
      modifies this`turn, this`log
      ensures Valid() && turn == old(turn) + 1 && log == old(log) + [c]
    {
      AccountsAppend(initial, log, c);
      turn, log := turn + 1, log + [c];
    }

    method OpenProvider() returns (h: Option<nat>)
      requires Valid()
      modifies this`turn, this`live, this`log, this`unused
      ensures Valid() && turn == old(turn) + 1 && (h.Some? <==> At(plan, old(turn)).Works?)
      ensures h.None? ==> live == old(live) && log == old(log)
      ensures h.Some? ==>
                && h.value != 0 && h.value !in old(live) && live == old(live)[h.value := Provider]
                && log == old(log) + [OpenedProvider(h.value)]
    {
      hide Rooted, Accounts;
      var ok := At(plan, turn).Works?;
      turn, h := turn + 1, None;
      if ok {
        RootedStays(live, unused, 0, "");
        h := Some(unused);
        AccountsAppend(initial, log, OpenedProvider(unused));
        log, live, unused := log + [OpenedProvider(unused)], live[unused := Provider], unused + 1;
      }
    }

    /** A key handle for a new or a stored key; refused for a name that is taken, or not there. */
    method OpenKey(provider: nat, name: string, create: bool) returns (h: Option<nat>)
      requires Valid() && provider in live && live[provider] == Provider
      modifies this`turn, this`live, this`log, this`unused
      ensures Valid() && turn == old(turn) + 1
      ensures h.Some? <==> At(plan, old(turn)).Works? && create == (name !in stored)
      ensures h.None? ==> live == old(live) && log == old(log)
      ensures h.Some? ==>
                && h.value != 0 && h.value !in old(live) && live == old(live)[h.value := KeyOf(provider, name)]
                && log == old(log) + [OpenedKey(provider, h.value, name, create)]
    {
      hide Rooted, Accounts;
      var ok := At(plan, turn).Works?;
      turn, h := turn + 1, None;
      if ok && create == (name !in stored) {
        RootedStays(live, unused, provider, name);
        h := Some(unused);
        AccountsAppend(initial, log, OpenedKey(provider, unused, name, create));
        log, live := log + [OpenedKey(provider, unused, name, create)], live[unused := KeyOf(provider, name)];
        unused := unused + 1;
      }
    }

    /** NCryptSetProperty of the key usage. */
    method SetUsage(h: nat) returns (ok: bool)
      requires Valid() && IsKey(live, h)
      modifies this`turn, this`log
      ensures Valid() && turn == old(turn) + 1 && ok == At(plan, old(turn)).Works?
      ensures log == old(log) + [UsageSet(h, ok)]
    {
      ok := At(plan, turn).Works?;
      Note(UsageSet(h, ok));
    }

    method Finalize(h: nat) returns (ok: bool)
      requires Valid() && IsKey(live, h)
      modifies this`turn, this`stored, this`log
      ensures Valid() && turn == old(turn) + 1 && ok == At(plan, old(turn)).Works?
      ensures stored == if ok then old(stored) + {live[h].name} else old(stored)
      ensures log == old(log) + [Finalized(h, ok)]
    {
      ok := At(plan, turn).Works?;
      AccountsAppend(initial, log, Finalized(h, ok));
      turn, log := turn + 1, log + [Finalized(h, ok)];
      if ok {
        stored := stored + {live[h].name};
      }
    }

    /** The size of the blob that NCryptExportKey would write. */
    method ExportSize(h: nat) returns (size: Option<nat>)
      requires Valid() && IsKey(live, h)
      modifies this`turn, this`log
      ensures Valid() && turn == old(turn) + 1 && size == SizeAt(plan, old(turn))
      ensures size.Some? ==> size.value > 0
      ensures log == if size.Some? then old(log) else old(log) + [Exported(h, None)]
    {
      size := SizeAt(plan, turn);
      if size.None? {
        Note(Exported(h, None));
      } else {
        turn := turn + 1;
      }
    }

    /** NCryptExportKey into a buffer of this size: the whole buffer, written to or not. */
    method ExportInto(h: nat, size: nat) returns (blob: Option<bytes>)
      requires Valid() && IsKey(live, h)
      modifies this`turn, this`log
      ensures Valid() && turn == old(turn) + 1 && log == old(log) + [Exported(h, blob)]
      ensures blob == if At(plan, old(turn)).Works? then Some(Fill(At(plan, old(turn)).value, size)) else None
    {
      blob := if At(plan, turn).Works? then Some(Fill(At(plan, turn).value, size)) else None;
      Note(Exported(h, blob));
    }

    method SignSize(h: nat, digest: bytes) returns (size: Option<nat>)
      requires Valid()
      modifies this`turn, this`log
      ensures Valid() && turn == old(turn) + 1
      ensures size == if IsKey(live, h) then SizeAt(plan, old(turn)) else None
      ensures size.Some? ==> IsKey(live, h) && size.value > 0
      ensures log == if size.Some? then old(log) else old(log) + [Signed(h, digest, None)]
    {
      size := SizeAt(plan, turn);
      if h !in live || !live[h].KeyOf? {
        size := None;
      }
      if size.None? {
        Note(Signed(h, digest, None));
      } else {
        turn := turn + 1;
      }
    }

    /** NCryptSignHash into a buffer of this size: the part of it that was written. */
    method SignInto(h: nat, digest: bytes, size: nat) returns (raw: Option<bytes>)
      requires Valid() && IsKey(live, h)
      modifies this`turn, this`log
      ensures Valid() && turn == old(turn) + 1 && log == old(log) + [Signed(h, digest, raw)]
      ensures raw == if At(plan, old(turn)).Works? && |At(plan, old(turn)).value| <= size then Some(At(plan, old(turn)).value) else None
    {
      raw := None;
      if At(plan, turn).Works? && |At(plan, turn).value| <= size {
        raw := Some(At(plan, turn).value);
      }
      Note(Signed(h, digest, raw));
    }

    method FreeObject(h: nat)
      requires Valid() && h in live && !HasKeys(live, h)
      modifies this`live, this`log
      ensures Valid() && live == old(live) - {h} && log == old(log) + [Freed(h)]
    {
      hide Rooted, HasKeys, Accounts;
      RootedStays(live, h, 0, "");
      AccountsAppend(initial, log, Freed(h));
      log, live := log + [Freed(h)], live - {h};
    }

    /** NCryptDeleteKey uses up the key handle when it succeeds, and only then. */
    method DeleteKey(h: nat) returns (ok: bool)
      requires Valid() && IsKey(live, h)
      modifies this`turn, this`live, this`stored, this`log
      ensures Valid() && turn == old(turn) + 1 && ok == At(plan, old(turn)).Works?
      ensures ok ==> live == old(live) - {h} && stored == old(stored) - {old(live)[h].name} && log == old(log) + [DeletedKey(h)]
      ensures !ok ==> live == old(live) && stored == old(stored) && log == old(log)
    {
      hide Rooted, HasKeys, Accounts;
      ok := At(plan, turn).Works?;
      turn := turn + 1;
      if ok {
        RootedStays(live, h, 0, "");
        AccountsAppend(initial, log, DeletedKey(h));
        log, stored, live := log + [DeletedKey(h)], stored - {live[h].name}, live - {h};
      }
    }
  }

  class TpmSigner {
    var hProv: nat
    var hKey: nat
    const point: (nat, nat)

    constructor (hProv: nat, hKey: nat, point: (nat, nat))
      ensures this.hProv == hProv && this.hKey == hKey && this.point == point
    {
      this.hProv, this.hKey, this.point := hProv, hKey, point;
    }

    /** Closed, or owner of a key handle that is the only one of an own provider handle. */
    ghost predicate Sound(live: Handles)
      reads this
    {
      PairSound(live, (hProv, hKey))
    }

    /**
     A signature is the DER form of the two halves of the raw one that NCrypt made for this digest
     with this key, and comes exactly when both calls work and the raw one has 64 bytes. A closed
     signer's handle is refused by NCrypt.
     */
    method Sign(api: NCrypt, digest: bytes, pss: bool, h: Hash) returns (r: Result<bytes, SignError>)
      requires api.Valid()
      modifies api`turn, api`log
      ensures api.Valid()
      ensures pss ==> r == Err(PssUnsupported)
      ensures !pss && h == OtherHash ==> r == Err(HashUnsupported)
      ensures !pss && h != OtherHash ==>
                (r == Err(WrongDigestLength)
                 <==> !((h == SHA256 && |digest| == 32) || (h == SHA384 && |digest| == 48) || (h == SHA512 && |digest| == 64)))
      ensures !pss && h != OtherHash && r != Err(WrongDigestLength) ==> r.Ok? || r == Err(DeviceFailed)
      ensures r.Ok? <==>
                && Refused(pss, h, digest).None? && IsKey(api.live, hKey)
                && At(api.plan, old(api.turn)).Works? && At(api.plan, old(api.turn) + 1).Works?
                && |At(api.plan, old(api.turn) + 1).value| == 64 && 64 <= |At(api.plan, old(api.turn)).value|
      ensures Refused(pss, h, digest).Some? ==>
                r == Err(Refused(pss, h, digest).value) && api.log == old(api.log) && api.turn == old(api.turn)
      ensures Refused(pss, h, digest).None? ==>
                && (r.Ok? || r == Err(DeviceFailed))
                && |api.log| == |old(api.log)| + 1 && old(api.log) <= api.log
                && var c := api.log[|old(api.log)|];
                && c.Signed? && c.h == hKey && c.digest == digest
                && (r.Ok? <==> c.raw.Some? && |c.raw.value| == 64)
                && (r.Ok? ==> DecodeSignature(r.value) == Some((Value(c.raw.value[..32]), Value(c.raw.value[32..]))))
      ensures r.Ok? ==> IsKey(api.live, hKey) && 8 <= |r.value| <= 72
    {
      hide Accounts, Rooted, DecodeSignature, Value;
      var refusal := Refused(pss, h, digest);
      if refusal.Some? {
        return Err(refusal.value);
      }
      var size := api.SignSize(hKey, digest);
      if size.None? {
        return Err(DeviceFailed);
      }
      var raw := api.SignInto(hKey, digest, size.value);
      if raw.None? {
        return Err(DeviceFailed);
      }
      var der := WindowsDer(raw.value);
      if der.None? {
        return Err(DeviceFailed);
      }
      return Ok(der.value);
    }

    /** Close: the key, then its provider, and nothing the second time. */
    method Close(api: NCrypt)
      requires api.Valid() && Sound(api.live)
      modifies this, api`live, api`log
      ensures api.Valid() && hProv == 0 && hKey == 0
      ensures api.live == Without(old(api.live), (old(hProv), old(hKey)))
      ensures api.log == if old(hKey) != 0 then old(api.log) + [Freed(old(hKey)), Freed(old(hProv))] else old(api.log)
    {
      hide Accounts;
      ghost var log := api.log;
      if hKey != 0 {
        api.FreeObject(hKey);
        hKey := 0;
      }
      if hProv != 0 {
        api.FreeObject(hProv);
        hProv := 0;
      }
    }
  }

  /** The handles of one signer: provider, then key; both 0 once closed. */
  type Pair = (nat, nat)

  predicate OwnKey(live: Handles, p: Pair) {
    && p.0 in live && live[p.0] == Provider && IsKey(live, p.1) && live[p.1].provider == p.0
    && forall k :: k in live && live[k].KeyOf? && live[k].provider == p.0 ==> k == p.1
  }

  predicate PairSound(live: Handles, p: Pair) {
    p == (0, 0) || (p.0 != 0 && p.1 != 0 && OwnKey(live, p))
  }

  function With(live: Handles, p: Pair, name: string): Handles {
    live[p.0 := Provider][p.1 := KeyOf(p.0, name)]
  }

  function Without(live: Handles, p: Pair): Handles {
    if p == (0, 0) then live else live - {p.1} - {p.0}
  }

  /** Two handles that were not live before, as a successful createKey or loadKey gets them. */
  predicate NewPair(live: Handles, p: Pair) {
    p.0 != 0 && p.1 != 0 && p.0 != p.1 && p.0 !in live && p.1 !in live
  }

  /** exportECCPublicKey: the point whose printed form begins the exported buffer, if there is one. */
  method ExportPublicKey(api: NCrypt, h: nat) returns (point: Option<(nat, nat)>)
    requires api.Valid() && IsKey(api.live, h)
    modifies api`turn, api`log
    ensures api.Valid() && point == PointAt(api.plan, old(api.turn))
    ensures api.log == old(api.log) + [Exported(h, ExportAt(api.plan, old(api.turn)))]
    ensures point.Some? ==>
              && ExportAt(api.plan, old(api.turn)).Some? && point.value.0 < Pow256(32) && point.value.1 < Pow256(32)
              && EccBlob.Print(point.value.0, point.value.1) <= ExportAt(api.plan, old(api.turn)).value
  {
    hide Rooted, Accounts, EccBlob.Parse, EccBlob.Print, Pow256, Fill;
    var size := api.ExportSize(h);
    if size.None? {
      return None;
    }
    var blob := api.ExportInto(h, size.value);
    if blob.None? {
      return None;
    }
    var parsed := EccBlob.Parse(blob.value);
    if parsed.Err? {
      return None;
    }
    EccBlob.ParseExact(blob.value, parsed.value.0, parsed.value.1);
    return Some(parsed.value);
  }

  // ----- the operations

  /** How a createKey ends. */
  datatype Fate = NoProvider | NoKey | NoUsage | NotFinalized | NotExported | HandedOut

  /** The first thing that goes wrong decides; a key cannot be made under an unusable or taken name. */
  function CreateFate(plan: Plan, n: nat, usable: bool): Fate {
    if At(plan, n).Fails? then NoProvider
    else if !usable || At(plan, n + 1).Fails? then NoKey
    else if At(plan, n + 2).Fails? then NoUsage
    else if At(plan, n + 3).Fails? then NotFinalized
    else if PointAt(plan, n + 4).None? then NotExported
    else HandedOut
  }

  /** All that a createKey asks of NCrypt to some effect, in order. */
  function CreateTrace(fate: Fate, p: nat, k: nat, name: string, blob: Option<bytes>): seq<Command> {
    match fate
    case NoProvider => []
    case NoKey => [OpenedProvider(p), Freed(p)]
    case NoUsage => [OpenedProvider(p), OpenedKey(p, k, name, true), UsageSet(k, false), Freed(k), Freed(p)]
    case NotFinalized =>
      [OpenedProvider(p), OpenedKey(p, k, name, true), UsageSet(k, true), Finalized(k, false), Freed(k), Freed(p)]
    case NotExported =>
      [OpenedProvider(p), OpenedKey(p, k, name, true), UsageSet(k, true), Finalized(k, true), Exported(k, blob),
       Freed(k), Freed(p)]
    case HandedOut =>
      [OpenedProvider(p), OpenedKey(p, k, name, true), UsageSet(k, true), Finalized(k, true), Exported(k, blob)]
  }

  /** The last command of a key's opening, and freeing both handles again. */
  lemma PairGone(live: Handles, p: nat, k: nat, name: string)
    requires Rooted(live) && p !in live && k !in live && p != k
    ensures var with := live[p := Provider][k := KeyOf(p, name)];
            && !HasKeys(with, k) && with - {k} == live[p := Provider]
            && !HasKeys(live[p := Provider], p) && live[p := Provider] - {p} == live
  {
    RootedStays(live, p, 0, "");
    RootedStays(live[p := Provider], k, p, name);
    RootedStays(live[p := Provider][k := KeyOf(p, name)], k, 0, "");
  }

  /** The middle of such a trace, once there is a key handle. */
  function FinishTrace(fate: Fate, k: nat, blob: Option<bytes>): seq<Command> {
    match fate
    case NoProvider | NoKey => []
    case NoUsage => [UsageSet(k, false)]
    case NotFinalized => [UsageSet(k, true), Finalized(k, false)]
    case NotExported | HandedOut => [UsageSet(k, true), Finalized(k, true), Exported(k, blob)]
  }

  lemma CreateTraceParts(fate: Fate, p: nat, k: nat, name: string, blob: Option<bytes>, log: seq<Command>)
    requires fate !in {NoProvider, NoKey}
    ensures var finished := log + [OpenedProvider(p)] + [OpenedKey(p, k, name, true)] + FinishTrace(fate, k, blob);
            log + CreateTrace(fate, p, k, name, blob)
            == if fate == HandedOut then finished else finished + [Freed(k)] + [Freed(p)]
  {
  }

  /** createKey from the key usage to the exported public key. */
  method FinishKey(api: NCrypt, h: nat) returns (point: Option<(nat, nat)>, ghost fate: Fate)
    requires api.Valid() && IsKey(api.live, h)
    modifies api`turn, api`stored, api`log
    ensures api.Valid() && fate !in {NoProvider, NoKey} && (point.Some? <==> fate == HandedOut)
    ensures fate == (if At(api.plan, old(api.turn)).Fails? then NoUsage
                     else if At(api.plan, old(api.turn) + 1).Fails? then NotFinalized
                     else if PointAt(api.plan, old(api.turn) + 2).None? then NotExported
                     else HandedOut)
    ensures api.log == old(api.log) + FinishTrace(fate, h, ExportAt(api.plan, old(api.turn) + 2))
    ensures api.stored == if fate in {NotExported, HandedOut} then old(api.stored) + {api.live[h].name} else old(api.stored)
    ensures point.Some? ==>
              && point == PointAt(api.plan, old(api.turn) + 2) && ExportAt(api.plan, old(api.turn) + 2).Some?
              && EccBlob.Print(point.value.0, point.value.1) <= ExportAt(api.plan, old(api.turn) + 2).value
  {
    hide Rooted, Account, Accounts, ExportAt, PointAt, Pow256, EccBlob.Print;
    ghost var log, blob := api.log, ExportAt(api.plan, api.turn + 2);
    point, fate := None, NoUsage;
    var usageSet := api.SetUsage(h);
    if usageSet {
      fate := NotFinalized;
      var finalized := api.Finalize(h);
      if finalized {
        point := ExportPublicKey(api, h);
        fate := if point.Some? then HandedOut else NotExported;
      }
    }
    assert api.log == log + FinishTrace(fate, h, blob);
  }

  /** createKey, with its two deferred frees; a key that was finalized stays stored whatever comes after. */
  method CreateKey(api: NCrypt, name: string) returns (signer: TpmSigner?, ghost fate: Fate, ghost pair: Pair)
    requires api.Valid()
    modifies api
    ensures api.Valid()
    ensures fate == CreateFate(api.plan, old(api.turn), '\0' !in name && name !in old(api.stored))
    ensures api.log == old(api.log) + CreateTrace(fate, pair.0, pair.1, name, ExportAt(api.plan, old(api.turn) + 4))
    ensures signer != null <==> fate == HandedOut
    ensures signer == null ==> api.live == old(api.live)
    ensures signer != null ==>
              && fresh(signer) && (signer.hProv, signer.hKey) == pair && NewPair(old(api.live), pair)
              && api.live == With(old(api.live), pair, name)
              && PointAt(api.plan, old(api.turn) + 4) == Some(signer.point)
              && EccBlob.Print(signer.point.0, signer.point.1) <= ExportAt(api.plan, old(api.turn) + 4).value
    ensures fate in {NotExported, HandedOut} ==> name !in old(api.stored) && api.stored == old(api.stored) + {name}
    ensures fate !in {NotExported, HandedOut} ==> api.stored == old(api.stored)
  {
    hide Rooted, Account, Accounts, HasKeys, ExportAt, PointAt, Pow256, EccBlob.Print, FinishTrace;
    ghost var live, log, blob := api.live, api.log, ExportAt(api.plan, api.turn + 4);
    signer, pair := null, (0, 0);
    var hProv := api.OpenProvider();
    if hProv.None? {
      fate := NoProvider;
      assert api.log == log + CreateTrace(fate, 0, 0, name, blob);
      return;
    }
    pair := (hProv.value, 0);
    RootedStays(live, hProv.value, 0, "");
    if '\0' in name {
      api.FreeObject(hProv.value);
      fate := NoKey;
      assert api.log == log + CreateTrace(fate, hProv.value, 0, name, blob);
      return;
    }
    var hKey := api.OpenKey(hProv.value, name, true);
    if hKey.None? {
      api.FreeObject(hProv.value);
      fate := NoKey;
      assert api.log == log + CreateTrace(fate, hProv.value, 0, name, blob);
      return;
    }
    pair := (hProv.value, hKey.value);
    PairGone(live, hProv.value, hKey.value, name);
    var point;
    point, fate := FinishKey(api, hKey.value);
    CreateTraceParts(fate, hProv.value, hKey.value, name, blob, log);
    if point.None? {
      api.FreeObject(hKey.value);
      api.FreeObject(hProv.value);
      return;
    }
    signer := new TpmSigner(hProv.value, hKey.value, point.value);
  }

  lemma {:induction false} StoredUnchanged(initial: set<string>, log: seq<Command>, t: seq<Command>)
    requires Accounts(initial, log + t).Some?
    requires forall c :: c in t ==> !c.DeletedKey? && (c.Finalized? ==> !c.ok)
    ensures Accounts(initial, log).Some? && Accounts(initial, log + t).value.stored == Accounts(initial, log).value.stored
  {
    if t == [] {
      assert log + t == log;
    } else {
      var front, last := t[..|t| - 1], t[|t| - 1];
      assert log + t == log + front + [last];
      AccountsAppend(initial, log + front, last);
      StoredUnchanged(initial, log, front);
    }
  }

  lemma OpenedUnder(initial: set<string>, log: seq<Command>, p: nat, k: nat, name: string)
    requires var made := log + [OpenedProvider(p)] + [OpenedKey(p, k, name, true)] + [UsageSet(k, true)];
             Accounts(initial, made + [Finalized(k, true)]).Some?
    ensures var made := log + [OpenedProvider(p)] + [OpenedKey(p, k, name, true)] + [UsageSet(k, true)];
            name in Accounts(initial, made + [Finalized(k, true)]).value.stored
  {
    hide Accounts;
    var one := log + [OpenedProvider(p)];
    var two := one + [OpenedKey(p, k, name, true)];
    AccountsAppend(initial, two + [UsageSet(k, true)], Finalized(k, true));
    AccountsAppend(initial, two, UsageSet(k, true));
    AccountsAppend(initial, one, OpenedKey(p, k, name, true));
  }

  /** A create leaves a key of its name stored exactly when it finalized one, returned or not; it deletes nothing. */
  lemma CreateStoresIff(initial: set<string>, log: seq<Command>, fate: Fate, p: nat, k: nat, name: string, blob: Option<bytes>)
    requires Accounts(initial, log).Some? && name !in Accounts(initial, log).value.stored
    requires Accounts(initial, log + CreateTrace(fate, p, k, name, blob)).Some?
    ensures name in Accounts(initial, log + CreateTrace(fate, p, k, name, blob)).value.stored
            <==> Finalized(k, true) in CreateTrace(fate, p, k, name, blob)
    ensures forall c :: c in CreateTrace(fate, p, k, name, blob) ==> !c.DeletedKey?
  {
    hide Accounts;
    var t := CreateTrace(fate, p, k, name, blob);
    if fate !in {NotExported, HandedOut} {
      StoredUnchanged(initial, log, t);
    } else {
      var made := log + [OpenedProvider(p)] + [OpenedKey(p, k, name, true)] + [UsageSet(k, true)];
      assert t[3] == Finalized(k, true);
      assert log + t == made + [Finalized(k, true)] + t[4..];
      StoredUnchanged(initial, made + [Finalized(k, true)], t[4..]);
      OpenedUnder(initial, log, p, k, name);
    }
  }

  const EXPORT_FAILS: Plan := [Works([]), Works([]), Works([]), Works([]), Fails]

  lemma ExportFails()
    ensures CreateFate(EXPORT_FAILS, 0, true) == NotExported
  {
  }

  /** A run in which the export fails after the finalization: no signer, no open handle, and the key is stored. */
  method FailedCreateKeepsKey(name: string) returns (api: NCrypt, signer: TpmSigner?)
    requires '\0' !in name
    ensures api.Valid() && signer == null && api.initial == {} && api.stored == {name} && api.live == map[]
  {
    hide CreateFate, CreateTrace, Accounts, ExportAt, PointAt, EccBlob.Print;
    api := new NCrypt({}, EXPORT_FAILS);
    ExportFails();
    var s, _, _ := CreateKey(api, name);
    signer := s;
  }

  /** loadKey. */
  method LoadKey(api: NCrypt, name: string) returns (signer: TpmSigner?)
    requires api.Valid()
    modifies api
    ensures api.Valid() && api.stored == old(api.stored)
    ensures signer == null ==> api.live == old(api.live)
    ensures signer != null ==>
              && fresh(signer) && name in api.stored && NewPair(old(api.live), (signer.hProv, signer.hKey))
              && api.live == With(old(api.live), (signer.hProv, signer.hKey), name)
              && PointAt(api.plan, old(api.turn) + 2) == Some(signer.point)
              && EccBlob.Print(signer.point.0, signer.point.1) <= ExportAt(api.plan, old(api.turn) + 2).value
    ensures signer != null <==>
              && At(api.plan, old(api.turn)).Works? && '\0' !in name && name in old(api.stored)
              && At(api.plan, old(api.turn) + 1).Works? && PointAt(api.plan, old(api.turn) + 2).Some?
  {
    hide Rooted, Account, Accounts, HasKeys, ExportAt, PointAt, Pow256, EccBlob.Print;
    ghost var live := api.live;
    var hProv := api.OpenProvider();
    if hProv.None? {
      return null;
    }
    RootedStays(live, hProv.value, 0, "");
    if '\0' in name {
      api.FreeObject(hProv.value);
      return null;
    }
    var hKey := api.OpenKey(hProv.value, name, false);
    if hKey.None? {
      api.FreeObject(hProv.value);
      return null;
    }
    PairGone(live, hProv.value, hKey.value, name);
    var point := ExportPublicKey(api, hKey.value);
    if point.None? {
      api.FreeObject(hKey.value);
      api.FreeObject(hProv.value);
      return null;
    }
    signer := new TpmSigner(hProv.value, hKey.value, point.value);
  }

  /** deleteKey: NCryptDeleteKey has used up the key handle when it succeeded, and only then. */
  method DeleteKey(api: NCrypt, name: string) returns (ok: bool)
    requires api.Valid()
    modifies api
    ensures api.Valid() && api.live == old(api.live)
    ensures api.stored == if ok then old(api.stored) - {name} else old(api.stored)
    ensures ok <==>
              && At(api.plan, old(api.turn)).Works? && '\0' !in name && name in old(api.stored)
              && At(api.plan, old(api.turn) + 1).Works? && At(api.plan, old(api.turn) + 2).Works?
  {
    hide Rooted, Account, Accounts, HasKeys;
    ghost var live := api.live;
    var hProv := api.OpenProvider();
    if hProv.None? {
      return false;
    }
    RootedStays(live, hProv.value, 0, "");
    if '\0' in name {
      api.FreeObject(hProv.value);
      return false;
    }
    var hKey := api.OpenKey(hProv.value, name, false);
    if hKey.None? {
      api.FreeObject(hProv.value);
      return false;
    }
    PairGone(live, hProv.value, hKey.value, name);
    ok := api.DeleteKey(hKey.value);
    if !ok {
      api.FreeObject(hKey.value);
    }
    api.FreeObject(hProv.value);
  }

  // ----- signers and their handles

  /** The live handles, and the handles of every signer handed out so far. */
  datatype World = World(live: Handles, signers: seq<Pair>)

  predicate OwnedBy(signers: seq<Pair>, h: nat) {
    exists i :: 0 <= i < |signers| && h != 0 && (h == signers[i].0 || h == signers[i].1)
  }

  predicate Apart(p: Pair, q: Pair) {
    p == (0, 0) || q == (0, 0) || (p.0 != q.0 && p.0 != q.1 && p.1 != q.0 && p.1 != q.1)
  }

  /** The live handles are exactly those of the unclosed signers, and no two share one. */
  predicate Conserved(w: World) {
    && (forall h :: h in w.live ==> OwnedBy(w.signers, h))
    && (forall i :: 0 <= i < |w.signers| ==> PairSound(w.live, w.signers[i]))
    && (forall i, j :: 0 <= i < j < |w.signers| ==> Apart(w.signers[i], w.signers[j]))
  }

  lemma MadeKeepsOwners(w: World, p: Pair, name: string, h: nat)
    requires Conserved(w) && NewPair(w.live, p) && h in With(w.live, p, name)
    ensures OwnedBy(w.signers + [p], h)
  {
    if h in w.live {
      assert OwnedBy(w.signers, h);
      var i :| 0 <= i < |w.signers| && h != 0 && (h == w.signers[i].0 || h == w.signers[i].1);
      assert (w.signers + [p])[i] == w.signers[i];
    } else {
      assert (w.signers + [p])[|w.signers|] == p;
    }
  }

  lemma MadeKeepsPair(live: Handles, p: Pair, name: string, q: Pair)
    requires PairSound(live, q) && NewPair(live, p)
    ensures PairSound(With(live, p, name), q) && Apart(q, p)
  {
  }

  lemma MadeConserves(w: World, p: Pair, name: string)
    requires Conserved(w) && NewPair(w.live, p)
    ensures Conserved(World(With(w.live, p, name), w.signers + [p]))
  {
    assert PairSound(With(w.live, p, name), p) by { KeysHaveProviders(w, p); }
    hide PairSound, With, OwnedBy, NewPair, Apart;
    var live, signers := With(w.live, p, name), w.signers + [p];
    forall h | h in live ensures OwnedBy(signers, h) { MadeKeepsOwners(w, p, name, h); }
    forall i | 0 <= i < |w.signers| ensures PairSound(live, w.signers[i]) && Apart(w.signers[i], p) {
      MadeKeepsPair(w.live, p, name, w.signers[i]);
    }
  }

  lemma KeysHaveProviders(w: World, p: Pair)
    requires Conserved(w) && NewPair(w.live, p)
    ensures !HasKeys(w.live, p.0)
  {
    forall k | k in w.live && w.live[k].KeyOf? ensures w.live[k].provider != p.0 {
      assert OwnedBy(w.signers, k);
      var i :| 0 <= i < |w.signers| && k != 0 && (k == w.signers[i].0 || k == w.signers[i].1);
      assert PairSound(w.live, w.signers[i]);
    }
  }

  lemma CloseKeepsPair(live: Handles, p: Pair, q: Pair)
    requires PairSound(live, p) && PairSound(live, q) && Apart(p, q)
    ensures PairSound(Without(live, p), q) && PairSound(Without(live, q), p)
  {
  }

  lemma CloseKeepsOwners(w: World, i: nat, h: nat)
    requires Conserved(w) && i < |w.signers| && h in Without(w.live, w.signers[i])
    ensures OwnedBy(w.signers[i := (0, 0)], h)
  {
    assert OwnedBy(w.signers, h);
    var j :| 0 <= j < |w.signers| && h != 0 && (h == w.signers[j].0 || h == w.signers[j].1);
    assert w.signers[i := (0, 0)][j] == w.signers[j];
  }

  lemma CloseConserves(w: World, i: nat)
    requires Conserved(w) && i < |w.signers|
    ensures Conserved(World(Without(w.live, w.signers[i]), w.signers[i := (0, 0)]))
  {
    hide PairSound, Without, OwnedBy;
    var live, signers := Without(w.live, w.signers[i]), w.signers[i := (0, 0)];
    forall h | h in live ensures OwnedBy(signers, h) { CloseKeepsOwners(w, i, h); }
    forall j | 0 <= j < |signers| ensures PairSound(live, signers[j]) {
      if j < i {
        CloseKeepsPair(w.live, w.signers[j], w.signers[i]);
      } else if i < j {
        CloseKeepsPair(w.live, w.signers[i], w.signers[j]);
      } else {
        ClosedPair(live);
      }
    }
  }

  lemma ClosedPair(live: Handles)
    ensures PairSound(live, (0, 0))
  {
  }

  // ----- a caller

  datatype Request = Create(name: string) | Load(name: string) | Delete(name: string) | Shut(i: nat)

  ghost function Pairs(signers: seq<TpmSigner>): (r: seq<Pair>)
    reads signers
    ensures |r| == |signers| && forall i :: 0 <= i < |signers| ==> r[i] == (signers[i].hProv, signers[i].hKey)
  {
    if signers == [] then []
    else
      var last := signers[|signers| - 1];
      Pairs(signers[..|signers| - 1]) + [(last.hProv, last.hKey)]
  }

  /**
   Any program over this backend: whatever it calls and however NCrypt behaves, the live handles are
   exactly those of the signers it has not closed.
   */
  method Session(api: NCrypt, script: seq<Request>) returns (signers: seq<TpmSigner>)
    requires api.Valid() && api.live == map[]
    modifies api
    ensures api.Valid() && Conserved(World(api.live, Pairs(signers)))
  {
    hide Accounts, Rooted;
    signers := [];
    var n := 0;
    while n < |script|
      invariant n <= |script| && api.Valid() && Conserved(World(api.live, Pairs(signers)))
      invariant fresh(set s | s in signers)
      invariant forall i, j :: 0 <= i < j < |signers| ==> signers[i] != signers[j]
    {
      hide Conserved;
      signers := OneRequest(api, script[n], signers);
      n := n + 1;
    }
  }

  method OneRequest(api: NCrypt, request: Request, signers: seq<TpmSigner>) returns (after: seq<TpmSigner>)
    requires api.Valid() && Conserved(World(api.live, Pairs(signers)))
    requires forall i, j :: 0 <= i < j < |signers| ==> signers[i] != signers[j]
    modifies api, signers
    ensures api.Valid() && Conserved(World(api.live, Pairs(after)))
    ensures forall i, j :: 0 <= i < j < |after| ==> after[i] != after[j]
    ensures fresh((set s | s in after) - (set s | s in signers))
  {
    hide Accounts, Account, Rooted, Conserved, CreateFate, CreateTrace, ExportAt, PointAt, PairSound, NewPair, With, Without, OwnKey, HasKeys, IsKey, At, EccBlob.Print, Pairs;
    ghost var live, pairs := api.live, Pairs(signers);
    after := signers;
    match request
    case Create(name) =>
      var signer, _, pair := CreateKey(api, name);
      assert Pairs(signers) == pairs;
      if signer != null {
        after := signers + [signer];
        MadeConserves(World(live, pairs), pair, name);
        assert Pairs(after) == pairs + [pair];
      }
    case Load(name) =>
      var signer := LoadKey(api, name);
      assert Pairs(signers) == pairs;
      if signer != null {
        after := signers + [signer];
        MadeConserves(World(live, pairs), (signer.hProv, signer.hKey), name);
        assert Pairs(after) == pairs + [(signer.hProv, signer.hKey)];
      }
    case Delete(name) =>
      var _ := DeleteKey(api, name);
      assert Pairs(signers) == pairs;
    case Shut(i) =>
      if i < |signers| {
        ConservedAt(World(live, pairs), i);
        signers[i].Close(api);
        CloseConserves(World(live, pairs), i);
        assert Pairs(signers) == pairs[i := (0, 0)];
      }
  }

  /** So every Close may free what it frees. */
  lemma ConservedAt(w: World, i: nat)
    requires Conserved(w) && i < |w.signers|
    ensures PairSound(w.live, w.signers[i])
  {
  }
}
