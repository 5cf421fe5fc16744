/**
 key_darwin.go over a keychain that itself allows several keys with one tag: the guard that keeps
 names unique, the rollback of a failed create, and who releases which key reference.
 */
module DarwinBackend {
  import opened Bytes
  import opened Environment

  /** A permanent private key; `id` tells keys apart that share a tag. */
  datatype Item = Item(tag: string, id: nat)

  function CountTag(items: seq<Item>, tag: string): nat {
    if items == [] then 0 else CountTag(items[..|items| - 1], tag) + if items[|items| - 1].tag == tag then 1 else 0
  }

  /** What SecItemDelete leaves: it removes every match. */
  function Others(items: seq<Item>, tag: string): seq<Item> {
    if items == [] then []
    else Others(items[..|items| - 1], tag) + if items[|items| - 1].tag == tag then [] else [items[|items| - 1]]
  }

  ghost predicate Unique(items: seq<Item>) {
    forall tag :: CountTag(items, tag) <= 1
  }

  lemma {:induction false} CountOthers(items: seq<Item>, tag: string, other: string)
    ensures CountTag(Others(items, tag), other) == if other == tag then 0 else CountTag(items, other)
  {
    if items == [] {
    } else {
      var front, last := items[..|items| - 1], items[|items| - 1];
      CountOthers(front, tag, other);
      if last.tag == tag {
        assert Others(items, tag) == Others(front, tag);
      } else {
        assert Others(items, tag)[..|Others(front, tag)|] == Others(front, tag);
      }
    }
  }

  /** A delete leaves exactly the keys of other names. */
  lemma {:induction false} OthersExact(items: seq<Item>, tag: string, x: Item)
    ensures x in Others(items, tag) <==> x in items && x.tag != tag
  {
    if items == [] {
    } else {
      var front, last := items[..|items| - 1], items[|items| - 1];
      OthersExact(front, tag, x);
      assert items == front + [last];
    }
  }

  lemma {:induction false} OthersOfAbsent(items: seq<Item>, tag: string)
    ensures Others(items, tag) == items <==> CountTag(items, tag) == 0
    ensures |Others(items, tag)| + CountTag(items, tag) == |items|
  {
    if items == [] {
    } else {
      OthersOfAbsent(items[..|items| - 1], tag);
      assert items == items[..|items| - 1] + [items[|items| - 1]];
      if CountTag(items, tag) == 0 {
        assert Others(items, tag) == items;
      }
    }
  }

  lemma CountAppend(items: seq<Item>, item: Item, tag: string)
    ensures CountTag(items + [item], tag) == CountTag(items, tag) + if item.tag == tag then 1 else 0
    ensures Others(items + [item], item.tag) == Others(items, item.tag)
  {
    assert (items + [item])[..|items|] == items;
  }

  lemma {:induction false} CountAtLeast(items: seq<Item>, i: nat, j: nat)
    requires i < |items| && j < |items|
    ensures CountTag(items, items[i].tag) >= 1
    ensures i != j && items[i].tag == items[j].tag ==> CountTag(items, items[i].tag) >= 2
    decreases |items|
  {
    var m := |items| - 1;
    if i < m && j < m {
      CountAtLeast(items[..m], i, j);
    } else if i < m {
      CountAtLeast(items[..m], i, i);
    } else if j < m {
      CountAtLeast(items[..m], j, j);
    }
  }

  /** With unique tags a load can only find one key, whichever match the keychain picks. */
  lemma LoadDeterministic(items: seq<Item>, i: nat, j: nat)
    requires Unique(items) && i < |items| && j < |items| && items[i].tag == items[j].tag
    ensures i == j
  {
    CountAtLeast(items, i, j);
  }

  // ----- the framework's calls

  /** A call that works picks, where several keys match, one of them. */
  type Plan = seq<Outcome<nat>>

  /** A retained key reference and the key it refers to. */
  datatype Ref = Ref(handle: nat, item: Item)

  /** One call into keychain_darwin.c with its result. */
  datatype Command =
    | Sought(tag: string, found: Option<Ref>)
    | Added(tag: string, made: Option<Ref>)
    | Exported(handle: nat, ok: bool)
    | Released(handle: nat)
    | Erased(tag: string, ok: bool)

  datatype Books = Books(items: seq<Item>, refs: map<nat, Item>)

  /** What a call does; references are new when they are handed out, and used and released only while retained. */
  function Account(b: Books, c: Command): Option<Books> {
    match c
    case Sought(tag, None) => Some(b)
    case Sought(tag, Some(ref)) =>
      if ref.item in b.items && ref.item.tag == tag && ref.handle != 0 && ref.handle !in b.refs
      then Some(b.(refs := b.refs[ref.handle := ref.item])) else None
    case Added(tag, None) => Some(b)
    case Added(tag, Some(ref)) =>
      if ref.item.tag == tag && ref.handle != 0 && ref.handle !in b.refs
      then Some(Books(b.items + [ref.item], b.refs[ref.handle := ref.item])) else None
    case Exported(h, _) => if h in b.refs then Some(b) else None
    case Released(h) => if h in b.refs then Some(b.(refs := b.refs - {h})) else None
    case Erased(tag, ok) =>
      if !ok then Some(b) else if CountTag(b.items, tag) > 0 then Some(b.(items := Others(b.items, tag))) else None
  }

  function Accounts(initial: seq<Item>, log: seq<Command>): Option<Books> {
    if log == [] then Some(Books(initial, map[]))
    else match Accounts(initial, log[..|log| - 1])
      case None => None
      case Some(b) => Account(b, log[|log| - 1])
  }

  lemma AccountsAppend(initial: seq<Item>, log: seq<Command>, c: Command)
    ensures Accounts(initial, log + [c]) == match Accounts(initial, log) case None => None case Some(b) => Account(b, c)
  {
    assert (log + [c])[..|log|] == log;
  }

  /** The command retains this reference. */
  predicate Retains(c: Command, h: nat) {
    || (c.Sought? && c.found.Some? && c.found.value.handle == h)
    || (c.Added? && c.made.Some? && c.made.value.handle == h)
  }

  /** Retained, and not released since. */
  predicate Held(log: seq<Command>, j: nat, h: nat) {
    j < |log| && Retains(log[j], h) && forall m :: j < m < |log| ==> log[m] != Released(h)
  }

  lemma {:induction false} RetainedMeans(initial: seq<Item>, log: seq<Command>, h: nat)
    requires Accounts(initial, log).Some? && h in Accounts(initial, log).value.refs
    ensures exists j :: Held(log, j, h)
  {
    hide CountTag, Others;
    var front, m := log[..|log| - 1], |log| - 1;
    if Retains(log[m], h) {
      assert Held(log, m, h);
    } else {
      RetainedMeans(initial, front, h);
      var j :| Held(front, j, h);
      assert Held(log, j, h);
    }
  }

  lemma {:induction false} PrefixAccounts(initial: seq<Item>, log: seq<Command>, i: nat)
    requires Accounts(initial, log).Some? && i <= |log|
    ensures Accounts(initial, log[..i]).Some?
    ensures i < |log| ==> Account(Accounts(initial, log[..i]).value, log[i]).Some?
    decreases |log|
  {
    hide CountTag, Others;
    if i == |log| {
      assert log[..i] == log;
    } else {
      var front := log[..|log| - 1];
      PrefixAccounts(initial, front, i);
      assert front[..i] == log[..i];
    }
  }

  lemma {:induction false} HeldIsRetained(initial: seq<Item>, log: seq<Command>, j: nat, h: nat)
    requires Accounts(initial, log).Some? && Held(log, j, h)
    ensures h in Accounts(initial, log).value.refs
  {
    hide CountTag, Others;
    var front, m := log[..|log| - 1], |log| - 1;
    if j < m {
      assert Held(front, j, h);
      HeldIsRetained(initial, front, j, h);
    }
  }

  /** A reference is not nil and handed out only when it is not held. */
  lemma RetainsAreGood(initial: seq<Item>, log: seq<Command>, i: nat, h: nat)
    requires Accounts(initial, log).Some? && i < |log| && Retains(log[i], h)
    ensures h != 0 && forall j: nat :: !Held(log[..i], j, h)
  {
    hide Accounts;
    PrefixAccounts(initial, log, i);
    forall j: nat ensures !Held(log[..i], j, h) {
      if Held(log[..i], j, h) { HeldIsRetained(initial, log[..i], j, h); }
    }
  }

  /** A reference is exported from or released only while it is held, so it is never released twice. */
  lemma ReleasesAreGood(initial: seq<Item>, log: seq<Command>, i: nat, h: nat)
    requires Accounts(initial, log).Some? && i < |log|
    requires log[i] == Released(h) || log[i] in {Exported(h, true), Exported(h, false)}
    ensures exists j :: Held(log[..i], j, h)
  {
    hide Accounts;
    PrefixAccounts(initial, log, i);
    RetainedMeans(initial, log[..i], h);
  }

  /**
   The Security framework as keychain_darwin.c uses it. `plan` says how its calls turn out, and `turn`
   is the number of the next one.
   */
  class Keychain {
    const initial: seq<Item>
    const plan: Plan
    var turn: nat
    var items: seq<Item>
    var refs: map<nat, Item>
    var log: seq<Command>
    var unused: nat

    ghost predicate Valid()
      reads this
    {
      && Accounts(initial, log) == Some(Books(items, refs))
      && unused > 0 && 0 !in refs && forall r :: r in refs ==> r < unused
    }

    constructor (items: seq<Item>, plan: Plan)
      ensures Valid() && this.items == initial == items && this.plan == plan && turn == 0 && refs == map[] && log == []
    {
      initial, this.plan, this.items := items, plan, items;
      refs, log, unused, turn := map[], [], 1, 0;
    }

    /** kp_load_key: a reference to some match, or a failure, which need not mean that there is none. */
    method LoadRef(tag: string) returns (r: Option<nat>)
      requires Valid()
      modifies this`turn, this`refs, this`log, this`unused
      ensures Valid() && turn == old(turn) + 1
      ensures r.None? ==> refs == old(refs) && log == old(log) + [Sought(tag, None)]
      ensures r.Some? ==>
                && At(plan, old(turn)).Works? && At(plan, old(turn)).value < |items|
                && var item := items[At(plan, old(turn)).value];
                && item.tag == tag && CountTag(items, tag) > 0
                && r.value != 0 && r.value !in old(refs) && refs == old(refs)[r.value := item]
                && log == old(log) + [Sought(tag, Some(Ref(r.value, item)))]
      ensures r.Some? <==> Finds(plan, old(turn), items, tag)
    {
      hide Accounts, CountTag, Others;
      var outcome := At(plan, turn);
      turn := turn + 1;
      if outcome.Works? && outcome.value < |items| && items[outcome.value].tag == tag {
        var item := items[outcome.value];
        CountAtLeast(items, outcome.value, outcome.value);
        AccountsAppend(initial, log, Sought(tag, Some(Ref(unused, item))));
        r, refs, log := Some(unused), refs[unused := item], log + [Sought(tag, Some(Ref(unused, item)))];
        unused := unused + 1;
      } else {
        AccountsAppend(initial, log, Sought(tag, None));
        r, log := None, log + [Sought(tag, None)];
      }
    }

    /** kp_create_key: adds a permanent key, whether or not the tag is taken. */
    method CreateRef(tag: string) returns (r: Option<nat>)
      requires Valid()
      modifies this`turn, this`items, this`refs, this`log, this`unused
      ensures Valid() && turn == old(turn) + 1
      ensures r.Some? <==> At(plan, old(turn)).Works?
      ensures r.None? ==> items == old(items) && refs == old(refs) && log == old(log) + [Added(tag, None)]
      ensures r.Some? ==>
                && r.value != 0 && r.value !in old(refs) && refs == old(refs)[r.value := Item(tag, r.value)]
                && items == old(items) + [Item(tag, r.value)]
                && log == old(log) + [Added(tag, Some(Ref(r.value, Item(tag, r.value))))]
    {
      hide Accounts, CountTag, Others;
      var outcome := At(plan, turn);
      turn := turn + 1;
      if outcome.Works? {
        var item := Item(tag, unused);
        AccountsAppend(initial, log, Added(tag, Some(Ref(unused, item))));
        r, refs, items := Some(unused), refs[unused := item], items + [item];
        log, unused := log + [Added(tag, Some(Ref(unused, item)))], unused + 1;
      } else {
        AccountsAppend(initial, log, Added(tag, None));
        r, log := None, log + [Added(tag, None)];
      }
    }

    /** copyPublicKey: kp_copy_public_key and the parsing of its result. */
    method Export(r: nat) returns (ok: bool)
      requires Valid() && r in refs
      modifies this`turn, this`log
      ensures Valid() && turn == old(turn) + 1 && ok == At(plan, old(turn)).Works?
      ensures log == old(log) + [Exported(r, ok)]
    {
      hide Accounts, CountTag, Others;
      ok := At(plan, turn).Works?;
      AccountsAppend(initial, log, Exported(r, ok));
      turn, log := turn + 1, log + [Exported(r, ok)];
    }

    /** kp_delete_key: every match, or none when it fails. */
    method DeleteAll(tag: string) returns (ok: bool)
      requires Valid()
      modifies this`turn, this`items, this`log
      ensures Valid() && turn == old(turn) + 1 && log == old(log) + [Erased(tag, ok)]
      ensures items == if ok then Others(old(items), tag) else old(items)
      ensures ok <==> At(plan, old(turn)).Works? && CountTag(old(items), tag) > 0
    {
      hide Accounts, CountTag, Others;
      ok := At(plan, turn).Works? && CountTag(items, tag) > 0;
      AccountsAppend(initial, log, Erased(tag, ok));
      turn, log := turn + 1, log + [Erased(tag, ok)];
      if ok {
        items := Others(items, tag);
      }
    }

    method Release(r: nat)
      requires Valid() && r in refs
      modifies this`refs, this`log
      ensures Valid() && refs == old(refs) - {r} && log == old(log) + [Released(r)]
    {
      hide Accounts, CountTag, Others;
      AccountsAppend(initial, log, Released(r));
      refs, log := refs - {r}, log + [Released(r)];
    }
  }

  /** The load that is call number `n` finds a key. */
  predicate Finds(plan: Plan, n: nat, items: seq<Item>, tag: string) {
    At(plan, n).Works? && At(plan, n).value < |items| && items[At(plan, n).value].tag == tag
  }

  class EnclaveSigner {
    /** 0 stands for the nil reference of a closed signer. */
    var priv: nat

    constructor (priv: nat)
      ensures this.priv == priv
    {
      this.priv := priv;
    }

    method Close(k: Keychain)
      requires k.Valid() && (priv != 0 ==> priv in k.refs)
      modifies this, k`refs, k`log
      ensures k.Valid() && priv == 0 && k.refs == old(k.refs) - {old(priv)}
      ensures k.log == if old(priv) != 0 then old(k.log) + [Released(old(priv))] else old(k.log)
    {
      if priv != 0 {
        k.Release(priv);
        priv := 0;
      }
    }
  }

  // ----- the operations

  /** How a createKey ends. */
  datatype Fate = Refused | NotMade | Kept | RolledBack | LeftBehind

  /** Which of these it is depends on what the guard, the creation, the export and the rollback's delete do. */
  function CreateFate(plan: Plan, n: nat, items: seq<Item>, tag: string): Fate {
    if Finds(plan, n, items, tag) then Refused
    else if At(plan, n + 1).Fails? then NotMade
    else if At(plan, n + 2).Works? then Kept
    else if At(plan, n + 3).Works? then RolledBack
    else LeftBehind
  }

  /** All that a createKey asks of the framework, in order, with `ref` the key it found or made. */
  function CreateTrace(fate: Fate, tag: string, ref: Ref): seq<Command> {
    match fate
    case Refused => [Sought(tag, Some(ref)), Released(ref.handle)]
    case NotMade => [Sought(tag, None), Added(tag, None)]
    case Kept => [Sought(tag, None), Added(tag, Some(ref)), Exported(ref.handle, true)]
    case RolledBack =>
      [Sought(tag, None), Added(tag, Some(ref)), Exported(ref.handle, false), Released(ref.handle), Erased(tag, true)]
    case LeftBehind =>
      [Sought(tag, None), Added(tag, Some(ref)), Exported(ref.handle, false), Released(ref.handle), Erased(tag, false)]
  }

  /** The deferred rollback of createKey. */
  method RollBack(k: Keychain, r: nat, tag: string) returns (deleted: bool)
    requires k.Valid() && r in k.refs
    modifies k`turn, k`items, k`refs, k`log
    ensures k.Valid() && k.turn == old(k.turn) + 1 && k.refs == old(k.refs) - {r}
    ensures k.log == old(k.log) + [Released(r), Erased(tag, deleted)]
    ensures k.items == if deleted then Others(old(k.items), tag) else old(k.items)
    ensures deleted <==> At(k.plan, old(k.turn)).Works? && CountTag(old(k.items), tag) > 0
  {
    hide Accounts, CountTag, Others;
    k.Release(r);
    deleted := k.DeleteAll(tag);
  }

  /**
   createKey: the guard first, a key only when the guard found none, and after a failed export the
   release of the reference and one delete of the tag.
   */
  method CreateKey(k: Keychain, tag: string) returns (signer: EnclaveSigner?, ghost fate: Fate, ghost ref: Ref)
    requires k.Valid()
    modifies k
    ensures k.Valid() && ref.item.tag == tag
    ensures fate == CreateFate(k.plan, old(k.turn), old(k.items), tag)
    ensures k.log == old(k.log) + CreateTrace(fate, tag, ref)
    ensures k.items == AfterCreate(old(k.items), fate, ref.item)
    ensures CountTag(old(k.items), tag) == 0 ==> fate != Refused
    ensures k.turn == old(k.turn) + (match fate case Refused => 1 case NotMade => 2 case Kept => 3 case _ => 4)
    ensures signer != null <==> fate == Kept
    ensures signer == null ==> k.refs == old(k.refs)
    ensures signer != null ==>
              && fresh(signer) && signer.priv == ref.handle != 0 && signer.priv !in old(k.refs)
              && k.refs == old(k.refs)[signer.priv := ref.item]
  {
    hide Accounts, Account, Finds, CountTag, Others;
    signer, ref := null, Ref(0, Item(tag, 0));
    ghost var log, refs, items := k.log, k.refs, k.items;
    var existing := k.LoadRef(tag);
    if existing.Some? {
      fate, ref := Refused, Ref(existing.value, k.refs[existing.value]);
      k.Release(existing.value);
      assert k.refs == refs;
      assert k.log == log + CreateTrace(fate, tag, ref);
      return;
    }
    var priv := k.CreateRef(tag);
    if priv.None? {
      fate := NotMade;
      assert k.log == log + CreateTrace(fate, tag, ref);
      return;
    }
    ref := Ref(priv.value, Item(tag, priv.value));
    CountAppend(items, ref.item, tag);
    var exported := k.Export(priv.value);
    if !exported {
      var deleted := RollBack(k, priv.value, tag);
      assert k.refs == refs;
      fate := if deleted then RolledBack else LeftBehind;
      assert k.log == log + CreateTrace(fate, tag, ref);
      return;
    }
    fate := Kept;
    assert k.log == log + CreateTrace(fate, tag, ref);
    signer := new EnclaveSigner(priv.value);
  }

  /** All that a loadKey asks of the framework: `found` is the key it found, `ok` whether that could be exported. */
  function LoadTrace(tag: string, found: Option<Ref>, ok: bool): seq<Command> {
    match found
    case None => [Sought(tag, None)]
    case Some(ref) =>
      if ok then [Sought(tag, found), Exported(ref.handle, true)]
      else [Sought(tag, found), Exported(ref.handle, false), Released(ref.handle)]
  }

  /** loadKey: a signer exactly when the load finds a key and its public key can be exported. */
  method LoadKey(k: Keychain, tag: string) returns (signer: EnclaveSigner?, ghost found: Option<Ref>)
    requires k.Valid()
    modifies k
    ensures k.Valid() && k.items == old(k.items) && AddsNothing(old(k.log), k.log)
    ensures k.log == old(k.log) + LoadTrace(tag, found, signer != null)
    ensures found.Some? <==> Finds(k.plan, old(k.turn), old(k.items), tag)
    ensures signer != null <==> found.Some? && At(k.plan, old(k.turn) + 1).Works?
    ensures signer == null ==> k.refs == old(k.refs)
    ensures signer != null ==>
              && fresh(signer) && signer.priv == found.value.handle != 0 && signer.priv !in old(k.refs)
              && exists i :: 0 <= i < |k.items| && k.items[i].tag == tag && k.refs == old(k.refs)[signer.priv := k.items[i]]
  {
    hide Accounts, Account, Finds, CountTag;
    ghost var log, refs := k.log, k.refs;
    signer, found := null, None;
    var priv := k.LoadRef(tag);
    if priv.None? {
      assert k.log == log + LoadTrace(tag, found, false);
      return;
    }
    found := Some(Ref(priv.value, k.refs[priv.value]));
    var exported := k.Export(priv.value);
    if !exported {
      k.Release(priv.value);
      assert k.refs == refs;
      assert k.log == log + LoadTrace(tag, found, false);
      return;
    }
    assert k.log == log + LoadTrace(tag, found, true);
    signer := new EnclaveSigner(priv.value);
  }

  /** deleteKey. */
  method DeleteKey(k: Keychain, tag: string) returns (ok: bool)
    requires k.Valid()
    modifies k`turn, k`items, k`log
    ensures k.Valid() && k.items == if ok then Others(old(k.items), tag) else old(k.items)
    ensures ok <==> At(k.plan, old(k.turn)).Works? && CountTag(old(k.items), tag) > 0
    ensures k.log == old(k.log) + [Erased(tag, ok)]
  {
    ok := k.DeleteAll(tag);
  }

  // ----- one key per name

  /** The keys a createKey leaves, by how it ends. */
  function AfterCreate(items: seq<Item>, fate: Fate, item: Item): seq<Item> {
    match fate
    case Refused | NotMade => items
    case Kept | LeftBehind => items + [item]
    case RolledBack => Others(items + [item], item.tag)
  }

  lemma AccountsTwo(initial: seq<Item>, log: seq<Command>, c: Command, d: Command)
    ensures Accounts(initial, log + [c, d])
            == match Accounts(initial, log + [c]) case None => None case Some(b) => Account(b, d)
  {
    assert log + [c, d] == log + [c] + [d];
    AccountsAppend(initial, log + [c], d);
  }

  /** What its calls do to the keychain, by the framework's rules. */
  lemma CreateTraceItems(initial: seq<Item>, log: seq<Command>, fate: Fate, tag: string, ref: Ref)
    requires ref.item.tag == tag && Accounts(initial, log).Some?
    requires Accounts(initial, log + CreateTrace(fate, tag, ref)).Some?
    ensures Accounts(initial, log + CreateTrace(fate, tag, ref)).value.items
            == AfterCreate(Accounts(initial, log).value.items, fate, ref.item)
  {
    hide Accounts;
    var t := CreateTrace(fate, tag, ref);
    AccountsAppend(initial, log, t[0]);
    AccountsTwo(initial, log, t[0], t[1]);
    if |t| == 2 {
      assert log + t == log + [t[0], t[1]];
    } else {
      AccountsAppend(initial, log + [t[0], t[1]], t[2]);
      if |t| == 3 {
        assert log + t == log + [t[0], t[1]] + [t[2]];
      } else {
        AccountsAppend(initial, log + [t[0], t[1]] + [t[2]], t[3]);
        AccountsAppend(initial, log + [t[0], t[1]] + [t[2]] + [t[3]], t[4]);
        assert log + t == log + [t[0], t[1]] + [t[2]] + [t[3]] + [t[4]];
      }
    }
  }

  /** A create leaves names unique exactly unless it made, and left, a key whose name its guard had missed. */
  lemma CreateKeepsUniqueIff(initial: seq<Item>, log: seq<Command>, fate: Fate, tag: string, ref: Ref)
    requires ref.item.tag == tag && Accounts(initial, log).Some? && Unique(Accounts(initial, log).value.items)
    requires Accounts(initial, log + CreateTrace(fate, tag, ref)).Some?
    ensures Unique(Accounts(initial, log + CreateTrace(fate, tag, ref)).value.items)
            <==> fate in {Refused, NotMade, RolledBack} || CountTag(Accounts(initial, log).value.items, tag) == 0
  {
    hide Accounts;
    CreateTraceItems(initial, log, fate, tag, ref);
    AfterCreateUnique(Accounts(initial, log).value.items, fate, ref.item);
  }

  lemma AfterCreateUnique(items: seq<Item>, fate: Fate, item: Item)
    requires Unique(items)
    ensures Unique(AfterCreate(items, fate, item))
            <==> fate in {Refused, NotMade, RolledBack} || CountTag(items, item.tag) == 0
  {
    var after := AfterCreate(items, fate, item);
    forall tag ensures CountTag(items + [item], tag) == CountTag(items, tag) + if item.tag == tag then 1 else 0 {
      CountAppend(items, item, tag);
    }
    forall tag ensures CountTag(Others(items + [item], item.tag), tag) <= CountTag(items, tag) {
      CountOthers(items + [item], item.tag, tag);
    }
    if after == items + [item] && CountTag(items, item.tag) > 0 {
      assert CountTag(after, item.tag) > 1;
    }
  }

  /** A successful rollback takes away just the new key exactly when no older key had the name. */
  lemma RollbackExactIff(initial: seq<Item>, log: seq<Command>, tag: string, ref: Ref)
    requires ref.item.tag == tag && Accounts(initial, log).Some?
    requires Accounts(initial, log + CreateTrace(RolledBack, tag, ref)).Some?
    ensures Accounts(initial, log + CreateTrace(RolledBack, tag, ref)).value.items == Accounts(initial, log).value.items
            <==> CountTag(Accounts(initial, log).value.items, tag) == 0
  {
    hide Accounts;
    CreateTraceItems(initial, log, RolledBack, tag, ref);
    CountAppend(Accounts(initial, log).value.items, ref.item, tag);
    OthersOfAbsent(Accounts(initial, log).value.items, tag);
  }

  /** A failed create leaves its new key behind exactly when the rollback's delete was asked for and failed. */
  lemma OrphanIff(initial: seq<Item>, log: seq<Command>, fate: Fate, tag: string, ref: Ref)
    requires fate != Kept && ref.item.tag == tag && Accounts(initial, log).Some?
    requires ref.item !in Accounts(initial, log).value.items
    requires Accounts(initial, log + CreateTrace(fate, tag, ref)).Some?
    ensures ref.item in Accounts(initial, log + CreateTrace(fate, tag, ref)).value.items
            <==> Erased(tag, false) in CreateTrace(fate, tag, ref)
  {
    hide Accounts;
    CreateTraceItems(initial, log, fate, tag, ref);
    OthersExact(Accounts(initial, log).value.items + [ref.item], tag, ref.item);
  }

  /** No key was added since. */
  predicate AddsNothing(before: seq<Command>, after: seq<Command>) {
    before <= after && forall i :: |before| <= i < |after| ==> !after[i].Added?
  }

  /** Every key was added directly after a load of its name that found none, as createKey does it. */
  predicate Guarded(log: seq<Command>) {
    forall i :: 0 <= i < |log| && log[i].Added? ==> i > 0 && log[i - 1] == Sought(log[i].tag, None)
  }

  /** Whenever the load before an addition found none, there was none. */
  predicate GuardsHonest(initial: seq<Item>, log: seq<Command>) {
    forall i :: 0 < i < |log| && log[i].Added? && log[i - 1] == Sought(log[i].tag, None) ==>
      Accounts(initial, log[..i - 1]).Some? && CountTag(Accounts(initial, log[..i - 1]).value.items, log[i].tag) == 0
  }

  lemma PrefixHonest(initial: seq<Item>, log: seq<Command>, n: nat)
    requires n <= |log| && Guarded(log) && GuardsHonest(initial, log)
    ensures Guarded(log[..n]) && GuardsHonest(initial, log[..n])
  {
    hide Accounts, CountTag;
    var front := log[..n];
    forall i | 0 < i < n && front[i].Added? && front[i - 1] == Sought(front[i].tag, None)
      ensures Accounts(initial, front[..i - 1]).Some? && CountTag(Accounts(initial, front[..i - 1]).value.items, front[i].tag) == 0
    {
      assert front[..i - 1] == log[..i - 1] && log[i].Added? && log[i - 1] == front[i - 1];
    }
  }

  /** Over any history of guarded calls in which the guards were honest, every name has at most one key. */
  lemma {:induction false} NamesStayUnique(initial: seq<Item>, log: seq<Command>)
    requires Unique(initial) && Accounts(initial, log).Some? && Guarded(log) && GuardsHonest(initial, log)
    ensures Unique(Accounts(initial, log).value.items)
  {
    if log == [] {
    } else {
      var before, c := log[..|log| - 1], log[|log| - 1];
      PrefixHonest(initial, log, |log| - 1);
      NamesStayUnique(initial, before);
      var items := Accounts(initial, before).value.items;
      match c
      case Added(tag, Some(ref)) =>
        SoughtLeavesItems(initial, before, tag);
        assert before[..|before| - 1] == log[..|log| - 2];
        forall t ensures CountTag(items + [ref.item], t) <= 1 { CountAppend(items, ref.item, t); }
      case Erased(tag, true) =>
        forall t ensures CountTag(Others(items, tag), t) <= 1 { CountOthers(items, tag, t); }
      case _ =>
    }
  }

  lemma SoughtLeavesItems(initial: seq<Item>, log: seq<Command>, tag: string)
    requires log != [] && log[|log| - 1] == Sought(tag, None) && Accounts(initial, log).Some?
    ensures Accounts(initial, log[..|log| - 1]) == Accounts(initial, log)
  {
  }

  lemma CreateKeepsGuarded(log: seq<Command>, fate: Fate, tag: string, ref: Ref)
    requires Guarded(log)
    ensures Guarded(log + CreateTrace(fate, tag, ref))
  {
    var t := CreateTrace(fate, tag, ref);
    forall i | 0 <= i < |log + t| && (log + t)[i].Added? ensures i > 0 && (log + t)[i - 1] == Sought((log + t)[i].tag, None) {
      if i < |log| {
        assert log[i].Added? && log[i - 1] == (log + t)[i - 1];
      } else {
        assert (log + t)[i] == t[i - |log|] && i - |log| == 1 && (log + t)[i - 1] == t[0];
      }
    }
  }

  const GUARD_MISSES: Plan := [Fails, Works(0), Works(0), Fails, Works(0), Works(0)]
  const GUARD_AND_EXPORT_FAIL: Plan := [Fails, Works(0), Works(0), Fails, Works(0), Fails, Works(0)]

  lemma GuardMissesFates(items: seq<Item>, tag: string)
    ensures CreateFate(GUARD_MISSES, 0, items, tag) == CreateFate(GUARD_MISSES, 3, items, tag) == Kept
    ensures CreateFate(GUARD_AND_EXPORT_FAIL, 0, items, tag) == Kept
    ensures CreateFate(GUARD_AND_EXPORT_FAIL, 3, items, tag) == RolledBack
  {
  }

  lemma TwoOfOneName(first: Item, second: Item)
    requires first.tag == second.tag
    ensures CountTag([first, second], first.tag) == 2 && Others([first, second], first.tag) == []
  {
    assert [] + [first] == [first];
    CountAppend([], first, first.tag);
    assert [first] + [second] == [first, second];
    CountAppend([first], second, first.tag);
    assert Others([first], first.tag) == Others([], first.tag) + [];
  }

  /** A guard that failed although the key was there: two keys with one name. */
  method MissedGuardDuplicates(tag: string) returns (k: Keychain)
    ensures k.Valid() && k.initial == [] && CountTag(k.items, tag) == 2
  {
    hide Accounts, CreateFate, CreateTrace, CountTag, Others;
    k := new Keychain([], GUARD_MISSES);
    GuardMissesFates([], tag);
    var _, _, first := CreateKey(k, tag);
    assert k.items == [first.item];
    GuardMissesFates([first.item], tag);
    var _, _, second := CreateKey(k, tag);
    assert [first.item] + [second.item] == [first.item, second.item];
    TwoOfOneName(first.item, second.item);
  }

  /** The same, and a failed export: the rollback deletes the older key too, which a signer still refers to. */
  method MissedGuardDeletes(tag: string) returns (k: Keychain, older: EnclaveSigner?)
    ensures k.Valid() && k.items == [] && older != null && older.priv in k.refs && k.refs[older.priv].tag == tag
  {
    hide Accounts, CreateFate, CreateTrace, CountTag, Others;
    k := new Keychain([], GUARD_AND_EXPORT_FAIL);
    GuardMissesFates([], tag);
    var signer, _, first := CreateKey(k, tag);
    older := signer;
    assert k.items == [first.item];
    GuardMissesFates([first.item], tag);
    var _, _, second := CreateKey(k, tag);
    assert [first.item] + [second.item] == [first.item, second.item];
    TwoOfOneName(first.item, second.item);
  }

  const EXPORT_AND_DELETE_FAIL: Plan := [Fails, Works(0), Fails, Fails]

  lemma ExportAndDeleteFail(tag: string)
    ensures CreateFate(EXPORT_AND_DELETE_FAIL, 0, [], tag) == LeftBehind
  {
  }

  /** A run in which the export and then the rollback's delete fail: no signer, and the new key stays. */
  method OrphanStays(tag: string) returns (k: Keychain, signer: EnclaveSigner?)
    ensures k.Valid() && k.initial == [] && signer == null && k.refs == map[]
    ensures |k.items| == 1 && k.items[0].tag == tag
  {
    hide Accounts, CreateFate, CreateTrace, CountTag, Others;
    k := new Keychain([], EXPORT_AND_DELETE_FAIL);
    ExportAndDeleteFail(tag);
    var created, _, ref := CreateKey(k, tag);
    signer := created;
    assert k.items == [ref.item];
  }

  // ----- one reference per open signer

  /** The retained references are those of the open signers, one each. */
  ghost predicate Owned(refs: set<nat>, privs: seq<nat>) {
    && (forall r :: r in refs <==> r != 0 && r in privs)
    && (forall i, j :: 0 <= i < j < |privs| && privs[i] != 0 ==> privs[i] != privs[j])
  }

  lemma HandedKeepsOwned(refs: set<nat>, privs: seq<nat>, r: nat)
    requires Owned(refs, privs) && r != 0 && r !in refs
    ensures Owned(refs + {r}, privs + [r])
  {
  }

  lemma ClosedKeepsOwned(refs: set<nat>, privs: seq<nat>, i: nat)
    requires Owned(refs, privs) && i < |privs|
    ensures Owned(refs - {privs[i]}, privs[i := 0])
  {
    var after := privs[i := 0];
    forall r | r in refs && r != privs[i] ensures r in after {
      var j :| 0 <= j < |privs| && privs[j] == r;
      assert after[j] == r;
    }
  }

  // ----- a caller

  datatype Request = Create(tag: string) | Load(tag: string) | Delete(tag: string) | Close(i: nat)

  ghost function Privs(signers: seq<EnclaveSigner>): (r: seq<nat>)
    reads signers
    ensures |r| == |signers| && forall i :: 0 <= i < |signers| ==> r[i] == signers[i].priv
  {
    if signers == [] then [] else Privs(signers[..|signers| - 1]) + [signers[|signers| - 1].priv]
  }

  /**
   Any program over this backend, from a fresh keychain object: whatever it calls and however the
   framework behaves, references are owned by open signers, and keys are added under the guard only.
   */
  method Session(k: Keychain, script: seq<Request>) returns (signers: seq<EnclaveSigner>)
    requires k.Valid() && k.refs == map[] && k.log == []
    modifies k
    ensures k.Valid() && Owned(k.refs.Keys, Privs(signers)) && Guarded(k.log)
    ensures Unique(k.initial) && GuardsHonest(k.initial, k.log) ==> Unique(k.items)
  {
    hide Accounts, GuardsHonest, Unique, Owned, AfterCreate, CreateFate, Guarded, AddsNothing, CreateTrace;
    signers := [];
    GuardedEmpty();
    OwnedEmpty();
    assert k.refs.Keys == {};
    var n := 0;
    while n < |script|
      invariant n <= |script| && k.Valid() && Guarded(k.log) && Owned(k.refs.Keys, Privs(signers))
      invariant fresh(set s | s in signers)
      invariant forall i, j :: 0 <= i < j < |signers| ==> signers[i] != signers[j]
    {
      signers := OneRequest(k, script[n], signers);
      n := n + 1;
    }
    if Unique(k.initial) && GuardsHonest(k.initial, k.log) {
      NamesStayUnique(k.initial, k.log);
    }
  }

  lemma GuardedEmpty()
    ensures Guarded([])
  {
  }

  lemma OwnedEmpty()
    ensures Owned({}, [])
  {
  }

  lemma GuardedUnlessAdded(before: seq<Command>, after: seq<Command>)
    requires Guarded(before) && AddsNothing(before, after)
    ensures Guarded(after)
  {
    forall i | 0 <= i < |after| && after[i].Added? ensures i > 0 && after[i - 1] == Sought(after[i].tag, None) {
      assert before[i] == after[i] && before[i - 1] == after[i - 1];
    }
  }

  lemma ReferenceIsOwned(refs: set<nat>, privs: seq<nat>, i: nat)
    requires Owned(refs, privs) && i < |privs| && privs[i] != 0
    ensures privs[i] in refs
  {
  }

  method OneRequest(k: Keychain, request: Request, signers: seq<EnclaveSigner>) returns (after: seq<EnclaveSigner>)
    requires k.Valid() && Guarded(k.log) && Owned(k.refs.Keys, Privs(signers))
    requires forall i, j :: 0 <= i < j < |signers| ==> signers[i] != signers[j]
    modifies k, signers
    ensures k.Valid() && Guarded(k.log) && Owned(k.refs.Keys, Privs(after))
    ensures forall i, j :: 0 <= i < j < |after| ==> after[i] != after[j]
    ensures fresh((set s | s in after) - (set s | s in signers))
  {
    hide Accounts, Account, Owned, AfterCreate, CreateFate, Guarded, AddsNothing, CreateTrace, CountTag, Others, Privs;
    ghost var log, refs, privs := k.log, k.refs.Keys, Privs(signers);
    after := signers;
    match request
    case Create(tag) =>
      var signer, fate, ref := CreateKey(k, tag);
      CreateKeepsGuarded(log, fate, tag, ref);
      assert Privs(signers) == privs;
      if signer != null {
        after := signers + [signer];
        HandedKeepsOwned(refs, privs, signer.priv);
        assert Privs(after) == privs + [signer.priv];
        assert k.refs.Keys == refs + {signer.priv};
      }
    case Load(tag) =>
      var signer, _ := LoadKey(k, tag);
      GuardedUnlessAdded(log, k.log);
      assert Privs(signers) == privs;
      if signer != null {
        after := signers + [signer];
        HandedKeepsOwned(refs, privs, signer.priv);
        assert Privs(after) == privs + [signer.priv];
        assert k.refs.Keys == refs + {signer.priv};
      }
    case Delete(tag) =>
      var ok := DeleteKey(k, tag);
      EndsUnadded(log, Erased(tag, ok));
      GuardedUnlessAdded(log, k.log);
      assert Privs(signers) == privs;
    case Close(i) =>
      if i < |signers| {
        var priv := signers[i].priv;
        if priv != 0 {
          ReferenceIsOwned(refs, privs, i);
          EndsUnadded(log, Released(priv));
          GuardedUnlessAdded(log, log + [Released(priv)]);
        }
        signers[i].Close(k);
        ClosedKeepsOwned(refs, privs, i);
        assert Privs(signers) == privs[i := 0];
        assert k.refs.Keys == refs - {priv};
      }
  }

  lemma EndsUnadded(log: seq<Command>, c: Command)
    requires !c.Added?
    ensures AddsNothing(log, log + [c])
  {
  }
}
