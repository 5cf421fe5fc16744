/**
 What the Linux key store is for, without files: an atomic map from names to keys with
 create-if-absent, get and remove, whose changes become durable in batches.
 */
module AtomicStore {
  import opened Bytes
  import opened BlobCodec

  datatype Call = Create(name: bytes) | Load(name: bytes) | Delete(name: bytes)

  datatype Reply =
    | Created(key: Key)
    | AlreadyExists
    | Loaded(key: Key)
    | NotFound
    | Deleted
    | Failed

  type Keys = imap<bytes, Key>

  /** A process is between calls, has called, or has its answer fixed but not yet returned. */
  datatype Status = Quiet | Pending(call: Call) | Ready(call: Call, reply: Reply)

  /** `recent` holds every value the map has had since it was last made durable. */
  datatype Spec = Spec(keys: Keys, recent: iset<Keys>, anchored: bool, calls: map<nat, Status>)

  datatype Label =
    | Invoked(p: nat, call: Call)
    | TookEffect(p: nat, call: Call, reply: Reply)
    | GaveUp(p: nat)
    | Misreported(p: nat)
    | Returned(p: nat, call: Call, reply: Reply)
    | Died(p: nat)
    | Flushed
    | Settled
    | Crashed
    | Silent

  function StatusOf(a: Spec, p: nat): Status {
    if p in a.calls then a.calls[p] else Quiet
  }

  /** The atomic meaning of a call. */
  ghost predicate Legal(keys: Keys, c: Call, r: Reply, keys': Keys) {
    match (c, r)
    case (Create(n), Created(k)) => n !in keys && keys' == keys[n := k]
    case (Create(n), AlreadyExists) => n in keys && keys' == keys
    case (Load(n), Loaded(k)) => n in keys && keys[n] == k && keys' == keys
    case (Load(n), NotFound) => n !in keys && keys' == keys
    case (Delete(n), Deleted) => n in keys && keys' == keys - {n}
    case (Delete(n), NotFound) => n !in keys && keys' == keys
    case (_, Failed) => keys' == keys
    case _ => false
  }

  ghost predicate SameAt(a: Keys, b: Keys, n: bytes) {
    (n in a <==> n in b) && (n in a ==> a[n] == b[n])
  }

  /** Every name has come back as it was at some moment since the last flush. */
  ghost predicate RolledBack(recent: iset<Keys>, keys: Keys) {
    forall n :: OnceSo(recent, keys, n)
  }

  ghost predicate OnceSo(recent: iset<Keys>, keys: Keys, n: bytes) {
    exists v :: v in recent && SameAt(keys, v, n)
  }

  ghost predicate SpecNext(a: Spec, l: Label, b: Spec) {
    match l
    case Invoked(p, c) => StatusOf(a, p) == Quiet && b == a.(calls := a.calls[p := Pending(c)])
    case TookEffect(p, c, r) =>
      && StatusOf(a, p) == Pending(c)
      && Legal(a.keys, c, r, b.keys)
      && b == Spec(b.keys, a.recent + iset{b.keys}, a.anchored, a.calls[p := Ready(c, r)])
    case GaveUp(p) =>
      && StatusOf(a, p).Ready? && StatusOf(a, p).call.Load? && StatusOf(a, p).reply.Loaded?
      && b == a.(calls := a.calls[p := Ready(StatusOf(a, p).call, Failed)])
    case Misreported(p) =>
      && StatusOf(a, p).Pending? && StatusOf(a, p).call.Create?
      && b == a.(calls := a.calls[p := Ready(StatusOf(a, p).call, AlreadyExists)])
    case Returned(p, c, r) => StatusOf(a, p) == Ready(c, r) && b == a.(calls := a.calls[p := Quiet])
    case Died(p) => b == a.(calls := a.calls - {p})
    case Flushed => b == a.(recent := iset{a.keys})
    case Settled => b == a.(anchored := true)
    case Crashed =>
      && b.recent == iset{b.keys} && b.calls == map[] && b.anchored == a.anchored
      && (RolledBack(a.recent, b.keys) || (!a.anchored && b.keys == imap[]))
    case Silent => b == a
  }

  /** The outcome of a sequence of abstract steps from `states[0]`. */
  ghost predicate SpecRun(states: seq<Spec>, labels: seq<Label>) {
    && |states| == |labels| + 1
    && forall i :: 0 <= i < |labels| ==> SpecNext(states[i], labels[i], states[i + 1])
  }

  /** The run before its last step, and that step. */
  lemma LastStep(states: seq<Spec>, labels: seq<Label>)
    requires SpecRun(states, labels) && labels != []
    ensures var m := |labels| - 1;
            && SpecRun(states[..m + 1], labels[..m]) && SpecNext(states[m], labels[m], states[m + 1])
            && states[..m + 1][m] == states[m] && states[..m + 1][0] == states[0]
            && (forall l :: l in labels[..m] ==> l in labels) && labels[m] in labels
  {
    hide SpecNext;
  }

  ghost predicate Current(a: Spec) {
    a.keys in a.recent
  }

  lemma {:induction false} CurrentKept(states: seq<Spec>, labels: seq<Label>, i: nat)
    requires SpecRun(states, labels) && Current(states[0]) && i <= |labels|
    ensures Current(states[i])
  {
    if i > 0 {
      CurrentKept(states, labels, i - 1);
      assert SpecNext(states[i - 1], labels[i - 1], states[i]);
    }
  }

  // ----- answers

  /**
   The label that fixes the answer `r` of call `c`: its effect on the map, the mistaken "already
   exists", or a load that fails after it has opened the file.
   */
  predicate Decides(l: Label, p: nat, c: Call, r: Reply) {
    || l == TookEffect(p, c, r)
    || (l == Misreported(p) && c.Create? && r == AlreadyExists)
    || (l == GaveUp(p) && c.Load? && r == Failed)
  }

  /**
   Step `h` invoked call `c`, step `i` fixed its answer `r`, and the call had no other effect on
   the map up to step `m`.
   */
  predicate Answered(labels: seq<Label>, h: nat, i: nat, m: nat, p: nat, c: Call, r: Reply) {
    && h < i < m <= |labels| && labels[h] == Invoked(p, c) && Decides(labels[i], p, c, r)
    && forall x :: h < x < m ==>
         && (labels[x].Invoked? ==> labels[x].p != p)
         && (labels[x].TookEffect? && labels[x].p == p ==> x == i || labels[x].call.Load?)
  }

  lemma {:induction false} PendingSince(states: seq<Spec>, labels: seq<Label>, m: nat, p: nat) returns (h: nat)
    requires SpecRun(states, labels) && m <= |labels| && states[0].calls == map[]
    requires StatusOf(states[m], p).Pending?
    ensures h < m && labels[h] == Invoked(p, StatusOf(states[m], p).call)
    ensures forall x :: h < x < m ==> !((labels[x].Invoked? || labels[x].TookEffect?) && labels[x].p == p)
  {
    assert SpecNext(states[m - 1], labels[m - 1], states[m]);
    if labels[m - 1].Invoked? && labels[m - 1].p == p {
      h := m - 1;
    } else {
      h := PendingSince(states, labels, m - 1, p);
    }
  }

  /** Every answer was fixed at one moment between invocation and return, and nothing else came of the call. */
  lemma {:induction false} AnswerTookEffect(states: seq<Spec>, labels: seq<Label>, m: nat, p: nat)
    returns (h: nat, i: nat)
    requires SpecRun(states, labels) && m <= |labels| && states[0].calls == map[]
    requires StatusOf(states[m], p).Ready?
    ensures Answered(labels, h, i, m, p, StatusOf(states[m], p).call, StatusOf(states[m], p).reply)
  {
    hide Legal, RolledBack;
    assert SpecNext(states[m - 1], labels[m - 1], states[m]);
    var l := labels[m - 1];
    if (l.TookEffect? || l.Misreported?) && l.p == p {
      h := PendingSince(states, labels, m - 1, p);
      i := m - 1;
    } else {
      h, i := AnswerTookEffect(states, labels, m - 1, p);
      if l == GaveUp(p) { i := m - 1; }
    }
  }

  // ----- creates against deletes

  function Weight(l: Label, n: bytes): int {
    if l.TookEffect? && l.call == Create(n) && l.reply.Created? then 1
    else if l.TookEffect? && l.call == Delete(n) && l.reply.Deleted? then -1 else 0
  }

  /** Successful creates of `n` less successful deletes of `n`. */
  function Balance(labels: seq<Label>, n: bytes): int {
    if labels == [] then 0 else Balance(labels[..|labels| - 1], n) + Weight(labels[|labels| - 1], n)
  }

  function Count(b: bool): int {
    if b then 1 else 0
  }

  lemma WeightIsPresence(a: Spec, l: Label, b: Spec, n: bytes)
    requires SpecNext(a, l, b) && l != Crashed
    ensures Weight(l, n) == Count(n in b.keys) - Count(n in a.keys)
  {
    hide RolledBack;
  }

  /** Without a crash, creates less deletes is exactly how the presence of the key changed. */
  lemma {:induction false} BalanceIsPresence(states: seq<Spec>, labels: seq<Label>, n: bytes)
    requires SpecRun(states, labels) && Crashed !in labels
    ensures Balance(labels, n) == Count(n in states[|labels|].keys) - Count(n in states[0].keys)
  {
    if labels == [] {
    } else {
      var m := |labels| - 1;
      LastStep(states, labels);
      WeightIsPresence(states[m], labels[m], states[m + 1], n);
      hide SpecRun, SpecNext, Weight, Count;
      BalanceIsPresence(states[..m + 1], labels[..m], n);
    }
  }

  // ----- one winner

  /** Nothing fails, nobody returns or dies, and no delete of `n` succeeds. */
  predicate Undisturbed(l: Label, n: bytes) {
    match l
    case TookEffect(_, c, r) => r != Failed && !(c == Delete(n) && r == Deleted)
    case Invoked(_, _) | Flushed | Settled | Silent => true
    case _ => false
  }

  /** Once the name is there one call made it; every other decided call was told it exists. */
  ghost predicate Race(a: Spec, n: bytes, winner: Option<nat>) {
    && (winner.None? <==> n !in a.keys)
    && (winner.Some? ==> StatusOf(a, winner.value) == Ready(Create(n), Created(a.keys[n])))
    && forall p :: p in a.calls && a.calls[p].Ready? && a.calls[p].call == Create(n) && winner != Some(p)
         ==> winner.Some? && a.calls[p].reply == AlreadyExists
  }

  lemma {:induction false} RaceKept(states: seq<Spec>, labels: seq<Label>, n: bytes) returns (winner: Option<nat>)
    requires SpecRun(states, labels)
    requires forall l :: l in labels ==> Undisturbed(l, n)
    requires n !in states[0].keys && forall p :: p in states[0].calls ==> states[0].calls[p] == Quiet
    ensures Race(states[|labels|], n, winner)
  {
    if labels == [] {
      winner := None;
    } else {
      var m := |labels| - 1;
      LastStep(states, labels);
      hide SpecRun, RolledBack;
      var before := RaceKept(states[..m + 1], labels[..m], n);
      var l := labels[m];
      winner := if l.TookEffect? && l.call == Create(n) && l.reply.Created? then Some(l.p) else before;
    }
  }

  // ----- durability

  /** `n` is bound to `k` in every value the map could be rolled back to. */
  ghost predicate Secured(a: Spec, n: bytes, k: Key) {
    a.anchored && Current(a) && forall v :: v in a.recent ==> n in v && v[n] == k
  }

  /** A secured key stays, through any number of crashes, until a delete of it succeeds. */
  lemma {:induction false} SecuredKept(states: seq<Spec>, labels: seq<Label>, n: bytes, k: Key)
    requires SpecRun(states, labels) && Secured(states[0], n, k)
    requires forall l :: l in labels ==> !(l.TookEffect? && l.call == Delete(n) && l.reply == Deleted)
    ensures Secured(states[|labels|], n, k)
  {
    if labels == [] {
    } else {
      var m := |labels| - 1;
      LastStep(states, labels);
      hide SpecRun;
      SecuredKept(states[..m + 1], labels[..m], n, k);
      if labels[m] == Crashed {
        assert OnceSo(states[m].recent, states[m + 1].keys, n);
      }
    }
  }

  // ----- where a key comes from

  predicate Creates(l: Label, n: bytes, k: Key) {
    l.TookEffect? && l.call == Create(n) && l.reply == Created(k)
  }

  /** A successful create or delete of `n`. */
  predicate Changes(l: Label, n: bytes) {
    l.TookEffect? && (l.call == Create(n) || l.call == Delete(n)) && (l.reply.Created? || l.reply.Deleted?)
  }

  predicate Touches(l: Label, n: bytes) {
    l == Crashed || Changes(l, n)
  }

  /** Step `j` created `n` with `k`, and nothing before step `i` has undone that. */
  predicate Live(labels: seq<Label>, j: nat, i: nat, n: bytes, k: Key) {
    j < i <= |labels| && Creates(labels[j], n, k) && forall m :: j < m < i ==> !Touches(labels[m], n)
  }

  ghost predicate Made(labels: seq<Label>, i: nat, n: bytes, k: Key) {
    exists j :: 0 <= j < i <= |labels| && Creates(labels[j], n, k)
  }

  ghost predicate AllMade(recent: iset<Keys>, labels: seq<Label>, i: nat) {
    forall v, n :: v in recent && n in v ==> Made(labels, i, n, v[n])
  }

  lemma StepKeepsMade(a: Spec, b: Spec, labels: seq<Label>, i: nat)
    requires i < |labels| && SpecNext(a, labels[i], b) && Current(a) && AllMade(a.recent, labels, i)
    ensures AllMade(b.recent, labels, i + 1)
  {
    var l := labels[i];
    forall v, n | v in b.recent && n in v ensures Made(labels, i + 1, n, v[n]) {
      if v in a.recent {
        assert Made(labels, i, n, v[n]);
      } else if l == Crashed {
        assert OnceSo(a.recent, v, n);
        var w :| w in a.recent && SameAt(v, w, n);
        assert Made(labels, i, n, w[n]);
      } else if l.call == Create(n) && l.reply.Created? {
        assert Creates(labels[i], n, v[n]);
      } else {
        assert n in a.keys && a.keys[n] == v[n];
        assert Made(labels, i, n, a.keys[n]);
      }
    }
  }

  /** Every key the map holds, or could be rolled back to, was made by a create of that name. */
  lemma {:induction false} KeysWereMade(states: seq<Spec>, labels: seq<Label>, i: nat)
    requires SpecRun(states, labels) && i <= |labels|
    requires states[0].keys == imap[] && states[0].recent == iset{imap[]}
    ensures AllMade(states[i].recent, labels, i)
  {
    if i == 0 {
    } else {
      KeysWereMade(states, labels, i - 1);
      CurrentKept(states, labels, i - 1);
      StepKeepsMade(states[i - 1], states[i], labels, i - 1);
    }
  }

  lemma {:induction false} SinceLastTouch(states: seq<Spec>, labels: seq<Label>, i: nat, n: bytes)
    returns (j: nat)
    requires SpecRun(states, labels) && i <= |labels| && n in states[i].keys
    requires Crashed !in labels[..i] && n !in states[0].keys
    ensures Live(labels, j, i, n, states[i].keys[n])
  {
    assert SpecNext(states[i - 1], labels[i - 1], states[i]);
    assert labels[i - 1] in labels[..i];
    if Creates(labels[i - 1], n, states[i].keys[n]) {
      j := i - 1;
    } else {
      assert labels[..i - 1] <= labels[..i];
      j := SinceLastTouch(states, labels, i - 1, n);
    }
  }

  // ----- where a key comes from when there are crashes

  /** Before step `i` a crash came after step `m`, and no flush in between. */
  predicate CrashUndid(labels: seq<Label>, m: nat, i: nat)
    requires i <= |labels|
  {
    exists c :: m < c < i && labels[c] == Crashed && forall x :: m < x < c ==> labels[x] != Flushed
  }

  /**
   Step `j` created `n` with `k`, and each create or delete of `n` between then and step `i` was
   undone by a crash, which needs that nothing was flushed between it and the crash.
   */
  predicate Origin(labels: seq<Label>, j: nat, i: nat, n: bytes, k: Key) {
    && j < i <= |labels| && Creates(labels[j], n, k)
    && forall m :: j < m < i && Changes(labels[m], n) ==> CrashUndid(labels, m, i)
  }

  /** A value that the map could be rolled back to is one it has had since the last flush or crash. */
  lemma {:induction false} RecentSince(states: seq<Spec>, labels: seq<Label>, i: nat, v: Keys) returns (b: nat)
    requires SpecRun(states, labels) && i <= |labels| && states[0].recent == iset{states[0].keys}
    requires v in states[i].recent
    ensures b <= i && states[b].keys == v && forall x :: b <= x < i ==> labels[x] !in {Flushed, Crashed}
  {
    hide Legal, RolledBack;
    if i == 0 || v == states[i].keys {
      b := i;
    } else {
      assert SpecNext(states[i - 1], labels[i - 1], states[i]);
      b := RecentSince(states, labels, i - 1, v);
    }
  }

  lemma OriginLater(labels: seq<Label>, j: nat, b: nat, i: nat, n: bytes, k: Key)
    requires Origin(labels, j, b, n, k) && b <= i <= |labels|
    requires forall m :: b <= m < i && Changes(labels[m], n) ==> CrashUndid(labels, m, i)
    ensures Origin(labels, j, i, n, k)
  {
    forall m | j < m < i && Changes(labels[m], n) ensures CrashUndid(labels, m, i) {
      if m < b {
        assert CrashUndid(labels, m, b);
      }
    }
  }

  /** With any number of crashes: whatever the map holds was created under its name, and not durably undone since. */
  lemma {:induction false} KeyOrigin(states: seq<Spec>, labels: seq<Label>, i: nat, n: bytes) returns (j: nat)
    requires SpecRun(states, labels) && i <= |labels| && n in states[i].keys
    requires states[0].keys == imap[] && states[0].recent == iset{states[0].keys}
    ensures Origin(labels, j, i, n, states[i].keys[n])
    decreases i, 1
  {
    assert SpecNext(states[i - 1], labels[i - 1], states[i]);
    var l := labels[i - 1];
    if l == Crashed {
      j := CrashedOrigin(states, labels, i, n);
    } else if Creates(l, n, states[i].keys[n]) {
      j := i - 1;
    } else {
      j := KeyOrigin(states, labels, i - 1, n);
      assert !Changes(l, n);
      OriginLater(labels, j, i - 1, i, n, states[i].keys[n]);
    }
  }

  lemma {:induction false} CrashedOrigin(states: seq<Spec>, labels: seq<Label>, i: nat, n: bytes) returns (j: nat)
    requires SpecRun(states, labels) && 0 < i <= |labels| && n in states[i].keys && labels[i - 1] == Crashed
    requires states[0].keys == imap[] && states[0].recent == iset{states[0].keys}
    ensures Origin(labels, j, i, n, states[i].keys[n])
    decreases i, 0
  {
    assert SpecNext(states[i - 1], labels[i - 1], states[i]);
    assert OnceSo(states[i - 1].recent, states[i].keys, n);
    var v :| v in states[i - 1].recent && SameAt(states[i].keys, v, n);
    var b := RecentSince(states, labels, i - 1, v);
    j := KeyOrigin(states, labels, b, n);
    forall m | b <= m < i && Changes(labels[m], n) ensures CrashUndid(labels, m, i) {
      assert labels[i - 1] == Crashed;
    }
    OriginLater(labels, j, b, i, n, states[i].keys[n]);
  }
}
