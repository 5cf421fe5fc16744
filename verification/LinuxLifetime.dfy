/**
 The store and the signers together: any history of creates, loads, deletes, Signs and Closes, with
 the steps of all of them interleaved. A successful create or load hands out a signer when it returns.
 A process that has died, or been stopped by a crash, is one that takes no further steps.
 */
module LinuxLifetime {
  import opened Bytes
  import opened BlobCodec
  import opened TpmLedger
  import A = AtomicStore
  import S = StoreProtocol
  import I = StoreInvariant
  import R = StoreRefinement
  import T = StoreTheorems
  import G = SignerProtocol

  /** `keys` has the name and the key that each signer was handed out for. */
  datatype World = World(store: S.State, signers: G.State, keys: map<nat, (bytes, Key)>)

  const START := World(S.START, G.START, map[])

  datatype Event =
    | OfStore(store: S.Event)
    | HandOut(p: nat, sid: nat, log: seq<Command>, child: nat)
    | OfSigner(signer: G.Event)

  predicate GivesSigner(pc: S.Pc) {
    pc.Done? && (pc.reply.Created? || pc.reply.Loaded?)
  }

  function Next(w: World, e: Event): Option<World> {
    match e
    case OfStore(se) => (
      if se.By? && se.step == S.Return && GivesSigner(S.PcOf(w.store, se.p)) then None
      else match S.Next(w.store, se)
        case None => None
        case Some(s) => Some(w.(store := s)))
    case HandOut(p, sid, log, child) => (
      var pc := S.PcOf(w.store, p);
      if !GivesSigner(pc) then None
      else match (S.Next(w.store, S.By(p, S.Return)), G.Next(w.signers, G.NewSigner(sid, log, child), true))
        case (Some(s), Some(g)) => Some(World(s, g, w.keys[sid := (pc.call.name, pc.reply.key)]))
        case _ => None)
    case OfSigner(ge) => (
      if ge.NewSigner? then None
      else match G.Next(w.signers, ge, true)
        case None => None
        case Some(g) => Some(w.(signers := g)))
  }

  function Run(events: seq<Event>): Option<World> {
    if events == [] then Some(START)
    else match Run(events[..|events| - 1])
      case None => None
      case Some(w) => Next(w, events[|events| - 1])
  }

  /**
   A create or a load that has succeeded hands out a signer for its name and key, over any device as the
   code leaves it, and cannot return without.
   */
  lemma SuccessHandsOut(w: World, p: nat, sid: nat, log: seq<Command>, child: nat, c: A.Call, r: A.Reply)
    requires S.PcOf(w.store, p) == S.Done(c, r) && (r.Created? || r.Loaded?)
    requires sid !in w.signers.signers && G.Handed(log, child)
    ensures var t := Next(w, HandOut(p, sid, log, child));
            && t.Some? && t.value.keys == w.keys[sid := (c.name, r.key)]
            && t.value.signers == w.signers.(signers := w.signers.signers[sid := G.Signer(None, true, child, child, log, [])])
            && S.PcOf(t.value.store, p) == S.Idle && t.value.store.fs == w.store.fs
    ensures Next(w, OfStore(S.By(p, S.Return))) == None
  {
    hide Accounts;
  }

  /** Any other answer just returns. */
  lemma FailureJustReturns(w: World, p: nat, sid: nat, log: seq<Command>, child: nat, c: A.Call, r: A.Reply)
    requires S.PcOf(w.store, p) == S.Done(c, r) && !r.Created? && !r.Loaded?
    ensures Next(w, HandOut(p, sid, log, child)) == None
    ensures var t := Next(w, OfStore(S.By(p, S.Return)));
            t.Some? && S.PcOf(t.value.store, p) == S.Idle && t.value.signers == w.signers && t.value.keys == w.keys
  {
    hide Accounts;
  }

  // ----- the two halves of a run

  function StorePart(e: Event): seq<S.Event> {
    match e
    case OfStore(se) => [se]
    case HandOut(p, _, _, _) => [S.By(p, S.Return)]
    case OfSigner(_) => []
  }

  function SignerPart(e: Event): seq<G.Event> {
    match e
    case OfStore(_) => []
    case HandOut(_, sid, log, child) => [G.NewSigner(sid, log, child)]
    case OfSigner(ge) => [ge]
  }

  function StoreEvents(events: seq<Event>): seq<S.Event> {
    if events == [] then [] else StoreEvents(events[..|events| - 1]) + StorePart(events[|events| - 1])
  }

  function SignerEvents(events: seq<Event>): seq<G.Event> {
    if events == [] then [] else SignerEvents(events[..|events| - 1]) + SignerPart(events[|events| - 1])
  }

  lemma NextProjects(w: World, e: Event)
    requires Next(w, e).Some?
    ensures var t := Next(w, e).value;
            && (if StorePart(e) == [] then t.store == w.store else S.Next(w.store, StorePart(e)[0]) == Some(t.store))
            && (if SignerPart(e) == [] then t.signers == w.signers
                else G.Next(w.signers, SignerPart(e)[0], true) == Some(t.signers))
  {
    hide S.Next, G.Next;
  }

  lemma PartsAreSingle(e: Event)
    ensures StorePart(e) == [] || StorePart(e) == [StorePart(e)[0]]
    ensures SignerPart(e) == [] || SignerPart(e) == [SignerPart(e)[0]]
  {
  }

  /** A run of the two together is a run of each by itself. */
  lemma {:induction false} RunProjects(events: seq<Event>)
    requires Run(events).Some?
    ensures S.Run(S.START, StoreEvents(events)) == Some(Run(events).value.store)
    ensures G.Run(G.START, SignerEvents(events), true) == Some(Run(events).value.signers)
  {
    hide S.Next, G.Next, Next, StorePart, SignerPart;
    if events == [] {
    } else {
      var before, e := events[..|events| - 1], events[|events| - 1];
      hide S.Run, G.Run;
      RunProjects(before);
      NextProjects(Run(before).value, e);
      PartsAreSingle(e);
      if StorePart(e) == [] {
        assert StoreEvents(events) == StoreEvents(before);
      } else {
        T.RunOne(S.START, StoreEvents(before), StorePart(e)[0]);
      }
      if SignerPart(e) == [] {
        assert SignerEvents(events) == SignerEvents(before);
      } else {
        G.RunOne(G.START, SignerEvents(before), SignerPart(e)[0], true);
      }
    }
  }

  // ----- which key a signer signs with

  ghost predicate MadeBy(events: seq<S.Event>, n: bytes, k: Key)
    requires S.Run(S.START, events).Some?
  {
    A.Made(R.Labels(S.START, events), |events|, n, k)
  }

  /** A call that is about to hand out a signer does so for a key that a create of its name made. */
  lemma AnsweredKeyWasMade(events: seq<S.Event>, p: nat)
    requires S.Run(S.START, events).Some? && GivesSigner(S.PcOf(S.Run(S.START, events).value, p))
    ensures var pc := S.PcOf(S.Run(S.START, events).value, p); MadeBy(events, pc.call.name, pc.reply.key)
  {
    hide S.Run, A.SpecRun, R.Labels, R.AbsStates, R.Abs;
    var labels := R.Labels(S.START, events);
    I.StartHasInv();
    T.AbsOfStart();
    R.RunRefines(S.START, events);
    R.StatusIs(S.Run(S.START, events).value, p);
    var h, i := A.AnswerTookEffect(R.AbsStates(S.START, events), labels, |events|, p);
    var pc := S.PcOf(S.Run(S.START, events).value, p);
    RepliesFit(R.AbsStates(S.START, events), labels, i);
    if pc.reply.Loaded? {
      T.LoadedKeyWasMade(events, i, p, pc.call.name, pc.reply.key);
      var j: nat :| A.Origin(labels, j, i, pc.call.name, pc.reply.key);
      assert A.Creates(labels[j], pc.call.name, pc.reply.key);
    } else {
      assert A.Creates(labels[i], pc.call.name, pc.reply.key);
    }
  }

  lemma RepliesFit(states: seq<A.Spec>, labels: seq<A.Label>, i: nat)
    requires A.SpecRun(states, labels) && i < |labels| && labels[i].TookEffect?
    ensures labels[i].reply.Loaded? ==> labels[i].call.Load?
    ensures labels[i].reply.Created? ==> labels[i].call.Create?
  {
    assert A.SpecNext(states[i], labels[i], states[i + 1]);
  }

  lemma MadeStays(events: seq<S.Event>, e: S.Event, n: bytes, k: Key)
    requires S.Run(S.START, events).Some? && S.Run(S.START, events + [e]).Some? && MadeBy(events, n, k)
    ensures MadeBy(events + [e], n, k)
  {
    var labels, after := R.Labels(S.START, events), R.Labels(S.START, events + [e]);
    T.LabelsOfPrefix(S.START, events + [e], |events|);
    assert (events + [e])[..|events|] == events;
    var j :| 0 <= j < |events| && A.Creates(labels[j], n, k);
    assert after[j] == after[..|events|][j] == labels[j];
  }

  /** Every signer ever handed out is for a key that a create of the name asked for has made. */
  lemma {:induction false} SignerKeyWasMade(events: seq<Event>, sid: nat)
    requires Run(events).Some? && sid in Run(events).value.keys
    ensures S.Run(S.START, StoreEvents(events)).Some?
    ensures MadeBy(StoreEvents(events), Run(events).value.keys[sid].0, Run(events).value.keys[sid].1)
  {
    hide S.Next, G.Next, S.Run, MadeBy;
    RunProjects(events);
    var before, e := events[..|events| - 1], events[|events| - 1];
    var w := Run(before).value;
    RunProjects(before);
    if e.HandOut? && e.sid == sid {
      AnsweredKeyWasMade(StoreEvents(before), e.p);
      var pc := S.PcOf(w.store, e.p);
      MadeStays(StoreEvents(before), S.By(e.p, S.Return), pc.call.name, pc.reply.key);
    } else {
      SignerKeyWasMade(before, sid);
      if StorePart(e) == [] {
        assert StoreEvents(events) == StoreEvents(before);
      } else {
        assert StoreEvents(events) == StoreEvents(before) + [StorePart(e)[0]];
        MadeStays(StoreEvents(before), StorePart(e)[0], w.keys[sid].0, w.keys[sid].1);
      }
    }
  }

  // ----- the life of a signer

  lemma {:induction false} KeysOfSigners(events: seq<Event>)
    requires Run(events).Some?
    ensures Run(events).value.keys.Keys == Run(events).value.signers.signers.Keys
  {
    hide S.Next;
    if events == [] {
    } else {
      KeysOfSigners(events[..|events| - 1]);
      var e := events[|events| - 1];
      if e.OfSigner? { SignersStay(Run(events[..|events| - 1]).value.signers, e.signer); }
    }
  }

  lemma SignersStay(s: G.State, e: G.Event)
    requires G.Next(s, e, true).Some? && !e.NewSigner?
    ensures G.Next(s, e, true).value.signers.Keys == s.signers.Keys
  {
    if e.Send? { SendStays(s, e.g, e.ok); }
  }

  lemma SendStays(s: G.State, g: nat, ok: bool)
    requires G.PcOf(s, g).Locked? && G.PcOf(s, g).sid in s.signers && G.SendStep(s, g, ok).Some?
    ensures G.SendStep(s, g, ok).value.signers.Keys == s.signers.Keys
  {
  }

  /**
   Over any history: each signer is for a key that a create of its name made, whatever was deleted
   meanwhile; its device is used by the rules, its key flushed and its device closed at most once,
   and once both happened exactly if it is closed.
   */
  lemma SignerLifetime(events: seq<Event>, sid: nat)
    requires Run(events).Some? && sid in Run(events).value.signers.signers
    ensures var w := Run(events).value; var x := w.signers.signers[sid];
            && sid in w.keys && S.Run(S.START, StoreEvents(events)).Some?
            && MadeBy(StoreEvents(events), w.keys[sid].0, w.keys[sid].1)
            && Accounts(x.log).Some?
            && Times(x.log, Closed) == (if x.present then 0 else 1)
            && Times(x.log, SentFlush(x.child)) <= 1
            && (!x.present ==> Times(x.log, SentFlush(x.child)) == 1 && x.log[|x.log| - 1] == Closed)
  {
    hide S.Next, G.Next, S.Run, G.Run, MadeBy, Accounts, Times;
    RunProjects(events);
    KeysOfSigners(events);
    SignerKeyWasMade(events, sid);
    G.DeviceUsedByTheRules(SignerEvents(events), sid);
  }

  lemma {:induction false} Suffix(events: seq<Event>, i: nat) returns (rest: seq<G.Event>)
    requires i <= |events| && Run(events).Some?
    ensures Run(events[..i]).Some?
    ensures G.Run(Run(events[..i]).value.signers, rest, true) == Some(Run(events).value.signers)
    decreases |events|
  {
    hide S.Next, G.Next;
    if i == |events| {
      assert events[..i] == events;
      rest := [];
    } else {
      var before, e := events[..|events| - 1], events[|events| - 1];
      assert before[..i] == events[..i];
      rest := Suffix(before, i);
      if SignerPart(e) != [] {
        G.RunOne(Run(events[..i]).value.signers, rest, SignerPart(e)[0], true);
        rest := rest + [SignerPart(e)[0]];
      }
    }
  }

  /** Once any Close of a signer has come to its return, its key stays flushed once and its device closed once. */
  lemma ClosedOnceAndForAll(events: seq<Event>, i: nat, g: nat, sid: nat)
    requires Run(events).Some? && i <= |events| && Run(events[..i]).Some?
    requires G.PcOf(Run(events[..i]).value.signers, g) == G.Leaving(sid, G.CloseReturned)
    ensures var w := Run(events).value;
            && sid in w.signers.signers && sid in Run(events[..i]).value.signers.signers
            && var x := w.signers.signers[sid];
            && !x.present && x.log == Run(events[..i]).value.signers.signers[sid].log
            && Times(x.log, Closed) == 1 && Times(x.log, SentFlush(x.child)) == 1
  {
    hide S.Next, G.Next, S.Run, G.Run, Accounts, Times, Run, G.Inv;
    RunProjects(events[..i]);
    G.RunKeepsInv(SignerEvents(events[..i]));
    G.CloseHasClosed(SignerEvents(events[..i]), g, sid);
    var rest := Suffix(events, i);
    G.ClosedForGood(Run(events[..i]).value.signers, rest, sid);
    SignerLifetime(events, sid);
  }
}
