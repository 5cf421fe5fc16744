/** A whole life: a key is created, loaded, signed with and closed. */
module LifetimeRuns {
  import opened Bytes
  import opened BlobCodec
  import opened Naming
  import opened TpmLedger
  import opened LinuxLifetime
  import A = AtomicStore
  import S = StoreProtocol
  import T = StoreTheorems
  import D = StoreRuns
  import G = SignerProtocol

  lemma RunMore(events: seq<Event>, e: Event)
    ensures Run(events + [e]) == match Run(events) case None => None case Some(w) => Next(w, e)
  {
    assert (events + [e])[..|events|] == events;
  }

  function Stores(events: seq<S.Event>): seq<Event> {
    if events == [] then [] else Stores(events[..|events| - 1]) + [OfStore(events[|events| - 1])]
  }

  function Signs(events: seq<G.Event>): seq<Event> {
    if events == [] then [] else Signs(events[..|events| - 1]) + [OfSigner(events[|events| - 1])]
  }

  /** A run of the store in which nobody returns is a run of the two together. */
  lemma {:induction false} LiftStore(events: seq<S.Event>)
    requires S.Run(S.START, events).Some? && D.AllCalm(events)
    ensures Run(Stores(events)) == Some(START.(store := S.Run(S.START, events).value))
  {
    if events == [] {
    } else {
      var before, e := events[..|events| - 1], events[|events| - 1];
      assert D.AllCalm(before) && e in events;
      LiftStore(before);
      hide S.Next, Run;
      RunMore(Stores(before), OfStore(e));
    }
  }

  /** A run of the signers, once they are handed out, is a run of the two together. */
  lemma {:induction false} LiftSigners(front: seq<Event>, w: World, events: seq<G.Event>)
    requires Run(front) == Some(w) && G.Run(w.signers, events, true).Some?
    requires forall e :: e in events ==> !e.NewSigner?
    ensures Run(front + Signs(events)) == Some(w.(signers := G.Run(w.signers, events, true).value))
  {
    if events == [] {
      assert front + Signs(events) == front;
    } else {
      var before, e := events[..|events| - 1], events[|events| - 1];
      assert e in events;
      LiftSigners(front, w, before);
      hide G.Next, Run;
      RunMore(front + Signs(before), OfSigner(e));
      assert front + Signs(events) == front + Signs(before) + [OfSigner(e)];
    }
  }

  /** A step outside of the mutex, by the one goroutine there is. */
  lemma OneStep(front: seq<Event>, w: World, e: G.Event, t: G.State)
    requires Run(front) == Some(w) && !e.NewSigner? && G.Next(w.signers, e, true) == Some(t)
    ensures Run(front + [OfSigner(e)]) == Some(w.(signers := t))
  {
    hide G.Next;
    RunMore(front, OfSigner(e));
  }

  /** A whole call of Sign or Close. */
  lemma WholeCall(front: seq<Event>, w: World, x: G.Signer, op: G.Op, y: G.Signer, outcome: G.Outcome, t: nat)
    returns (events: seq<Event>, n: nat)
    requires Run(front) == Some(w) && w.signers == G.Alone(x, G.Outside, t)
    requires G.Section(t, x, op, y, outcome)
    ensures front <= events && Run(events) == Some(w.(signers := G.Alone(y, G.Outside, n)))
  {
    hide Run, G.Run;
    var call := if op == G.SignOp then G.CallSign(0, 0, true) else G.CallClose(0, 0);
    G.AloneBoth(x, G.Outside, t, x, G.Want(0, op));
    OneStep(front, w, call, G.Alone(x, G.Want(0, op), t));
    var section, m :| G.SectionBy(t, x, op, y, outcome, section, m);
    var called := w.(signers := G.Alone(x, G.Want(0, op), t));
    LiftSigners(front + [OfSigner(call)], called, section);
    var finished := w.(signers := G.Alone(y, G.Finished(outcome), m));
    events := front + [OfSigner(call)] + Signs(section);
    G.AloneBoth(y, G.Finished(outcome), m, y, G.Outside);
    OneStep(events, finished, G.Return(0), G.Alone(y, G.Outside, m));
    events, n := events + [OfSigner(G.Return(0))], m;
  }

  lemma FirstSigner(x: G.Signer)
    ensures G.START.(signers := G.START.signers[0 := x]).(routines := map[0 := G.Outside]) == G.Alone(x, G.Outside, 0)
  {
  }

  /** The signer of a load signs and is closed: its key is used once, flushed once, and its device closed. */
  lemma LoadedSignerLives(n: bytes, k: Key, tmp: string, mode: nat, log: seq<Command>, child: nat)
    returns (events: seq<Event>)
    requires Fits(k) && IsTempFile(tmp) && G.Handed(log, child)
    ensures Run(events).Some?
    ensures var w := Run(events).value;
            && w.keys == map[0 := (n, k)] && 0 in w.signers.signers && !w.signers.signers[0].present
            && w.signers.signers[0].log == log + [Signed(child)] + [SentFlush(child)] + [Closed]
  {
    hide Run, Next, S.Run, S.PcOf, Accounts, G.Handed, G.Section;
    var stored := D.LoadedRun(n, k, tmp, mode);
    LiftStore(stored);
    events := Stores(stored);
    var w := START.(store := S.Run(S.START, stored).value);
    SuccessHandsOut(w, 1, 0, log, child, A.Load(n), A.Loaded(k));
    RunMore(events, HandOut(1, 0, log, child));
    w := Next(w, HandOut(1, 0, log, child)).value;
    events := events + [HandOut(1, 0, log, child)];
    events, w := Enter(events, w, log, child, n, k);
    var x := G.Signer(None, true, child, child, log, []);
    HandedNotZero(log, child);
    var signed := x.(log := log + [Signed(child)]);
    var closed := signed.(log := log + [Signed(child)] + [SentFlush(child)] + [Closed], handle := 0, present := false);
    G.SignSections(0, x);
    var t;
    events, t := WholeCall(events, w, x, G.SignOp, signed, G.Signature(0), 0);
    w := w.(signers := G.Alone(signed, G.Outside, t));
    G.CloseSections(t, signed);
    events, t := WholeCall(events, w, signed, G.CloseOp, closed, G.CloseReturned, t);
  }

  lemma HandedNotZero(log: seq<Command>, child: nat)
    requires G.Handed(log, child)
    ensures child != 0
  {
  }

  /** A goroutine that has had a Sign refused for its arguments is there, and outside of every call. */
  lemma Enter(front: seq<Event>, w: World, log: seq<Command>, child: nat, n: bytes, k: Key) returns (events: seq<Event>, t: World)
    requires Run(front) == Some(w) && w.keys == map[0 := (n, k)]
    requires var x := G.Signer(None, true, child, child, log, []);
             w.signers == G.START.(signers := G.START.signers[0 := x])
    ensures Run(events) == Some(t) && t.keys == map[0 := (n, k)]
    ensures t.signers == G.Alone(G.Signer(None, true, child, child, log, []), G.Outside, 0)
  {
    hide Run;
    var x := G.Signer(None, true, child, child, log, []);
    FirstSigner(x);
    var refused := G.Alone(x, G.Finished(G.BadArguments), 0);
    assert w.signers.(routines := map[0 := G.Finished(G.BadArguments)]) == refused;
    G.AloneBoth(x, G.Finished(G.BadArguments), 0, x, G.Outside);
    OneStep(front, w, G.CallSign(0, 0, false), refused);
    events := front + [OfSigner(G.CallSign(0, 0, false))];
    OneStep(events, w.(signers := refused), G.Return(0), G.Alone(x, G.Outside, 0));
    events := events + [OfSigner(G.Return(0))];
    t := w.(signers := G.Alone(x, G.Outside, 0));
  }
}
