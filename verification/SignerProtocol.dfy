/**
 Any number of goroutines calling Sign and Close on the signers of the Linux backend, with every
 TPM command taken apart into the moment it is sent and the moment its response is read.
 */
module SignerProtocol {
  import opened Bytes
  import opened TpmLedger

  /** A response waiting on the device, with the number of the command it answers. */
  datatype Response = Response(ticket: nat, command: Command)

  /** A tpmSigner with its device: the mutex, `s.tpm != nil`, `s.handle`, and what the device saw. */
  datatype Signer = Signer(
    holder: Option<nat>, present: bool, handle: nat, child: nat, log: seq<Command>, waiting: seq<Response>)

  datatype Op = SignOp | CloseOp

  datatype Outcome = BadArguments | SignerIsClosed | TpmError | Signature(ticket: nat) | CloseReturned

  /** Where a goroutine stands in Sign or Close of signer `sid`. */
  datatype Pc =
    | Outside
    | Want(sid: nat, op: Op)
    | Locked(sid: nat, op: Op)
    | Sent(sid: nat, op: Op, ticket: nat)
    | Flushed(sid: nat)
    | Leaving(sid: nat, outcome: Outcome)
    | Finished(outcome: Outcome)

  datatype State = State(signers: map<nat, Signer>, routines: map<nat, Pc>, tickets: nat)

  const START := State(map[], map[], 0)

  datatype Event =
    | NewSigner(sid: nat, log: seq<Command>, child: nat)
    | CallSign(g: nat, sid: nat, accepted: bool)
    | CallClose(g: nat, sid: nat)
    | Lock(g: nat)
    | Send(g: nat, ok: bool)
    | Receive(g: nat, ok: bool)
    | CloseDevice(g: nat)
    | Unlock(g: nat)
    | Return(g: nat)

  function PcOf(s: State, g: nat): Pc {
    if g in s.routines then s.routines[g] else Outside
  }

  function Moved(s: State, g: nat, pc: Pc): State {
    s.(routines := s.routines[g := pc])
  }

  function Both(s: State, g: nat, pc: Pc, sid: nat, signer: Signer): State {
    s.(routines := s.routines[g := pc], signers := s.signers[sid := signer])
  }

  /** What createKey and loadKey leave in the log for a signer: its own key is there to be used. */
  predicate Handed(log: seq<Command>, child: nat) {
    && Accounts(log).Some? && Usable(Accounts(log).value, child) && child != 0
  }

  /** Such a log: a parent, a key under it, the key loaded, and the parent flushed. */
  lemma TypicalLog(parent: nat, child: nat)
    requires parent != 0 && child != 0 && parent != child
    ensures Handed([MadePrimary(parent), MadeKey(parent), LoadedKey(parent, child), SentFlush(parent)], child)
  {
    var one := [MadePrimary(parent)];
    var two := one + [MadeKey(parent)];
    var three := two + [LoadedKey(parent, child)];
    assert Accounts([]) == Some(OPENED);
    AccountsAppend([], MadePrimary(parent));
    assert [] + [MadePrimary(parent)] == one;
    hide Accounts;
    AccountsAppend(one, MadeKey(parent));
    AccountsAppend(two, LoadedKey(parent, child));
    AccountsAppend(three, SentFlush(parent));
    assert three + [SentFlush(parent)]
        == [MadePrimary(parent), MadeKey(parent), LoadedKey(parent, child), SentFlush(parent)];
  }

  /** The test of s.tpm and the sending of the command, both under the mutex. */
  function SendStep(s: State, g: nat, ok: bool): Option<State>
    requires PcOf(s, g).Locked? && PcOf(s, g).sid in s.signers
  {
    var Locked(sid, op) := PcOf(s, g);
    var signer := s.signers[sid];
    var command := if op == SignOp then Signed(signer.handle) else SentFlush(signer.handle);
    var sent := signer.(log := signer.log + [command], waiting := signer.waiting + [Response(s.tickets, command)]);
    if !signer.present then Some(Moved(s, g, Leaving(sid, if op == SignOp then SignerIsClosed else CloseReturned)))
    else if op == CloseOp && signer.handle == 0 then Some(Moved(s, g, Flushed(sid)))
    else if ok then Some(Both(s, g, Sent(sid, op, s.tickets), sid, sent).(tickets := s.tickets + 1))
    else if op == SignOp then Some(Moved(s, g, Leaving(sid, TpmError)))
    else Some(Both(s, g, Flushed(sid), sid, signer.(log := signer.log + [command])))
  }

  /** One step; with `mutex` false, Lock does not wait for the signer to be free. */
  function Next(s: State, e: Event, mutex: bool): Option<State> {
    match e
    case NewSigner(sid, log, child) =>
      if sid !in s.signers && Handed(log, child)
      then Some(s.(signers := s.signers[sid := Signer(None, true, child, child, log, [])])) else None
    case CallSign(g, sid, accepted) =>
      if PcOf(s, g) != Outside || sid !in s.signers then None
      else Some(Moved(s, g, if accepted then Want(sid, SignOp) else Finished(BadArguments)))
    case CallClose(g, sid) =>
      if PcOf(s, g) != Outside || sid !in s.signers then None else Some(Moved(s, g, Want(sid, CloseOp)))
    case Lock(g) => (
      match PcOf(s, g)
      case Want(sid, op) =>
        if sid !in s.signers || (mutex && s.signers[sid].holder.Some?) then None
        else Some(Both(s, g, Locked(sid, op), sid, s.signers[sid].(holder := Some(g))))
      case _ => None)
    case Send(g, ok) => if PcOf(s, g).Locked? && PcOf(s, g).sid in s.signers then SendStep(s, g, ok) else None
    case Receive(g, ok) => (
      match PcOf(s, g)
      case Sent(sid, op, _) =>
        if sid !in s.signers || s.signers[sid].waiting == [] then None
        else
          var signer := s.signers[sid];
          var r := signer.waiting[0];
          var pc := if op == CloseOp then Flushed(sid) else Leaving(sid, if ok then Signature(r.ticket) else TpmError);
          Some(Both(s, g, pc, sid, signer.(waiting := signer.waiting[1..])))
      case _ => None)
    case CloseDevice(g) => (
      match PcOf(s, g)
      case Flushed(sid) =>
        if sid !in s.signers then None
        else
          var signer := s.signers[sid];
          Some(Both(s, g, Leaving(sid, CloseReturned), sid,
                    signer.(log := signer.log + [Closed], handle := 0, present := false)))
      case _ => None)
    case Unlock(g) => (
      match PcOf(s, g)
      case Leaving(sid, r) =>
        if sid !in s.signers then None
        else Some(Both(s, g, Finished(r), sid, s.signers[sid].(holder := None)))
      case _ => None)
    case Return(g) => if PcOf(s, g).Finished? then Some(Moved(s, g, Outside)) else None
  }

  function Run(s: State, events: seq<Event>, mutex: bool): Option<State> {
    if events == [] then Some(s)
    else match Run(s, events[..|events| - 1], mutex)
      case None => None
      case Some(t) => Next(t, events[|events| - 1], mutex)
  }

  // ----- the invariant

  /** Holding the mutex of signer `pc.sid`. */
  predicate Inside(pc: Pc) {
    pc.Locked? || pc.Sent? || pc.Flushed? || pc.Leaving?
  }

  /** Between commands: the key is usable, or the device was closed after its flush. */
  predicate AtRest(x: Signer) {
    && x.waiting == [] && Accounts(x.log).Some? && x.child != 0
    && if x.present then x.handle == x.child && Usable(Accounts(x.log).value, x.child)
       else !Accounts(x.log).value.open && x.child in Accounts(x.log).value.released
  }

  /** A flush of the key is out, and the device still open. */
  predicate Flushing(x: Signer) {
    && Accounts(x.log).Some? && x.child != 0 && x.present
    && Accounts(x.log).value.open && x.child in Accounts(x.log).value.released
  }

  predicate SignerInv(x: Signer, pc: Pc) {
    match pc
    case Sent(_, SignOp, t) =>
      x.waiting == [Response(t, Signed(x.child))] && AtRest(x.(waiting := [])) && x.present
    case Sent(_, CloseOp, t) => x.waiting == [Response(t, SentFlush(x.child))] && Flushing(x)
    case Flushed(_) => x.waiting == [] && Flushing(x)
    case Leaving(_, r) => AtRest(x) && (r in {SignerIsClosed, CloseReturned} ==> !x.present)
    case _ => AtRest(x)
  }

  predicate RoutineInv(s: State, g: nat, pc: Pc) {
    && (pc.Want? || Inside(pc) ==> pc.sid in s.signers)
    && (Inside(pc) ==> s.signers[pc.sid].holder == Some(g))
  }

  predicate MutexInv(s: State, sid: nat)
    requires sid in s.signers
  {
    && (s.signers[sid].holder.Some? ==> Inside(HolderPc(s, sid)) && HolderPc(s, sid).sid == sid)
    && SignerInv(s.signers[sid], HolderPc(s, sid))
  }

  predicate Inv(s: State) {
    && (forall g :: g in s.routines ==> RoutineInv(s, g, s.routines[g]))
    && (forall sid :: sid in s.signers ==> MutexInv(s, sid))
  }

  /** Where the goroutine that holds the signer's mutex stands. */
  function HolderPc(s: State, sid: nat): Pc
    requires sid in s.signers
  {
    match s.signers[sid].holder
    case None => Outside
    case Some(g) => PcOf(s, g)
  }

  lemma SendKeepsSigner(x: Signer, op: Op, t: nat)
    requires AtRest(x) && x.present
    ensures var c := if op == SignOp then Signed(x.handle) else SentFlush(x.handle);
            SignerInv(x.(log := x.log + [c], waiting := [Response(t, c)]), Sent(0, op, t))
    ensures SignerInv(x.(log := x.log + [SentFlush(x.handle)]), Flushed(0))
  {
    AccountsAppend(x.log, Signed(x.handle));
    AccountsAppend(x.log, SentFlush(x.handle));
  }

  lemma CloseKeepsSigner(x: Signer)
    requires Flushing(x) && x.waiting == []
    ensures AtRest(x.(log := x.log + [Closed], handle := 0, present := false))
  {
    AccountsAppend(x.log, Closed);
  }

  /** A goroutine that changes only its own place, without entering or leaving a mutex. */
  lemma MoveKeepsInv(s: State, g: nat, pc: Pc)
    requires Inv(s) && (pc.Want? ==> pc.sid in s.signers)
    requires if Inside(pc) then Inside(PcOf(s, g)) && PcOf(s, g).sid == pc.sid && SignerInv(s.signers[pc.sid], pc)
             else !Inside(PcOf(s, g))
    ensures Inv(Moved(s, g, pc))
  {
    hide SignerInv;
    var t := Moved(s, g, pc);
    forall sid | sid in t.signers ensures MutexInv(t, sid) { assert MutexInv(s, sid); }
    forall h | h in t.routines ensures RoutineInv(t, h, t.routines[h]) {
      if h != g { assert RoutineInv(s, h, s.routines[h]); }
    }
  }

  /** A goroutine that enters, works inside or leaves the mutex of one signer. */
  lemma WorkKeepsInv(s: State, g: nat, pc: Pc, sid: nat, x: Signer)
    requires Inv(s) && sid in s.signers
    requires if Inside(PcOf(s, g)) then PcOf(s, g).sid == sid else s.signers[sid].holder == None
    requires SignerInv(x, if Inside(pc) then pc else Outside) && !pc.Want?
    requires if Inside(pc) then pc.sid == sid && x.holder == Some(g) else x.holder == None
    ensures Inv(Both(s, g, pc, sid, x))
  {
    hide SignerInv;
    var t := Both(s, g, pc, sid, x);
    forall i | i in t.signers ensures MutexInv(t, i) {
      if i in s.signers { assert MutexInv(s, i); }
    }
    forall h | h in t.routines ensures RoutineInv(t, h, t.routines[h]) {
      if h != g { assert RoutineInv(s, h, s.routines[h]); }
    }
  }

  lemma SendKeepsInv(s: State, g: nat, ok: bool)
    requires Inv(s) && PcOf(s, g).Locked? && PcOf(s, g).sid in s.signers && SendStep(s, g, ok).Some?
    ensures Inv(SendStep(s, g, ok).value)
  {
    hide Accounts, Account, Inv;
    var Locked(sid, op) := PcOf(s, g);
    var x := s.signers[sid];
    SignerAt(s, g, sid);
    if !x.present {
      MoveKeepsInv(s, g, Leaving(sid, if op == SignOp then SignerIsClosed else CloseReturned));
    } else {
      SendKeepsSigner(x, op, s.tickets);
      var command := if op == SignOp then Signed(x.handle) else SentFlush(x.handle);
      var sent := x.(log := x.log + [command], waiting := x.waiting + [Response(s.tickets, command)]);
      assert x.waiting + [Response(s.tickets, command)] == [Response(s.tickets, command)];
      if ok {
        WorkKeepsInv(s, g, Sent(sid, op, s.tickets), sid, sent);
        TicketsDoNotMatter(Both(s, g, Sent(sid, op, s.tickets), sid, sent), s.tickets + 1);
      } else if op == SignOp {
        MoveKeepsInv(s, g, Leaving(sid, TpmError));
      } else {
        WorkKeepsInv(s, g, Flushed(sid), sid, x.(log := x.log + [command]));
      }
    }
  }

  lemma TicketsDoNotMatter(s: State, n: nat)
    requires Inv(s)
    ensures Inv(s.(tickets := n))
  {
    hide SignerInv;
    forall sid | sid in s.signers ensures MutexInv(s.(tickets := n), sid) { assert MutexInv(s, sid); }
    forall h | h in s.routines ensures RoutineInv(s.(tickets := n), h, s.routines[h]) { assert RoutineInv(s, h, s.routines[h]); }
  }

  lemma ReceiveKeepsInv(s: State, g: nat, ok: bool)
    requires Inv(s) && Next(s, Receive(g, ok), true).Some?
    ensures Inv(Next(s, Receive(g, ok), true).value)
  {
    var Sent(sid, op, ticket) := PcOf(s, g);
    var x := s.signers[sid];
    assert RoutineInv(s, g, s.routines[g]) && MutexInv(s, sid);
    var pc := if op == CloseOp then Flushed(sid) else Leaving(sid, if ok then Signature(x.waiting[0].ticket) else TpmError);
    assert x.waiting[1..] == [];
    WorkKeepsInv(s, g, pc, sid, x.(waiting := x.waiting[1..]));
  }

  lemma NewSignerKeepsInv(s: State, sid: nat, x: Signer)
    requires Inv(s) && sid !in s.signers && AtRest(x) && x.holder == None
    ensures Inv(s.(signers := s.signers[sid := x]))
  {
    hide AtRest;
    var t := s.(signers := s.signers[sid := x]);
    forall i | i in t.signers ensures MutexInv(t, i) {
      if i in s.signers { assert MutexInv(s, i); }
    }
    forall h | h in t.routines ensures RoutineInv(t, h, t.routines[h]) { assert RoutineInv(s, h, s.routines[h]); }
  }

  lemma NextKeepsInv(s: State, e: Event)
    requires Inv(s) && Next(s, e, true).Some?
    ensures Inv(Next(s, e, true).value)
  {
    hide Inv, Account, Accounts;
    match e
    case NewSigner(sid, log, child) => NewSignerKeepsInv(s, sid, Signer(None, true, child, child, log, []));
    case CallSign(g, sid, accepted) => MoveKeepsInv(s, g, if accepted then Want(sid, SignOp) else Finished(BadArguments));
    case CallClose(g, sid) => MoveKeepsInv(s, g, Want(sid, CloseOp));
    case Lock(g) =>
      var Want(sid, op) := PcOf(s, g);
      SignerAt(s, g, sid);
      WorkKeepsInv(s, g, Locked(sid, op), sid, s.signers[sid].(holder := Some(g)));
    case Send(g, ok) => SendKeepsInv(s, g, ok);
    case Receive(g, ok) => ReceiveKeepsInv(s, g, ok);
    case CloseDevice(g) =>
      var Flushed(sid) := PcOf(s, g);
      SignerAt(s, g, sid);
      CloseKeepsSigner(s.signers[sid]);
      WorkKeepsInv(s, g, Leaving(sid, CloseReturned), sid,
                   s.signers[sid].(log := s.signers[sid].log + [Closed], handle := 0, present := false));
    case Unlock(g) =>
      var Leaving(sid, r) := PcOf(s, g);
      SignerAt(s, g, sid);
      WorkKeepsInv(s, g, Finished(r), sid, s.signers[sid].(holder := None));
    case Return(g) => MoveKeepsInv(s, g, Outside);
  }

  lemma SignerAt(s: State, g: nat, sid: nat)
    requires Inv(s) && sid in s.signers
    ensures s.signers[sid].holder == None ==> AtRest(s.signers[sid])
    ensures Inside(PcOf(s, g)) && PcOf(s, g).sid == sid ==>
              s.signers[sid].holder == Some(g) && SignerInv(s.signers[sid], PcOf(s, g))
  {
    assert MutexInv(s, sid);
    if Inside(PcOf(s, g)) { assert RoutineInv(s, g, s.routines[g]); }
  }

  lemma {:induction false} RunKeepsInv(events: seq<Event>)
    requires Run(START, events, true).Some?
    ensures Inv(Run(START, events, true).value)
  {
    if events == [] {
    } else {
      RunKeepsInv(events[..|events| - 1]);
      NextKeepsInv(Run(START, events[..|events| - 1], true).value, events[|events| - 1]);
    }
  }

  // ----- one call by itself

  /** One goroutine at `pc` and one signer, with nobody else about. */
  function Alone(x: Signer, pc: Pc, tickets: nat): State {
    State(map[0 := x], map[0 := pc], tickets)
  }

  /** The steps from taking the mutex to giving it back. */
  predicate InSection(e: Event) {
    e.Lock? || e.Send? || e.Receive? || e.CloseDevice? || e.Unlock?
  }

  /** A call of Sign or Close that finds the signer as `x`, and `t` commands sent, can leave it as `y` with this outcome. */
  ghost predicate Section(t: nat, x: Signer, op: Op, y: Signer, outcome: Outcome) {
    exists events, n :: SectionBy(t, x, op, y, outcome, events, n)
  }

  ghost predicate SectionBy(t: nat, x: Signer, op: Op, y: Signer, outcome: Outcome, events: seq<Event>, n: nat) {
    && (forall e :: e in events ==> InSection(e))
    && Run(Alone(x, Want(0, op), t), events, true) == Some(Alone(y, Finished(outcome), n))
  }

  lemma AloneBoth(x: Signer, pc: Pc, n: nat, y: Signer, pc': Pc)
    ensures Both(Alone(x, pc, n), 0, pc', 0, y) == Alone(y, pc', n)
    ensures Moved(Alone(x, pc, n), 0, pc') == Alone(x, pc', n)
  {
  }

  lemma AloneLock(t: nat, x: Signer, op: Op)
    requires x.holder == None
    ensures Run(Alone(x, Want(0, op), t), [Lock(0)], true) == Some(Alone(x.(holder := Some(0)), Locked(0, op), t))
  {
    var s := Alone(x, Want(0, op), t);
    AloneBoth(x, Want(0, op), t, x.(holder := Some(0)), Locked(0, op));
    assert Run(s, [], true) == Some(s);
    RunOne(s, [], Lock(0), true);
    assert [] + [Lock(0)] == [Lock(0)];
  }

  lemma AloneStep(s: State, events: seq<Event>, e: Event, x: Signer, pc: Pc, n: nat, y: Signer, pc': Pc, n': nat)
    requires Run(s, events, true) == Some(Alone(x, pc, n))
    requires Next(Alone(x, pc, n), e, true) == Some(Alone(y, pc', n'))
    ensures Run(s, events + [e], true) == Some(Alone(y, pc', n'))
  {
    RunOne(s, events, e, true);
  }

  lemma AloneUnlock(t: nat, x: Signer, op: Op, events: seq<Event>, y: Signer, n: nat, outcome: Outcome)
    requires forall e :: e in events ==> InSection(e)
    requires Run(Alone(x, Want(0, op), t), events, true) == Some(Alone(y.(holder := Some(0)), Leaving(0, outcome), n))
    requires y.holder == None
    ensures Section(t, x, op, y, outcome)
  {
    hide Run;
    AloneBoth(y.(holder := Some(0)), Leaving(0, outcome), n, y, Finished(outcome));
    assert y.(holder := Some(0)).(holder := None) == y;
    AloneStep(Alone(x, Want(0, op), t), events, Unlock(0), y.(holder := Some(0)), Leaving(0, outcome), n, y, Finished(outcome), n);
    assert SectionBy(t, x, op, y, outcome, events + [Unlock(0)], n);
  }

  /** What a Sign may do to a signer by itself: nothing, or send its one command. */
  lemma SignSections(t: nat, x: Signer)
    requires x.holder == None && x.waiting == []
    ensures !x.present ==> Section(t, x, SignOp, x, SignerIsClosed)
    ensures x.present ==>
              && Section(t, x, SignOp, x, TpmError)
              && Section(t, x, SignOp, x.(log := x.log + [Signed(x.handle)]), TpmError)
              && Section(t, x, SignOp, x.(log := x.log + [Signed(x.handle)]), Signature(t))
  {
    hide Run, Section;
    var s, held := Alone(x, Want(0, SignOp), t), x.(holder := Some(0));
    AloneLock(t, x, SignOp);
    if !x.present {
      AloneBoth(held, Locked(0, SignOp), t, held, Leaving(0, SignerIsClosed));
      AloneStep(s, [Lock(0)], Send(0, true), held, Locked(0, SignOp), t, held, Leaving(0, SignerIsClosed), t);
      AloneUnlock(t, x, SignOp, [Lock(0)] + [Send(0, true)], x, t, SignerIsClosed);
    } else {
      AloneBoth(held, Locked(0, SignOp), t, held, Leaving(0, TpmError));
      AloneStep(s, [Lock(0)], Send(0, false), held, Locked(0, SignOp), t, held, Leaving(0, TpmError), t);
      AloneUnlock(t, x, SignOp, [Lock(0)] + [Send(0, false)], x, t, TpmError);
      SignReceives(t, x, true);
      SignReceives(t, x, false);
    }
  }

  lemma SignReceives(t: nat, x: Signer, ok: bool)
    requires x.holder == None && x.waiting == [] && x.present
    ensures Section(t, x, SignOp, x.(log := x.log + [Signed(x.handle)]), if ok then Signature(t) else TpmError)
  {
    hide Run, Section;
    var s, held := Alone(x, Want(0, SignOp), t), x.(holder := Some(0));
    var command, outcome := Signed(x.handle), if ok then Signature(t) else TpmError;
    var after := held.(log := x.log + [command]);
    var sent := after.(waiting := [Response(t, command)]);
    AloneLock(t, x, SignOp);
    assert held.waiting + [Response(t, command)] == [Response(t, command)];
    AloneBoth(held, Locked(0, SignOp), t, sent, Sent(0, SignOp, t));
    AloneStep(s, [Lock(0)], Send(0, true), held, Locked(0, SignOp), t, sent, Sent(0, SignOp, t), t + 1);
    AloneBoth(sent, Sent(0, SignOp, t), t + 1, after, Leaving(0, outcome));
    assert sent.(waiting := sent.waiting[1..]) == after;
    AloneStep(s, [Lock(0)] + [Send(0, true)], Receive(0, ok), sent, Sent(0, SignOp, t), t + 1, after, Leaving(0, outcome), t + 1);
    AloneUnlock(t, x, SignOp, [Lock(0)] + [Send(0, true)] + [Receive(0, ok)], x.(log := x.log + [command]), t + 1, outcome);
  }

  /** What a Close does to a signer by itself: flush and close the device, unless that is done already. */
  lemma CloseSections(t: nat, x: Signer)
    requires x.holder == None && x.waiting == []
    ensures !x.present ==> Section(t, x, CloseOp, x, CloseReturned)
    ensures x.present && x.handle != 0 ==>
              Section(t, x, CloseOp, x.(log := x.log + [SentFlush(x.handle)] + [Closed], handle := 0, present := false), CloseReturned)
  {
    hide Run, Section;
    var s, held := Alone(x, Want(0, CloseOp), t), x.(holder := Some(0));
    AloneLock(t, x, CloseOp);
    if !x.present {
      AloneBoth(held, Locked(0, CloseOp), t, held, Leaving(0, CloseReturned));
      AloneStep(s, [Lock(0)], Send(0, true), held, Locked(0, CloseOp), t, held, Leaving(0, CloseReturned), t);
      AloneUnlock(t, x, CloseOp, [Lock(0)] + [Send(0, true)], x, t, CloseReturned);
    } else if x.handle != 0 {
      var flushed := held.(log := x.log + [SentFlush(x.handle)]);
      var closed := flushed.(log := flushed.log + [Closed], handle := 0, present := false);
      AloneBoth(held, Locked(0, CloseOp), t, flushed, Flushed(0));
      AloneStep(s, [Lock(0)], Send(0, false), held, Locked(0, CloseOp), t, flushed, Flushed(0), t);
      AloneBoth(flushed, Flushed(0), t, closed, Leaving(0, CloseReturned));
      AloneStep(s, [Lock(0)] + [Send(0, false)], CloseDevice(0), flushed, Flushed(0), t, closed, Leaving(0, CloseReturned), t);
      AloneUnlock(t, x, CloseOp, [Lock(0)] + [Send(0, false)] + [CloseDevice(0)], closed.(holder := None), t, CloseReturned);
    }
  }

  /** While a goroutine holds a signer's mutex, no other goroutine's step touches the signer or the holder. */
  lemma SectionUndisturbed(s: State, e: Event, g: nat)
    requires Inv(s) && Next(s, e, true).Some? && Inside(PcOf(s, g))
    requires e.NewSigner? || e.g != g
    ensures var t := Next(s, e, true).value; var sid := PcOf(s, g).sid;
            && sid in s.signers && sid in t.signers && t.signers[sid] == s.signers[sid]
            && PcOf(t, g) == PcOf(s, g)
  {
    hide Inv, SignerInv, Account, Accounts;
    HolderExists(s, g);
    SignerAt(s, g, PcOf(s, g).sid);
    if !e.NewSigner? && Inside(PcOf(s, e.g)) { OnlyHolderInside(s, e.g, g); }
  }

  lemma HolderExists(s: State, g: nat)
    requires Inv(s) && Inside(PcOf(s, g))
    ensures PcOf(s, g).sid in s.signers && s.signers[PcOf(s, g).sid].holder == Some(g)
  {
    assert RoutineInv(s, g, s.routines[g]);
  }

  lemma OnlyHolderInside(s: State, g: nat, h: nat)
    requires Inv(s) && g != h && Inside(PcOf(s, h)) && Inside(PcOf(s, g))
    ensures PcOf(s, g).sid != PcOf(s, h).sid
  {
    assert RoutineInv(s, g, s.routines[g]) && RoutineInv(s, h, s.routines[h]);
  }

  /** A Sign with arguments it refuses only finishes: it changes no signer and can do nothing but return. */
  lemma RefusedSignOnlyFinishes(s: State, g: nat, sid: nat, mutex: bool)
    requires PcOf(s, g) == Outside && sid in s.signers
    ensures Next(s, CallSign(g, sid, false), mutex).Some?
    ensures var t := Next(s, CallSign(g, sid, false), mutex).value;
            && t.signers == s.signers && t.tickets == s.tickets && PcOf(t, g) == Finished(BadArguments)
            && forall e: Event :: !e.NewSigner? && e.g == g && Next(t, e, mutex).Some? ==> e == Return(g)
  {
  }

  // ----- what the mutex buys

  /** At most one goroutine is inside Sign or Close of a signer. */
  lemma MutualExclusion(events: seq<Event>, g: nat, h: nat)
    requires Run(START, events, true).Some?
    requires var s := Run(START, events, true).value;
             Inside(PcOf(s, g)) && Inside(PcOf(s, h)) && PcOf(s, g).sid == PcOf(s, h).sid
    ensures g == h
  {
    RunKeepsInv(events);
    var s := Run(START, events, true).value;
    assert RoutineInv(s, g, s.routines[g]) && RoutineInv(s, h, s.routines[h]);
  }

  /** Every response is read by the call that sent the command it answers, and none is left over. */
  lemma ResponseReachesSender(events: seq<Event>, g: nat)
    requires Run(START, events, true).Some? && PcOf(Run(START, events, true).value, g).Sent?
    ensures var s := Run(START, events, true).value; var Sent(sid, op, ticket) := PcOf(s, g);
            && sid in s.signers && var x := s.signers[sid];
            && x.waiting == [Response(ticket, if op == SignOp then Signed(x.child) else SentFlush(x.child))]
  {
    RunKeepsInv(events);
    var s := Run(START, events, true).value;
    assert RoutineInv(s, g, s.routines[g]);
    SignerAt(s, g, PcOf(s, g).sid);
  }

  /** No command is sent to a closed device or for a flushed key; flush and close happen at most once, in this order. */
  lemma DeviceUsedByTheRules(events: seq<Event>, sid: nat)
    requires Run(START, events, true).Some? && sid in Run(START, events, true).value.signers
    ensures var x := Run(START, events, true).value.signers[sid];
            && Accounts(x.log).Some?
            && Times(x.log, Closed) == (if x.present then 0 else 1)
            && Times(x.log, SentFlush(x.child)) <= 1
            && (!x.present ==> Times(x.log, SentFlush(x.child)) == 1 && x.log[|x.log| - 1] == Closed)
  {
    RunKeepsInv(events);
    var s := Run(START, events, true).value;
    var x := s.signers[sid];
    assert MutexInv(s, sid);
    RulesMean(x.log, x.child);
    if !x.present { ClosedLast(x.log); }
  }

  lemma ClosedLast(log: seq<Command>)
    requires Accounts(log).Some? && !Accounts(log).value.open
    ensures log != [] && log[|log| - 1] == Closed
  {
  }

  /** A signature comes from the goroutine's own command. */
  lemma SignatureIsOwn(events: seq<Event>, g: nat)
    requires Run(START, events, true).Some? && PcOf(Run(START, events, true).value, g).Sent?
    requires PcOf(Run(START, events, true).value, g).op == SignOp
    ensures var s := Run(START, events, true).value; var Sent(sid, _, ticket) := PcOf(s, g);
            && Next(s, Receive(g, true), true).Some?
            && PcOf(Next(s, Receive(g, true), true).value, g) == Leaving(sid, Signature(ticket))
  {
    ResponseReachesSender(events, g);
  }

  /** After a close nothing more reaches the device, and every Sign that gets to it is told so. */
  lemma {:induction false} ClosedForGood(s: State, events: seq<Event>, sid: nat)
    requires Inv(s) && Run(s, events, true).Some?
    requires sid in s.signers && !s.signers[sid].present
    ensures var t := Run(s, events, true).value;
            && Inv(t) && sid in t.signers && !t.signers[sid].present && t.signers[sid].log == s.signers[sid].log
            && forall g :: PcOf(t, g) == Locked(sid, SignOp) ==>
                 forall ok :: SendStep(t, g, ok) == Some(Moved(t, g, Leaving(sid, SignerIsClosed)))
  {
    if events == [] {
    } else {
      var before, e := events[..|events| - 1], events[|events| - 1];
      ClosedForGood(s, before, sid);
      var u := Run(s, before, true).value;
      NextKeepsInv(u, e);
      ClosedStays(u, e, sid);
    }
  }

  lemma ClosedStays(s: State, e: Event, sid: nat)
    requires Inv(s) && Next(s, e, true).Some? && sid in s.signers && !s.signers[sid].present
    ensures var t := Next(s, e, true).value;
            sid in t.signers && !t.signers[sid].present && t.signers[sid].log == s.signers[sid].log
  {
    hide Inv, Account, Accounts;
    if e.CloseDevice? || e.Receive? { SignerAt(s, e.g, sid); }
  }

  /** When a Close returns, the device is closed. */
  lemma CloseHasClosed(events: seq<Event>, g: nat, sid: nat)
    requires Run(START, events, true).Some?
    requires PcOf(Run(START, events, true).value, g) == Leaving(sid, CloseReturned)
    ensures var s := Run(START, events, true).value;
            && sid in s.signers && !s.signers[sid].present
            && Accounts(s.signers[sid].log).Some? && !Accounts(s.signers[sid].log).value.open
  {
    RunKeepsInv(events);
    var s := Run(START, events, true).value;
    assert RoutineInv(s, g, s.routines[g]);
    SignerAt(s, g, sid);
  }

  lemma RunOne(s: State, events: seq<Event>, e: Event, mutex: bool)
    ensures Run(s, events + [e], mutex)
            == match Run(s, events, mutex) case None => None case Some(t) => Next(t, e, mutex)
  {
    assert (events + [e])[..|events|] == events;
  }

  /** Without the mutex two calls of Sign can be interleaved so that one reads the other's response. */
  lemma WithoutMutexResponsesCross(log: seq<Command>, child: nat)
    requires Handed(log, child)
    ensures exists events ::
              && Run(START, events, false).Some? && Run(START, events + [Receive(1, true)], false).Some?
              && PcOf(Run(START, events, false).value, 1) == Sent(0, SignOp, 1)
              && PcOf(Run(START, events + [Receive(1, true)], false).value, 1) == Leaving(0, Signature(0))
  {
    hide Accounts, Account, Handed, Run, Next;
    var e := [NewSigner(0, log, child), CallSign(0, 0, true), CallSign(1, 0, true), Lock(0), Lock(1), Send(0, true), Send(1, true)];
    BothInside(log, child, e);
    BothSend(log, child);
    Extend(e, 5);
    Extend(e, 6);
    assert e[..7] == e;
    RunOne(START, e, Receive(1, true), false);
  }

  lemma BothSend(log: seq<Command>, child: nat)
    ensures var both := State(map[0 := Signer(Some(1), true, child, child, log, [])],
                              map[0 := Locked(0, SignOp), 1 := Locked(0, SignOp)], 0);
            && Next(both, Send(0, true), false).Some?
            && var first := Next(both, Send(0, true), false).value;
            && Next(first, Send(1, true), false).Some?
            && var second := Next(first, Send(1, true), false).value;
            && PcOf(second, 1) == Sent(0, SignOp, 1)
            && Next(second, Receive(1, true), false).Some?
            && PcOf(Next(second, Receive(1, true), false).value, 1) == Leaving(0, Signature(0))
  {
    var both := State(map[0 := Signer(Some(1), true, child, child, log, [])],
                      map[0 := Locked(0, SignOp), 1 := Locked(0, SignOp)], 0);
    var first := Next(both, Send(0, true), false).value;
    assert first.routines[1] == Locked(0, SignOp) && first.signers[0].waiting == [Response(0, Signed(child))];
    var second := Next(first, Send(1, true), false).value;
    assert second.signers[0].waiting[0] == Response(0, Signed(child));
  }

  lemma BothCalled(log: seq<Command>, child: nat, e: seq<Event>)
    requires Handed(log, child) && |e| >= 3
    requires e[0] == NewSigner(0, log, child) && e[1] == CallSign(0, 0, true) && e[2] == CallSign(1, 0, true)
    ensures Run(START, e[..3], false)
            == Some(State(map[0 := Signer(None, true, child, child, log, [])],
                          map[0 := Want(0, SignOp), 1 := Want(0, SignOp)], 0))
  {
    hide Accounts, Account, Handed;
    var x := Signer(None, true, child, child, log, []);
    assert Run(START, e[..0], false) == Some(START);
    hide Run;
    Extend(e, 0);
    assert Run(START, e[..1], false) == Some(State(map[0 := x], map[], 0));
    Extend(e, 1);
    assert Run(START, e[..2], false) == Some(State(map[0 := x], map[0 := Want(0, SignOp)], 0));
    Extend(e, 2);
  }

  lemma BothInside(log: seq<Command>, child: nat, e: seq<Event>)
    requires Handed(log, child) && |e| >= 5
    requires e[0] == NewSigner(0, log, child) && e[1] == CallSign(0, 0, true) && e[2] == CallSign(1, 0, true)
    requires e[3] == Lock(0) && e[4] == Lock(1)
    ensures Run(START, e[..5], false)
            == Some(State(map[0 := Signer(Some(1), true, child, child, log, [])],
                          map[0 := Locked(0, SignOp), 1 := Locked(0, SignOp)], 0))
  {
    hide Accounts, Account, Handed, Run;
    BothCalled(log, child, e);
    var y := Signer(Some(0), true, child, child, log, []);
    var routines := map[0 := Locked(0, SignOp), 1 := Want(0, SignOp)];
    assert map[0 := y.(holder := None)][0 := y] == map[0 := y];
    assert map[0 := Want(0, SignOp), 1 := Want(0, SignOp)][0 := Locked(0, SignOp)] == routines;
    Extend(e, 3);
    assert Run(START, e[..4], false) == Some(State(map[0 := y], routines, 0));
    Extend(e, 4);
    assert map[0 := y][0 := y.(holder := Some(1))] == map[0 := y.(holder := Some(1))];
    assert routines[1 := Locked(0, SignOp)] == map[0 := Locked(0, SignOp), 1 := Locked(0, SignOp)];
  }

  lemma Extend(e: seq<Event>, i: nat)
    requires i < |e|
    ensures Run(START, e[..i + 1], false)
            == match Run(START, e[..i], false) case None => None case Some(t) => Next(t, e[i], false)
  {
    RunOne(START, e[..i], e[i], false);
    assert e[..i + 1] == e[..i] + [e[i]];
  }
}
