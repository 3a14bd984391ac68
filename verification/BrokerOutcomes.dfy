/**
 How a relayed read comes out, over every interleaving of the browser, the
 waiting side and the devices (crates/tam-api/src/broker.rs): what ends it,
 what breaks it, what refuses it, and that it can always be served whole.
 */
module BrokerOutcomes {
  import opened Wrappers
  import opened BrokerFlow
  import opened BrokerProtocol

  /** A read whose body is still on its way. */
  predicate UnderWay(r: Read) { r.phase.Asking? || r.phase.Draining? }

  /** The frames of the window being read have all been drawn, and its answer is over. */
  predicate RunDry(s: Sys, read: nat) {
    && read in s.bodies && s.bodies[read].phase.Draining? && s.bodies[read].phase.id in s.asks
    && s.asks[s.bodies[read].phase.id].queue == [] && s.asks[s.bodies[read].phase.id].party.Finished?
  }

  /** A device that was taken up on an answer and has neither sent a frame that waits to be drawn nor ended. */
  predicate Silent(s: Sys, read: nat) {
    && read in s.bodies && s.bodies[read].phase.Draining? && s.bodies[read].phase.id in s.asks
    && s.asks[s.bodies[read].phase.id].queue == [] && !s.asks[s.bodies[read].phase.id].party.Finished?
  }

  predicate FailureAhead(s: Sys, read: nat) {
    && read in s.bodies && s.bodies[read].phase.Draining? && s.bodies[read].phase.id in s.asks
    && s.asks[s.bodies[read].phase.id].queue != [] && s.asks[s.bodies[read].phase.id].queue[0].Broken?
  }

  /** How many bytes a read's windows so far should have brought. */
  ghost function Promised(s: Sys, read: nat): int
    requires read in s.bodies && s.bodies[read].asked != []
    requires s.bodies[read].asked[|s.bodies[read].asked| - 1] in s.asks
  {
    var r := s.bodies[read];
    s.asks[r.asked[|r.asked| - 1]].window.last - r.first + 1
  }

  function Total(r: Read): int { r.last - r.first + 1 }

  /** The failure a wait comes to by an action, if it fails by it. */
  ghost predicate FailsAs(s: Sys, action: Action, id: Id, failure: Failure) {
    && id in s.asks
    && var a := s.asks[id];
    match failure
    case RowFault => action == RowFailed(id) && a.wait.Writing?
    case Declined => action == SeeStart(id) && (a.wait.Waiting? || a.wait.Awaiting?) && a.signal == Sent(StartRefused)
    case NoAnswer =>
      || (action == TakeBack(id) && a.wait.Expired? && id in s.pending)
      || (action == SeeStart(id) && (a.wait.Waiting? || a.wait.Awaiting?) && a.signal.Dropped?)
  }

  /** What ends a read: its last window run dry with every byte of its range received. */
  ghost predicate Ends(s: Sys, action: Action, read: nat) {
    action == EndOfWindow(read) && RunDry(s, read) && |s.bodies[read].received| == Total(s.bodies[read])
  }

  lemma LastAsked(s: Sys, read: nat)
    requires Inv(s) && read in s.bodies
    ensures var r := s.bodies[read];
            && r.asked != [] && r.asked[|r.asked| - 1] in s.asks
            && s.asks[r.asked[|r.asked| - 1]].window.last <= r.last
            && (r.phase.Asking? || r.phase.Draining? ==> r.phase.id == r.asked[|r.asked| - 1])
            && |r.received| <= Promised(s, read) <= Total(r)
            && (r.phase.Draining? ==>
                  && r.owed == Promised(s, read) - |r.received|
                  && r.next == s.asks[r.phase.id].window.last + 1)
  {
    hide AskLinked, Payload;
    assert ReadOk(s.asks, read, s.bodies[read]);
    var a := s.asks[s.bodies[read].asked[|s.bodies[read].asked| - 1]];
    LinkedAsk(s, s.bodies[read].asked[|s.bodies[read].asked| - 1]);
    PayloadAppend(a.drawn, a.queue);
  }

  /** What breaks a read: a failure frame, a silence, a window short of its length, or a later one never opened. */
  ghost predicate Breaks(s: Sys, action: Action, read: nat)
    requires Inv(s) && read in s.bodies
  {
    LastAsked(s, read);
    var r := s.bodies[read];
    || (action == Receive(read) && FailureAhead(s, read))
    || (action == Quiet(read) && Silent(s, read))
    || (action == EndOfWindow(read) && RunDry(s, read) && |r.received| < Promised(s, read))
    || (action == NextUnopened(read) && RunDry(s, read) && |r.received| == Promised(s, read) < Total(r))
    || (r.phase.Asking? && |r.asked| > 1 && exists failure :: FailsAs(s, action, r.phase.id, failure))
  }

  /** What refuses a read before its body: its first window's failure. */
  ghost predicate Refuses(s: Sys, action: Action, read: nat, failure: Failure)
    requires read in s.bodies
  {
    var r := s.bodies[read];
    r.phase.Asking? && |r.asked| == 1 && FailsAs(s, action, r.phase.id, failure)
  }

  predicate Leaves(s: Sys, action: Action, read: nat)
    requires read in s.bodies
  {
    action == Action.Leave(read) && s.bodies[read].phase.Draining?
  }

  // ------------------------------------------------------------ one action

  /** What a read comes to by one action. */
  ghost predicate ComesTo(s: Sys, action: Action, read: nat, t: Sys)
    requires Inv(s) && read in s.bodies && read in t.bodies
  {
    var (r, now) := (s.bodies[read], t.bodies[read]);
    && (now.phase.Ended? <==> Ends(s, action, read))
    && (now.phase.Broke? <==> Breaks(s, action, read))
    && (now.phase.Left? <==> Leaves(s, action, read))
    && (forall failure :: now.phase == Declining(failure) <==> Refuses(s, action, read, failure))
    && r.received <= now.received && r.asked <= now.asked
    && now.first == r.first && now.last == r.last
  }

  lemma NoFailure(s: Sys, action: Action)
    requires Bodily(action) || action.Begin? || action.Claim? || action.Device?
    ensures forall id, failure :: !FailsAs(s, action, id, failure)
  {
  }

  lemma ReceiveComesTo(s: Sys, action: Action, read: nat)
    requires Inv(s) && read in s.bodies && UnderWay(s.bodies[read])
    requires action.Receive?
    ensures read in Next(s, action).bodies && ComesTo(s, action, read, Next(s, action))
  {
    hide ReadOk, Ask.Ok, AskLinked, Inv, WindowEnd, DeviceMove, FailsAs;
    InvIsSane(s);
    LastAsked(s, read);
    NoFailure(s, action);
  }

  lemma QuietComesTo(s: Sys, action: Action, read: nat)
    requires Inv(s) && read in s.bodies && UnderWay(s.bodies[read])
    requires action.Quiet?
    ensures read in Next(s, action).bodies && ComesTo(s, action, read, Next(s, action))
  {
    hide ReadOk, Ask.Ok, AskLinked, Inv, WindowEnd, DeviceMove, FailsAs;
    InvIsSane(s);
    LastAsked(s, read);
    NoFailure(s, action);
  }

  lemma LeaveComesTo(s: Sys, action: Action, read: nat)
    requires Inv(s) && read in s.bodies && UnderWay(s.bodies[read])
    requires action.Leave?
    ensures read in Next(s, action).bodies && ComesTo(s, action, read, Next(s, action))
  {
    hide ReadOk, Ask.Ok, AskLinked, Inv, WindowEnd, DeviceMove, FailsAs;
    InvIsSane(s);
    LastAsked(s, read);
    NoFailure(s, action);
  }

  lemma EndComesTo(s: Sys, action: Action, read: nat)
    requires Inv(s) && read in s.bodies && UnderWay(s.bodies[read])
    requires action.EndOfWindow?
    ensures read in Next(s, action).bodies && ComesTo(s, action, read, Next(s, action))
  {
    hide ReadOk, Ask.Ok, AskLinked, Inv, WindowEnd, DeviceMove, FailsAs;
    InvIsSane(s);
    LastAsked(s, read);
    NoFailure(s, action);
  }

  lemma UnopenedComesTo(s: Sys, action: Action, read: nat)
    requires Inv(s) && read in s.bodies && UnderWay(s.bodies[read])
    requires action.NextUnopened?
    ensures read in Next(s, action).bodies && ComesTo(s, action, read, Next(s, action))
  {
    hide ReadOk, Ask.Ok, AskLinked, Inv, WindowEnd, DeviceMove, FailsAs;
    InvIsSane(s);
    LastAsked(s, read);
    NoFailure(s, action);
  }

  lemma NextWindowComesTo(s: Sys, action: Action, read: nat)
    requires Inv(s) && read in s.bodies && UnderWay(s.bodies[read])
    requires action.NextWindow?
    ensures read in Next(s, action).bodies && ComesTo(s, action, read, Next(s, action))
  {
    hide ReadOk, Ask.Ok, AskLinked, Inv, WindowEnd, DeviceMove, FailsAs;
    InvIsSane(s);
    LastAsked(s, read);
    NoFailure(s, action);
  }

  /** An ask still opening is the one its read is asking. */
  lemma OpeningIsAsked(s: Sys, id: Id)
    requires Inv(s) && id in s.asks && s.asks[id].Opening()
    ensures s.asks[id].read in s.bodies && s.bodies[s.asks[id].read].phase == Asking(id)
  {
    hide ReadOk, Ask.Ok;
    assert AskLinked(s, id);
  }

  lemma OtherComesTo(s: Sys, action: Action, read: nat)
    requires Inv(s) && read in s.bodies && UnderWay(s.bodies[read])
    requires action.Begin? || action.Claim? || action.Device?
    ensures read in Next(s, action).bodies && ComesTo(s, action, read, Next(s, action))
  {
    hide ReadOk, Ask.Ok, AskLinked, Inv, WindowEnd, DeviceMove, FailsAs;
    InvIsSane(s);
    LastAsked(s, read);
    NoFailure(s, action);
  }

  lemma AskedIsIts(s: Sys, read: nat)
    requires Inv(s) && read in s.bodies && s.bodies[read].phase.Asking?
    ensures var id := s.bodies[read].phase.id;
            id in s.asks && s.asks[id].read == read && s.asks[id].Opening()
  {
    hide AskLinked, Payload;
    var r := s.bodies[read];
    assert ReadOk(s.asks, read, r);
    assert r.asked[|r.asked| - 1] in r.asked;
  }

  /** What a wait's action makes of the bodies: a failure's end, the start of a drain, or nothing. */
  lemma WaitMovesBodies(s: Sys, action: Action)
    requires Inv(s)
    requires action.RowWritten? || action.RowFailed? || action.TimerFires? || action.TakeBack? || action.SeeStart?
    ensures var t := Next(s, action);
            && (forall failure | FailsAs(s, action, action.id, failure) ::
                  && action.id in s.asks
                  && var read := s.asks[action.id].read;
                  && s.asks[action.id].Opening() && read in s.bodies
                  && t.bodies == s.bodies[read := GiveUp(s.bodies[read], failure)])
            && ((forall failure :: !FailsAs(s, action, action.id, failure)) ==>
                  || t.bodies == s.bodies
                  || (action.SeeStart? && action.id in s.asks && s.asks[action.id].Opening()
                      && s.asks[action.id].read in s.bodies
                      && exists r: Read :: t.bodies == s.bodies[s.asks[action.id].read := r]
                                           && r.phase == Draining(action.id)
                                           && r == s.bodies[s.asks[action.id].read].(
                                                phase := r.phase, owed := r.owed, next := r.next)))
  {
    hide ReadOk, Ask.Ok, AskLinked, Inv, WindowEnd, DeviceMove, GiveUp;
    InvIsSane(s);
    var id := action.id;
    if id in s.asks {
      LinkedAsk(s, id);
      assert FailsAs(s, action, id, RowFault) <==> action == RowFailed(id) && s.asks[id].wait.Writing?;
      assert action.TakeBack? && s.asks[id].wait.Expired? && id in s.pending ==> FailsAs(s, action, id, NoAnswer);
      assert action.SeeStart? && (s.asks[id].wait.Waiting? || s.asks[id].wait.Awaiting?) ==>
          && (s.asks[id].signal.Dropped? ==> FailsAs(s, action, id, NoAnswer))
          && (s.asks[id].signal == Sent(StartRefused) ==> FailsAs(s, action, id, Declined));
    }
  }

  /** What a wait's action could end a read by. */
  lemma OfWait(s: Sys, action: Action, read: nat)
    requires Inv(s) && read in s.bodies && !Bodily(action)
    ensures var r := s.bodies[read];
            && !Ends(s, action, read) && !Leaves(s, action, read)
            && (Breaks(s, action, read)
                <==> r.phase.Asking? && |r.asked| > 1 && exists failure :: FailsAs(s, action, r.phase.id, failure))
            && (forall failure :: Refuses(s, action, read, failure)
                                  <==> r.phase.Asking? && |r.asked| == 1 && FailsAs(s, action, r.phase.id, failure))
  {
    hide Inv, FailsAs, Promised;
  }

  /** An action of nobody's body leaves a read under way where it fails no wait of that read's. */
  lemma StillUnderWay(s: Sys, action: Action, read: nat, t: Sys)
    requires Inv(s) && read in s.bodies && UnderWay(s.bodies[read]) && !Bodily(action)
    requires read in t.bodies && UnderWay(t.bodies[read])
    requires t.bodies[read] == s.bodies[read].(
               phase := t.bodies[read].phase, owed := t.bodies[read].owed, next := t.bodies[read].next)
    requires forall failure :: s.bodies[read].phase.Asking? ==> !FailsAs(s, action, s.bodies[read].phase.id, failure)
    ensures ComesTo(s, action, read, t)
  {
    hide Inv, FailsAs, Ends, Leaves, Breaks, Refuses;
    OfWait(s, action, read);
  }

  lemma OneFailure(s: Sys, action: Action, id: Id, failure: Failure)
    requires FailsAs(s, action, id, failure)
    ensures forall f :: FailsAs(s, action, id, f) <==> f == failure
  {
  }

  lemma GivenUp(s: Sys, action: Action, read: nat, failure: Failure, t: Sys)
    requires Inv(s) && read in s.bodies && s.bodies[read].phase.Asking? && !Bodily(action)
    requires FailsAs(s, action, s.bodies[read].phase.id, failure)
    requires read in t.bodies && t.bodies[read] == GiveUp(s.bodies[read], failure)
    ensures ComesTo(s, action, read, t)
  {
    hide Inv, FailsAs, Ends, Leaves, Breaks, Refuses, Promised;
    LastAsked(s, read);
    OfWait(s, action, read);
    OneFailure(s, action, s.bodies[read].phase.id, failure);
  }

  lemma OnlyOwnAction(s: Sys, action: Action)
    requires action.RowWritten? || action.RowFailed? || action.TimerFires? || action.TakeBack? || action.SeeStart?
    ensures forall id, failure | FailsAs(s, action, id, failure) :: id == action.id
  {
  }

  lemma WaitComesTo(s: Sys, action: Action, read: nat)
    requires Inv(s) && read in s.bodies && UnderWay(s.bodies[read])
    requires action.RowWritten? || action.RowFailed? || action.TimerFires? || action.TakeBack? || action.SeeStart?
    ensures read in Next(s, action).bodies && ComesTo(s, action, read, Next(s, action))
  {
    hide Inv, Next, FailsAs, ComesTo, GiveUp;
    WaitMovesBodies(s, action);
    OnlyOwnAction(s, action);
    var t := Next(s, action);
    if s.bodies[read].phase.Asking? { AskedIsIts(s, read); }
    if failure :| FailsAs(s, action, action.id, failure) {
      OpeningIsAsked(s, action.id);
      if s.asks[action.id].read == read {
        GivenUp(s, action, read, failure, t);
      } else {
        assert s.bodies[read].phase.Asking? ==> s.bodies[read].phase.id != action.id;
        StillUnderWay(s, action, read, t);
      }
    } else {
      assert forall failure :: !FailsAs(s, action, action.id, failure);
      StillUnderWay(s, action, read, t);
    }
  }

  /**
   An action ends a read exactly as `Ends`, `Breaks`, `Leaves` and `Refuses`
   say, takes nothing received from it, and asks for no window twice.
   */
  lemma NextComesTo(s: Sys, action: Action, read: nat)
    requires Inv(s) && read in s.bodies && UnderWay(s.bodies[read])
    ensures read in Next(s, action).bodies && ComesTo(s, action, read, Next(s, action))
  {
    hide Inv, Next, ComesTo;
    if action.Receive? {
      ReceiveComesTo(s, action, read);
    } else if action.Quiet? {
      QuietComesTo(s, action, read);
    } else if action.Leave? {
      LeaveComesTo(s, action, read);
    } else if action.EndOfWindow? {
      EndComesTo(s, action, read);
    } else if action.NextUnopened? {
      UnopenedComesTo(s, action, read);
    } else if action.NextWindow? {
      NextWindowComesTo(s, action, read);
    } else if action.Begin? || action.Claim? || action.Device? {
      OtherComesTo(s, action, read);
    } else {
      WaitComesTo(s, action, read);
    }
  }

  /** A read that is over stays as it came out. */
  lemma OverStays(s: Sys, action: Action, read: nat)
    requires Inv(s) && read in s.bodies && !UnderWay(s.bodies[read])
    ensures read in Next(s, action).bodies && Next(s, action).bodies[read] == s.bodies[read]
  {
    hide ReadOk, Ask.Ok, AskLinked, Inv, WindowEnd, DeviceMove, GiveUp;
    InvIsSane(s);
    if action.RowWritten? || action.RowFailed? || action.TimerFires? || action.TakeBack? || action.SeeStart? {
      if action.id in s.asks && s.asks[action.id].Opening() { OpeningIsAsked(s, action.id); }
    }
  }

  lemma WaitFails(s: Sys, action: Action, id: Id, failure: Failure)
    requires Inv(s) && id in s.asks
    requires action.RowWritten? || action.RowFailed? || action.TimerFires? || action.TakeBack? || action.SeeStart?
    ensures id in Next(s, action).asks
    ensures Next(s, action).asks[id].wait == Failed(failure)
            <==> s.asks[id].wait == Failed(failure) || FailsAs(s, action, id, failure)
  {
    hide ReadOk, Ask.Ok, AskLinked, Inv, WindowEnd, DeviceMove;
    InvIsSane(s);
    LinkedAsk(s, id);
  }

  lemma BeginTouches(s: Sys, action: Action, id: Id)
    requires Inv(s) && id in s.asks && action.Begin?
    ensures id in Next(s, action).asks && Next(s, action).asks[id] == s.asks[id]
  {
    hide ReadOk, Ask.Ok, AskLinked, Inv, WindowEnd, DeviceMove;
    InvIsSane(s);
  }

  lemma NotWait(s: Sys, action: Action, id: Id)
    requires Inv(s) && id in s.asks
    requires !(action.RowWritten? || action.RowFailed? || action.TimerFires? || action.TakeBack? || action.SeeStart?)
    ensures id in Next(s, action).asks
    ensures Next(s, action).asks[id].wait == s.asks[id].wait || Next(s, action).asks[id].wait.Closed?
    ensures Next(s, action).asks[id].wait.Closed? ==> s.asks[id].wait.Closed? || s.asks[id].wait.Streaming?
    ensures forall failure :: !FailsAs(s, action, id, failure)
  {
    hide Inv, Next, KeptBy, WaitMovesTo;
    if action.NextWindow? {
      NextTouches(s, action, id);
    } else if Bodily(action) {
      BodyTouches(s, action, id);
    } else if action.Device? || action.Claim? {
      DeviceTouches(s, action, id);
    } else {
      WaitMoves(s, action, id);
      BeginTouches(s, action, id);
    }
  }

  /** A wait fails exactly as `FailsAs` says, and stays so. */
  lemma FailIff(s: Sys, action: Action, id: Id, failure: Failure)
    requires Inv(s) && id in s.asks
    ensures id in Next(s, action).asks
    ensures Next(s, action).asks[id].wait == Failed(failure)
            <==> s.asks[id].wait == Failed(failure) || FailsAs(s, action, id, failure)
  {
    hide Inv, Next;
    AskKept(s, action, id);
    if action.RowWritten? || action.RowFailed? || action.TimerFires? || action.TakeBack? || action.SeeStart? {
      WaitFails(s, action, id, failure);
    } else {
      NotWait(s, action, id);
    }
  }

  // ------------------------------------------------------------ what the device is answered

  /** Whether the answering side has to wait with this: a frame to send, nobody gone, and no room. */
  predicate Blocked(a: Ask, move: Move)
    requires a.window.first <= a.window.last
  {
    && a.party.Piping? && a.Listening() && |a.queue| >= FRAMES_BUFFERED
    && (move.Arrive? || (move.EndOfUpload? && |Payload(a.piped)| < a.window.Length()))
  }

  /** The status a move is answered with, in terms of the bytes piped. */
  function StatusOf(a: Ask, move: Move): Option<Status>
    requires a.window.first <= a.window.last
  {
    var piped := |Payload(a.piped)|;
    if a.party.Claimed? then
      (match move
       case Malformed => Some(Unprocessable)
       case Refuse => Some(NoContent)
       case Serve => if a.Opening() then None else Some(Gone)
       case _ => None)
    else if !a.party.Piping? || Blocked(a, move) then None
    else
      match move
      case Arrive(Break) => Some(Unprocessable)
      case Arrive(Chunk(data)) =>
        if piped + |data| > a.window.Length() then Some(Unprocessable) else if a.Listening() then None else Some(Gone)
      case EndOfUpload => Some(if piped < a.window.Length() then Unprocessable else NoContent)
      case _ => None
  }

  /**
   A device hears `NoContent` for a refusal or a whole answer, `Gone` where nobody listens, and else what was wrong;
   and the waiting side hears that it is served, or refused, exactly where it is still there to hear.
   */
  lemma StatusIs(a: Ask, move: Move)
    requires a.Ok() && (a.party.Claimed? || a.party.Piping?)
    ensures var b := DeviceMove(a, move);
            && (StatusOf(a, move).Some? ==> b.party == Finished(StatusOf(a, move)))
            && (StatusOf(a, move).None? ==> b.party.Finished? ==> move.Vanish? && b.party == Finished(None))
            && (a.party.Claimed? && move.Serve? && a.Opening() ==>
                  b.party == Piping(0) && b.signal == Sent(StartServing))
            && (a.party.Claimed? && move.Refuse? && a.Opening() ==> b.signal == Sent(StartRefused))
            && (a.party.Claimed? && b.party.Finished? && !(move.Refuse? && a.Opening()) ==> b.signal.Dropped?)
            && ((a.party.Claimed? && (move.Arrive? || move.EndOfUpload?)) || Blocked(a, move) ==> b == a)
            && (move.Vanish? ==> b.party == Finished(None))
            && (a.party.Piping? ==> b.signal == a.signal)
  {
    hide Payload, Unbroken;
  }

  // ------------------------------------------------------------ every run

  /** Whether an action takes a read to where it stays. */
  ghost predicate Turn(s: Sys, action: Action, read: nat, phase: Phase)
    requires Inv(s) && read in s.bodies
  {
    match phase
    case Ended => Ends(s, action, read)
    case Broke => Breaks(s, action, read)
    case Left => Leaves(s, action, read)
    case Declining(failure) => Refuses(s, action, read, failure)
    case _ => false
  }

  lemma TurnIff(s: Sys, action: Action, read: nat, phase: Phase)
    requires Inv(s) && read in s.bodies && !phase.Asking? && !phase.Draining?
    ensures read in Next(s, action).bodies
    ensures Next(s, action).bodies[read].phase == phase
            <==> (!UnderWay(s.bodies[read]) && s.bodies[read].phase == phase) || Turn(s, action, read, phase)
    ensures Turn(s, action, read, phase) ==> UnderWay(s.bodies[read])
  {
    hide Inv, Next, FailsAs, Promised;
    if UnderWay(s.bodies[read]) {
      NextComesTo(s, action, read);
      hide Ends, Breaks, Leaves, Refuses;
    } else {
      OverStays(s, action, read);
    }
  }

  lemma BegunUnderWay(s: Sys, action: Action, read: nat)
    requires Inv(s) && read !in s.bodies && read in Next(s, action).bodies
    ensures UnderWay(Next(s, action).bodies[read])
  {
    hide ReadOk, Ask.Ok, AskLinked, Inv, WindowEnd, DeviceMove, GiveUp;
    InvIsSane(s);
  }

  /** Whether, and where in a run, a read was taken to where it stays. */
  ghost predicate TurnedAt(actions: seq<Action>, read: nat, k: nat, phase: Phase) {
    && k < |actions| && read in Reached(actions[..k]).bodies
    && Turn(Reached(actions[..k]), actions[k], read, phase)
  }

  ghost predicate Turned(actions: seq<Action>, read: nat, phase: Phase) {
    exists k: nat :: TurnedAt(actions, read, k, phase)
  }

  lemma TurnedSame(front: seq<Action>, last: Action, read: nat, k: nat, phase: Phase)
    requires k < |front|
    ensures TurnedAt(front + [last], read, k, phase) <==> TurnedAt(front, read, k, phase)
  {
    hide Turn, Reached, Inv;
    assert (front + [last])[..k] == front[..k];
  }

  lemma TurnedEarly(actions: seq<Action>, read: nat, phase: Phase)
    ensures forall k: nat | k >= |actions| :: !TurnedAt(actions, read, k, phase)
  {
    hide Turn, Reached, Inv;
  }

  lemma TurnedOn(front: seq<Action>, last: Action, read: nat, phase: Phase)
    ensures Turned(front + [last], read, phase)
            <==> Turned(front, read, phase) || TurnedAt(front + [last], read, |front|, phase)
  {
    hide TurnedAt;
    TurnedEarly(front, read, phase);
    TurnedEarly(front + [last], read, phase);
    forall k: nat | k < |front|
      ensures TurnedAt(front + [last], read, k, phase) <==> TurnedAt(front, read, k, phase)
    {
      TurnedSame(front, last, read, k, phase);
    }
  }

  lemma ReachedOn(front: seq<Action>, last: Action)
    ensures Reached(front + [last]) == Next(Reached(front), last)
  {
    hide Inv, Next, Run;
    StartIsGood();
    RunOn(START, front, last);
  }

  lemma BodiesStay(s: Sys, action: Action, read: nat)
    requires Inv(s) && read !in Next(s, action).bodies
    ensures read !in s.bodies
  {
    hide Inv, Next;
    if read in s.bodies { TurnIff(s, action, read, Ended); }
  }

  /** A read that no run has yet begun has come to nothing. */
  lemma {:induction false} NotBegun(actions: seq<Action>, read: nat, k: nat)
    requires k <= |actions| && read !in Reached(actions).bodies
    ensures read !in Reached(actions[..k]).bodies
    decreases |actions|
  {
    hide Inv, Reached, Next;
    if k == |actions| {
      assert actions[..k] == actions;
    } else {
      var front := actions[..|actions| - 1];
      assert actions == front + [actions[|actions| - 1]] && front[..k] == actions[..k];
      ReachedOn(front, actions[|actions| - 1]);
      BodiesStay(Reached(front), actions[|actions| - 1], read);
      NotBegun(front, read, k);
    }
  }

  lemma NothingBegun(read: nat)
    ensures read !in Reached([]).bodies
  {
    hide Inv;
  }

  /**
   In every interleaving a read is ended, broken off, left or refused exactly
   where some action of the run did that to it: ended, by running its last
   window dry with its whole range received; broken, by a failure frame, a
   silence, a window short of its length or a later one never opened.
   */
  lemma {:induction false} OutcomeIff(actions: seq<Action>, read: nat, phase: Phase)
    requires read in Reached(actions).bodies && !phase.Asking? && !phase.Draining?
    ensures Reached(actions).bodies[read].phase == phase <==> Turned(actions, read, phase)
    decreases |actions|
  {
    hide Inv, Next, Turn, Reached, Run;
    if actions == [] {
      NothingBegun(read);
    } else {
      var (front, last) := (actions[..|actions| - 1], actions[|actions| - 1]);
      assert actions == front + [last] && actions[..|front|] == front;
      ReachedOn(front, last);
      TurnedOn(front, last, read, phase);
      var s := Reached(front);
      if read in s.bodies {
        OutcomeIff(front, read, phase);
        TurnIff(s, last, read, phase);
      } else {
        BegunUnderWay(s, last, read);
        forall k: nat ensures !TurnedAt(front, read, k, phase) {
          if k < |front| { NotBegun(front, read, k); }
        }
      }
    }
  }

  /** A read whose window has run dry with its whole range received ends at its next look, and not before. */
  lemma WholeReadEnds(s: Sys, read: nat)
    requires Inv(s) && RunDry(s, read) && |s.bodies[read].received| == Total(s.bodies[read])
    ensures var t := Next(s, EndOfWindow(read));
            read in t.bodies && t.bodies[read] == s.bodies[read].(phase := Ended)
  {
    hide ReadOk, Ask.Ok, AskLinked, Inv, WindowEnd, DeviceMove, GiveUp;
    LastAsked(s, read);
    InvIsSane(s);
  }

  // ------------------------------------------------------------ a read served whole

  lemma {:induction false} RunAfter(s: Sys, a: seq<Action>, b: seq<Action>)
    requires Inv(s)
    ensures Run(s, a + b) == Run(Run(s, a), b)
    decreases |a|
  {
    hide Inv, Next;
    if a == [] {
      assert a + b == b;
    } else {
      assert (a + b)[1..] == a[1..] + b;
      RunAfter(Next(s, a[0]), a[1..], b);
    }
  }

  /** An ask just opened: its row being written, its entry pending, and nobody's answer yet. */
  ghost predicate JustOpened(s: Sys, read: nat, id: Id) {
    && id in s.asks && read in s.bodies && s.bodies[read].phase == Asking(id)
    && var (a, r) := (s.asks[id], s.bodies[read]);
    && a.read == read && a.org == r.org && a.device == r.device
    && a.wait.Writing? && a.signal.Unsent? && a.party.Unclaimed? && a.queue == [] && a.piped == [] && a.drawn == []
    && a.window.first <= a.window.last
    && id in s.pending && s.pending[id] == a.Entry()
  }

  lemma RowGoesIn(s: Sys, read: nat, id: Id)
    requires Inv(s) && JustOpened(s, read, id)
    ensures Next(s, RowWritten(id)) == s.(asks := s.asks[id := s.asks[id].(wait := Waiting)])
  {
    hide Inv;
  }

  lemma ClaimGoesIn(s: Sys, id: Id, a: Ask)
    requires Inv(s) && id in s.asks && s.asks[id] == a && a.window.first <= a.window.last
    requires id in s.pending && s.pending[id] == a.Entry()
    ensures Next(s, Claim(id, a.org, a.device, a.capability))
         == s.(pending := s.pending - {id}, asks := s.asks[id := a.(party := Claimed)])
  {
    hide Inv;
  }

  lemma DeviceGoesIn(s: Sys, id: Id, a: Ask, move: Move)
    requires Inv(s) && id in s.asks && s.asks[id] == a && a.window.first <= a.window.last
    ensures Next(s, Device(id, move)) == s.(asks := s.asks[id := DeviceMove(a, move)])
  {
    hide Inv, DeviceMove;
  }

  lemma StartGoesIn(s: Sys, read: nat, id: Id, a: Ask)
    requires Inv(s) && id in s.asks && s.asks[id] == a && a.wait.Waiting? && a.signal == Sent(StartServing)
    requires a.read == read && read in s.bodies && a.window.first <= a.window.last
    ensures Next(s, SeeStart(id))
         == s.(asks := s.asks[id := a.(wait := Streaming)],
               bodies := s.bodies[read := s.bodies[read].(phase := Draining(id), owed := a.window.Length(),
                                                          next := After(a.window.last))])
  {
    hide Inv;
  }

  lemma FrameGoesIn(s: Sys, read: nat, id: Id, a: Ask, data: seq<Byte>)
    requires Inv(s) && read in s.bodies && s.bodies[read].phase == Draining(id) && id in s.asks && s.asks[id] == a
    requires a.queue != [] && a.queue[0] == Bytes(data)
    ensures var t := Next(s, Receive(read));
            && t.asks == s.asks[id := a.(queue := a.queue[1..], drawn := a.drawn + [Bytes(data)])]
            && t.pending == s.pending && read in t.bodies
            && t.bodies == s.bodies[read := s.bodies[read].(owed := t.bodies[read].owed,
                                                            received := s.bodies[read].received + data)]
  {
    hide Inv;
  }

  /** What a device that answers one window whole and at once does, with the browser's side of it. */
  function Service(read: nat, id: Id, a: Ask, data: seq<Byte>): seq<Action> {
    [RowWritten(id), Claim(id, a.org, a.device, a.capability), Device(id, Serve), SeeStart(id),
     Device(id, Arrive(Chunk(data))), Device(id, EndOfUpload), Receive(read)]
  }

  lemma ServedMoves(a: Ask, data: seq<Byte>)
    requires a.window.first <= a.window.last && |data| == a.window.Length() <= WINDOW_BYTES
    requires a.queue == [] && a.piped == [] && a.drawn == []
    ensures a.Opening() && a.party.Claimed? ==>
              DeviceMove(a, Serve) == a.(party := Piping(0), signal := Sent(StartServing))
    ensures a.Listening() && a.party == Piping(0) ==>
              var b := DeviceMove(a, Arrive(Chunk(data)));
              && b == a.(party := Piping(|data|), queue := [Bytes(data)], piped := [Bytes(data)])
              && DeviceMove(b, EndOfUpload) == b.(party := Finished(Some(NoContent)))
  {
  }

  lemma RunOfOne(s: Sys, x: seq<Action>)
    requires Inv(s) && |x| == 1
    ensures Run(s, x) == Next(s, x[0])
  {
    hide Inv, Next;
    assert x[1..] == [];
  }

  lemma RunOfThree(s: Sys, x: seq<Action>)
    requires Inv(s) && |x| == 3
    ensures Run(s, x) == Next(Next(Next(s, x[0]), x[1]), x[2])
  {
    hide Inv, Next, Run;
    assert x == [x[0]] + ([x[1]] + [x[2]]);
    RunAfter(s, [x[0]], [x[1]] + [x[2]]);
    RunOfOne(s, [x[0]]);
    RunAfter(Next(s, x[0]), [x[1]], [x[2]]);
    RunOfOne(Next(s, x[0]), [x[1]]);
    RunOfOne(Next(Next(s, x[0]), x[1]), [x[2]]);
  }

  lemma RunOfSeven(s: Sys, x: seq<Action>)
    requires Inv(s) && |x| == 7
    ensures Run(s, x) == Next(Next(Next(Next(Next(Next(Next(s, x[0]), x[1]), x[2]), x[3]), x[4]), x[5]), x[6])
  {
    hide Inv, Next, Run;
    RunOfThree(s, x[..3]);
    assert x == x[..3] + x[3..];
    RunAfter(s, x[..3], x[3..]);
    var t := Run(s, x[..3]);
    assert x[3..] == x[3..6] + x[6..];
    RunOfThree(t, x[3..6]);
    RunAfter(t, x[3..6], x[6..]);
    RunOfOne(Run(t, x[3..6]), x[6..]);
  }

  /** A window so answered runs dry with its bytes received. */
  lemma WindowServed(s: Sys, read: nat, id: Id, data: seq<Byte>)
    requires Inv(s) && JustOpened(s, read, id) && |data| == s.asks[id].window.Length() <= WINDOW_BYTES
    ensures var t := Run(s, Service(read, id, s.asks[id], data));
            && RunDry(t, read) && t.bodies[read].phase == Draining(id)
            && t.bodies[read].received == s.bodies[read].received + data
            && t.bodies[read] == s.bodies[read].(phase := Draining(id), owed := t.bodies[read].owed,
                                                 next := t.bodies[read].next, received := t.bodies[read].received)
            && t.asks.Keys == s.asks.Keys && t.asks[id].window == s.asks[id].window
  {
    hide Inv, Next, DeviceMove, Run;
    var a := s.asks[id];
    var x := Service(read, id, a, data);
    RunOfSeven(s, x);
    RowGoesIn(s, read, id);
    var (s1, a1) := (Next(s, x[0]), a.(wait := Waiting));
    ClaimGoesIn(s1, id, a1);
    var (s2, a2) := (Next(s1, x[1]), a1.(party := Claimed));
    ServedMoves(a2, data);
    DeviceGoesIn(s2, id, a2, Serve);
    var (s3, a3) := (Next(s2, x[2]), a2.(party := Piping(0), signal := Sent(StartServing)));
    StartGoesIn(s3, read, id, a3);
    var (s4, a4) := (Next(s3, x[3]), a3.(wait := Streaming));
    ServedMoves(a4, data);
    DeviceGoesIn(s4, id, a4, Arrive(Chunk(data)));
    var (s5, a5) := (Next(s4, x[4]), a4.(party := Piping(|data|), queue := [Bytes(data)], piped := [Bytes(data)]));
    DeviceGoesIn(s5, id, a5, EndOfUpload);
    var (s6, a6) := (Next(s5, x[5]), a5.(party := Finished(Some(NoContent))));
    FrameGoesIn(s6, read, id, a6, data);
  }

  lemma {:induction false} Bounded(ids: set<Id>) returns (bound: Id)
    ensures forall id <- ids :: id < bound
  {
    if ids == {} {
      bound := 0;
    } else {
      var one :| one in ids;
      bound := Bounded(ids - {one});
      if one >= bound { bound := one + 1; }
      assert forall id <- ids :: id == one || id in ids - {one};
    }
  }

  lemma FreshId(asks: map<Id, Ask>) returns (id: Id)
    ensures id !in asks
  {
    id := Bounded(asks.Keys);
  }
  lemma NextOpens(s: Sys, read: nat, id: Id, capability: string)
    requires Inv(s) && RunDry(s, read) && id !in s.asks
    requires |s.bodies[read].received| == Promised(s, read) < Total(s.bodies[read])
    ensures var (r, t) := (s.bodies[read], Next(s, NextWindow(read, id, capability)));
            && JustOpened(t, read, id)
            && t.asks[id].window == Window(r.first + |r.received|, WindowEnd(r.first + |r.received|, r.last))
            && t.bodies[read] == r.(phase := Asking(id), asked := r.asked + [id])
  {
    hide ReadOk, Ask.Ok, AskLinked, Inv, WindowEnd, DeviceMove;
    LastAsked(s, read);
    InvIsSane(s);
  }

  lemma WindowBounds(first: nat, last: nat)
    requires first <= last <= U64_MAX
    ensures first <= WindowEnd(first, last) <= last && WindowEnd(first, last) - first < WINDOW_BYTES
  {
  }

  /**
   From any point where a window has just been asked for, a device that
   answers each window with the file's bytes brings the read to its end with
   exactly its range of the file.
   */
  lemma {:induction false} ServedToTheEnd(s: Sys, read: nat, id: Id, file: seq<Byte>) returns (actions: seq<Action>)
    requires Inv(s) && JustOpened(s, read, id)
    requires var (r, w) := (s.bodies[read], s.asks[id].window);
             && r.asked != [] && r.asked[|r.asked| - 1] == id
             && r.first <= w.first <= r.last < |file| && r.last < U64_MAX && w.last == WindowEnd(w.first, r.last)
             && r.received == file[r.first..w.first]
    ensures var t := Run(s, actions);
            && read in t.bodies && t.bodies[read].phase.Ended? && t.bodies[read].first == s.bodies[read].first
            && t.bodies[read].received == file[s.bodies[read].first..s.bodies[read].last + 1]
    decreases s.bodies[read].last - s.asks[id].window.first
  {
    hide Inv, Next, Run, WindowEnd;
    var (r, w) := (s.bodies[read], s.asks[id].window);
    WindowBounds(w.first, r.last);
    var data := file[w.first..w.last + 1];
    WindowServed(s, read, id, data);
    var service := Service(read, id, s.asks[id], data);
    var t := Run(s, service);
    assert r.received + data == file[r.first..w.last + 1];
    LastAsked(t, read);
    if w.last == r.last {
      actions := service + [EndOfWindow(read)];
      RunAfter(s, service, [EndOfWindow(read)]);
      RunOfOne(t, [EndOfWindow(read)]);
      WholeReadEnds(t, read);
    } else {
      var next := FreshId(t.asks);
      var opens := [NextWindow(read, next, "")];
      NextOpens(t, read, next, "");
      RunOfOne(t, opens);
      var rest := ServedToTheEnd(Next(t, opens[0]), read, next, file);
      actions := service + (opens + rest);
      RunAfter(s, service, opens + rest);
      RunAfter(t, opens, rest);
    }
  }

  lemma BeginOpens(s: Sys, read: nat, org: nat, device: string, first: nat, last: nat, id: Id)
    requires Inv(s) && read !in s.bodies && id !in s.asks && first <= last < U64_MAX
    ensures var t := Next(s, Begin(read, org, device, first, last, id, ""));
            && JustOpened(t, read, id) && t.asks[id].window == Window(first, WindowEnd(first, last))
            && t.bodies[read] == Read(org, device, first, last, Asking(id), 0, first, [], [id])
  {
    hide ReadOk, Ask.Ok, AskLinked, Inv, WindowEnd, DeviceMove;
    InvIsSane(s);
  }

  /** In any state of any run, any range of a file can be begun and served whole. */
  lemma CanBeServed(s: Sys, read: nat, org: nat, device: string, file: seq<Byte>, first: nat, last: nat)
    returns (actions: seq<Action>)
    requires Inv(s) && read !in s.bodies && first <= last < |file| && last < U64_MAX
    ensures var t := Run(s, actions);
            && read in t.bodies && t.bodies[read].phase.Ended?
            && t.bodies[read].first == first && t.bodies[read].received == file[first..last + 1]
  {
    hide Inv, Next, Run, WindowEnd;
    var id := FreshId(s.asks);
    var begin := [Begin(read, org, device, first, last, id, "")];
    BeginOpens(s, read, org, device, first, last, id);
    RunOfOne(s, begin);
    WindowBounds(first, last);
    assert file[first..first] == [];
    var rest := ServedToTheEnd(Next(s, begin[0]), read, id, file);
    actions := begin + rest;
    RunAfter(s, begin, rest);
  }
}
