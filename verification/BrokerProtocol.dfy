/**
 The hand-off between a browser's request, which waits for a device to start
 answering, and a device's answer, which arrives on another task
 (crates/tam-api/src/broker.rs). Every interleaving is a sequence of
 `Action`s; an action that is not possible leaves the system as it was.
 */
module BrokerProtocol {
  import opened Wrappers
  import opened BrokerFlow

  const FRAMES_BUFFERED: nat := 8

  /** An ask's identifier: a fresh random UUID, so never one used before. */
  type Id = nat

  // ------------------------------------------------------------ the registry of pending asks

  datatype Pending = Pending(org: nat, device: string, capability: string, expected: nat)

  predicate Ours(pending: map<Id, Pending>, id: Id, org: nat, device: string, capability: string) {
    && id in pending
    && pending[id].org == org
    && pending[id].device == device
    && pending[id].capability == capability
  }

  class Registry {
    var pending: map<Id, Pending>

    constructor ()
      ensures pending == map[]
    {
      pending := map[];
    }

    method Insert(id: Id, ask: Pending)
      modifies this
      ensures pending == old(pending)[id := ask]
    {
      pending := pending[id := ask];
    }

    /** The waiting side taking its own entry back. */
    method Take(id: Id) returns (taken: Option<Pending>)
      modifies this
      ensures pending == old(pending) - {id}
      ensures taken == if id in old(pending) then Some(old(pending)[id]) else None
    {
      taken := None;
      if id in pending {
        taken := Some(pending[id]);
        pending := pending - {id};
      }
    }

    /** An answer taking the entry, which only its own organisation, device and capability may. */
    method TakeOurs(id: Id, org: nat, device: string, capability: string) returns (taken: Option<Pending>)
      modifies this
      ensures Ours(old(pending), id, org, device, capability) ==>
                taken == Some(old(pending)[id]) && pending == old(pending) - {id}
      ensures !Ours(old(pending), id, org, device, capability) ==> taken == None && pending == old(pending)
    {
      if id in pending {
        var held := pending[id];
        if held.org == org && held.device == device && held.capability == capability {
          pending := pending - {id};
          return Some(held);
        }
      }
      taken := None;
    }
  }

  // ------------------------------------------------------------ one ask

  datatype Start = StartServing | StartRefused

  /** The one-shot start signal between the two sides. */
  datatype Signal = Unsent | Sent(start: Start) | Dropped

  /** The answering side; the sender of frames lives until it is `Finished`. */
  datatype Party = Unclaimed | Claimed | Piping(sent: nat) | Finished(status: Option<Status>)

  datatype Failure = NoAnswer | Declined | RowFault

  /** The waiting side; the receiver of frames lives until it is `Failed` or `Closed`. */
  datatype Wait = Writing | Waiting | Expired | Awaiting | Streaming | Closed | Failed(failure: Failure)

  datatype Ask = Ask(
    read: nat, org: nat, device: string, capability: string, window: Window,
    wait: Wait, signal: Signal, party: Party,
    queue: seq<Frame>, piped: seq<Frame>, drawn: seq<Frame>)
  {
    predicate Opening() { wait.Writing? || wait.Waiting? || wait.Expired? || wait.Awaiting? }
    predicate Listening() { Opening() || wait.Streaming? }
    predicate Held() { party.Unclaimed? && (wait.Writing? || wait.Waiting? || wait.Expired?) }
    function Entry(): Pending
      requires window.first <= window.last
    { Pending(org, device, capability, window.Length()) }

    /** What both sides know of an ask, whatever has happened. */
    ghost predicate Ok() {
      && window.first <= window.last < U64_MAX
      && window.Length() <= WINDOW_BYTES
      && piped == drawn + queue
      && |queue| <= FRAMES_BUFFERED
      && (party.Unclaimed? || party.Claimed? ==> signal.Unsent?)
      && (party.Piping? ==>
            && signal == Sent(StartServing)
            && Unbroken(piped)
            && party.sent == |Payload(piped)|)
      && (party.Finished? ==> !signal.Unsent?)
      && (party == Finished(Some(NoContent)) && signal == Sent(StartServing) ==>
            Unbroken(piped) && |Payload(piped)| == window.Length())
      && |Payload(piped)| <= window.Length()
      && (piped != [] ==> signal == Sent(StartServing))
      && (drawn != [] ==> wait.Streaming? || wait.Closed?)
      && (wait.Streaming? || wait.Closed? ==> signal == Sent(StartServing))
      && (wait.Awaiting? ==> !party.Unclaimed?)
      && (wait == Failed(NoAnswer) ==> !signal.Sent? && (party.Unclaimed? || party.Finished?))
      && (wait == Failed(Declined) ==> signal == Sent(StartRefused))
    }
  }

  /** What the answering side does next with an ask it has taken. */
  datatype Move = Malformed | Refuse | Serve | Vanish | Arrive(upload: Upload) | EndOfUpload

  /** Frames leave only when there is room for them or nobody is left to take them. */
  function Emit(a: Ask, frame: Option<Frame>, party: Party, gone: Party): Ask {
    if !a.Listening() then a.(party := gone)
    else if frame.None? then a.(party := party)
    else if |a.queue| < FRAMES_BUFFERED then
      a.(party := party, queue := a.queue + [frame.value], piped := a.piped + [frame.value])
    else a
  }

  function DeviceMove(a: Ask, move: Move): Ask
    requires a.window.first <= a.window.last
  {
    var expected := a.window.Length();
    match (move, a.party)
    case (Malformed, Claimed) => a.(party := Finished(Some(Unprocessable)), signal := Dropped)
    case (Refuse, Claimed) =>
      a.(party := Finished(Some(NoContent)), signal := if a.Opening() then Sent(StartRefused) else Dropped)
    case (Serve, Claimed) =>
      if a.Opening() then a.(party := Piping(0), signal := Sent(StartServing))
      else a.(party := Finished(Some(Gone)), signal := Dropped)
    case (Vanish, Claimed) => a.(party := Finished(None), signal := Dropped)
    case (Vanish, Piping(_)) => a.(party := Finished(None))
    case (Arrive(upload), Piping(sent)) =>
      (match OnUpload(expected, sent, upload)
       case Stop(parting, status) => Emit(a, parting, Finished(Some(status)), Finished(Some(status)))
       case Pass(now, frame) => Emit(a, Some(frame), Piping(now), Finished(Some(Gone))))
    case (EndOfUpload, Piping(sent)) =>
      var end := OnEnd(expected, sent);
      Emit(a, end.parting, Finished(Some(end.status)), Finished(Some(end.status)))
    case _ => a
  }

  /** What an answering side that has started may say of the frames it piped. */
  ghost predicate Fits(w: Window, party: Party, piped: seq<Frame>) {
    && |Payload(piped)| <= w.Length()
    && ((party.Piping? && Unbroken(piped) && party.sent == |Payload(piped)|)
        || party.Finished?)
    && (party == Finished(Some(NoContent)) ==> Unbroken(piped) && |Payload(piped)| == w.Length())
  }

  lemma EmitOk(a: Ask, frame: Option<Frame>, party: Party, gone: Party)
    requires a.Ok() && a.party.Piping?
    requires Fits(a.window, party, a.piped + Tail(frame)) && Fits(a.window, gone, a.piped)
    ensures Emit(a, frame, party, gone).Ok()
  {
    var b := Emit(a, frame, party, gone);
    assert b.piped == b.drawn + b.queue;
    assert a.piped + [] == a.piped;
  }

  lemma PassFits(a: Ask, data: seq<Byte>)
    requires a.Ok() && a.party.Piping?
    requires |Payload(a.piped)| + |data| <= a.window.Length()
    ensures Fits(a.window, Piping(a.party.sent + |data|), a.piped + [Bytes(data)])
  {
    PayloadAppend(a.piped, [Bytes(data)]);
    assert Payload([Bytes(data)]) == data + Payload([]);
  }

  lemma BrokenFits(a: Ask, why: Fault)
    requires a.Ok() && a.party.Piping?
    ensures Fits(a.window, Finished(Some(Unprocessable)), a.piped + [Broken(why)])
  {
    PayloadAppend(a.piped, [Broken(why)]);
    assert Payload([Broken(why)]) == [];
  }

  /** A move of the device keeps what both sides know of the ask. */
  lemma DeviceMoveOk(a: Ask, move: Move)
    requires a.Ok()
    ensures DeviceMove(a, move).Ok()
  {
    if a.party.Piping? {
      var expected := a.window.Length();
      assert a.piped + [] == a.piped;
      match move
      case Arrive(upload) =>
        match OnUpload(expected, a.party.sent, upload) {
          case Stop(parting, status) =>
            BrokenFits(a, parting.value.why);
            EmitOk(a, parting, Finished(Some(status)), Finished(Some(status)));
          case Pass(now, frame) =>
            PassFits(a, frame.data);
            EmitOk(a, Some(frame), Piping(now), Finished(Some(Gone)));
        }
      case EndOfUpload =>
        var end := OnEnd(expected, a.party.sent);
        if end.parting.Some? { BrokenFits(a, end.parting.value.why); }
        EmitOk(a, end.parting, Finished(Some(end.status)), Finished(Some(end.status)));
      case _ =>
    }
  }

  /**
   A move of the device touches only its own side, and adds at most one frame
   to what was piped: the bytes that arrived, or the failure that ends them.
   */
  lemma DeviceMoveFrame(a: Ask, move: Move)
    requires a.window.first <= a.window.last
    ensures var b := DeviceMove(a, move);
            && b == a.(signal := b.signal, party := b.party, queue := b.queue, piped := b.piped)
            && (a.party.Unclaimed? <==> b.party.Unclaimed?)
            && (b.piped == a.piped
                || exists f :: && b.piped == a.piped + [f]
                               && a.party.Piping?
                               && (f.Bytes? ==> move == Arrive(Chunk(f.data))))
  {
    var b := DeviceMove(a, move);
    if b.piped != a.piped {
      var f := b.piped[|a.piped|];
      assert b.piped == a.piped + [f];
    }
  }

  // ------------------------------------------------------------ the whole system

  datatype Phase = Asking(id: Id) | Draining(id: Id) | Ended | Broke | Declining(failure: Failure) | Left

  datatype Read = Read(
    org: nat, device: string, first: nat, last: nat,
    phase: Phase, owed: nat, next: nat, received: seq<Byte>, asked: seq<Id>)

  datatype Sys = Sys(pending: map<Id, Pending>, asks: map<Id, Ask>, bodies: map<nat, Read>)

  const START: Sys := Sys(map[], map[], map[])

  datatype Action =
    | Begin(read: nat, org: nat, device: string, first: nat, last: nat, id: Id, capability: string)
    | RowWritten(id: Id)
    | RowFailed(id: Id)
    | TimerFires(id: Id)
    | TakeBack(id: Id)
    | SeeStart(id: Id)
    | Claim(id: Id, org: nat, device: string, capability: string)
    | Device(id: Id, move: Move)
    | Receive(read: nat)
    | Quiet(read: nat)
    | EndOfWindow(read: nat)
    | NextWindow(read: nat, id: Id, capability: string)
    | NextUnopened(read: nat)
    | Leave(read: nat)

  function NewAsk(read: nat, r: Read, w: Window, capability: string): Ask {
    Ask(read, r.org, r.device, capability, w, Writing, Unsent, Unclaimed, [], [], [])
  }

  /** Registers an ask for the window starting at `r.next`. */
  function OpenAsk(s: Sys, read: nat, r: Read, id: Id, capability: string): Sys
    requires r.next <= r.last < U64_MAX
  {
    var w := Window(r.next, WindowEnd(r.next, r.last));
    var a := NewAsk(read, r, w, capability);
    Sys(s.pending[id := a.Entry()],
        s.asks[id := a],
        s.bodies[read := r.(phase := Asking(id), asked := r.asked + [id])])
  }

  /** The read whose first window failed is refused; a later window's failure breaks the body. */
  function GiveUp(r: Read, failure: Failure): Read {
    r.(phase := if |r.asked| <= 1 then Declining(failure) else Broke)
  }

  function FailAsk(s: Sys, id: Id, failure: Failure): Sys
    requires id in s.asks && s.asks[id].read in s.bodies
  {
    var a := s.asks[id];
    Sys(s.pending - {id},
        s.asks[id := a.(wait := Failed(failure))],
        s.bodies[a.read := GiveUp(s.bodies[a.read], failure)])
  }

  function SetWait(s: Sys, id: Id, wait: Wait): Sys
    requires id in s.asks
  {
    s.(asks := s.asks[id := s.asks[id].(wait := wait)])
  }

  /** The browser's body over in `phase`, its receiver dropped. */
  function Finish(s: Sys, read: nat, id: Id, phase: Phase): Sys
    requires read in s.bodies && id in s.asks
  {
    SetWait(s, id, Closed).(bodies := s.bodies[read := s.bodies[read].(phase := phase)])
  }

  predicate Sane(s: Sys) {
    && (forall id <- s.asks ::
          && s.asks[id].read in s.bodies
          && s.asks[id].window.first <= s.asks[id].window.last)
    && (forall r <- s.bodies ::
          && s.bodies[r].last < U64_MAX
          && (s.bodies[r].phase.Draining? ==> s.bodies[r].phase.id in s.asks))
  }

  predicate Emptied(s: Sys, read: nat)
    requires Sane(s)
  {
    && read in s.bodies && s.bodies[read].phase.Draining?
    && s.asks[s.bodies[read].phase.id].queue == []
    && s.asks[s.bodies[read].phase.id].party.Finished?
  }

  function Step(s: Sys, action: Action): Sys
    requires Sane(s)
  {
    match action
    case Begin(read, org, device, first, last, id, capability) =>
      if read in s.bodies || id in s.asks || !(first <= last < U64_MAX) then s
      else OpenAsk(s, read, Read(org, device, first, last, Left, 0, first, [], []), id, capability)
    case RowWritten(id) =>
      if id in s.asks && s.asks[id].wait.Writing? then SetWait(s, id, Waiting) else s
    case RowFailed(id) =>
      if id in s.asks && s.asks[id].wait.Writing? then FailAsk(s, id, RowFault) else s
    case TimerFires(id) =>
      if id in s.asks && s.asks[id].wait.Waiting? && s.asks[id].signal.Unsent? then SetWait(s, id, Expired) else s
    case TakeBack(id) =>
      if !(id in s.asks && s.asks[id].wait.Expired?) then s
      else if id in s.pending then FailAsk(s, id, NoAnswer)
      else SetWait(s, id, Awaiting)
    case SeeStart(id) =>
      if !(id in s.asks && (s.asks[id].wait.Waiting? || s.asks[id].wait.Awaiting?)) then s
      else
        var a := s.asks[id];
        (match a.signal
         case Unsent => s
         case Dropped => FailAsk(s, id, NoAnswer)
         case Sent(StartRefused) => FailAsk(s, id, Declined)
         case Sent(StartServing) =>
           SetWait(s, id, Streaming).(bodies := s.bodies[a.read := s.bodies[a.read].(
             phase := Draining(id), owed := a.window.Length(), next := After(a.window.last))]))
    case Claim(id, org, device, capability) =>
      if id in s.asks && Ours(s.pending, id, org, device, capability) then
        s.(pending := s.pending - {id}, asks := s.asks[id := s.asks[id].(party := Claimed)])
      else s
    case Device(id, move) =>
      if id in s.asks then s.(asks := s.asks[id := DeviceMove(s.asks[id], move)]) else s
    case Receive(read) =>
      if !(read in s.bodies && s.bodies[read].phase.Draining?) then s
      else
        var r := s.bodies[read];
        var id := r.phase.id;
        var a := s.asks[id];
        if a.queue == [] then s
        else
          var frame := a.queue[0];
          var taken := s.(asks := s.asks[id := a.(queue := a.queue[1..], drawn := a.drawn + [frame])]);
          (match frame
           case Broken(_) => Finish(taken, read, id, Broke)
           case Bytes(data) =>
             taken.(bodies := s.bodies[read := r.(
               owed := if r.owed > |data| then r.owed - |data| else 0, received := r.received + data)]))
    case Quiet(read) =>
      if && read in s.bodies && s.bodies[read].phase.Draining?
         && s.asks[s.bodies[read].phase.id].queue == [] && !s.asks[s.bodies[read].phase.id].party.Finished?
      then Finish(s, read, s.bodies[read].phase.id, Broke) else s
    case EndOfWindow(read) =>
      if !Emptied(s, read) then s
      else if s.bodies[read].owed > 0 then Finish(s, read, s.bodies[read].phase.id, Broke)
      else if s.bodies[read].next > s.bodies[read].last then Finish(s, read, s.bodies[read].phase.id, Ended)
      else s
    case NextWindow(read, id, capability) =>
      if !Emptied(s, read) || s.bodies[read].owed > 0 || s.bodies[read].next > s.bodies[read].last || id in s.asks
      then s
      else OpenAsk(SetWait(s, s.bodies[read].phase.id, Closed), read, s.bodies[read], id, capability)
    case NextUnopened(read) =>
      if !Emptied(s, read) || s.bodies[read].owed > 0 || s.bodies[read].next > s.bodies[read].last then s
      else Finish(s, read, s.bodies[read].phase.id, Broke)
    case Leave(read) =>
      if read in s.bodies && s.bodies[read].phase.Draining? then Finish(s, read, s.bodies[read].phase.id, Left) else s
  }

  // ------------------------------------------------------------ what every step keeps

  /** The bytes of a read's windows, in the order they were opened. */
  ghost function Gathered(asks: map<Id, Ask>, asked: seq<Id>): seq<Byte>
    requires forall id <- asked :: id in asks
  {
    if asked == [] then []
    else Gathered(asks, asked[..|asked| - 1]) + Payload(asks[asked[|asked| - 1]].drawn)
  }

  ghost predicate Tiled(asks: map<Id, Ask>, r: Read) {
    && r.asked != []
    && (forall id <- r.asked :: id in asks)
    && (forall i, j | 0 <= i < j < |r.asked| :: r.asked[i] != r.asked[j])
    && asks[r.asked[0]].window.first == r.first
    && (forall i | 0 <= i < |r.asked| - 1 ::
          asks[r.asked[i + 1]].window.first == asks[r.asked[i]].window.last + 1)
  }

  ghost predicate ReadOk(asks: map<Id, Ask>, read: nat, r: Read) {
    && r.first <= r.last < U64_MAX
    && Tiled(asks, r)
    && (forall id <- r.asked :: asks[id].read == read && asks[id].org == r.org && asks[id].device == r.device)
    && var id := r.asked[|r.asked| - 1];
    && var a := asks[id];
    && a.window.last <= r.last
    && r.received == Gathered(asks, r.asked)
    && |r.received| == a.window.first - r.first + |Payload(a.drawn)|
    && (r.phase.Asking? ==> r.phase.id == id && a.Opening())
    && (r.phase.Draining? ==>
          && r.phase.id == id && a.wait.Streaming?
          && r.owed == a.window.Length() - |Payload(a.drawn)|
          && r.next == After(a.window.last))
    && (r.phase.Ended? ==> a.window.last == r.last && |Payload(a.drawn)| == a.window.Length())
  }

  ghost predicate AskLinked(s: Sys, id: Id)
    requires id in s.asks
  {
    var a := s.asks[id];
    && a.Ok()
    && (id in s.pending <==> a.Held())
    && (id in s.pending ==> s.pending[id] == a.Entry())
    && a.read in s.bodies
    && (a.Opening() ==> s.bodies[a.read].phase == Asking(id))
    && (a.wait.Streaming? ==> s.bodies[a.read].phase == Draining(id))
  }

  ghost predicate Inv(s: Sys) {
    && s.pending.Keys <= s.asks.Keys
    && (forall id <- s.asks :: AskLinked(s, id))
    && (forall read <- s.bodies :: ReadOk(s.asks, read, s.bodies[read]))
  }

  lemma InvIsSane(s: Sys)
    requires Inv(s)
    ensures Sane(s)
  {
    forall id <- s.asks
      ensures s.asks[id].read in s.bodies && s.asks[id].window.first <= s.asks[id].window.last
    {
      assert AskLinked(s, id);
    }
    forall r <- s.bodies
      ensures s.bodies[r].last < U64_MAX && (s.bodies[r].phase.Draining? ==> s.bodies[r].phase.id in s.asks)
    {
      assert ReadOk(s.asks, r, s.bodies[r]);
    }
  }

  /** What a read gathered depends on nothing but what was drawn from its own asks. */
  lemma {:induction false} GatheredFrame(asks: map<Id, Ask>, asks': map<Id, Ask>, asked: seq<Id>)
    requires forall id <- asked :: id in asks && id in asks' && asks[id].drawn == asks'[id].drawn
    ensures Gathered(asks, asked) == Gathered(asks', asked)
  {
    if asked != [] {
      var front := asked[..|asked| - 1];
      forall id <- front ensures id in asks && id in asks' && asks[id].drawn == asks'[id].drawn {
        assert id in asked;
      }
      GatheredFrame(asks, asks', front);
      assert asked[|asked| - 1] in asked;
    }
  }

  /** What an ask was for: the part of it a read relies on. */
  ghost predicate SamePurpose(a: Ask, b: Ask) {
    && a.read == b.read && a.org == b.org && a.device == b.device && a.capability == b.capability
    && a.window == b.window && a.drawn == b.drawn
  }

  /** No ask a read opened has lost its purpose, nor the wait the read relies on. */
  ghost predicate Undisturbed(asks: map<Id, Ask>, asks': map<Id, Ask>, r: Read) {
    forall id <- r.asked | id in asks ::
      && id in asks' && SamePurpose(asks[id], asks'[id])
      && (r.phase.Asking? && asks[id].Opening() ==> asks'[id].Opening())
      && (r.phase.Draining? && asks[id].wait.Streaming? ==> asks'[id].wait.Streaming?)
  }

  lemma ReadFrame(asks: map<Id, Ask>, asks': map<Id, Ask>, read: nat, r: Read)
    requires ReadOk(asks, read, r) && Undisturbed(asks, asks', r)
    ensures ReadOk(asks', read, r)
  {
    GatheredFrame(asks, asks', r.asked);
    assert forall i | 0 <= i < |r.asked| :: r.asked[i] in r.asked;
  }

  // ------------------------------------------------------------ each kind of step keeps it

  /** An ask changed on one side only, still waiting or still streaming as it was. */
  lemma AskStepKeeps(s: Sys, id: Id, b: Ask, pending: map<Id, Pending>)
    requires Inv(s) && id in s.asks
    requires var a := s.asks[id];
             && b.Ok() && SamePurpose(a, b)
             && (a.Opening() <==> b.Opening()) && (a.wait.Streaming? <==> b.wait.Streaming?)
    requires pending == if b.Held() then s.pending else s.pending - {id}
    requires b.Held() ==> s.asks[id].Held()
    ensures Inv(Sys(pending, s.asks[id := b], s.bodies))
  {
    hide ReadOk, Ask.Ok;
    var t := Sys(pending, s.asks[id := b], s.bodies);
    forall i <- t.asks ensures AskLinked(t, i) {
      assert AskLinked(s, i);
    }
    forall read <- t.bodies ensures ReadOk(t.asks, read, t.bodies[read]) {
      assert ReadOk(s.asks, read, s.bodies[read]);
      ReadFrame(s.asks, t.asks, read, s.bodies[read]);
    }
  }

  lemma AskedAreOwn(asks: map<Id, Ask>, read: nat, r: Read)
    requires ReadOk(asks, read, r)
    ensures forall i <- r.asked :: i in asks && asks[i].read == read
  {
  }

  lemma OthersReadOk(s: Sys, id: Id, b: Ask, read: nat)
    requires Inv(s) && id in s.asks && read in s.bodies && read != s.asks[id].read
    ensures ReadOk(s.asks[id := b], read, s.bodies[read])
  {
    hide ReadOk, Ask.Ok, AskLinked;
    assert ReadOk(s.asks, read, s.bodies[read]);
    AskedAreOwn(s.asks, read, s.bodies[read]);
    ReadFrame(s.asks, s.asks[id := b], read, s.bodies[read]);
  }

  /** Whether `read` is at work on `id`. */
  ghost predicate Current(s: Sys, read: nat, id: Id) {
    && read in s.bodies && id in s.asks && s.asks[id].read == read
    && (s.bodies[read].phase == Asking(id) || s.bodies[read].phase == Draining(id))
  }

  /** An ask and its own read changed together; every other ask and read is as it was. */
  lemma PairStepKeeps(s: Sys, read: nat, id: Id, b: Ask, r: Read, pending: map<Id, Pending>)
    requires Inv(s) && Current(s, read, id)
    requires b.Ok() && b.read == read && !b.Held()
    requires b.Opening() ==> r.phase == Asking(id)
    requires b.wait.Streaming? ==> r.phase == Draining(id)
    requires ReadOk(s.asks[id := b], read, r)
    requires pending == s.pending - {id}
    ensures Inv(Sys(pending, s.asks[id := b], s.bodies[read := r]))
  {
    hide ReadOk, Ask.Ok;
    var t := Sys(pending, s.asks[id := b], s.bodies[read := r]);
    forall i <- t.asks ensures AskLinked(t, i) {
      assert AskLinked(s, i);
    }
    hide AskLinked;
    forall other <- t.bodies ensures ReadOk(t.asks, other, t.bodies[other]) {
      if other != read { OthersReadOk(s, id, b, other); }
    }
  }

  /** What the invariant says of an ask some read is at work on. */
  lemma CurrentAsk(s: Sys, id: Id)
    requires Inv(s) && id in s.asks
    requires s.asks[id].Opening() || s.asks[id].wait.Streaming?
    ensures s.asks[id].Ok() && (id in s.pending <==> s.asks[id].Held())
    ensures Current(s, s.asks[id].read, id) && ReadOk(s.asks, s.asks[id].read, s.bodies[s.asks[id].read])
    ensures s.asks[id].Opening() <==> s.bodies[s.asks[id].read].phase == Asking(id)
    ensures s.asks[id].window.first <= s.asks[id].window.last
    ensures s.asks[id].Opening() ==> s.asks[id].drawn == []
  {
    hide ReadOk;
    assert AskLinked(s, id);
  }

  lemma DrainingId(asks: map<Id, Ask>, read: nat, r: Read)
    requires ReadOk(asks, read, r) && r.phase.Draining?
    ensures r.phase.id in asks && asks[r.phase.id].read == read && asks[r.phase.id].wait.Streaming?
  {
    assert r.asked[|r.asked| - 1] in r.asked;
  }

  /** The ask a read is drawing from. */
  lemma DrainingAsk(s: Sys, read: nat)
    requires Inv(s) && read in s.bodies && s.bodies[read].phase.Draining?
    ensures var id := s.bodies[read].phase.id;
            && Current(s, read, id) && s.asks[id].wait.Streaming? && s.asks[id].Ok()
            && s.asks[id].window.first <= s.asks[id].window.last
            && id !in s.pending && ReadOk(s.asks, read, s.bodies[read])
  {
    hide ReadOk;
    var r := s.bodies[read];
    DrainingId(s.asks, read, r);
    assert AskLinked(s, r.phase.id);
  }

  lemma StreamingOk(a: Ask)
    requires a.Ok() && a.Opening() && a.signal == Sent(StartServing)
    ensures a.(wait := Streaming).Ok() && !a.Held()
  {
  }

  lemma ClosedOk(a: Ask)
    requires a.Ok() && a.wait.Streaming?
    ensures a.(wait := Closed).Ok()
  {
  }

  lemma DrawnOk(a: Ask)
    requires a.Ok() && a.wait.Streaming? && a.queue != []
    ensures var b := a.(queue := a.queue[1..], drawn := a.drawn + [a.queue[0]]);
            b.Ok() && !b.Held() && |Payload(b.drawn)| <= b.window.Length()
  {
    var b := a.(queue := a.queue[1..], drawn := a.drawn + [a.queue[0]]);
    PayloadAppend(b.drawn, b.queue);
    assert b.piped == b.drawn + b.queue;
  }

  lemma PhaseReadOk(asks: map<Id, Ask>, read: nat, r: Read, phase: Phase)
    requires ReadOk(asks, read, r)
    requires phase.Declining? || phase.Broke? || phase.Left?
    ensures ReadOk(asks, read, r.(phase := phase))
  {
  }

  /** A read whose current ask only changed its wait, in a phase that asks nothing of that wait. */
  lemma RewaitReadOk(asks: map<Id, Ask>, id: Id, wait: Wait, read: nat, r: Read, phase: Phase)
    requires id in asks && ReadOk(asks, read, r)
    requires phase.Declining? || phase.Broke? || phase.Left?
    ensures ReadOk(asks[id := asks[id].(wait := wait)], read, r.(phase := phase))
  {
    hide ReadOk;
    PhaseReadOk(asks, read, r, phase);
    ReadFrame(asks, asks[id := asks[id].(wait := wait)], read, r.(phase := phase));
  }

  lemma FailKeeps(s: Sys, id: Id, failure: Failure)
    requires Inv(s) && id in s.asks && s.asks[id].Opening()
    requires s.asks[id].(wait := Failed(failure)).Ok()
    ensures s.asks[id].read in s.bodies && Inv(FailAsk(s, id, failure))
  {
    hide ReadOk, Ask.Ok, AskLinked, Inv;
    CurrentAsk(s, id);
    var a := s.asks[id];
    var r := s.bodies[a.read];
    RewaitReadOk(s.asks, id, Failed(failure), a.read, r, GiveUp(r, failure).phase);
    PairStepKeeps(s, a.read, id, a.(wait := Failed(failure)), GiveUp(r, failure), s.pending - {id});
  }

  lemma StreamingReadOk(asks: map<Id, Ask>, id: Id, read: nat, r: Read)
    requires ReadOk(asks, read, r) && r.phase == Asking(id) && id in asks
    requires asks[id].drawn == [] && asks[id].window.first <= asks[id].window.last
    ensures var w := asks[id].window;
            ReadOk(asks[id := asks[id].(wait := Streaming)], read,
                   r.(phase := Draining(id), owed := w.Length(), next := After(w.last)))
  {
    RewaitReadOk(asks, id, Streaming, read, r, Left);
    assert ReadOk(asks[id := asks[id].(wait := Streaming)], read, r.(phase := Left));
  }

  /** The step, known to be taken from a good state. */
  ghost function Step'(s: Sys, action: Action): Sys
    requires Inv(s)
  {
    InvIsSane(s);
    Step(s, action)
  }

  lemma ServeKeeps(s: Sys, id: Id)
    requires Inv(s) && id in s.asks
    requires s.asks[id].wait.Waiting? || s.asks[id].wait.Awaiting?
    requires s.asks[id].signal == Sent(StartServing)
    ensures Inv(Step'(s, SeeStart(id)))
  {
    hide ReadOk, Ask.Ok, AskLinked, Inv;
    CurrentAsk(s, id);
    InvIsSane(s);
    var a := s.asks[id];
    var b := a.(wait := Streaming);
    StreamingOk(a);
    var r := s.bodies[a.read];
    assert s.pending - {id} == s.pending;
    StreamingReadOk(s.asks, id, a.read, r);
    PairStepKeeps(s, a.read, id, b, r.(phase := Draining(id), owed := a.window.Length(), next := After(a.window.last)),
                  s.pending - {id});
  }

  lemma FinishReadOk(asks: map<Id, Ask>, read: nat, r: Read, phase: Phase)
    requires ReadOk(asks, read, r) && r.phase.Draining? && r.phase.id in asks
    requires asks[r.phase.id].window.first <= asks[r.phase.id].window.last
    requires phase.Broke? || phase.Left? || phase.Ended?
    requires phase.Ended? ==> r.owed == 0 && r.next > r.last
    ensures ReadOk(asks[r.phase.id := asks[r.phase.id].(wait := Closed)], read, r.(phase := phase))
  {
    RewaitReadOk(asks, r.phase.id, Closed, read, r, Left);
    assert ReadOk(asks[r.phase.id := asks[r.phase.id].(wait := Closed)], read, r.(phase := Left));
  }

  lemma FinishKeeps(s: Sys, read: nat, phase: Phase)
    requires Inv(s) && read in s.bodies && s.bodies[read].phase.Draining?
    requires phase.Broke? || phase.Left? || phase.Ended?
    requires phase.Ended? ==> s.bodies[read].owed == 0 && s.bodies[read].next > s.bodies[read].last
    ensures s.bodies[read].phase.id in s.asks && Inv(Finish(s, read, s.bodies[read].phase.id, phase))
  {
    hide ReadOk, Ask.Ok, AskLinked, Inv;
    DrainingAsk(s, read);
    var r := s.bodies[read];
    var id := r.phase.id;
    var b := s.asks[id].(wait := Closed);
    ClosedOk(s.asks[id]);
    FinishReadOk(s.asks, read, r, phase);
    assert s.pending - {id} == s.pending;
    PairStepKeeps(s, read, id, b, r.(phase := phase), s.pending - {id});
  }

  /** A frame drawn from the current ask is the next of what its read has gathered. */
  lemma GatherMore(asks: map<Id, Ask>, asked: seq<Id>, b: Ask, frame: Frame)
    requires asked != [] && forall id <- asked :: id in asks
    requires forall i, j | 0 <= i < j < |asked| :: asked[i] != asked[j]
    requires b.drawn == asks[asked[|asked| - 1]].drawn + [frame]
    ensures var data := if frame.Bytes? then frame.data else [];
            var a := asks[asked[|asked| - 1]];
            && Payload(b.drawn) == Payload(a.drawn) + data
            && Gathered(asks[asked[|asked| - 1] := b], asked) == Gathered(asks, asked) + data
  {
    var id := asked[|asked| - 1];
    var front := asked[..|asked| - 1];
    var data := if frame.Bytes? then frame.data else [];
    PayloadAppend(asks[id].drawn, [frame]);
    assert Payload([frame]) == data + Payload([]);
    GatheredFrame(asks, asks[id := b], front);
    var g := Gathered(asks, front);
    assert g + (Payload(asks[id].drawn) + data) == (g + Payload(asks[id].drawn)) + data;
  }

  lemma TiledParts(asks: map<Id, Ask>, r: Read)
    requires Tiled(asks, r)
    ensures r.asked != [] && forall id <- r.asked :: id in asks
    ensures forall i, j | 0 <= i < j < |r.asked| :: r.asked[i] != r.asked[j]
    ensures r.asked[|r.asked| - 1] in r.asked
  {
  }

  lemma TiledSame(asks: map<Id, Ask>, r: Read, b: Ask, r': Read)
    requires Tiled(asks, r) && r'.asked == r.asked && r'.first == r.first
    requires b.window == asks[r.asked[|r.asked| - 1]].window
    ensures Tiled(asks[r.asked[|r.asked| - 1] := b], r')
  {
  }

  lemma DrawnReadOk(asks: map<Id, Ask>, read: nat, r: Read, frame: Frame, b: Ask)
    requires ReadOk(asks, read, r) && r.phase.Draining? && r.phase.id in asks
    requires var a := asks[r.phase.id]; b == a.(queue := b.queue, drawn := a.drawn + [frame])
    requires |Payload(b.drawn)| <= b.window.Length()
    ensures var data := if frame.Bytes? then frame.data else [];
            var r' := r.(owed := if r.owed > |data| then r.owed - |data| else 0, received := r.received + data);
            ReadOk(asks[r.phase.id := b], read, r')
  {
    hide Tiled, Gathered;
    TiledParts(asks, r);
    GatherMore(asks, r.asked, b, frame);
    var data := if frame.Bytes? then frame.data else [];
    TiledSame(asks, r, b, r.(owed := if r.owed > |data| then r.owed - |data| else 0, received := r.received + data));
  }

  lemma ReceiveKeeps(s: Sys, read: nat)
    requires Inv(s) && read in s.bodies && s.bodies[read].phase.Draining?
    requires s.bodies[read].phase.id in s.asks && s.asks[s.bodies[read].phase.id].queue != []
    ensures Inv(Step'(s, Receive(read)))
  {
    hide Ask.Ok, AskLinked, ReadOk, Inv;
    InvIsSane(s);
    DrainingAsk(s, read);
    var r := s.bodies[read];
    var id := r.phase.id;
    var a := s.asks[id];
    var frame := a.queue[0];
    var b := a.(queue := a.queue[1..], drawn := a.drawn + [frame]);
    DrawnOk(a);
    DrawnReadOk(s.asks, read, r, frame, b);
    var data := if frame.Bytes? then frame.data else [];
    assert s.pending - {id} == s.pending;
    var r' := r.(owed := if r.owed > |data| then r.owed - |data| else 0, received := r.received + data);
    PairStepKeeps(s, read, id, b, r', s.pending - {id});
    if frame.Broken? {
      assert r' == r by { assert r.received + [] == r.received; }
      var t := Sys(s.pending, s.asks[id := b], s.bodies[read := r']);
      assert t.bodies == s.bodies;
      FinishKeeps(t, read, Broke);
    }
  }

  lemma OpenedFrame(asks: map<Id, Ask>, id: Id, a: Ask, read: nat, r: Read)
    requires ReadOk(asks, read, r) && id !in asks
    ensures ReadOk(asks[id := a], read, r)
  {
    hide ReadOk;
    AskedAreOwn(asks, read, r);
    ReadFrame(asks, asks[id := a], read, r);
  }

  /** A new ask beside a read whose last window is done with, or that has asked for none yet. */
  lemma OpenKeeps(s: Sys, t: Sys, read: nat, id: Id, a: Ask)
    requires Inv(s) && id !in s.asks
    requires a.window.first <= a.window.last
    requires t.asks == s.asks[id := a] && t.pending == s.pending[id := a.Entry()]
    requires read in t.bodies && (t.bodies == s.bodies[read := t.bodies[read]])
    requires a.Ok() && a.Held() && a.read == read
    requires t.bodies[read].phase == Asking(id) && ReadOk(t.asks, read, t.bodies[read])
    requires read in s.bodies ==> s.bodies[read].phase.Left?
    ensures Inv(t)
  {
    hide ReadOk, Ask.Ok;
    forall i <- t.asks ensures AskLinked(t, i) {
      if i != id { assert AskLinked(s, i); }
    }
    hide AskLinked;
    forall other <- t.bodies ensures ReadOk(t.asks, other, t.bodies[other]) {
      if other != read {
        OpenedFrame(s.asks, id, a, other, s.bodies[other]);
      }
    }
  }

  lemma FirstReadOk(read: nat, r: Read, id: Id, a: Ask, asks: map<Id, Ask>)
    requires r.asked == [id] && r.phase == Asking(id) && r.received == [] && r.first <= r.last < U64_MAX
    requires a.read == read && a.org == r.org && a.device == r.device
    requires a.window == Window(r.first, WindowEnd(r.first, r.last)) && a.Opening() && a.drawn == []
    requires id in asks && asks[id] == a
    ensures ReadOk(asks, read, r)
  {
    assert r.asked[..0] == [];
    assert Gathered(asks, []) == [];
    assert Gathered(asks, r.asked) == Gathered(asks, r.asked[..0]) + Payload(a.drawn);
  }

  lemma NewAskOk(read: nat, r: Read, w: Window, capability: string)
    requires w.first <= w.last < U64_MAX && w.Length() <= WINDOW_BYTES
    ensures NewAsk(read, r, w, capability).Ok() && NewAsk(read, r, w, capability).Held()
  {
  }

  lemma BeginKeeps(s: Sys, read: nat, org: nat, device: string, first: nat, last: nat, id: Id, capability: string)
    requires Inv(s) && read !in s.bodies && id !in s.asks && first <= last < U64_MAX
    ensures Inv(Step'(s, Begin(read, org, device, first, last, id, capability)))
  {
    hide Ask.Ok, AskLinked, ReadOk, Inv;
    InvIsSane(s);
    var t := Step'(s, Begin(read, org, device, first, last, id, capability));
    var r := t.bodies[read];
    NewAskOk(read, r, Window(first, WindowEnd(first, last)), capability);
    FirstReadOk(read, r, id, t.asks[id], t.asks);
    OpenKeeps(s, t, read, id, t.asks[id]);
  }

  lemma GatheredNext(asks: map<Id, Ask>, asked: seq<Id>, id: Id, a: Ask)
    requires (forall i <- asked :: i in asks) && id !in asks && a.drawn == []
    ensures Gathered(asks[id := a], asked + [id]) == Gathered(asks, asked)
  {
    assert (asked + [id])[..|asked|] == asked;
    GatheredFrame(asks, asks[id := a], asked);
    assert forall i <- asked + [id] :: i in asks[id := a];
    assert Payload(a.drawn) == [];
  }

  lemma TiledNext(asks: map<Id, Ask>, r: Read, id: Id, a: Ask)
    requires Tiled(asks, r) && id !in asks
    requires a.window.first == asks[r.asked[|r.asked| - 1]].window.last + 1
    ensures Tiled(asks[id := a], r.(phase := Asking(id), asked := r.asked + [id]))
  {
    assert forall i | 0 <= i < |r.asked| :: r.asked[i] in r.asked && r.asked[i] != id;
  }

  lemma NextReadOk(asks: map<Id, Ask>, read: nat, r: Read, id: Id, a: Ask)
    requires ReadOk(asks, read, r) && id !in asks
    requires r.asked != [] && r.asked[|r.asked| - 1] in asks
    requires var w := asks[r.asked[|r.asked| - 1]];
             && w.window.first <= w.window.last
             && |Payload(w.drawn)| == w.window.Length()
             && a.window == Window(w.window.last + 1, a.window.last)
    requires a.window.last <= r.last && a.Opening() && a.drawn == []
    requires a.read == read && a.org == r.org && a.device == r.device
    ensures ReadOk(asks[id := a], read, r.(phase := Asking(id), asked := r.asked + [id]))
  {
    hide Tiled, Gathered;
    var r' := r.(phase := Asking(id), asked := r.asked + [id]);
    TiledParts(asks, r);
    GatheredNext(asks, r.asked, id, a);
    TiledNext(asks, r, id, a);
    assert r'.asked[|r'.asked| - 1] == id;
    assert forall i <- r'.asked :: i in r.asked || i == id;
  }

  lemma PaidInFull(asks: map<Id, Ask>, read: nat, r: Read)
    requires ReadOk(asks, read, r) && r.phase.Draining? && r.owed == 0 && r.phase.id in asks
    requires asks[r.phase.id].window.first <= asks[r.phase.id].window.last
    ensures r.asked != [] && r.asked[|r.asked| - 1] == r.phase.id
    ensures |Payload(asks[r.phase.id].drawn)| == asks[r.phase.id].window.Length()
    ensures r.next == asks[r.phase.id].window.last + 1
  {
  }

  lemma NextKeeps(s: Sys, read: nat, id: Id, capability: string)
    requires Inv(s) && Sane(s) && Emptied(s, read) && id !in s.asks
    requires s.bodies[read].owed == 0 && s.bodies[read].next <= s.bodies[read].last
    ensures Inv(Step'(s, NextWindow(read, id, capability)))
  {
    hide Ask.Ok, AskLinked, ReadOk, Inv;
    var r := s.bodies[read];
    var was := r.phase.id;
    DrainingAsk(s, read);
    PaidInFull(s.asks, read, r);
    FinishKeeps(s, read, Left);
    var u := Finish(s, read, was, Left);
    FinishReadOk(s.asks, read, r, Left);
    var w := Window(r.next, WindowEnd(r.next, r.last));
    var a := NewAsk(read, r, w, capability);
    NewAskOk(read, r, w, capability);
    NextReadOk(u.asks, read, u.bodies[read], id, a);
    var t := Step'(s, NextWindow(read, id, capability));
    assert t.bodies == u.bodies[read := t.bodies[read]];
    OpenKeeps(u, t, read, id, a);
  }

  lemma LinkedAsk(s: Sys, id: Id)
    requires Inv(s) && id in s.asks
    ensures s.asks[id].Ok() && (id in s.pending <==> s.asks[id].Held())
    ensures s.asks[id].window.first <= s.asks[id].window.last
    ensures s.asks[id].Held() ==> s.asks[id].signal.Unsent?
    ensures id in s.pending ==> s.pending[id] == s.asks[id].Entry()
  {
    hide ReadOk;
    assert AskLinked(s, id);
  }

  lemma OpeningOk(a: Ask, wait: Wait)
    requires a.Ok() && a.Opening()
    requires wait.Waiting? || wait.Expired? || (wait.Awaiting? && !a.party.Unclaimed?)
    ensures a.(wait := wait).Ok()
  {
  }

  lemma FailedOk(a: Ask, failure: Failure)
    requires a.Ok() && a.Opening()
    requires failure.NoAnswer? ==> a.signal.Dropped? || a.party.Unclaimed?
    requires failure.Declined? ==> a.signal == Sent(StartRefused)
    ensures a.(wait := Failed(failure)).Ok()
  {
  }

  lemma WaitStepKeeps(s: Sys, id: Id, wait: Wait)
    requires Inv(s) && id in s.asks && s.asks[id].Opening()
    requires wait.Waiting? || wait.Expired? || (wait.Awaiting? && s.asks[id].wait.Expired? && id !in s.pending)
    requires s.asks[id].wait.Awaiting? ==> wait.Awaiting?
    ensures Inv(SetWait(s, id, wait))
  {
    hide ReadOk, Ask.Ok, AskLinked, Inv;
    LinkedAsk(s, id);
    OpeningOk(s.asks[id], wait);
    var b := s.asks[id].(wait := wait);
    assert s.pending == if b.Held() then s.pending else s.pending - {id};
    AskStepKeeps(s, id, b, s.pending);
  }

  lemma ClaimedOk(a: Ask)
    requires a.Ok() && a.Held()
    ensures a.(party := Claimed).Ok()
  {
  }

  lemma ClaimKeeps(s: Sys, id: Id)
    requires Inv(s) && id in s.pending
    ensures id in s.asks
    ensures Inv(s.(pending := s.pending - {id}, asks := s.asks[id := s.asks[id].(party := Claimed)]))
  {
    hide ReadOk, Ask.Ok, AskLinked;
    LinkedAsk(s, id);
    var b := s.asks[id].(party := Claimed);
    ClaimedOk(s.asks[id]);
    AskStepKeeps(s, id, b, s.pending - {id});
  }

  lemma DeviceKeeps(s: Sys, id: Id, move: Move)
    requires Inv(s) && id in s.asks && s.asks[id].window.first <= s.asks[id].window.last
    ensures Inv(s.(asks := s.asks[id := DeviceMove(s.asks[id], move)]))
  {
    hide ReadOk, Ask.Ok, AskLinked, Inv, DeviceMove;
    LinkedAsk(s, id);
    var b := DeviceMove(s.asks[id], move);
    DeviceMoveOk(s.asks[id], move);
    DeviceMoveFrame(s.asks[id], move);
    assert s.pending == if b.Held() then s.pending else s.pending - {id};
    AskStepKeeps(s, id, b, s.pending);
  }

  /** Every step keeps the invariant. */
  lemma StepKeeps(s: Sys, action: Action)
    requires Inv(s)
    ensures Inv(Step'(s, action))
  {
    hide ReadOk, Ask.Ok, AskLinked, Inv, DeviceMove;
    InvIsSane(s);
    match action
    case Begin(read, org, device, first, last, id, capability) =>
      if !(read in s.bodies || id in s.asks || !(first <= last < U64_MAX)) {
        BeginKeeps(s, read, org, device, first, last, id, capability);
      }
    case RowWritten(id) =>
      if id in s.asks && s.asks[id].wait.Writing? { WaitStepKeeps(s, id, Waiting); }
    case RowFailed(id) =>
      if id in s.asks && s.asks[id].wait.Writing? {
        LinkedAsk(s, id);
        FailedOk(s.asks[id], RowFault);
        FailKeeps(s, id, RowFault);
      }
    case TimerFires(id) =>
      if id in s.asks && s.asks[id].wait.Waiting? && s.asks[id].signal.Unsent? { WaitStepKeeps(s, id, Expired); }
    case TakeBack(id) =>
      if id in s.asks && s.asks[id].wait.Expired? {
        LinkedAsk(s, id);
        if id in s.pending {
          FailedOk(s.asks[id], NoAnswer);
          FailKeeps(s, id, NoAnswer);
        } else {
          WaitStepKeeps(s, id, Awaiting);
        }
      }
    case SeeStart(id) =>
      if id in s.asks && (s.asks[id].wait.Waiting? || s.asks[id].wait.Awaiting?) {
        LinkedAsk(s, id);
        match s.asks[id].signal {
          case Unsent =>
          case Dropped =>
            FailedOk(s.asks[id], NoAnswer);
            FailKeeps(s, id, NoAnswer);
          case Sent(StartRefused) =>
            FailedOk(s.asks[id], Declined);
            FailKeeps(s, id, Declined);
          case Sent(StartServing) => ServeKeeps(s, id);
        }
      }
    case Claim(id, org, device, capability) =>
      if id in s.asks && Ours(s.pending, id, org, device, capability) { ClaimKeeps(s, id); }
    case Device(id, move) =>
      if id in s.asks { DeviceKeeps(s, id, move); }
    case Receive(read) =>
      if read in s.bodies && s.bodies[read].phase.Draining? && s.asks[s.bodies[read].phase.id].queue != [] {
        ReceiveKeeps(s, read);
      }
    case Quiet(read) =>
      if read in s.bodies && s.bodies[read].phase.Draining? { FinishKeeps(s, read, Broke); }
    case EndOfWindow(read) =>
      if Emptied(s, read) {
        if s.bodies[read].owed > 0 {
          FinishKeeps(s, read, Broke);
        } else if s.bodies[read].next > s.bodies[read].last {
          FinishKeeps(s, read, Ended);
        }
      }
    case NextWindow(read, id, capability) =>
      if Emptied(s, read) && s.bodies[read].owed == 0 && s.bodies[read].next <= s.bodies[read].last && id !in s.asks {
        NextKeeps(s, read, id, capability);
      }
    case NextUnopened(read) =>
      if Emptied(s, read) && s.bodies[read].owed == 0 && s.bodies[read].next <= s.bodies[read].last {
        FinishKeeps(s, read, Broke);
      }
    case Leave(read) =>
      if read in s.bodies && s.bodies[read].phase.Draining? { FinishKeeps(s, read, Left); }
  }

  // ------------------------------------------------------------ every run

  ghost function Next(s: Sys, action: Action): (t: Sys)
    requires Inv(s)
    ensures Inv(t)
  {
    StepKeeps(s, action);
    Step'(s, action)
  }

  /** The system after a sequence of actions: one interleaving of every party. */
  ghost function Run(s: Sys, actions: seq<Action>): (t: Sys)
    requires Inv(s)
    ensures Inv(t)
    decreases |actions|
  {
    if actions == [] then s else Run(Next(s, actions[0]), actions[1..])
  }

  lemma StartIsGood()
    ensures Inv(START)
  {
  }

  lemma ReadBytes(s: Sys, read: nat)
    requires Inv(s) && read in s.bodies
    ensures var r := s.bodies[read];
            && (forall id <- r.asked :: id in s.asks && s.asks[id].Ok())
            && Tiled(s.asks, r)
            && r.received == Gathered(s.asks, r.asked)
            && |r.received| <= r.last - r.first + 1
            && (r.phase.Ended? ==> |r.received| == r.last - r.first + 1)
  {
    hide AskLinked;
    var r := s.bodies[read];
    assert ReadOk(s.asks, read, r);
    forall id <- r.asked ensures id in s.asks && s.asks[id].Ok() {
      LinkedAsk(s, id);
    }
    var a := s.asks[r.asked[|r.asked| - 1]];
    assert r.asked[|r.asked| - 1] in r.asked;
    PayloadAppend(a.drawn, a.queue);
  }

  /** The system after one interleaving of every party from its start. */
  ghost function Reached(actions: seq<Action>): (s: Sys)
    ensures Inv(s)
  {
    StartIsGood();
    Run(START, actions)
  }

  /**
   In every interleaving, what a browser has received is what was drawn from
   its windows in order, the windows tile its range from the first byte on,
   it never exceeds the declared length, and a body that ended without error
   is exactly that long.
   */
  lemma BrowserNeverMisled(actions: seq<Action>, read: nat)
    requires read in Reached(actions).bodies
    ensures var s := Reached(actions);
            var r := s.bodies[read];
            && (forall id <- r.asked :: && id in s.asks
                                        && s.asks[id].drawn <= s.asks[id].piped
                                        && 1 <= s.asks[id].window.Length() <= WINDOW_BYTES)
            && Tiled(s.asks, r)
            && r.received == Gathered(s.asks, r.asked)
            && |r.received| <= r.last - r.first + 1
            && (r.phase.Ended? ==> |r.received| == r.last - r.first + 1)
  {
    hide Inv, Run, Tiled, Gathered;
    ReadBytes(Reached(actions), read);
  }

  /** The actions of a browser's body, as against those of a wait and of the device. */
  predicate Bodily(action: Action) {
    || action.Receive? || action.Quiet? || action.EndOfWindow? || action.NextWindow? || action.NextUnopened?
    || action.Leave?
  }

  /** What a step may change of an ask: its signal, party and pipe by its own claim or device only. */
  ghost predicate KeptBy(a: Ask, b: Ask, action: Action, id: Id) {
    && b == a.(wait := b.wait, signal := b.signal, party := b.party, queue := b.queue,
               piped := b.piped, drawn := b.drawn)
    && (b.party != a.party || b.signal != a.signal || b.piped != a.piped ==>
          (action.Claim? || action.Device?) && action.id == id && b.wait == a.wait && b.drawn == a.drawn)
    && (b.drawn != a.drawn ==> a.wait.Streaming?)
  }

  /** How a step may change what the waiting side of an ask is doing. */
  ghost predicate WaitMovesTo(a: Ask, b: Ask, held: bool) {
    || b.wait == a.wait
    || (a.wait.Streaming? && b.wait.Closed?)
    || (b.wait.Waiting? && a.wait.Writing?)
    || (b.wait.Expired? && a.wait.Waiting? && a.signal.Unsent?)
    || (b.wait.Awaiting? && a.wait.Expired? && !held)
    || (b.wait.Streaming? && a.Opening() && a.signal == Sent(StartServing))
    || (b.wait.Failed? && a.Opening())
  }

  lemma NextTouches(s: Sys, action: Action, id: Id)
    requires Inv(s) && id in s.asks && action.NextWindow?
    ensures var t := Next(s, action);
            id in t.asks && KeptBy(s.asks[id], t.asks[id], action, id)
            && (t.asks[id].wait == s.asks[id].wait || (s.asks[id].wait.Streaming? && t.asks[id].wait.Closed?))
            && (id in t.pending <==> id in s.pending)
  {
    hide ReadOk, Ask.Ok, AskLinked, Inv, WindowEnd;
    InvIsSane(s);
    if action.read in s.bodies && s.bodies[action.read].phase.Draining? { DrainingAsk(s, action.read); }
  }

  lemma BodyTouches(s: Sys, action: Action, id: Id)
    requires Inv(s) && id in s.asks && Bodily(action) && !action.NextWindow?
    ensures var t := Next(s, action);
            id in t.asks && KeptBy(s.asks[id], t.asks[id], action, id)
            && (t.asks[id].wait == s.asks[id].wait || (s.asks[id].wait.Streaming? && t.asks[id].wait.Closed?))
            && (id in t.pending <==> id in s.pending)
  {
    hide ReadOk, Ask.Ok, AskLinked, Inv, WindowEnd;
    InvIsSane(s);
    if action.read in s.bodies && s.bodies[action.read].phase.Draining? { DrainingAsk(s, action.read); }
  }

  lemma DeviceTouches(s: Sys, action: Action, id: Id)
    requires Inv(s) && id in s.asks && (action.Device? || action.Claim?)
    ensures var t := Next(s, action);
            && id in t.asks && KeptBy(s.asks[id], t.asks[id], action, id)
            && t.asks[id].wait == s.asks[id].wait
  {
    hide ReadOk, Ask.Ok, AskLinked, Inv, DeviceMove;
    InvIsSane(s);
    if action.Device? && action.id == id { DeviceMoveFrame(s.asks[id], action.move); }
  }

  lemma WaitTouches(s: Sys, action: Action, id: Id)
    requires Inv(s) && id in s.asks && !Bodily(action) && !action.Device? && !action.Claim?
    ensures var t := Next(s, action);
            && id in t.asks && KeptBy(s.asks[id], t.asks[id], action, id)
            && WaitMovesTo(s.asks[id], t.asks[id], id in s.pending)
            && t.asks[id].party == s.asks[id].party && t.asks[id].signal == s.asks[id].signal
  {
    hide ReadOk, Ask.Ok, AskLinked, Inv, WindowEnd;
    InvIsSane(s);
  }

  /** The asks a step may touch keep what they were opened for. */
  lemma AskKept(s: Sys, action: Action, id: Id)
    requires Inv(s) && id in s.asks
    ensures var t := Next(s, action);
            id in t.asks && KeptBy(s.asks[id], t.asks[id], action, id)
  {
    hide Inv, Next, KeptBy, WaitMovesTo;
    if action.NextWindow? {
      NextTouches(s, action, id);
    } else if Bodily(action) {
      BodyTouches(s, action, id);
    } else if action.Device? || action.Claim? {
      DeviceTouches(s, action, id);
    } else {
      WaitTouches(s, action, id);
    }
  }

  lemma WaitMoves(s: Sys, action: Action, id: Id)
    requires Inv(s) && id in s.asks
    ensures var t := Next(s, action);
            id in t.asks && WaitMovesTo(s.asks[id], t.asks[id], id in s.pending)
  {
    hide Inv, Next, KeptBy;
    if action.NextWindow? {
      NextTouches(s, action, id);
    } else if Bodily(action) {
      BodyTouches(s, action, id);
    } else if action.Device? || action.Claim? {
      DeviceTouches(s, action, id);
    } else {
      WaitTouches(s, action, id);
    }
  }

  lemma DeviceTakesNothing(s: Sys, action: Action, id: Id)
    requires Inv(s) && id in s.asks && action.Device?
    ensures var t := Next(s, action);
            && id in t.asks && t.pending == s.pending
            && (s.asks[id].party.Unclaimed? <==> t.asks[id].party.Unclaimed?)
  {
    hide ReadOk, Ask.Ok, AskLinked, Inv, DeviceMove;
    InvIsSane(s);
    if action.id == id { DeviceMoveFrame(s.asks[id], action.move); }
  }

  /** Who took an ask's pending entry, if a step took it. */
  ghost predicate TakenBy(s: Sys, action: Action, t: Sys, id: Id)
    requires id in s.asks
  {
    && id in t.asks
    && var a := s.asks[id];
    && (id !in s.pending ==> id !in t.pending)
    && (id in s.pending && id !in t.pending ==>
          || (action == Claim(id, a.org, a.device, a.capability)
              && t.asks[id] == a.(party := Claimed))
          || ((action == TakeBack(id) || action == RowFailed(id))
              && t.asks[id].wait.Failed? && t.asks[id].party.Unclaimed?))
    && (a.party.Unclaimed? && !t.asks[id].party.Unclaimed? ==>
          id in s.pending && action == Claim(id, a.org, a.device, a.capability))
  }

  lemma ClaimTakes(s: Sys, action: Action, id: Id)
    requires Inv(s) && id in s.asks && action.Claim?
    ensures TakenBy(s, action, Next(s, action), id)
  {
    hide ReadOk, Ask.Ok, AskLinked, Inv, DeviceMove;
    InvIsSane(s);
    LinkedAsk(s, id);
  }

  lemma WaitTakes(s: Sys, action: Action, id: Id)
    requires Inv(s) && id in s.asks && !Bodily(action) && !action.Device? && !action.Claim?
    ensures TakenBy(s, action, Next(s, action), id)
  {
    hide ReadOk, Ask.Ok, AskLinked, Inv, DeviceMove, WindowEnd, KeptBy, WaitMovesTo;
    InvIsSane(s);
    LinkedAsk(s, id);
    WaitTouches(s, action, id);
  }

  /**
   Exactly one party takes an ask's pending entry, once: the waiting side,
   which then never hears of it again, or an answer of the very organisation,
   device and capability it was opened for.
   */
  lemma OneTaker(s: Sys, action: Action, id: Id)
    requires Inv(s) && id in s.asks
    ensures TakenBy(s, action, Next(s, action), id)
  {
    hide Inv, Next;
    if action.NextWindow? {
      NextTouches(s, action, id);
    } else if Bodily(action) {
      BodyTouches(s, action, id);
    } else if action.Device? {
      DeviceTakesNothing(s, action, id);
    } else if action.Claim? {
      ClaimTakes(s, action, id);
    } else {
      WaitTakes(s, action, id);
    }
  }

  lemma FailedDrewNothing(s: Sys, id: Id)
    requires Inv(s) && id in s.asks && s.asks[id].wait.Failed?
    ensures s.asks[id].drawn == []
    ensures s.asks[id].wait == Failed(NoAnswer) ==> s.asks[id].piped == []
  {
    hide ReadOk;
    LinkedAsk(s, id);
  }

  /** A failed wait stays failed, so no byte of that ask is ever delivered. */
  lemma {:induction false} FailedStaysSilent(s: Sys, actions: seq<Action>, id: Id)
    requires Inv(s) && id in s.asks && s.asks[id].wait.Failed?
    ensures var t := Run(s, actions);
            && id in t.asks
            && t.asks[id].wait == s.asks[id].wait
            && t.asks[id].drawn == []
            && (t.asks[id].wait == Failed(NoAnswer) ==> t.asks[id].piped == [])
    decreases |actions|
  {
    hide ReadOk, Ask.Ok, AskLinked, Inv, Step, Step', Next;
    if actions == [] {
      FailedDrewNothing(s, id);
    } else {
      WaitMoves(s, actions[0], id);
      FailedStaysSilent(Next(s, actions[0]), actions[1..], id);
    }
  }

  /** While one side waits, the entry is still pending, or an answer holds the signal or has used it. */
  lemma NeverStuck(s: Sys, id: Id)
    requires Inv(s) && id in s.asks && s.asks[id].Opening()
    ensures id in s.pending || s.asks[id].party.Claimed? || !s.asks[id].signal.Unsent?
  {
    LinkedAsk(s, id);
  }

  /** How far an open ask is from being settled. */
  function Distance(a: Ask): nat {
    if !a.Opening() then 0
    else (match a.wait
          case Writing => 7
          case Waiting => 5
          case Expired => 3
          case _ => 1) + (if a.signal.Unsent? then 1 else 0)
  }

  /** What one of the two sides can always do next about an open ask. */
  function Due(a: Ask, id: Id): Action {
    match a.wait
    case Writing => RowWritten(id)
    case Waiting => if a.signal.Unsent? then TimerFires(id) else SeeStart(id)
    case Expired => TakeBack(id)
    case _ => if a.signal.Unsent? then Device(id, Vanish) else SeeStart(id)
  }

  lemma SignalOnce(a: Ask, move: Move)
    requires a.window.first <= a.window.last && a.Ok()
    ensures !a.signal.Unsent? ==> DeviceMove(a, move).signal == a.signal
    ensures move.Vanish? && a.party.Claimed? ==> DeviceMove(a, move).signal.Dropped?
  {
  }

  lemma SignalKept(s: Sys, action: Action, id: Id)
    requires Inv(s) && id in s.asks && !s.asks[id].signal.Unsent? && (action.Device? || action.Claim?)
    ensures id in Next(s, action).asks && Next(s, action).asks[id].signal == s.asks[id].signal
  {
    hide ReadOk, Ask.Ok, AskLinked, Inv, DeviceMove;
    InvIsSane(s);
    LinkedAsk(s, id);
    if action.Device? { SignalOnce(s.asks[id], action.move); }
  }

  lemma SignalStays(s: Sys, action: Action, id: Id)
    requires Inv(s) && id in s.asks && !s.asks[id].signal.Unsent?
    ensures id in Next(s, action).asks && Next(s, action).asks[id].signal == s.asks[id].signal
  {
    hide ReadOk, AskLinked, Inv, Next;
    AskKept(s, action, id);
    if action.Device? || action.Claim? { SignalKept(s, action, id); }
  }

  /** Nothing takes an open ask further from its end. */
  lemma NoStepBack(s: Sys, action: Action, id: Id)
    requires Inv(s) && id in s.asks
    ensures id in Next(s, action).asks && Distance(Next(s, action).asks[id]) <= Distance(s.asks[id])
  {
    hide ReadOk, AskLinked, Inv, Next;
    AskKept(s, action, id);
    WaitMoves(s, action, id);
    LinkedAsk(s, id);
    LinkedAsk(Next(s, action), id);
    if !s.asks[id].signal.Unsent? { SignalStays(s, action, id); }
  }

  /** A due action brings an open ask strictly closer, so a wait always ends. */
  lemma DueStepCloser(s: Sys, id: Id)
    requires Inv(s) && id in s.asks && s.asks[id].Opening()
    ensures var t := Next(s, Due(s.asks[id], id));
            id in t.asks && Distance(t.asks[id]) < Distance(s.asks[id])
  {
    hide ReadOk, Ask.Ok, AskLinked, Inv, DeviceMove;
    InvIsSane(s);
    LinkedAsk(s, id);
    NeverStuck(s, id);
    if s.asks[id].party.Claimed? { SignalOnce(s.asks[id], Vanish); }
    DeviceMoveFrame(s.asks[id], Vanish);
  }

  /** From any state of any run, a few actions of the two sides settle an open ask. */
  lemma {:induction false} WaitEnds(s: Sys, id: Id) returns (actions: seq<Action>)
    requires Inv(s) && id in s.asks
    ensures |actions| <= Distance(s.asks[id]) <= 8
    ensures id in Run(s, actions).asks && !Run(s, actions).asks[id].Opening()
    decreases Distance(s.asks[id])
  {
    hide ReadOk, Ask.Ok, AskLinked, Inv;
    if !s.asks[id].Opening() {
      actions := [];
    } else {
      var due := Due(s.asks[id], id);
      DueStepCloser(s, id);
      var rest := WaitEnds(Next(s, due), id);
      actions := [due] + rest;
      assert actions[1..] == rest;
    }
  }

  // ------------------------------------------------------------ what the devices uploaded

  /** Whether an answering side takes a chunk in: it is answering, with room for a frame or nobody left to hear. */
  ghost predicate Lands(s: Sys, action: Action, id: Id) {
    && action.Device? && action.id == id && action.move.Arrive? && action.move.upload.Chunk?
    && id in s.asks && s.asks[id].party.Piping?
    && (!s.asks[id].Listening() || |s.asks[id].queue| < FRAMES_BUFFERED)
  }

  ghost function Landed(s: Sys, action: Action, id: Id): seq<Byte> {
    if Lands(s, action, id) then action.move.upload.data else []
  }

  /** The bytes uploaded to an ask in a run from the start, in the order its answering side took them in. */
  ghost function Uploaded(actions: seq<Action>, id: Id): seq<Byte> {
    if actions == [] then []
    else
      var (front, last) := (actions[..|actions| - 1], actions[|actions| - 1]);
      Uploaded(front, id) + Landed(Reached(front), last, id)
  }

  /** What an ask has piped of what was uploaded to it: all of it while answering, and never anything else. */
  ghost predicate Fed(a: Ask, uploaded: seq<Byte>) {
    && Payload(a.piped) <= uploaded
    && (a.party.Unclaimed? || a.party.Claimed? ==> uploaded == [])
    && (a.party.Piping? ==> uploaded == Payload(a.piped))
  }

  lemma PayloadOfOne(frames: seq<Frame>, frame: Frame)
    ensures Payload(frames + [frame]) == Payload(frames) + if frame.Bytes? then frame.data else []
  {
    PayloadAppend(frames, [frame]);
    assert [frame][1..] == [];
  }

  lemma ArrivalFed(a: Ask, data: seq<Byte>, uploaded: seq<Byte>)
    requires a.window.first <= a.window.last && Fed(a, uploaded) && a.party.Piping?
    requires !a.Listening() || |a.queue| < FRAMES_BUFFERED
    ensures Fed(DeviceMove(a, Arrive(Chunk(data))), uploaded + data)
  {
    hide Payload;
    match OnUpload(a.window.Length(), a.party.sent, Chunk(data))
    case Stop(parting, status) => PayloadOfOne(a.piped, parting.value);
    case Pass(now, frame) => PayloadOfOne(a.piped, frame);
  }

  lemma MoveFed(a: Ask, move: Move, uploaded: seq<Byte>)
    requires a.window.first <= a.window.last && Fed(a, uploaded)
    requires a.party.Piping? && move.Arrive? && move.upload.Chunk? ==> a.Listening() && |a.queue| >= FRAMES_BUFFERED
    ensures Fed(DeviceMove(a, move), uploaded)
  {
    hide Payload;
    DeviceMoveFrame(a, move);
    var b := DeviceMove(a, move);
    if b.piped != a.piped { PayloadOfOne(a.piped, b.piped[|a.piped|]); }
  }

  lemma NoneOpened(s: Sys, action: Action)
    requires Inv(s) && !action.Begin? && !action.NextWindow?
    ensures Next(s, action).asks.Keys == s.asks.Keys
  {
    hide ReadOk, Ask.Ok, AskLinked, Inv, WindowEnd, DeviceMove, GiveUp;
    InvIsSane(s);
  }

  /** An ask opened by a step starts with nothing piped and nobody answering. */
  lemma OpenedAsk(s: Sys, action: Action, id: Id)
    requires Inv(s) && id !in s.asks && id in Next(s, action).asks
    ensures Next(s, action).asks[id].piped == [] && Next(s, action).asks[id].party.Unclaimed?
  {
    hide ReadOk, Ask.Ok, AskLinked, Inv, WindowEnd, DeviceMove;
    if action.Begin? || action.NextWindow? { InvIsSane(s); } else { NoneOpened(s, action); }
  }

  /** A device's or an answer's step on an ask, as the ask sees it. */
  lemma AnsweredStep(s: Sys, action: Action, id: Id)
    requires Inv(s) && id in s.asks && s.asks[id].window.first <= s.asks[id].window.last
    requires action.Device? || action.Claim?
    ensures var (a, t) := (s.asks[id], Next(s, action));
            && id in t.asks
            && (action.Device? && action.id == id ==> t.asks[id] == DeviceMove(a, action.move))
            && (action.Claim? || action.id != id ==>
                  t.asks[id].piped == a.piped
                  && (t.asks[id].party == a.party || (a.party.Unclaimed? && t.asks[id].party.Claimed?)))
  {
    hide ReadOk, Ask.Ok, AskLinked, Inv, DeviceMove;
    InvIsSane(s);
    LinkedAsk(s, id);
  }

  lemma NothingPiped()
    ensures Payload([]) == []
  {
  }

  /** Every step keeps an ask fed on what was uploaded to it. */
  lemma NextFed(s: Sys, action: Action, id: Id, uploaded: seq<Byte>)
    requires Inv(s) && if id in s.asks then Fed(s.asks[id], uploaded) else uploaded == []
    ensures var (t, more) := (Next(s, action), uploaded + Landed(s, action, id));
            if id in t.asks then Fed(t.asks[id], more) else more == []
  {
    hide Inv, Next, DeviceMove, Payload, Ask.Ok;
    var t := Next(s, action);
    assert uploaded + [] == uploaded;
    if id !in s.asks {
      if id in t.asks { OpenedAsk(s, action, id); NothingPiped(); }
    } else {
      LinkedAsk(s, id);
      AskKept(s, action, id);
      if action.Device? || action.Claim? { AnsweredStep(s, action, id); }
      if action.Device? && action.id == id {
        if Lands(s, action, id) {
          ArrivalFed(s.asks[id], action.move.upload.data, uploaded);
        } else {
          MoveFed(s.asks[id], action.move, uploaded);
        }
      }
    }
  }

  lemma {:induction false} RunOn(s: Sys, actions: seq<Action>, last: Action)
    requires Inv(s)
    ensures Run(s, actions + [last]) == Next(Run(s, actions), last)
    decreases |actions|
  {
    hide Inv, Next;
    if actions == [] {
      assert ([] + [last])[1..] == [];
    } else {
      assert (actions + [last])[1..] == actions[1..] + [last];
      RunOn(Next(s, actions[0]), actions[1..], last);
    }
  }

  lemma NothingYet(id: Id)
    ensures id !in Reached([]).asks
  {
    hide Inv;
  }

  /** In every interleaving what was piped for an ask is the beginning of what was uploaded to it. */
  lemma {:induction false} PipedIsUploaded(actions: seq<Action>, id: Id)
    ensures var (s, uploaded) := (Reached(actions), Uploaded(actions, id));
            if id in s.asks then Fed(s.asks[id], uploaded) else uploaded == []
    decreases |actions|
  {
    hide Inv, Next, Fed, Landed, Run;
    if actions == [] {
      NothingYet(id);
    } else {
      var (front, last) := (actions[..|actions| - 1], actions[|actions| - 1]);
      assert actions == front + [last];
      PipedIsUploaded(front, id);
      StartIsGood();
      RunOn(START, front, last);
      NextFed(Reached(front), last, id, Uploaded(front, id));
    }
  }

  // ------------------------------------------------------------ what the browser got of it

  function AtMost(bytes: seq<Byte>, n: nat): seq<Byte> { if |bytes| <= n then bytes else bytes[..n] }

  /** What the devices uploaded for a read's windows, each to its window's length, in order. */
  ghost function UploadsOf(actions: seq<Action>, asks: map<Id, Ask>, asked: seq<Id>): seq<Byte>
    requires forall id <- asked :: id in asks && asks[id].window.first <= asks[id].window.last
  {
    if asked == [] then []
    else
      var (front, last) := (asked[..|asked| - 1], asked[|asked| - 1]);
      UploadsOf(actions, asks, front) + AtMost(Uploaded(actions, last), asks[last].window.Length())
  }

  ghost predicate Chained(asks: map<Id, Ask>, asked: seq<Id>) {
    && (forall id <- asked :: id in asks && asks[id].window.first <= asks[id].window.last
                              && |Payload(asks[id].drawn)| <= asks[id].window.Length())
    && forall i | 0 <= i < |asked| - 1 :: asks[asked[i + 1]].window.first == asks[asked[i]].window.last + 1
  }

  ghost predicate Whole(a: Ask) { |Payload(a.drawn)| == a.window.last - a.window.first + 1 }

  lemma PrefixAtMost(part: seq<Byte>, whole: seq<Byte>, n: nat)
    requires part <= whole && |part| <= n
    ensures part <= AtMost(whole, n) && (|part| == n ==> part == AtMost(whole, n))
  {
  }

  lemma PrefixAfter(before: seq<Byte>, part: seq<Byte>, whole: seq<Byte>)
    requires part <= whole
    ensures before + part <= before + whole
  {
  }

  lemma FrontChained(asks: map<Id, Ask>, asked: seq<Id>)
    requires asked != [] && Chained(asks, asked)
    ensures var front := asked[..|asked| - 1];
            && Chained(asks, front) && (forall id <- front :: id in asked)
            && forall i | 0 <= i < |front| :: front[i] == asked[i]
  {
    hide Payload;
  }

  /** Whole windows gather what was uploaded for them; a last one short of its length, the beginning of that. */
  lemma {:induction false} GatheredIsUploaded(actions: seq<Action>, asks: map<Id, Ask>, asked: seq<Id>)
    requires Chained(asks, asked)
    requires forall id <- asked :: Payload(asks[id].drawn) <= Uploaded(actions, id)
    requires forall i | 0 <= i < |asked| - 1 :: Whole(asks[asked[i]])
    ensures Gathered(asks, asked) <= UploadsOf(actions, asks, asked)
    ensures asked == [] || Whole(asks[asked[|asked| - 1]]) ==> Gathered(asks, asked) == UploadsOf(actions, asks, asked)
  {
    if asked != [] {
      var (front, last) := (asked[..|asked| - 1], asked[|asked| - 1]);
      FrontChained(asks, asked);
      GatheredIsUploaded(actions, asks, front);
      var (drawn, uploaded) := (Payload(asks[last].drawn), Uploaded(actions, last));
      var n := asks[last].window.Length();
      assert last in asked && |drawn| <= n && (Whole(asks[last]) <==> |drawn| == n);
      assert front == [] || Whole(asks[front[|front| - 1]]);
      hide Payload, Uploaded, Whole, AtMost, Chained;
      PrefixAtMost(drawn, uploaded, n);
      PrefixAfter(Gathered(asks, front), drawn, AtMost(uploaded, n));
    }
  }

  /** What a read knows of its windows. */
  lemma ReadChained(s: Sys, read: nat)
    requires Inv(s) && read in s.bodies
    ensures var r := s.bodies[read];
            && r.asked != [] && Chained(s.asks, r.asked) && r.received == Gathered(s.asks, r.asked)
            && var last := s.asks[r.asked[|r.asked| - 1]];
            && |r.received| == last.window.first - s.asks[r.asked[0]].window.first + |Payload(last.drawn)|
            && (r.phase.Ended? ==> Whole(last))
  {
    hide AskLinked, Payload;
    var r := s.bodies[read];
    assert ReadOk(s.asks, read, r);
    forall id <- r.asked
      ensures id in s.asks && s.asks[id].window.first <= s.asks[id].window.last
              && |Payload(s.asks[id].drawn)| <= s.asks[id].window.Length()
    {
      LinkedAsk(s, id);
      PayloadAppend(s.asks[id].drawn, s.asks[id].queue);
    }
  }

  /** The last of a chain's windows, beside those before it. */
  lemma LastInChain(asks: map<Id, Ask>, asked: seq<Id>)
    requires asked != [] && Chained(asks, asked)
    ensures var (front, last) := (asked[..|asked| - 1], asked[|asked| - 1]);
            && Chained(asks, front) && last in asks && asked[0] in asks
            && |Gathered(asks, asked)| == |Gathered(asks, front)| + |Payload(asks[last].drawn)|
            && |Payload(asks[last].drawn)| <= asks[last].window.last - asks[last].window.first + 1
            && (|Payload(asks[last].drawn)| == asks[last].window.last - asks[last].window.first + 1 ==>
                  Whole(asks[last]))
            && (front == [] ==> asked[0] == last && Gathered(asks, front) == [])
            && (front != [] ==>
                  var next := front[|front| - 1];
                  front[0] == asked[0] && next in asks && asks[last].window.first == asks[next].window.last + 1)
  {
    hide Payload;
    FrontChained(asks, asked);
    assert asked[|asked| - 1] in asked && asked[0] in asked;
  }

  /** Windows that follow one another hold their whole span only if each is whole. */
  lemma {:induction false} WholeIff(asks: map<Id, Ask>, asked: seq<Id>)
    requires asked != [] && Chained(asks, asked)
    ensures asked[0] in asks && asked[|asked| - 1] in asks && forall id <- asked :: id in asks
    ensures var span := asks[asked[|asked| - 1]].window.last - asks[asked[0]].window.first + 1;
            && |Gathered(asks, asked)| <= span
            && (|Gathered(asks, asked)| == span ==> forall id <- asked :: Whole(asks[id]))
  {
    hide Payload, Chained, Gathered, Whole;
    LastInChain(asks, asked);
    var (front, last) := (asked[..|asked| - 1], asked[|asked| - 1]);
    if front != [] { WholeIff(asks, front); }
    assert forall id <- asked :: id in front || id == last;
  }

  lemma FrontIsWhole(asks: map<Id, Ask>, asked: seq<Id>)
    requires asked != [] && Chained(asks, asked)
    requires var last := asks[asked[|asked| - 1]];
             |Gathered(asks, asked)| == last.window.first - asks[asked[0]].window.first + |Payload(last.drawn)|
    ensures forall i | 0 <= i < |asked| - 1 :: Whole(asks[asked[i]])
  {
    hide Payload, Whole, Chained, Gathered;
    LastInChain(asks, asked);
    FrontChained(asks, asked);
    var front := asked[..|asked| - 1];
    if front != [] {
      WholeIff(asks, front);
      assert forall i | 0 <= i < |front| :: front[i] in front;
    }
  }

  lemma DrawnIsPiped(a: Ask)
    requires a.Ok()
    ensures Payload(a.drawn) <= Payload(a.piped)
  {
    PayloadAppend(a.drawn, a.queue);
  }

  /**
   In every interleaving what a browser received is the beginning of what the
   devices uploaded for its windows, in order and each to its window's length;
   and all of it where the body ended without error.
   */
  lemma BrowserGetsUploads(actions: seq<Action>, read: nat)
    requires read in Reached(actions).bodies
    ensures var s := Reached(actions);
            var r := s.bodies[read];
            && Chained(s.asks, r.asked)
            && r.received <= UploadsOf(actions, s.asks, r.asked)
            && (r.phase.Ended? ==> r.received == UploadsOf(actions, s.asks, r.asked))
  {
    hide Inv, Run, Gathered, UploadsOf, Uploaded, Whole, Payload, Ask.Ok, Chained, Reached;
    var s := Reached(actions);
    var r := s.bodies[read];
    ReadChained(s, read);
    FrontIsWhole(s.asks, r.asked);
    ReadBytes(s, read);
    forall id <- r.asked ensures Payload(s.asks[id].drawn) <= Uploaded(actions, id) {
      PipedIsUploaded(actions, id);
      DrawnIsPiped(s.asks[id]);
    }
    GatheredIsUploaded(actions, s.asks, r.asked);
  }
}
