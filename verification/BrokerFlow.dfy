/**
 Relaying one browser read from a device, window by window
 (crates/tam-api/src/broker.rs).

 A read of the bytes `first..=last` is cut into windows of at most
 `WINDOW_BYTES`. The device answers each window with an upload that `Pipe`
 turns into frames; `Flow` hands those frames to the browser and asks for the
 next window when one ends. Nothing the device does is trusted.
 */
module BrokerFlow {
  import opened Saturating
  import opened Wrappers

  type Byte = bv8

  const U64_MAX: nat := 0xFFFF_FFFF_FFFF_FFFF
  const WINDOW_BYTES: nat := 32 * 1024 * 1024
  const SERVING_WINDOW_MS: int := 60_000

  // ------------------------------------------------------------ choosing a device

  datatype Holder = Holder(device: string, name: string, lastSeenAt: int, polledAt: Option<int>)

  datatype Choice =
    | Serving(device: string, name: string)
    | Offline(name: string)
    | Nowhere

  predicate IsServing(polled: Option<int>, now: int) {
    polled.Some? && polled.value >= Saturate(now - SERVING_WINDOW_MS)
  }

  /** A device serves where it polled a minute ago or less, whatever instants a clock can read. */
  lemma ServingIff(polled: Option<int>, now: int)
    requires I64_MIN <= now <= I64_MAX && (polled.Some? ==> I64_MIN <= polled.value <= I64_MAX)
    ensures IsServing(polled, now) <==> polled.Some? && now - polled.value <= 60_000
  {
  }

  /** The last of the greatest keys, as Rust's `max_by_key` answers. */
  function LastGreatest(keys: seq<int>): (k: nat)
    requires keys != []
    ensures k < |keys|
    ensures forall j | 0 <= j < |keys| :: keys[j] <= keys[k]
    ensures forall j | k < j < |keys| :: keys[j] < keys[k]
  {
    if |keys| == 1 then 0
    else
      var k := LastGreatest(keys[..|keys| - 1]);
      if keys[|keys| - 1] >= keys[k] then |keys| - 1 else k
  }

  function ServingOnly(holders: seq<Holder>, now: int): seq<Holder> {
    if holders == [] then []
    else
      var h := holders[|holders| - 1];
      ServingOnly(holders[..|holders| - 1], now)
      + (if IsServing(h.polledAt, now) then [h] else [])
  }

  function PolledKeys(serving: seq<Holder>): (keys: seq<int>) {
    seq(|serving|, i requires 0 <= i < |serving| =>
      if serving[i].polledAt.Some? then serving[i].polledAt.value else I64_MIN)
  }

  function Choose(holders: seq<Holder>, now: int): Choice {
    var serving := ServingOnly(holders, now);
    if serving != [] then
      var chosen := serving[LastGreatest(PolledKeys(serving))];
      Serving(chosen.device, chosen.name)
    else if holders != [] then
      var keys := seq(|holders|, i requires 0 <= i < |holders| => holders[i].lastSeenAt);
      Offline(holders[LastGreatest(keys)].name)
    else
      Nowhere
  }

  /** The holder that polled last among those serving; of two that polled together, the later listed. */
  ghost predicate PolledLatest(holders: seq<Holder>, now: int, i: nat) {
    && i < |holders|
    && IsServing(holders[i].polledAt, now)
    && forall j | 0 <= j < |holders| && IsServing(holders[j].polledAt, now) ::
         && holders[j].polledAt.value <= holders[i].polledAt.value
         && (j > i ==> holders[j].polledAt.value < holders[i].polledAt.value)
  }

  ghost predicate SeenLatest(holders: seq<Holder>, i: nat) {
    && i < |holders|
    && forall j | 0 <= j < |holders| ::
         && holders[j].lastSeenAt <= holders[i].lastSeenAt
         && (j > i ==> holders[j].lastSeenAt < holders[i].lastSeenAt)
  }

  /** Where each serving holder stood before the others were filtered out. */
  ghost predicate Stood(holders: seq<Holder>, now: int, serving: seq<Holder>, at: seq<nat>) {
    && |at| == |serving|
    && (forall k | 0 <= k < |at| ::
          at[k] < |holders| && holders[at[k]] == serving[k] && IsServing(serving[k].polledAt, now))
    && (forall k, l | 0 <= k < l < |at| :: at[k] < at[l])
    && (forall j | 0 <= j < |holders| && IsServing(holders[j].polledAt, now) :: j in at)
  }

  lemma StoodOneMore(holders: seq<Holder>, now: int, serving: seq<Holder>, at: seq<nat>, h: Holder)
    requires Stood(holders, now, serving, at)
    ensures IsServing(h.polledAt, now) ==> Stood(holders + [h], now, serving + [h], at + [|holders|])
    ensures !IsServing(h.polledAt, now) ==> Stood(holders + [h], now, serving, at)
  {
    hide IsServing;
    var (all, more) := (holders + [h], at + [|holders|]);
    assert all[|holders|] == h;
    forall j | 0 <= j < |all| && IsServing(all[j].polledAt, now)
      ensures IsServing(h.polledAt, now) ==> j in more
      ensures !IsServing(h.polledAt, now) ==> j in at
    {
      if j < |holders| {
        assert all[j] == holders[j];
        var k :| 0 <= k < |at| && at[k] == j;
        assert more[k] == j;
      } else {
        assert more[|at|] == j;
      }
    }
  }

  lemma NoneStood(now: int)
    ensures Stood([], now, [], [])
  {
  }

  lemma {:induction false} ServingPositions(holders: seq<Holder>, now: int) returns (at: seq<nat>)
    ensures Stood(holders, now, ServingOnly(holders, now), at)
  {
    hide IsServing, Stood;
    if holders == [] {
      at := [];
      NoneStood(now);
    } else {
      var (front, h) := (holders[..|holders| - 1], holders[|holders| - 1]);
      at := ServingPositions(front, now);
      StoodOneMore(front, now, ServingOnly(front, now), at, h);
      assert holders == front + [h];
      if IsServing(h.polledAt, now) {
        at := at + [|front|];
      } else {
        assert ServingOnly(front, now) + [] == ServingOnly(front, now);
      }
    }
  }

  lemma ServingIsTheLatest(holders: seq<Holder>, now: int, serving: seq<Holder>, at: seq<nat>, k: nat)
    requires serving != [] && Stood(holders, now, serving, at) && k == LastGreatest(PolledKeys(serving))
    ensures k < |at| && PolledLatest(holders, now, at[k])
  {
    var keys := PolledKeys(serving);
    forall j | 0 <= j < |holders| && IsServing(holders[j].polledAt, now)
      ensures holders[j].polledAt.value <= holders[at[k]].polledAt.value
      ensures j > at[k] ==> holders[j].polledAt.value < holders[at[k]].polledAt.value
    {
      var l :| 0 <= l < |at| && at[l] == j;
      assert keys[l] <= keys[k] && (l > k ==> keys[l] < keys[k]);
    }
  }

  lemma SeenIsTheLatest(holders: seq<Holder>, k: nat)
    requires holders != []
    requires k == LastGreatest(seq(|holders|, i requires 0 <= i < |holders| => holders[i].lastSeenAt))
    ensures SeenLatest(holders, k)
  {
    var keys := seq(|holders|, i requires 0 <= i < |holders| => holders[i].lastSeenAt);
    forall j | 0 <= j < |holders|
      ensures holders[j].lastSeenAt <= holders[k].lastSeenAt
      ensures j > k ==> holders[j].lastSeenAt < holders[k].lastSeenAt
    {
      assert keys[j] <= keys[k];
    }
  }

  lemma NoneServes(holders: seq<Holder>, now: int, at: seq<nat>)
    requires Stood(holders, now, [], at)
    ensures forall h | h in holders :: !IsServing(h.polledAt, now)
  {
    hide IsServing;
  }

  /** A device is named exactly when one is serving, and it is the one that polled last. */
  lemma ChooseIsTheLatest(holders: seq<Holder>, now: int)
    ensures match Choose(holders, now)
            case Serving(device, name) =>
              exists i: nat :: PolledLatest(holders, now, i) && holders[i].device == device && holders[i].name == name
            case Offline(name) =>
              && (forall h | h in holders :: !IsServing(h.polledAt, now))
              && exists i: nat :: SeenLatest(holders, i) && holders[i].name == name
            case Nowhere => holders == []
  {
    hide PolledLatest, SeenLatest, IsServing, LastGreatest;
    var serving := ServingOnly(holders, now);
    var at := ServingPositions(holders, now);
    if serving != [] {
      var k := LastGreatest(PolledKeys(serving));
      ServingIsTheLatest(holders, now, serving, at, k);
      assert holders[at[k]] == serving[k];
    } else {
      NoneServes(holders, now, at);
      if holders != [] {
        SeenIsTheLatest(holders, LastGreatest(seq(|holders|, i requires 0 <= i < |holders| => holders[i].lastSeenAt)));
      }
    }
  }

  // ------------------------------------------------------------ windows

  datatype Window = Window(first: nat, last: nat) {
    function Length(): int { last - first + 1 }
  }

  function SaturatingAdd(a: nat, b: nat): nat {
    if a + b > U64_MAX then U64_MAX else a + b
  }

  function WindowEnd(first: nat, last: nat): (end: nat)
    requires first <= last <= U64_MAX
    ensures first <= end <= last
    ensures end - first < WINDOW_BYTES
    ensures end == last || end == first + WINDOW_BYTES - 1
  {
    var end := SaturatingAdd(first, WINDOW_BYTES - 1);
    if end < last then end else last
  }

  /** Where the next window starts, once one ending at `end` is done. */
  function After(end: nat): nat { SaturatingAdd(end, 1) }

  /** The windows the relay asks for, in the order it asks. */
  function Windows(first: nat, last: nat): seq<Window>
    requires last < U64_MAX
    decreases last + 1 - first
  {
    if first > last then []
    else
      var end := WindowEnd(first, last);
      [Window(first, end)] + Windows(After(end), last)
  }

  lemma WindowsCons(next: nat, last: nat)
    requires next <= last < U64_MAX
    ensures var w := Window(next, WindowEnd(next, last));
            Windows(next, last) == [w] + Windows(w.last + 1, last)
  {
  }

  ghost predicate Tiles(ws: seq<Window>, first: nat, last: nat) {
    && |ws| > 0 && ws[0].first == first && ws[|ws| - 1].last == last
    && (forall i | 0 <= i < |ws| :: 1 <= ws[i].Length() <= WINDOW_BYTES)
    && (forall i | 0 <= i < |ws| - 1 :: ws[i].Length() == WINDOW_BYTES)
    && (forall i | 0 <= i < |ws| - 1 :: ws[i + 1].first == ws[i].last + 1)
  }

  lemma TilesCons(w: Window, rest: seq<Window>, last: nat)
    requires w.Length() == WINDOW_BYTES && Tiles(rest, w.last + 1, last)
    ensures Tiles([w] + rest, w.first, last)
  {
    var ws := [w] + rest;
    assert forall i | 1 <= i < |ws| :: ws[i] == rest[i - 1];
    forall i | 0 <= i < |ws| - 1 ensures ws[i].Length() == WINDOW_BYTES && ws[i + 1].first == ws[i].last + 1 {
      if i > 0 { assert rest[i - 1].Length() == WINDOW_BYTES && rest[i].first == rest[i - 1].last + 1; }
    }
  }

  lemma WindowsNone(last: nat)
    requires last < U64_MAX
    ensures Windows(last + 1, last) == []
  {
  }

  lemma TilesOne(w: Window)
    requires w.first <= w.last && w.Length() <= WINDOW_BYTES
    ensures Tiles([w], w.first, w.last)
  {
  }

  /** The windows tile the read: consecutive, disjoint, bounded, and only the last one short. */
  lemma {:induction false} WindowsTile(first: nat, last: nat)
    requires first <= last < U64_MAX
    ensures Tiles(Windows(first, last), first, last)
    ensures |Windows(first, last)| == (last - first) / WINDOW_BYTES + 1
    decreases last - first
  {
    hide Windows, Tiles, WindowEnd;
    var w := Window(first, WindowEnd(first, last));
    WindowsCons(first, last);
    if w.last < last {
      WindowsTile(w.last + 1, last);
      TilesCons(w, Windows(w.last + 1, last), last);
      assert (last - first - WINDOW_BYTES) / WINDOW_BYTES + 1 == (last - first) / WINDOW_BYTES;
    } else {
      WindowsNone(last);
      TilesOne(w);
      assert [w] + [] == [w];
    }
  }

  /** Where a walk stands after so many windows, whatever its end; it stops once it stands past that end. */
  function Stands(first: nat, last: nat, windows: nat): (at: nat)
    requires first <= last <= U64_MAX
    ensures at <= U64_MAX
  {
    if windows == 0 then first
    else
      var at := Stands(first, last, windows - 1);
      if at > last then at else After(WindowEnd(at, last))
  }

  lemma EnoughWindows(span: nat, windows: nat)
    ensures windows * WINDOW_BYTES > span <==> windows > span / WINDOW_BYTES
  {
  }

  /** Window after window the walk steps on by a whole one, until the end's own window is behind it. */
  lemma {:induction false} StandsAt(first: nat, last: nat, windows: nat)
    requires first <= last <= U64_MAX
    ensures Stands(first, last, windows)
         == if first + windows * WINDOW_BYTES <= last then first + windows * WINDOW_BYTES else After(last)
  {
    if windows > 0 { StandsAt(first, last, windows - 1); }
  }

  /**
   A walk ends exactly when its end is below the greatest `u64`, and then after
   the windows that tile it. At the greatest `u64` the step past the end
   saturates, and the last byte would be asked for over and over.
   */
  lemma WalkEndsIff(first: nat, last: nat)
    requires first <= last <= U64_MAX
    ensures (exists windows: nat :: Stands(first, last, windows) > last) <==> last < U64_MAX
    ensures last < U64_MAX ==>
              forall windows: nat :: Stands(first, last, windows) > last <==> windows >= |Windows(first, last)|
    ensures last == U64_MAX ==>
              forall windows: nat | windows > (last - first) / WINDOW_BYTES ::
                Stands(first, last, windows) == last && WindowEnd(Stands(first, last, windows), last) == last
  {
    hide Stands, Windows;
    forall windows: nat
      ensures Stands(first, last, windows)
           == if first + windows * WINDOW_BYTES <= last then first + windows * WINDOW_BYTES else After(last)
    {
      StandsAt(first, last, windows);
    }
    forall windows: nat ensures first + windows * WINDOW_BYTES > last <==> windows > (last - first) / WINDOW_BYTES {
      EnoughWindows(last - first, windows);
    }
    var enough := (last - first) / WINDOW_BYTES + 1;
    assert Stands(first, last, enough) == After(last);
    if last < U64_MAX { WindowsTile(first, last); }
  }

  // ------------------------------------------------------------ the device's side

  datatype Upload = Chunk(data: seq<Byte>) | Break

  datatype Fault = UploadBroke | Overrun | Short

  datatype Frame = Bytes(data: seq<Byte>) | Broken(why: Fault)

  datatype Status = NoContent | Unprocessable | Gone

  /** What one arrival makes of an answer: a frame passed and a new count, or the end of it. */
  datatype Piped = Pass(sent: nat, frame: Frame) | Stop(parting: Option<Frame>, status: Status)

  function OnUpload(expected: nat, sent: nat, upload: Upload): Piped {
    match upload
    case Break => Stop(Some(Broken(UploadBroke)), Unprocessable)
    case Chunk(data) =>
      var now := SaturatingAdd(sent, |data|);
      if now > expected then Stop(Some(Broken(Overrun)), Unprocessable)
      else Pass(now, Bytes(data))
  }

  function OnEnd(expected: nat, sent: nat): Piped {
    if sent < expected then Stop(Some(Broken(Short)), Unprocessable) else Stop(None, NoContent)
  }

  function Tail(frame: Option<Frame>): seq<Frame> {
    if frame.Some? then [frame.value] else []
  }

  /** Every frame an answer makes, and how the device is answered, while the browser listens. */
  function Answered(expected: nat, sent: nat, uploads: seq<Upload>): (seq<Frame>, Status)
    decreases |uploads|
  {
    if uploads == [] then
      var end := OnEnd(expected, sent);
      (Tail(end.parting), end.status)
    else
      match OnUpload(expected, sent, uploads[0])
      case Stop(frame, status) => (Tail(frame), status)
      case Pass(now, frame) =>
        var (frames, status) := Answered(expected, now, uploads[1..]);
        ([frame] + frames, status)
  }

  lemma AnsweredStep(expected: nat, sent: nat, uploads: seq<Upload>, i: nat)
    requires i < |uploads|
    ensures Answered(expected, sent, uploads[i..])
         == match OnUpload(expected, sent, uploads[i])
            case Stop(frame, status) => (Tail(frame), status)
            case Pass(now, frame) =>
              var (frames, status) := Answered(expected, now, uploads[i + 1..]);
              ([frame] + frames, status)
  {
    hide OnUpload, Tail;
    assert uploads[i..][0] == uploads[i] && uploads[i..][1..] == uploads[i + 1..];
  }

  lemma AnsweredEnd(expected: nat, sent: nat, uploads: seq<Upload>)
    ensures Answered(expected, sent, uploads[|uploads|..])
         == (Tail(OnEnd(expected, sent).parting), OnEnd(expected, sent).status)
  {
  }

  /** A part is a frame that is not the browser's own to refuse: at most one, and it is not bytes. */
  lemma StopParts(expected: nat, sent: nat, upload: Upload)
    ensures OnUpload(expected, sent, upload).Stop? ==>
              var stop := OnUpload(expected, sent, upload);
              stop.parting.Some? && stop.parting.value.Broken? && stop.status != Gone
    ensures var end := OnEnd(expected, sent);
            end.Stop? && end.status != Gone && (end.parting.Some? ==> end.parting.value.Broken?)
  {
  }

  /**
   Passes one answer on. The browser takes `heard` frames and then goes away:
   a send after that fails.
   */
  method Pipe(expected: nat, uploads: seq<Upload>, heard: nat)
    returns (frames: seq<Frame>, status: Status)
    ensures var (all, answered) := Answered(expected, 0, uploads);
            && frames == (if |all| <= heard then all else all[..heard])
            && (status == answered || (status == Gone && heard < |all|))
            && (heard >= |all| ==> status == answered)
            && (heard < |all| && all[heard].Bytes? ==> status == Gone)
  {
    hide Answered, OnUpload, OnEnd;
    frames := [];
    var sent := 0;
    var i := 0;
    ghost var all := Answered(expected, 0, uploads);
    assert uploads[0..] == uploads;
    while i < |uploads|
      invariant 0 <= i <= |uploads|
      invariant |frames| <= heard && |frames| == i
      invariant all.0 == frames + Answered(expected, sent, uploads[i..]).0
      invariant all.1 == Answered(expected, sent, uploads[i..]).1
    {
      AnsweredStep(expected, sent, uploads, i);
      StopParts(expected, sent, uploads[i]);
      match OnUpload(expected, sent, uploads[i])
      case Stop(frame, answer) =>
        assert all.0 == frames + Tail(frame);
        if |frames| < heard { frames := frames + Tail(frame); }
        return frames, answer;
      case Pass(now, frame) =>
        if |frames| == heard {
          assert all.0[heard] == frame;
          return frames, Gone;
        }
        frames := frames + [frame];
        sent := now;
        i := i + 1;
    }
    AnsweredEnd(expected, sent, uploads);
    StopParts(expected, sent, Break);
    var end := OnEnd(expected, sent);
    assert all.0 == frames + Tail(end.parting);
    if |frames| < heard { frames := frames + Tail(end.parting); }
    status := end.status;
  }

  function Payload(frames: seq<Frame>): seq<Byte> {
    if frames == [] then []
    else (if frames[0].Bytes? then frames[0].data else []) + Payload(frames[1..])
  }

  function Data(uploads: seq<Upload>): seq<Byte> {
    if uploads == [] then []
    else (if uploads[0].Chunk? then uploads[0].data else []) + Data(uploads[1..])
  }

  predicate Unbroken(frames: seq<Frame>) {
    forall f :: f in frames ==> f.Bytes?
  }

  predicate Whole(uploads: seq<Upload>) {
    forall u :: u in uploads ==> u.Chunk?
  }

  lemma {:induction false} PayloadAppend(a: seq<Frame>, b: seq<Frame>)
    ensures Payload(a + b) == Payload(a) + Payload(b)
  {
    if a == [] {
      assert a + b == b;
    } else {
      PayloadAppend(a[1..], b);
      assert (a + b)[1..] == a[1..] + b;
    }
  }

  lemma UploadStep(expected: nat, sent: nat, upload: Upload)
    requires sent <= expected < U64_MAX
    ensures match OnUpload(expected, sent, upload)
            case Pass(now, frame) =>
              upload.Chunk? && now == sent + |upload.data| && now <= expected && frame == Bytes(upload.data)
            case Stop(parting, status) =>
              && (upload.Chunk? ==> sent + |upload.data| > expected)
              && parting.Some? && parting.value.Broken? && status == Unprocessable
  {
  }

  lemma FramesCons(frame: Frame, rest: seq<Frame>)
    ensures Payload([frame] + rest) == (if frame.Bytes? then frame.data else []) + Payload(rest)
    ensures Unbroken([frame] + rest) <==> frame.Bytes? && Unbroken(rest)
  {
    var frames := [frame] + rest;
    assert frames[1..] == rest && frames[0] == frame;
    if Unbroken(frames) {
      assert frame in frames;
      forall f | f in rest ensures f.Bytes? { assert f in frames; }
    }
  }

  lemma UploadsCons(uploads: seq<Upload>)
    requires uploads != []
    ensures Data(uploads) == (if uploads[0].Chunk? then uploads[0].data else []) + Data(uploads[1..])
    ensures Whole(uploads) <==> uploads[0].Chunk? && Whole(uploads[1..])
  {
    assert uploads == [uploads[0]] + uploads[1..];
  }

  /** What an answer comes to, between the bytes already sent and the bytes expected. */
  ghost predicate AnswerIs(expected: nat, sent: nat, uploads: seq<Upload>, frames: seq<Frame>, status: Status) {
    && sent + |Payload(frames)| <= expected
    && Payload(frames) <= Data(uploads)
    && (status == NoContent <==> Whole(uploads) && sent + |Data(uploads)| == expected)
    && (status == NoContent <==> Unbroken(frames))
    && (status == NoContent ==> Payload(frames) == Data(uploads))
    && status != Gone
  }

  lemma NoFrames()
    ensures Payload([]) == [] && Data([]) == [] && Unbroken([]) && Whole([])
  {
  }

  lemma AnswerStops(expected: nat, sent: nat, uploads: seq<Upload>, fault: Fault)
    requires sent <= expected && uploads != []
    requires uploads[0].Chunk? ==> sent + |uploads[0].data| > expected
    ensures AnswerIs(expected, sent, uploads, [Broken(fault)], Unprocessable)
  {
    hide Payload, Data, Whole, Unbroken;
    UploadsCons(uploads);
    FramesCons(Broken(fault), []);
    assert [Broken(fault)] + [] == [Broken(fault)];
    NoFrames();
  }

  lemma AnswerPasses(expected: nat, sent: nat, uploads: seq<Upload>, rest: seq<Frame>, status: Status)
    requires uploads != [] && uploads[0].Chunk?
    requires AnswerIs(expected, sent + |uploads[0].data|, uploads[1..], rest, status)
    ensures AnswerIs(expected, sent, uploads, [Bytes(uploads[0].data)] + rest, status)
  {
    hide Payload, Data, Whole, Unbroken;
    UploadsCons(uploads);
    FramesCons(Bytes(uploads[0].data), rest);
  }

  lemma AnswerEnds(expected: nat, sent: nat)
    requires sent <= expected
    ensures AnswerIs(expected, sent, [], Answered(expected, sent, []).0, Answered(expected, sent, []).1)
  {
  }

  /**
   An answer is accepted exactly when it is whole and carries exactly the
   bytes asked for; otherwise its frames end in an error. Never is more
   passed on than was asked for, and what is passed on is the upload's own
   beginning.
   */
  lemma {:induction false} AnswerExact(expected: nat, sent: nat, uploads: seq<Upload>)
    requires sent <= expected < U64_MAX
    ensures AnswerIs(expected, sent, uploads, Answered(expected, sent, uploads).0, Answered(expected, sent, uploads).1)
    decreases |uploads|
  {
    hide AnswerIs, OnUpload;
    if uploads == [] {
      AnswerEnds(expected, sent);
    } else {
      UploadStep(expected, sent, uploads[0]);
      match OnUpload(expected, sent, uploads[0])
      case Stop(frame, status) =>
        AnswerStops(expected, sent, uploads, frame.value.why);
      case Pass(now, frame) =>
        AnswerExact(expected, now, uploads[1..]);
        var (rest, status) := Answered(expected, now, uploads[1..]);
        AnswerPasses(expected, sent, uploads, rest, status);
    }
  }

  /** Chunks as the frames they are passed on as. */
  function Passed(uploads: seq<Upload>): seq<Frame>
    requires Whole(uploads)
  {
    seq(|uploads|, i requires 0 <= i < |uploads| => Bytes(uploads[i].data))
  }

  /** An answer told by the first arrival that faults it: those before it are passed on, and it alone is refused. */
  ghost predicate FaultedAt(expected: nat, sent: nat, uploads: seq<Upload>, i: nat, frames: seq<Frame>,
                            status: Status)
  {
    && i <= |uploads| && Whole(uploads[..i]) && sent + |Data(uploads[..i])| <= expected
    && var passed := Passed(uploads[..i]);
       if i == |uploads| then
         if sent + |Data(uploads)| == expected then frames == passed && status == NoContent
         else frames == passed + [Broken(Short)] && status == Unprocessable
       else
         && status == Unprocessable
         && if uploads[i].Break? then frames == passed + [Broken(UploadBroke)]
            else sent + |Data(uploads[..i])| + |uploads[i].data| > expected && frames == passed + [Broken(Overrun)]
  }

  lemma FaultedLater(expected: nat, sent: nat, first: Upload, rest: seq<Upload>, i: nat, frames: seq<Frame>,
                     status: Status)
    requires first.Chunk? && FaultedAt(expected, sent + |first.data|, rest, i, frames, status)
    ensures FaultedAt(expected, sent, [first] + rest, i + 1, [Bytes(first.data)] + frames, status)
  {
    hide Whole, Data;
    var uploads := [first] + rest;
    UploadsCons(uploads);
    UploadsCons(uploads[..i + 1]);
    assert uploads[..i + 1] == [first] + rest[..i] && uploads[..i + 1][1..] == rest[..i] && uploads[1..] == rest;
    assert Passed(uploads[..i + 1]) == [Bytes(first.data)] + Passed(rest[..i]);
  }

  lemma FaultedNow(expected: nat, sent: nat, uploads: seq<Upload>)
    requires sent <= expected < U64_MAX
    requires uploads != [] ==> OnUpload(expected, sent, uploads[0]).Stop?
    ensures var (frames, status) := Answered(expected, sent, uploads);
            FaultedAt(expected, sent, uploads, 0, frames, status)
  {
    assert uploads[..0] == [];
  }

  /** So the answer is refused for exactly one reason, and everything before it has reached the browser. */
  lemma {:induction false} AnswerFaults(expected: nat, sent: nat, uploads: seq<Upload>) returns (i: nat)
    requires sent <= expected < U64_MAX
    ensures var (frames, status) := Answered(expected, sent, uploads);
            FaultedAt(expected, sent, uploads, i, frames, status)
    decreases |uploads|
  {
    hide OnUpload, FaultedAt;
    if uploads == [] || OnUpload(expected, sent, uploads[0]).Stop? {
      i := 0;
      FaultedNow(expected, sent, uploads);
    } else {
      UploadStep(expected, sent, uploads[0]);
      var (first, rest) := (uploads[0], uploads[1..]);
      i := AnswerFaults(expected, sent + |first.data|, rest);
      var (frames, status) := Answered(expected, sent + |first.data|, rest);
      FaultedLater(expected, sent, first, rest, i, frames, status);
      assert uploads == [first] + rest;
      i := i + 1;
    }
  }

  // ------------------------------------------------------------ the browser's side

  /** What a read of the frames channel comes to; the channel closes after the last. */
  datatype Event = Got(frame: Frame) | Silence

  /** What asking for a window comes to. */
  datatype Opening = Opened(events: seq<Event>) | Unopened

  datatype Ending = Clean | BrokenOff

  datatype Body = Body(bytes: seq<Byte>, ending: Ending, asked: seq<Window>) {
    function Before(data: seq<Byte>): Body { this.(bytes := data + bytes) }
    function Asking(w: Window): Body { this.(asked := [w] + asked) }
  }

  function Ahead(next: nat, last: nat): nat {
    if next > last then 0 else last + 1 - next
  }

  /** Everything the browser still receives, from any point of a body. */
  function Rest(owed: nat, next: nat, last: nat, events: seq<Event>, ahead: seq<Opening>): Body
    requires last < U64_MAX
    decreases Ahead(next, last), |events|
  {
    if events == [] then
      if owed > 0 then Body([], BrokenOff, [])
      else if next > last then Body([], Clean, [])
      else
        var end := WindowEnd(next, last);
        var opening := if ahead == [] then Unopened else ahead[0];
        (match opening
         case Unopened => Body([], BrokenOff, [])
         case Opened(arriving) => Rest(end - next + 1, After(end), last, arriving, ahead[1..])
        ).Asking(Window(next, end))
    else
      match events[0]
      case Silence => Body([], BrokenOff, [])
      case Got(Broken(_)) => Body([], BrokenOff, [])
      case Got(Bytes(data)) =>
        var left := if owed > |data| then owed - |data| else 0;
        Rest(left, next, last, events[1..], ahead).Before(data)
  }

  /** How many frames the windows not yet asked for will bring. */
  function FramesAhead(ahead: seq<Opening>): nat {
    if ahead == [] then 0 else (if ahead[0].Opened? then |ahead[0].events| else 0) + FramesAhead(ahead[1..])
  }

  /** One body being read: `ahead` is what the device will make of each window not yet asked for. */
  class Flow {
    var owed: nat
    var next: nat
    const last: nat
    var frames: seq<Event>
    var ahead: seq<Opening>
    var live: bool
    var asked: seq<Window>

    ghost predicate Valid() reads this { last < U64_MAX }

    ghost function Remaining(): Body
      reads this
      requires Valid()
    {
      if live then Rest(owed, next, last, frames, ahead) else Body([], Clean, [])
    }

    /** The frames the body has not taken yet. */
    ghost function Untaken(): nat reads this { |frames| + FramesAhead(ahead) }

    constructor (first: nat, last: nat, frames: seq<Event>, ahead: seq<Opening>)
      requires first <= last < U64_MAX
      ensures Valid() && live && this.last == last
      ensures Remaining()
           == Rest(WindowEnd(first, last) - first + 1, After(WindowEnd(first, last)), last, frames, ahead)
      ensures asked == [Window(first, WindowEnd(first, last))]
    {
      var end := WindowEnd(first, last);
      this.owed := end - first + 1;
      this.next := After(end);
      this.last := last;
      this.frames := frames;
      this.ahead := ahead;
      this.live := true;
      this.asked := [Window(first, end)];
    }

    /** The body's next item: some bytes, the failure that ends it, or its end. */
    method Next() returns (item: Option<Result<seq<Byte>, ()>>)
      requires Valid()
      modifies this
      ensures Valid()
      ensures item == None ==> old(Remaining().bytes) == [] && old(Remaining().ending) == Clean && !live
      ensures item.Some? && item.value.Err? ==>
                old(Remaining().bytes) == [] && old(Remaining().ending) == BrokenOff && !live
      ensures item.Some? && item.value.Ok? ==>
                && live
                && old(Remaining().bytes) == item.value.value + Remaining().bytes
                && old(Remaining().ending) == Remaining().ending
                && Untaken() < old(Untaken())
      ensures old(asked + Remaining().asked) == asked + Remaining().asked
    {
      if !live { return None; }
      ghost var all := Remaining();
      while true
        invariant Valid() && live
        invariant Remaining().bytes == all.bytes && Remaining().ending == all.ending
        invariant asked + Remaining().asked == old(asked) + all.asked
        invariant Untaken() <= old(Untaken())
        decreases Ahead(next, last)
      {
        if frames != [] {
          var event := frames[0];
          match event
          case Silence =>
            live := false;
            return Some(Err(()));
          case Got(Broken(_)) =>
            live := false;
            return Some(Err(()));
          case Got(Bytes(data)) =>
            frames := frames[1..];
            owed := if owed > |data| then owed - |data| else 0;
            return Some(Ok(data));
        } else if owed > 0 {
          live := false;
          return Some(Err(()));
        } else if next > last {
          live := false;
          return None;
        }
        var end := WindowEnd(next, last);
        var opening := if ahead == [] then Unopened else ahead[0];
        ghost var was := Remaining();
        asked := asked + [Window(next, end)];
        if opening.Unopened? {
          live := false;
          return Some(Err(()));
        }
        frames, ahead := opening.events, ahead[1..];
        owed, next := end - next + 1, After(end);
        assert was == Remaining().Asking(Window(end + 1 - owed, end));
      }
    }
  }

  /** The browser's side of a body: item after item until it ends or breaks. */
  method ReadOut(flow: Flow) returns (bytes: seq<Byte>, clean: bool)
    requires flow.Valid()
    modifies flow
    ensures flow.Valid() && !flow.live
    ensures bytes == old(flow.Remaining().bytes)
    ensures clean <==> old(flow.Remaining().ending) == Clean
    ensures flow.asked == old(flow.asked + flow.Remaining().asked)
  {
    bytes := [];
    ghost var all := flow.Remaining();
    while true
      invariant flow.Valid()
      invariant bytes + flow.Remaining().bytes == all.bytes && flow.Remaining().ending == all.ending
      invariant flow.asked + flow.Remaining().asked == old(flow.asked) + all.asked
      decreases flow.Untaken()
    {
      var item := flow.Next();
      if item.None? || item.value.Err? {
        assert flow.Remaining() == Body([], Clean, []);
        return bytes, item.None?;
      }
      bytes := bytes + item.value.value;
    }
  }

  // ------------------------------------------------------------ every device

  /** A device's conduct over one window: it may fall silent after so many frames. */
  datatype Conduct = Answers(uploads: seq<Upload>, stall: Option<nat>) | NoShow

  function Heard(frames: seq<Frame>, stall: Option<nat>): seq<Event> {
    if stall == Some(0) then [Silence]
    else if frames == [] then (if stall.Some? then [Silence] else [])
    else [Got(frames[0])] + Heard(frames[1..], if stall.Some? then Some(stall.value - 1) else None)
  }

  function OpeningOf(conduct: Conduct, w: Window): Opening
    requires w.first <= w.last
  {
    match conduct
    case NoShow => Unopened
    case Answers(uploads, stall) => Opened(Heard(Answered(w.Length(), 0, uploads).0, stall))
  }

  function Openings(conducts: seq<Conduct>, next: nat, last: nat): seq<Opening>
    requires last < U64_MAX
    decreases |conducts|
  {
    if conducts == [] || next > last then []
    else
      var end := WindowEnd(next, last);
      [OpeningOf(conducts[0], Window(next, end))] + Openings(conducts[1..], After(end), last)
  }

  /** The body of one read, or nothing where the first window was never answered. */
  function Relay(first: nat, last: nat, conducts: seq<Conduct>): Option<Body>
    requires first <= last < U64_MAX
  {
    var end := WindowEnd(first, last);
    var openings := Openings(conducts, first, last);
    if openings == [] || openings[0].Unopened? then None
    else
      Some(Rest(end - first + 1, After(end), last, openings[0].events, openings[1..]).Asking(Window(first, end)))
  }

  /** Opens the first window, and answers the declared length and the body, or an error and no body. */
  method Serve(first: nat, last: nat, conducts: seq<Conduct>) returns (length: nat, flow: Flow?)
    requires first <= last < U64_MAX
    ensures flow == null <==> Relay(first, last, conducts).None?
    ensures flow != null ==>
              && fresh(flow) && flow.Valid() && flow.live
              && length == last - first + 1
              && flow.Remaining().bytes == Relay(first, last, conducts).value.bytes
              && flow.Remaining().ending == Relay(first, last, conducts).value.ending
              && flow.asked + flow.Remaining().asked == Relay(first, last, conducts).value.asked
  {
    length := last - first + 1;
    flow := null;
    var openings := Openings(conducts, first, last);
    if openings != [] && openings[0].Opened? {
      flow := new Flow(first, last, openings[0].events, openings[1..]);
    }
  }

  ghost predicate Faithful(conduct: Conduct, w: Window) {
    && conduct.Answers?
    && conduct.stall.None?
    && Whole(conduct.uploads)
    && |Data(conduct.uploads)| == w.Length()
  }

  ghost predicate AllFaithful(conducts: seq<Conduct>, ws: seq<Window>) {
    |ws| <= |conducts| && forall i | 0 <= i < |ws| :: Faithful(conducts[i], ws[i])
  }

  function Together(conducts: seq<Conduct>): seq<Byte> {
    if conducts == [] then []
    else (if conducts[0].Answers? then Data(conducts[0].uploads) else []) + Together(conducts[1..])
  }

  /** What reading a window's frames out makes of the body. */
  ghost predicate Drained(body: Body, frames: seq<Frame>, stall: Option<nat>, owed: nat, onward: Body) {
    if Unbroken(frames) && stall.None? && |Payload(frames)| == owed then body == onward.Before(Payload(frames))
    else body.ending == BrokenOff && body.bytes <= Payload(frames) && body.asked == []
  }

  lemma DrainCons(rest: Body, frame: Frame, frames: seq<Frame>, stall: Option<nat>, owed: nat, onward: Body)
    requires frame.Bytes? && |frame.data| <= owed
    requires Drained(rest, frames, stall, owed - |frame.data|, onward)
    ensures Drained(rest.Before(frame.data), [frame] + frames, stall, owed, onward)
  {
    hide Payload, Unbroken;
    FramesCons(frame, frames);
    assert frame.data + (Payload(frames) + onward.bytes) == Payload([frame] + frames) + onward.bytes;
  }

  function Less(stall: Option<nat>): Option<nat> {
    if stall.Some? && stall.value > 0 then Some(stall.value - 1) else stall
  }

  lemma HeardCons(frames: seq<Frame>, stall: Option<nat>)
    requires frames != [] && stall != Some(0)
    ensures Heard(frames, stall) == [Got(frames[0])] + Heard(frames[1..], Less(stall))
    ensures Heard(frames, stall)[1..] == Heard(frames[1..], Less(stall))
  {
  }

  lemma RestReads(data: seq<Byte>, owed: nat, next: nat, last: nat, events: seq<Event>, ahead: seq<Opening>)
    requires last < U64_MAX && |data| <= owed
    ensures Rest(owed, next, last, [Got(Bytes(data))] + events, ahead)
         == Rest(owed - |data|, next, last, events, ahead).Before(data)
  {
    assert ([Got(Bytes(data))] + events)[1..] == events;
  }

  lemma RestStops(why: Fault, owed: nat, next: nat, last: nat, events: seq<Event>, ahead: seq<Opening>)
    requires last < U64_MAX
    ensures Rest(owed, next, last, [Got(Broken(why))] + events, ahead) == Body([], BrokenOff, [])
    ensures Rest(owed, next, last, [Silence], ahead) == Body([], BrokenOff, [])
    ensures owed > 0 ==> Rest(owed, next, last, [], ahead) == Body([], BrokenOff, [])
  {
  }

  lemma DrainNothing(owed: nat, next: nat, last: nat, ahead: seq<Opening>)
    requires last < U64_MAX
    ensures Drained(Rest(owed, next, last, [], ahead), [], None, owed, Rest(0, next, last, [], ahead))
  {
    var onward := Rest(0, next, last, [], ahead);
    assert [] + onward.bytes == onward.bytes;
  }

  lemma HeardNothing(frames: seq<Frame>, stall: Option<nat>)
    requires stall == Some(0) || frames == []
    ensures Heard(frames, stall) == if stall.Some? then [Silence] else []
  {
  }

  /** One window's frames read out: whole and paid in full, or the end of the body. */
  lemma {:induction false} DrainWindow(
    frames: seq<Frame>, stall: Option<nat>, owed: nat, next: nat, last: nat, ahead: seq<Opening>)
    requires last < U64_MAX && |Payload(frames)| <= owed
    ensures Drained(Rest(owed, next, last, Heard(frames, stall), ahead), frames, stall, owed,
                    Rest(0, next, last, [], ahead))
    decreases |frames|
  {
    hide Rest, Heard, Unbroken, Payload;
    var onward := Rest(0, next, last, [], ahead);
    if stall == Some(0) || frames == [] {
      HeardNothing(frames, stall);
      RestStops(Short, owed, next, last, [], ahead);
      DrainNothing(owed, next, last, ahead);
    } else {
      HeardCons(frames, stall);
      assert frames == [frames[0]] + frames[1..];
      FramesCons(frames[0], frames[1..]);
      if frames[0].Bytes? {
        RestReads(frames[0].data, owed, next, last, Heard(frames[1..], Less(stall)), ahead);
        DrainWindow(frames[1..], Less(stall), owed - |frames[0].data|, next, last, ahead);
        DrainCons(Rest(owed - |frames[0].data|, next, last, Heard(frames[1..], Less(stall)), ahead),
                  frames[0], frames[1..], Less(stall), owed, onward);
      } else {
        RestStops(frames[0].why, owed, next, last, Heard(frames[1..], Less(stall)), ahead);
      }
    }
  }

  lemma AllFaithfulSplit(conducts: seq<Conduct>, w: Window, later: seq<Window>)
    requires conducts != []
    ensures AllFaithful(conducts, [w] + later) <==> Faithful(conducts[0], w) && AllFaithful(conducts[1..], later)
  {
    var ws := [w] + later;
    if Faithful(conducts[0], w) && AllFaithful(conducts[1..], later) {
      forall i | 0 <= i < |ws| ensures Faithful(conducts[i], ws[i]) {
        if i > 0 { assert conducts[1..][i - 1] == conducts[i] && later[i - 1] == ws[i]; }
      }
    }
    if AllFaithful(conducts, ws) {
      assert Faithful(conducts[0], ws[0]);
      forall i | 0 <= i < |later| ensures Faithful(conducts[1..][i], later[i]) {
        assert Faithful(conducts[i + 1], ws[i + 1]);
      }
    }
  }

  /** The frames of an answer pay a window in full exactly when the device was faithful. */
  lemma FaithfulIff(conduct: Conduct, w: Window)
    requires conduct.Answers? && 1 <= w.Length() < U64_MAX
    ensures var frames := Answered(w.Length(), 0, conduct.uploads).0;
            && |Payload(frames)| <= w.Length()
            && Payload(frames) <= Data(conduct.uploads)
            && (Faithful(conduct, w) <==>
                  Unbroken(frames) && conduct.stall.None? && |Payload(frames)| == w.Length())
            && (Faithful(conduct, w) ==> Payload(frames) == Data(conduct.uploads))
  {
    AnswerExact(w.Length(), 0, conduct.uploads);
  }

  /** One answered window from a boundary: faithful and on to the next, or the end of the body. */
  lemma WindowStep(next: nat, last: nat, conducts: seq<Conduct>)
    requires next <= last < U64_MAX && conducts != [] && conducts[0].Answers?
    ensures var w := Window(next, WindowEnd(next, last));
            var data := Data(conducts[0].uploads);
            var body := Rest(0, next, last, [], Openings(conducts, next, last));
            var onward := Rest(0, w.last + 1, last, [], Openings(conducts[1..], w.last + 1, last));
            if Faithful(conducts[0], w) then
              body == onward.Before(data).Asking(w)
            else
              body.ending == BrokenOff && body.bytes <= data && |body.bytes| <= w.Length() && body.asked == [w]
  {
    hide Answered, Faithful, Heard, Data;
    var w := Window(next, WindowEnd(next, last));
    var frames := Answered(w.Length(), 0, conducts[0].uploads).0;
    FaithfulIff(conducts[0], w);
    var ahead := Openings(conducts[1..], w.last + 1, last);
    assert Openings(conducts, next, last)[1..] == ahead;
    DrainWindow(frames, conducts[0].stall, w.Length(), w.last + 1, last, ahead);
  }

  /** What a body is worth from a window boundary on. */
  ghost predicate Exact(body: Body, next: nat, last: nat, conducts: seq<Conduct>)
    requires last < U64_MAX && next <= last + 1
  {
    var ws := Windows(next, last);
    && |body.bytes| <= last + 1 - next
    && body.bytes <= Together(conducts)
    && body.asked <= ws
    && (body.ending == Clean <==> AllFaithful(conducts, ws))
    && (body.ending == Clean ==>
          && body.bytes == Together(conducts[..|ws|])
          && |body.bytes| == last + 1 - next
          && body.asked == ws)
  }

  /** A window that is not opened ends the body, and with it every claim to be faithful. */
  lemma UnopenedStep(next: nat, last: nat, conducts: seq<Conduct>)
    requires next <= last < U64_MAX && (conducts == [] || conducts[0].NoShow?)
    ensures Rest(0, next, last, [], Openings(conducts, next, last))
         == Body([], BrokenOff, [Window(next, WindowEnd(next, last))])
    ensures !AllFaithful(conducts, Windows(next, last))
  {
    WindowsCons(next, last);
    hide Windows, WindowEnd;
    if |Windows(next, last)| <= |conducts| { assert !Faithful(conducts[0], Windows(next, last)[0]); }
  }

  lemma TogetherCons(conducts: seq<Conduct>, n: nat)
    requires 0 < n <= |conducts| && conducts[0].Answers?
    ensures Together(conducts[..n]) == Data(conducts[0].uploads) + Together(conducts[1..][..n - 1])
  {
    assert conducts[..n][1..] == conducts[1..][..n - 1];
  }

  /** A body that goes on from one faithful window is worth what it was worth there and the window's own. */
  lemma ExactStep(next: nat, last: nat, conducts: seq<Conduct>, onward: Body)
    requires next <= last < U64_MAX && conducts != []
    requires var w := Window(next, WindowEnd(next, last));
             Faithful(conducts[0], w) && Exact(onward, w.last + 1, last, conducts[1..])
    ensures var w := Window(next, WindowEnd(next, last));
            Exact(onward.Before(Data(conducts[0].uploads)).Asking(w), next, last, conducts)
  {
    var w := Window(next, WindowEnd(next, last));
    var later := Windows(w.last + 1, last);
    WindowsCons(next, last);
    AllFaithfulSplit(conducts, w, later);
    hide Windows, WindowEnd, AllFaithful, Data, Whole, Together;
    TogetherCons(conducts, |conducts|);
    assert conducts[..|conducts|] == conducts && conducts[1..][..|conducts| - 1] == conducts[1..];
    if |later| < |conducts| { TogetherCons(conducts, |later| + 1); }
  }

  lemma ExactNothing(next: nat, last: nat, conducts: seq<Conduct>)
    requires last < U64_MAX && next == last + 1
    ensures Exact(Rest(0, next, last, [], Openings(conducts, next, last)), next, last, conducts)
  {
    assert conducts[..0] == [];
  }

  lemma ExactBroken(next: nat, last: nat, conducts: seq<Conduct>, body: Body)
    requires next <= last < U64_MAX && conducts != [] && conducts[0].Answers?
    requires var w := Window(next, WindowEnd(next, last));
             && !Faithful(conducts[0], w) && body.ending == BrokenOff && body.asked == [w]
             && body.bytes <= Data(conducts[0].uploads) && |body.bytes| <= w.Length()
    ensures Exact(body, next, last, conducts)
  {
    var w := Window(next, WindowEnd(next, last));
    WindowsCons(next, last);
    AllFaithfulSplit(conducts, w, Windows(w.last + 1, last));
    hide Windows, AllFaithful, Faithful, Data;
  }

  lemma ExactUnopened(next: nat, last: nat, conducts: seq<Conduct>)
    requires next <= last < U64_MAX && !AllFaithful(conducts, Windows(next, last))
    ensures Exact(Body([], BrokenOff, [Window(next, WindowEnd(next, last))]), next, last, conducts)
  {
    WindowsCons(next, last);
    hide Windows, AllFaithful;
  }

  /** The whole of a read from one window boundary on, whatever each device does. */
  lemma {:induction false} BoundaryExact(next: nat, last: nat, conducts: seq<Conduct>)
    requires last < U64_MAX && next <= last + 1
    ensures Exact(Rest(0, next, last, [], Openings(conducts, next, last)), next, last, conducts)
    decreases last + 1 - next
  {
    hide Rest, Openings, Faithful, Exact, Windows, AllFaithful;
    if next > last {
      ExactNothing(next, last, conducts);
    } else if conducts != [] && conducts[0].Answers? {
      var w := Window(next, WindowEnd(next, last));
      WindowStep(next, last, conducts);
      if Faithful(conducts[0], w) {
        BoundaryExact(w.last + 1, last, conducts[1..]);
        ExactStep(next, last, conducts, Rest(0, w.last + 1, last, [], Openings(conducts[1..], w.last + 1, last)));
      } else {
        ExactBroken(next, last, conducts, Rest(0, next, last, [], Openings(conducts, next, last)));
      }
    } else {
      UnopenedStep(next, last, conducts);
      ExactUnopened(next, last, conducts);
    }
  }

  /**
   For every conduct of every device: the browser never receives more than
   the declared length, what it receives is the answers in order, and its
   body ends without error exactly when each window was answered whole, in
   time and to the byte.
   */
  lemma RelayExact(first: nat, last: nat, conducts: seq<Conduct>)
    requires first <= last < U64_MAX
    ensures var relayed := Relay(first, last, conducts);
            var ws := Windows(first, last);
            && (relayed.None? <==> conducts == [] || conducts[0].NoShow?)
            && (relayed.Some? ==>
                  && |relayed.value.bytes| <= last - first + 1
                  && relayed.value.bytes <= Together(conducts)
                  && relayed.value.asked <= ws
                  && (relayed.value.ending == Clean <==> AllFaithful(conducts, ws))
                  && (relayed.value.ending == Clean ==>
                        && |relayed.value.bytes| == last - first + 1
                        && relayed.value.bytes == Together(conducts[..|ws|])
                        && relayed.value.asked == ws))
  {
    BoundaryExact(first, last, conducts);
    var openings := Openings(conducts, first, last);
    var relayed := Relay(first, last, conducts);
    if relayed.Some? {
      assert relayed.value == Rest(0, first, last, [], openings);
    }
  }

  /** A device answering a window with the file's own bytes, at the length of the window. */
  ghost predicate Copies(conduct: Conduct, file: seq<Byte>, w: Window) {
    && w.first <= w.last < |file|
    && conduct.Answers? && conduct.stall.None? && Whole(conduct.uploads)
    && Data(conduct.uploads) == file[w.first..w.last + 1]
  }

  ghost predicate AllCopy(conducts: seq<Conduct>, file: seq<Byte>, ws: seq<Window>) {
    |conducts| == |ws| && forall i | 0 <= i < |ws| :: Copies(conducts[i], file, ws[i])
  }

  lemma CopiesAreFaithful(conducts: seq<Conduct>, file: seq<Byte>, ws: seq<Window>)
    requires AllCopy(conducts, file, ws)
    ensures AllFaithful(conducts, ws)
  {
    hide Whole, Data;
    forall i | 0 <= i < |ws| ensures Faithful(conducts[i], ws[i]) { assert Copies(conducts[i], file, ws[i]); }
  }

  lemma {:induction false} SlicesJoin(file: seq<Byte>, first: nat, last: nat, conducts: seq<Conduct>)
    requires first <= last + 1 && last < |file| <= U64_MAX
    requires AllCopy(conducts, file, Windows(first, last))
    ensures Together(conducts) == file[first..last + 1]
    decreases last + 1 - first
  {
    hide Windows, WindowEnd, Data, Whole;
    if first <= last {
      var w := Window(first, WindowEnd(first, last));
      var later := Windows(w.last + 1, last);
      WindowsCons(first, last);
      assert Copies(conducts[0], file, ([w] + later)[0]);
      forall i | 0 <= i < |later| ensures Copies(conducts[1..][i], file, later[i]) {
        assert Copies(conducts[i + 1], file, ([w] + later)[i + 1]);
      }
      SlicesJoin(file, w.last + 1, last, conducts[1..]);
      assert file[first..w.last + 1] + file[w.last + 1..last + 1] == file[first..last + 1];
    } else {
      WindowsNone(last);
    }
  }

  /** The device's copy of a file, answered window by window, reaches the browser as the range asked for. */
  lemma RangeServed(file: seq<Byte>, first: nat, last: nat, conducts: seq<Conduct>)
    requires first <= last < |file| <= U64_MAX
    requires AllCopy(conducts, file, Windows(first, last))
    ensures var relayed := Relay(first, last, conducts);
            relayed.Some? && relayed.value.ending == Clean && relayed.value.bytes == file[first..last + 1]
  {
    hide Relay, Windows, Together, AllFaithful, Data, Whole;
    var ws := Windows(first, last);
    RelayExact(first, last, conducts);
    CopiesAreFaithful(conducts, file, ws);
    SlicesJoin(file, first, last, conducts);
    WindowsCons(first, last);
    assert conducts[..|ws|] == conducts;
    assert Copies(conducts[0], file, ws[0]);
  }

  /** A whole download, from the opening of its first window to the end of its body. */
  method Download(first: nat, last: nat, conducts: seq<Conduct>)
    returns (length: nat, body: Option<seq<Byte>>, clean: bool)
    requires first <= last < U64_MAX
    ensures body.None? <==> conducts == [] || conducts[0].NoShow?
    ensures body.None? ==> !clean
    ensures body.Some? ==>
              && length == last - first + 1 && |body.value| <= length && body.value <= Together(conducts)
              && (clean <==> AllFaithful(conducts, Windows(first, last)))
              && (clean ==> |body.value| == length
                            && body.value == Together(conducts[..|Windows(first, last)|]))
  {
    hide Windows, AllFaithful, Together, Relay;
    RelayExact(first, last, conducts);
    var flow: Flow?;
    length, flow := Serve(first, last, conducts);
    if flow == null { return length, None, false; }
    var bytes;
    bytes, clean := ReadOut(flow);
    body := Some(bytes);
  }
}
