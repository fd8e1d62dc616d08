/**
 * An open session (Run in internal/chzzk/eio3/eio3.go) as a timed automaton: a ping timer, a deadline
 * timer, and the frames of the server. Timers are urgent: time does not pass one that has fired.
 */
module Eio3Run {
  import opened Eio3Packet
  import opened Text
  import opened Wrappers

  /** Milliseconds from the handshake, both positive. */
  datatype Timing = Timing(interval: int, timeout: int) {
    predicate Ok() {
      interval > 0 && timeout > 0
    }
  }

  datatype End = Cancelled | ReadFailed | WriteFailed | HeartbeatTimeout | ServerClosed

  /**
   * pingAt is None while the ping timer has fired and not been set again. The fields from lastFrame
   * on keep books: when a frame was last handled, when the last ping went out and the last pong came
   * in (or the session began), and what was consumed, handed over and written so far.
   */
  datatype Conn = Conn(
    now: int, pingAt: Option<int>, deadline: int, result: Option<End>,
    lastFrame: int, lastPing: int, lastPong: int, pings: nat, pongs: nat,
    consumed: seq<string>, handed: seq<Event>, written: seq<string>)

  /** What happens next: time passes, or one of the channels that Run waits on is chosen. */
  datatype Input =
    | Wait(until: int)
    | Cancel
    | ReadError
    | DeadlineFires
    | PingFires(writeFails: bool)
    | Frame(text: string)

  predicate Enabled(c: Conn, i: Input) {
    && c.result.None?
    && match i
       case Wait(until) => c.now <= until <= c.deadline && (c.pingAt.Some? ==> until <= c.pingAt.value)
       case DeadlineFires => c.deadline <= c.now
       case PingFires(_) => c.pingAt.Some? && c.pingAt.value <= c.now
       case Cancel => true
       case ReadError => true
       case Frame(_) => true
  }

  function Start(t: Timing, now: int): Conn {
    Conn(now, Some(now + t.interval), now + t.interval + t.timeout, None, now, now, now, 0, 0, [], [], [])
  }

  predicate IsClose(json: Json, f: string) {
    f != "" && (f[0] == '1' || (f[0] == '4' && Parse(json, f[1..]) == Closed))
  }

  /** The event that a frame carries, if any. */
  function EventsOf(json: Json, f: string): seq<Event> {
    if f != "" && f[0] == '4' then
      match Parse(json, f[1..])
      case Deliver(ev) => [ev]
      case Closed => []
      case Ignored => []
    else []
  }

  function Handle(t: Timing, json: Json, c: Conn, f: string): Conn {
    var d := c.(deadline := c.now + t.interval + t.timeout, lastFrame := c.now, consumed := c.consumed + [f]);
    if f == "" then d
    else if f[0] == '3' then d.(pingAt := Some(c.now + t.interval), lastPong := c.now, pongs := c.pongs + 1)
    else if f[0] == '2' then d.(written := c.written + ["3" + f[1..]])
    else if IsClose(json, f) then d.(result := Some(ServerClosed))
    else d.(handed := c.handed + EventsOf(json, f))
  }

  function Apply(t: Timing, json: Json, c: Conn, i: Input): Conn
    requires Enabled(c, i)
  {
    match i
    case Wait(until) => c.(now := until)
    case Cancel => c.(result := Some(Cancelled))
    case ReadError => c.(result := Some(ReadFailed))
    case DeadlineFires => c.(result := Some(HeartbeatTimeout))
    case PingFires(writeFails) =>
      var d := c.(pingAt := None, lastPing := c.now, pings := c.pings + 1, written := c.written + ["2"]);
      if writeFails then d.(result := Some(WriteFailed)) else d.(deadline := c.now + t.timeout)
    case Frame(f) => Handle(t, json, c, f)
  }

  predicate IsRun(t: Timing, json: Json, c: Conn, inputs: seq<Input>)
    decreases |inputs|
  {
    inputs == [] || (Enabled(c, inputs[0]) && IsRun(t, json, Apply(t, json, c, inputs[0]), inputs[1..]))
  }

  function After(t: Timing, json: Json, c: Conn, inputs: seq<Input>): Conn
    requires IsRun(t, json, c, inputs)
    decreases |inputs|
  {
    if inputs == [] then c else After(t, json, Apply(t, json, c, inputs[0]), inputs[1..])
  }

  // ----- On the wire -----

  /** Which frames close a session: "1", and "41" for the default namespace. */
  lemma ClosesMeans(json: Json, f: string)
    ensures IsClose(json, f) <==> "1" <= f || ("41" <= f && ForDefault(f[2..]))
  {
    if "4" <= f {
      ClosesExactly(json, f[1..]);
      assert |f| >= 2 ==> f[1..][1..] == f[2..];
    }
  }

  /** Only "4" frames carry an event: "42" ones the event they encode, and "44" ones an error. */
  lemma CarriesMeans(json: Json, f: string, ev: Event)
    requires ArraysAreBracketed(json)
    ensures EventsOf(json, f) != [] ==> "42" <= f || "44" <= f
    ensures "42" <= f ==>
              (EventsOf(json, f) == [ev] <==>
               exists nsp, ack, body ::
                 f[1..] == "2" + nsp + ack + body && DefaultPrefix(nsp) && AllDigits(ack) && Encodes(json, body, ev))
    ensures "44" <= f && ForDefault(f[2..]) ==> |EventsOf(json, f)| == 1 && EventsOf(json, f)[0].name == "error"
  {
    if "4" <= f {
      OthersMeans(json, f[1..]);
      if "42" <= f {
        DeliveredExactlyIfEncoded(json, f[1..], ev);
      }
      assert |f| >= 2 ==> f[1..][1..] == f[2..];
    }
  }

  lemma OthersMeans(json: Json, p: string)
    ensures Parse(json, p).Deliver? ==> p != "" && p[0] in {'2', '4'}
    ensures p != "" && p[0] == '4' && ForDefault(p[1..]) ==>
              Parse(json, p).Deliver? && Parse(json, p).event.name == "error"
  {
    if p != "" {
      NamespaceIsDefault(p[1..]);
    }
  }

  /** Everything that is written: a "2" for each ping timer, and for each "2" frame a "3" with its payload. */
  function Writes(inputs: seq<Input>): seq<string> {
    if inputs == [] then []
    else
      (match inputs[0]
       case PingFires(_) => ["2"]
       case Frame(f) => if "2" <= f then ["3" + f[1..]] else []
       case _ => []) + Writes(inputs[1..])
  }

  lemma {:induction false} WrittenFrom(t: Timing, json: Json, c: Conn, inputs: seq<Input>)
    requires IsRun(t, json, c, inputs)
    ensures After(t, json, c, inputs).written == c.written + Writes(inputs)
    decreases |inputs|
  {
    if inputs != [] {
      WrittenFrom(t, json, Apply(t, json, c, inputs[0]), inputs[1..]);
      assert Apply(t, json, c, inputs[0]).written + Writes(inputs[1..]) == c.written + Writes(inputs);
    }
  }

  /** Nothing else is written in any run. */
  lemma WritesAre(t: Timing, json: Json, start: int, inputs: seq<Input>)
    requires IsRun(t, json, Start(t, start), inputs)
    ensures After(t, json, Start(t, start), inputs).written == Writes(inputs)
  {
    WrittenFrom(t, json, Start(t, start), inputs);
  }

  // ----- The loop -----

  /** Run, told what its select chooses each time; end is None if the inputs run out first. */
  method Run(t: Timing, json: Json, start: int, inputs: seq<Input>)
    returns (end: Option<End>, handed: seq<Event>, written: seq<string>)
    requires IsRun(t, json, Start(t, start), inputs)
    ensures var c := After(t, json, Start(t, start), inputs);
            end == c.result && handed == c.handed && written == c.written
  {
    var now := start;
    var pingTimer: Option<int> := Some(start + t.interval);
    var deadline := start + t.interval + t.timeout;
    end, handed, written := None, [], [];
    ghost var c := Start(t, start);
    for k := 0 to |inputs|
      invariant IsRun(t, json, c, inputs[k..])
      invariant After(t, json, c, inputs[k..]) == After(t, json, Start(t, start), inputs)
      invariant c.now == now && c.pingAt == pingTimer && c.deadline == deadline
      invariant c.result == end && c.handed == handed && c.written == written
    {
      var i := inputs[k];
      assert inputs[k..][0] == i && inputs[k..][1..] == inputs[k + 1..];
      c := Apply(t, json, c, i);
      match i {
        case Wait(until) => now := until;
        case Cancel => end := Some(Cancelled);
        case ReadError => end := Some(ReadFailed);
        case DeadlineFires => end := Some(HeartbeatTimeout);
        case PingFires(writeFails) =>
          pingTimer := None;
          written := written + ["2"];
          if writeFails {
            end := Some(WriteFailed);
          } else {
            deadline := now + t.timeout;
          }
        case Frame(frame) =>
          deadline := now + t.interval + t.timeout;
          if frame != "" {
            if frame[0] == '3' {
              pingTimer := Some(now + t.interval);
            } else if frame[0] == '2' {
              written := written + ["3" + frame[1..]];
            } else if frame[0] == '1' {
              end := Some(ServerClosed);
            } else if frame[0] == '4' {
              var packet := ParseSocketPacket(json, frame[1..]);
              match packet {
                case Closed => end := Some(ServerClosed);
                case Deliver(ev) => handed := handed + [ev];
                case Ignored =>
              }
            }
          }
      }
    }
  }

  // ----- Heartbeat -----

  ghost predicate Beats(t: Timing, c: Conn) {
    && c.lastFrame <= c.now && c.lastPong <= c.lastFrame
    && (c.result.None? ==> c.now <= c.deadline)
    && c.deadline <= c.lastFrame + t.interval + t.timeout
    && (c.pingAt.Some? ==> c.pingAt.value == c.lastPong + t.interval)
    && (c.pingAt.Some? && c.result.None? ==> c.now <= c.pingAt.value && c.pingAt.value + t.timeout <= c.deadline)
    && (c.pingAt.None? && c.result.None? ==> c.lastPing + t.timeout <= c.deadline)
    && c.pings + (if c.pingAt.Some? then 1 else 0) <= c.pongs + 1
  }

  lemma BeatsStep(t: Timing, json: Json, c: Conn, i: Input)
    requires t.Ok() && Beats(t, c) && Enabled(c, i)
    ensures Beats(t, Apply(t, json, c, i))
  {
  }

  lemma {:induction false} BeatsRun(t: Timing, json: Json, c: Conn, inputs: seq<Input>)
    requires t.Ok() && Beats(t, c) && IsRun(t, json, c, inputs)
    ensures Beats(t, After(t, json, c, inputs))
    decreases |inputs|
  {
    if inputs != [] {
      BeatsStep(t, json, c, inputs[0]);
      BeatsRun(t, json, Apply(t, json, c, inputs[0]), inputs[1..]);
    }
  }

  /**
   * In every run the armed deadline is at most interval + timeout after the last handled frame (or
   * the start), so a session that still runs has not been silent for longer.
   */
  lemma SilenceEndsTheSession(t: Timing, json: Json, start: int, inputs: seq<Input>)
    requires t.Ok() && IsRun(t, json, Start(t, start), inputs)
    ensures var c := After(t, json, Start(t, start), inputs);
            && c.deadline <= c.lastFrame + t.interval + t.timeout
            && (c.result.None? ==> c.now <= c.lastFrame + t.interval + t.timeout)
  {
    BeatsRun(t, json, Start(t, start), inputs);
  }

  /** The deadline in force is that of the last frame, or of a ping sent since. */
  ghost predicate DeadlineKnown(t: Timing, c: Conn) {
    || c.deadline == c.lastFrame + t.interval + t.timeout
    || (c.deadline == c.lastPing + t.timeout && c.lastFrame <= c.lastPing)
    || c.result == Some(WriteFailed)
  }

  lemma {:induction false} DeadlineRun(t: Timing, json: Json, c: Conn, inputs: seq<Input>)
    requires t.Ok() && Beats(t, c) && DeadlineKnown(t, c) && IsRun(t, json, c, inputs)
    requires c.result == Some(HeartbeatTimeout) ==> c.deadline <= c.now
    ensures DeadlineKnown(t, After(t, json, c, inputs))
    ensures var d := After(t, json, c, inputs); d.result == Some(HeartbeatTimeout) ==> d.deadline <= d.now
    decreases |inputs|
  {
    if inputs != [] {
      BeatsStep(t, json, c, inputs[0]);
      DeadlineRun(t, json, Apply(t, json, c, inputs[0]), inputs[1..]);
    }
  }

  /**
   * A session only times out for silence: no frame was handled for interval + timeout, or none since a ping
   * that went out a timeout ago.
   */
  lemma TimeoutsMeanSilence(t: Timing, json: Json, start: int, inputs: seq<Input>)
    requires t.Ok() && IsRun(t, json, Start(t, start), inputs)
    requires After(t, json, Start(t, start), inputs).result == Some(HeartbeatTimeout)
    ensures var c := After(t, json, Start(t, start), inputs);
            || c.now >= c.lastFrame + t.interval + t.timeout
            || (c.now >= c.lastPing + t.timeout && c.lastFrame <= c.lastPing)
  {
    DeadlineRun(t, json, Start(t, start), inputs);
  }

  /** Time never gets stuck before a timer that cannot fire. */
  lemma NeverStuck(t: Timing, json: Json, start: int, inputs: seq<Input>)
    requires t.Ok() && IsRun(t, json, Start(t, start), inputs)
    ensures var c := After(t, json, Start(t, start), inputs);
            c.result.None? ==> Enabled(c, Wait(c.now + 1)) || Enabled(c, PingFires(false)) || Enabled(c, DeadlineFires)
  {
  }

  lemma PingsAtMostOneAhead(t: Timing, json: Json, start: int, inputs: seq<Input>)
    requires t.Ok() && IsRun(t, json, Start(t, start), inputs)
    ensures After(t, json, Start(t, start), inputs).pings <= After(t, json, Start(t, start), inputs).pongs + 1
  {
    BeatsRun(t, json, Start(t, start), inputs);
  }

  /** A ping goes out exactly one interval after the last pong, or after the start. */
  lemma PingCadence(t: Timing, json: Json, start: int, inputs: seq<Input>, writeFails: bool)
    requires t.Ok() && IsRun(t, json, Start(t, start), inputs)
    requires Enabled(After(t, json, Start(t, start), inputs), PingFires(writeFails))
    ensures var c := After(t, json, Start(t, start), inputs); c.now == c.lastPong + t.interval
  {
    BeatsRun(t, json, Start(t, start), inputs);
  }

  /** While a ping waits for its pong, less than timeout passes. */
  predicate Prompt(t: Timing, json: Json, c: Conn, inputs: seq<Input>)
    requires IsRun(t, json, c, inputs)
    decreases |inputs|
  {
    inputs == [] ||
    (&& (inputs[0].Wait? && c.pingAt.None? ==> inputs[0].until < c.lastPing + t.timeout)
     && Prompt(t, json, Apply(t, json, c, inputs[0]), inputs[1..]))
  }

  lemma {:induction false} PromptRun(t: Timing, json: Json, c: Conn, inputs: seq<Input>)
    requires t.Ok() && Beats(t, c) && IsRun(t, json, c, inputs) && Prompt(t, json, c, inputs)
    requires c.result != Some(HeartbeatTimeout) && (c.result.None? && c.pingAt.None? ==> c.now < c.lastPing + t.timeout)
    ensures After(t, json, c, inputs).result != Some(HeartbeatTimeout)
    decreases |inputs|
  {
    if inputs != [] {
      BeatsStep(t, json, c, inputs[0]);
      PromptRun(t, json, Apply(t, json, c, inputs[0]), inputs[1..]);
    }
  }

  /** If every ping gets its pong handled in less than the timeout, the session never times out. */
  lemma PromptPongsNeverTimeOut(t: Timing, json: Json, start: int, inputs: seq<Input>)
    requires t.Ok() && IsRun(t, json, Start(t, start), inputs) && Prompt(t, json, Start(t, start), inputs)
    ensures After(t, json, Start(t, start), inputs).result != Some(HeartbeatTimeout)
  {
    PromptRun(t, json, Start(t, start), inputs);
  }

  // ----- Dispatch -----

  /** What a session should hand over: the events of the frames before the first close. */
  function Expected(json: Json, frames: seq<string>): seq<Event> {
    if frames == [] || IsClose(json, frames[0]) then [] else EventsOf(json, frames[0]) + Expected(json, frames[1..])
  }

  ghost predicate Open(json: Json, frames: seq<string>) {
    forall i :: 0 <= i < |frames| ==> !IsClose(json, frames[i])
  }

  lemma {:induction false} ExpectedConcat(json: Json, a: seq<string>, b: seq<string>)
    requires Open(json, a)
    ensures Expected(json, a + b) == Expected(json, a) + Expected(json, b)
  {
    if a == [] {
      assert a + b == b;
    } else {
      assert (a + b)[1..] == a[1..] + b;
      ExpectedConcat(json, a[1..], b);
    }
  }

  lemma ExpectedSplit(json: Json, frames: seq<string>, n: nat)
    requires n <= |frames| && Open(json, frames[..n])
    ensures Expected(json, frames) == Expected(json, frames[..n]) + Expected(json, frames[n..])
    ensures n < |frames| && IsClose(json, frames[n]) ==> Expected(json, frames) == Expected(json, frames[..n])
  {
    assert frames == frames[..n] + frames[n..];
    ExpectedConcat(json, frames[..n], frames[n..]);
  }

  /** The close, if there was one, is the last frame consumed, and it ended the session. */
  ghost predicate Dispatched(json: Json, c: Conn) {
    if c.result == Some(ServerClosed) then
      && c.consumed != [] && IsClose(json, c.consumed[|c.consumed| - 1])
      && Open(json, c.consumed[..|c.consumed| - 1])
      && c.handed == Expected(json, c.consumed[..|c.consumed| - 1])
    else Open(json, c.consumed) && c.handed == Expected(json, c.consumed)
  }

  lemma HandleDoes(t: Timing, json: Json, c: Conn, f: string)
    requires c.result.None?
    ensures var d := Handle(t, json, c, f);
            && d.consumed == c.consumed + [f]
                 && d.handed == c.handed + (if IsClose(json, f) then [] else EventsOf(json, f))
            && d.result == if IsClose(json, f) then Some(ServerClosed) else None
  {
  }

  lemma ExpectedOfOne(json: Json, f: string)
    ensures Expected(json, [f]) == if IsClose(json, f) then [] else EventsOf(json, f)
  {
  }

  lemma DispatchFrame(t: Timing, json: Json, c: Conn, f: string)
    requires Dispatched(json, c) && c.result.None?
    ensures Dispatched(json, Handle(t, json, c, f))
  {
    var d := Handle(t, json, c, f);
    HandleDoes(t, json, c, f);
    assert d.consumed[..|c.consumed|] == c.consumed && d.consumed[|d.consumed| - 1] == f;
    if !IsClose(json, f) {
      ExpectedConcat(json, c.consumed, [f]);
      ExpectedOfOne(json, f);
    }
  }

  lemma {:induction false} DispatchRun(t: Timing, json: Json, c: Conn, inputs: seq<Input>)
    requires Dispatched(json, c) && IsRun(t, json, c, inputs)
    ensures Dispatched(json, After(t, json, c, inputs))
    decreases |inputs|
  {
    if inputs != [] {
      if inputs[0].Frame? {
        DispatchFrame(t, json, c, inputs[0].text);
      }
      DispatchRun(t, json, Apply(t, json, c, inputs[0]), inputs[1..]);
    }
  }

  lemma EndsByCloseOnly(json: Json, c: Conn)
    requires Dispatched(json, c)
    ensures c.result == Some(ServerClosed) <==> exists i :: 0 <= i < |c.consumed| && IsClose(json, c.consumed[i])
  {
  }

  lemma HandedOver(json: Json, c: Conn, sent: seq<string>)
    requires Dispatched(json, c) && c.consumed <= sent
    ensures c.handed <= Expected(json, sent) && (c.result == Some(ServerClosed) ==> c.handed == Expected(json, sent))
  {
    var n := if c.result == Some(ServerClosed) then |c.consumed| - 1 else |c.consumed|;
    assert sent[..n] == c.consumed[..n];
    assert c.consumed[..|c.consumed|] == c.consumed;
    ExpectedSplit(json, sent, n);
  }

  /**
   * Whatever the server sends: if the session ends by a close, it has handed over exactly the events
   * of the frames before the first close; if it runs on or ends otherwise, a prefix of them. It ends by
   * a close exactly if it consumed one.
   */
  lemma HandsOverEventsBeforeClose(t: Timing, json: Json, start: int, inputs: seq<Input>, sent: seq<string>)
    requires IsRun(t, json, Start(t, start), inputs) && After(t, json, Start(t, start), inputs).consumed <= sent
    ensures var c := After(t, json, Start(t, start), inputs);
            && c.handed <= Expected(json, sent)
            && (c.result == Some(ServerClosed) ==> c.handed == Expected(json, sent))
            && (c.result == Some(ServerClosed) <==> exists i :: 0 <= i < |c.consumed| && IsClose(json, c.consumed[i]))
  {
    DispatchRun(t, json, Start(t, start), inputs);
    var c := After(t, json, Start(t, start), inputs);
    EndsByCloseOnly(json, c);
    HandedOver(json, c, sent);
  }
}
