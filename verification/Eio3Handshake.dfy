/**
 * The handshake acceptor (Dial in internal/chzzk/eio3/eio3.go) over the text frames that the server
 * sends; a read fails where they end. Pongs are written whether or not the write succeeds.
 */
module Eio3Handshake {
  import opened Wrappers

  /** Milliseconds, as the open packet gives them. */
  datatype Handshake = Handshake(pingInterval: int, pingTimeout: int)

  datatype Error = ReadFailed | NotOpen | BadOpen | NoPingSettings | Refused | Unexpected

  /** The error for the first frame, if it is not a proper open packet. */
  function OpenError(frame: string, decode: string -> Option<Handshake>): Option<Error> {
    if frame == "" || frame[0] != '0' then Some(NotOpen)
    else if decode(frame[1..]).None? then Some(BadOpen)
    else
      var h := decode(frame[1..]).value;
      if h.pingInterval <= 0 || h.pingTimeout <= 0 then Some(NoPingSettings) else None
  }

  predicate IsConnect(frame: string) {
    frame == "40" || "40{" <= frame
  }

  predicate IsPing(frame: string) {
    frame != "" && frame[0] == '2'
  }

  predicate IsNoop(frame: string) {
    frame != "" && frame[0] == '6'
  }

  /** The pong that answers a ping, with the ping's own payload. */
  function Pong(frame: string): string
    requires frame != ""
  {
    "3" + frame[1..]
  }

  /** The answers to the pings among frames, in order. */
  function Pongs(frames: seq<string>): seq<string> {
    if frames == [] then []
    else Pongs(frames[..|frames| - 1]) + if IsPing(frames[|frames| - 1]) then [Pong(frames[|frames| - 1])] else []
  }

  /** frames begins with an open packet and then pings and noops, up to frame n. */
  ghost predicate Waiting(frames: seq<string>, decode: string -> Option<Handshake>, n: nat) {
    && 1 <= n <= |frames| && OpenError(frames[0], decode) == None
    && forall i :: 1 <= i < n ==> IsPing(frames[i]) || IsNoop(frames[i])
  }

  /** Frame n completes the handshake. */
  ghost predicate Completes(frames: seq<string>, decode: string -> Option<Handshake>, n: nat) {
    Waiting(frames, decode, n) && n < |frames| && IsConnect(frames[n])
  }

  /** Which frames complete a handshake, as they are on the wire. */
  lemma CompletesMeans(frames: seq<string>, decode: string -> Option<Handshake>, n: nat)
    ensures Completes(frames, decode, n) <==>
            && 1 <= n < |frames|
            && "0" <= frames[0] && decode(frames[0][1..]).Some?
            && decode(frames[0][1..]).value.pingInterval > 0 && decode(frames[0][1..]).value.pingTimeout > 0
            && (forall i :: 1 <= i < n ==> "2" <= frames[i] || "6" <= frames[i])
            && (frames[n] == "40" || "40{" <= frames[n])
  {
  }

  /** What is wrong with a first frame, as it is on the wire. */
  lemma OpenErrorMeans(frame: string, decode: string -> Option<Handshake>)
    ensures OpenError(frame, decode) == Some(NotOpen) <==> !("0" <= frame)
    ensures OpenError(frame, decode) == Some(BadOpen) <==> "0" <= frame && decode(frame[1..]) == None
    ensures OpenError(frame, decode) == Some(NoPingSettings) <==>
            "0" <= frame && decode(frame[1..]).Some?
                && (decode(frame[1..]).value.pingInterval <= 0 || decode(frame[1..]).value.pingTimeout <= 0)
    ensures OpenError(frame, decode).Some? ==> OpenError(frame, decode).value in {NotOpen, BadOpen, NoPingSettings}
  {
  }

  /** Where a handshake fails, as the frame is on the wire: not at a ping, a noop or a connect. */
  lemma FailsAtMeans(frames: seq<string>, decode: string -> Option<Handshake>, n: nat, e: Error)
    requires FailsAt(frames, decode, n, e) && 0 < n < |frames|
    ensures !("2" <= frames[n]) && !("6" <= frames[n]) && frames[n] != "40" && !("40{" <= frames[n])
    ensures e == if "44" <= frames[n] then Refused else Unexpected
  {
  }

  /** The frames leave no other choice: at most one of them completes the handshake. */
  lemma CompletesOnce(frames: seq<string>, decode: string -> Option<Handshake>, m: nat, n: nat)
    requires Completes(frames, decode, m) && Completes(frames, decode, n)
    ensures m == n
  {
  }

  /** What a failed handshake met: e at frame n, which is |frames| if a read failed. */
  ghost predicate FailsAt(frames: seq<string>, decode: string -> Option<Handshake>, n: nat, e: Error) {
    && n <= |frames|
    && if n == |frames| then e == ReadFailed && (n > 0 ==> Waiting(frames, decode, n))
       else if n == 0 then OpenError(frames[0], decode) == Some(e)
       else
         && Waiting(frames, decode, n)
         && !IsConnect(frames[n]) && !IsPing(frames[n]) && !IsNoop(frames[n])
         && e == if "44" <= frames[n] then Refused else Unexpected
  }

  /** A handshake that fails somewhere completes nowhere. */
  lemma FailingNeverCompletes(frames: seq<string>, decode: string -> Option<Handshake>, n: nat, e: Error)
    requires FailsAt(frames, decode, n, e)
    ensures forall m: nat :: !Completes(frames, decode, m)
  {
  }

  /** Succeeds exactly if some frame completes the handshake; n is the last frame read. */
  method Dial(frames: seq<string>, decode: string -> Option<Handshake>)
    returns (r: Result<Handshake, Error>, written: seq<string>, ghost n: nat)
    ensures r.Ok? <==> exists m: nat :: Completes(frames, decode, m)
    ensures r.Ok? ==> Completes(frames, decode, n) && Some(r.value) == decode(frames[0][1..])
    ensures r.Ok? ==> r.value.pingInterval > 0 && r.value.pingTimeout > 0
    ensures r.Err? ==> FailsAt(frames, decode, n, r.error)
    ensures written == if n == 0 then [] else Pongs(frames[1..n])
  {
    r, written, n := Err(ReadFailed), [], 0;
    if |frames| > 0 {
      var bad := OpenError(frames[0], decode);
      if bad.Some? {
        r := Err(bad.value);
      } else {
        r, written, n := AwaitConnect(frames, decode);
      }
    }
    if r.Err? {
      FailingNeverCompletes(frames, decode, n, r.error);
    }
  }

  /** The loop of Dial after the open packet. */
  method AwaitConnect(frames: seq<string>, decode: string -> Option<Handshake>)
    returns (r: Result<Handshake, Error>, written: seq<string>, ghost n: nat)
    requires |frames| > 0 && OpenError(frames[0], decode) == None
    ensures r.Ok? ==> Completes(frames, decode, n) && Some(r.value) == decode(frames[0][1..])
    ensures r.Err? ==> FailsAt(frames, decode, n, r.error)
    ensures 1 <= n <= |frames| && written == Pongs(frames[1..n])
  {
    var handshake := decode(frames[0][1..]).value;
    written, n := [], 1;
    var i := 1;
    while i < |frames|
      invariant 1 <= i <= |frames| && n == i
      invariant Waiting(frames, decode, i)
      invariant written == Pongs(frames[1..i])
    {
      var frame := frames[i];
      if IsConnect(frame) {
        return Ok(handshake), written, n;
      } else if "44" <= frame {
        return Err(Refused), written, n;
      } else if IsPing(frame) || IsNoop(frame) {
        assert frames[1..i + 1][..i - 1] == frames[1..i];
        if IsPing(frame) {
          written := written + [Pong(frame)];
        }
      } else {
        return Err(Unexpected), written, n;
      }
      i, n := i + 1, n + 1;
    }
    return Err(ReadFailed), written, n;
  }

  function PingPlaces(frames: seq<string>): set<int> {
    set i | 0 <= i < |frames| && IsPing(frames[i])
  }

  lemma PingPlacesStep(frames: seq<string>)
    requires frames != []
    ensures var n := |frames| - 1;
            PingPlaces(frames) == PingPlaces(frames[..n]) + (if IsPing(frames[n]) then {n} else {})
                && n !in PingPlaces(frames[..n])
  {
    assert forall i :: 0 <= i < |frames| - 1 ==> frames[..|frames| - 1][i] == frames[i];
  }

  /** Every ping before the connect is answered by exactly one pong, with the same payload and in order. */
  lemma {:induction false} PongsAnswerPings(frames: seq<string>)
    ensures |Pongs(frames)| == |PingPlaces(frames)|
    ensures forall i <- PingPlaces(frames) ::
              |Pongs(frames[..i])| < |Pongs(frames)| && Pongs(frames)[|Pongs(frames[..i])|] == "3" + frames[i][1..]
  {
    if frames != [] {
      var n := |frames| - 1;
      PongsAnswerPings(frames[..n]);
      PingPlacesStep(frames);
      forall i <- PingPlaces(frames)
        ensures |Pongs(frames[..i])| < |Pongs(frames)| && Pongs(frames)[|Pongs(frames[..i])|] == "3" + frames[i][1..]
      {
        if i < n {
          assert frames[..n][..i] == frames[..i] && i in PingPlaces(frames[..n]);
        }
      }
    }
  }
}
