/**
 * Socket.IO packets (parseSocketPacket in internal/chzzk/eio3/eio3.go): revision 4 of the Socket.IO
 * protocol, of which only events, errors and disconnects of the default namespace matter.
 */
module Eio3Packet {
  import opened Text
  import opened Wrappers

  /** An event's name and its arguments, which stay JSON texts. */
  datatype Event = Event(name: string, args: seq<string>)

  datatype Packet = Deliver(event: Event) | Closed | Ignored

  /**
   * The JSON library: the elements of an array text, the value of a string text, whether a text is
   * JSON at all, and the JSON string for a text.
   */
  datatype Json = Json(elements: string -> Option<seq<string>>, text: string -> Option<string>, valid: string -> bool,
      quote: string -> string)

  /** The place of c in s, or |s|. */
  function IndexOf(s: string, c: char): (i: nat)
    ensures i <= |s| && c !in s[..i]
    ensures i < |s| ==> s[i] == c
  {
    if s == "" || s[0] == c then 0
    else
      assert s[..1 + IndexOf(s[1..], c)] == [s[0]] + s[1..][..IndexOf(s[1..], c)];
      1 + IndexOf(s[1..], c)
  }

  /** The namespace of a packet whose text after the type is rest, without its query. */
  function Namespace(rest: string): string {
    if rest == "" || rest[0] != '/' then "/"
    else
      var nsp := rest[..IndexOf(rest, ',')];
      nsp[..IndexOf(nsp, '?')]
  }

  function AfterNamespace(rest: string): string {
    if rest == "" || rest[0] != '/' then rest
    else if IndexOf(rest, ',') < |rest| then rest[IndexOf(rest, ',') + 1..]
    else ""
  }

  function ParseEvent(json: Json, body: string): Packet {
    match json.elements(body)
    case None => Ignored
    case Some(elems) =>
      if elems == [] then Ignored
      else
        match json.text(elems[0])
        case None => Ignored
        case Some(name) => Deliver(Event(name, elems[1..]))
  }

  function ErrorEvent(json: Json, rest: string): Event {
    Event("error", [if json.valid(rest) then rest else json.quote(rest)])
  }

  function Parse(json: Json, p: string): Packet {
    if p == "" || Namespace(p[1..]) != "/" then Ignored
    else
      var rest := AfterNamespace(p[1..]);
      if p[0] == '1' then Closed
      else if p[0] == '4' then Deliver(ErrorEvent(json, rest))
      else if p[0] == '2' then ParseEvent(json, rest[Span(rest, IsDigit)..])
      else Ignored
  }

  /** Cuts off a namespace and says whether it is the default one. */
  method CutNamespace(packet: string) returns (ours: bool, rest: string)
    ensures ours <==> Namespace(packet) == "/"
    ensures rest == AfterNamespace(packet)
  {
    rest := packet;
    if |rest| == 0 || rest[0] != '/' {
      return true, rest;
    }
    var nsp := rest;
    var comma := IndexOf(rest, ',');
    if comma < |rest| {
      nsp, rest := rest[..comma], rest[comma + 1..];
    } else {
      rest := "";
    }
    assert nsp == packet[..comma];
    var query := IndexOf(nsp, '?');
    if query < |nsp| {
      nsp := nsp[..query];
    }
    return nsp == "/", rest;
  }

  method SkipAckId(rest: string) returns (i: nat)
    ensures i == Span(rest, IsDigit)
  {
    i := 0;
    while i < |rest| && IsDigit(rest[i])
      invariant i <= |rest| && AllDigits(rest[..i])
    {
      i := i + 1;
    }
    SpanIs(rest, IsDigit, i);
  }

  method ParseSocketPacket(json: Json, p: string) returns (r: Packet)
    ensures r == Parse(json, p)
  {
    if p == "" {
      return Ignored;
    }
    var ours, rest := CutNamespace(p[1..]);
    if !ours {
      return Ignored;
    }
    if p[0] == '1' {
      return Closed;
    }
    if p[0] == '4' {
      return Deliver(ErrorEvent(json, rest));
    }
    if p[0] != '2' {
      return Ignored;
    }
    var i := SkipAckId(rest);
    var arr := json.elements(rest[i..]);
    if arr.None? || |arr.value| == 0 {
      return Ignored;
    }
    var name := json.text(arr.value[0]);
    if name.None? {
      return Ignored;
    }
    return Deliver(Event(name.value, arr.value[1..]));
  }

  // ----- Encoding -----

  /** Nothing, or the default namespace with an optional query, as a sender writes it before a body. */
  predicate DefaultPrefix(nsp: string) {
    || nsp == ""
    || (|nsp| >= 2 && nsp[0] == '/' && nsp[|nsp| - 1] == ',' && ',' !in nsp[..|nsp| - 1]
          && (|nsp| > 2 ==> nsp[1] == '?'))
  }

  /** body is a JSON text of the array of the event's name and arguments. */
  predicate Encodes(json: Json, body: string, ev: Event) {
    && json.elements(body).Some? && json.elements(body).value != []
    && json.text(json.elements(body).value[0]) == Some(ev.name)
    && json.elements(body).value[1..] == ev.args
  }

  /** A JSON array begins with a bracket after optional whitespace (section 2 of RFC 8259). */
  ghost predicate ArraysAreBracketed(json: Json) {
    forall b :: json.elements(b).Some? && json.elements(b).value != [] ==>
        b != "" && b[0] in {'[', ' ', '\t', '\n', '\r'}
  }

  lemma IndexOfIs(s: string, c: char, i: nat)
    requires i <= |s| && c !in s[..i] && (i < |s| ==> s[i] == c)
    ensures IndexOf(s, c) == i
  {
  }

  lemma PrefixIsSkipped(nsp: string, tail: string)
    requires DefaultPrefix(nsp) && tail != "" && tail[0] != '/'
    ensures Namespace(nsp + tail) == "/" && AfterNamespace(nsp + tail) == tail
  {
    var rest := nsp + tail;
    if nsp == "" {
      assert rest == tail;
    } else {
      var comma := |nsp| - 1;
      assert rest[..comma] == nsp[..comma];
      IndexOfIs(rest, ',', comma);
      assert rest[comma + 1..] == tail;
      var name := rest[..comma];
      IndexOfIs(name, '?', 1);
      assert name[..1] == "/";
    }
  }

  /**
   * Parsing undoes encoding: any event, with any acknowledgement id and any way to name the default
   * namespace, is delivered as it was.
   */
  lemma ParsingUndoesEncoding(json: Json, nsp: string, ack: string, body: string, ev: Event)
    requires ArraysAreBracketed(json) && DefaultPrefix(nsp) && AllDigits(ack) && Encodes(json, body, ev)
    ensures Parse(json, "2" + nsp + ack + body) == Deliver(ev)
  {
    var tail := ack + body;
    var p := "2" + nsp + ack + body;
    assert p[1..] == nsp + tail;
    PrefixIsSkipped(nsp, tail);
    SpanIs(tail, IsDigit, |ack|);
    assert tail[|ack|..] == body;
  }

  /** Before a text that is not empty, the default namespace was written as a sender writes it. */
  lemma CutIsPrefix(rest: string) returns (nsp: string)
    requires Namespace(rest) == "/" && AfterNamespace(rest) != ""
    ensures rest == nsp + AfterNamespace(rest) && DefaultPrefix(nsp)
  {
    if rest == "" || rest[0] != '/' {
      return "";
    }
    var c := IndexOf(rest, ',');
    nsp := rest[..c + 1];
    assert nsp[..c] == rest[..c];
    var q := IndexOf(rest[..c], '?');
    assert |rest[..c][..q]| == 1;
  }

  lemma Regroups(p: string, nsp: string, ack: string, body: string)
    requires p != "" && p[0] == '2' && p[1..] == nsp + (ack + body)
    ensures p == "2" + nsp + ack + body
  {
  }

  /** Nothing else is delivered from an event packet. */
  lemma OnlyEncodingsAreDelivered(json: Json, p: string, ev: Event) returns (nsp: string, ack: string, body: string)
    requires ArraysAreBracketed(json) && p != "" && p[0] == '2' && Parse(json, p) == Deliver(ev)
    ensures p == "2" + nsp + ack + body
    ensures DefaultPrefix(nsp) && AllDigits(ack) && Encodes(json, body, ev)
  {
    var tail := AfterNamespace(p[1..]);
    var d := Span(tail, IsDigit);
    ack, body := tail[..d], tail[d..];
    assert tail == ack + body;
    assert Encodes(json, body, ev);
    nsp := CutIsPrefix(p[1..]);
    Regroups(p, nsp, ack, body);
  }

  /** An event packet is delivered exactly if it encodes an event, whatever its other parts. */
  lemma DeliveredExactlyIfEncoded(json: Json, p: string, ev: Event)
    requires ArraysAreBracketed(json) && p != "" && p[0] == '2'
    ensures Parse(json, p) == Deliver(ev) <==>
            exists nsp, ack, body ::
              p == "2" + nsp + ack + body && DefaultPrefix(nsp) && AllDigits(ack) && Encodes(json, body, ev)
  {
    if Parse(json, p) == Deliver(ev) {
      var nsp, ack, body := OnlyEncodingsAreDelivered(json, p, ev);
    }
    if nsp, ack, body :|
      p == "2" + nsp + ack + body && DefaultPrefix(nsp) && AllDigits(ack) && Encodes(json, body, ev)
    {
      ParsingUndoesEncoding(json, nsp, ack, body, ev);
    }
  }

  /** The text after the type names no other namespace: at most a slash that a comma, a query or the end follows. */
  predicate ForDefault(rest: string) {
    |rest| >= 2 && rest[0] == '/' ==> rest[1] in {',', '?'}
  }

  lemma NamespaceIsDefault(rest: string)
    ensures Namespace(rest) == "/" <==> ForDefault(rest)
  {
  }

  /** A packet closes the session exactly if it is a disconnect of the default namespace. */
  lemma ClosesExactly(json: Json, p: string)
    ensures Parse(json, p) == Closed <==> p != "" && p[0] == '1' && ForDefault(p[1..])
  {
  }

  /** A packet of any other namespace neither delivers nor closes, and neither does any other type. */
  lemma OthersAreIgnored(json: Json, p: string)
    requires p == "" || !ForDefault(p[1..]) || p[0] !in {'1', '2', '4'}
    ensures Parse(json, p) == Ignored
  {
  }

  /** An error packet is always an "error" event with one JSON argument: its own text, quoted if that is not JSON. */
  lemma ErrorsAreEvents(json: Json, p: string)
    requires p != "" && p[0] == '4' && ForDefault(p[1..])
    requires forall s :: json.valid(json.quote(s))
    ensures exists arg ::
              && json.valid(arg)
              && Parse(json, p) == Deliver(Event("error", [arg]))
              && (arg == AfterNamespace(p[1..])
                  || (arg == json.quote(AfterNamespace(p[1..])) && !json.valid(AfterNamespace(p[1..]))))
  {
    NamespaceIsDefault(p[1..]);
    var rest := AfterNamespace(p[1..]);
    var arg := if json.valid(rest) then rest else json.quote(rest);
    assert Parse(json, p) == Deliver(Event("error", [arg]));
  }
}
