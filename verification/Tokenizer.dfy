/**
 * The emoji tokenizer of the overlay (appendContent in internal/web/static/overlay/widget.js):
 * placeholders {:key:} become images, the rest stays text.
 */
module Tokenizer {
  import opened Text

  predicate IsWord(c: char) {
    IsDigit(c) || 'a' <= c <= 'z' || 'A' <= c <= 'Z' || c == '_' || c == '-'
  }

  predicate AllWord(s: string) {
    forall i :: 0 <= i < |s| ==> IsWord(s[i])
  }

  /** The length of the placeholder that s begins with, or 0. */
  function MatchLength(s: string): (n: nat)
    ensures n <= |s|
    ensures n > 0 ==> n >= 5 && s[0] == '{'
  {
    if |s| < 5 || s[0] != '{' || s[1] != ':' then 0
    else
      var k := Span(s[2..], IsWord);
      if k > 0 && k + 4 <= |s| && s[k + 2] == ':' && s[k + 3] == '}' then k + 4 else 0
  }

  /** Where the first placeholder begins, or |s|. */
  function FirstMatch(s: string): (p: nat)
    ensures p <= |s|
  {
    if s == "" || MatchLength(s) > 0 then 0 else 1 + FirstMatch(s[1..])
  }

  lemma {:induction false} FirstMatchMatches(s: string)
    ensures FirstMatch(s) < |s| ==> MatchLength(s[FirstMatch(s)..]) > 0
  {
    if s != "" {
      if MatchLength(s) > 0 {
        assert s[0..] == s;
      } else {
        FirstMatchMatches(s[1..]);
        assert s[1..][FirstMatch(s[1..])..] == s[1 + FirstMatch(s[1..])..];
      }
    }
  }

  lemma {:induction false} NoneBeforeFirstMatch(s: string, i: nat)
    requires i < FirstMatch(s)
    ensures MatchLength(s[i..]) == 0
  {
    if i == 0 {
      assert s[0..] == s;
    } else {
      NoneBeforeFirstMatch(s[1..], i - 1);
      assert s[1..][i - 1..] == s[i..];
    }
  }

  datatype Token = Plain(text: string) | Emoji(key: string)

  function Tokenize(s: string): seq<Token>
    decreases |s|
  {
    if s == "" then []
    else if MatchLength(s) > 0 then [Emoji(s[2..MatchLength(s) - 2])] + Tokenize(s[MatchLength(s)..])
    else [Plain(s[..FirstMatch(s)])] + Tokenize(s[FirstMatch(s)..])
  }

  function PrintToken(t: Token): string {
    match t
    case Plain(text) => text
    case Emoji(key) => "{:" + key + ":}"
  }

  function Print(ts: seq<Token>): string {
    if ts == [] then "" else PrintToken(ts[0]) + Print(ts[1..])
  }

  // ----- Rendering -----

  datatype Node = TextNode(text: string) | Image(url: string)

  /** Text is only shown if there is some. */
  function Texts(text: string): seq<Node> {
    if text != "" then [TextNode(text)] else []
  }

  /** A key without an address gives no image. */
  function Images(url: string): seq<Node> {
    if url == "" then [] else [Image(url)]
  }

  /** emojis gives the address for a key, or "" if there is none. */
  function Show(t: Token, emojis: string -> string): seq<Node> {
    match t
    case Plain(text) => [TextNode(text)]
    case Emoji(key) => Images(emojis(key))
  }

  function Render(ts: seq<Token>, emojis: string -> string): seq<Node> {
    if ts == [] then [] else Show(ts[0], emojis) + Render(ts[1..], emojis)
  }

  lemma {:induction false} RenderConcat(a: seq<Token>, b: seq<Token>, emojis: string -> string)
    ensures Render(a + b, emojis) == Render(a, emojis) + Render(b, emojis)
  {
    if a == [] {
      assert a + b == b;
    } else {
      RenderConcat(a[1..], b, emojis);
      var first, rest, more := Show(a[0], emojis), Render(a[1..], emojis), Render(b, emojis);
      assert (a + b)[1..] == a[1..] + b && (a + b)[0] == a[0];
      assert Render(a + b, emojis) == first + (rest + more);
      assert first + (rest + more) == (first + rest) + more;
    }
  }

  lemma RenderMiddle(before: seq<Token>, t: Token, after: seq<Token>, emojis: string -> string)
    ensures Render(before + [t] + after, emojis) == Render(before, emojis) + Show(t, emojis) + Render(after, emojis)
  {
    RenderConcat(before + [t], after, emojis);
    RenderConcat(before, [t], emojis);
    assert [t][1..] == [];
    assert Render([t], emojis) == Show(t, emojis) + [];
  }

  lemma ShowIs(t: Token, emojis: string -> string)
    ensures t.Plain? ==> Show(t, emojis) == [TextNode(t.text)]
    ensures t.Emoji? ==> Show(t, emojis) == if emojis(t.key) == "" then [] else [Image(emojis(t.key))]
  {
  }

  /** Each token is shown in its place: a text as text, a known key as its image, an unknown one not at all. */
  lemma EachTokenIsShown(ts: seq<Token>, emojis: string -> string, i: nat) returns (shown: seq<Node>)
    requires i < |ts|
    ensures ts[i].Plain? ==> shown == [TextNode(ts[i].text)]
    ensures ts[i].Emoji? ==> shown == if emojis(ts[i].key) == "" then [] else [Image(emojis(ts[i].key))]
    ensures Render(ts, emojis) == Render(ts[..i], emojis) + shown + Render(ts[i + 1..], emojis)
  {
    assert ts == ts[..i] + [ts[i]] + ts[i + 1..];
    RenderMiddle(ts[..i], ts[i], ts[i + 1..], emojis);
    ShowIs(ts[i], emojis);
    shown := Show(ts[i], emojis);
  }

  /** The characters of a key, by code point: digits, capitals, small letters, underscore and hyphen. */
  lemma WordCharacters(c: char)
    ensures IsWord(c) <==>
            var code := c as int;
            48 <= code <= 57 || 65 <= code <= 90 || 97 <= code <= 122 || code == 95 || code == 45
  {
    assert c == '_' <==> c as int == 95;
    assert c == '-' <==> c as int == 45;
  }

  method AppendText(nodes: seq<Node>, text: string) returns (nodes': seq<Node>)
    ensures nodes' == nodes + Texts(text)
  {
    nodes' := nodes;
    if |text| > 0 {
      nodes' := nodes + [TextNode(text)];
    }
  }

  /** The text before a placeholder and its image. */
  method AppendMatch(nodes: seq<Node>, text: string, url: string, ghost todo: seq<Node>, ghost rest: seq<Node>)
    returns (nodes': seq<Node>)
    requires todo == Texts(text) + (Images(url) + rest)
    ensures nodes' + rest == nodes + todo
  {
    nodes' := AppendText(nodes, text);
    Regroup(nodes, Texts(text), Images(url), rest);
    if url != "" {
      nodes' := nodes' + [Image(url)];
    }
  }

  lemma Regroup(a: seq<Node>, b: seq<Node>, c: seq<Node>, d: seq<Node>)
    ensures (a + b + c) + d == a + (b + (c + d))
  {
  }

  lemma TextComesFirst(s: string, emojis: string -> string)
    requires FirstMatch(s) > 0
    ensures Render(Tokenize(s), emojis) == [TextNode(s[..FirstMatch(s)])] + Render(Tokenize(s[FirstMatch(s)..]), emojis)
  {
  }

  lemma EmojiComesFirst(s: string, emojis: string -> string) returns (rest: seq<Node>)
    requires MatchLength(s) > 0
    ensures rest == Render(Tokenize(s[MatchLength(s)..]), emojis)
    ensures Render(Tokenize(s), emojis) == Images(emojis(s[2..MatchLength(s) - 2])) + rest
  {
    var n := MatchLength(s);
    var first, later := Emoji(s[2..n - 2]), Tokenize(s[n..]);
    rest := Render(later, emojis);
    assert Tokenize(s) == [first] + later;
    assert ([first] + later)[1..] == later;
  }

  lemma TextPart(content: string, last: nat, at: nat, emojis: string -> string) returns (rest: seq<Node>)
    requires last <= at <= |content| && at == last + FirstMatch(content[last..])
    ensures at < |content| ==> MatchLength(content[at..]) > 0
    ensures rest == Render(Tokenize(content[at..]), emojis)
    ensures Render(Tokenize(content[last..]), emojis) == Texts(content[last..at]) + rest
  {
    var left := content[last..];
    assert left[at - last..] == content[at..] && left[..at - last] == content[last..at];
    FirstMatchMatches(left);
    if at > last {
      TextComesFirst(left, emojis);
    }
    rest := Render(Tokenize(content[at..]), emojis);
  }

  lemma EmojiPart(content: string, at: nat, next: nat, emojis: string -> string) returns (rest: seq<Node>)
    requires at < next <= |content| && next == at + MatchLength(content[at..])
    ensures rest == Render(Tokenize(content[next..]), emojis)
    ensures Render(Tokenize(content[at..]), emojis) == Images(emojis(content[at + 2..next - 2])) + rest
  {
    var left := content[at..];
    assert left[2..next - at - 2] == content[at + 2..next - 2] && left[next - at..] == content[next..];
    rest := EmojiComesFirst(left, emojis);
  }

  lemma MatchPart(content: string, last: nat, at: nat, next: nat, emojis: string -> string)
    returns (rest: seq<Node>)
    requires last <= at < next <= |content|
    requires at == last + FirstMatch(content[last..]) && next == at + MatchLength(content[at..])
    ensures rest == Render(Tokenize(content[next..]), emojis)
    ensures Render(Tokenize(content[last..]), emojis) ==
            Texts(content[last..at]) + (Images(emojis(content[at + 2..next - 2])) + rest)
  {
    rest := TextPart(content, last, at, emojis);
    rest := EmojiPart(content, at, next, emojis);
  }

  /** The loop's body, up to the search for the next placeholder. */
  method AppendNext(nodes: seq<Node>, content: string, last: nat, at: nat, emojis: string -> string,
      ghost todo: seq<Node>)
    returns (nodes': seq<Node>, next: nat, ghost rest: seq<Node>)
    requires last <= at < |content| && at == last + FirstMatch(content[last..])
    requires todo == Render(Tokenize(content[last..]), emojis)
    ensures at < next <= |content| && next == at + MatchLength(content[at..])
    ensures rest == Render(Tokenize(content[next..]), emojis)
    ensures nodes' + rest == nodes + todo
  {
    rest := TextPart(content, last, at, emojis);
    next := at + MatchLength(content[at..]);
    rest := MatchPart(content, last, at, next, emojis);
    nodes' := AppendMatch(nodes, content[last..at], emojis(content[at + 2..next - 2]), todo, rest);
  }

  method AppendContent(content: string, emojis: string -> string) returns (nodes: seq<Node>)
    ensures nodes == Render(Tokenize(content), emojis)
  {
    nodes := [];
    var last := 0;
    var at := FirstMatch(content);
    ghost var todo := Render(Tokenize(content), emojis);
    assert content[0..] == content;
    while at < |content|
      invariant 0 <= last <= at <= |content| && at == last + FirstMatch(content[last..])
      invariant todo == Render(Tokenize(content[last..]), emojis)
      invariant nodes + todo == Render(Tokenize(content), emojis)
      decreases |content| - last
    {
      nodes, last, todo := AppendNext(nodes, content, last, at, emojis, todo);
      at := last + FirstMatch(content[last..]);
    }
    ghost var none := TextPart(content, last, at, emojis);
    assert content[last..at] == content[last..] && content[at..] == "";
    nodes := AppendText(nodes, content[last..]);
  }

  // ----- Round trips -----

  /** A match is a printed placeholder. */
  lemma MatchIsPlaceholder(s: string)
    requires MatchLength(s) > 0
    ensures var n := MatchLength(s);
            && s[2..n - 2] != "" && AllWord(s[2..n - 2])
            && s == PrintToken(Emoji(s[2..n - 2])) + s[n..]
  {
    var n := MatchLength(s);
    assert s[2..n - 2] == s[2..][..n - 4];
    assert s[..n] == "{:" + s[2..n - 2] + ":}";
    assert s == s[..n] + s[n..];
  }

  lemma PrintCons(t: Token, ts: seq<Token>)
    ensures Print([t] + ts) == PrintToken(t) + Print(ts)
  {
  }

  lemma TokenizeStep(s: string)
    requires s != ""
    ensures var n, p := MatchLength(s), FirstMatch(s);
            if n > 0 then Tokenize(s) == [Emoji(s[2..n - 2])] + Tokenize(s[n..])
            else p > 0 && Tokenize(s) == [Plain(s[..p])] + Tokenize(s[p..])
  {
  }

  /** The first token and what follows it. */
  lemma Head(s: string) returns (t: Token, rest: string)
    requires s != ""
    ensures Tokenize(s) == [t] + Tokenize(rest) && s == PrintToken(t) + rest && |rest| < |s|
  {
    var n, p := MatchLength(s), FirstMatch(s);
    TokenizeStep(s);
    if n > 0 {
      MatchIsPlaceholder(s);
      t, rest := Emoji(s[2..n - 2]), s[n..];
    } else {
      t, rest := Plain(s[..p]), s[p..];
    }
  }

  /** The texts and the placeholders in order are the content. */
  lemma {:induction false} PrintingUndoesTokenizing(s: string)
    ensures Print(Tokenize(s)) == s
    decreases |s|
  {
    if s != "" {
      var t, rest := Head(s);
      PrintingUndoesTokenizing(rest);
      PrintCons(t, Tokenize(rest));
    }
  }

  ghost predicate NoPlaceholder(s: string) {
    forall i :: 0 <= i < |s| ==> MatchLength(s[i..]) == 0
  }

  ghost predicate NormalToken(t: Token) {
    match t
    case Plain(text) => text != "" && NoPlaceholder(text)
    case Emoji(key) => key != "" && AllWord(key)
  }

  /** Keys are nonempty words; texts are nonempty, hold no placeholder and do not follow each other. */
  ghost predicate Normal(ts: seq<Token>) {
    && (forall i :: 0 <= i < |ts| ==> NormalToken(ts[i]))
    && (forall i :: 0 <= i < |ts| - 1 ==> ts[i].Emoji? || ts[i + 1].Emoji?)
  }

  /** Cutting off what follows cannot make a placeholder. */
  lemma MatchInPrefix(s: string, n: nat)
    requires n <= |s|
    ensures MatchLength(s[..n]) > 0 ==> MatchLength(s) == MatchLength(s[..n])
  {
  }

  lemma PrefixIsFree(s: string)
    ensures NoPlaceholder(s[..FirstMatch(s)])
  {
    var p := FirstMatch(s);
    forall i | 0 <= i < p ensures MatchLength(s[..p][i..]) == 0 {
      assert s[..p][i..] == s[i..][..p - i];
      NoneBeforeFirstMatch(s, i);
      MatchInPrefix(s[i..], p - i);
    }
  }

  lemma NormalCons(t: Token, ts: seq<Token>)
    requires NormalToken(t) && Normal(ts) && (t.Plain? && ts != [] ==> ts[0].Emoji?)
    ensures Normal([t] + ts)
  {
  }

  /** Tokenizing gives a normal list: in particular no text holds a complete placeholder. */
  lemma {:induction false} TokensAreNormal(s: string)
    ensures Normal(Tokenize(s))
    decreases |s|
  {
    if s != "" {
      var n, p := MatchLength(s), FirstMatch(s);
      TokenizeStep(s);
      if n > 0 {
        MatchIsPlaceholder(s);
        TokensAreNormal(s[n..]);
        NormalCons(Emoji(s[2..n - 2]), Tokenize(s[n..]));
      } else {
        PrefixIsFree(s);
        TokensAreNormal(s[p..]);
        if p < |s| {
          FirstMatchMatches(s);
          TokenizeStep(s[p..]);
        }
        NormalCons(Plain(s[..p]), Tokenize(s[p..]));
      }
    }
  }

  /** A placeholder that begins in a text cannot reach into the brace after it. */
  lemma NoMatchAcrossBrace(t: string, u: string, i: nat)
    requires i < |t| && NoPlaceholder(t) && u != "" && u[0] == '{'
    ensures MatchLength((t + u)[i..]) == 0
  {
    var s := (t + u)[i..];
    var n := MatchLength(s);
    var b := |t| - i;
    assert s[b] == '{' && s[..b] == t[i..];
    if n > 0 {
      var k := Span(s[2..], IsWord);
      assert n == k + 4;
      if b < n {
      } else {
        assert t[i..][2..] == s[2..b];
        SpanIs(t[i..][2..], IsWord, k);
      }
    }
  }

  lemma FirstMatchIs(s: string, p: nat)
    requires p <= |s| && (p < |s| ==> MatchLength(s[p..]) > 0)
    requires forall i :: 0 <= i < p ==> MatchLength(s[i..]) == 0
    ensures FirstMatch(s) == p
  {
    FirstMatchMatches(s);
    if p < FirstMatch(s) {
      NoneBeforeFirstMatch(s, p);
    }
  }

  lemma PlaceholderMatches(key: string, rest: string)
    requires key != "" && AllWord(key)
    ensures var s := "{:" + key + ":}" + rest;
            MatchLength(s) == |key| + 4 && s[2..MatchLength(s) - 2] == key && s[MatchLength(s)..] == rest
  {
    var s := "{:" + key + ":}" + rest;
    assert s[2..] == key + ":}" + rest;
    SpanIs(s[2..], IsWord, |key|);
  }

  lemma EmojiReadsBack(key: string, rest: string)
    requires key != "" && AllWord(key)
    ensures Tokenize(PrintToken(Emoji(key)) + rest) == [Emoji(key)] + Tokenize(rest)
  {
    PlaceholderMatches(key, rest);
    TokenizeStep(PrintToken(Emoji(key)) + rest);
  }

  lemma PlainReadsBack(text: string, rest: string)
    requires text != "" && NoPlaceholder(text) && (rest != "" ==> MatchLength(rest) > 0)
    ensures Tokenize(text + rest) == [Plain(text)] + Tokenize(rest)
  {
    var s := text + rest;
    assert s[|text|..] == rest && s[..|text|] == text;
    forall i | 0 <= i < |text| ensures MatchLength(s[i..]) == 0 {
      if rest == "" {
        assert s == text;
      } else {
        NoMatchAcrossBrace(text, rest, i);
      }
    }
    FirstMatchIs(s, |text|);
    assert s[0..] == s;
    TokenizeStep(s);
  }

  /** Every normal token list is what tokenizing its printed form gives back. */
  lemma {:induction false} TokenizingUndoesPrinting(ts: seq<Token>)
    requires Normal(ts)
    ensures Tokenize(Print(ts)) == ts
    decreases |ts|
  {
    if ts != [] {
      var rest := ts[1..];
      assert ts == [ts[0]] + rest && NormalToken(ts[0]);
      assert Normal(rest) by {
        assert forall i :: 0 <= i < |rest| ==> rest[i] == ts[i + 1];
      }
      TokenizingUndoesPrinting(rest);
      if ts[0].Emoji? {
        EmojiReadsBack(ts[0].key, Print(rest));
      } else {
        if rest != [] {
          assert rest[0] == ts[1] && NormalToken(rest[0]);
          PlaceholderMatches(rest[0].key, Print(rest[1..]));
        }
        PlainReadsBack(ts[0].text, Print(rest));
      }
    }
  }
}
