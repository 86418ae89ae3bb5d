// What readPump makes of one websocket frame.
module Frames {
  import opened Messages

  const MAX_RUNES: nat := 2000

  // What the client sent, as decoded.
  datatype Frame = Frame(event: Event, text: string, user: string, room: string, owner: bool, extras: Extras)

  datatype Verdict = Reject | Warned | Forward(message: Message)

  predicate IsSpace(c: char) {
    c in "\t\n\U{0B}\U{0C}\r \U{85}\U{A0}\U{1680}\U{2028}\U{2029}\U{202F}\U{205F}\U{3000}" || '\U{2000}' <= c <= '\U{200A}'
  }

  predicate IsBlank(s: string) {
    forall i :: 0 <= i < |s| ==> IsSpace(s[i])
  }

  function EscapeChar(c: char): string {
    match c
    case '&' => "&amp;"
    case '\'' => "&#39;"
    case '<' => "&lt;"
    case '>' => "&gt;"
    case '"' => "&#34;"
    case _ => [c]
  }

  // Each character replaced.
  function Replaced(s: string, how: char -> string): string {
    if s == "" then "" else Replaced(s[..|s| - 1], how) + how(s[|s| - 1])
  }

  function EscapeString(s: string): string {
    Replaced(s, EscapeChar)
  }

  lemma {:induction false} EscapedHasNoMarkup(s: string)
    ensures forall c :: c in EscapeString(s) ==> c != '<' && c != '>' && c != '"' && c != '\''
  {
    if s != "" {
      EscapedHasNoMarkup(s[..|s| - 1]);
      var c := s[|s| - 1];
      assert EscapeString(s) == EscapeString(s[..|s| - 1]) + EscapeChar(c);
      assert forall d :: d in EscapeChar(c) ==> d != '<' && d != '>' && d != '"' && d != '\'';
    }
  }

  // The characters html.EscapeString replaces.
  predicate Special(c: char) {
    c in "&'<>\""
  }

  predicate Plain(s: string) {
    forall i :: 0 <= i < |s| ==> !Special(s[i])
  }

  predicate NoMarkup(s: string) {
    '<' !in s && '>' !in s && '"' !in s && '\'' !in s
  }

  // What a browser shows for an escaped text.
  function Unescape(s: string): string {
    if s == "" then ""
    else if "&amp;" <= s then "&" + Unescape(s[5..])
    else if "&#39;" <= s then "'" + Unescape(s[5..])
    else if "&lt;" <= s then "<" + Unescape(s[4..])
    else if "&gt;" <= s then ">" + Unescape(s[4..])
    else if "&#34;" <= s then "\"" + Unescape(s[5..])
    else [s[0]] + Unescape(s[1..])
  }

  lemma {:induction false} ReplacedConcat(s: string, t: string, how: char -> string)
    ensures Replaced(s + t, how) == Replaced(s, how) + Replaced(t, how)
  {
    if t == "" {
      assert s + t == s;
    } else {
      var u, c := t[..|t| - 1], t[|t| - 1];
      ReplacedConcat(s, u, how);
      assert (s + t)[..|s + t| - 1] == s + u && (s + t)[|s + t| - 1] == c;
      assert Replaced(s + t, how) == Replaced(s + u, how) + how(c);
    }
  }

  lemma EscapeFromFront(s: string)
    requires s != ""
    ensures EscapeString(s) == EscapeChar(s[0]) + EscapeString(s[1..])
  {
    assert s == s[..1] + s[1..] && s[..1][..0] == "";
    ReplacedConcat(s[..1], s[1..], EscapeChar);
  }

  lemma UnescapeOne(c: char, rest: string)
    ensures Unescape(EscapeChar(c) + rest) == [c] + Unescape(rest)
  {
    var e := EscapeChar(c);
    var s := e + rest;
    assert s[|e|..] == rest && s[0] == e[0] && e <= s;
    match c {
      case '&' =>
      case '\'' => assert s[1] == '#' && s[3] == '9';
      case '<' => assert s[1] == 'l';
      case '>' => assert s[1] == 'g';
      case '"' => assert s[1] == '#' && s[3] == '4';
      case _ => assert s[0] != '&';
    }
  }

  // Nothing of a text is lost by escaping it.
  lemma {:induction false} EscapeUndone(s: string)
    ensures Unescape(EscapeString(s)) == s
  {
    if s != "" {
      EscapeFromFront(s);
      EscapeUndone(s[1..]);
      UnescapeOne(s[0], EscapeString(s[1..]));
    }
  }

  lemma {:induction false} PlainStays(s: string)
    requires Plain(s)
    ensures EscapeString(s) == s
  {
    if s != "" {
      PlainStays(s[..|s| - 1]);
      assert !Special(s[|s| - 1]);
    }
  }

  // The white space of Unicode, by code point.
  predicate White(c: char) {
    var n := c as int;
    9 <= n <= 13 || n == 32 || n == 133 || n == 160 || n == 5760 || 8192 <= n <= 8202
    || n == 8232 || n == 8233 || n == 8239 || n == 8287 || n == 12288
  }

  predicate AllWhite(s: string) {
    forall i :: 0 <= i < |s| ==> White(s[i])
  }

  lemma SpacesAreWhite(s: string)
    ensures IsBlank(s) <==> AllWhite(s)
  {
    assert forall c :: IsSpace(c) <==> White(c);
  }

  // `id` and `time` are the message id and the timestamp made for the broadcast.
  function Judge(f: Frame, user: string, room: string, allow: bool, id: string, time: string): Verdict {
    var m := Message(f.event, user, f.text, f.owner, room, f.extras, Internal);
    if !(f.event.Msg? || f.event.MsgFile? || IsTyping(f.event)) then Reject
    else if IsTyping(f.event) then Forward(m)
    else if IsBlank(f.text) then Reject
    else if !allow then Warned
    else if |f.text| > MAX_RUNES then Warned
    else Forward(m.(text := EscapeString(f.text), extras := f.extras.(messageId := id, createdAt := time)))
  }

  // A typing event is forwarded as it came, signed with the connection's own user and
  // room. A text is forwarded exactly when it is not blank, allowed and fits; nothing of
  // it is lost, it has no markup, it bears the server's id and time and keeps the other
  // extras. A text that is not blank and not allowed or too long draws a warning, and
  // everything else is rejected. The owner mark is the client's either way; a hub
  // replaces it in every copy it sends.
  lemma JudgedExactly(f: Frame, user: string, room: string, allow: bool, id: string, time: string)
    ensures var v := Judge(f, user, room, allow, id, time);
            var typing, text := f.event == TypingStart || f.event == TypingStop, f.event == Msg || f.event == MsgFile;
            var blank, fits := AllWhite(f.text), |f.text| <= 2000;
            && (v.Forward? <==> typing || (text && !blank && allow && fits))
            && (v.Warned? <==> text && !blank && (!allow || !fits))
            && (v.Forward? && typing ==> v.message == Message(f.event, user, f.text, f.owner, room, f.extras, Internal))
            && (v.Forward? && text ==>
                  var m := v.message;
                  && m == Message(f.event, user, m.text, f.owner, room, m.extras, Internal)
                  && m.extras == Extras(id, time, f.extras.replyTo, f.extras.encrypted, f.extras.encryptedKeys)
                  && Unescape(m.text) == f.text && NoMarkup(m.text) && (Plain(f.text) ==> m.text == f.text))
  {
    SpacesAreWhite(f.text);
    EscapedHasNoMarkup(f.text);
    EscapeUndone(f.text);
    if Plain(f.text) {
      PlainStays(f.text);
    }
  }

  // The branches of readPump in their order; `msg` is rewritten as it passes.
  method HandleFrame(f: Frame, user: string, room: string, allow: bool, id: string, time: string) returns (v: Verdict)
    ensures v == Judge(f, user, room, allow, id, time)
    ensures var typing, text := f.event == TypingStart || f.event == TypingStop, f.event == Msg || f.event == MsgFile;
            var blank, fits := AllWhite(f.text), |f.text| <= 2000;
            && (v.Forward? <==> typing || (text && !blank && allow && fits))
            && (v.Warned? <==> text && !blank && (!allow || !fits))
            && (v.Forward? && typing ==> v.message == Message(f.event, user, f.text, f.owner, room, f.extras, Internal))
            && (v.Forward? && text ==>
                  var m := v.message;
                  && m == Message(f.event, user, m.text, f.owner, room, m.extras, Internal)
                  && m.extras == Extras(id, time, f.extras.replyTo, f.extras.encrypted, f.extras.encryptedKeys)
                  && Unescape(m.text) == f.text && NoMarkup(m.text) && (Plain(f.text) ==> m.text == f.text))
  {
    JudgedExactly(f, user, room, allow, id, time);
    SpacesAreWhite(f.text);
    var msg := Message(f.event, f.user, f.text, f.owner, f.room, f.extras, Internal);
    msg := msg.(user := user);
    msg := msg.(room := room);
    if msg.event != Msg && msg.event != MsgFile && msg.event != TypingStart && msg.event != TypingStop {
      return Reject;
    }
    if msg.event == TypingStart || msg.event == TypingStop {
      return Forward(msg);
    }
    var blank := HasNoText(msg.text);
    if blank {
      return Reject;
    }
    if !allow {
      return Warned;
    }
    if |msg.text| > MAX_RUNES {
      return Warned;
    }
    var escaped := Escape(msg.text);
    msg := msg.(text := escaped);
    msg := msg.(extras := msg.extras.(messageId := id));
    msg := msg.(extras := msg.extras.(createdAt := time));
    return Forward(msg);
  }

  // Whether nothing is left of a text without its white space.
  method HasNoText(text: string) returns (blank: bool)
    ensures blank <==> AllWhite(text)
  {
    blank := true;
    for i := 0 to |text|
      invariant blank <==> forall j :: 0 <= j < i ==> IsSpace(text[j])
    {
      if !IsSpace(text[i]) {
        blank := false;
      }
    }
    SpacesAreWhite(text);
  }

  method Escape(text: string) returns (escaped: string)
    ensures escaped == EscapeString(text)
  {
    escaped := "";
    for i := 0 to |text|
      invariant escaped == Replaced(text[..i], EscapeChar)
    {
      assert text[..i + 1][..i] == text[..i];
      escaped := escaped + EscapeChar(text[i]);
    }
    assert text[..|text|] == text;
  }
}
