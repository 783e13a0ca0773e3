/** escapeMarkdown and its inverse, in the sense of the section "MarkdownV2 style" of the Telegram Bot API. */
module Markdown {
  import opened Wrappers

  predicate Reserved(c: char) { c in "_*[]()~`>#+-=|{}.!" }

  /** The replacer looks at every character of its input once. */
  function Escape(s: string): string {
    if s == [] then [] else EscapeChar(s[0]) + Escape(s[1..])
  }

  function EscapeChar(c: char): string { if Reserved(c) then ['\\', c] else [c] }

  lemma {:induction false} EscapeConcat(s: string, t: string)
    ensures Escape(s + t) == Escape(s) + Escape(t)
  {
    if s == [] {
      assert s + t == t;
    } else {
      assert (s + t)[0] == s[0] && (s + t)[1..] == s[1..] + t;
      EscapeConcat(s[1..], t);
    }
  }

  lemma {:induction false} EscapeHead(s: string)
    ensures Escape(s) != [] ==> !Reserved(Escape(s)[0])
    ensures Escape(s) == [] <==> s == []
  {
  }

  /** The characters that the section demands to be escaped outside entities. */
  predicate MustBeEscaped(c: char) {
    c in {'_', '*', '[', ']', '(', ')', '~', '`', '>', '#', '+', '-', '=', '|', '{', '}', '.', '!'}
  }

  lemma ReservedMeaning(c: char)
    ensures Reserved(c) <==> MustBeEscaped(c)
  {
  }

  /** Every character of the output that must be escaped stands right behind a backslash. */
  lemma {:induction false} ReservedIsEscaped(s: string, k: nat)
    requires k < |Escape(s)| && MustBeEscaped(Escape(s)[k])
    ensures k > 0 && Escape(s)[k - 1] == '\\'
  {
    ReservedMeaning(Escape(s)[k]);
    var head := EscapeChar(s[0]);
    if k >= |head| {
      EscapeHead(s[1..]);
      ReservedIsEscaped(s[1..], k - |head|);
    }
  }

  /** Takes back exactly what Escape inserts. */
  function Strip(t: string): string {
    if t == [] then []
    else if |t| > 1 && t[0] == '\\' && Reserved(t[1]) then [t[1]] + Strip(t[2..])
    else [t[0]] + Strip(t[1..])
  }

  lemma {:induction false} StripEscape(s: string)
    ensures Strip(Escape(s)) == s
  {
    if s != [] {
      var rest := Escape(s[1..]);
      StripEscape(s[1..]);
      EscapeHead(s[1..]);
      if Reserved(s[0]) {
        assert Escape(s)[2..] == rest;
      } else {
        assert Escape(s)[1..] == rest;
      }
    }
  }

  /** No two texts are escaped to the same text, backslashes included. */
  lemma EscapeInjective(s: string, t: string)
    requires Escape(s) == Escape(t)
    ensures s == t
  {
    StripEscape(s);
    StripEscape(t);
  }

  /** Characters Telegram takes literally behind a backslash. */
  predicate Escapable(c: char) { 1 <= c as int <= 126 }

  /** The text Telegram shows: left to right, a backslash makes the next character literal, and a reserved character
      without one is not plain text. */
  function Shown(t: string): Option<string> {
    if t == [] then Some([])
    else if t[0] == '\\' && |t| > 1 && Escapable(t[1]) then Prepend(t[1], Shown(t[2..]))
    else if MustBeEscaped(t[0]) then None
    else Prepend(t[0], Shown(t[1..]))
  }

  function Prepend(c: char, rest: Option<string>): Option<string> {
    match rest
    case None => None
    case Some(s) => Some([c] + s)
  }

  /** A backslash in the input is harmless when it is last or followed by a character that cannot be escaped. */
  predicate HarmlessBackslashes(s: string) {
    forall i :: 0 <= i < |s| - 1 && s[i] == '\\' ==> !Escapable(s[i + 1])
  }

  lemma HarmlessTail(s: string)
    requires s != []
    ensures HarmlessBackslashes(s) <==>
            HarmlessBackslashes(s[1..]) && (s[0] == '\\' && |s| > 1 ==> !Escapable(s[1]))
  {
    assert forall i :: 0 <= i < |s| - 1 ==> s[1..][i] == s[i + 1];
    if HarmlessBackslashes(s[1..]) && (s[0] == '\\' && |s| > 1 ==> !Escapable(s[1])) {
      forall i | 0 <= i < |s| - 1 && s[i] == '\\' ensures !Escapable(s[i + 1]) {
        if i > 0 {
          assert s[1..][i - 1] == '\\' && s[1..][i] == s[i + 1];
        }
      }
    }
    if HarmlessBackslashes(s) {
      forall i | 0 <= i < |s[1..]| - 1 && s[1..][i] == '\\' ensures !Escapable(s[1..][i + 1]) {
        assert s[i + 1] == '\\';
      }
    }
  }

  lemma ReservedIsEscapable(c: char)
    ensures Reserved(c) ==> Escapable(c)
  {
  }

  lemma {:induction false} HarmlessIsShown(s: string)
    requires HarmlessBackslashes(s)
    ensures Shown(Escape(s)) == Some(s)
  {
    if s != [] {
      var t := Escape(s);
      HarmlessTail(s);
      HarmlessIsShown(s[1..]);
      ReservedIsEscapable(s[0]);
      assert s == [s[0]] + s[1..];
      if Reserved(s[0]) {
        assert t[2..] == Escape(s[1..]);
      } else {
        assert t[1..] == Escape(s[1..]);
        if |s| > 1 {
          ReservedIsEscapable(s[1]);
        }
      }
    }
  }

  /** A backslash in front of a character that can be escaped is itself swallowed, so the shown text (if there is one)
      is shorter than the input. */
  lemma {:induction false} SwallowedBackslash(s: string)
    ensures Shown(Escape(s)).Some? ==>
              |Shown(Escape(s)).value| <= |s| && (!HarmlessBackslashes(s) ==> |Shown(Escape(s)).value| < |s|)
    decreases |s|
  {
    if s != [] {
      var t := Escape(s);
      HarmlessTail(s);
      ReservedMeaning(s[0]);
      ReservedIsEscapable(s[0]);
      if |s| > 1 {
        ReservedMeaning(s[1]);
        ReservedIsEscapable(s[1]);
      }
      hide Reserved;
      hide MustBeEscaped;
      if Reserved(s[0]) {
        assert t[2..] == Escape(s[1..]);
        SwallowedBackslash(s[1..]);
      } else if s[0] == '\\' && |s| > 1 && Escapable(s[1]) {
        assert t[1..] == Escape(s[1..]);
        if Reserved(s[1]) {
          assert t[2..][0] == s[1];
        } else {
          assert t[2..] == Escape(s[1..][1..]);
          SwallowedBackslash(s[1..][1..]);
        }
      } else {
        assert t[1..] == Escape(s[1..]);
        SwallowedBackslash(s[1..]);
      }
    }
  }

  /** Telegram shows an escaped text as it was exactly when each of its backslashes is harmless; in particular when it
      has none. */
  lemma ShownAsWritten(s: string)
    ensures Shown(Escape(s)) == Some(s) <==> HarmlessBackslashes(s)
    ensures '\\' !in s ==> HarmlessBackslashes(s)
  {
    if HarmlessBackslashes(s) {
      HarmlessIsShown(s);
    } else {
      SwallowedBackslash(s);
    }
  }
}
