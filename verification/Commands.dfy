/** Parsing of the chat commands that act on a deployment. */
module Commands {
  import opened Decimal
  import opened KubeObjects

  /** Position of the first c, or the length of the text. */
  function IndexOf(s: string, c: char): (i: nat)
    ensures i <= |s| && (forall k :: 0 <= k < i ==> s[k] != c) && (i < |s| ==> s[i] == c)
  {
    if s == [] || s[0] == c then 0
    else
      var i := IndexOf(s[1..], c) + 1;
      assert forall k :: 1 <= k < i ==> s[k] == s[1..][k - 1];
      i
  }

  /** strings.SplitN with a one-character separator. */
  function SplitN(s: string, sep: char, n: nat): (parts: seq<string>)
    requires n > 0
    ensures 1 <= |parts| <= n
  {
    var i := IndexOf(s, sep);
    if n == 1 || i == |s| then [s] else [s[..i]] + SplitN(s[i + 1..], sep, n - 1)
  }

  datatype Command = Command(namespace: string, name: string, number: Int64)

  datatype Rejection = WrongCount | BadTarget | BadNumber

  datatype Parse<+T> = Accepted(command: T) | Rejected(why: Rejection)

  /** /scale and /rollback: command, namespace/name, number. */
  function ParseNumbered(text: string): Parse<Command> {
    var parts := SplitN(text, ' ', 3);
    if |parts| < 3 then Rejected(WrongCount)
    else
      var data := SplitN(parts[1], '/', 2);
      if |data| < 2 then Rejected(BadTarget)
      else
        var number := ParseInt(parts[2]);
        if !number.ok then Rejected(BadNumber) else Accepted(Command(data[0], data[1], number.value))
  }

  /** /restart and /revisions: command, namespace/name. */
  function ParseTarget(text: string): Parse<(string, string)> {
    var parts := SplitN(text, ' ', 2);
    if |parts| < 2 then Rejected(WrongCount)
    else
      var data := SplitN(parts[1], '/', 2);
      if |data| < 2 then Rejected(BadTarget) else Accepted((data[0], data[1]))
  }

  predicate Free(s: string, c: char) { c !in s }

  lemma IndexOfUnique(a: string, c: char, b: string)
    requires Free(a, c)
    ensures IndexOf(a + [c] + b, c) == |a|
  {
    var s := a + [c] + b;
    assert s[|a|] == c;
    assert forall k :: 0 <= k < |a| ==> s[k] == a[k] && a[k] in a;
  }

  /** A text splits once exactly when it contains the separator, and then at the first one. */
  lemma SplitOnce(s: string, sep: char, n: nat)
    requires n > 1
    ensures |SplitN(s, sep, n)| > 1 <==> sep in s
    ensures sep in s ==>
              var a, b := SplitN(s, sep, n)[0], s[IndexOf(s, sep) + 1..];
              s == a + [sep] + b && Free(a, sep) && SplitN(s, sep, n) == [a] + SplitN(b, sep, n - 1)
  {
    var i := IndexOf(s, sep);
    if i < |s| {
      assert s[i] in s;
      assert s == s[..i] + [sep] + s[i + 1..];
      assert Free(s[..i], sep);
    } else {
      assert sep !in s;
    }
  }

  lemma SplitAt(a: string, sep: char, b: string, n: nat)
    requires Free(a, sep) && n > 1
    ensures SplitN(a + [sep] + b, sep, n) == [a] + SplitN(b, sep, n - 1)
  {
    IndexOfUnique(a, sep, b);
    assert (a + [sep] + b)[..|a|] == a && (a + [sep] + b)[|a| + 1..] == b;
  }

  /** The shape of an accepted text. */
  predicate Spells(text: string, cmd: string, c: Command, digits: string) {
    && text == cmd + [' '] + ((c.namespace + ['/'] + c.name) + [' '] + digits)
    && Free(cmd, ' ') && Free(c.namespace, ' ') && Free(c.namespace, '/') && Free(c.name, ' ')
    && ParseInt(digits) == Parsed(c.number, true)
  }

  lemma SpelledIsAccepted(text: string, cmd: string, c: Command, digits: string)
    requires Spells(text, cmd, c, digits)
    ensures ParseNumbered(text) == Accepted(c)
  {
    var target := c.namespace + ['/'] + c.name;
    assert Free(target, ' ') by {
      assert forall x :: x in target ==> x in c.namespace || x == '/' || x in c.name;
    }
    assert SplitN(digits, ' ', 1) == [digits] && SplitN(c.name, '/', 1) == [c.name];
    hide SplitN;
    hide ParseInt;
    hide Free;
    SplitAt(cmd, ' ', target + [' '] + digits, 3);
    SplitAt(target, ' ', digits, 2);
    SplitAt(c.namespace, '/', c.name, 2);
  }

  lemma SplitTwo(s: string, sep: char)
    ensures var parts := SplitN(s, sep, 2);
            if sep in s then |parts| == 2 && s == parts[0] + [sep] + parts[1] && Free(parts[0], sep) else |parts| == 1
  {
    SplitOnce(s, sep, 2);
  }

  lemma SplitThree(s: string, sep: char)
    ensures var parts := SplitN(s, sep, 3);
            |parts| == 3 ==> s == parts[0] + [sep] + (parts[1] + [sep] + parts[2])
                             && Free(parts[0], sep) && Free(parts[1], sep)
  {
    SplitOnce(s, sep, 3);
    if sep in s {
      SplitTwo(s[IndexOf(s, sep) + 1..], sep);
    }
  }

  lemma AcceptedIsSpelled(text: string) returns (cmd: string, digits: string)
    requires ParseNumbered(text).Accepted?
    ensures Spells(text, cmd, ParseNumbered(text).command, digits)
  {
    hide SplitN;
    hide ParseInt;
    var parts := SplitN(text, ' ', 3);
    SplitThree(text, ' ');
    var data := SplitN(parts[1], '/', 2);
    SplitTwo(parts[1], '/');
    assert forall x :: x in data[0] || x in data[1] ==> x in parts[1];
    cmd, digits := parts[0], parts[2];
  }

  /** Exactly the texts "command namespace/name number" are accepted, and they are read in only one way. */
  lemma AcceptedTexts(text: string, c: Command)
    ensures ParseNumbered(text) == Accepted(c) <==> exists cmd, digits :: Spells(text, cmd, c, digits)
  {
    if ParseNumbered(text) == Accepted(c) {
      var cmd, digits := AcceptedIsSpelled(text);
    }
    if cmd, digits :| Spells(text, cmd, c, digits) {
      SpelledIsAccepted(text, cmd, c, digits);
    }
  }

  /** Printing a command and parsing it back. */
  lemma CommandRoundTrip(cmd: string, c: Command)
    requires Free(cmd, ' ') && Free(c.namespace, ' ') && Free(c.namespace, '/') && Free(c.name, ' ')
    ensures ParseNumbered(cmd + " " + c.namespace + "/" + c.name + " " + Print(c.number)) == Accepted(c)
  {
    ParsePrint(c.number);
    var text := cmd + " " + c.namespace + "/" + c.name + " " + Print(c.number);
    assert text == cmd + [' '] + ((c.namespace + ['/'] + c.name) + [' '] + Print(c.number));
    SpelledIsAccepted(text, cmd, c, Print(c.number));
  }

  /** Without a number the rest of the text is the target: everything up to its first slash is the namespace. */
  lemma AcceptedTargets(text: string, namespace: string, name: string)
    ensures ParseTarget(text) == Accepted((namespace, name)) <==>
            exists cmd :: text == cmd + [' '] + (namespace + ['/'] + name) && Free(cmd, ' ') && Free(namespace, '/')
  {
    hide SplitN;
    forall cmd | text == cmd + [' '] + (namespace + ['/'] + name) && Free(cmd, ' ') && Free(namespace, '/')
      ensures ParseTarget(text) == Accepted((namespace, name))
    {
      TargetIsAccepted(cmd, namespace, name);
    }
    if ParseTarget(text) == Accepted((namespace, name)) {
      var parts := SplitN(text, ' ', 2);
      SplitTwo(text, ' ');
      SplitTwo(parts[1], '/');
      assert text == parts[0] + [' '] + (namespace + ['/'] + name);
    }
  }

  lemma TargetIsAccepted(cmd: string, namespace: string, name: string)
    requires Free(cmd, ' ') && Free(namespace, '/')
    ensures ParseTarget(cmd + [' '] + (namespace + ['/'] + name)) == Accepted((namespace, name))
  {
    SplitAt(cmd, ' ', namespace + ['/'] + name, 2);
    SplitAt(namespace, '/', name, 2);
  }

  // ---------- refusals ----------

  /** The text is three parts, with a blank after each of the first two, which have none. */
  predicate ThreeParts(text: string, a: string, b: string, c: string) {
    text == a + [' '] + (b + [' '] + c) && ' ' !in a && ' ' !in b
  }

  lemma ThreePartsAreSplit(text: string, a: string, b: string, c: string)
    requires ThreeParts(text, a, b, c)
    ensures SplitN(text, ' ', 3) == [a, b, c]
  {
    assert SplitN(c, ' ', 1) == [c];
    hide SplitN;
    SplitAt(a, ' ', b + [' '] + c, 3);
    SplitAt(b, ' ', c, 2);
  }

  lemma SplitsInThree(text: string)
    ensures var parts := SplitN(text, ' ', 3); |parts| == 3 ==> ThreeParts(text, parts[0], parts[1], parts[2])
  {
    hide SplitN;
    SplitThree(text, ' ');
  }

  /** Exactly why /scale and /rollback refuse a text: fewer than two blanks, no slash between the first two, or no
      number after them. */
  lemma RejectedTexts(text: string)
    ensures ParseNumbered(text) == Rejected(WrongCount) <==> !exists a, b, c :: ThreeParts(text, a, b, c)
    ensures ParseNumbered(text) == Rejected(BadTarget) <==> exists a, b, c :: ThreeParts(text, a, b, c) && '/' !in b
    ensures ParseNumbered(text) == Rejected(BadNumber) <==>
            exists a, b, c :: ThreeParts(text, a, b, c) && '/' in b && !ParseInt(c).ok
  {
    hide ParseInt;
    hide ThreeParts;
    SplitsInThree(text);
    forall a, b, c | ThreeParts(text, a, b, c) ensures SplitN(text, ' ', 3) == [a, b, c] {
      ThreePartsAreSplit(text, a, b, c);
    }
    hide SplitN;
    var parts := SplitN(text, ' ', 3);
    if |parts| == 3 {
      SplitTwo(parts[1], '/');
    }
  }

  /** And /restart and /revisions: no blank, or no slash after the first one. */
  lemma RejectedTargets(text: string)
    ensures ParseTarget(text) == Rejected(WrongCount) <==> ' ' !in text
    ensures ParseTarget(text) == Rejected(BadTarget) <==>
            exists a, b :: text == a + [' '] + b && ' ' !in a && '/' !in b
    ensures ParseTarget(text) != Rejected(BadNumber)
  {
    SplitTwo(text, ' ');
    forall a, b | text == a + [' '] + b && ' ' !in a ensures SplitN(text, ' ', 2) == [a, b] {
      assert SplitN(b, ' ', 1) == [b];
      SplitAt(a, ' ', b, 2);
      assert text[|a|] == ' ';
    }
    hide SplitN;
    var parts := SplitN(text, ' ', 2);
    if |parts| == 2 {
      SplitTwo(parts[1], '/');
    }
  }

  // ---------- int32(num) ----------

  const TWO_32: int := 0x1_0000_0000

  /** Conversion of a 64-bit integer to int32: the low 32 bits in two's complement. */
  function Narrow(n: Int64): Int32 {
    var low := n % TWO_32;
    if low < 0x8000_0000 then low else low - TWO_32
  }

  /** What /scale hands to the operation: namespace, name and replica count. */
  function ScaleArguments(text: string): Parse<(string, string, Int32)> {
    match ParseNumbered(text)
    case Rejected(why) => Rejected(why)
    case Accepted(c) => Accepted((c.namespace, c.name, Narrow(c.number)))
  }

  predicate Congruent(n: int, m: int) { (n - m) % TWO_32 == 0 }

  lemma NarrowIsCongruent(n: Int64, m: Int32)
    ensures Congruent(n, m) <==> m == Narrow(n)
  {
    if Congruent(n, m) {
      assert n == m + TWO_32 * ((n - m) / TWO_32);
    }
  }

  /** A printed /scale command hands on the typed number exactly when that fits in 32 bits; otherwise the one 32-bit
      number congruent to it. */
  lemma ScaleRoundTrip(cmd: string, c: Command)
    requires Free(cmd, ' ') && Free(c.namespace, ' ') && Free(c.namespace, '/') && Free(c.name, ' ')
    ensures var args := ScaleArguments(cmd + " " + c.namespace + "/" + c.name + " " + Print(c.number));
            && args.Accepted? && args.command.0 == c.namespace && args.command.1 == c.name
            && (args.command.2 == c.number <==> -0x8000_0000 <= c.number < 0x8000_0000)
            && forall m: Int32 :: Congruent(c.number, m) <==> m == args.command.2
  {
    CommandRoundTrip(cmd, c);
    forall m: Int32 ensures Congruent(c.number, m) <==> m == Narrow(c.number) {
      NarrowIsCongruent(c.number, m);
    }
  }
}
