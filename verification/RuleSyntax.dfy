/** normalizeRule of network/hostport/fake_iptables.go: the text form in which rules are stored.

    A rule is read argument by argument; a quoted argument runs to its closing quote and the
    character after it is skipped unseen.  The main result is that the stored form of a rule is
    its own normal form, which is what lets saved rules be fed back. */
module RuleSyntax {
  import opened Text

  const TO_DESTINATION := "--to-destination"
  const TO_DESTINATION_EQ := TO_DESTINATION + "="

  /** What normalizeRule relies on of net.ParseIP, which it takes as the parameter `isIP`: the texts
      it accepts are made of hexadecimal digits, dots and colons, with a dot or a colon among them. */
  ghost predicate IPTexts(isIP: string -> bool) {
    forall s :: isIP(s) ==> (forall c :: c in s ==> IPChar(c)) && ('.' in s || ':' in s)
  }

  predicate IPChar(c: char) {
    '0' <= c <= '9' || 'a' <= c <= 'f' || 'A' <= c <= 'F' || c == '.' || c == ':'
  }

  /** unicode.IsSpace: Latin-1 white space, and the white space beyond it. */
  predicate IsSpace(c: char) {
    c == ' ' || '\t' <= c <= '\r' || c == '\U{85}' || c == '\U{A0}' || WideSpace(c)
  }

  predicate WideSpace(c: char) {
    || c == '\U{1680}' || '\U{2000}' <= c <= '\U{200A}' || c == '\U{2028}' || c == '\U{2029}'
    || c == '\U{202F}' || c == '\U{205F}' || c == '\U{3000}'
  }

  function TrimLeft(s: string): string {
    if s == "" || !IsSpace(s[0]) then s else TrimLeft(s[1..])
  }

  function TrimRight(s: string): string {
    if s == "" || !IsSpace(s[|s| - 1]) then s else TrimRight(s[..|s| - 1])
  }

  /** strings.TrimSpace. */
  function TrimSpace(s: string): string { TrimRight(TrimLeft(s)) }

  /** `OutOfRange` is the run-time panic of indexing an empty string. */
  datatype Norm = Normal(rule: string) | MismatchedQuotes | OutOfRange

  /** "--to-destination=x" is read as two arguments. */
  function Unfold(s: string): (u: string)
    ensures |u| == |s|
  {
    if HasPrefix(s, TO_DESTINATION_EQ) then TO_DESTINATION + " " + s[|TO_DESTINATION_EQ|..] else s
  }

  /** Where the first argument of a non-empty text ends, if its quotes match. */
  function ArgEnd(s: string): (end: Option<nat>)
    requires s != ""
    ensures end.Some? ==> end.value <= |s|
  {
    if s[0] == '"' then
      var i := IndexOf(s[1..], '"');
      if i == |s| - 1 then None else Some(i + 2)
    else Some(IndexOf(s, ' '))
  }

  /** IP addresses without a prefix length get one, as iptables prints them. */
  function Canonical(arg: string, isIP: string -> bool): string {
    TrimSpace(if isIP(arg) then arg + "/32" else arg)
  }

  /** The loop of normalizeRule with the text still to be read and the text written so far.  What follows a
      closing quote is skipped unseen: one character here, one byte in the source, which differs where that
      character takes more than one byte. */
  function NormalizeFrom(remaining: string, normalized: string, isIP: string -> bool): Norm
    decreases |remaining|
  {
    var s := Unfold(remaining);
    if s == "" then OutOfRange
    else if ArgEnd(s).None? then MismatchedQuotes
    else
      var end := ArgEnd(s).value;
      var written := (if normalized == "" then "" else normalized + " ") + Canonical(s[..end], isIP);
      if end == |s| then Normal(written) else NormalizeFrom(s[end + 1..], written, isIP)
  }

  function NormalizeRule(rule: string, isIP: string -> bool): Norm {
    NormalizeFrom(TrimSpace(rule), "", isIP)
  }

  lemma NormalizeStep(remaining: string, acc: string, isIP: string -> bool)
    requires Unfold(remaining) != "" && ArgEnd(Unfold(remaining)).Some?
    ensures var s := Unfold(remaining); var end := ArgEnd(s).value;
      var written := (if acc == "" then "" else acc + " ") + Canonical(s[..end], isIP);
      NormalizeFrom(remaining, acc, isIP) == if end == |s| then Normal(written) else NormalizeFrom(s[end + 1..], written, isIP)
  {
  }

  // ---- the arguments of a rule ---------------------------------------------------------------------

  datatype Reading = Args(args: seq<string>) | Unmatched | Exhausted

  /** The canonical arguments of a text, in order. */
  function Read(remaining: string, isIP: string -> bool): Reading
    decreases |remaining|
  {
    var s := Unfold(remaining);
    if s == "" then Exhausted
    else if ArgEnd(s).None? then Unmatched
    else
      var end := ArgEnd(s).value;
      var arg := Canonical(s[..end], isIP);
      if end == |s| then Args([arg])
      else
        var rest := Read(s[end + 1..], isIP);
        if rest.Args? then Args([arg] + rest.args) else rest
  }

  function Glue(acc: string, args: seq<string>): string
    decreases |args|
  {
    if args == [] then acc else Glue((if acc == "" then "" else acc + " ") + args[0], args[1..])
  }

  lemma {:induction false} NormalizeIsReadAndGlue(remaining: string, acc: string, isIP: string -> bool)
    ensures NormalizeFrom(remaining, acc, isIP) ==
      match Read(remaining, isIP)
      case Args(args) => Normal(Glue(acc, args))
      case Unmatched => MismatchedQuotes
      case Exhausted => OutOfRange
    decreases |remaining|
  {
    var s := Unfold(remaining);
    if s != "" && ArgEnd(s).Some? {
      NormalizeStep(remaining, acc, isIP);
      ReadStep(remaining, isIP);
      var end := ArgEnd(s).value;
      var arg := Canonical(s[..end], isIP);
      var written := (if acc == "" then "" else acc + " ") + arg;
      if end < |s| {
        NormalizeIsReadAndGlue(s[end + 1..], written, isIP);
        var rest := Read(s[end + 1..], isIP);
        if rest.Args? { GlueCons(acc, arg, rest.args); }
      } else {
        GlueCons(acc, arg, []);
      }
    }
  }

  lemma ReadStep(remaining: string, isIP: string -> bool)
    requires Unfold(remaining) != "" && ArgEnd(Unfold(remaining)).Some?
    ensures var s := Unfold(remaining); var end := ArgEnd(s).value; var arg := Canonical(s[..end], isIP);
      Read(remaining, isIP) ==
        if end == |s| then Args([arg])
        else var rest := Read(s[end + 1..], isIP); if rest.Args? then Args([arg] + rest.args) else rest
  {
  }

  lemma GlueCons(acc: string, arg: string, rest: seq<string>)
    ensures Glue(acc, [arg] + rest) == Glue((if acc == "" then "" else acc + " ") + arg, rest)
  {
  }

  lemma {:induction false} GlueIsJoin(acc: string, args: seq<string>)
    requires acc != ""
    ensures Glue(acc, args) == if args == [] then acc else acc + " " + Join(args, " ")
    decreases |args|
  {
    if args != [] {
      GlueIsJoin(acc + " " + args[0], args[1..]);
      if |args| == 1 {
        assert args[1..] == [];
      } else {
        assert acc + " " + args[0] + " " + Join(args[1..], " ") == acc + " " + (args[0] + " " + Join(args[1..], " "));
      }
    }
  }

  // ---- arguments that read back as themselves -----------------------------------------------------------

  predicate Quoted(a: string) {
    |a| >= 2 && a[0] == '"' && a[|a| - 1] == '"' && '"' !in a[1..|a| - 1]
  }

  ghost predicate Plain(a: string, isIP: string -> bool) {
    && (forall c :: c in a ==> !IsSpace(c))
    && (a == "" || a[0] != '"') && !HasPrefix(a, TO_DESTINATION_EQ) && !isIP(a)
  }

  ghost predicate Stable(a: string, isIP: string -> bool) {
    Quoted(a) || Plain(a, isIP)
  }

  ghost predicate StableArgs(args: seq<string>, isIP: string -> bool) {
    && |args| > 0 && args[|args| - 1] != ""
    && forall i :: 0 <= i < |args| ==> Stable(args[i], isIP)
  }

  lemma StableIsCanonical(a: string, isIP: string -> bool)
    requires IPTexts(isIP) && Stable(a, isIP)
    ensures Canonical(a, isIP) == a
  {
    if Quoted(a) {
      assert a[0] in a;
      assert !isIP(a);
    }
    assert a != "" ==> !IsSpace(a[0]) && !IsSpace(a[|a| - 1]);
  }

  lemma PrefixNeedsNoSpace(a: string, rest: string)
    ensures HasPrefix(a + " " + rest, TO_DESTINATION_EQ) ==> HasPrefix(a, TO_DESTINATION_EQ)
  {
    var s := a + " " + rest;
    if HasPrefix(s, TO_DESTINATION_EQ) {
      assert forall i :: 0 <= i < |TO_DESTINATION_EQ| ==> s[i] == TO_DESTINATION_EQ[i];
      assert forall i :: 0 <= i < |TO_DESTINATION_EQ| ==> TO_DESTINATION_EQ[i] != ' ';
      assert s[|a|] == ' ';
      assert a[..|TO_DESTINATION_EQ|] == s[..|TO_DESTINATION_EQ|];
    }
  }

  lemma QuotedEnds(a: string, rest: string)
    requires Quoted(a)
    ensures ArgEnd(a + " " + rest) == Some(|a|) && ArgEnd(a) == Some(|a|)
  {
    var inner := a[1..|a| - 1];
    assert (a + " " + rest)[1..] == inner + ['"'] + (" " + rest);
    IndexOfFirst(inner, '"', " " + rest);
    assert a[1..] == inner + ['"'] + "";
    IndexOfFirst(inner, '"', "");
  }

  lemma SpacelessEnds(a: string, rest: string)
    requires ' ' !in a && (a == "" || a[0] != '"')
    ensures ArgEnd(a + " " + rest) == Some(|a|) && (a != "" ==> ArgEnd(a) == Some(|a|))
  {
    IndexOfFirst(a, ' ', rest);
    assert a + " " + rest == a + [' '] + rest;
  }

  /** A stable argument at the front of a text is read off as it stands. */
  lemma StableReadsBack(a: string, rest: string, isIP: string -> bool)
    requires Stable(a, isIP)
    ensures var s := a + " " + rest; Unfold(s) == s && s != "" && ArgEnd(s) == Some(|a|)
    ensures a != "" ==> Unfold(a) == a && ArgEnd(a) == Some(|a|)
  {
    PrefixNeedsNoSpace(a, rest);
    if Quoted(a) {
      QuotedEnds(a, rest);
      assert a[0] != TO_DESTINATION_EQ[0];
    } else {
      SpacelessEnds(a, rest);
    }
  }

  lemma ReadCons(arg: string, rest: string, isIP: string -> bool)
    requires IPTexts(isIP) && Stable(arg, isIP) && Read(rest, isIP).Args?
    ensures Read(arg + " " + rest, isIP) == Args([arg] + Read(rest, isIP).args)
  {
    var s := arg + " " + rest;
    StableReadsBack(arg, rest, isIP);
    StableIsCanonical(arg, isIP);
    assert s[..|arg|] == arg && s[|arg| + 1..] == rest;
  }

  lemma ReadOne(arg: string, isIP: string -> bool)
    requires IPTexts(isIP) && Stable(arg, isIP) && arg != ""
    ensures Read(arg, isIP) == Args([arg])
  {
    StableReadsBack(arg, "", isIP);
    StableIsCanonical(arg, isIP);
    assert arg[..|arg|] == arg;
  }

  /** Joined stable arguments are read back exactly. */
  lemma {:induction false} StableArgsReadBack(args: seq<string>, isIP: string -> bool)
    requires IPTexts(isIP) && StableArgs(args, isIP)
    ensures Read(Join(args, " "), isIP) == Args(args)
    decreases |args|
  {
    if |args| == 1 {
      ReadOne(args[0], isIP);
    } else {
      StableArgsReadBack(args[1..], isIP);
      ReadCons(args[0], Join(args[1..], " "), isIP);
      assert [args[0]] + args[1..] == args;
    }
  }

  // ---- every argument read is stable ------------------------------------------------------------------------

  ghost predicate OnlySpaces(s: string) {
    forall c :: c in s && IsSpace(c) ==> c == ' '
  }

  lemma UnfoldKeeps(s: string)
    requires OnlySpaces(s)
    ensures OnlySpaces(Unfold(s)) && !HasPrefix(Unfold(s), TO_DESTINATION_EQ)
  {
    if HasPrefix(s, TO_DESTINATION_EQ) {
      var u := Unfold(s);
      assert u[|TO_DESTINATION|] == ' ';
      assert TO_DESTINATION_EQ[|TO_DESTINATION|] == '=';
      assert forall c :: c in TO_DESTINATION + " " ==> IsSpace(c) ==> c == ' ';
    }
  }

  lemma ArgIsStable(s: string, isIP: string -> bool)
    requires IPTexts(isIP) && OnlySpaces(s) && !HasPrefix(s, TO_DESTINATION_EQ) && s != "" && ArgEnd(s).Some?
    ensures var arg := s[..ArgEnd(s).value];
      Stable(Canonical(arg, isIP), isIP) && (arg != "" ==> Canonical(arg, isIP) != "")
  {
    var end := ArgEnd(s).value;
    var arg := s[..end];
    if s[0] == '"' {
      assert arg[1..|arg| - 1] == s[1..][..end - 2];
      StableIsCanonical(arg, isIP);
    } else {
      assert arg == s[..IndexOf(s, ' ')];
      assert HasPrefix(arg, TO_DESTINATION_EQ) ==> HasPrefix(s, TO_DESTINATION_EQ);
      if isIP(arg) {
        IPBecomesStable(arg, isIP);
      } else {
        StableIsCanonical(arg, isIP);
      }
    }
  }

  lemma IPBecomesStable(arg: string, isIP: string -> bool)
    requires IPTexts(isIP) && isIP(arg)
    ensures Stable(arg + "/32", isIP) && Canonical(arg, isIP) == arg + "/32"
  {
    var a := arg + "/32";
    assert '/' in a && !IPChar('/');
    assert IPChar(a[0]) by { assert a[0] == arg[0]; }
    assert TO_DESTINATION_EQ[0] == '-';
    assert forall c :: c in a ==> !IsSpace(c);
    StableIsCanonical(a, isIP);
  }

  lemma ReadFirst(remaining: string, isIP: string -> bool)
    requires Read(remaining, isIP).Args?
    ensures var s := Unfold(remaining); s != "" && ArgEnd(s).Some?
    ensures var s := Unfold(remaining); var end := ArgEnd(s).value;
      Read(remaining, isIP).args == [Canonical(s[..end], isIP)] +
        (if end == |s| then [] else Read(s[end + 1..], isIP).args)
    ensures var s := Unfold(remaining); var end := ArgEnd(s).value; end < |s| ==> Read(s[end + 1..], isIP).Args?
  {
  }

  lemma StableCons(arg: string, rest: seq<string>, isIP: string -> bool)
    requires Stable(arg, isIP) && if rest == [] then arg != "" else StableArgs(rest, isIP)
    ensures StableArgs([arg] + rest, isIP)
  {
  }

  lemma StableOne(arg: string, isIP: string -> bool)
    requires Stable(arg, isIP) && arg != ""
    ensures StableArgs([arg], isIP)
  {
  }

  /** The first argument of a text without other white space. */
  lemma FirstIsStable(remaining: string, isIP: string -> bool)
    requires IPTexts(isIP) && OnlySpaces(remaining) && Unfold(remaining) != "" && ArgEnd(Unfold(remaining)).Some?
    ensures var s := Unfold(remaining); var end := ArgEnd(s).value;
      && Stable(Canonical(s[..end], isIP), isIP)
      && (end == |s| ==> Canonical(s[..end], isIP) != "") && (end < |s| ==> OnlySpaces(s[end + 1..]))
  {
    UnfoldKeeps(remaining);
    ArgIsStable(Unfold(remaining), isIP);
  }

  lemma {:induction false} ReadIsStable(remaining: string, isIP: string -> bool)
    requires IPTexts(isIP) && OnlySpaces(remaining) && Read(remaining, isIP).Args?
    ensures StableArgs(Read(remaining, isIP).args, isIP)
    decreases |remaining|
  {
    ReadFirst(remaining, isIP);
    FirstIsStable(remaining, isIP);
    var s := Unfold(remaining);
    var end := ArgEnd(s).value;
    if end < |s| {
      ReadIsStable(s[end + 1..], isIP);
      StableCons(Canonical(s[..end], isIP), Read(s[end + 1..], isIP).args, isIP);
    } else {
      assert Read(remaining, isIP).args == [Canonical(s[..end], isIP)];
      StableOne(Canonical(s[..end], isIP), isIP);
    }
  }

  // ---- normal forms are normal ---------------------------------------------------------------------------------

  lemma {:induction false} TrimSpaceKeeps(s: string)
    requires OnlySpaces(s)
    ensures OnlySpaces(TrimSpace(s))
    ensures TrimSpace(s) != "" ==> !IsSpace(TrimSpace(s)[0])
    decreases |s|
  {
    TrimLeftPrefix(s);
    TrimRightSuffix(TrimLeft(s));
  }

  lemma {:induction false} TrimLeftPrefix(s: string)
    ensures forall c :: c in TrimLeft(s) ==> c in s
    ensures TrimLeft(s) != "" ==> !IsSpace(TrimLeft(s)[0])
  {
    if s != "" && IsSpace(s[0]) { TrimLeftPrefix(s[1..]); }
  }

  lemma {:induction false} TrimRightSuffix(s: string)
    ensures forall c :: c in TrimRight(s) ==> c in s
    ensures s != "" && !IsSpace(s[0]) ==> TrimRight(s) != "" && TrimRight(s)[0] == s[0]
  {
    if s != "" && IsSpace(s[|s| - 1]) { TrimRightSuffix(s[..|s| - 1]); }
  }

  lemma {:induction false} JoinEnds(args: seq<string>)
    requires |args| > 0 && args[0] != "" && args[|args| - 1] != ""
    ensures var s := Join(args, " "); var last := args[|args| - 1];
      s != "" && s[0] == args[0][0] && s[|s| - 1] == last[|last| - 1]
    decreases |args|
  {
    if |args| > 2 {
      JoinTail(args[1..]);
    }
  }

  lemma {:induction false} JoinTail(args: seq<string>)
    requires |args| > 0 && args[|args| - 1] != ""
    ensures var s := Join(args, " "); var last := args[|args| - 1]; s != "" && s[|s| - 1] == last[|last| - 1]
    decreases |args|
  {
    if |args| > 1 { JoinTail(args[1..]); }
  }

  ghost predicate FixedRule(rule: string, isIP: string -> bool) {
    NormalizeRule(rule, isIP) == Normal(rule)
  }

  /** A rule written as stable arguments is already in normal form. */
  lemma StableRuleIsFixed(args: seq<string>, isIP: string -> bool)
    requires IPTexts(isIP) && StableArgs(args, isIP) && args[0] != ""
    ensures FixedRule(Join(args, " "), isIP)
  {
    var n := Join(args, " ");
    JoinEnds(args);
    assert !IsSpace(args[0][0]) && !IsSpace(args[|args| - 1][|args[|args| - 1]| - 1]);
    TrimSpaceId(n);
    StableArgsReadBack(args, isIP);
    NormalizeIsReadAndGlue(n, "", isIP);
    GlueFromEmpty(args);
  }

  lemma GlueFromEmpty(args: seq<string>)
    requires |args| > 0 && args[0] != ""
    ensures Glue("", args) == Join(args, " ")
  {
    assert "" + args[0] == args[0];
    GlueIsJoin(args[0], args[1..]);
  }

  /** Idempotence: for every rule whose only white space is the space character, the normal form,
      if there is one, is its own normal form; how its quotes are placed does not matter. */
  lemma NormalizeIsIdempotent(rule: string, isIP: string -> bool)
    requires IPTexts(isIP) && OnlySpaces(rule) && NormalizeRule(rule, isIP).Normal?
    ensures FixedRule(NormalizeRule(rule, isIP).rule, isIP)
  {
    var s := TrimSpace(rule);
    TrimSpaceKeeps(rule);
    NormalizeIsReadAndGlue(s, "", isIP);
    var args := Read(s, isIP).args;
    ReadIsStable(s, isIP);
    FirstArgNonEmpty(s, isIP);
    GlueFromEmpty(args);
    StableRuleIsFixed(args, isIP);
  }

  lemma UnfoldHead(s: string)
    requires s != ""
    ensures Unfold(s) != "" && Unfold(s)[0] == s[0]
    ensures s[0] != '-' ==> Unfold(s) == s
  {
  }

  lemma FirstArgNonEmpty(s: string, isIP: string -> bool)
    requires IPTexts(isIP) && OnlySpaces(s) && s != "" && !IsSpace(s[0]) && Read(s, isIP).Args?
    ensures Read(s, isIP).args[0] != ""
  {
    ReadFirst(s, isIP);
    UnfoldKeeps(s);
    UnfoldHead(s);
    ArgIsStable(Unfold(s), isIP);
  }

  lemma TrimSpaceId(s: string)
    requires s != "" && !IsSpace(s[0]) && !IsSpace(s[|s| - 1])
    ensures TrimSpace(s) == s
  {
  }

  lemma NormalizeLast(b: string, acc: string, isIP: string -> bool)
    requires b != "" && ' ' !in b && b[0] != '"' && b[0] != '-' && acc != ""
    ensures NormalizeFrom(b, acc, isIP) == Normal(acc + " " + Canonical(b, isIP))
  {
    UnfoldHead(b);
    SpacelessEnds(b, "");
    assert b[..|b|] == b;
    NormalizeStep(b, acc, isIP);
  }

  lemma NormalizeFirst(w: string, b: string, isIP: string -> bool)
    requires IPTexts(isIP) && Stable(w, isIP) && w != ""
    ensures NormalizeFrom(w + " " + b, "", isIP) == NormalizeFrom(b, w, isIP)
  {
    var s := w + " " + b;
    StableReadsBack(w, b, isIP);
    StableIsCanonical(w, isIP);
    assert s[..|w|] == w && s[|w| + 1..] == b && "" + w == w;
    NormalizeStep(s, "", isIP);
  }

  /** A rule of two arguments of which the first is stable. */
  lemma NormalizeTwo(w: string, b: string, isIP: string -> bool)
    requires IPTexts(isIP) && Stable(w, isIP) && w != "" && !IsSpace(w[0])
    requires b != "" && ' ' !in b && b[0] != '"' && b[0] != '-' && !IsSpace(b[|b| - 1])
    ensures NormalizeRule(w + " " + b, isIP) == Normal(w + " " + Canonical(b, isIP))
  {
    var s := w + " " + b;
    assert s[0] == w[0] && s[|s| - 1] == b[|b| - 1];
    TrimSpaceId(s);
    NormalizeFirst(w, b, isIP);
    NormalizeLast(b, w, isIP);
  }

  lemma JumpFlag(isIP: string -> bool)
    requires IPTexts(isIP)
    ensures Stable("j", isIP) && !IsSpace("j"[0])
  {
    assert !isIP("j");
  }

  lemma TabIsTrimmed(isIP: string -> bool)
    requires IPTexts(isIP)
    ensures Canonical("\t::", isIP) == "::"
  {
    var tab := "\t::";
    assert !isIP(tab) by { assert tab[0] in tab && !IPChar('\t'); }
    assert tab[1..] == "::" && IsSpace(tab[0]);
    TrimSpaceId("::");
    assert TrimLeft(tab) == TrimLeft("::");
  }

  lemma AddressIsRewritten(isIP: string -> bool)
    requires IPTexts(isIP) && isIP("::")
    ensures !FixedRule("j ::", isIP)
  {
    JumpFlag(isIP);
    NormalizeTwo("j", "::", isIP);
    IPBecomesStable("::", isIP);
    assert "j" + " " + "::" == "j ::";
    assert |"j" + " " + "::/32"| != |"j ::"|;
  }

  /** With other white space idempotence fails: a tab hides an address from the first pass only. */
  lemma TabBreaksIdempotence(isIP: string -> bool)
    requires IPTexts(isIP) && isIP("::")
    ensures NormalizeRule("j \t::", isIP) == Normal("j ::") && !FixedRule("j ::", isIP)
  {
    TabIsTrimmed(isIP);
    JumpFlag(isIP);
    NormalizeTwo("j", "\t::", isIP);
    assert "j" + " " + "\t::" == "j \t::" && "j" + " " + "::" == "j ::";
    AddressIsRewritten(isIP);
  }

  // ---- what is accepted -------------------------------------------------------------------------------------------

  ghost predicate Bare(w: string) {
    w != "" && w[0] != '"' && forall c :: c in w ==> !IsSpace(c)
  }

  /** A word of a rule as callers write it: quoted, or bare, or "--to-destination=" with a bare word. */
  ghost predicate Word(w: string) {
    || Quoted(w)
    || (Bare(w) && !HasPrefix(w, TO_DESTINATION_EQ))
    || (HasPrefix(w, TO_DESTINATION_EQ) && Bare(w[|TO_DESTINATION_EQ|..])
        && !HasPrefix(w[|TO_DESTINATION_EQ|..], TO_DESTINATION_EQ))
  }

  lemma ReadSimple(w: string, tail: string, isIP: string -> bool)
    requires Quoted(w) || (Bare(w) && !HasPrefix(w, TO_DESTINATION_EQ))
    ensures Read(w, isIP).Args?
    ensures Read(tail, isIP).Args? ==> Read(w + " " + tail, isIP).Args?
  {
    StableReadsBack(w, tail, _ => false);
    ReadStep(w, isIP);
    var s := w + " " + tail;
    ReadStep(s, isIP);
    assert s[|w| + 1..] == tail;
  }

  lemma UnfoldOf(y: string)
    ensures Unfold(TO_DESTINATION_EQ + y) == TO_DESTINATION + " " + y
  {
  }

  lemma ToDestinationIsPlain()
    ensures Plain(TO_DESTINATION, _ => false)
  {
  }

  lemma ReadAfter(w: string, y: string, s: string, isIP: string -> bool)
    requires Unfold(s) == w + " " + y && Stable(w, _ => false) && Read(y, isIP).Args?
    ensures Read(s, isIP).Args?
  {
    var u := w + " " + y;
    StableReadsBack(w, y, _ => false);
    ReadStep(s, isIP);
    assert u[|w| + 1..] == y;
  }

  lemma ReadFolded(y: string, isIP: string -> bool)
    requires Read(y, isIP).Args?
    ensures Read(TO_DESTINATION_EQ + y, isIP).Args?
  {
    UnfoldOf(y);
    ToDestinationIsPlain();
    ReadAfter(TO_DESTINATION, y, TO_DESTINATION_EQ + y, isIP);
  }

  lemma Unprefix(w: string, prefix: string, tail: string)
    requires HasPrefix(w, prefix)
    ensures w == prefix + w[|prefix|..] && w + " " + tail == prefix + (w[|prefix|..] + " " + tail)
  {
  }

  lemma ReadWord(w: string, tail: string, isIP: string -> bool)
    requires Word(w)
    ensures Read(w, isIP).Args?
    ensures Read(tail, isIP).Args? ==> Read(w + " " + tail, isIP).Args?
  {
    if Quoted(w) || !HasPrefix(w, TO_DESTINATION_EQ) {
      ReadSimple(w, tail, isIP);
    } else {
      var x := w[|TO_DESTINATION_EQ|..];
      ReadSimple(x, tail, isIP);
      Unprefix(w, TO_DESTINATION_EQ, tail);
      ReadFolded(x, isIP);
      if Read(tail, isIP).Args? {
        ReadFolded(x + " " + tail, isIP);
      }
    }
  }

  lemma {:induction false} ReadWords(words: seq<string>, isIP: string -> bool)
    requires |words| > 0 && forall i :: 0 <= i < |words| ==> Word(words[i])
    ensures Read(Join(words, " "), isIP).Args?
    decreases |words|
  {
    if |words| == 1 {
      ReadWord(words[0], "", isIP);
    } else {
      ReadWords(words[1..], isIP);
      ReadWord(words[0], Join(words[1..], " "), isIP);
    }
  }

  lemma WordEnds(w: string)
    requires Word(w)
    ensures w != "" && !IsSpace(w[0]) && !IsSpace(w[|w| - 1])
  {
  }

  /** Every rule written as words has a normal form. */
  lemma WordsAreAccepted(words: seq<string>, isIP: string -> bool)
    requires |words| > 0 && forall i :: 0 <= i < |words| ==> Word(words[i])
    ensures NormalizeRule(Join(words, " "), isIP).Normal?
  {
    var s := Join(words, " ");
    WordEnds(words[0]);
    WordEnds(words[|words| - 1]);
    JoinEnds(words);
    TrimSpaceId(s);
    ReadWords(words, isIP);
    NormalizeIsReadAndGlue(s, "", isIP);
  }

  // ---- the loop ------------------------------------------------------------------------------------------------

  method FindArgEnd(remaining: string) returns (end: int)
    requires remaining != ""
    ensures end == if ArgEnd(remaining).Some? then ArgEnd(remaining).value else -1
  {
    if remaining[0] == '"' {
      end := IndexOf(remaining[1..], '"');
      end := if end == |remaining| - 1 then -1 else end + 2;
    } else {
      end := IndexOf(remaining, ' ');
    }
  }

  method Normalize(rule: string, isIP: string -> bool) returns (r: Norm)
    ensures r == NormalizeRule(rule, isIP)
  {
    var normalized := "";
    var remaining := TrimSpace(rule);
    while true
      invariant NormalizeFrom(remaining, normalized, isIP) == NormalizeRule(rule, isIP)
      decreases |remaining|
    {
      var unfolded := Unfold(remaining);
      if unfolded == "" {
        return OutOfRange;
      }
      var end := FindArgEnd(unfolded);
      if end < 0 {
        return MismatchedQuotes;
      }
      NormalizeStep(remaining, normalized, isIP);
      if |normalized| > 0 {
        normalized := normalized + " ";
      }
      normalized := normalized + Canonical(unfolded[..end], isIP);
      if |unfolded| == end {
        return Normal(normalized);
      }
      remaining := unfolded[end + 1..];
    }
  }
}
