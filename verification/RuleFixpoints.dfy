/** Which rules normalizeRule of network/hostport/fake_iptables.go leaves alone, and for which rules a
    second pass changes nothing: the exact conditions, for every white space and every use of quotes. */
module RuleFixpoints {
  import opened Text
  import opened RuleSyntax

  // ---- trimming --------------------------------------------------------------------------------------------

  ghost predicate Trimmed(s: string) {
    s == "" || (!IsSpace(s[0]) && !IsSpace(s[|s| - 1]))
  }

  lemma {:induction false} TrimRightIsPrefix(s: string)
    ensures |TrimRight(s)| <= |s| && TrimRight(s) == s[..|TrimRight(s)|]
    ensures TrimRight(s) == "" || !IsSpace(TrimRight(s)[|TrimRight(s)| - 1])
  {
    if s != "" && IsSpace(s[|s| - 1]) {
      TrimRightIsPrefix(s[..|s| - 1]);
    }
  }

  /** A trimmed text is trimmed; a text that begins with no white space keeps a non-empty prefix. */
  lemma TrimSpaceTrims(s: string)
    ensures Trimmed(TrimSpace(s)) && forall c :: c in TrimSpace(s) ==> c in s
    ensures s != "" && !IsSpace(s[0]) ==>
      0 < |TrimSpace(s)| <= |s| && TrimSpace(s) == s[..|TrimSpace(s)|]
    ensures TrimSpace(s) == s <==> Trimmed(s)
  {
    TrimLeftPrefix(s);
    TrimRightSuffix(TrimLeft(s));
    TrimRightIsPrefix(TrimLeft(s));
    if s != "" && !IsSpace(s[0]) && !IsSpace(s[|s| - 1]) {
      TrimSpaceId(s);
    }
  }

  // ---- the shape of arguments ------------------------------------------------------------------------------

  /** How an argument that a pass writes looks: quoted, or trimmed and without a space. */
  ghost predicate Written(a: string) {
    Quoted(a) || (' ' !in a && Trimmed(a))
  }

  /** An argument that begins with a quote without being quoted: other white space stood before it. */
  ghost predicate Stray(a: string) {
    !Quoted(a) && a != "" && a[0] == '"'
  }

  /** The branches of the loop that rewrite an argument. */
  ghost predicate Rewritten(a: string, isIP: string -> bool) {
    isIP(a) || HasPrefix(a, TO_DESTINATION_EQ)
  }

  lemma QuotedRaw(s: string)
    requires s != "" && s[0] == '"' && ArgEnd(s).Some?
    ensures Quoted(s[..ArgEnd(s).value])
  {
    var end := ArgEnd(s).value;
    var raw := s[..end];
    assert raw[1..|raw| - 1] == s[1..][..end - 2];
  }

  lemma QuotedIsCanonical(a: string, isIP: string -> bool)
    requires IPTexts(isIP) && Quoted(a)
    ensures Canonical(a, isIP) == a && !isIP(a) && !HasPrefix(a, TO_DESTINATION_EQ)
  {
    assert a[0] in a;
    TrimSpaceTrims(a);
  }

  /** What becomes of one argument as it is read. */
  lemma RawIsWritten(s: string, isIP: string -> bool)
    requires IPTexts(isIP) && s != "" && ArgEnd(s).Some?
    ensures var raw := s[..ArgEnd(s).value]; Written(Canonical(raw, isIP))
    ensures var raw := s[..ArgEnd(s).value]; raw != "" && !IsSpace(raw[0]) ==> Canonical(raw, isIP) != ""
  {
    var raw := s[..ArgEnd(s).value];
    if s[0] == '"' {
      QuotedRaw(s);
      QuotedIsCanonical(raw, isIP);
    } else {
      TrimSpaceTrims(raw);
      TrimSpaceTrims(raw + "/32");
    }
  }

  lemma WrittenCons(a: string, rest: seq<string>)
    requires Written(a) && forall b :: b in rest ==> Written(b)
    ensures forall b :: b in [a] + rest ==> Written(b)
  {
  }

  lemma {:induction false} ReadIsWritten(r: string, isIP: string -> bool)
    requires IPTexts(isIP) && Read(r, isIP).Args?
    ensures forall a :: a in Read(r, isIP).args ==> Written(a)
    decreases |r|
  {
    ReadFirst(r, isIP);
    var s := Unfold(r);
    var end := ArgEnd(s).value;
    var rest := if end == |s| then [] else Read(s[end + 1..], isIP).args;
    RawIsWritten(s, isIP);
    if end < |s| {
      ReadIsWritten(s[end + 1..], isIP);
    }
    WrittenCons(Canonical(s[..end], isIP), rest);
  }

  lemma UnfoldTail(r: string)
    requires r != "" && !IsSpace(r[|r| - 1])
    ensures |Unfold(r)| == |r|
    ensures r == TO_DESTINATION_EQ || Unfold(r)[|r| - 1] == r[|r| - 1]
  {
  }

  /** A word and a space leave nothing to read behind them. */
  lemma NothingBehind(r: string, w: string, isIP: string -> bool)
    requires Unfold(r) == w + " " && Stable(w, _ => false)
    ensures Read(r, isIP) == Exhausted
  {
    var s := w + " ";
    StableReadsBack(w, "", _ => false);
    assert w + " " + "" == s && s[|w| + 1..] == "";
    ReadNothing(isIP);
    ReadStep(r, isIP);
  }

  lemma LoneToDestination(isIP: string -> bool)
    ensures Read(TO_DESTINATION_EQ, isIP) == Exhausted
  {
    UnfoldOf("");
    assert TO_DESTINATION_EQ + "" == TO_DESTINATION_EQ && TO_DESTINATION + " " + "" == TO_DESTINATION + " ";
    ToDestinationIsPlain();
    NothingBehind(TO_DESTINATION_EQ, TO_DESTINATION, isIP);
  }

  lemma UnfoldSolid(r: string, isIP: string -> bool)
    requires r != "" && !IsSpace(r[|r| - 1]) && Read(r, isIP).Args?
    ensures |Unfold(r)| == |r| && !IsSpace(Unfold(r)[|r| - 1])
  {
    LoneToDestination(isIP);
    UnfoldTail(r);
  }

  ghost predicate Solid(r: string) { r != "" && !IsSpace(r[|r| - 1]) }

  lemma TailIsSolid(s: string, end: nat)
    requires Solid(s) && end < |s|
    ensures s[end + 1..] == "" || Solid(s[end + 1..])
  {
  }

  /** What is left to read after the first argument. */
  ghost function Rest(s: string): string {
    if s != "" && ArgEnd(s).Some? && ArgEnd(s).value < |s| then s[ArgEnd(s).value + 1..] else ""
  }

  lemma RestIsSolid(s: string)
    requires Solid(s)
    ensures Rest(s) == "" || Solid(Rest(s))
  {
    if ArgEnd(s).Some? && ArgEnd(s).value < |s| {
      TailIsSolid(s, ArgEnd(s).value);
    }
  }

  lemma {:induction false} LastArgNonEmpty(r: string, isIP: string -> bool)
    requires IPTexts(isIP) && Solid(r) && Read(r, isIP).Args?
    ensures var args := Read(r, isIP).args; args != [] && args[|args| - 1] != ""
    decreases |r|
  {
    ReadFirst(r, isIP);
    UnfoldSolid(r, isIP);
    var s := Unfold(r);
    if ArgEnd(s).value < |s| {
      RestIsSolid(s);
      ReadNothing(isIP);
      LastArgNonEmpty(Rest(s), isIP);
    } else {
      assert s[..|s|] == s;
      LastRaw(s, isIP);
    }
  }

  lemma ReadNothing(isIP: string -> bool)
    ensures Read("", isIP) == Exhausted
  {
  }

  lemma LastRaw(s: string, isIP: string -> bool)
    requires IPTexts(isIP) && s != "" && !IsSpace(s[|s| - 1])
    ensures Canonical(s, isIP) != ""
  {
    if isIP(s) {
      IPBecomesStable(s, isIP);
    } else {
      TrimRightOfSolid(s);
    }
  }

  lemma {:induction false} TrimRightOfSolid(s: string)
    requires s != "" && !IsSpace(s[|s| - 1])
    ensures TrimSpace(s) != ""
  {
    if IsSpace(s[0]) {
      assert s[1..][|s| - 2] == s[|s| - 1];
      TrimRightOfSolid(s[1..]);
    } else {
      TrimSpaceTrims(s);
    }
  }

  lemma FirstArgSolid(r: string, isIP: string -> bool)
    requires IPTexts(isIP) && r != "" && !IsSpace(r[0]) && Read(r, isIP).Args?
    ensures Read(r, isIP).args[0] != ""
  {
    ReadFirst(r, isIP);
    UnfoldHead(r);
    RawIsWritten(Unfold(r), isIP);
  }

  /** Every normal form is the join of the arguments read, begins and ends with no white space. */
  lemma NormalFormShape(rule: string, isIP: string -> bool)
    requires IPTexts(isIP) && NormalizeRule(rule, isIP).Normal?
    ensures var read := Read(TrimSpace(rule), isIP); var n := NormalizeRule(rule, isIP).rule;
      read.Args? && |read.args| > 0 && n == Join(read.args, " ") && n != "" && Trimmed(n)
      && read.args[0] != "" && read.args[|read.args| - 1] != ""
  {
    var s := TrimSpace(rule);
    TrimSpaceTrims(rule);
    NormalizeIsReadAndGlue(s, "", isIP);
    var args := Read(s, isIP).args;
    ReadFirst(s, isIP);
    FirstArgSolid(s, isIP);
    LastArgNonEmpty(s, isIP);
    ReadIsWritten(s, isIP);
    GlueFromEmpty(args);
    JoinEnds(args);
    WrittenEnds(args[0]);
    WrittenEnds(args[|args| - 1]);
  }

  lemma WrittenEnds(a: string)
    requires Written(a)
    ensures Trimmed(a)
  {
  }

  // ---- texts that a pass leaves alone ----------------------------------------------------------------------

  /** Each argument of the text is followed by a space or the end and is written as it stands. */
  ghost predicate Settled(r: string, isIP: string -> bool)
    decreases |r|
  {
    && r != "" && !HasPrefix(r, TO_DESTINATION_EQ) && ArgEnd(r).Some?
    && var end := ArgEnd(r).value;
       && Canonical(r[..end], isIP) == r[..end]
       && (end == |r| || (r[end] == ' ' && Settled(r[end + 1..], isIP)))
  }

  lemma {:induction false} SettledReads(r: string, isIP: string -> bool)
    requires Settled(r, isIP)
    ensures Read(r, isIP).Args?
    decreases |r|
  {
    ReadStep(r, isIP);
    var end := ArgEnd(r).value;
    if end < |r| {
      SettledReads(r[end + 1..], isIP);
    }
  }

  /** How the join of what is read begins. */
  lemma JoinStarts(c: string, rest: seq<string>)
    ensures var j := Join([c] + rest, " ");
      if rest == [] then j == c else j == c + " " + Join(rest, " ")
  {
    assert ([c] + rest)[1..] == rest;
  }

  /** A folded --to-destination is written unfolded. */
  lemma FoldedChanges(r: string, isIP: string -> bool)
    requires HasPrefix(r, TO_DESTINATION_EQ)
    ensures Read(r, isIP).Args? ==> Join(Read(r, isIP).args, " ") != r
  {
    if Read(r, isIP).Args? {
      FoldedFirst(r);
      ReadFirst(r, isIP);
      var args := Read(r, isIP).args;
      assert args == [args[0]] + args[1..];
      FoldedJoin(r, args[0], args[1..], isIP);
    }
  }

  lemma FoldedFirst(r: string)
    requires HasPrefix(r, TO_DESTINATION_EQ)
    ensures var s := Unfold(r); s != "" && ArgEnd(s) == Some(|TO_DESTINATION|) && s[..|TO_DESTINATION|] == TO_DESTINATION
  {
    var y := r[|TO_DESTINATION_EQ|..];
    assert r == TO_DESTINATION_EQ + y;
    UnfoldOf(y);
    ToDestinationIsPlain();
    StableReadsBack(TO_DESTINATION, y, _ => false);
  }

  lemma FoldedJoin(r: string, c: string, rest: seq<string>, isIP: string -> bool)
    requires HasPrefix(r, TO_DESTINATION_EQ) && c == Canonical(TO_DESTINATION, isIP)
    ensures Join([c] + rest, " ") != r
  {
    JoinStarts(c, rest);
    var j := Join([c] + rest, " ");
    CanonicalToDestination(isIP);
    assert r[|TO_DESTINATION|] == '=';
    if |j| > |TO_DESTINATION| {
      assert j[|TO_DESTINATION|] != '=';
    }
  }

  lemma CanonicalOfSolid(w: string, isIP: string -> bool)
    requires w != "" && Trimmed(w)
    ensures Canonical(w, isIP) == w || Canonical(w, isIP) == w + "/32"
  {
    TrimSpaceTrims(w);
    assert (w + "/32")[0] == w[0] && (w + "/32")[|w| + 2] == '2';
    TrimSpaceTrims(w + "/32");
  }

  lemma CanonicalToDestination(isIP: string -> bool)
    ensures Canonical(TO_DESTINATION, isIP) == TO_DESTINATION || Canonical(TO_DESTINATION, isIP) == TO_DESTINATION + "/32"
  {
    assert TO_DESTINATION[0] == '-' && TO_DESTINATION[|TO_DESTINATION| - 1] == 'n';
    CanonicalOfSolid(TO_DESTINATION, isIP);
  }

  /** A text that differs from what is written for its first argument differs from the whole. */
  lemma FirstDiffers(r: string, end: nat, c: string, rest: seq<string>, isIP: string -> bool)
    requires IPTexts(isIP) && r != "" && r[0] != '"' && ArgEnd(r) == Some(end)
    requires c == Canonical(r[..end], isIP) && c != r[..end] && (end == |r| ==> rest == [])
    ensures Join([c] + rest, " ") != r
  {
    var raw := r[..end];
    var j := Join([c] + rest, " ");
    JoinStarts(c, rest);
    if isIP(raw) {
      IPBecomesStable(raw, isIP);
      assert j[|raw|] == '/';
    } else {
      TrimSpaceTrims(raw);
      assert raw != "";
      if IsSpace(raw[0]) {
        assert r[0] == raw[0];
        assert raw[0] in raw;
        assert c != "" ==> j[0] == c[0];
        assert c == "" && rest != [] ==> j[0] == ' ';
      } else {
        assert |c| < |raw| by { assert |c| == |raw| ==> c == raw; }
        assert r[|c|] == raw[|c|] && raw[|c|] in raw;
        assert rest != [] ==> j[|c|] == ' ';
      }
    }
  }

  /** The text is written back exactly if it is settled. */
  lemma {:induction false} SettledIff(r: string, isIP: string -> bool)
    requires IPTexts(isIP) && Read(r, isIP).Args?
    ensures Join(Read(r, isIP).args, " ") == r <==> Settled(r, isIP)
    decreases |r|
  {
    ReadFirst(r, isIP);
    if HasPrefix(r, TO_DESTINATION_EQ) {
      FoldedChanges(r, isIP);
    } else {
      var end := ArgEnd(r).value;
      var c := Canonical(r[..end], isIP);
      var rest := if end == |r| then [] else Read(r[end + 1..], isIP).args;
      if c != r[..end] {
        if r[0] == '"' {
          QuotedRaw(r);
          QuotedIsCanonical(r[..end], isIP);
        }
        FirstDiffers(r, end, c, rest, isIP);
      } else if end < |r| {
        ReadFirst(r[end + 1..], isIP);
        SettledIff(r[end + 1..], isIP);
        JoinStarts(c, rest);
        SameAfter(r, end, Join(rest, " "));
      } else {
        assert r[..end] == r;
      }
    }
  }

  lemma SameAfter(r: string, end: nat, tail: string)
    requires end < |r|
    ensures r[..end] + " " + tail == r <==> r[end] == ' ' && tail == r[end + 1..]
  {
    var j := r[..end] + " " + tail;
    assert j[end] == ' ' && j[end + 1..] == tail;
    assert r == r[..end] + [r[end]] + r[end + 1..];
  }

  /** The rules that normalizeRule leaves alone, for every text: they begin and end with no white space and
      each of their arguments is settled. */
  lemma FixedRuleIff(rule: string, isIP: string -> bool)
    requires IPTexts(isIP)
    ensures FixedRule(rule, isIP) <==> Trimmed(rule) && Settled(rule, isIP)
  {
    TrimSpaceTrims(rule);
    if FixedRule(rule, isIP) {
      NormalFormShape(rule, isIP);
      SettledIff(rule, isIP);
    }
    if Trimmed(rule) && Settled(rule, isIP) {
      SettledReads(rule, isIP);
      SettledIff(rule, isIP);
      ReadFirst(rule, isIP);
      NormalizeIsReadAndGlue(rule, "", isIP);
      FirstArgSolid(rule, isIP);
      GlueFromEmpty(Read(rule, isIP).args);
    }
  }

  // ---- when a second pass changes nothing ------------------------------------------------------------------

  /** An argument that is not stray is read off the front of a text as it stands. */
  lemma WrittenReadsBack(a: string, rest: string)
    requires Written(a) && !Stray(a)
    ensures var s := a + " " + rest; s != "" && ArgEnd(s) == Some(|a|) && s[..|a|] == a && s[|a|] == ' ' && s[|a| + 1..] == rest
    ensures a != "" ==> ArgEnd(a) == Some(|a|)
  {
    var s := a + " " + rest;
    if Quoted(a) {
      StableReadsBack(a, rest, _ => false);
    } else {
      IndexOfFirst(a, ' ', rest);
      assert s == a + [' '] + rest;
    }
  }

  lemma CanonicalIff(a: string, isIP: string -> bool)
    requires IPTexts(isIP) && Written(a)
    ensures Canonical(a, isIP) == a <==> !isIP(a)
  {
    if isIP(a) {
      IPBecomesStable(a, isIP);
      assert |a + "/32"| != |a|;
    } else {
      WrittenEnds(a);
      TrimSpaceTrims(a);
    }
  }

  lemma OneSettledIff(a: string, isIP: string -> bool)
    requires IPTexts(isIP) && Written(a) && !Stray(a) && a != ""
    ensures Settled(a, isIP) <==> !Rewritten(a, isIP)
  {
    CanonicalIff(a, isIP);
    WrittenReadsBack(a, "");
    assert a[..|a|] == a;
  }

  lemma FirstSettledIff(a: string, tail: string, isIP: string -> bool)
    requires IPTexts(isIP) && Written(a) && !Stray(a)
    ensures Settled(a + " " + tail, isIP) <==> !Rewritten(a, isIP) && Settled(tail, isIP)
  {
    var r := a + " " + tail;
    CanonicalIff(a, isIP);
    WrittenReadsBack(a, tail);
    PrefixNeedsNoSpace(a, tail);
    assert HasPrefix(a, TO_DESTINATION_EQ) ==> HasPrefix(r, TO_DESTINATION_EQ) by {
      if HasPrefix(a, TO_DESTINATION_EQ) {
        assert r[..|TO_DESTINATION_EQ|] == a[..|TO_DESTINATION_EQ|];
      }
    }
  }

  lemma {:induction false} JoinSettledIff(args: seq<string>, isIP: string -> bool)
    requires IPTexts(isIP) && |args| > 0 && args[|args| - 1] != ""
    requires forall a :: a in args ==> Written(a) && !Stray(a)
    ensures Settled(Join(args, " "), isIP) <==> forall a :: a in args ==> !Rewritten(a, isIP)
    decreases |args|
  {
    if |args| == 1 {
      OneSettledIff(args[0], isIP);
    } else {
      JoinSettledIff(args[1..], isIP);
      FirstSettledIff(args[0], Join(args[1..], " "), isIP);
      assert forall b :: b in args <==> b == args[0] || b in args[1..];
    }
  }

  /** The arguments that the first pass writes. */
  ghost function ArgsOf(rule: string, isIP: string -> bool): seq<string> {
    var read := Read(TrimSpace(rule), isIP);
    if read.Args? then read.args else []
  }

  /** For every rule: a second pass changes nothing exactly if the text of the first is settled. */
  lemma SecondPassIff(rule: string, isIP: string -> bool)
    requires IPTexts(isIP) && NormalizeRule(rule, isIP).Normal?
    ensures var n := NormalizeRule(rule, isIP).rule; FixedRule(n, isIP) <==> Settled(n, isIP)
  {
    NormalFormShape(rule, isIP);
    FixedRuleIff(NormalizeRule(rule, isIP).rule, isIP);
  }

  /** For every rule without stray quotes: a second pass changes nothing exactly if no argument that the
      first wrote is an address or begins with "--to-destination=". */
  lemma IdempotentIff(rule: string, isIP: string -> bool)
    requires IPTexts(isIP) && NormalizeRule(rule, isIP).Normal?
    requires forall a :: a in ArgsOf(rule, isIP) ==> !Stray(a)
    ensures FixedRule(NormalizeRule(rule, isIP).rule, isIP) <==>
            forall a :: a in ArgsOf(rule, isIP) ==> !Rewritten(a, isIP)
  {
    NormalFormShape(rule, isIP);
    ReadIsWritten(TrimSpace(rule), isIP);
    SecondPassIff(rule, isIP);
    JoinSettledIff(ArgsOf(rule, isIP), isIP);
  }

  lemma {:induction false} NoQuoteRead(r: string, isIP: string -> bool)
    requires Read(r, isIP).Args? && '"' !in r
    ensures forall a :: a in Read(r, isIP).args ==> '"' !in a
    decreases |r|
  {
    ReadFirst(r, isIP);
    var s := Unfold(r);
    NoQuoteUnfold(r);
    var end := ArgEnd(s).value;
    NoQuoteCanonical(s[..end], isIP);
    if end < |s| {
      NoQuoteRead(s[end + 1..], isIP);
    }
  }

  lemma NoQuoteUnfold(r: string)
    requires '"' !in r
    ensures '"' !in Unfold(r)
  {
    assert '"' !in TO_DESTINATION + " ";
  }

  lemma NoQuoteCanonical(a: string, isIP: string -> bool)
    requires '"' !in a
    ensures '"' !in Canonical(a, isIP)
  {
    TrimSpaceTrims(a);
    TrimSpaceTrims(a + "/32");
  }

  /** A rule has no stray quotes if it has no quotes, or no white space but spaces. */
  lemma NoStrayQuotes(rule: string, isIP: string -> bool)
    requires IPTexts(isIP) && NormalizeRule(rule, isIP).Normal? && ('"' !in rule || OnlySpaces(rule))
    ensures forall a :: a in ArgsOf(rule, isIP) ==> !Stray(a)
  {
    NormalFormShape(rule, isIP);
    TrimSpaceTrims(rule);
    var s := TrimSpace(rule);
    if '"' !in rule {
      NoQuoteRead(s, isIP);
    } else {
      ReadIsStable(s, isIP);
    }
  }
}
