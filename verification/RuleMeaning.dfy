/** What the rules that network/hostport/hostport_manager.go writes mean: a reader of rule texts, and the rules of
    a mapping as restore stores them. */
module RuleMeaning {
  import opened Text
  import opened RuleSyntax
  import opened IPTables
  import opened HostportRules
  import HS = HostportSockets

  // ---- reading a rule ---------------------------------------------------------------------------------------

  function WordEnd(s: string): (end: nat)
    requires s != ""
    ensures end <= |s|
  {
    if s[0] == '"' then
      var i := IndexOf(s[1..], '"');
      if i == |s| - 1 then |s| else i + 2
    else IndexOf(s, ' ')
  }

  /** The words of a rule, which one character separates; a quoted text is one word. */
  function Words(s: string): seq<string>
    decreases |s|
  {
    if s == "" then []
    else
      var end := WordEnd(s);
      if end == |s| then [s] else [s[..end]] + Words(s[end + 1..])
  }

  datatype Flag = Protocol | DPort | Source | Destination | Target | To | Other

  function FlagOf(word: string): Flag {
    if word == "-p" then Protocol
    else if word == "--dport" then DPort
    else if word == "-s" then Source
    else if word == "-d" then Destination
    else if word == "-j" then Target
    else if word == TO_DESTINATION then To
    else Other
  }

  /** What a rule asks of a packet, and what it does with it. */
  datatype Rule = Rule(protocol: Option<string>, dport: Option<string>, source: Option<string>,
                       destination: Option<string>, target: Option<string>, to: Option<string>)

  const ANY := Rule(None, None, None, None, None, None)

  function With(r: Rule, flag: Flag, value: string): Rule {
    match flag
    case Protocol => r.(protocol := Some(value))
    case DPort => r.(dport := Some(value))
    case Source => r.(source := Some(value))
    case Destination => r.(destination := Some(value))
    case Target => r.(target := Some(value))
    case To => r.(to := Some(value))
    case Other => r
  }

  /** Flags and their values from the i-th word on. */
  function ReadFlags(words: seq<string>, i: nat): Rule
    decreases |words| - i
  {
    if i + 1 >= |words| then ANY else With(ReadFlags(words, i + 2), FlagOf(words[i]), words[i + 1])
  }

  function Meaning(rule: string): Rule { ReadFlags(Words(rule), 0) }

  /** The number that strconv.Itoa writes so. */
  function Number(s: string): Option<int> {
    if s != "" && s[0] == '-' then
      if forall c :: c in s[1..] ==> IsDigit(c) then Some(0 - Value(s[1..])) else None
    else if s != "" && forall c :: c in s ==> IsDigit(c) then Some(Value(s)) else None
  }

  datatype Endpoint = Endpoint(host: string, port: int)

  /** The address and the port of a destination, "host:port" or "[host]:port". */
  function EndpointOf(s: string): Option<Endpoint> {
    var bracketed := s != "" && s[0] == '[';
    var t := if bracketed then s[1..] else s;
    var i := IndexOf(t, if bracketed then ']' else ':');
    var j := if bracketed then i + 2 else i + 1;
    if j > |t| || Number(t[j..]).None? then None else Some(Endpoint(t[..i], Number(t[j..]).value))
  }

  // ---- texts read back --------------------------------------------------------------------------------------

  lemma NumberOfItoa(n: int)
    ensures Number(Itoa(n)) == Some(n)
  {
    ItoaSign(n);
    if n < 0 { ValueOfDecimal(-n); } else { ValueOfDecimal(n); }
  }

  lemma PlainEndpoint(host: string, n: string, port: int)
    requires host != "" && host[0] != '[' && ':' !in host && Number(n) == Some(port)
    ensures EndpointOf(host + ":" + n) == Some(Endpoint(host, port))
  {
    var s := host + [':'] + n;
    assert host + ":" + n == s && s[0] == host[0];
    IndexOfFirst(host, ':', n);
    assert s[..|host|] == host && s[|host| + 1..] == n;
  }

  lemma BracketedEndpoint(host: string, n: string, port: int)
    requires ']' !in host && Number(n) == Some(port)
    ensures EndpointOf("[" + host + "]:" + n) == Some(Endpoint(host, port))
  {
    var t := host + [']'] + (":" + n);
    var s := "[" + host + "]:" + n;
    assert s[1..] == t && s[0] == '[';
    IndexOfFirst(host, ']', ":" + n);
    assert t[..|host|] == host && t[|host| + 2..] == n;
  }

  lemma EndpointOfJoin(host: string, port: int, isIP: string -> bool)
    requires IPTexts(isIP) && isIP(host)
    ensures EndpointOf(JoinHostPort(host, port)) == Some(Endpoint(host, port))
  {
    NumberOfItoa(port);
    assert IPChar(host[0]) && ']' !in host;
    if ':' in host { BracketedEndpoint(host, Itoa(port), port); } else { PlainEndpoint(host, Itoa(port), port); }
  }

  /** A word that is read back as it stands. */
  ghost predicate Solid(w: string) { Quoted(w) || (w != "" && w[0] != '"' && ' ' !in w) }

  lemma SolidEnds(w: string, rest: string)
    requires Solid(w)
    ensures w != "" && WordEnd(w) == |w|
    ensures var s := w + " " + rest; WordEnd(s) == |w| && s[..|w|] == w && s[|w| + 1..] == rest
  {
    if Quoted(w) { QuotedEnds(w, rest); } else { SpacelessEnds(w, rest); }
  }

  lemma {:induction false} WordsOfJoin(words: seq<string>)
    requires forall i :: 0 <= i < |words| ==> Solid(words[i])
    ensures Words(Join(words, " ")) == words
    decreases |words|
  {
    if |words| == 1 {
      SolidEnds(words[0], "");
    } else if |words| > 1 {
      SolidEnds(words[0], Join(words[1..], " "));
      WordsOfJoin(words[1..]);
      assert words == [words[0]] + words[1..];
    }
  }

  // ---- the stored form of a rule ----------------------------------------------------------------------------

  predicate Folded(w: string) { HasPrefix(w, TO_DESTINATION_EQ) }

  function StoredWord(w: string, isIP: string -> bool): seq<string> {
    if Folded(w) then [TO_DESTINATION, Canonical(w[|TO_DESTINATION_EQ|..], isIP)] else [Canonical(w, isIP)]
  }

  function Stored(words: seq<string>, isIP: string -> bool): seq<string> {
    if words == [] then [] else StoredWord(words[0], isIP) + Stored(words[1..], isIP)
  }

  lemma {:induction false} StoredConcat(a: seq<string>, b: seq<string>, isIP: string -> bool)
    ensures Stored(a + b, isIP) == Stored(a, isIP) + Stored(b, isIP)
    decreases |a|
  {
    if a == [] {
      assert a + b == b;
    } else {
      assert (a + b)[1..] == a[1..] + b;
      StoredConcat(a[1..], b, isIP);
    }
  }

  /** Stable words are stored as they are. */
  lemma {:induction false} StableIsStored(words: seq<string>, isIP: string -> bool)
    requires IPTexts(isIP) && forall i :: 0 <= i < |words| ==> Stable(words[i], isIP)
    ensures Stored(words, isIP) == words
  {
    if words != [] {
      StableIsCanonical(words[0], isIP);
      assert Quoted(words[0]) ==> words[0][0] != TO_DESTINATION_EQ[0];
      StableIsStored(words[1..], isIP);
      assert words == [words[0]] + words[1..];
    }
  }

  lemma ReadSimpleIs(w: string, tail: string, isIP: string -> bool)
    requires Quoted(w) || (Bare(w) && !Folded(w))
    ensures Read(w, isIP) == Args([Canonical(w, isIP)])
    ensures Read(tail, isIP).Args? ==> Read(w + " " + tail, isIP) == Args([Canonical(w, isIP)] + Read(tail, isIP).args)
  {
    StableReadsBack(w, tail, _ => false);
    ReadStep(w, isIP);
    assert w[..|w|] == w;
    var s := w + " " + tail;
    ReadStep(s, isIP);
    assert s[|w| + 1..] == tail && s[..|w|] == w;
  }

  lemma ReadAfterIs(w: string, y: string, s: string, isIP: string -> bool)
    requires Unfold(s) == w + " " + y && Stable(w, _ => false) && Canonical(w, isIP) == w && Read(y, isIP).Args?
    ensures Read(s, isIP) == Args([w] + Read(y, isIP).args)
  {
    var u := w + " " + y;
    StableReadsBack(w, y, _ => false);
    ReadStep(s, isIP);
    assert u[|w| + 1..] == y && u[..|w|] == w;
  }

  lemma ReadFoldedIs(y: string, isIP: string -> bool)
    requires IPTexts(isIP) && Read(y, isIP).Args?
    ensures Read(TO_DESTINATION_EQ + y, isIP) == Args([TO_DESTINATION] + Read(y, isIP).args)
  {
    UnfoldOf(y);
    ToDestinationIsPlain();
    ToDestinationIsCanonical(isIP);
    ReadAfterIs(TO_DESTINATION, y, TO_DESTINATION_EQ + y, isIP);
  }

  lemma ToDestinationIsCanonical(isIP: string -> bool)
    requires IPTexts(isIP)
    ensures Canonical(TO_DESTINATION, isIP) == TO_DESTINATION
  {
    assert TO_DESTINATION[0] in TO_DESTINATION && !IPChar('-');
    TrimSpaceId(TO_DESTINATION);
  }

  lemma FoldedIsNotQuoted(w: string)
    requires Folded(w)
    ensures !Quoted(w)
  {
    assert w[0] == TO_DESTINATION_EQ[0];
  }

  lemma ReadFoldedLastIs(x: string, isIP: string -> bool)
    requires IPTexts(isIP) && Bare(x) && !Folded(x)
    ensures Read(TO_DESTINATION_EQ + x, isIP) == Args([TO_DESTINATION, Canonical(x, isIP)])
  {
    ReadSimpleIs(x, "", isIP);
    ReadFoldedIs(x, isIP);
    var d, c := TO_DESTINATION, Canonical(x, isIP);
    assert [d] + [c] == [d, c];
  }

  lemma ReadFoldedWordIs(x: string, tail: string, isIP: string -> bool)
    requires IPTexts(isIP) && Bare(x) && !Folded(x) && Read(tail, isIP).Args?
    ensures Read(TO_DESTINATION_EQ + (x + " " + tail), isIP) == Args([TO_DESTINATION, Canonical(x, isIP)] + Read(tail, isIP).args)
  {
    var y, c, rest := x + " " + tail, Canonical(x, isIP), Read(tail, isIP).args;
    assert Read(y, isIP) == Args([c] + rest) by { ReadSimpleIs(x, tail, isIP); }
    ReadFoldedIs(y, isIP);
    TwoInFront(TO_DESTINATION, c, rest);
  }

  lemma TwoInFront(a: string, b: string, rest: seq<string>)
    ensures [a] + ([b] + rest) == [a, b] + rest
  {
  }

  lemma ReadWordIs(w: string, tail: string, isIP: string -> bool)
    requires IPTexts(isIP) && Word(w)
    ensures Read(w, isIP) == Args(StoredWord(w, isIP))
    ensures Read(tail, isIP).Args? ==> Read(w + " " + tail, isIP) == Args(StoredWord(w, isIP) + Read(tail, isIP).args)
  {
    if !Folded(w) {
      ReadSimpleIs(w, tail, isIP);
    } else {
      FoldedIsNotQuoted(w);
      Unprefix(w, TO_DESTINATION_EQ, tail);
      ReadFoldedLastIs(w[|TO_DESTINATION_EQ|..], isIP);
      if Read(tail, isIP).Args? { ReadFoldedWordIs(w[|TO_DESTINATION_EQ|..], tail, isIP); }
    }
  }

  lemma {:induction false} ReadIsStored(words: seq<string>, isIP: string -> bool)
    requires IPTexts(isIP) && |words| > 0 && forall i :: 0 <= i < |words| ==> Word(words[i])
    ensures Read(Join(words, " "), isIP) == Args(Stored(words, isIP))
    decreases |words|
  {
    if |words| == 1 {
      ReadWordIs(words[0], "", isIP);
      assert words[1..] == [] && StoredWord(words[0], isIP) + [] == StoredWord(words[0], isIP);
    } else {
      ReadIsStored(words[1..], isIP);
      ReadWordIs(words[0], Join(words[1..], " "), isIP);
    }
  }

  lemma JoinIsTrimmed(words: seq<string>)
    requires |words| > 0 && Word(words[0]) && Word(words[|words| - 1])
    ensures TrimSpace(Join(words, " ")) == Join(words, " ")
  {
    var first, last, s := words[0], words[|words| - 1], Join(words, " ");
    assert first != "" && !IsSpace(first[0]) by { WordEnds(first); }
    assert last != "" && !IsSpace(last[|last| - 1]) by { WordEnds(last); }
    JoinEnds(words);
    TrimSpaceId(s);
  }

  lemma NormalOfReading(s: string, args: seq<string>, isIP: string -> bool)
    requires TrimSpace(s) == s && Read(s, isIP) == Args(args) && args != [] && args[0] != ""
    ensures NormalizeRule(s, isIP) == Normal(Join(args, " "))
  {
    NormalizeIsReadAndGlue(s, "", isIP);
    GlueFromEmpty(args);
  }

  /** A rule written as words is stored as its stored words. */
  lemma NormalTextIs(words: seq<string>, isIP: string -> bool)
    requires IPTexts(isIP) && |words| > 0 && forall i :: 0 <= i < |words| ==> Word(words[i])
    requires Stored(words, isIP) != [] && Stored(words, isIP)[0] != ""
    ensures NormalText(Join(words, " "), isIP) == Join(Stored(words, isIP), " ")
  {
    JoinIsTrimmed(words);
    ReadIsStored(words, isIP);
    NormalOfReading(Join(words, " "), Stored(words, isIP), isIP);
  }

  /** So it means what its stored words say. */
  lemma MeaningOfStored(words: seq<string>, stored: seq<string>, isIP: string -> bool)
    requires IPTexts(isIP) && |words| > 0 && forall i :: 0 <= i < |words| ==> Word(words[i])
    requires Stored(words, isIP) == stored && stored != [] && forall i :: 0 <= i < |stored| ==> Solid(stored[i])
    ensures Meaning(NormalText(Join(words, " "), isIP)) == ReadFlags(stored, 0)
  {
    assert Solid(stored[0]);
    NormalTextIs(words, isIP);
    WordsOfJoin(stored);
  }

  // ---- the rules of a mapping -------------------------------------------------------------------------------

  lemma Flags()
    ensures FlagOf("-m") == Other && FlagOf("--comment") == Other && FlagOf("-p") == Protocol && FlagOf("--dport") == DPort
    ensures FlagOf("-s") == Source && FlagOf("-d") == Destination && FlagOf("-j") == Target && FlagOf(TO_DESTINATION) == To
  {
    assert "-m"[1] != "-p"[1] && "-m"[1] != "-s"[1] && "-m"[1] != "-d"[1] && "-m"[1] != "-j"[1];
    assert |"--comment"| == 9 && |"--dport"| == 7 && |TO_DESTINATION| == 16 && |"-p"| == 2;
    assert "-s"[1] != "-p"[1] && "-d"[1] != "-p"[1] && "-d"[1] != "-s"[1];
    assert "-j"[1] != "-p"[1] && "-j"[1] != "-s"[1] && "-j"[1] != "-d"[1];
  }

  /** Three conditions that are not looked at: "-m comment --comment x -m protocol". */
  ghost predicate Opens(w: seq<string>) {
    |w| >= 6 && FlagOf(w[0]) == Other && FlagOf(w[2]) == Other && FlagOf(w[4]) == Other
  }

  lemma ReadEnd(w: seq<string>)
    ensures ReadFlags(w, |w|) == ANY
  {
  }

  lemma ReadTwo(w: seq<string>, i: nat)
    requires i + 2 <= |w|
    ensures ReadFlags(w, i) == With(ReadFlags(w, i + 2), FlagOf(w[i]), w[i + 1])
  {
  }

  lemma ReadJumpFlags(w: seq<string>)
    requires |w| == 12 && Opens(w) && FlagOf(w[6]) == Protocol && FlagOf(w[8]) == DPort && FlagOf(w[10]) == Target
    ensures ReadFlags(w, 0) == ANY.(protocol := Some(w[7]), dport := Some(w[9]), target := Some(w[11]))
  {
    ReadEnd(w);
    ReadTwo(w, 10); ReadTwo(w, 8); ReadTwo(w, 6); ReadTwo(w, 4); ReadTwo(w, 2); ReadTwo(w, 0);
  }

  lemma ReadSnatFlags(w: seq<string>)
    requires |w| == 8 && FlagOf(w[0]) == Other && FlagOf(w[2]) == Other && FlagOf(w[4]) == Source && FlagOf(w[6]) == Target
    ensures ReadFlags(w, 0) == ANY.(source := Some(w[5]), target := Some(w[7]))
  {
    ReadEnd(w);
    ReadTwo(w, 6); ReadTwo(w, 4); ReadTwo(w, 2); ReadTwo(w, 0);
  }

  lemma ReadDnatFlags(w: seq<string>)
    requires |w| == 12 && Opens(w) && FlagOf(w[6]) == Protocol && FlagOf(w[8]) == Target && FlagOf(w[10]) == To
    ensures ReadFlags(w, 0) == ANY.(protocol := Some(w[7]), target := Some(w[9]), to := Some(w[11]))
  {
    ReadEnd(w);
    ReadTwo(w, 10); ReadTwo(w, 8); ReadTwo(w, 6); ReadTwo(w, 4); ReadTwo(w, 2); ReadTwo(w, 0);
  }

  lemma ReadDnatAddressFlags(w: seq<string>)
    requires |w| == 14 && Opens(w) && FlagOf(w[6]) == Protocol && FlagOf(w[8]) == Destination
    requires FlagOf(w[10]) == Target && FlagOf(w[12]) == To
    ensures ReadFlags(w, 0) == ANY.(protocol := Some(w[7]), destination := Some(w[9]), target := Some(w[11]), to := Some(w[13]))
  {
    ReadEnd(w);
    ReadTwo(w, 12); ReadTwo(w, 10); ReadTwo(w, 8); ReadTwo(w, 6); ReadTwo(w, 4); ReadTwo(w, 2); ReadTwo(w, 0);
  }

  lemma StableIsSolid(w: string, isIP: string -> bool)
    requires Stable(w, isIP) && w != ""
    ensures Solid(w)
  {
    assert IsSpace(' ');
  }

  /** The jump is stored as written, and asks for protocol and host port. */
  lemma JumpMeans(podFullName: string, pm: HS.PortMapping, chain: string, isIP: string -> bool)
    requires IPTexts(isIP) && NameText(podFullName) && MappingText(pm)
    requires chain != "" && Plain(chain, isIP) && ChainName(chain)
    ensures Meaning(Join(JumpArgs(podFullName, pm, chain), " "))
         == ANY.(protocol := Some(HS.Lower(pm.protocol)), dport := Some(Itoa(pm.hostPort)), target := Some(chain))
  {
    var w := JumpArgs(podFullName, pm, chain);
    JumpIsSolid(podFullName, pm, chain, isIP);
    WordsOfJoin(w);
    Flags();
    ReadJumpFlags(w);
  }

  lemma JumpIsSolid(podFullName: string, pm: HS.PortMapping, chain: string, isIP: string -> bool)
    requires IPTexts(isIP) && NameText(podFullName) && MappingText(pm)
    requires chain != "" && Plain(chain, isIP) && ChainName(chain)
    ensures var w := JumpArgs(podFullName, pm, chain); forall i :: 0 <= i < |w| ==> Solid(w[i])
  {
    var w := JumpArgs(podFullName, pm, chain);
    FlagWords(isIP);
    NumberWord(pm.hostPort, isIP);
    ItoaText(pm.hostPort);
    CommentIsQuoted(podFullName, pm);
    forall i | 0 <= i < |w| ensures Solid(w[i]) {
      assert Stable(w[i], isIP) && w[i] != "";
      StableIsSolid(w[i], isIP);
    }
  }

  /** net.ParseIP reads a text as IPv4 or IPv6 by its first separator, and an IPv4 text has no colon. */
  ghost predicate ColonsFirst(isIP: string -> bool) {
    forall s :: isIP(s) && '.' in s && ':' in s ==> IndexOf(s, ':') < IndexOf(s, '.')
  }

  lemma DotComesFirst(host: string, rest: string)
    requires '.' in host && ':' !in host
    ensures var s := host + [':'] + rest; '.' in s && ':' in s && IndexOf(s, '.') < IndexOf(s, ':')
  {
    var s := host + [':'] + rest;
    IndexOfFirst(host, ':', rest);
    assert s[|host|] == ':';
    var k :| 0 <= k < |host| && host[k] == '.';
    assert s[k] == '.';
  }

  lemma HostPortIsNoIP(host: string, port: int, isIP: string -> bool)
    requires IPTexts(isIP) && ColonsFirst(isIP) && isIP(host)
    ensures !isIP(JoinHostPort(host, port))
  {
    var s := JoinHostPort(host, port);
    if ':' in host {
      assert s[0] == '[' && s[0] in s && !IPChar('[');
    } else {
      assert s == host + [':'] + Itoa(port);
      DotComesFirst(host, Itoa(port));
    }
  }

  lemma BareIsTrimmed(w: string)
    requires Bare(w)
    ensures TrimSpace(w) == w
  {
    assert w[0] in w && w[|w| - 1] in w;
    TrimSpaceId(w);
  }

  lemma HostPortIsStored(host: string, port: int, isIP: string -> bool)
    requires IPTexts(isIP) && ColonsFirst(isIP) && isIP(host)
    ensures var x := JoinHostPort(host, port);
      Solid(x) && Folded(TO_DESTINATION_EQ + x) && StoredWord(TO_DESTINATION_EQ + x, isIP) == [TO_DESTINATION, x]
  {
    var x := JoinHostPort(host, port);
    HostPortText(host, port, isIP);
    HostPortIsNoIP(host, port, isIP);
    BareIsTrimmed(x);
    assert IsSpace(' ');
    var w := TO_DESTINATION_EQ + x;
    assert w[..|TO_DESTINATION_EQ|] == TO_DESTINATION_EQ && w[|TO_DESTINATION_EQ|..] == x;
  }

  lemma AddressIsStored(address: string, isIP: string -> bool)
    requires IPTexts(isIP) && isIP(address)
    ensures StoredWord(address, isIP) == [address + "/32"] && Solid(address + "/32")
  {
    IPWord(address, isIP);
    IPBecomesStable(address, isIP);
    StableIsSolid(address + "/32", isIP);
  }

  ghost predicate AllStable(words: seq<string>, isIP: string -> bool) {
    forall i :: 0 <= i < |words| ==> Stable(words[i], isIP) && words[i] != ""
  }

  ghost predicate AllSolid(words: seq<string>) { forall i :: 0 <= i < |words| ==> Solid(words[i]) }

  lemma AllSolidConcat(a: seq<string>, b: seq<string>)
    requires AllSolid(a) && AllSolid(b)
    ensures AllSolid(a + b)
  {
  }

  /** Stable words followed by one that is rewritten. */
  lemma StoredSnoc(a: seq<string>, x: string, stored: seq<string>, isIP: string -> bool)
    requires IPTexts(isIP) && AllStable(a, isIP) && StoredWord(x, isIP) == stored && AllSolid(stored)
    ensures Stored(a + [x], isIP) == a + stored && AllSolid(a + stored)
  {
    StoredConcat(a, [x], isIP);
    StableIsStored(a, isIP);
    assert [x][1..] == [] && stored + [] == stored;
    StableAreSolid(a, isIP);
    AllSolidConcat(a, stored);
  }

  lemma StableAreSolid(a: seq<string>, isIP: string -> bool)
    requires AllStable(a, isIP)
    ensures AllSolid(a)
  {
    forall i | 0 <= i < |a| ensures Solid(a[i]) { StableIsSolid(a[i], isIP); }
  }

  lemma StoredParts(a: seq<string>, b: seq<string>, sa: seq<string>, sb: seq<string>, isIP: string -> bool)
    requires Stored(a, isIP) == sa && Stored(b, isIP) == sb && AllSolid(sa) && AllSolid(sb)
    ensures Stored(a + b, isIP) == sa + sb && AllSolid(sa + sb)
  {
    StoredConcat(a, b, isIP);
    AllSolidConcat(sa, sb);
  }

  lemma AllWordsAreWords(words: seq<string>, stored: seq<string>, isIP: string -> bool)
    requires IPTexts(isIP) && words != [] && AllWords(words) && Stored(words, isIP) == stored && stored != [] && AllSolid(stored)
    ensures Meaning(NormalText(Join(words, " "), isIP)) == ReadFlags(stored, 0)
  {
    MeaningOfStored(words, stored, isIP);
  }

  // ---- the masquerade rule ----------------------------------------------------------------------------------

  lemma SnatFront(podFullName: string, pm: HS.PortMapping, isIP: string -> bool)
    requires IPTexts(isIP) && NameText(podFullName)
    ensures var a := ["-m", "comment", "--comment", Comment(podFullName, pm), "-s"]; AllStable(a, isIP) && AllWords(a)
    ensures var b := ["-j", KUBE_MARK_MASQ]; AllStable(b, isIP) && AllWords(b)
  {
    FlagWords(isIP);
    CommentIsQuoted(podFullName, pm);
  }

  lemma SnatStored(a: seq<string>, podIP: string, b: seq<string>, isIP: string -> bool)
    requires IPTexts(isIP) && isIP(podIP) && AllStable(a, isIP) && AllWords(a) && AllStable(b, isIP) && AllWords(b)
    ensures Meaning(NormalText(Join(a + [podIP] + b, " "), isIP)) == ReadFlags(a + [podIP + "/32"] + b, 0)
  {
    AddressIsStored(podIP, isIP);
    StoredSnoc(a, podIP, [podIP + "/32"], isIP);
    StableIsStored(b, isIP);
    StableAreSolid(b, isIP);
    StoredParts(a + [podIP], b, a + [podIP + "/32"], b, isIP);
    IPWord(podIP, isIP);
    OneWord(podIP);
    AllWordsConcat(a, [podIP]);
    AllWordsConcat(a + [podIP], b);
    AllWordsAreWords(a + [podIP] + b, a + [podIP + "/32"] + b, isIP);
  }

  lemma SnatGrouped(m: string, k: string, f: string, c: string, s: string, x: string, j: string, t: string)
    ensures [m, k, f, c, s, x, j, t] == [m, k, f, c, s] + [x] + [j, t]
  {
  }

  lemma SnatWordsRead(m: string, k: string, f: string, c: string, s: string, x: string, j: string, t: string)
    requires FlagOf(m) == Other && FlagOf(f) == Other && FlagOf(s) == Source && FlagOf(j) == Target
    ensures ReadFlags([m, k, f, c, s] + [x] + [j, t], 0) == ANY.(source := Some(x), target := Some(t))
  {
    ReadSnatFlags([m, k, f, c, s] + [x] + [j, t]);
  }

  /** The masquerade rule as it is stored asks for packets from the pod. */
  lemma SnatMeans(podFullName: string, pm: HS.PortMapping, podIP: string, isIP: string -> bool)
    requires IPTexts(isIP) && NameText(podFullName) && isIP(podIP)
    ensures Meaning(NormalText(Join(SnatArgs(podFullName, pm, podIP), " "), isIP))
         == ANY.(source := Some(podIP + "/32"), target := Some(KUBE_MARK_MASQ))
  {
    var comment := Comment(podFullName, pm);
    SnatFront(podFullName, pm, isIP);
    SnatStored(["-m", "comment", "--comment", comment, "-s"], podIP, ["-j", KUBE_MARK_MASQ], isIP);
    SnatGrouped("-m", "comment", "--comment", comment, "-s", podIP, "-j", KUBE_MARK_MASQ);
    Flags();
    SnatWordsRead("-m", "comment", "--comment", comment, "-s", podIP + "/32", "-j", KUBE_MARK_MASQ);
  }

  // ---- the DNAT rule ----------------------------------------------------------------------------------------

  /** The host address selects packets. */
  predicate Specific(hostIP: string) { !(hostIP == "" || hostIP == "0.0.0.0" || hostIP == "::") }

  lemma DnatTexts(podFullName: string, pm: HS.PortMapping, isIP: string -> bool)
    requires IPTexts(isIP) && NameText(podFullName) && MappingText(pm)
    ensures var a := ["-m", "comment", "--comment", Comment(podFullName, pm), "-m", HS.Lower(pm.protocol), "-p", HS.Lower(pm.protocol)];
      AllStable(a, isIP) && AllWords(a)
  {
    FlagWords(isIP);
    CommentIsQuoted(podFullName, pm);
    FrontIsStable("-m", "comment", "--comment", Comment(podFullName, pm), HS.Lower(pm.protocol), "-p", isIP);
  }

  ghost predicate Settled(w: string, isIP: string -> bool) { Stable(w, isIP) && Word(w) && w != "" && '\n' !in w }

  lemma FrontIsStable(m: string, k: string, f: string, c: string, t: string, l: string, isIP: string -> bool)
    requires Settled(m, isIP) && Settled(k, isIP) && Settled(f, isIP) && Settled(c, isIP) && Settled(t, isIP) && Settled(l, isIP)
    ensures AllStable([m, k, f, c, m, t, l, t], isIP) && AllWords([m, k, f, c, m, t, l, t])
  {
  }

  lemma DnatMiddle(isIP: string -> bool)
    requires IPTexts(isIP)
    ensures AllStable(["-d"], isIP) && AllWords(["-d"]) && AllStable(["-j", "DNAT"], isIP) && AllWords(["-j", "DNAT"])
  {
    FlagWords(isIP);
  }

  lemma AllStableConcat(a: seq<string>, b: seq<string>, isIP: string -> bool)
    requires AllStable(a, isIP) && AllStable(b, isIP)
    ensures AllStable(a + b, isIP)
  {
  }

  lemma DnatStored(a: seq<string>, podIP: string, port: int, isIP: string -> bool)
    requires IPTexts(isIP) && ColonsFirst(isIP) && isIP(podIP) && AllStable(a, isIP) && AllWords(a)
    ensures var x := JoinHostPort(podIP, port);
      && Stored(a + [TO_DESTINATION_EQ + x], isIP) == a + [TO_DESTINATION, x] && AllSolid(a + [TO_DESTINATION, x])
      && AllWords(a + [TO_DESTINATION_EQ + x])
  {
    var x := JoinHostPort(podIP, port);
    HostPortIsStored(podIP, port, isIP);
    ToDestinationIsPlain();
    StableIsSolid(TO_DESTINATION, _ => false);
    StoredSnoc(a, TO_DESTINATION_EQ + x, [TO_DESTINATION, x], isIP);
    DestinationWord(podIP, port, isIP);
    OneWord(TO_DESTINATION_EQ + x);
    AllWordsConcat(a, [TO_DESTINATION_EQ + x]);
  }

  lemma DnatWordsRead(a: seq<string>, j: string, target: string, t: string, x: string)
    requires |a| == 8 && Opens(a) && FlagOf(a[6]) == Protocol && FlagOf(j) == Target && FlagOf(t) == To
    ensures ReadFlags(a + [j, target] + [t, x], 0) == ANY.(protocol := Some(a[7]), target := Some(target), to := Some(x))
  {
    ReadDnatFlags(a + [j, target] + [t, x]);
  }

  lemma AddressedWordsRead(a: seq<string>, d: string, address: string, j: string, target: string, t: string, x: string)
    requires |a| == 8 && Opens(a) && FlagOf(a[6]) == Protocol && FlagOf(d) == Destination
    requires FlagOf(j) == Target && FlagOf(t) == To
    ensures ReadFlags(((a + [d]) + [address]) + ([j, target] + [t, x]), 0)
         == ANY.(protocol := Some(a[7]), destination := Some(address), target := Some(target), to := Some(x))
  {
    ReadDnatAddressFlags(((a + [d]) + [address]) + ([j, target] + [t, x]));
  }

  lemma AnyStored(a: seq<string>, podIP: string, port: int, isIP: string -> bool)
    requires IPTexts(isIP) && ColonsFirst(isIP) && isIP(podIP) && AllStable(a, isIP) && AllWords(a)
    ensures var x, b := JoinHostPort(podIP, port), a + ["-j", "DNAT"];
      Meaning(NormalText(Join(b + [TO_DESTINATION_EQ + x], " "), isIP)) == ReadFlags(b + [TO_DESTINATION, x], 0)
  {
    var x, b := JoinHostPort(podIP, port), a + ["-j", "DNAT"];
    DnatMiddle(isIP);
    AllStableConcat(a, ["-j", "DNAT"], isIP);
    AllWordsConcat(a, ["-j", "DNAT"]);
    DnatStored(b, podIP, port, isIP);
    AllWordsAreWords(b + [TO_DESTINATION_EQ + x], b + [TO_DESTINATION, x], isIP);
  }

  lemma AddressedStored(a: seq<string>, hostIP: string, podIP: string, port: int, isIP: string -> bool)
    requires IPTexts(isIP) && ColonsFirst(isIP) && isIP(podIP) && isIP(hostIP) && AllStable(a, isIP) && AllWords(a)
    ensures var x, w, v := JoinHostPort(podIP, port), (a + ["-d"]) + [hostIP], (a + ["-d"]) + [hostIP + "/32"];
      Meaning(NormalText(Join(w + (["-j", "DNAT"] + [TO_DESTINATION_EQ + x]), " "), isIP))
      == ReadFlags(v + (["-j", "DNAT"] + [TO_DESTINATION, x]), 0)
  {
    var x := JoinHostPort(podIP, port);
    var w, v := (a + ["-d"]) + [hostIP], (a + ["-d"]) + [hostIP + "/32"];
    DnatMiddle(isIP);
    AllStableConcat(a, ["-d"], isIP);
    AllWordsConcat(a, ["-d"]);
    AddressIsStored(hostIP, isIP);
    StoredSnoc(a + ["-d"], hostIP, [hostIP + "/32"], isIP);
    DnatStored(["-j", "DNAT"], podIP, port, isIP);
    StoredParts(w, ["-j", "DNAT"] + [TO_DESTINATION_EQ + x], v, ["-j", "DNAT"] + [TO_DESTINATION, x], isIP);
    IPWord(hostIP, isIP);
    OneWord(hostIP);
    AllWordsConcat(a + ["-d"], [hostIP]);
    AllWordsConcat(w, ["-j", "DNAT"] + [TO_DESTINATION_EQ + x]);
    AllWordsAreWords(w + (["-j", "DNAT"] + [TO_DESTINATION_EQ + x]), v + (["-j", "DNAT"] + [TO_DESTINATION, x]), isIP);
  }

  /** The host address of a mapping, where there is one, is an address. */
  ghost predicate AddressOk(pm: HS.PortMapping, isIP: string -> bool) { pm.hostIP == "" || isIP(pm.hostIP) }

  lemma Regrouped(a: seq<string>, d: string, address: string, j: string, target: string, last: string)
    ensures a + [d, address] + [j, target, last] == ((a + [d]) + [address]) + ([j, target] + [last])
    ensures a + [] + [j, target, last] == a + [j, target] + [last]
  {
  }

  /** The words of the DNAT rule. */
  lemma DnatArgsAre(podFullName: string, pm: HS.PortMapping, podIP: string)
    ensures var a := ["-m", "comment", "--comment", Comment(podFullName, pm), "-m", HS.Lower(pm.protocol), "-p", HS.Lower(pm.protocol)];
      var last := TO_DESTINATION_EQ + JoinHostPort(podIP, pm.containerPort);
      DnatArgs(podFullName, pm, podIP) ==
        if Specific(pm.hostIP) then ((a + ["-d"]) + [pm.hostIP]) + (["-j", "DNAT"] + [last]) else a + ["-j", "DNAT"] + [last]
  {
    var a := ["-m", "comment", "--comment", Comment(podFullName, pm), "-m", HS.Lower(pm.protocol), "-p", HS.Lower(pm.protocol)];
    Regrouped(a, "-d", pm.hostIP, "-j", "DNAT", TO_DESTINATION_EQ + JoinHostPort(podIP, pm.containerPort));
  }

  lemma DnatOpens(podFullName: string, pm: HS.PortMapping)
    ensures var a := ["-m", "comment", "--comment", Comment(podFullName, pm), "-m", HS.Lower(pm.protocol), "-p", HS.Lower(pm.protocol)];
      Opens(a) && FlagOf(a[6]) == Protocol
  {
    Flags();
  }

  /** The DNAT rule as it is stored asks for protocol and, where it is specific, host address, and sends to the
      pod's container port. */
  lemma DnatMeans(podFullName: string, pm: HS.PortMapping, podIP: string, isIP: string -> bool)
    requires IPTexts(isIP) && ColonsFirst(isIP) && NameText(podFullName) && isIP(podIP) && MappingText(pm) && AddressOk(pm, isIP)
    ensures Meaning(NormalText(Join(DnatArgs(podFullName, pm, podIP), " "), isIP))
         == ANY.(protocol := Some(HS.Lower(pm.protocol)), target := Some("DNAT"),
                 destination := if Specific(pm.hostIP) then Some(pm.hostIP + "/32") else None,
                 to := Some(JoinHostPort(podIP, pm.containerPort)))
  {
    var a := ["-m", "comment", "--comment", Comment(podFullName, pm), "-m", HS.Lower(pm.protocol), "-p", HS.Lower(pm.protocol)];
    DnatTexts(podFullName, pm, isIP);
    DnatOpens(podFullName, pm);
    DnatArgsAre(podFullName, pm, podIP);
    assert FlagOf("-d") == Destination && FlagOf("-j") == Target && FlagOf(TO_DESTINATION) == To by { Flags(); }
    var x := JoinHostPort(podIP, pm.containerPort);
    if Specific(pm.hostIP) {
      AddressedStored(a, pm.hostIP, podIP, pm.containerPort, isIP);
      AddressedWordsRead(a, "-d", pm.hostIP + "/32", "-j", "DNAT", TO_DESTINATION, x);
    } else {
      AnyStored(a, podIP, pm.containerPort, isIP);
      DnatWordsRead(a, "-j", "DNAT", TO_DESTINATION, x);
    }
  }
}
