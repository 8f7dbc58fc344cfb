/** The iptables side of network/hostport/hostport_manager.go: the text Add and Remove hand to restore,
    and what the in-repository iptables makes of it.

    The headers written for chains that already exist are the JSON text of an empty struct, "{}", which
    restore ignores; existing chains are therefore not flushed, and re-adding their rules finds every
    rule in place. */
module HostportRules {
  import opened Text
  import opened RuleSyntax
  import opened IPTables
  import HS = HostportSockets

  const NAT := "nat"
  const KUBE_HOSTPORTS := "KUBE-HOSTPORTS"
  const HOSTPORT_CHAIN_PREFIX := "KUBE-HP-"
  const KUBE_MARK_MASQ := "KUBE-MARK-MASQ"
  const JSON_OF_EMPTY_STRUCT := "{}"

  // ---- the rules of one mapping -----------------------------------------------------------------------

  /** sha256 and base32 are taken as `hash`, a text of at least 16 characters of the base32 alphabet. */
  ghost predicate HashTexts(hash: string -> string) {
    forall s :: |hash(s)| >= 16 && forall c :: c in hash(s) ==> 'A' <= c <= 'Z' || '2' <= c <= '7'
  }

  /** getHostportChain. */
  function ChainOf(id: string, pm: HS.PortMapping, hash: string -> string): string
    requires |hash(id + Itoa(pm.hostPort) + pm.protocol + pm.hostIP)| >= 16
  {
    HOSTPORT_CHAIN_PREFIX + hash(id + Itoa(pm.hostPort) + pm.protocol + pm.hostIP)[..16]
  }

  function Comment(podFullName: string, pm: HS.PortMapping): string {
    "\"" + podFullName + " hostport " + Itoa(pm.hostPort) + "\""
  }

  /** net.JoinHostPort. */
  function JoinHostPort(host: string, port: int): string {
    if ':' in host then "[" + host + "]:" + Itoa(port) else host + ":" + Itoa(port)
  }

  function JumpArgs(podFullName: string, pm: HS.PortMapping, chain: string): seq<string> {
    var protocol := HS.Lower(pm.protocol);
    ["-m", "comment", "--comment", Comment(podFullName, pm), "-m", protocol, "-p", protocol,
     "--dport", Itoa(pm.hostPort), "-j", chain]
  }

  function SnatArgs(podFullName: string, pm: HS.PortMapping, podIP: string): seq<string> {
    ["-m", "comment", "--comment", Comment(podFullName, pm), "-s", podIP, "-j", KUBE_MARK_MASQ]
  }

  function DnatArgs(podFullName: string, pm: HS.PortMapping, podIP: string): seq<string> {
    var protocol := HS.Lower(pm.protocol);
    ["-m", "comment", "--comment", Comment(podFullName, pm), "-m", protocol, "-p", protocol]
    + (if pm.hostIP == "" || pm.hostIP == "0.0.0.0" || pm.hostIP == "::" then [] else ["-d", pm.hostIP])
    + ["-j", "DNAT", TO_DESTINATION_EQ + JoinHostPort(podIP, pm.containerPort)]
  }

  /** A new rule set: the chain of a mapping with the texts of its three rules. */
  datatype NewChain = NewChain(chain: string, jump: string, snat: string, dnat: string)

  function NewChainOf(id: string, podFullName: string, podIP: string, pm: HS.PortMapping, hash: string -> string): NewChain
    requires |hash(id + Itoa(pm.hostPort) + pm.protocol + pm.hostIP)| >= 16
  {
    var chain := ChainOf(id, pm, hash);
    NewChain(chain, Join(JumpArgs(podFullName, pm, chain), " "), Join(SnatArgs(podFullName, pm, podIP), " "),
             Join(DnatArgs(podFullName, pm, podIP), " "))
  }

  // ---- the text of Add and Remove --------------------------------------------------------------------------

  function ChainNames(news: seq<NewChain>): (names: seq<string>)
    ensures |names| == |news| && forall i :: 0 <= i < |news| ==> names[i] == news[i].chain
  {
    if news == [] then [] else [news[0].chain] + ChainNames(news[1..])
  }

  /** getExistingHostportIPTablesRules, the rule lines. */
  function ExistingRules(lines: seq<string>): seq<string> {
    if lines == [] then []
    else (if HasPrefix(lines[0], "-A " + HOSTPORT_CHAIN_PREFIX) || HasPrefix(lines[0], "-A " + KUBE_HOSTPORTS)
          then [lines[0]] else []) + ExistingRules(lines[1..])
  }

  predicate Mentions(line: string, chains: seq<string>) {
    exists i :: 0 <= i < |chains| && Contains(line, chains[i])
  }

  /** filterRules. */
  function FilterRules(rules: seq<string>, filters: seq<string>): seq<string> {
    if rules == [] then []
    else (if Mentions(rules[0], filters) then [] else [rules[0]]) + FilterRules(rules[1..], filters)
  }

  function Repeat(n: nat, line: string): seq<string> { seq(n, _ => line) }

  function NewRuleLines(news: seq<NewChain>): seq<string> {
    if news == [] then []
    else ["-I " + KUBE_HOSTPORTS + " " + news[0].jump,
          "-A " + news[0].chain + " " + news[0].snat,
          "-A " + news[0].chain + " " + news[0].dnat] + NewRuleLines(news[1..])
  }

  /** What Add writes, given the lines that save wrote and the number of existing hostport chains
      among the headers that are not new. */
  function AddLines(news: seq<NewChain>, saved: seq<string>, existing: nat): seq<string> {
    TableLines(NAT, Headers(ChainNames(news)) + Repeat(existing, JSON_OF_EMPTY_STRUCT)
                    + NewRuleLines(news) + FilterRules(ExistingRules(saved), ChainNames(news)))
  }

  function DeleteLines(chains: seq<string>): seq<string> {
    if chains == [] then [] else ["-X " + chains[0]] + DeleteLines(chains[1..])
  }

  /** What Remove writes: `targets` are the chains of its mappings, `present` those that exist. */
  function RemoveLines(targets: seq<string>, present: seq<string>, saved: seq<string>, existing: nat): seq<string> {
    TableLines(NAT, Repeat(existing, JSON_OF_EMPTY_STRUCT) + FilterRules(ExistingRules(saved), targets) + DeleteLines(present))
  }

  // ---- the same as operations ---------------------------------------------------------------------------------

  function ThreeOps(hostports: string, n: NewChain): seq<Line> {
    [RuleOf(Prepend, hostports, n.jump), RuleOf(Append, n.chain, n.snat), RuleOf(Append, n.chain, n.dnat)]
  }

  function NewRuleOps(hostports: string, news: seq<NewChain>): (ops: seq<Line>)
    ensures forall l :: l in ops ==> l.RuleOf?
  {
    if news == [] then [] else ThreeOps(hostports, news[0]) + NewRuleOps(hostports, news[1..])
  }

  lemma NewRuleOpsParse3(n: NewChain)
    requires ' ' !in n.chain
    ensures Parsed(["-I " + KUBE_HOSTPORTS + " " + n.jump, "-A " + n.chain + " " + n.snat, "-A " + n.chain + " " + n.dnat])
         == ThreeOps(KUBE_HOSTPORTS, n)
  {
    RuleParses(Prepend, KUBE_HOSTPORTS, n.jump);
    RuleParses(Append, n.chain, n.snat);
    RuleParses(Append, n.chain, n.dnat);
  }

  lemma {:induction false} NewRuleLinesParse(news: seq<NewChain>)
    requires forall n :: n in news ==> ' ' !in n.chain
    ensures Parsed(NewRuleLines(news)) == NewRuleOps(KUBE_HOSTPORTS, news)
  {
    if news != [] {
      NewRuleOpsParse3(news[0]);
      NewRuleLinesParse(news[1..]);
      ParsedConcat(["-I " + KUBE_HOSTPORTS + " " + news[0].jump, "-A " + news[0].chain + " " + news[0].snat,
                    "-A " + news[0].chain + " " + news[0].dnat], NewRuleLines(news[1..]));
    }
  }

  lemma {:induction false} IgnoredDoNothing(sc: Scope, n: nat, table: string, cfg: Config)
    ensures ActInAll(sc, seq(n, _ => Ignored), table, cfg) == sc
  {
    if n > 0 {
      assert seq(n, _ => Ignored)[1..] == seq(n - 1, _ => Ignored);
      IgnoredDoNothing(sc, n - 1, table, cfg);
    }
  }

  // ---- rules already in place are left in place -----------------------------------------------------------------

  ghost predicate InPlace(op: Line, cs: Chains, isIP: string -> bool) {
    op.RuleOf? && op.chain in cs && op.rule in cs[op.chain] && FixedRule(op.rule, isIP)
  }

  lemma {:induction false} InPlaceDoNothing(cs: Chains, ops: seq<Line>, table: string, cfg: Config)
    requires forall op :: op in ops ==> InPlace(op, cs, cfg.isIP)
    ensures ActInAll(Scope(cs, None), ops, table, cfg) == Scope(cs, None)
    decreases |ops|
  {
    if ops != [] {
      var op := ops[0];
      assert InPlace(op, cs, cfg.isIP);
      assert cs[op.chain := cs[op.chain]] == cs;
      InPlaceDoNothing(cs, ops[1..], table, cfg);
    }
  }

  ghost predicate SavedLine(l: string, cs: Chains) {
    exists c, r :: c in cs && r in cs[c] && l == RuleLine(c, r)
  }

  lemma {:induction false} RuleLinesAreSaved(cs: Chains, c: string, rules: Rules, l: string)
    requires c in cs && (forall r :: r in rules ==> r in cs[c]) && l in RuleLines(c, rules)
    ensures SavedLine(l, cs)
  {
    if l == RuleLine(c, rules[0]) {
      assert rules[0] in cs[c];
    } else {
      RuleLinesAreSaved(cs, c, rules[1..], l);
    }
  }

  lemma {:induction false} AllRuleLinesAreSaved(cs: Chains, order: seq<string>, l: string)
    requires (forall c :: c in order ==> c in cs) && l in AllRuleLines(cs, order)
    ensures SavedLine(l, cs)
  {
    if l in RuleLines(order[0], cs[order[0]]) {
      RuleLinesAreSaved(cs, order[0], cs[order[0]], l);
    } else {
      AllRuleLinesAreSaved(cs, order[1..], l);
    }
  }

  lemma {:induction false} ExistingRulesAreLines(lines: seq<string>, l: string)
    requires l in ExistingRules(lines)
    ensures l in lines && |l| >= 2 && l[0] == '-'
  {
    if l !in ExistingRules(lines[1..]) {
      assert l == lines[0];
      assert ("-A " + HOSTPORT_CHAIN_PREFIX)[0] == '-' && ("-A " + KUBE_HOSTPORTS)[0] == '-';
    } else {
      ExistingRulesAreLines(lines[1..], l);
    }
  }

  lemma {:induction false} HeadersBeginWithColon(order: seq<string>)
    ensures forall l :: l in Headers(order) ==> |l| > 0 && l[0] == ':'
  {
    if order != [] { HeadersBeginWithColon(order[1..]); }
  }

  lemma {:induction false} FilterRulesKeeps(rules: seq<string>, filters: seq<string>, l: string)
    ensures l in FilterRules(rules, filters) <==> l in rules && !Mentions(l, filters)
  {
    if rules != [] { FilterRulesKeeps(rules[1..], filters, l); }
  }

  /** The positions, counted from `first`, of the rules that mention none of the chains. */
  function KeptAt(rules: seq<string>, filters: seq<string>, first: nat): seq<nat> {
    if rules == [] then []
    else (if Mentions(rules[0], filters) then [] else [first]) + KeptAt(rules[1..], filters, first + 1)
  }

  lemma {:induction false} KeptAtMembers(rules: seq<string>, filters: seq<string>, first: nat)
    ensures forall k :: 0 <= k < |rules| ==> (first + k in KeptAt(rules, filters, first) <==> !Mentions(rules[k], filters))
    ensures forall i :: i in KeptAt(rules, filters, first) ==> first <= i < first + |rules|
  {
    if rules != [] {
      var rest := KeptAt(rules[1..], filters, first + 1);
      KeptAtMembers(rules[1..], filters, first + 1);
      forall k | 0 <= k < |rules|
        ensures first + k in KeptAt(rules, filters, first) <==> !Mentions(rules[k], filters)
      {
        if k > 0 {
          assert rules[k] == rules[1..][k - 1];
          assert first + 1 + (k - 1) in rest <==> !Mentions(rules[k], filters);
        }
      }
    }
  }

  lemma {:induction false} KeptAtIncreases(rules: seq<string>, filters: seq<string>, first: nat)
    ensures Increasing(KeptAt(rules, filters, first), first)
  {
    if rules != [] {
      KeptAtIncreases(rules[1..], filters, first + 1);
    }
  }

  ghost predicate Increasing(at: seq<nat>, first: nat) {
    (forall j, k :: 0 <= j < k < |at| ==> at[j] < at[k]) && forall k :: 0 <= k < |at| ==> first <= at[k]
  }

  lemma {:induction false} KeptAtPicks(rules: seq<string>, filters: seq<string>, first: nat)
    ensures var at, kept := KeptAt(rules, filters, first), FilterRules(rules, filters);
      |at| == |kept| && forall k :: 0 <= k < |at| ==> first <= at[k] < first + |rules| && kept[k] == rules[at[k] - first]
  {
    if rules != [] {
      KeptAtPicks(rules[1..], filters, first + 1);
    }
  }

  /** The filter yields the rules at increasing positions, which are all those of rules that mention none of
      the chains: nothing else is dropped and nothing is moved. */
  lemma FilterRulesInOrder(rules: seq<string>, filters: seq<string>)
    ensures var at, kept := KeptAt(rules, filters, 0), FilterRules(rules, filters);
      && |at| == |kept| && (forall k :: 0 <= k < |at| ==> at[k] < |rules| && kept[k] == rules[at[k]])
      && (forall j, k :: 0 <= j < k < |at| ==> at[j] < at[k])
      && (forall i :: 0 <= i < |rules| ==> (i in at <==> !Mentions(rules[i], filters)))
  {
    KeptAtPicks(rules, filters, 0);
    KeptAtIncreases(rules, filters, 0);
    KeptFromZero(rules, filters);
  }

  lemma KeptFromZero(rules: seq<string>, filters: seq<string>)
    ensures forall i :: 0 <= i < |rules| ==> (i in KeptAt(rules, filters, 0) <==> !Mentions(rules[i], filters))
  {
    KeptAtMembers(rules, filters, 0);
    forall i | 0 <= i < |rules|
      ensures i in KeptAt(rules, filters, 0) <==> !Mentions(rules[i], filters)
    {
      assert 0 + i in KeptAt(rules, filters, 0) <==> !Mentions(rules[i], filters);
    }
  }

  lemma DashLinesAreRules(cs: Chains, order: seq<string>, l: string)
    requires (forall c :: c in order ==> c in cs) && l in SaveLines(NAT, cs, order) && |l| > 0 && l[0] == '-'
    ensures l in AllRuleLines(cs, order)
  {
  }

  /** A rule line that is fed back was saved from a chain that is not among the filtered ones. */
  lemma KeptLine(cs: Chains, order: seq<string>, filters: seq<string>, l: string) returns (c: string, r: string)
    requires forall c :: c in order ==> c in cs
    requires l in FilterRules(ExistingRules(SaveLines(NAT, cs, order)), filters)
    ensures c in cs && r in cs[c] && l == RuleLine(c, r) && c !in filters
  {
    FilterRulesKeeps(ExistingRules(SaveLines(NAT, cs, order)), filters, l);
    ExistingRulesAreLines(SaveLines(NAT, cs, order), l);
    DashLinesAreRules(cs, order, l);
    AllRuleLinesAreSaved(cs, order, l);
    c, r :| c in cs && r in cs[c] && l == RuleLine(c, r);
    ContainsInMiddle("-A ", c, " " + r);
    assert l == "-A " + c + (" " + r);
    assert c in filters ==> Mentions(l, filters);
  }

  ghost predicate KeptOp(op: Line, cs: Chains, filters: seq<string>, isIP: string -> bool) {
    InPlace(op, cs, isIP) && op.chain !in filters
  }

  lemma KeptLineOp(cs: Chains, order: seq<string>, filters: seq<string>, isIP: string -> bool, l: string)
    requires ChainsOk(cs, isIP) && forall c :: c in order ==> c in cs
    requires l in FilterRules(ExistingRules(SaveLines(NAT, cs, order)), filters)
    ensures KeptOp(ParseLine(l), cs, filters, isIP) && '\n' !in l
  {
    var c, r := KeptLine(cs, order, filters, l);
    assert ChainName(c) && RulesOk(cs[c], isIP);
    RuleParses(Append, c, r);
  }

  lemma KeptOps(cs: Chains, order: seq<string>, filters: seq<string>, isIP: string -> bool)
    requires ChainsOk(cs, isIP) && forall c :: c in order ==> c in cs
    ensures forall op :: op in Parsed(FilterRules(ExistingRules(SaveLines(NAT, cs, order)), filters)) ==>
                         KeptOp(op, cs, filters, isIP)
    ensures NoNewlines(FilterRules(ExistingRules(SaveLines(NAT, cs, order)), filters))
  {
    var lines := FilterRules(ExistingRules(SaveLines(NAT, cs, order)), filters);
    forall i | 0 <= i < |lines| ensures KeptOp(Parsed(lines)[i], cs, filters, isIP) && '\n' !in lines[i] {
      KeptLineOp(cs, order, filters, isIP, lines[i]);
    }
  }

  // ---- which saved rules are fed back -----------------------------------------------------------------------------

  /** A chain of the manager, by its name. */
  predicate OwnChain(c: string) { HasPrefix(c, "KUBE-HP-") || HasPrefix(c, "KUBE-HOSTPORTS") }

  lemma {:induction false} ExistingRulesKeep(lines: seq<string>, l: string)
    ensures l in ExistingRules(lines) <==>
            l in lines && (HasPrefix(l, "-A " + HOSTPORT_CHAIN_PREFIX) || HasPrefix(l, "-A " + KUBE_HOSTPORTS))
  {
    if lines != [] { ExistingRulesKeep(lines[1..], l); }
  }

  lemma RuleLinePrefix(c: string, r: string, prefix: string)
    requires ' ' !in prefix
    ensures HasPrefix(RuleLine(c, r), "-A " + prefix) <==> HasPrefix(c, prefix)
  {
    var l, p := RuleLine(c, r), "-A " + prefix;
    assert l == "-A " + (c + " " + r);
    if HasPrefix(l, p) {
      assert forall i :: 0 <= i < |prefix| ==> prefix[i] == p[i + 3] == l[i + 3] == (c + " " + r)[i];
      assert (c + " " + r)[|c|] == ' ';
      assert c[..|prefix|] == prefix;
    }
    if HasPrefix(c, prefix) {
      assert l[..|p|] == p;
    }
  }

  lemma {:induction false} RuleLineIsListed(c: string, rules: Rules, r: string)
    requires r in rules
    ensures RuleLine(c, r) in RuleLines(c, rules)
  {
    if r != rules[0] { RuleLineIsListed(c, rules[1..], r); }
  }

  lemma {:induction false} RuleLineIsSaved(cs: Chains, order: seq<string>, c: string, r: string)
    requires (forall d :: d in order ==> d in cs) && c in order && r in cs[c]
    ensures RuleLine(c, r) in AllRuleLines(cs, order)
  {
    if c == order[0] {
      RuleLineIsListed(c, cs[c], r);
    } else {
      RuleLineIsSaved(cs, order[1..], c, r);
    }
  }

  lemma PrefixTexts()
    ensures ' ' !in HOSTPORT_CHAIN_PREFIX && ' ' !in KUBE_HOSTPORTS
  {
  }

  /** Of the rules that save writes, exactly those in chains of the manager are fed back, unless they are filtered. */
  lemma FedBackIff(cs: Chains, order: seq<string>, filters: seq<string>, c: string, r: string)
    requires (forall d :: d in order ==> d in cs) && c in order && r in cs[c]
    ensures RuleLine(c, r) in FilterRules(ExistingRules(SaveLines(NAT, cs, order)), filters) <==>
            OwnChain(c) && !Mentions(RuleLine(c, r), filters)
  {
    var l := RuleLine(c, r);
    RuleLineIsSaved(cs, order, c, r);
    ExistingRulesKeep(SaveLines(NAT, cs, order), l);
    FilterRulesKeeps(ExistingRules(SaveLines(NAT, cs, order)), filters, l);
    PrefixTexts();
    RuleLinePrefix(c, r, HOSTPORT_CHAIN_PREFIX);
    RuleLinePrefix(c, r, KUBE_HOSTPORTS);
  }

  // ---- the name of a chain ----------------------------------------------------------------------------------------

  /** The text that is hashed. */
  function HashedText(id: string, pm: HS.PortMapping): string { id + Itoa(pm.hostPort) + pm.protocol + pm.hostIP }

  lemma NumberThenWord(m: int, n: int, x: string, y: string)
    requires x != "" && y != "" && !NumberChar(x[0]) && !NumberChar(y[0]) && Itoa(m) + x == Itoa(n) + y
    ensures m == n && x == y
  {
    ItoaText(m);
    ItoaText(n);
    var s, t := Itoa(m), Itoa(n);
    assert (s + x)[|s|] == x[0] && (t + y)[|t|] == y[0];
    assert forall i :: 0 <= i < |s| ==> NumberChar((s + x)[i]);
    assert forall i :: 0 <= i < |t| ==> NumberChar((t + y)[i]);
    assert |s| == |t|;
    assert s == (s + x)[..|s|] && t == (t + y)[..|t|] && x == (s + x)[|s|..] && y == (t + y)[|t|..];
    ItoaInjective(m, n);
  }

  /** The protocols have names, which their first letters tell apart. */
  ghost predicate ProtocolsOk(a: string, b: string) {
    a != "" && b != "" && !NumberChar(a[0]) && !NumberChar(b[0]) && (a[0] == b[0] ==> a == b)
  }

  /** The hashed texts of two mappings of a pod are the same exactly if the mappings agree in host port, protocol and
      host address. */
  lemma SameTextIff(id: string, a: HS.PortMapping, b: HS.PortMapping)
    requires ProtocolsOk(a.protocol, b.protocol)
    ensures HashedText(id, a) == HashedText(id, b) <==>
            a.hostPort == b.hostPort && a.protocol == b.protocol && a.hostIP == b.hostIP
  {
    var s, t := HashedText(id, a), HashedText(id, b);
    var x, y := a.protocol + a.hostIP, b.protocol + b.hostIP;
    assert s == id + (Itoa(a.hostPort) + x) && t == id + (Itoa(b.hostPort) + y);
    if s == t {
      assert s[|id|..] == Itoa(a.hostPort) + x && t[|id|..] == Itoa(b.hostPort) + y;
      NumberThenWord(a.hostPort, b.hostPort, x, y);
      assert x[0] == a.protocol[0] && y[0] == b.protocol[0];
      assert a.hostIP == x[|a.protocol|..] && b.hostIP == y[|b.protocol|..];
    }
  }

  lemma PrefixedSame(prefix: string, x: string, y: string)
    ensures prefix + x == prefix + y <==> x == y
  {
    assert (prefix + x)[|prefix|..] == x && (prefix + y)[|prefix|..] == y;
  }

  /** So their chains are the same exactly if they agree in these, or if the hashes of two different texts agree in
      their first 16 characters. */
  lemma SameChainIff(id: string, a: HS.PortMapping, b: HS.PortMapping, hash: string -> string)
    requires HashTexts(hash) && ProtocolsOk(a.protocol, b.protocol)
    ensures ChainOf(id, a, hash) == ChainOf(id, b, hash) <==>
      || (a.hostPort == b.hostPort && a.protocol == b.protocol && a.hostIP == b.hostIP)
      || (HashedText(id, a) != HashedText(id, b) && hash(HashedText(id, a))[..16] == hash(HashedText(id, b))[..16])
  {
    SameTextIff(id, a, b);
    PrefixedSame(HOSTPORT_CHAIN_PREFIX, hash(HashedText(id, a))[..16], hash(HashedText(id, b))[..16]);
  }

  // ---- what Add does to the table ----------------------------------------------------------------------------------

  /** A new rule set that restore accepts: its jump is stored as written and names the new chain. */
  ghost predicate NewChainOk(n: NewChain, isIP: string -> bool) {
    && ChainName(n.chain) && n.chain != KUBE_HOSTPORTS
    && FixedRule(n.jump, isIP) && Contains(n.jump, n.chain)
    && NormalizeRule(n.snat, isIP).Normal? && NormalizeRule(n.dnat, isIP).Normal?
    && '\n' !in n.jump && '\n' !in n.snat && '\n' !in n.dnat
  }

  function PrependAll(rules: Rules, news: seq<NewChain>): Rules
    decreases |news|
  {
    if news == [] then rules else PrependAll(Put(Prepend, rules, news[0].jump), news[1..])
  }

  /** Chains outside `names` are the same in both. */
  ghost predicate SameOutside(a: Chains, b: Chains, names: set<string>) {
    forall c :: c !in names ==> (c in a <==> c in b) && (c in a ==> a[c] == b[c])
  }

  lemma HeaderCreates(cs: Chains, name: string, table: string, cfg: Config)
    ensures var r := ActIn(Scope(cs, None), HeaderOf(name), table, cfg);
      r.halted.None? && r.cs.Keys == cs.Keys + {name} && SameOutside(r.cs, cs, {name})
  {
  }

  lemma {:induction false} HeadersCreate(cs: Chains, names: seq<string>, table: string, cfg: Config)
    ensures var r := ActInAll(Scope(cs, None), HeaderOps(names), table, cfg);
      && r.halted.None? && r.cs.Keys == cs.Keys + (set c | c in names)
      && SameOutside(r.cs, cs, set c | c in names)
    decreases |names|
  {
    if names != [] {
      HeaderCreates(cs, names[0], table, cfg);
      var one := ActIn(Scope(cs, None), HeaderOf(names[0]), table, cfg);
      HeadersCreate(one.cs, names[1..], table, cfg);
      var rest := set c | c in names[1..];
      SameOutsideTrans(ActInAll(one, HeaderOps(names[1..]), table, cfg).cs, one.cs, cs, rest, {names[0]});
      assert (set c | c in names) == rest + {names[0]};
    }
  }

  /** The rules with which a chain that a header names starts: none, unless it exists and is not flushed. */
  function Opening(cs: Chains, c: string, table: string, cfg: Config): Rules {
    if c in cs && !Flushes(table, c, cfg) then cs[c] else []
  }

  lemma {:induction false} HeadersOpen(cs: Chains, names: seq<string>, c: string, table: string, cfg: Config)
    requires c in cs || c in names
    ensures var r := ActInAll(Scope(cs, None), HeaderOps(names), table, cfg);
      c in r.cs && r.cs[c] == if c in names then Opening(cs, c, table, cfg) else cs[c]
    decreases |names|
  {
    if names != [] {
      HeaderCreates(cs, names[0], table, cfg);
      var one := ActIn(Scope(cs, None), HeaderOf(names[0]), table, cfg);
      assert c in names <==> c == names[0] || c in names[1..];
      HeadersOpen(one.cs, names[1..], c, table, cfg);
    }
  }

  function NormalText(rule: string, isIP: string -> bool): string {
    var n := NormalizeRule(rule, isIP);
    if n.Normal? then n.rule else ""
  }

  ghost function AfterThree(cs: Chains, hostports: string, n: NewChain, isIP: string -> bool): Chains {
    var cs1 := cs[hostports := Put(Prepend, RulesOf(cs, hostports), n.jump)];
    var cs2 := cs1[n.chain := Put(Append, RulesOf(cs1, n.chain), NormalText(n.snat, isIP))];
    cs2[n.chain := Put(Append, cs2[n.chain], NormalText(n.dnat, isIP))]
  }

  ghost function AfterNews(cs: Chains, hostports: string, news: seq<NewChain>, isIP: string -> bool): Chains
    decreases |news|
  {
    if news == [] then cs else AfterNews(AfterThree(cs, hostports, news[0], isIP), hostports, news[1..], isIP)
  }

  lemma ThreeOpsAct(cs: Chains, hostports: string, n: NewChain, table: string, cfg: Config)
    requires NewChainOk(n, cfg.isIP)
    ensures ActInAll(Scope(cs, None), ThreeOps(hostports, n), table, cfg) == Scope(AfterThree(cs, hostports, n, cfg.isIP), None)
  {
    var ops := ThreeOps(hostports, n);
    var s1 := ActIn(Scope(cs, None), ops[0], table, cfg);
    var s2 := ActIn(s1, ops[1], table, cfg);
    var s3 := ActIn(s2, ops[2], table, cfg);
    assert ops[1..][1..] == [ops[2]] && [ops[2]][1..] == [];
    assert ActInAll(s2, [ops[2]], table, cfg) == s3;
    assert ActInAll(s1, ops[1..], table, cfg) == s3;
  }

  lemma {:induction false} NewRulesAct(cs: Chains, hostports: string, news: seq<NewChain>, table: string, cfg: Config)
    requires forall n :: n in news ==> NewChainOk(n, cfg.isIP)
    ensures ActInAll(Scope(cs, None), NewRuleOps(hostports, news), table, cfg) == Scope(AfterNews(cs, hostports, news, cfg.isIP), None)
    decreases |news|
  {
    if news != [] {
      ThreeOpsAct(cs, hostports, news[0], table, cfg);
      ActInAllConcat(Scope(cs, None), ThreeOps(hostports, news[0]), NewRuleOps(hostports, news[1..]), table, cfg);
      NewRulesAct(AfterThree(cs, hostports, news[0], cfg.isIP), hostports, news[1..], table, cfg);
    }
  }

  lemma AfterThreeShape(cs: Chains, hostports: string, n: NewChain, isIP: string -> bool)
    requires hostports in cs && n.chain != hostports
    ensures var r := AfterThree(cs, hostports, n, isIP);
      && r.Keys == cs.Keys + {n.chain} && r[hostports] == Put(Prepend, cs[hostports], n.jump)
      && SameOutside(r, cs, {hostports, n.chain})
  {
  }

  lemma SameOutsideTrans(a: Chains, b: Chains, c: Chains, x: set<string>, y: set<string>)
    requires SameOutside(a, b, x) && SameOutside(b, c, y)
    ensures SameOutside(a, c, x + y)
  {
  }

  ghost function NameSet(news: seq<NewChain>): set<string> { set n | n in news :: n.chain }

  lemma {:induction false} AfterNewsShape(cs: Chains, hostports: string, news: seq<NewChain>, isIP: string -> bool)
    requires hostports in cs && hostports !in NameSet(news)
    ensures var r := AfterNews(cs, hostports, news, isIP);
      && r.Keys == cs.Keys + NameSet(news) && r[hostports] == PrependAll(cs[hostports], news)
      && SameOutside(r, cs, {hostports} + NameSet(news))
    decreases |news|
  {
    if news != [] {
      var n, rest := news[0], news[1..];
      assert NameSet(news) == {n.chain} + NameSet(rest);
      var one := AfterThree(cs, hostports, n, isIP);
      AfterThreeShape(cs, hostports, n, isIP);
      AfterNewsShape(one, hostports, rest, isIP);
      SameOutsideTrans(AfterNews(cs, hostports, news, isIP), one, cs, {hostports} + NameSet(rest), {hostports, n.chain});
      assert {hostports} + NameSet(rest) + {hostports, n.chain} == {hostports} + NameSet(news);
    }
  }

  /** The rules that the new rule sets put into `chain`, behind `rules`. */
  function FillChain(rules: Rules, news: seq<NewChain>, chain: string, isIP: string -> bool): Rules
    decreases |news|
  {
    if news == [] then rules
    else
      FillChain(if news[0].chain == chain
                then Put(Append, Put(Append, rules, NormalText(news[0].snat, isIP)), NormalText(news[0].dnat, isIP))
                else rules, news[1..], chain, isIP)
  }

  lemma {:induction false} AfterNewsFills(cs: Chains, hostports: string, news: seq<NewChain>, chain: string, isIP: string -> bool)
    requires hostports in cs && chain in cs && chain != hostports && hostports !in NameSet(news)
    ensures chain in AfterNews(cs, hostports, news, isIP)
    ensures AfterNews(cs, hostports, news, isIP)[chain] == FillChain(cs[chain], news, chain, isIP)
    decreases |news|
  {
    if news != [] {
      assert NameSet(news) == {news[0].chain} + NameSet(news[1..]);
      AfterNewsFills(AfterThree(cs, hostports, news[0], isIP), hostports, news[1..], chain, isIP);
    }
  }

  /** Rule sets of other chains do not matter. */
  lemma {:induction false} FillSkips(rules: Rules, news: seq<NewChain>, chain: string, isIP: string -> bool)
    requires chain !in NameSet(news)
    ensures FillChain(rules, news, chain, isIP) == rules
    decreases |news|
  {
    if news != [] {
      assert NameSet(news) == {news[0].chain} + NameSet(news[1..]);
      FillSkips(rules, news[1..], chain, isIP);
    }
  }

  /** A chain of exactly one rule set gets that set's two rules. */
  lemma {:induction false} FillOnce(news: seq<NewChain>, i: nat, isIP: string -> bool)
    requires i < |news| && forall j :: 0 <= j < |news| && j != i ==> news[j].chain != news[i].chain
    ensures FillChain([], news, news[i].chain, isIP)
         == Put(Append, [NormalText(news[i].snat, isIP)], NormalText(news[i].dnat, isIP))
    decreases |news|
  {
    if i == 0 {
      var filled := Put(Append, Put(Append, [], NormalText(news[0].snat, isIP)), NormalText(news[0].dnat, isIP));
      assert forall j :: 0 <= j < |news[1..]| ==> news[1..][j] == news[j + 1];
      FillSkips(filled, news[1..], news[0].chain, isIP);
    } else {
      assert forall j :: 0 <= j < |news[1..]| ==> news[1..][j] == news[j + 1];
      assert news[0].chain != news[i].chain;
      FillOnce(news[1..], i - 1, isIP);
    }
  }

  /** Prepending keeps the old rules behind the new ones, and new rules that were not there come first. */
  lemma {:induction false} PrependAllShape(rules: Rules, news: seq<NewChain>) returns (front: Rules)
    ensures PrependAll(rules, news) == front + rules
    ensures forall r :: r in front ==> exists i :: 0 <= i < |news| && r == news[i].jump
    ensures forall i :: 0 <= i < |news| ==> (news[i].jump in front <==> news[i].jump !in rules)
    decreases |news|
  {
    if news == [] {
      front := [];
      assert front + rules == rules;
    } else {
      var one := Put(Prepend, rules, news[0].jump);
      var rest := PrependAllShape(one, news[1..]);
      front := if news[0].jump in rules then rest else rest + [news[0].jump];
      assert rest + ([news[0].jump] + rules) == rest + [news[0].jump] + rules;
      forall r | r in front ensures exists i :: 0 <= i < |news| && r == news[i].jump {
        if r in rest {
          var i :| 0 <= i < |news[1..]| && r == news[1..][i].jump;
          assert r == news[i + 1].jump;
        } else {
          assert r == news[0].jump;
        }
      }
      forall i | 0 <= i < |news| ensures news[i].jump in front <==> news[i].jump !in rules {
        if i > 0 { assert news[i] == news[1..][i - 1]; }
      }
    }
  }

  function AddOps(news: seq<NewChain>, kept: seq<Line>, existing: nat): seq<Line> {
    HeaderOps(ChainNames(news)) + seq(existing, _ => Ignored) + NewRuleOps(KUBE_HOSTPORTS, news) + kept
  }

  lemma KeptStayInPlace(cs: Chains, cs': Chains, op: Line, news: seq<NewChain>, isIP: string -> bool)
    requires KUBE_HOSTPORTS in cs && KUBE_HOSTPORTS in cs' && KeptOp(op, cs, ChainNames(news), isIP)
    requires cs'[KUBE_HOSTPORTS] == PrependAll(cs[KUBE_HOSTPORTS], news)
    requires SameOutside(cs', cs, {KUBE_HOSTPORTS} + NameSet(news))
    ensures InPlace(op, cs', isIP)
  {
    var front := PrependAllShape(cs[KUBE_HOSTPORTS], news);
    forall n | n in news ensures n.chain in ChainNames(news) {
      var i :| 0 <= i < |news| && news[i] == n;
      assert ChainNames(news)[i] == n.chain;
    }
  }

  lemma NamesAgree(news: seq<NewChain>)
    ensures (set c | c in ChainNames(news)) == NameSet(news)
  {
  }

  /** The shape of the table after Add: the new chains are there, the jumps that were not there are in front
      of the old rules of KUBE-HOSTPORTS, and every other chain is as it was. */
  ghost predicate Added(cs: Chains, cs': Chains, news: seq<NewChain>) {
    && KUBE_HOSTPORTS in cs && cs'.Keys == cs.Keys + NameSet(news)
    && cs'[KUBE_HOSTPORTS] == PrependAll(cs[KUBE_HOSTPORTS], news)
    && SameOutside(cs', cs, {KUBE_HOSTPORTS} + NameSet(news))
  }

  /** Every new chain holds the rules written for it, behind those that it keeps. */
  ghost predicate Filled(cs: Chains, cs': Chains, news: seq<NewChain>, table: string, cfg: Config) {
    forall c :: c in NameSet(news) ==> c in cs' && cs'[c] == FillChain(Opening(cs, c, table, cfg), news, c, cfg.isIP)
  }

  lemma NewPartFills(cs: Chains, news: seq<NewChain>, existing: nat, table: string, cfg: Config)
    requires KUBE_HOSTPORTS in cs && forall n :: n in news ==> NewChainOk(n, cfg.isIP)
    ensures var r := ActInAll(Scope(cs, None), HeaderOps(ChainNames(news)) + seq(existing, _ => Ignored)
                                               + NewRuleOps(KUBE_HOSTPORTS, news), table, cfg);
      Filled(cs, r.cs, news, table, cfg)
  {
    var names, ignored, ops := HeaderOps(ChainNames(news)), seq(existing, _ => Ignored), NewRuleOps(KUBE_HOSTPORTS, news);
    HeadersCreate(cs, ChainNames(news), table, cfg);
    NamesAgree(news);
    var one := ActInAll(Scope(cs, None), names, table, cfg);
    ActInAllConcat(Scope(cs, None), names + ignored, ops, table, cfg);
    ActInAllConcat(Scope(cs, None), names, ignored, table, cfg);
    IgnoredDoNothing(one, existing, table, cfg);
    NewRulesAct(one.cs, KUBE_HOSTPORTS, news, table, cfg);
    assert KUBE_HOSTPORTS !in NameSet(news) by { assert forall n :: n in news ==> NewChainOk(n, cfg.isIP); }
    forall c | c in NameSet(news)
      ensures c in AfterNews(one.cs, KUBE_HOSTPORTS, news, cfg.isIP)
      ensures AfterNews(one.cs, KUBE_HOSTPORTS, news, cfg.isIP)[c] == FillChain(Opening(cs, c, table, cfg), news, c, cfg.isIP)
    {
      assert c in ChainNames(news);
      HeadersOpen(cs, ChainNames(news), c, table, cfg);
      AfterNewsFills(one.cs, KUBE_HOSTPORTS, news, c, cfg.isIP);
    }
  }

  lemma NewPartActs(cs: Chains, news: seq<NewChain>, existing: nat, table: string, cfg: Config)
    requires KUBE_HOSTPORTS in cs && forall n :: n in news ==> NewChainOk(n, cfg.isIP)
    ensures var r := ActInAll(Scope(cs, None), HeaderOps(ChainNames(news)) + seq(existing, _ => Ignored)
                                               + NewRuleOps(KUBE_HOSTPORTS, news), table, cfg);
      r.halted.None? && Added(cs, r.cs, news)
  {
    var names, ignored, ops := HeaderOps(ChainNames(news)), seq(existing, _ => Ignored), NewRuleOps(KUBE_HOSTPORTS, news);
    HeadersCreate(cs, ChainNames(news), table, cfg);
    NamesAgree(news);
    var one := ActInAll(Scope(cs, None), names, table, cfg);
    ActInAllConcat(Scope(cs, None), names + ignored, ops, table, cfg);
    ActInAllConcat(Scope(cs, None), names, ignored, table, cfg);
    IgnoredDoNothing(one, existing, table, cfg);
    assert KUBE_HOSTPORTS !in NameSet(news) by { assert forall n :: n in news ==> NewChainOk(n, cfg.isIP); }
    NewRulesAct(one.cs, KUBE_HOSTPORTS, news, table, cfg);
    AfterNewsShape(one.cs, KUBE_HOSTPORTS, news, cfg.isIP);
    SameOutsideTrans(AfterNews(one.cs, KUBE_HOSTPORTS, news, cfg.isIP), one.cs, cs, {KUBE_HOSTPORTS} + NameSet(news), NameSet(news));
    assert {KUBE_HOSTPORTS} + NameSet(news) + NameSet(news) == {KUBE_HOSTPORTS} + NameSet(news);
  }

  lemma AddOpsAct(cs: Chains, news: seq<NewChain>, kept: seq<Line>, existing: nat, table: string, cfg: Config)
    requires KUBE_HOSTPORTS in cs && forall n :: n in news ==> NewChainOk(n, cfg.isIP)
    requires forall op :: op in kept ==> KeptOp(op, cs, ChainNames(news), cfg.isIP)
    ensures var r := ActInAll(Scope(cs, None), AddOps(news, kept, existing), table, cfg);
      r.halted.None? && Added(cs, r.cs, news) && Filled(cs, r.cs, news, table, cfg)
  {
    NewPartActs(cs, news, existing, table, cfg);
    NewPartFills(cs, news, existing, table, cfg);
    var before := HeaderOps(ChainNames(news)) + seq(existing, _ => Ignored) + NewRuleOps(KUBE_HOSTPORTS, news);
    var r := ActInAll(Scope(cs, None), before, table, cfg);
    ActInAllConcat(Scope(cs, None), before, kept, table, cfg);
    forall op | op in kept ensures InPlace(op, r.cs, cfg.isIP) {
      KeptStayInPlace(cs, r.cs, op, news, cfg.isIP);
    }
    InPlaceDoNothing(r.cs, kept, table, cfg);
  }

  // ---- what Remove does to the table ------------------------------------------------------------------------------

  function DeleteOps(chains: seq<string>): (ops: seq<Line>)
    ensures forall l :: l in ops ==> l.DeleteOf?
  {
    if chains == [] then [] else [DeleteOf(chains[0])] + DeleteOps(chains[1..])
  }

  function PresentOf(targets: seq<string>, cs: Chains): seq<string> {
    if targets == [] then [] else (if targets[0] in cs then [targets[0]] else []) + PresentOf(targets[1..], cs)
  }

  ghost predicate NoneTwice(chains: seq<string>) {
    forall i, j :: 0 <= i < j < |chains| ==> chains[i] != chains[j]
  }

  lemma {:induction false} PresentAreIn(targets: seq<string>, cs: Chains)
    ensures forall c :: c in PresentOf(targets, cs) <==> c in targets && c in cs
  {
    if targets != [] { PresentAreIn(targets[1..], cs); }
  }

  /** The chains before the first one that is in `gone` or has come before. */
  function UpToRepeat(chains: seq<string>, gone: set<string>): seq<string>
    decreases |chains|
  {
    if chains == [] || chains[0] in gone then [] else [chains[0]] + UpToRepeat(chains[1..], gone + {chains[0]})
  }

  lemma {:induction false} UpToRepeatIsPrefix(chains: seq<string>, gone: set<string>)
    ensures var p := UpToRepeat(chains, gone);
      && p <= chains && NoneTwice(p) && (forall c :: c in p ==> c !in gone)
      && (|p| < |chains| ==> chains[|p|] in p || chains[|p|] in gone)
      && (p == chains <==> NoneTwice(chains) && forall c :: c in chains ==> c !in gone)
    decreases |chains|
  {
    if chains != [] && chains[0] !in gone {
      UpToRepeatIsPrefix(chains[1..], gone + {chains[0]});
      assert forall i :: 0 < i < |chains| ==> chains[i] == chains[1..][i - 1];
    }
  }

  lemma SetOfCons(gone: set<string>, c: string, rest: seq<string>)
    ensures gone + (set d | d in [c] + rest) == gone + {c} + (set d | d in rest)
  {
  }

  /** Deleting existing chains stops at the first that is already gone. */
  lemma {:induction false} DeletesAct(cs: Chains, gone: set<string>, chains: seq<string>, table: string, cfg: Config)
    requires forall c :: c in chains ==> c in cs
    ensures var r := ActInAll(Scope(cs - gone, None), DeleteOps(chains), table, cfg);
      && r.cs == cs - (gone + set c | c in UpToRepeat(chains, gone))
      && r.halted == if UpToRepeat(chains, gone) == chains then None else Some(Failed)
    decreases |chains|
  {
    if chains == [] {
      assert gone + {} == gone;
    } else if chains[0] in gone {
      HaltedStaysIn(Scope(cs - gone, Some(Failed)), DeleteOps(chains[1..]), table, cfg);
      assert gone + {} == gone;
    } else {
      var c := chains[0];
      var rest := UpToRepeat(chains[1..], gone + {c});
      assert cs - gone - {c} == cs - (gone + {c});
      DeletesAct(cs, gone + {c}, chains[1..], table, cfg);
      SetOfCons(gone, c, rest);
      assert [c] + rest == chains <==> rest == chains[1..];
    }
  }

  lemma {:induction false} HaltedStaysIn(sc: Scope, lines: seq<Line>, table: string, cfg: Config)
    requires sc.halted.Some?
    ensures ActInAll(sc, lines, table, cfg) == sc
    decreases |lines|
  {
    if lines != [] { HaltedStaysIn(sc, lines[1..], table, cfg); }
  }

  lemma RemoveOpsAct(cs: Chains, targets: seq<string>, kept: seq<Line>, existing: nat, table: string, cfg: Config)
    requires forall op :: op in kept ==> KeptOp(op, cs, targets, cfg.isIP)
    ensures var present := PresentOf(targets, cs);
      var r := ActInAll(Scope(cs, None), seq(existing, _ => Ignored) + kept + DeleteOps(present), table, cfg);
      && r.cs == cs - (set c | c in UpToRepeat(present, {}))
      && r.halted == if UpToRepeat(present, {}) == present then None else Some(Failed)
  {
    var ignored, dels := seq(existing, _ => Ignored), DeleteOps(PresentOf(targets, cs));
    ActInAllConcat(Scope(cs, None), ignored + kept, dels, table, cfg);
    ActInAllConcat(Scope(cs, None), ignored, kept, table, cfg);
    IgnoredDoNothing(Scope(cs, None), existing, table, cfg);
    InPlaceDoNothing(cs, kept, table, cfg);
    PresentAreIn(targets, cs);
    assert cs - {} == cs;
    DeletesAct(cs, {}, PresentOf(targets, cs), table, cfg);
    var gone := set c | c in UpToRepeat(PresentOf(targets, cs), {});
    assert {} + gone == gone;
  }

  // ---- from text to operations ------------------------------------------------------------------------------------

  lemma RepeatParses(n: nat)
    ensures Parsed(Repeat(n, JSON_OF_EMPTY_STRUCT)) == seq(n, _ => Ignored)
  {
  }

  ghost predicate NoNewlines(lines: seq<string>) { forall l :: l in lines ==> '\n' !in l }

  lemma NoNewlinesConcat(a: seq<string>, b: seq<string>)
    requires NoNewlines(a) && NoNewlines(b)
    ensures NoNewlines(a + b)
  {
  }

  lemma RepeatHasNoNewline(n: nat)
    ensures NoNewlines(Repeat(n, JSON_OF_EMPTY_STRUCT))
  {
  }

  lemma {:induction false} DeleteLinesParse(chains: seq<string>)
    requires forall c :: c in chains ==> ChainName(c)
    ensures Parsed(DeleteLines(chains)) == DeleteOps(chains) && NoNewlines(DeleteLines(chains))
  {
    if chains != [] {
      assert ChainName(chains[0]);
      DeleteParses(chains[0]);
      DeleteLinesParse(chains[1..]);
    }
  }

  lemma ThreeLinesHaveNoNewline(n: NewChain)
    requires ChainName(n.chain) && '\n' !in n.jump && '\n' !in n.snat && '\n' !in n.dnat
    ensures NoNewlines(["-I " + KUBE_HOSTPORTS + " " + n.jump, "-A " + n.chain + " " + n.snat, "-A " + n.chain + " " + n.dnat])
    ensures NoNewlines([Header(n.chain)])
  {
  }

  lemma {:induction false} NewLinesHaveNoNewline(news: seq<NewChain>, isIP: string -> bool)
    requires forall n :: n in news ==> NewChainOk(n, isIP)
    ensures NoNewlines(NewRuleLines(news)) && NoNewlines(Headers(ChainNames(news)))
  {
    if news != [] {
      var n := news[0];
      assert NewChainOk(n, isIP);
      ThreeLinesHaveNoNewline(n);
      NewLinesHaveNoNewline(news[1..], isIP);
      assert ChainNames(news)[1..] == ChainNames(news[1..]);
      NoNewlinesConcat([Header(n.chain)], Headers(ChainNames(news[1..])));
      NoNewlinesConcat(["-I " + KUBE_HOSTPORTS + " " + n.jump, "-A " + n.chain + " " + n.snat, "-A " + n.chain + " " + n.dnat],
                       NewRuleLines(news[1..]));
    }
  }

  lemma InnerIsOneTable(inner: seq<string>, body: seq<Line>)
    requires NoNewlines(inner) && Parsed(inner) == body && forall l :: l in body ==> !l.Star? && !l.Commit?
    ensures OneTable(TableLines(NAT, inner), NAT, body)
  {
    TableParses(NAT, inner);
    assert '\n' !in "*" + NAT && '\n' !in "COMMIT";
    NoNewlinesConcat(["*" + NAT], inner);
    NoNewlinesConcat(["*" + NAT] + inner, ["COMMIT"]);
  }

  lemma AddInnerParses(news: seq<NewChain>, tail: seq<string>, existing: nat)
    requires forall n :: n in news ==> ' ' !in n.chain
    ensures Parsed(Headers(ChainNames(news)) + Repeat(existing, JSON_OF_EMPTY_STRUCT) + NewRuleLines(news) + tail)
         == AddOps(news, Parsed(tail), existing)
  {
    var hs, js, rs := Headers(ChainNames(news)), Repeat(existing, JSON_OF_EMPTY_STRUCT), NewRuleLines(news);
    HeadersParse(ChainNames(news));
    RepeatParses(existing);
    NewRuleLinesParse(news);
    ParsedConcat(hs + js + rs, tail);
    ParsedConcat(hs + js, rs);
    ParsedConcat(hs, js);
  }

  lemma AddOpsAreInner(news: seq<NewChain>, kept: seq<Line>, existing: nat)
    requires forall op :: op in kept ==> op.RuleOf?
    ensures forall l :: l in AddOps(news, kept, existing) ==> !l.Star? && !l.Commit?
  {
  }

  lemma AddIsOneTable(news: seq<NewChain>, tail: seq<string>, existing: nat, isIP: string -> bool)
    requires forall n :: n in news ==> NewChainOk(n, isIP)
    requires NoNewlines(tail) && forall op :: op in Parsed(tail) ==> op.RuleOf?
    ensures OneTable(TableLines(NAT, Headers(ChainNames(news)) + Repeat(existing, JSON_OF_EMPTY_STRUCT) + NewRuleLines(news) + tail),
                     NAT, AddOps(news, Parsed(tail), existing))
  {
    var hs, js, rs := Headers(ChainNames(news)), Repeat(existing, JSON_OF_EMPTY_STRUCT), NewRuleLines(news);
    assert forall n :: n in news ==> ' ' !in n.chain by { assert forall n :: n in news ==> NewChainOk(n, isIP); }
    AddInnerParses(news, tail, existing);
    NewLinesHaveNoNewline(news, isIP);
    RepeatHasNoNewline(existing);
    NoNewlinesConcat(hs, js);
    NoNewlinesConcat(hs + js, rs);
    NoNewlinesConcat(hs + js + rs, tail);
    AddOpsAreInner(news, Parsed(tail), existing);
    InnerIsOneTable(hs + js + rs + tail, AddOps(news, Parsed(tail), existing));
  }

  lemma RemoveInnerParses(present: seq<string>, tail: seq<string>, existing: nat)
    requires forall c :: c in present ==> ChainName(c)
    ensures Parsed(Repeat(existing, JSON_OF_EMPTY_STRUCT) + tail + DeleteLines(present))
         == seq(existing, _ => Ignored) + Parsed(tail) + DeleteOps(present)
  {
    var js, ds := Repeat(existing, JSON_OF_EMPTY_STRUCT), DeleteLines(present);
    RepeatParses(existing);
    DeleteLinesParse(present);
    ParsedConcat(js + tail, ds);
    ParsedConcat(js, tail);
  }

  lemma RemoveInnerHasNoNewline(present: seq<string>, tail: seq<string>, existing: nat)
    requires NoNewlines(tail) && forall c :: c in present ==> ChainName(c)
    ensures NoNewlines(Repeat(existing, JSON_OF_EMPTY_STRUCT) + tail + DeleteLines(present))
  {
    var js, ds := Repeat(existing, JSON_OF_EMPTY_STRUCT), DeleteLines(present);
    DeleteLinesParse(present);
    RepeatHasNoNewline(existing);
    NoNewlinesConcat(js, tail);
    NoNewlinesConcat(js + tail, ds);
  }

  lemma RemoveOpsAreInner(present: seq<string>, kept: seq<Line>, existing: nat)
    requires forall op :: op in kept ==> op.RuleOf?
    ensures forall l :: l in seq(existing, _ => Ignored) + kept + DeleteOps(present) ==> !l.Star? && !l.Commit?
  {
  }

  lemma RemoveIsOneTable(present: seq<string>, tail: seq<string>, existing: nat)
    requires forall c :: c in present ==> ChainName(c)
    requires NoNewlines(tail) && forall op :: op in Parsed(tail) ==> op.RuleOf?
    ensures OneTable(TableLines(NAT, Repeat(existing, JSON_OF_EMPTY_STRUCT) + tail + DeleteLines(present)),
                     NAT, seq(existing, _ => Ignored) + Parsed(tail) + DeleteOps(present))
  {
    var js, ds := Repeat(existing, JSON_OF_EMPTY_STRUCT), DeleteLines(present);
    RemoveInnerParses(present, tail, existing);
    RemoveInnerHasNoNewline(present, tail, existing);
    RemoveOpsAreInner(present, Parsed(tail), existing);
    InnerIsOneTable(js + tail + ds, seq(existing, _ => Ignored) + Parsed(tail) + DeleteOps(present));
  }

  // ---- the main results ----------------------------------------------------------------------------------------------

  /** A nat table that restore and save can work on, and an order in which save may list its chains. */
  ghost predicate NatReady(ts: Tables, order: seq<string>, isIP: string -> bool) {
    && NAT in ts && ChainsOk(ts[NAT], isIP) && (forall c :: c in order <==> c in ts[NAT])
  }

  /** Add: restore accepts the text, creates and fills the new chains, puts the jumps that were not there
      before all earlier rules of KUBE-HOSTPORTS, and leaves every other chain and every other table as it
      was. */
  lemma AddTextActs(ts: Tables, order: seq<string>, news: seq<NewChain>, existing: nat, builtin: Builtins, isIP: string -> bool)
    requires IPTexts(isIP) && NatReady(ts, order, isIP) && KUBE_HOSTPORTS in ts[NAT]
    requires forall n :: n in news ==> NewChainOk(n, isIP)
    ensures var text := Unlines(AddLines(news, SaveLines(NAT, ts[NAT], order), existing));
      var (ts', status) := Restore(ts, "", text, NoFlushTables, builtin, isIP);
      && status == Fine && NAT in ts' && ts' == ts[NAT := ts'[NAT]]
      && Added(ts[NAT], ts'[NAT], news) && Filled(ts[NAT], ts'[NAT], news, NAT, Config("", NoFlushTables, text, builtin, isIP))
  {
    var cs := ts[NAT];
    var tail := FilterRules(ExistingRules(SaveLines(NAT, cs, order)), ChainNames(news));
    KeptOps(cs, order, ChainNames(news), isIP);
    AddIsOneTable(news, tail, existing, isIP);
    var lines := AddLines(news, SaveLines(NAT, cs, order), existing);
    RestoreOneTable(ts, NAT, lines, AddOps(news, Parsed(tail), existing), "", builtin, isIP);
    AddOpsAct(cs, news, Parsed(tail), existing, NAT, Config("", NoFlushTables, Unlines(lines), builtin, isIP));
  }

  /** The rules of KUBE-HOSTPORTS keep their order, and in front of them stand exactly the new jumps that were
      not among them; with a fresh chain, which no rule mentions, that is every jump.  A jump that is there
      already stays where it is. */
  lemma NewJumpsComeFirst(cs: Chains, cs': Chains, news: seq<NewChain>) returns (front: Rules)
    requires Added(cs, cs', news)
    ensures cs'[KUBE_HOSTPORTS] == front + cs[KUBE_HOSTPORTS]
    ensures forall n :: n in news ==> (n.jump in front <==> n.jump !in cs[KUBE_HOSTPORTS])
    ensures forall r :: r in front ==> exists n :: n in news && r == n.jump
    ensures forall n :: n in news && Contains(n.jump, n.chain) && (forall r :: r in cs[KUBE_HOSTPORTS] ==> !Contains(r, n.chain)) ==>
              n.jump in front
  {
    front := PrependAllShape(cs[KUBE_HOSTPORTS], news);
    forall n | n in news ensures n.jump in front <==> n.jump !in cs[KUBE_HOSTPORTS] {
      var i :| 0 <= i < |news| && news[i] == n;
    }
    forall r | r in front ensures exists n :: n in news && r == n.jump {
      var i :| 0 <= i < |news| && r == news[i].jump;
      assert news[i] in news;
    }
  }

  /** So a jump need not come first: with the jumps of two pods added one after the other, the first removed,
      whose jump is left behind, and added again, its jump stays behind that of the second. */
  lemma ReAddedJumpStaysBehind(cs0: Chains, cs1: Chains, cs2: Chains, cs3: Chains, cs4: Chains, a: NewChain, b: NewChain)
    requires Added(cs0, cs1, [a]) && Added(cs1, cs2, [b]) && cs3 == cs2 - {a.chain} && Added(cs3, cs4, [a])
    requires a.jump !in cs0[KUBE_HOSTPORTS] && b.jump !in cs0[KUBE_HOSTPORTS] && a.jump != b.jump
    ensures cs4[KUBE_HOSTPORTS] == [b.jump, a.jump] + cs0[KUBE_HOSTPORTS]
  {
    assert [a][1..] == [] && [b][1..] == [];
    assert PrependAll(cs0[KUBE_HOSTPORTS], [a]) == [a.jump] + cs0[KUBE_HOSTPORTS];
    assert PrependAll(cs1[KUBE_HOSTPORTS], [b]) == [b.jump] + cs1[KUBE_HOSTPORTS];
    assert a.jump in cs3[KUBE_HOSTPORTS] by { assert cs3[KUBE_HOSTPORTS][1] == a.jump; }
  }

  /** A new chain that did not exist, or that is flushed, ends up with the masquerade rule and then the DNAT
      rule of its mapping; a repeated Add for one pod thus restores its chains. */
  lemma NewChainHoldsItsRules(cs: Chains, cs': Chains, news: seq<NewChain>, i: nat, table: string, cfg: Config)
    requires Filled(cs, cs', news, table, cfg) && i < |news| && (news[i].chain !in cs || Flushes(table, news[i].chain, cfg))
    requires forall j :: 0 <= j < |news| && j != i ==> news[j].chain != news[i].chain
    ensures news[i].chain in cs'
    ensures cs'[news[i].chain] == Put(Append, [NormalText(news[i].snat, cfg.isIP)], NormalText(news[i].dnat, cfg.isIP))
  {
    assert news[i] in news;
    FillOnce(news, i, cfg.isIP);
  }

  /** Remove: restore accepts the text exactly when no existing chain is listed twice, and then the
      target chains are gone and every other chain is as it was.  KUBE-HOSTPORTS is among the
      others: the jumps to the removed chains stay behind.  A rejected text has removed the chains
      before the first repeated one, and nothing else. */
  lemma RemoveTextActs(ts: Tables, order: seq<string>, targets: seq<string>, existing: nat, builtin: Builtins, isIP: string -> bool)
    requires IPTexts(isIP) && NatReady(ts, order, isIP)
    ensures var present := PresentOf(targets, ts[NAT]);
      var text := Unlines(RemoveLines(targets, present, SaveLines(NAT, ts[NAT], order), existing));
      var (ts', status) := Restore(ts, "", text, NoFlushTables, builtin, isIP);
      && status == (if NoneTwice(present) then Fine else Failed)
      && ts' == ts[NAT := ts[NAT] - (set c | c in UpToRepeat(present, {}))]
      && (status == Fine ==> ts' == ts[NAT := ts[NAT] - (set c | c in targets)])
  {
    var cs := ts[NAT];
    var present := PresentOf(targets, cs);
    var tail := FilterRules(ExistingRules(SaveLines(NAT, cs, order)), targets);
    KeptOps(cs, order, targets, isIP);
    assert forall c :: c in present ==> ChainName(c) by { PresentAreIn(targets, cs); }
    RemoveIsOneTable(present, tail, existing);
    RemoveTextActsAs(ts, targets, tail, existing, builtin, isIP);
  }

  lemma RemoveTextActsAs(ts: Tables, targets: seq<string>, tail: seq<string>, existing: nat, builtin: Builtins, isIP: string -> bool)
    requires NAT in ts && forall op :: op in Parsed(tail) ==> KeptOp(op, ts[NAT], targets, isIP)
    requires var present := PresentOf(targets, ts[NAT]);
      OneTable(TableLines(NAT, Repeat(existing, JSON_OF_EMPTY_STRUCT) + tail + DeleteLines(present)),
               NAT, seq(existing, _ => Ignored) + Parsed(tail) + DeleteOps(present))
    ensures var present := PresentOf(targets, ts[NAT]);
      var text := Unlines(TableLines(NAT, Repeat(existing, JSON_OF_EMPTY_STRUCT) + tail + DeleteLines(present)));
      var (ts', status) := Restore(ts, "", text, NoFlushTables, builtin, isIP);
      && status == (if NoneTwice(present) then Fine else Failed)
      && ts' == ts[NAT := ts[NAT] - (set c | c in UpToRepeat(present, {}))]
      && (status == Fine ==> ts' == ts[NAT := ts[NAT] - (set c | c in targets)])
  {
    var present := PresentOf(targets, ts[NAT]);
    var lines := TableLines(NAT, Repeat(existing, JSON_OF_EMPTY_STRUCT) + tail + DeleteLines(present));
    RestoreOneTable(ts, NAT, lines, seq(existing, _ => Ignored) + Parsed(tail) + DeleteOps(present), "", builtin, isIP);
    RemoveOpsAct(ts[NAT], targets, Parsed(tail), existing, NAT, Config("", NoFlushTables, Unlines(lines), builtin, isIP));
    AllPresentGo(ts[NAT], targets);
  }

  lemma AllPresentGo(cs: Chains, targets: seq<string>)
    ensures var present := PresentOf(targets, cs);
      && (UpToRepeat(present, {}) == present <==> NoneTwice(present))
      && cs - (set c | c in present) == cs - (set c | c in targets)
  {
    UpToRepeatIsPrefix(PresentOf(targets, cs), {});
    PresentAreIn(targets, cs);
  }

  // ---- the rules Add writes are accepted --------------------------------------------------------------------------------

  /** Pod names and namespaces are DNS names, so neither quotes nor newlines occur in them. */
  ghost predicate NameText(podFullName: string) { '"' !in podFullName && '\n' !in podFullName }

  /** A mapping whose ports Add could open, or SCTP, with a host address that can stand in a rule. */
  ghost predicate MappingText(pm: HS.PortMapping) {
    HS.Lower(pm.protocol) in {"tcp", "udp", "sctp"} && (pm.hostIP == "" || (Word(pm.hostIP) && '\n' !in pm.hostIP))
  }

  lemma {:induction false} JoinContainsLast(args: seq<string>)
    requires |args| > 0
    ensures Contains(Join(args, " "), args[|args| - 1])
    decreases |args|
  {
    var last := args[|args| - 1];
    if |args| == 1 {
      ContainsInMiddle("", last, "");
      assert "" + last + "" == last;
    } else {
      JoinContainsLast(args[1..]);
      ContainsExtends(args[0] + " ", Join(args[1..], " "), "", last);
      assert args[0] + " " + Join(args[1..], " ") + "" == Join(args, " ");
    }
  }

  lemma {:induction false} JoinHasNoNewline(args: seq<string>)
    requires NoNewlines(args)
    ensures '\n' !in Join(args, " ")
    decreases |args|
  {
    if |args| > 1 { JoinHasNoNewline(args[1..]); }
  }

  predicate NumberChar(c: char) { IsDigit(c) || c == '-' }

  lemma ItoaText(n: int)
    ensures Itoa(n) != "" && forall c :: c in Itoa(n) ==> NumberChar(c)
  {
  }

  lemma CommentIsQuoted(podFullName: string, pm: HS.PortMapping)
    requires NameText(podFullName)
    ensures Quoted(Comment(podFullName, pm)) && '\n' !in Comment(podFullName, pm)
  {
    ItoaText(pm.hostPort);
    var inner := podFullName + " hostport " + Itoa(pm.hostPort);
    var q := Comment(podFullName, pm);
    assert q == "\"" + inner + "\"";
    assert q[1..|q| - 1] == inner;
    assert '"' !in " hostport " && '\n' !in " hostport ";
  }

  /** Not an IP text: it has a character that no IP text has, or neither dot nor colon. */
  lemma PlainWord(w: string, isIP: string -> bool)
    requires IPTexts(isIP) && Bare(w) && |w| < |TO_DESTINATION_EQ|
    requires (exists c :: c in w && !IPChar(c)) || ('.' !in w && ':' !in w)
    ensures Plain(w, isIP) && Word(w)
  {
  }

  ghost predicate FlagText(w: string) {
    Bare(w) && '.' !in w && ':' !in w && '\n' !in w && |w| < |TO_DESTINATION_EQ|
  }

  lemma FlagTexts()
    ensures forall w :: w in {"-m", "comment", "--comment", "-p", "--dport", "-j"} ==> FlagText(w)
  {
  }

  lemma TargetTexts()
    ensures forall w :: w in {"tcp", "udp", "sctp", "-s", "-d", "DNAT"} ==> FlagText(w)
  {
  }

  lemma MarkText()
    ensures FlagText(KUBE_MARK_MASQ)
  {
  }

  lemma FlagWords(isIP: string -> bool)
    requires IPTexts(isIP)
    ensures forall w :: w in {"-m", "comment", "--comment", "-p", "--dport", "-j", "tcp", "udp", "sctp", "-s", "-d", "DNAT", KUBE_MARK_MASQ} ==>
                        Plain(w, isIP) && Word(w) && '\n' !in w && w != ""
  {
    FlagTexts();
    TargetTexts();
    MarkText();
    forall w | FlagText(w) ensures Plain(w, isIP) && Word(w) {
      PlainWord(w, isIP);
    }
  }

  lemma NumberWord(n: int, isIP: string -> bool)
    requires IPTexts(isIP)
    ensures Plain(Itoa(n), isIP) && '\n' !in Itoa(n)
  {
    ItoaText(n);
    var w := Itoa(n);
    assert NumberChar(w[0]);
    assert '.' !in w && ':' !in w;
    assert TO_DESTINATION_EQ[2] == 't' && (|w| > 2 ==> NumberChar(w[2]));
  }

  lemma ChainText(id: string, pm: HS.PortMapping, hash: string -> string, isIP: string -> bool)
    requires HashTexts(hash) && IPTexts(isIP)
    ensures var chain := ChainOf(id, pm, hash);
      chain != "" && ChainName(chain) && chain != KUBE_HOSTPORTS && Plain(chain, isIP)
  {
    var h := hash(id + Itoa(pm.hostPort) + pm.protocol + pm.hostIP);
    var chain := ChainOf(id, pm, hash);
    assert forall c :: c in h[..16] ==> c in h;
    assert forall c :: c in HOSTPORT_CHAIN_PREFIX ==> 'A' <= c <= 'Z' || c == '-';
    assert forall c :: c in chain ==> 'A' <= c <= 'Z' || '2' <= c <= '7' || c == '-';
    assert '.' !in chain && ':' !in chain;
    assert chain[0] == 'K' && chain[6] == 'P' && KUBE_HOSTPORTS[6] == 'O';
    assert TO_DESTINATION_EQ[0] == '-';
  }

  lemma JumpIsFixed(podFullName: string, pm: HS.PortMapping, chain: string, isIP: string -> bool)
    requires IPTexts(isIP) && NameText(podFullName) && MappingText(pm)
    requires chain != "" && Plain(chain, isIP) && ChainName(chain)
    ensures var jump := Join(JumpArgs(podFullName, pm, chain), " ");
      FixedRule(jump, isIP) && Contains(jump, chain) && '\n' !in jump
  {
    var args := JumpArgs(podFullName, pm, chain);
    FlagWords(isIP);
    NumberWord(pm.hostPort, isIP);
    CommentIsQuoted(podFullName, pm);
    assert StableArgs(args, isIP);
    StableRuleIsFixed(args, isIP);
    JoinContainsLast(args);
    JoinHasNoNewline(args);
  }

  lemma IPWord(w: string, isIP: string -> bool)
    requires IPTexts(isIP) && isIP(w)
    ensures Word(w) && '\n' !in w && Bare(w) && !HasPrefix(w, TO_DESTINATION_EQ)
  {
    assert IPChar(w[0]) && TO_DESTINATION_EQ[0] == '-';
  }

  lemma HostPortText(podIP: string, port: int, isIP: string -> bool)
    requires IPTexts(isIP) && isIP(podIP)
    ensures var x := JoinHostPort(podIP, port); Bare(x) && x[0] != '-' && '\n' !in x
  {
    ItoaText(port);
    var x, n := JoinHostPort(podIP, port), Itoa(port);
    assert IPChar(podIP[0]);
    if ':' in podIP {
      assert x == "[" + podIP + "]:" + n;
    } else {
      assert x[0] == podIP[0];
    }
    forall c | c in x ensures !IsSpace(c) {
      assert c in podIP || c in n || c == '[' || c == ']' || c == ':';
      assert c in podIP ==> IPChar(c);
      assert c in n ==> NumberChar(c);
    }
    assert IsSpace('\n');
  }

  lemma DestinationWord(podIP: string, port: int, isIP: string -> bool)
    requires IPTexts(isIP) && isIP(podIP)
    ensures var w := TO_DESTINATION_EQ + JoinHostPort(podIP, port); Word(w) && '\n' !in w
  {
    HostPortText(podIP, port, isIP);
    var x := JoinHostPort(podIP, port);
    var w := TO_DESTINATION_EQ + x;
    assert w[..|TO_DESTINATION_EQ|] == TO_DESTINATION_EQ && w[|TO_DESTINATION_EQ|..] == x;
    assert TO_DESTINATION_EQ[0] == '-' && '\n' !in TO_DESTINATION_EQ;
  }

  lemma SnatIsAccepted(podFullName: string, pm: HS.PortMapping, podIP: string, isIP: string -> bool)
    requires IPTexts(isIP) && NameText(podFullName) && isIP(podIP)
    ensures var snat := Join(SnatArgs(podFullName, pm, podIP), " "); NormalizeRule(snat, isIP).Normal? && '\n' !in snat
  {
    var args := SnatArgs(podFullName, pm, podIP);
    FlagWords(isIP);
    CommentIsQuoted(podFullName, pm);
    IPWord(podIP, isIP);
    assert forall i :: 0 <= i < |args| ==> Word(args[i]) && '\n' !in args[i];
    WordsAreAccepted(args, isIP);
    JoinHasNoNewline(args);
  }

  ghost predicate AllWords(args: seq<string>) {
    forall i :: 0 <= i < |args| ==> Word(args[i]) && '\n' !in args[i]
  }

  lemma AllWordsConcat(a: seq<string>, b: seq<string>)
    requires AllWords(a) && AllWords(b)
    ensures AllWords(a + b)
  {
  }

  lemma DnatFront(podFullName: string, pm: HS.PortMapping, isIP: string -> bool)
    requires IPTexts(isIP) && NameText(podFullName) && MappingText(pm)
    ensures AllWords(["-m", "comment", "--comment", Comment(podFullName, pm), "-m", HS.Lower(pm.protocol), "-p", HS.Lower(pm.protocol)])
  {
    FlagWords(isIP);
    CommentIsQuoted(podFullName, pm);
  }

  lemma DnatFlags(isIP: string -> bool)
    requires IPTexts(isIP)
    ensures AllWords(["-d"]) && AllWords(["-j", "DNAT"])
  {
    FlagWords(isIP);
  }

  lemma OneWord(w: string)
    requires Word(w) && '\n' !in w
    ensures AllWords([w])
  {
  }

  lemma DnatAddress(hostIP: string, isIP: string -> bool)
    requires IPTexts(isIP) && Word(hostIP) && '\n' !in hostIP
    ensures AllWords(["-d"] + [hostIP])
  {
    DnatFlags(isIP);
    OneWord(hostIP);
    AllWordsConcat(["-d"], [hostIP]);
  }

  lemma DnatBack(podIP: string, port: int, isIP: string -> bool)
    requires IPTexts(isIP) && isIP(podIP)
    ensures AllWords(["-j", "DNAT"] + [TO_DESTINATION_EQ + JoinHostPort(podIP, port)])
  {
    DnatFlags(isIP);
    DestinationWord(podIP, port, isIP);
    OneWord(TO_DESTINATION_EQ + JoinHostPort(podIP, port));
    AllWordsConcat(["-j", "DNAT"], [TO_DESTINATION_EQ + JoinHostPort(podIP, port)]);
  }

  lemma DnatIsAccepted(podFullName: string, pm: HS.PortMapping, podIP: string, isIP: string -> bool)
    requires IPTexts(isIP) && NameText(podFullName) && isIP(podIP) && MappingText(pm)
    ensures var dnat := Join(DnatArgs(podFullName, pm, podIP), " "); NormalizeRule(dnat, isIP).Normal? && '\n' !in dnat
  {
    var address := if pm.hostIP == "" || pm.hostIP == "0.0.0.0" || pm.hostIP == "::" then [] else ["-d", pm.hostIP];
    var front := ["-m", "comment", "--comment", Comment(podFullName, pm), "-m", HS.Lower(pm.protocol), "-p", HS.Lower(pm.protocol)];
    var back := ["-j", "DNAT", TO_DESTINATION_EQ + JoinHostPort(podIP, pm.containerPort)];
    DnatFront(podFullName, pm, isIP);
    if address != [] {
      DnatAddress(pm.hostIP, isIP);
      assert address == ["-d"] + [pm.hostIP];
    }
    DnatBack(podIP, pm.containerPort, isIP);
    assert back == ["-j", "DNAT"] + [TO_DESTINATION_EQ + JoinHostPort(podIP, pm.containerPort)];
    AllWordsConcat(front, address);
    AllWordsConcat(front + address, back);
    WordsAreAccepted(front + address + back, isIP);
    JoinHasNoNewline(front + address + back);
  }

  /** The rule set Add writes for a mapping is one that restore accepts. */
  lemma NewChainIsOk(id: string, podFullName: string, podIP: string, pm: HS.PortMapping, hash: string -> string, isIP: string -> bool)
    requires IPTexts(isIP) && HashTexts(hash) && NameText(podFullName) && isIP(podIP) && MappingText(pm)
    ensures NewChainOk(NewChainOf(id, podFullName, podIP, pm, hash), isIP)
  {
    ChainText(id, pm, hash, isIP);
    JumpIsFixed(podFullName, pm, ChainOf(id, pm, hash), isIP);
    SnatIsAccepted(podFullName, pm, podIP, isIP);
    DnatIsAccepted(podFullName, pm, podIP, isIP);
  }

  function NewChains(id: string, podFullName: string, podIP: string, pms: seq<HS.PortMapping>, hash: string -> string): seq<NewChain>
    requires forall s :: |hash(s)| >= 16
  {
    seq(|pms|, i requires 0 <= i < |pms| => NewChainOf(id, podFullName, podIP, pms[i], hash))
  }

  lemma NewChainsAreOk(id: string, podFullName: string, podIP: string, pms: seq<HS.PortMapping>,
                       hash: string -> string, isIP: string -> bool)
    requires IPTexts(isIP) && HashTexts(hash) && NameText(podFullName) && isIP(podIP)
    requires forall pm :: pm in pms ==> MappingText(pm)
    ensures forall n :: n in NewChains(id, podFullName, podIP, pms, hash) ==> NewChainOk(n, isIP)
  {
    var news := NewChains(id, podFullName, podIP, pms, hash);
    forall i | 0 <= i < |pms| ensures NewChainOk(news[i], isIP) {
      assert pms[i] in pms;
      NewChainIsOk(id, podFullName, podIP, pms[i], hash, isIP);
    }
  }

  /** Add as a whole, for a pod whose ports could be opened: its text is accepted and acts as stated. */
  lemma AddForPod(ts: Tables, order: seq<string>, existing: nat, id: string, podFullName: string, podIP: string,
                  pms: seq<HS.PortMapping>, hash: string -> string, builtin: Builtins, isIP: string -> bool)
    requires IPTexts(isIP) && HashTexts(hash) && NatReady(ts, order, isIP) && KUBE_HOSTPORTS in ts[NAT]
    requires NameText(podFullName) && isIP(podIP) && forall pm :: pm in pms ==> MappingText(pm)
    ensures var news := NewChains(id, podFullName, podIP, pms, hash);
      var text := Unlines(AddLines(news, SaveLines(NAT, ts[NAT], order), existing));
      var (ts', status) := Restore(ts, "", text, NoFlushTables, builtin, isIP);
      && status == Fine && NAT in ts' && ts' == ts[NAT := ts'[NAT]]
      && Added(ts[NAT], ts'[NAT], news) && Filled(ts[NAT], ts'[NAT], news, NAT, Config("", NoFlushTables, text, builtin, isIP))
  {
    NewChainsAreOk(id, podFullName, podIP, pms, hash, isIP);
    AddTextActs(ts, order, NewChains(id, podFullName, podIP, pms, hash), existing, builtin, isIP);
  }

  /** Mappings that were opened, or skipped as SCTP, have one of the three protocol texts. */
  lemma OpenedProtocols(w: HS.Ports, pms: seq<HS.PortMapping>, refused: set<nat>, fam: HS.Family, pm: HS.PortMapping)
    requires HS.OpenHostports(w, pms, refused, fam).ok && pm in HS.Gather(pms, fam.v6, fam.isV6)
    ensures HS.Lower(pm.protocol) in {"tcp", "udp", "sctp"}
  {
    HS.GatherKeepsWanted(pms, fam.v6, fam.isV6);
    HS.OpenFromOpenable(HS.Opening(w.held, w.next, map[], true), pms, 0, refused, fam);
    assert pms[0..] == pms;
    HS.LowerSctp();
  }

  // ---- the loops ----------------------------------------------------------------------------------------------------------

  lemma {:induction false} FilterRulesSnoc(rules: seq<string>, rule: string, filters: seq<string>)
    ensures FilterRules(rules + [rule], filters) == FilterRules(rules, filters) + if Mentions(rule, filters) then [] else [rule]
  {
    if rules == [] {
      assert [] + [rule] == [rule] && [rule][1..] == [];
    } else {
      FilterRulesSnoc(rules[1..], rule, filters);
      assert (rules + [rule])[1..] == rules[1..] + [rule];
    }
  }

  method FilterRulesLoop(rules: seq<string>, filters: seq<string>) returns (filtered: seq<string>)
    ensures filtered == FilterRules(rules, filters)
  {
    filtered := [];
    for i := 0 to |rules|
      invariant filtered == FilterRules(rules[..i], filters)
    {
      FilterRulesSnoc(rules[..i], rules[i], filters);
      assert rules[..i + 1] == rules[..i] + [rules[i]];
      var skip := false;
      for j := 0 to |filters|
        invariant !skip && forall k :: 0 <= k < j ==> !Contains(rules[i], filters[k])
      {
        if Contains(rules[i], filters[j]) {
          skip := true;
          break;
        }
      }
      if !skip {
        filtered := filtered + [rules[i]];
      }
    }
    assert rules[..|rules|] == rules;
  }

  /** The two buffers of Add, as lines, and the text made of them. */
  method EmitAdd(news: seq<NewChain>, saved: seq<string>, existing: nat) returns (text: string)
    ensures text == Unlines(AddLines(news, saved, existing))
  {
    var natChains, natRules: seq<string> := ["*" + NAT], [];
    for i := 0 to |news|
      invariant natChains == ["*" + NAT] + Headers(ChainNames(news[..i])) && natRules == NewRuleLines(news[..i])
    {
      assert news[..i + 1] == news[..i] + [news[i]];
      NamesSnoc(news[..i], news[i]);
      HeadersSnoc(ChainNames(news[..i]), news[i].chain);
      NewRuleLinesSnoc(news[..i], news[i]);
      natChains := natChains + [Header(news[i].chain)];
      natRules := natRules + ["-I " + KUBE_HOSTPORTS + " " + news[i].jump,
                              "-A " + news[i].chain + " " + news[i].snat, "-A " + news[i].chain + " " + news[i].dnat];
    }
    assert news[..|news|] == news;
    var rules := FilterRulesLoop(ExistingRules(saved), ChainNames(news));
    natChains := natChains + Repeat(existing, JSON_OF_EMPTY_STRUCT);
    natRules := natRules + rules + ["COMMIT"];
    FiveParts(["*" + NAT], Headers(ChainNames(news)), Repeat(existing, JSON_OF_EMPTY_STRUCT), NewRuleLines(news), rules, ["COMMIT"]);
    text := Unlines(natChains + natRules);
  }

  lemma FiveParts(a: seq<string>, b: seq<string>, c: seq<string>, d: seq<string>, e: seq<string>, f: seq<string>)
    ensures (a + b + c) + (d + e + f) == a + (b + c + d + e) + f
  {
  }

  /** The text of Remove: what is kept, and a deletion for each target chain that exists. */
  method EmitRemove(targets: seq<string>, cs: Chains, saved: seq<string>, existing: nat) returns (text: string)
    ensures text == Unlines(RemoveLines(targets, PresentOf(targets, cs), saved, existing))
  {
    var rules := FilterRulesLoop(ExistingRules(saved), targets);
    var deletions: seq<string> := [];
    for i := 0 to |targets|
      invariant deletions == DeleteLines(PresentOf(targets[..i], cs))
    {
      assert targets[..i + 1] == targets[..i] + [targets[i]];
      DeletionsSnoc(targets[..i], targets[i], cs);
      if targets[i] in cs {
        deletions := deletions + ["-X " + targets[i]];
      }
    }
    assert targets[..|targets|] == targets;
    text := Unlines(["*" + NAT] + (Repeat(existing, JSON_OF_EMPTY_STRUCT) + rules + deletions) + ["COMMIT"]);
  }

  lemma DeletionsCons(targets: seq<string>, cs: Chains)
    requires targets != []
    ensures DeleteLines(PresentOf(targets, cs))
         == (if targets[0] in cs then ["-X " + targets[0]] else []) + DeleteLines(PresentOf(targets[1..], cs))
  {
    var rest := PresentOf(targets[1..], cs);
    assert [] + rest == rest && ([targets[0]] + rest)[1..] == rest;
  }

  lemma {:induction false} DeletionsSnoc(targets: seq<string>, c: string, cs: Chains)
    ensures DeleteLines(PresentOf(targets + [c], cs))
         == DeleteLines(PresentOf(targets, cs)) + if c in cs then ["-X " + c] else []
  {
    if targets == [] {
      assert [] + [c] == [c] && [c][1..] == [];
    } else {
      DeletionsSnoc(targets[1..], c, cs);
      assert (targets + [c])[1..] == targets[1..] + [c];
      DeletionsCons(targets, cs);
      DeletionsCons(targets + [c], cs);
    }
  }

  lemma NamesSnoc(news: seq<NewChain>, n: NewChain)
    ensures ChainNames(news + [n]) == ChainNames(news) + [n.chain]
  {
  }

  lemma {:induction false} NewRuleLinesSnoc(news: seq<NewChain>, n: NewChain)
    ensures NewRuleLines(news + [n]) == NewRuleLines(news) +
      ["-I " + KUBE_HOSTPORTS + " " + n.jump, "-A " + n.chain + " " + n.snat, "-A " + n.chain + " " + n.dnat]
  {
    if news == [] {
      assert news + [n] == [n] && [n][1..] == [];
    } else {
      assert (news + [n])[1..] == news[1..] + [n];
      NewRuleLinesSnoc(news[1..], n);
    }
  }
}
