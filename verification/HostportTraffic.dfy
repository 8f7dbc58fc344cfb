/** Where packets go: the rules that network/hostport/hostport_manager.go installs, read from the nat table that
    restore leaves and applied to packets.

    A packet runs through KUBE-HOSTPORTS; a rule that it matches sends it into a chain, and the first DNAT rule
    there that it matches decides. */
module HostportTraffic {
  import opened Text
  import opened RuleSyntax
  import opened IPTables
  import opened HostportRules
  import opened RuleMeaning
  import HR = HostportRuns
  import HS = HostportSockets

  // ---- packets ----------------------------------------------------------------------------------------------

  datatype Packet = Packet(protocol: string, src: string, dst: string, dport: int)

  /** An address as it was written, or with the "/32" that normalizeRule appends to every address, of either family. */
  predicate Covers(spec: string, address: string) { spec == address || spec == address + "/32" }

  predicate Matches(r: Rule, p: Packet) {
    && (r.protocol.Some? ==> r.protocol.value == p.protocol)
    && (r.dport.Some? ==> Number(r.dport.value) == Some(p.dport))
    && (r.source.Some? ==> Covers(r.source.value, p.src))
    && (r.destination.Some? ==> Covers(r.destination.value, p.dst))
  }

  predicate Rewrites(r: Rule, p: Packet) { Matches(r, p) && r.target == Some("DNAT") && r.to.Some? }

  /** What the rules of a chain make of the packet's destination. */
  function InChain(rules: Rules, p: Packet): Option<Endpoint> {
    if rules == [] then None
    else
      var r := Meaning(rules[0]);
      if Rewrites(r, p) then EndpointOf(r.to.value) else InChain(rules[1..], p)
  }

  /** What a rule of KUBE-HOSTPORTS makes of it. */
  function Jumps(cs: Chains, r: Rule, p: Packet): Option<Endpoint> {
    if Matches(r, p) && r.target.Some? && r.target.value in cs then InChain(cs[r.target.value], p) else None
  }

  /** What the rules, from first to last, make of it: a chain that decides nothing returns. */
  function Through(cs: Chains, rules: Rules, p: Packet): Option<Endpoint> {
    if rules == [] then None
    else
      var here := Jumps(cs, Meaning(rules[0]), p);
      if here.Some? then here else Through(cs, rules[1..], p)
  }

  /** Where the nat table sends the packet, if it changes its destination. */
  function Sends(cs: Chains, p: Packet): Option<Endpoint>
    requires KUBE_HOSTPORTS in cs
  {
    Through(cs, cs[KUBE_HOSTPORTS], p)
  }

  // ---- a mapping in the table -------------------------------------------------------------------------------

  /** The rule sends packets of the mapping's protocol to its host port into the chain, and no others. */
  ghost predicate JumpsTo(rule: string, pm: HS.PortMapping, chain: string) {
    var r := Meaning(rule);
    && r.protocol == Some(HS.Lower(pm.protocol)) && r.dport.Some? && Number(r.dport.value) == Some(pm.hostPort)
    && r.source.None? && r.destination.None? && r.target == Some(chain) && r.to.None?
  }

  /** The rules mark packets from the pod for masquerading, and send packets of the mapping's protocol, to the
      mapping's host address where that is specific, to the pod's container port. */
  ghost predicate ServesMapping(rules: Rules, pm: HS.PortMapping, podIP: string) {
    && |rules| == 2
    && Meaning(rules[0]) == ANY.(source := Some(podIP + "/32"), target := Some(KUBE_MARK_MASQ))
    && var r := Meaning(rules[1]);
       && r.protocol == Some(HS.Lower(pm.protocol)) && r.dport.None? && r.source.None?
       && r.destination == (if Specific(pm.hostIP) then Some(pm.hostIP + "/32") else None)
       && r.target == Some("DNAT") && r.to.Some? && EndpointOf(r.to.value) == Some(Endpoint(podIP, pm.containerPort))
  }

  /** What Add is given for a pod. */
  ghost predicate PodOk(podFullName: string, podIP: string, pms: seq<HS.PortMapping>, isIP: string -> bool) {
    && IPTexts(isIP) && ColonsFirst(isIP) && NameText(podFullName) && isIP(podIP)
    && forall pm :: pm in pms ==> MappingText(pm) && AddressOk(pm, isIP)
  }

  lemma JumpMeansJump(id: string, podFullName: string, podIP: string, pm: HS.PortMapping, hash: string -> string, isIP: string -> bool)
    requires PodOk(podFullName, podIP, [pm], isIP) && HashTexts(hash)
    ensures JumpsTo(NewChainOf(id, podFullName, podIP, pm, hash).jump, pm, ChainOf(id, pm, hash))
  {
    assert pm in [pm];
    ChainText(id, pm, hash, isIP);
    JumpMeans(podFullName, pm, ChainOf(id, pm, hash), isIP);
    NumberOfItoa(pm.hostPort);
  }

  lemma MarkIsNoDnat()
    ensures KUBE_MARK_MASQ != "DNAT"
  {
    assert |KUBE_MARK_MASQ| == 14 && |"DNAT"| == 4;
  }

  /** The two rules of a new chain as they are stored. */
  lemma StoredRulesServe(id: string, podFullName: string, podIP: string, pm: HS.PortMapping, hash: string -> string, isIP: string -> bool)
    requires PodOk(podFullName, podIP, [pm], isIP) && HashTexts(hash)
    ensures var n := NewChainOf(id, podFullName, podIP, pm, hash);
      ServesMapping(Put(Append, [NormalText(n.snat, isIP)], NormalText(n.dnat, isIP)), pm, podIP)
  {
    assert pm in [pm];
    var n := NewChainOf(id, podFullName, podIP, pm, hash);
    SnatMeans(podFullName, pm, podIP, isIP);
    DnatMeans(podFullName, pm, podIP, isIP);
    EndpointOfJoin(podIP, pm.containerPort, isIP);
    PutTwo(NormalText(n.snat, isIP), NormalText(n.dnat, isIP));
  }

  lemma PutTwo(snat: string, dnat: string)
    requires Meaning(snat).target == Some(KUBE_MARK_MASQ) && Meaning(dnat).target == Some("DNAT")
    ensures Put(Append, [snat], dnat) == [snat, dnat]
  {
    MarkIsNoDnat();
  }

  /** What Add writes for a mapping, and for those of a pod, by what it means. */
  ghost predicate WritesOne(n: NewChain, pm: HS.PortMapping, podIP: string, isIP: string -> bool) {
    && NewChainOk(n, isIP) && n.chain != "DNAT" && JumpsTo(n.jump, pm, n.chain)
    && ServesMapping(Put(Append, [NormalText(n.snat, isIP)], NormalText(n.dnat, isIP)), pm, podIP)
  }

  ghost predicate Writes(news: seq<NewChain>, pms: seq<HS.PortMapping>, podIP: string, isIP: string -> bool) {
    |news| == |pms| && forall i :: 0 <= i < |news| ==> WritesOne(news[i], pms[i], podIP, isIP)
  }

  lemma ChainIsNoDnat(id: string, pm: HS.PortMapping, hash: string -> string)
    requires HashTexts(hash)
    ensures ChainOf(id, pm, hash) != "DNAT"
  {
    assert |ChainOf(id, pm, hash)| >= 16 && |"DNAT"| == 4;
  }

  lemma EmittedOneWrites(id: string, podFullName: string, podIP: string, pm: HS.PortMapping, hash: string -> string, isIP: string -> bool)
    requires PodOk(podFullName, podIP, [pm], isIP) && HashTexts(hash)
    ensures WritesOne(NewChainOf(id, podFullName, podIP, pm, hash), pm, podIP, isIP)
  {
    var n := NewChainOf(id, podFullName, podIP, pm, hash);
    assert pm in [pm];
    assert NewChainOk(n, isIP) by { NewChainIsOk(id, podFullName, podIP, pm, hash, isIP); }
    assert JumpsTo(n.jump, pm, n.chain) by { JumpMeansJump(id, podFullName, podIP, pm, hash, isIP); }
    assert n.chain != "DNAT" by { ChainIsNoDnat(id, pm, hash); }
    StoredRulesServe(id, podFullName, podIP, pm, hash, isIP);
  }

  lemma EmittedWrites(id: string, podFullName: string, podIP: string, pms: seq<HS.PortMapping>, hash: string -> string, isIP: string -> bool)
    requires PodOk(podFullName, podIP, pms, isIP) && HashTexts(hash)
    ensures Writes(NewChains(id, podFullName, podIP, pms, hash), pms, podIP, isIP)
  {
    forall i | 0 <= i < |pms| ensures WritesOne(NewChains(id, podFullName, podIP, pms, hash)[i], pms[i], podIP, isIP) {
      assert pms[i] in pms;
      EmittedOneWrites(id, podFullName, podIP, pms[i], hash, isIP);
    }
  }

  /** The i-th mapping is in the table: a jump and a chain that serves it. */
  ghost predicate Installed(cs: Chains, news: seq<NewChain>, pms: seq<HS.PortMapping>, podIP: string, i: nat)
    requires i < |pms| == |news|
  {
    && JumpsTo(news[i].jump, pms[i], news[i].chain)
    && news[i].chain in cs && ServesMapping(cs[news[i].chain], pms[i], podIP)
  }

  /** The chains are new: they do not exist, no rule names them, and they differ. */
  ghost predicate Fresh(cs: Chains, news: seq<NewChain>) {
    && KUBE_HOSTPORTS in cs
    && (forall n :: n in news ==> n.chain !in cs && forall r :: r in cs[KUBE_HOSTPORTS] ==> !Contains(r, n.chain))
    && (forall i, j :: 0 <= i < j < |news| ==> news[i].chain != news[j].chain)
  }

  /** A chain that is written once, and that is new or flushed, serves its mapping. */
  lemma WrittenServes(cs: Chains, cs': Chains, news: seq<NewChain>, pms: seq<HS.PortMapping>, podIP: string, table: string, cfg: Config, i: nat)
    requires Writes(news, pms, podIP, cfg.isIP) && Filled(cs, cs', news, table, cfg) && i < |news|
    requires news[i].chain !in cs || Flushes(table, news[i].chain, cfg)
    requires forall j :: 0 <= j < |news| && j != i ==> news[j].chain != news[i].chain
    ensures Installed(cs', news, pms, podIP, i)
  {
    assert WritesOne(news[i], pms[i], podIP, cfg.isIP);
    NewChainHoldsItsRules(cs, cs', news, i, table, cfg);
  }

  lemma JumpIsInFront(cs: Chains, cs': Chains, news: seq<NewChain>, i: nat) returns (k: nat)
    requires Added(cs, cs', news) && i < |news| && news[i].jump !in cs[KUBE_HOSTPORTS]
    ensures k < |cs'[KUBE_HOSTPORTS]| - |cs[KUBE_HOSTPORTS]| && cs'[KUBE_HOSTPORTS][k] == news[i].jump
  {
    assert news[i] in news;
    var front := NewJumpsComeFirst(cs, cs', news);
    k :| 0 <= k < |front| && front[k] == news[i].jump;
  }

  // ---- where packets go after Add ---------------------------------------------------------------------------

  /** The mapping is for the packet. */
  predicate For(pm: HS.PortMapping, p: Packet) {
    p.protocol == HS.Lower(pm.protocol) && p.dport == pm.hostPort && (Specific(pm.hostIP) ==> p.dst == pm.hostIP)
  }

  /** The container port of the last mapping that is for the packet. */
  function Serve(pms: seq<HS.PortMapping>, podIP: string, p: Packet): Option<Endpoint> {
    if pms == [] then None
    else
      var pm := pms[|pms| - 1];
      if For(pm, p) then Some(Endpoint(podIP, pm.containerPort)) else Serve(pms[..|pms| - 1], podIP, p)
  }

  lemma CoversAddress(hostIP: string, dst: string, isIP: string -> bool)
    requires IPTexts(isIP) && isIP(dst)
    ensures Covers(hostIP + "/32", dst) <==> dst == hostIP
  {
    var spec := hostIP + "/32";
    assert spec[|hostIP|] == '/' && spec[|hostIP|] in spec && !IPChar('/');
    if spec == dst + "/32" {
      assert |hostIP| == |dst|;
      assert hostIP == spec[..|hostIP|] && dst == (dst + "/32")[..|dst|];
    }
  }

  lemma ServedInChain(rules: Rules, pm: HS.PortMapping, podIP: string, p: Packet, isIP: string -> bool)
    requires IPTexts(isIP) && isIP(p.dst) && ServesMapping(rules, pm, podIP)
    ensures InChain(rules, p) == if p.protocol == HS.Lower(pm.protocol) && (Specific(pm.hostIP) ==> p.dst == pm.hostIP)
                                 then Some(Endpoint(podIP, pm.containerPort)) else None
  {
    MarkIsNoDnat();
    CoversAddress(pm.hostIP, p.dst, isIP);
    assert !Rewrites(Meaning(rules[0]), p) && rules == [rules[0]] + rules[1..] && rules[1..] == [rules[1]];
    assert InChain(rules, p) == InChain([rules[1]], p);
    assert [rules[1]][1..] == [] && InChain([], p) == None;
    var r := Meaning(rules[1]);
    assert Rewrites(r, p) <==> p.protocol == HS.Lower(pm.protocol) && (Specific(pm.hostIP) ==> p.dst == pm.hostIP);
  }

  lemma JumpServes(cs: Chains, rule: string, chain: string, pm: HS.PortMapping, podIP: string, p: Packet, isIP: string -> bool)
    requires IPTexts(isIP) && isIP(p.dst) && JumpsTo(rule, pm, chain) && chain in cs && ServesMapping(cs[chain], pm, podIP)
    ensures Jumps(cs, Meaning(rule), p) == if For(pm, p) then Some(Endpoint(podIP, pm.containerPort)) else None
  {
    ServedInChain(cs[chain], pm, podIP, p, isIP);
  }

  lemma {:induction false} PrependSnoc(rules: Rules, news: seq<NewChain>, n: NewChain)
    ensures PrependAll(rules, news + [n]) == Put(Prepend, PrependAll(rules, news), n.jump)
    decreases |news|
  {
    if news == [] {
      assert news + [n] == [n] && [n][1..] == [];
    } else {
      assert (news + [n])[1..] == news[1..] + [n];
      PrependSnoc(Put(Prepend, rules, news[0].jump), news[1..], n);
    }
  }

  /** A jump to a chain that no rule names, and that no other new jump leads to, is a new rule. */
  lemma JumpIsNew(rules: Rules, news: seq<NewChain>, k: nat)
    requires k < |news| && news[k].jump !in rules
    requires forall i :: 0 <= i < |news| ==> Meaning(news[i].jump).target == Some(news[i].chain)
    requires forall i :: 0 <= i < k ==> news[i].chain != news[k].chain
    ensures news[k].jump !in PrependAll(rules, news[..k])
  {
    var front := PrependAllShape(rules, news[..k]);
  }

  lemma ThroughStep(cs: Chains, rules: Rules, news: seq<NewChain>, k: nat, p: Packet)
    requires k < |news| && news[k].jump !in PrependAll(rules, news[..k])
    ensures var here := Jumps(cs, Meaning(news[k].jump), p); var rest := PrependAll(rules, news[..k]);
      Through(cs, PrependAll(rules, news[..k + 1]), p) == if here.Some? then here else Through(cs, rest, p)
  {
    var rest := PrependAll(rules, news[..k]);
    assert news[..k + 1] == news[..k] + [news[k]];
    PrependSnoc(rules, news[..k], news[k]);
    assert ([news[k].jump] + rest)[1..] == rest;
  }

  /** The jumps as they are written lead to their chains, and are no rules that are there. */
  ghost predicate NewJumps(rules: Rules, news: seq<NewChain>) {
    && (forall i :: 0 <= i < |news| ==> news[i].jump !in rules && Meaning(news[i].jump).target == Some(news[i].chain))
    && (forall i, j :: 0 <= i < j < |news| ==> news[i].chain != news[j].chain)
  }

  lemma ServeStep(pms: seq<HS.PortMapping>, podIP: string, p: Packet, i: nat)
    requires i < |pms|
    ensures Serve(pms[..i + 1], podIP, p) ==
            if For(pms[i], p) then Some(Endpoint(podIP, pms[i].containerPort)) else Serve(pms[..i], podIP, p)
  {
    assert pms[..i + 1][..i] == pms[..i] && pms[..i + 1][i] == pms[i];
  }

  lemma {:induction false} NewRulesServe(cs: Chains, rules: Rules, news: seq<NewChain>, pms: seq<HS.PortMapping>, podIP: string,
                                         p: Packet, isIP: string -> bool, k: nat)
    requires IPTexts(isIP) && isIP(p.dst) && k <= |news| == |pms| && NewJumps(rules, news)
    requires forall i :: 0 <= i < |news| ==> Installed(cs, news, pms, podIP, i)
    ensures var served := Serve(pms[..k], podIP, p);
      Through(cs, PrependAll(rules, news[..k]), p) == if served.Some? then served else Through(cs, rules, p)
    decreases k
  {
    if k > 0 {
      var i := k - 1;
      NewRulesServe(cs, rules, news, pms, podIP, p, isIP, i);
      JumpIsNew(rules, news, i);
      ThroughStep(cs, rules, news, i, p);
      assert Installed(cs, news, pms, podIP, i);
      JumpServes(cs, news[i].jump, news[i].chain, pms[i], podIP, p, isIP);
      ServeStep(pms, podIP, p, i);
    }
  }

  // ---- earlier rules do as before ---------------------------------------------------------------------------

  lemma PrefixIsContained(s: string, end: nat)
    requires end <= |s|
    ensures Contains(s, s[..end]) && Contains(s, s)
  {
    assert s == "" + s[..end] + s[end..] && s == "" + s + "";
    ContainsInMiddle("", s[..end], s[end..]);
    ContainsInMiddle("", s, "");
  }

  lemma SuffixContains(s: string, i: nat, w: string)
    requires i <= |s| && Contains(s[i..], w)
    ensures Contains(s, w)
  {
    assert s == s[..i] + s[i..] + "";
    ContainsExtends(s[..i], s[i..], "", w);
  }

  lemma {:induction false} WordsAreContained(s: string, w: string)
    requires w in Words(s)
    ensures Contains(s, w)
    decreases |s|
  {
    var end := WordEnd(s);
    if end == |s| || w == s[..end] {
      PrefixIsContained(s, end);
    } else {
      WordsAreContained(s[end + 1..], w);
      SuffixContains(s, end + 1, w);
    }
  }

  lemma {:induction false} TargetIsAWord(words: seq<string>, i: nat)
    ensures ReadFlags(words, i).target.Some? ==> ReadFlags(words, i).target.value in words
    decreases |words| - i
  {
    if i + 1 < |words| { TargetIsAWord(words, i + 2); }
  }

  lemma TargetIsContained(rule: string)
    ensures Meaning(rule).target.Some? ==> Contains(rule, Meaning(rule).target.value)
  {
    TargetIsAWord(Words(rule), 0);
    if Meaning(rule).target.Some? { WordsAreContained(rule, Meaning(rule).target.value); }
  }

  lemma {:induction false} InChainSkips(front: Rules, rules: Rules, p: Packet)
    requires forall r :: r in front ==> Meaning(r).target != Some("DNAT")
    ensures InChain(front + rules, p) == InChain(rules, p)
  {
    if front == [] {
      assert front + rules == rules;
    } else {
      assert front[0] in front;
      assert (front + rules)[1..] == front[1..] + rules;
      InChainSkips(front[1..], rules, p);
    }
  }

  /** For the targets of the rules the tables do the same. */
  ghost predicate SameTargets(a: Chains, b: Chains, rules: Rules, p: Packet) {
    forall r :: r in rules && Meaning(r).target.Some? ==>
      var t := Meaning(r).target.value; (t in a <==> t in b) && (t in a ==> InChain(a[t], p) == InChain(b[t], p))
  }

  lemma {:induction false} ThroughSame(a: Chains, b: Chains, rules: Rules, p: Packet)
    requires SameTargets(a, b, rules, p)
    ensures Through(a, rules, p) == Through(b, rules, p)
  {
    if rules != [] {
      assert rules[0] in rules;
      ThroughSame(a, b, rules[1..], p);
    }
  }

  /** The chain KUBE-HOSTPORTS with new jumps in front, and the new chains, apart: all as before. */
  lemma OldRulesSame(cs: Chains, cs': Chains, news: seq<NewChain>, p: Packet)
    requires Fresh(cs, news) && NewJumps(cs[KUBE_HOSTPORTS], news) && KUBE_HOSTPORTS in cs'
    requires cs'[KUBE_HOSTPORTS] == PrependAll(cs[KUBE_HOSTPORTS], news)
    requires SameOutside(cs', cs, {KUBE_HOSTPORTS} + NameSet(news)) && forall n :: n in news ==> n.chain != "DNAT"
    ensures SameTargets(cs', cs, cs[KUBE_HOSTPORTS], p)
  {
    var rules := cs[KUBE_HOSTPORTS];
    var front := PrependAllShape(rules, news);
    forall r | r in front ensures Meaning(r).target != Some("DNAT") {
      var i :| 0 <= i < |news| && r == news[i].jump;
      assert news[i] in news;
    }
    InChainSkips(front, rules, p);
    forall r | r in rules && Meaning(r).target.Some? ensures Meaning(r).target.value !in NameSet(news) {
      TargetIsContained(r);
    }
  }

  ghost predicate NoDnatChain(news: seq<NewChain>) { forall n :: n in news ==> n.chain != "DNAT" }

  /** What Add makes of the nat table, for a pod whose chains are new. */
  ghost predicate AddedFor(cs: Chains, cs': Chains, news: seq<NewChain>, pms: seq<HS.PortMapping>, podIP: string) {
    && |news| == |pms| && Fresh(cs, news) && Added(cs, cs', news) && NewJumps(cs[KUBE_HOSTPORTS], news) && NoDnatChain(news)
    && forall i :: 0 <= i < |news| ==> Installed(cs', news, pms, podIP, i)
  }

  lemma AddMakes(cs: Chains, cs': Chains, news: seq<NewChain>, pms: seq<HS.PortMapping>, podIP: string, table: string, cfg: Config)
    requires Writes(news, pms, podIP, cfg.isIP) && Fresh(cs, news) && Added(cs, cs', news) && Filled(cs, cs', news, table, cfg)
    ensures AddedFor(cs, cs', news, pms, podIP)
  {
    forall i | 0 <= i < |news| ensures Installed(cs', news, pms, podIP, i) {
      assert news[i] in news;
      WrittenServes(cs, cs', news, pms, podIP, table, cfg, i);
    }
    forall i | 0 <= i < |news|
      ensures news[i].jump !in cs[KUBE_HOSTPORTS] && Meaning(news[i].jump).target == Some(news[i].chain)
    {
      assert news[i] in news && WritesOne(news[i], pms[i], podIP, cfg.isIP);
    }
    forall n | n in news ensures n.chain != "DNAT" {
      var i :| 0 <= i < |news| && news[i] == n;
      assert WritesOne(news[i], pms[i], podIP, cfg.isIP);
    }
  }

  lemma AddedSends(cs: Chains, cs': Chains, news: seq<NewChain>, pms: seq<HS.PortMapping>, podIP: string, p: Packet, isIP: string -> bool)
    requires IPTexts(isIP) && isIP(p.dst) && AddedFor(cs, cs', news, pms, podIP)
    ensures Sends(cs', p) == if Serve(pms, podIP, p).Some? then Serve(pms, podIP, p) else Sends(cs, p)
  {
    var rules := cs[KUBE_HOSTPORTS];
    NewRulesServe(cs', rules, news, pms, podIP, p, isIP, |news|);
    assert news[..|news|] == news && pms[..|pms|] == pms;
    OldRulesSame(cs, cs', news, p);
    ThroughSame(cs', cs, rules, p);
  }

  // ---- where packets go after Remove ------------------------------------------------------------------------

  /** The rules that do not lead to a chain in `gone`, in order. */
  function NotInto(rules: Rules, gone: set<string>): Rules {
    if rules == [] then []
    else
      var t := Meaning(rules[0]).target;
      (if t.Some? && t.value in gone then [] else [rules[0]]) + NotInto(rules[1..], gone)
  }

  lemma {:induction false} ThroughWithout(cs: Chains, gone: set<string>, rules: Rules, p: Packet)
    ensures Through(cs - gone, rules, p) == Through(cs, NotInto(rules, gone), p)
  {
    if rules != [] {
      ThroughWithout(cs, gone, rules[1..], p);
      var rest := NotInto(rules[1..], gone);
      assert ([rules[0]] + rest)[1..] == rest && [] + rest == rest;
    }
  }

  /** Jumps to chains that do not exist do nothing. */
  lemma {:induction false} DeadJumps(cs: Chains, rules: Rules, news: seq<NewChain>, p: Packet, k: nat)
    requires k <= |news| && NewJumps(rules, news) && forall i :: 0 <= i < |news| ==> news[i].chain !in cs
    ensures Through(cs, PrependAll(rules, news[..k]), p) == Through(cs, rules, p)
    decreases k
  {
    if k > 0 {
      DeadJumps(cs, rules, news, p, k - 1);
      JumpIsNew(rules, news, k - 1);
      ThroughStep(cs, rules, news, k - 1, p);
    }
  }

  lemma UndoneSends(cs: Chains, cs': Chains, news: seq<NewChain>, pms: seq<HS.PortMapping>, podIP: string, gone: set<string>, p: Packet)
    requires AddedFor(cs, cs', news, pms, podIP) && gone == NameSet(news)
    ensures KUBE_HOSTPORTS in cs' - gone && Sends(cs' - gone, p) == Sends(cs, p)
  {
    var rules := cs[KUBE_HOSTPORTS];
    assert KUBE_HOSTPORTS !in gone by { assert forall n :: n in news ==> n.chain !in cs; }
    forall i | 0 <= i < |news| ensures news[i].chain !in cs' - gone { assert news[i] in news; }
    DeadJumps(cs' - gone, rules, news, p, |news|);
    assert news[..|news|] == news;
    OldRulesSame(cs, cs' - gone, news, p);
    ThroughSame(cs' - gone, cs, rules, p);
  }

  lemma {:induction false} PresentNotTwice(targets: seq<string>, cs: Chains)
    requires NoneTwice(targets)
    ensures NoneTwice(PresentOf(targets, cs))
  {
    if targets != [] {
      PresentNotTwice(targets[1..], cs);
      PresentAreIn(targets[1..], cs);
      assert targets[0] !in targets[1..];
    }
  }

  lemma NamesNotTwice(cs: Chains, news: seq<NewChain>)
    requires forall i, j :: 0 <= i < j < |news| ==> news[i].chain != news[j].chain
    ensures NoneTwice(PresentOf(ChainNames(news), cs))
  {
    PresentNotTwice(ChainNames(news), cs);
  }

  // ---- the main results -------------------------------------------------------------------------------------

  /** The tables after the text of Add, and after that of Remove. */
  ghost function AfterAdd(ts: Tables, order: seq<string>, existing: nat, news: seq<NewChain>, builtin: Builtins,
                          isIP: string -> bool): (Tables, Status)
    requires NAT in ts && forall c :: c in order ==> c in ts[NAT]
  {
    Restore(ts, "", Unlines(AddLines(news, SaveLines(NAT, ts[NAT], order), existing)), NoFlushTables, builtin, isIP)
  }

  ghost function AfterRemove(ts: Tables, order: seq<string>, existing: nat, targets: seq<string>, builtin: Builtins,
                             isIP: string -> bool): (Tables, Status)
    requires NAT in ts && forall c :: c in order ==> c in ts[NAT]
  {
    Restore(ts, "", Unlines(RemoveLines(targets, PresentOf(targets, ts[NAT]), SaveLines(NAT, ts[NAT], order), existing)),
            NoFlushTables, builtin, isIP)
  }

  lemma AddMakesTables(ts: Tables, order: seq<string>, existing: nat, id: string, podFullName: string, podIP: string,
                       pms: seq<HS.PortMapping>, hash: string -> string, builtin: Builtins, isIP: string -> bool)
    requires PodOk(podFullName, podIP, pms, isIP) && HashTexts(hash) && NatReady(ts, order, isIP)
    requires Fresh(ts[NAT], NewChains(id, podFullName, podIP, pms, hash))
    ensures var news := NewChains(id, podFullName, podIP, pms, hash);
      var (ts', status) := AfterAdd(ts, order, existing, news, builtin, isIP);
      && status == Fine && NAT in ts' && AddedFor(ts[NAT], ts'[NAT], news, pms, podIP)
      && (OnlySpaces(podFullName) ==> ChainsOk(ts'[NAT], isIP))
  {
    var news := NewChains(id, podFullName, podIP, pms, hash);
    var cfg := Config("", NoFlushTables, Unlines(AddLines(news, SaveLines(NAT, ts[NAT], order), existing)), builtin, isIP);
    AddForPod(ts, order, existing, id, podFullName, podIP, pms, hash, builtin, isIP);
    EmittedWrites(id, podFullName, podIP, pms, hash, isIP);
    var ts' := AfterAdd(ts, order, existing, news, builtin, isIP).0;
    AddMakes(ts[NAT], ts'[NAT], news, pms, podIP, NAT, cfg);
    if OnlySpaces(podFullName) {
      AddLeavesReady(ts[NAT], ts'[NAT], id, podFullName, podIP, pms, hash, cfg);
    }
  }

  lemma AddLeavesReady(cs: Chains, cs': Chains, id: string, podFullName: string, podIP: string, pms: seq<HS.PortMapping>,
                       hash: string -> string, cfg: Config)
    requires PodOk(podFullName, podIP, pms, cfg.isIP) && OnlySpaces(podFullName) && HashTexts(hash) && ChainsOk(cs, cfg.isIP)
    requires var news := NewChains(id, podFullName, podIP, pms, hash); Added(cs, cs', news) && Filled(cs, cs', news, NAT, cfg)
    ensures ChainsOk(cs', cfg.isIP)
  {
    forall pm | pm in pms ensures HR.PlainTexts(podFullName, podIP, pm, cfg.isIP) {
      if pm.hostIP != "" { IPWord(pm.hostIP, cfg.isIP); }
    }
    HR.EmittedMayBeAdded(id, podFullName, podIP, pms, hash, cfg.isIP);
    HR.AddKeepsChains(cs, cs', NewChains(id, podFullName, podIP, pms, hash), NAT, cfg);
  }

  /** Add, by the nat table it leaves: for every mapping of the pod, its chains being new, there is a rule in front
      of all earlier rules of KUBE-HOSTPORTS that sends exactly the packets of its protocol to its host port into
      its chain, and this chain serves the mapping. */
  lemma AddInstallsMapping(ts: Tables, order: seq<string>, existing: nat, id: string, podFullName: string, podIP: string,
                           pms: seq<HS.PortMapping>, hash: string -> string, builtin: Builtins, isIP: string -> bool,
                           news: seq<NewChain>, i: nat)
      returns (k: nat)
    requires PodOk(podFullName, podIP, pms, isIP) && HashTexts(hash) && NatReady(ts, order, isIP) && i < |pms|
    requires news == NewChains(id, podFullName, podIP, pms, hash) && Fresh(ts[NAT], news)
    ensures var (ts', status) := AfterAdd(ts, order, existing, news, builtin, isIP);
      && status == Fine && NAT in ts' && KUBE_HOSTPORTS in ts'[NAT]
      && var rules, chain := ts'[NAT][KUBE_HOSTPORTS], news[i].chain;
         && k < |rules| - |ts[NAT][KUBE_HOSTPORTS]| && JumpsTo(rules[k], pms[i], chain)
         && chain in ts'[NAT] && ServesMapping(ts'[NAT][chain], pms[i], podIP)
  {
    AddMakesTables(ts, order, existing, id, podFullName, podIP, pms, hash, builtin, isIP);
    k := InstalledInFront(ts[NAT], AfterAdd(ts, order, existing, news, builtin, isIP).0[NAT], news, pms, podIP, i);
  }

  lemma InstalledInFront(cs: Chains, cs': Chains, news: seq<NewChain>, pms: seq<HS.PortMapping>, podIP: string, i: nat) returns (k: nat)
    requires AddedFor(cs, cs', news, pms, podIP) && i < |pms|
    ensures k < |cs'[KUBE_HOSTPORTS]| - |cs[KUBE_HOSTPORTS]| && JumpsTo(cs'[KUBE_HOSTPORTS][k], pms[i], news[i].chain)
    ensures news[i].chain in cs' && ServesMapping(cs'[news[i].chain], pms[i], podIP)
  {
    assert Installed(cs', news, pms, podIP, i);
    k := JumpIsInFront(cs, cs', news, i);
  }

  /** The text names the chain in no deletion, and the chain is none of those that are always there. */
  predicate Rewritable(text: string, chain: string, builtin: Builtins) {
    !IsBuiltin(builtin, NAT, chain) && !Contains(text, "-X " + chain)
  }

  /** Add for a pod that had been added before: a chain that exists and can be rewritten holds the rules of its
      mapping again, whatever it held. */
  lemma ReAddRestoresChain(ts: Tables, order: seq<string>, existing: nat, news: seq<NewChain>, pms: seq<HS.PortMapping>,
                           podIP: string, builtin: Builtins, isIP: string -> bool, i: nat)
    requires IPTexts(isIP) && NatReady(ts, order, isIP) && KUBE_HOSTPORTS in ts[NAT] && Writes(news, pms, podIP, isIP)
    requires i < |news| && forall j :: 0 <= j < |news| && j != i ==> news[j].chain != news[i].chain
    requires Rewritable(Unlines(AddLines(news, SaveLines(NAT, ts[NAT], order), existing)), news[i].chain, builtin)
    ensures var (ts', status) := AfterAdd(ts, order, existing, news, builtin, isIP);
      status == Fine && NAT in ts' && news[i].chain in ts'[NAT] && ServesMapping(ts'[NAT][news[i].chain], pms[i], podIP)
  {
    var cfg := Config("", NoFlushTables, Unlines(AddLines(news, SaveLines(NAT, ts[NAT], order), existing)), builtin, isIP);
    forall n | n in news ensures NewChainOk(n, isIP) {
      var j :| 0 <= j < |news| && news[j] == n;
      assert WritesOne(news[j], pms[j], podIP, isIP);
    }
    AddTextActs(ts, order, news, existing, builtin, isIP);
    var cs' := AfterAdd(ts, order, existing, news, builtin, isIP).0[NAT];
    WrittenServes(ts[NAT], cs', news, pms, podIP, NAT, cfg, i);
  }

  /** Where every packet goes after Add for a pod whose chains are new: to the pod, at the container port of the
      last of its mappings that is for the packet, or, if none is, where it went before. */
  lemma AddSends(ts: Tables, order: seq<string>, existing: nat, id: string, podFullName: string, podIP: string,
                 pms: seq<HS.PortMapping>, hash: string -> string, builtin: Builtins, isIP: string -> bool, p: Packet)
    requires PodOk(podFullName, podIP, pms, isIP) && HashTexts(hash) && NatReady(ts, order, isIP) && isIP(p.dst)
    requires Fresh(ts[NAT], NewChains(id, podFullName, podIP, pms, hash))
    ensures var ts' := AfterAdd(ts, order, existing, NewChains(id, podFullName, podIP, pms, hash), builtin, isIP).0;
      && NAT in ts' && KUBE_HOSTPORTS in ts'[NAT]
      && Sends(ts'[NAT], p) == if Serve(pms, podIP, p).Some? then Serve(pms, podIP, p) else Sends(ts[NAT], p)
  {
    var news := NewChains(id, podFullName, podIP, pms, hash);
    AddMakesTables(ts, order, existing, id, podFullName, podIP, pms, hash, builtin, isIP);
    AddedSends(ts[NAT], AfterAdd(ts, order, existing, news, builtin, isIP).0[NAT], news, pms, podIP, p, isIP);
  }

  lemma RemoveMakesTables(ts: Tables, order: seq<string>, existing: nat, targets: seq<string>, builtin: Builtins, isIP: string -> bool)
    requires IPTexts(isIP) && NatReady(ts, order, isIP)
    ensures var (ts', status) := AfterRemove(ts, order, existing, targets, builtin, isIP);
      var present := PresentOf(targets, ts[NAT]);
      && status == (if NoneTwice(present) then Fine else Failed)
      && ts' == ts[NAT := ts[NAT] - (set c | c in UpToRepeat(present, {}))]
      && (status == Fine ==> ts' == ts[NAT := ts[NAT] - (set c | c in targets)])
  {
    RemoveTextActs(ts, order, targets, existing, builtin, isIP);
  }

  /** Where every packet goes after Remove, whether or not its text is accepted: where it would go without the
      rules that lead to the chains removed.  Those rules themselves stay behind. */
  lemma RemoveSends(ts: Tables, order: seq<string>, existing: nat, targets: seq<string>, builtin: Builtins, isIP: string -> bool, p: Packet)
    requires IPTexts(isIP) && NatReady(ts, order, isIP) && KUBE_HOSTPORTS in ts[NAT] && KUBE_HOSTPORTS !in targets
    ensures var (ts', status) := AfterRemove(ts, order, existing, targets, builtin, isIP);
      var present := PresentOf(targets, ts[NAT]);
      var gone := set c | c in UpToRepeat(present, {});
      && (status == Fine ==> gone == set c | c in present)
      && NAT in ts' && KUBE_HOSTPORTS in ts'[NAT] && ts'[NAT][KUBE_HOSTPORTS] == ts[NAT][KUBE_HOSTPORTS]
      && Sends(ts'[NAT], p) == Through(ts[NAT], NotInto(ts[NAT][KUBE_HOSTPORTS], gone), p)
  {
    RemoveMakesTables(ts, order, existing, targets, builtin, isIP);
    AllPresentGo(ts[NAT], targets);
    HR.GoneAreTargets(ts[NAT], targets);
    var gone := set c | c in UpToRepeat(PresentOf(targets, ts[NAT]), {});
    ThroughWithout(ts[NAT], gone, ts[NAT][KUBE_HOSTPORTS], p);
  }

  /** Remove of a pod just added: accepted, and every packet goes where it went before the Add, although the
      jumps stay behind. */
  lemma AddThenRemoveSends(ts: Tables, order: seq<string>, existing: nat, id: string, podFullName: string, podIP: string,
                           pms: seq<HS.PortMapping>, hash: string -> string, builtin: Builtins, isIP: string -> bool,
                           added: Tables, order': seq<string>, existing': nat, p: Packet)
    requires PodOk(podFullName, podIP, pms, isIP) && OnlySpaces(podFullName) && HashTexts(hash) && NatReady(ts, order, isIP)
    requires Fresh(ts[NAT], NewChains(id, podFullName, podIP, pms, hash))
    requires added == AfterAdd(ts, order, existing, NewChains(id, podFullName, podIP, pms, hash), builtin, isIP).0
    requires NAT in added && forall c :: c in order' <==> c in added[NAT]
    ensures var targets := ChainNames(NewChains(id, podFullName, podIP, pms, hash));
      var (ts', status) := AfterRemove(added, order', existing', targets, builtin, isIP);
      status == Fine && NAT in ts' && KUBE_HOSTPORTS in ts'[NAT] && Sends(ts'[NAT], p) == Sends(ts[NAT], p)
  {
    var news := NewChains(id, podFullName, podIP, pms, hash);
    AddMakesTables(ts, order, existing, id, podFullName, podIP, pms, hash, builtin, isIP);
    RemoveMakesTables(added, order', existing', ChainNames(news), builtin, isIP);
    NamesNotTwice(added[NAT], news);
    NamesAgree(news);
    UndoneSends(ts[NAT], added[NAT], news, pms, podIP, NameSet(news), p);
  }
}
