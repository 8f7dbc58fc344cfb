/** Runs of Add and Remove of network/hostport/hostport_manager.go on the iptables of the repository: every
    text of Add is accepted along the whole run, and no rule of KUBE-HOSTPORTS is ever lost. */
module HostportRuns {
  import opened Text
  import opened RuleSyntax
  import opened IPTables
  import opened HostportRules
  import HS = HostportSockets

  // ---- rules stay ones that save and restore preserve -----------------------------------------------------

  lemma PutKeepsRules(position: Position, rules: Rules, r: string, isIP: string -> bool)
    requires RulesOk(rules, isIP) && FixedRule(r, isIP) && '\n' !in r
    ensures RulesOk(Put(position, rules, r), isIP)
  {
  }

  lemma {:induction false} JumpsKeepRules(rules: Rules, news: seq<NewChain>, isIP: string -> bool)
    requires RulesOk(rules, isIP) && forall n :: n in news ==> NewChainOk(n, isIP)
    ensures RulesOk(PrependAll(rules, news), isIP)
    decreases |news|
  {
    if news != [] {
      assert NewChainOk(news[0], isIP);
      PutKeepsRules(Prepend, rules, news[0].jump, isIP);
      JumpsKeepRules(Put(Prepend, rules, news[0].jump), news[1..], isIP);
    }
  }

  /** The rules of the new chain are written with no white space but spaces. */
  ghost predicate SpacesOnly(n: NewChain) { OnlySpaces(n.snat) && OnlySpaces(n.dnat) }

  lemma NormalTextOk(rule: string, isIP: string -> bool)
    requires IPTexts(isIP) && NormalizeRule(rule, isIP).Normal? && OnlySpaces(rule)
    ensures FixedRule(NormalText(rule, isIP), isIP) && '\n' !in NormalText(rule, isIP)
  {
    NormalizeIsIdempotent(rule, isIP);
    NormalHasNoNewline(rule, isIP);
  }

  lemma {:induction false} FillKeepsRules(rules: Rules, news: seq<NewChain>, c: string, isIP: string -> bool)
    requires IPTexts(isIP) && RulesOk(rules, isIP) && forall n :: n in news ==> NewChainOk(n, isIP) && SpacesOnly(n)
    ensures RulesOk(FillChain(rules, news, c, isIP), isIP)
    decreases |news|
  {
    if news != [] {
      var n := news[0];
      assert NewChainOk(n, isIP) && SpacesOnly(n);
      NormalTextOk(n.snat, isIP);
      NormalTextOk(n.dnat, isIP);
      PutKeepsRules(Append, rules, NormalText(n.snat, isIP), isIP);
      var one := Put(Append, rules, NormalText(n.snat, isIP));
      PutKeepsRules(Append, one, NormalText(n.dnat, isIP), isIP);
      FillKeepsRules(if n.chain == c then Put(Append, one, NormalText(n.dnat, isIP)) else rules, news[1..], c, isIP);
    }
  }

  /** One chain after Add. */
  lemma AddKeepsChain(cs: Chains, rules: Rules, news: seq<NewChain>, table: string, cfg: Config, c: string)
    requires IPTexts(cfg.isIP) && ChainsOk(cs, cfg.isIP)
    requires forall n :: n in news ==> NewChainOk(n, cfg.isIP) && SpacesOnly(n)
    ensures c in NameSet(news) && rules == FillChain(Opening(cs, c, table, cfg), news, c, cfg.isIP) ==>
      ChainName(c) && RulesOk(rules, cfg.isIP)
    ensures c == KUBE_HOSTPORTS && c in cs && rules == PrependAll(cs[c], news) ==> ChainName(c) && RulesOk(rules, cfg.isIP)
  {
    if c in NameSet(news) {
      var n :| n in news && n.chain == c;
      assert NewChainOk(n, cfg.isIP);
      FillKeepsRules(Opening(cs, c, table, cfg), news, c, cfg.isIP);
    }
    if c == KUBE_HOSTPORTS && c in cs {
      JumpsKeepRules(cs[c], news, cfg.isIP);
    }
  }

  lemma AddKeepsChains(cs: Chains, cs': Chains, news: seq<NewChain>, table: string, cfg: Config)
    requires IPTexts(cfg.isIP) && ChainsOk(cs, cfg.isIP)
    requires forall n :: n in news ==> NewChainOk(n, cfg.isIP) && SpacesOnly(n)
    ensures Added(cs, cs', news) && Filled(cs, cs', news, table, cfg) ==> ChainsOk(cs', cfg.isIP)
  {
    if Added(cs, cs', news) && Filled(cs, cs', news, table, cfg) {
      forall c | c in cs' ensures ChainName(c) && RulesOk(cs'[c], cfg.isIP) {
        AddKeepsChain(cs, cs'[c], news, table, cfg, c);
      }
    }
  }

  // ---- runs --------------------------------------------------------------------------------------------------

  /** `order` is the order in which save lists the chains, `existing` the number of headers written for
      chains that exist. */
  datatype Op =
    | AddOp(news: seq<NewChain>, existing: nat, order: seq<string>)
    | RemoveOp(targets: seq<string>, existing: nat, order: seq<string>)

  function TextOf(cs: Chains, op: Op): string
    requires forall c :: c in op.order ==> c in cs
  {
    match op
    case AddOp(news, existing, order) => Unlines(AddLines(news, SaveLines(NAT, cs, order), existing))
    case RemoveOp(targets, existing, order) =>
      Unlines(RemoveLines(targets, PresentOf(targets, cs), SaveLines(NAT, cs, order), existing))
  }

  /** The tables with which Add and Remove can work. */
  ghost predicate Ready(ts: Tables, isIP: string -> bool) {
    NAT in ts && ChainsOk(ts[NAT], isIP) && KUBE_HOSTPORTS in ts[NAT]
  }

  /** The operation is one of the manager, on these tables. */
  ghost predicate OpOk(ts: Tables, op: Op, isIP: string -> bool) {
    && NAT in ts && (forall c :: c in op.order <==> c in ts[NAT])
    && match op
       case AddOp(news, _, _) => forall n :: n in news ==> NewChainOk(n, isIP) && SpacesOnly(n)
       case RemoveOp(targets, _, _) => KUBE_HOSTPORTS !in targets
  }

  ghost function After(ts: Tables, op: Op, builtin: Builtins, isIP: string -> bool): (Tables, Status) {
    if OpOk(ts, op, isIP) then Restore(ts, "", TextOf(ts[NAT], op), NoFlushTables, builtin, isIP) else (ts, Failed)
  }

  ghost predicate EndsWith(rules: Rules, old_: Rules) {
    |old_| <= |rules| && rules[|rules| - |old_|..] == old_
  }

  /** One operation: tables it can go on with, an accepted Add, the rules of KUBE-HOSTPORTS kept behind new
      ones, and no other table touched. */
  ghost predicate Keeps(ts: Tables, ts': Tables, isIP: string -> bool) {
    && Ready(ts', isIP) && NAT in ts && KUBE_HOSTPORTS in ts[NAT]
    && EndsWith(ts'[NAT][KUBE_HOSTPORTS], ts[NAT][KUBE_HOSTPORTS]) && ts' == ts[NAT := ts'[NAT]]
  }

  lemma AddKeeps(ts: Tables, op: Op, builtin: Builtins, isIP: string -> bool)
    requires IPTexts(isIP) && Ready(ts, isIP) && op.AddOp? && OpOk(ts, op, isIP)
    ensures Keeps(ts, After(ts, op, builtin, isIP).0, isIP) && After(ts, op, builtin, isIP).1 == Fine
  {
    AddTextActs(ts, op.order, op.news, op.existing, builtin, isIP);
    var ts' := After(ts, op, builtin, isIP).0;
    AddKeepsChains(ts[NAT], ts'[NAT], op.news, NAT, Config("", NoFlushTables, TextOf(ts[NAT], op), builtin, isIP));
    var front := PrependAllShape(ts[NAT][KUBE_HOSTPORTS], op.news);
  }

  lemma RemovalKeepsChains(cs: Chains, gone: set<string>, isIP: string -> bool)
    requires ChainsOk(cs, isIP)
    ensures ChainsOk(cs - gone, isIP)
  {
  }

  lemma GoneAreTargets(cs: Chains, targets: seq<string>)
    ensures forall c :: c in UpToRepeat(PresentOf(targets, cs), {}) ==> c in targets
  {
    PresentAreIn(targets, cs);
    UpToRepeatIsPrefix(PresentOf(targets, cs), {});
  }

  lemma RemoveKeeps(ts: Tables, op: Op, builtin: Builtins, isIP: string -> bool)
    requires IPTexts(isIP) && Ready(ts, isIP) && op.RemoveOp? && OpOk(ts, op, isIP)
    ensures Keeps(ts, After(ts, op, builtin, isIP).0, isIP)
  {
    var gone := set c | c in UpToRepeat(PresentOf(op.targets, ts[NAT]), {});
    RemoveTextActs(ts, op.order, op.targets, op.existing, builtin, isIP);
    GoneAreTargets(ts[NAT], op.targets);
    RemovalKeepsChains(ts[NAT], gone, isIP);
    assert After(ts, op, builtin, isIP).0 == ts[NAT := ts[NAT] - gone];
  }

  lemma KeepsTrans(a: Tables, b: Tables, c: Tables, isIP: string -> bool)
    requires Keeps(a, b, isIP) && Keeps(b, c, isIP)
    ensures Keeps(a, c, isIP)
  {
    var x, y, z := a[NAT][KUBE_HOSTPORTS], b[NAT][KUBE_HOSTPORTS], c[NAT][KUBE_HOSTPORTS];
    assert z[|z| - |x|..] == z[|z| - |y|..][|y| - |x|..];
  }

  ghost predicate Stepped(ts: Tables, op: Op, ts': Tables, builtin: Builtins, isIP: string -> bool) {
    OpOk(ts, op, isIP) && ts' == After(ts, op, builtin, isIP).0
  }

  /** `run` lists the tables before the first and after each of the operations. */
  ghost predicate Run(run: seq<Tables>, ops: seq<Op>, builtin: Builtins, isIP: string -> bool) {
    && |run| == |ops| + 1
    && forall n {:trigger Stepped(run[n], ops[n], run[n + 1], builtin, isIP)} ::
         0 <= n < |ops| ==> Stepped(run[n], ops[n], run[n + 1], builtin, isIP)
  }

  /** Over every run of Add and Remove, texts of Remove that are rejected included, the nat table stays one
      that save and restore preserve, the rules of KUBE-HOSTPORTS only get more in front of them, and no
      other table changes. */
  lemma {:induction false} RunsStayReady(run: seq<Tables>, ops: seq<Op>, builtin: Builtins, isIP: string -> bool, i: nat)
    requires IPTexts(isIP) && Run(run, ops, builtin, isIP) && Ready(run[0], isIP) && i < |run|
    ensures Keeps(run[0], run[i], isIP)
    decreases i
  {
    if i == 0 {
      assert run[0] == run[0][NAT := run[0][NAT]];
    } else {
      var n := i - 1;
      RunsStayReady(run, ops, builtin, isIP, n);
      assert Stepped(run[n], ops[n], run[n + 1], builtin, isIP);
      if ops[n].AddOp? {
        AddKeeps(run[n], ops[n], builtin, isIP);
      } else {
        RemoveKeeps(run[n], ops[n], builtin, isIP);
      }
      KeepsTrans(run[0], run[n], run[n + 1], isIP);
    }
  }

  /** Every Add along every run is accepted. */
  lemma EveryAddIsAccepted(run: seq<Tables>, ops: seq<Op>, builtin: Builtins, isIP: string -> bool, j: nat)
    requires IPTexts(isIP) && Run(run, ops, builtin, isIP) && Ready(run[0], isIP) && j < |ops| && ops[j].AddOp?
    ensures After(run[j], ops[j], builtin, isIP) == (run[j + 1], Fine)
  {
    RunsStayReady(run, ops, builtin, isIP, j);
    assert Stepped(run[j], ops[j], run[j + 1], builtin, isIP);
    AddKeeps(run[j], ops[j], builtin, isIP);
  }

  // ---- the operations of the manager are such operations -----------------------------------------------------

  ghost predicate AllSpacesOnly(args: seq<string>) { forall i :: 0 <= i < |args| ==> OnlySpaces(args[i]) }

  lemma SpacesOnlyConcat(a: string, b: string)
    requires OnlySpaces(a) && OnlySpaces(b)
    ensures OnlySpaces(a + b)
  {
  }

  lemma AllSpacesOnlyConcat(a: seq<string>, b: seq<string>)
    requires AllSpacesOnly(a) && AllSpacesOnly(b)
    ensures AllSpacesOnly(a + b)
  {
  }

  lemma {:induction false} JoinSpacesOnly(args: seq<string>)
    requires AllSpacesOnly(args)
    ensures OnlySpaces(Join(args, " "))
  {
    if |args| > 1 {
      JoinSpacesOnly(args[1..]);
      SpacesOnlyConcat(args[0], " ");
      SpacesOnlyConcat(args[0] + " ", Join(args[1..], " "));
    }
  }

  lemma CommentSpacesOnly(podFullName: string, pm: HS.PortMapping)
    requires OnlySpaces(podFullName)
    ensures OnlySpaces(Comment(podFullName, pm))
  {
    ItoaText(pm.hostPort);
    assert OnlySpaces("\"") && OnlySpaces(" hostport ");
  }

  lemma FlagsSpacesOnly()
    ensures forall w :: w in {"-m", "comment", "--comment", "-p", "--dport", "-j"} ==> OnlySpaces(w)
    ensures forall w :: w in {"tcp", "udp", "sctp", "-s", "-d", "DNAT"} ==> OnlySpaces(w)
    ensures OnlySpaces(KUBE_MARK_MASQ)
  {
    FlagTexts();
    TargetTexts();
    MarkText();
  }

  /** What the mapping and the pod contribute to the rules. */
  ghost predicate PlainTexts(podFullName: string, podIP: string, pm: HS.PortMapping, isIP: string -> bool) {
    && NameText(podFullName) && OnlySpaces(podFullName) && isIP(podIP) && MappingText(pm) && OnlySpaces(pm.hostIP)
  }

  lemma SnatSpacesOnly(podFullName: string, podIP: string, pm: HS.PortMapping, isIP: string -> bool)
    requires IPTexts(isIP) && PlainTexts(podFullName, podIP, pm, isIP)
    ensures OnlySpaces(Join(SnatArgs(podFullName, pm, podIP), " "))
  {
    FlagsSpacesOnly();
    CommentSpacesOnly(podFullName, pm);
    IPWord(podIP, isIP);
    JoinSpacesOnly(SnatArgs(podFullName, pm, podIP));
  }

  lemma DestinationSpacesOnly(podIP: string, port: int, isIP: string -> bool)
    requires IPTexts(isIP) && isIP(podIP)
    ensures OnlySpaces(TO_DESTINATION_EQ + JoinHostPort(podIP, port))
  {
    HostPortText(podIP, port, isIP);
    assert OnlySpaces(TO_DESTINATION_EQ);
    SpacesOnlyConcat(TO_DESTINATION_EQ, JoinHostPort(podIP, port));
  }

  lemma DnatFrontSpacesOnly(podFullName: string, pm: HS.PortMapping)
    requires OnlySpaces(podFullName) && MappingText(pm)
    ensures AllSpacesOnly(["-m", "comment", "--comment", Comment(podFullName, pm), "-m", HS.Lower(pm.protocol), "-p", HS.Lower(pm.protocol)])
  {
    FlagsSpacesOnly();
    CommentSpacesOnly(podFullName, pm);
  }

  lemma DnatSpacesOnly(podFullName: string, podIP: string, pm: HS.PortMapping, isIP: string -> bool)
    requires IPTexts(isIP) && PlainTexts(podFullName, podIP, pm, isIP)
    ensures OnlySpaces(Join(DnatArgs(podFullName, pm, podIP), " "))
  {
    var address := if pm.hostIP == "" || pm.hostIP == "0.0.0.0" || pm.hostIP == "::" then [] else ["-d", pm.hostIP];
    var front := ["-m", "comment", "--comment", Comment(podFullName, pm), "-m", HS.Lower(pm.protocol), "-p", HS.Lower(pm.protocol)];
    var back := ["-j", "DNAT", TO_DESTINATION_EQ + JoinHostPort(podIP, pm.containerPort)];
    DnatFrontSpacesOnly(podFullName, pm);
    FlagsSpacesOnly();
    DestinationSpacesOnly(podIP, pm.containerPort, isIP);
    AllSpacesOnlyConcat(front, address);
    AllSpacesOnlyConcat(front + address, back);
    JoinSpacesOnly(front + address + back);
  }

  /** The rule sets that Add writes for a pod whose name, and whose mappings' host addresses, have no white
      space but spaces are ones that a run may add. */
  lemma EmittedMayBeAdded(id: string, podFullName: string, podIP: string, pms: seq<HS.PortMapping>,
                          hash: string -> string, isIP: string -> bool)
    requires IPTexts(isIP) && HashTexts(hash) && forall pm :: pm in pms ==> PlainTexts(podFullName, podIP, pm, isIP)
    ensures forall n :: n in NewChains(id, podFullName, podIP, pms, hash) ==> NewChainOk(n, isIP) && SpacesOnly(n)
  {
    var news := NewChains(id, podFullName, podIP, pms, hash);
    forall i | 0 <= i < |pms| ensures NewChainOk(news[i], isIP) && SpacesOnly(news[i]) {
      assert pms[i] in pms && PlainTexts(podFullName, podIP, pms[i], isIP);
      NewChainIsOk(id, podFullName, podIP, pms[i], hash, isIP);
      SnatSpacesOnly(podFullName, podIP, pms[i], isIP);
      DnatSpacesOnly(podFullName, podIP, pms[i], isIP);
    }
  }
}
