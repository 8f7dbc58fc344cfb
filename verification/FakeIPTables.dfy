/** The in-repository iptables of network/hostport/fake_iptables.go: tables of chains of rules, the
    text that SaveInto writes and the interpreter of that text, restore. */
module IPTables {
  import opened Text
  import opened RuleSyntax

  type Rules = seq<string>
  type Chains = map<string, Rules>
  type Tables = map<string, Chains>

  datatype Flush = FlushTables | NoFlushTables
  datatype Position = Prepend | Append

  /** How an operation ended: it returned nil, returned an error, or panicked. */
  datatype Status = Fine | Failed | Panicked

  type Builtins = map<string, set<string>>

  const BUILTIN_CHAINS: Builtins := map[
    "filter" := {"INPUT", "FORWARD", "OUTPUT"},
    "nat" := {"PREROUTING", "INPUT", "OUTPUT", "POSTROUTING"},
    "mangle" := {"PREROUTING", "INPUT", "FORWARD", "OUTPUT", "POSTROUTING"}]

  predicate IsBuiltin(builtin: Builtins, table: string, chain: string) {
    table in builtin && chain in builtin[table]
  }

  // ---- chains and rules -----------------------------------------------------------------------------

  predicate HasChain(ts: Tables, table: string, chain: string) {
    table in ts && chain in ts[table]
  }

  function EnsureChain(ts: Tables, table: string, chain: string): (r: Tables)
    ensures HasChain(r, table, chain)
  {
    if HasChain(ts, table, chain) then ts
    else ts[table := (if table in ts then ts[table] else map[])[chain := []]]
  }

  function SetChain(ts: Tables, table: string, chain: string, rules: Rules): Tables
    requires HasChain(ts, table, chain)
  {
    ts[table := ts[table][chain := rules]]
  }

  /** A rule already in the chain is not added again. */
  function Put(position: Position, rules: Rules, rule: string): Rules {
    if rule in rules then rules else if position.Prepend? then [rule] + rules else rules + [rule]
  }

  function EnsureRule(ts: Tables, position: Position, table: string, chain: string, rule: string,
                      isIP: string -> bool): (Tables, Status) {
    var ts' := EnsureChain(ts, table, chain);
    match NormalizeRule(rule, isIP)
    case Normal(r) => (SetChain(ts', table, chain, Put(position, ts'[table][chain], r)), Fine)
    case MismatchedQuotes => (ts', Failed)
    case OutOfRange => (ts', Panicked)
  }

  // ---- the text: lines, saving, restoring ------------------------------------------------------------------

  function Unlines(lines: seq<string>): string {
    if lines == [] then "" else lines[0] + "\n" + Unlines(lines[1..])
  }

  /** The lines read up to the last newline; what follows it is dropped. */
  function ReadLines(text: string): seq<string>
    decreases |text|
  {
    var i := IndexOf(text, '\n');
    if i == |text| then [] else [text[..i]] + ReadLines(text[i + 1..])
  }

  lemma {:induction false} ReadUnlines(lines: seq<string>)
    requires forall l :: l in lines ==> '\n' !in l
    ensures ReadLines(Unlines(lines)) == lines
  {
    if lines != [] {
      var rest := Unlines(lines[1..]);
      assert Unlines(lines) == lines[0] + ['\n'] + rest;
      IndexOfFirst(lines[0], '\n', rest);
      assert Unlines(lines)[..|lines[0]|] == lines[0] && Unlines(lines)[|lines[0]| + 1..] == rest;
      ReadUnlines(lines[1..]);
    }
  }

  function Header(chain: string): string { ":" + chain + " - [0:0]" }
  function RuleLine(chain: string, rule: string): string { "-A " + chain + " " + rule }

  function RuleLines(chain: string, rules: Rules): seq<string> {
    if rules == [] then [] else [RuleLine(chain, rules[0])] + RuleLines(chain, rules[1..])
  }

  function Headers(order: seq<string>): seq<string> {
    if order == [] then [] else [Header(order[0])] + Headers(order[1..])
  }

  function AllRuleLines(cs: Chains, order: seq<string>): seq<string>
    requires forall c :: c in order ==> c in cs
  {
    if order == [] then [] else RuleLines(order[0], cs[order[0]]) + AllRuleLines(cs, order[1..])
  }

  function TableLines(table: string, inner: seq<string>): seq<string> {
    ["*" + table] + inner + ["COMMIT"]
  }

  /** What SaveInto writes when the chain map is iterated in the given order. */
  function SaveLines(table: string, cs: Chains, order: seq<string>): seq<string>
    requires forall c :: c in order ==> c in cs
  {
    TableLines(table, Headers(order) + AllRuleLines(cs, order))
  }

  /** What restore makes of a line on its own. */
  datatype Line =
    | Star(table: string) | HeaderOf(chain: string) | RuleOf(position: Position, chain: string, rule: string)
    | DeleteOf(chain: string) | Commit | Malformed | Ignored

  function Flag(position: Position): string { if position.Append? then "-A " else "-I " }

  function ParseRule(line: string, position: Position): Line {
    var parts := Split(line, ' ');
    if |parts| < 3 then Malformed
    else RuleOf(position, parts[1], TrimPrefix(line, Flag(position) + parts[1] + " "))
  }

  predicate Begins(line: string, c: char, d: char) { |line| >= 2 && line[0] == c && line[1] == d }

  /** Lines with no other meaning, comments among them, are ignored. */
  function ParseLine(line: string): Line {
    if line == "" then Ignored
    else if line[0] == '*' then Star(line[1..])
    else if line[0] == ':' then HeaderOf(Split(line[1..], ' ')[0])
    else if Begins(line, '-', 'A') then ParseRule(line, Append)
    else if Begins(line, '-', 'I') then ParseRule(line, Prepend)
    else if Begins(line, '-', 'X') then
      var parts := Split(line, ' ');
      if |parts| < 2 then Malformed else DeleteOf(parts[1])
    else if line == "COMMIT" then Commit
    else Ignored
  }

  function Parsed(lines: seq<string>): (ps: seq<Line>)
    ensures |ps| == |lines| && forall i :: 0 <= i < |ps| ==> ps[i] == ParseLine(lines[i])
  {
    if lines == [] then [] else [ParseLine(lines[0])] + Parsed(lines[1..])
  }

  /** The state of restore between lines: the tables, the table named last, and the end if reached. */
  datatype Restoring = Restoring(ts: Tables, current: string, halted: Option<Status>)

  datatype Config = Config(restoreTable: string, flush: Flush, text: string, builtin: Builtins, isIP: string -> bool)

  /** User-defined chains named in a header are flushed unless the text deletes them. */
  predicate Flushes(table: string, chain: string, cfg: Config) {
    !IsBuiltin(cfg.builtin, table, chain) && !Contains(cfg.text, "-X " + chain)
  }

  function OnHeader(rs: Restoring, chain: string, cfg: Config): Restoring {
    if cfg.flush.FlushTables? && !HasChain(rs.ts, rs.current, chain) then rs.(halted := Some(Failed))
    else
      var ts := if cfg.flush.FlushTables? then rs.ts[rs.current := rs.ts[rs.current] - {chain}] else rs.ts;
      var ts' := EnsureChain(ts, rs.current, chain);
      rs.(ts := if Flushes(rs.current, chain, cfg) then SetChain(ts', rs.current, chain, []) else ts')
  }

  function OnRule(rs: Restoring, position: Position, chain: string, rule: string, cfg: Config): Restoring {
    var (ts, status) := EnsureRule(rs.ts, position, rs.current, chain, rule, cfg.isIP);
    Restoring(ts, rs.current, if status == Fine then None else Some(status))
  }

  function OnDelete(rs: Restoring, chain: string): Restoring {
    if HasChain(rs.ts, rs.current, chain) then rs.(ts := rs.ts[rs.current := rs.ts[rs.current] - {chain}])
    else rs.(halted := Some(Failed))
  }

  function Act(before: Restoring, line: Line, cfg: Config): Restoring {
    if before.halted.Some? then before
    else
      var rs := if line.Star? then before.(current := line.table) else before;
      if rs.current == "" || (cfg.restoreTable != "" && cfg.restoreTable != rs.current) then rs
      else match line
        case HeaderOf(chain) => OnHeader(rs, chain, cfg)
        case RuleOf(position, chain, rule) => OnRule(rs, position, chain, rule, cfg)
        case DeleteOf(chain) => OnDelete(rs, chain)
        case Malformed => rs.(halted := Some(Failed))
        case Commit => if cfg.restoreTable == rs.current then rs.(halted := Some(Fine)) else rs.(current := "")
        case _ => rs
  }

  function ActAll(rs: Restoring, lines: seq<Line>, cfg: Config): Restoring
    decreases |lines|
  {
    if lines == [] then rs else ActAll(Act(rs, lines[0], cfg), lines[1..], cfg)
  }

  /** restore; with an empty table name all tables of the text are restored. */
  function Restore(ts: Tables, restoreTable: string, text: string, flush: Flush, builtin: Builtins,
                   isIP: string -> bool): (Tables, Status) {
    var rs := ActAll(Restoring(ts, "", None), Parsed(ReadLines(text)), Config(restoreTable, flush, text, builtin, isIP));
    (rs.ts, if rs.halted.Some? then rs.halted.value else Fine)
  }

  // ---- what a restore leaves alone ----------------------------------------------------------------------------

  /** Tables other than `table` are the same in both. */
  ghost predicate SameTables(a: Tables, b: Tables, table: string) {
    forall t :: t != table ==> (t in a <==> t in b) && (t in a ==> a[t] == b[t])
  }

  lemma ActIsLocal(rs: Restoring, line: Line, cfg: Config)
    requires cfg.restoreTable != ""
    ensures SameTables(Act(rs, line, cfg).ts, rs.ts, cfg.restoreTable)
  {
  }

  lemma {:induction false} ActAllIsLocal(rs: Restoring, lines: seq<Line>, cfg: Config)
    requires cfg.restoreTable != ""
    ensures SameTables(ActAll(rs, lines, cfg).ts, rs.ts, cfg.restoreTable)
    decreases |lines|
  {
    if lines != [] {
      ActIsLocal(rs, lines[0], cfg);
      ActAllIsLocal(Act(rs, lines[0], cfg), lines[1..], cfg);
    }
  }

  /** Restoring one table leaves every other table as it was, whatever the text says about them and however the
      restore ends. */
  lemma RestoreIsLocal(ts: Tables, table: string, text: string, flush: Flush, builtin: Builtins, isIP: string -> bool)
    requires table != ""
    ensures SameTables(Restore(ts, table, text, flush, builtin, isIP).0, ts, table)
  {
    ActAllIsLocal(Restoring(ts, "", None), Parsed(ReadLines(text)), Config(table, flush, text, builtin, isIP));
  }

  /** A header in a restore that flushes: it fails exactly if the chain does not exist; otherwise the chain is left
      empty, and no other chain is touched. */
  lemma FlushingHeader(rs: Restoring, chain: string, cfg: Config)
    requires rs.halted.None? && rs.current != "" && cfg.flush == FlushTables && (cfg.restoreTable == "" || cfg.restoreTable == rs.current)
    ensures var after := Act(rs, HeaderOf(chain), cfg);
      && (after.halted == Some(Failed) <==> !HasChain(rs.ts, rs.current, chain))
      && (after.halted.Some? ==> after.halted == Some(Failed) && after.ts == rs.ts)
      && (after.halted.None? ==> rs.current in rs.ts && after.ts == rs.ts[rs.current := rs.ts[rs.current][chain := []]])
  {
    if HasChain(rs.ts, rs.current, chain) {
      var cs := rs.ts[rs.current];
      var emptied := cs[chain := []];
      assert (cs - {chain})[chain := []] == emptied && emptied[chain := []] == emptied;
      var ts1 := rs.ts[rs.current := cs - {chain}];
      assert EnsureChain(ts1, rs.current, chain) == rs.ts[rs.current := emptied];
      assert rs.ts[rs.current := emptied][rs.current := emptied] == rs.ts[rs.current := emptied];
    }
  }

  // ---- how single lines act -----------------------------------------------------------------------------------

  lemma {:induction false} ActAllConcat(rs: Restoring, a: seq<Line>, b: seq<Line>, cfg: Config)
    ensures ActAll(rs, a + b, cfg) == ActAll(ActAll(rs, a, cfg), b, cfg)
    decreases |a|
  {
    if a == [] {
      assert a + b == b;
    } else {
      assert (a + b)[1..] == a[1..] + b;
      ActAllConcat(Act(rs, a[0], cfg), a[1..], b, cfg);
    }
  }

  /** Inside the lines of one table only that table's chains matter.  `ActIn` is restore, without
      flush, seen from there. */
  datatype Scope = Scope(cs: Chains, halted: Option<Status>)

  function RulesOf(cs: Chains, chain: string): Rules { if chain in cs then cs[chain] else [] }

  function ActIn(sc: Scope, line: Line, table: string, cfg: Config): Scope {
    if sc.halted.Some? then sc
    else match line
      case HeaderOf(chain) =>
        if chain in sc.cs && !Flushes(table, chain, cfg) then sc else sc.(cs := sc.cs[chain := []])
      case RuleOf(position, chain, rule) => (
        match NormalizeRule(rule, cfg.isIP)
        case Normal(r) => sc.(cs := sc.cs[chain := Put(position, RulesOf(sc.cs, chain), r)])
        case MismatchedQuotes => Scope(sc.cs[chain := RulesOf(sc.cs, chain)], Some(Failed))
        case OutOfRange => Scope(sc.cs[chain := RulesOf(sc.cs, chain)], Some(Panicked))
      )
      case DeleteOf(chain) => if chain in sc.cs then sc.(cs := sc.cs - {chain}) else sc.(halted := Some(Failed))
      case Malformed => sc.(halted := Some(Failed))
      case _ => sc
  }

  function ActInAll(sc: Scope, lines: seq<Line>, table: string, cfg: Config): Scope
    decreases |lines|
  {
    if lines == [] then sc else ActInAll(ActIn(sc, lines[0], table, cfg), lines[1..], table, cfg)
  }

  lemma {:induction false} ActInAllConcat(sc: Scope, a: seq<Line>, b: seq<Line>, table: string, cfg: Config)
    ensures ActInAll(sc, a + b, table, cfg) == ActInAll(ActInAll(sc, a, table, cfg), b, table, cfg)
    decreases |a|
  {
    if a == [] {
      assert a + b == b;
    } else {
      assert (a + b)[1..] == a[1..] + b;
      ActInAllConcat(ActIn(sc, a[0], table, cfg), a[1..], b, table, cfg);
    }
  }

  lemma EnsureChainInTable(ts: Tables, t: string, c: string, rules: Rules)
    requires t in ts
    ensures EnsureChain(ts, t, c) == ts[t := ts[t][c := RulesOf(ts[t], c)]]
    ensures SetChain(EnsureChain(ts, t, c), t, c, rules) == ts[t := ts[t][c := rules]]
  {
    assert c in ts[t] ==> ts[t][c := ts[t][c]] == ts[t];
    assert ts[t][c := RulesOf(ts[t], c)][c := rules] == ts[t][c := rules];
  }

  lemma ActStaysInScope(rs: Restoring, line: Line, cfg: Config)
    requires rs.current != "" && rs.current in rs.ts && cfg.restoreTable in {"", rs.current} && cfg.flush.NoFlushTables?
    requires !line.Star? && !line.Commit?
    ensures var sc := ActIn(Scope(rs.ts[rs.current], rs.halted), line, rs.current, cfg);
      Act(rs, line, cfg) == Restoring(rs.ts[rs.current := sc.cs], rs.current, sc.halted)
  {
    var t := rs.current;
    assert rs.ts[t := rs.ts[t]] == rs.ts;
    if rs.halted.None? && line.HeaderOf? {
      EnsureChainInTable(rs.ts, t, line.chain, []);
      assert line.chain in rs.ts[t] ==> rs.ts[t][line.chain := rs.ts[t][line.chain]] == rs.ts[t];
    } else if rs.halted.None? && line.RuleOf? {
      var n := NormalizeRule(line.rule, cfg.isIP);
      var rules := RulesOf(rs.ts[t], line.chain);
      EnsureChainInTable(rs.ts, t, line.chain, if n.Normal? then Put(line.position, rules, n.rule) else []);
    }
  }

  lemma {:induction false} ActAllStaysInScope(rs: Restoring, lines: seq<Line>, cfg: Config)
    requires rs.current != "" && rs.current in rs.ts && cfg.restoreTable in {"", rs.current} && cfg.flush.NoFlushTables?
    requires forall l :: l in lines ==> !l.Star? && !l.Commit?
    ensures var sc := ActInAll(Scope(rs.ts[rs.current], rs.halted), lines, rs.current, cfg);
      ActAll(rs, lines, cfg) == Restoring(rs.ts[rs.current := sc.cs], rs.current, sc.halted)
    decreases |lines|
  {
    var t := rs.current;
    if lines == [] {
      assert rs.ts[t := rs.ts[t]] == rs.ts;
    } else {
      ActStaysInScope(rs, lines[0], cfg);
      var one := Act(rs, lines[0], cfg);
      ActAllStaysInScope(one, lines[1..], cfg);
    }
  }

  /** A text with the lines of one table acts on that table alone, through `ActInAll`. */
  lemma OneTableText(ts: Tables, table: string, body: seq<Line>, cfg: Config)
    requires table != "" && table in ts && cfg.restoreTable in {"", table} && cfg.flush.NoFlushTables?
    requires forall l :: l in body ==> !l.Star? && !l.Commit?
    ensures var sc := ActInAll(Scope(ts[table], None), body, table, cfg);
      var rs := ActAll(Restoring(ts, "", None), [Star(table)] + body + [Commit], cfg);
      && rs.ts == ts[table := sc.cs]
      && (if rs.halted.Some? then rs.halted.value else Fine) == (if sc.halted.Some? then sc.halted.value else Fine)
  {
    var rs0, rs1 := Restoring(ts, "", None), Restoring(ts, table, None);
    ActAllConcat(rs0, [Star(table)] + body, [Commit], cfg);
    ActAllConcat(rs0, [Star(table)], body, cfg);
    assert ActAll(rs0, [Star(table)], cfg) == rs1;
    ActAllStaysInScope(rs1, body, cfg);
    var rs2 := ActAll(rs1, body, cfg);
    assert ActAll(rs2, [Commit], cfg) == Act(rs2, Commit, cfg);
  }

  lemma HeaderParses(chain: string)
    requires ' ' !in chain
    ensures ParseLine(Header(chain)) == HeaderOf(chain)
  {
    var line := Header(chain);
    assert line[0] == ':' && line[1..] == chain + [' '] + "- [0:0]";
    SplitHead(chain, ' ', "- [0:0]");
  }

  lemma SplitTwoWords(a: string, b: string, rest: string)
    requires ' ' !in a && ' ' !in b
    ensures var parts := Split(a + " " + b + " " + rest, ' '); |parts| >= 3 && parts[1] == b
  {
    assert a + " " + b + " " + rest == a + [' '] + (b + [' '] + rest);
    SplitHead(a, ' ', b + [' '] + rest);
    SplitHead(b, ' ', rest);
  }

  lemma TrimOwnPrefix(prefix: string, rest: string)
    ensures TrimPrefix(prefix + rest, prefix) == rest
  {
  }

  lemma RuleParses(position: Position, chain: string, rule: string)
    requires ' ' !in chain
    ensures ParseLine(Flag(position) + chain + " " + rule) == RuleOf(position, chain, rule)
  {
    var flag, line := Flag(position), Flag(position) + chain + " " + rule;
    var word := flag[..2];
    assert line == word + " " + chain + " " + rule by { assert flag == word + " "; }
    SplitTwoWords(word, chain, rule);
    TrimOwnPrefix(flag + chain + " ", rule);
    assert line[0] == flag[0] && line[1] == flag[1];
  }

  lemma DeleteParses(chain: string)
    requires ' ' !in chain
    ensures ParseLine("-X " + chain) == DeleteOf(chain)
  {
    var line := "-X " + chain;
    assert line == "-X" + [' '] + chain;
    assert line[..2] == "-X";
    SplitHead("-X", ' ', chain);
    IndexOfFirst(chain, ' ', "");
    assert Split(chain, ' ') == [chain];
  }

  // ---- well-formed chains --------------------------------------------------------------------------------------

  ghost predicate ChainName(c: string) { ' ' !in c && '\n' !in c }

  /** What ensureRule keeps of a chain: rules in normal form, each once. */
  ghost predicate RulesOk(rules: Rules, isIP: string -> bool) {
    && (forall r :: r in rules ==> FixedRule(r, isIP) && '\n' !in r)
    && (forall i, j :: 0 <= i < j < |rules| ==> rules[i] != rules[j])
  }

  ghost predicate ChainsOk(cs: Chains, isIP: string -> bool) {
    forall c :: c in cs ==> ChainName(c) && RulesOk(cs[c], isIP)
  }

  /** Rules with no white space but spaces keep chains well-formed, so every table built from such
      rules is well-formed. */
  lemma EnsureRuleKeepsChains(cs: Chains, position: Position, chain: string, rule: string, isIP: string -> bool)
    requires IPTexts(isIP) && ChainsOk(cs, isIP) && ChainName(chain) && OnlySpaces(rule)
    requires NormalizeRule(rule, isIP).Normal?
    ensures ChainsOk(cs[chain := Put(position, if chain in cs then cs[chain] else [], NormalizeRule(rule, isIP).rule)], isIP)
  {
    var n := NormalizeRule(rule, isIP).rule;
    NormalizeIsIdempotent(rule, isIP);
    NormalHasNoNewline(rule, isIP);
    var rules := if chain in cs then cs[chain] else [];
    assert RulesOk(rules, isIP);
    assert RulesOk(Put(position, rules, n), isIP);
  }

  lemma NormalHasNoNewline(rule: string, isIP: string -> bool)
    requires IPTexts(isIP) && OnlySpaces(rule) && NormalizeRule(rule, isIP).Normal?
    ensures '\n' !in NormalizeRule(rule, isIP).rule
  {
    TrimSpaceKeeps(rule);
    CanonicalKeepsSpaces(TrimSpace(rule), "", isIP);
    assert IsSpace('\n');
  }

  lemma CanonicalOnlySpaces(arg: string, isIP: string -> bool)
    requires OnlySpaces(arg)
    ensures OnlySpaces(Canonical(arg, isIP))
  {
    assert OnlySpaces(arg + "/32");
    TrimSpaceKeeps(if isIP(arg) then arg + "/32" else arg);
  }

  lemma {:induction false} CanonicalKeepsSpaces(s: string, acc: string, isIP: string -> bool)
    requires OnlySpaces(s) && OnlySpaces(acc) && NormalizeFrom(s, acc, isIP).Normal?
    ensures OnlySpaces(NormalizeFrom(s, acc, isIP).rule)
    decreases |s|
  {
    UnfoldKeeps(s);
    var u := Unfold(s);
    var end := ArgEnd(u).value;
    NormalizeStep(s, acc, isIP);
    CanonicalOnlySpaces(u[..end], isIP);
    var written := (if acc == "" then "" else acc + " ") + Canonical(u[..end], isIP);
    assert OnlySpaces(written);
    if end < |u| {
      CanonicalKeepsSpaces(u[end + 1..], written, isIP);
    }
  }

  // ---- restoring what was saved changes nothing -------------------------------------------------------------------

  function HeaderOps(order: seq<string>): (ps: seq<Line>)
    ensures |ps| == |order| && forall i :: 0 <= i < |ps| ==> ps[i] == HeaderOf(order[i])
  {
    if order == [] then [] else [HeaderOf(order[0])] + HeaderOps(order[1..])
  }

  function RuleOps(chain: string, rules: Rules): (ps: seq<Line>)
    ensures |ps| == |rules| && forall i :: 0 <= i < |ps| ==> ps[i] == RuleOf(Append, chain, rules[i])
  {
    if rules == [] then [] else [RuleOf(Append, chain, rules[0])] + RuleOps(chain, rules[1..])
  }

  function AllRuleOps(cs: Chains, order: seq<string>): seq<Line>
    requires forall c :: c in order ==> c in cs
  {
    if order == [] then [] else RuleOps(order[0], cs[order[0]]) + AllRuleOps(cs, order[1..])
  }

  lemma {:induction false} HeadersParse(order: seq<string>)
    requires forall c :: c in order ==> ' ' !in c
    ensures Parsed(Headers(order)) == HeaderOps(order)
  {
    if order != [] { HeaderParses(order[0]); HeadersParse(order[1..]); }
  }

  lemma {:induction false} RuleLinesParse(chain: string, rules: Rules)
    requires ' ' !in chain
    ensures Parsed(RuleLines(chain, rules)) == RuleOps(chain, rules)
  {
    if rules != [] {
      RuleParses(Append, chain, rules[0]);
      RuleLinesParse(chain, rules[1..]);
    }
  }

  lemma ParsedConcat(a: seq<string>, b: seq<string>)
    ensures Parsed(a + b) == Parsed(a) + Parsed(b)
  {
  }

  lemma {:induction false} AllRuleLinesParse(cs: Chains, order: seq<string>)
    requires forall c :: c in order ==> c in cs && ' ' !in c
    ensures Parsed(AllRuleLines(cs, order)) == AllRuleOps(cs, order)
  {
    if order != [] {
      RuleLinesParse(order[0], cs[order[0]]);
      AllRuleLinesParse(cs, order[1..]);
      ParsedConcat(RuleLines(order[0], cs[order[0]]), AllRuleLines(cs, order[1..]));
    }
  }

  lemma TableParses(table: string, inner: seq<string>)
    ensures Parsed(TableLines(table, inner)) == [Star(table)] + Parsed(inner) + [Commit]
  {
  }

  lemma SaveParses(table: string, cs: Chains, order: seq<string>)
    requires forall c :: c in order ==> c in cs && ' ' !in c
    ensures Parsed(SaveLines(table, cs, order)) == [Star(table)] + (HeaderOps(order) + AllRuleOps(cs, order)) + [Commit]
  {
    HeadersParse(order);
    AllRuleLinesParse(cs, order);
    ParsedConcat(Headers(order), AllRuleLines(cs, order));
    TableParses(table, Headers(order) + AllRuleLines(cs, order));
  }

  /** The chains after those in `flushed` have been emptied. */
  ghost function Emptied(cs: Chains, flushed: set<string>): Chains {
    map c | c in cs :: if c in flushed then [] else cs[c]
  }

  ghost function FlushSet(table: string, order: seq<string>, cfg: Config): set<string> {
    set c | c in order && Flushes(table, c, cfg)
  }

  lemma {:induction false} HeadersAct(cs: Chains, order: seq<string>, table: string, cfg: Config)
    requires forall c :: c in order ==> c in cs
    ensures ActInAll(Scope(cs, None), HeaderOps(order), table, cfg) == Scope(Emptied(cs, FlushSet(table, order, cfg)), None)
    decreases |order|
  {
    if order == [] {
      assert Emptied(cs, FlushSet(table, order, cfg)) == cs;
    } else {
      var first := FlushSet(table, [order[0]], cfg);
      var one := Emptied(cs, first);
      assert ActIn(Scope(cs, None), HeaderOf(order[0]), table, cfg).cs == one;
      HeadersAct(one, order[1..], table, cfg);
      assert FlushSet(table, order, cfg) == first + FlushSet(table, order[1..], cfg);
      EmptiedTwice(cs, first, FlushSet(table, order[1..], cfg));
    }
  }

  lemma EmptiedTwice(cs: Chains, a: set<string>, b: set<string>)
    ensures Emptied(Emptied(cs, a), b) == Emptied(cs, a + b)
  {
  }

  function AppendMissing(have: Rules, rules: Rules): Rules
    decreases |rules|
  {
    if rules == [] then have else AppendMissing(Put(Append, have, rules[0]), rules[1..])
  }

  lemma {:induction false} AppendMissingToNone(have: Rules, rules: Rules)
    requires forall i, j :: 0 <= i < j < |rules| ==> rules[i] != rules[j]
    requires forall r :: r in rules ==> r !in have
    ensures AppendMissing(have, rules) == have + rules
    decreases |rules|
  {
    if rules != [] {
      AppendMissingToNone(have + [rules[0]], rules[1..]);
      assert have + [rules[0]] + rules[1..] == have + rules;
    }
  }

  lemma {:induction false} AppendMissingToAll(have: Rules, rules: Rules)
    requires forall r :: r in rules ==> r in have
    ensures AppendMissing(have, rules) == have
    decreases |rules|
  {
    if rules != [] { AppendMissingToAll(have, rules[1..]); }
  }

  /** Rule lines of one chain append the missing rules to it. */
  lemma {:induction false} RuleLinesAct(cs: Chains, chain: string, rules: Rules, table: string, cfg: Config)
    requires chain in cs && forall r :: r in rules ==> FixedRule(r, cfg.isIP)
    ensures ActInAll(Scope(cs, None), RuleOps(chain, rules), table, cfg) ==
            Scope(cs[chain := AppendMissing(cs[chain], rules)], None)
    decreases |rules|
  {
    if rules == [] {
      assert cs[chain := cs[chain]] == cs;
    } else {
      var one := cs[chain := Put(Append, cs[chain], rules[0])];
      assert FixedRule(rules[0], cfg.isIP);
      RuleLinesAct(one, chain, rules[1..], table, cfg);
    }
  }

  lemma ChainRefills(cs: Chains, c: string, rules: Rules, table: string, cfg: Config)
    requires c in cs && RulesOk(rules, cfg.isIP) && (cs[c] == [] || cs[c] == rules)
    ensures ActInAll(Scope(cs, None), RuleOps(c, rules), table, cfg) == Scope(cs[c := rules], None)
  {
    RuleLinesAct(cs, c, rules, table, cfg);
    if cs[c] == [] {
      AppendMissingToNone([], rules);
    } else {
      AppendMissingToAll(rules, rules);
    }
    assert [] + rules == rules;
  }

  ghost function Refill(now: Chains, cs: Chains, order: seq<string>): Chains
    requires forall c :: c in order ==> c in cs
  {
    map c | c in now :: if c in order then cs[c] else now[c]
  }

  lemma {:induction false} AllRuleLinesAct(now: Chains, cs: Chains, order: seq<string>, table: string, cfg: Config)
    requires ChainsOk(cs, cfg.isIP)
    requires forall c :: c in order ==> c in cs && c in now && (now[c] == [] || now[c] == cs[c])
    ensures ActInAll(Scope(now, None), AllRuleOps(cs, order), table, cfg) == Scope(Refill(now, cs, order), None)
    decreases |order|
  {
    if order == [] {
      assert Refill(now, cs, order) == now;
    } else {
      var c := order[0];
      ChainRefills(now, c, cs[c], table, cfg);
      var one := now[c := cs[c]];
      ActInAllConcat(Scope(now, None), RuleOps(c, cs[c]), AllRuleOps(cs, order[1..]), table, cfg);
      AllRuleLinesAct(one, cs, order[1..], table, cfg);
      assert Refill(one, cs, order[1..]) == Refill(now, cs, order);
    }
  }

  lemma {:induction false} RuleLinesHaveNoNewline(chain: string, rules: Rules)
    requires ChainName(chain) && forall r :: r in rules ==> '\n' !in r
    ensures forall l :: l in RuleLines(chain, rules) ==> '\n' !in l
  {
    if rules != [] { RuleLinesHaveNoNewline(chain, rules[1..]); }
  }

  lemma {:induction false} SaveHasNoNewline(cs: Chains, order: seq<string>, isIP: string -> bool)
    requires ChainsOk(cs, isIP) && forall c :: c in order ==> c in cs
    ensures forall l :: l in Headers(order) ==> '\n' !in l
    ensures forall l :: l in AllRuleLines(cs, order) ==> '\n' !in l
    decreases |order|
  {
    if order != [] {
      assert RulesOk(cs[order[0]], isIP) && ChainName(order[0]);
      RuleLinesHaveNoNewline(order[0], cs[order[0]]);
      SaveHasNoNewline(cs, order[1..], isIP);
    }
  }

  /** Save then restore without flush is the identity, whatever the order in which the chains were
      written and whatever other tables there are. */
  lemma RestoreOfSaveIsIdentity(ts: Tables, table: string, order: seq<string>, restoreTable: string,
                                builtin: Builtins, isIP: string -> bool)
    requires table in ts && table != "" && '\n' !in table && restoreTable in {"", table}
    requires IPTexts(isIP) && ChainsOk(ts[table], isIP)
    requires forall c :: c in order <==> c in ts[table]
    ensures Restore(ts, restoreTable, Unlines(SaveLines(table, ts[table], order)), NoFlushTables, builtin, isIP) == (ts, Fine)
  {
    var cs := ts[table];
    var body := HeaderOps(order) + AllRuleOps(cs, order);
    SaveIsOneTable(table, cs, order, isIP);
    RestoreOneTable(ts, table, SaveLines(table, cs, order), body, restoreTable, builtin, isIP);
    EmptyAndRefill(cs, order, table, Config(restoreTable, NoFlushTables, Unlines(SaveLines(table, cs, order)), builtin, isIP));
    assert ts[table := cs] == ts;
  }

  /** Restoring the lines of one table, in terms of their parsed form. */
  lemma RestoreOneTable(ts: Tables, table: string, lines: seq<string>, body: seq<Line>, restoreTable: string,
                        builtin: Builtins, isIP: string -> bool)
    requires table in ts && table != "" && restoreTable in {"", table} && OneTable(lines, table, body)
    ensures var sc := ActInAll(Scope(ts[table], None), body, table,
                               Config(restoreTable, NoFlushTables, Unlines(lines), builtin, isIP));
      Restore(ts, restoreTable, Unlines(lines), NoFlushTables, builtin, isIP) ==
        (ts[table := sc.cs], if sc.halted.Some? then sc.halted.value else Fine)
  {
    ReadUnlines(lines);
    OneTableText(ts, table, body, Config(restoreTable, NoFlushTables, Unlines(lines), builtin, isIP));
  }

  /** The lines are those of one table, and `body` is what its inner lines mean. */
  ghost predicate OneTable(lines: seq<string>, table: string, body: seq<Line>) {
    && (forall l :: l in lines ==> '\n' !in l)
    && (forall l :: l in body ==> !l.Star? && !l.Commit?)
    && Parsed(lines) == [Star(table)] + body + [Commit]
  }

  lemma SaveLinesHaveNoNewline(table: string, cs: Chains, order: seq<string>, isIP: string -> bool)
    requires '\n' !in table && ChainsOk(cs, isIP) && forall c :: c in order ==> c in cs
    ensures forall l :: l in SaveLines(table, cs, order) ==> '\n' !in l
  {
    SaveHasNoNewline(cs, order, isIP);
    assert '\n' !in "*" + table && '\n' !in "COMMIT";
  }

  lemma SaveIsOneTable(table: string, cs: Chains, order: seq<string>, isIP: string -> bool)
    requires '\n' !in table && ChainsOk(cs, isIP) && forall c :: c in order ==> c in cs
    ensures OneTable(SaveLines(table, cs, order), table, HeaderOps(order) + AllRuleOps(cs, order))
  {
    SaveLinesHaveNoNewline(table, cs, order, isIP);
    AllRuleOpsAreRules(cs, order);
    assert forall c :: c in order ==> ' ' !in c by { assert forall c :: c in cs ==> ChainName(c); }
    SaveParses(table, cs, order);
  }

  lemma {:induction false} AllRuleOpsAreRules(cs: Chains, order: seq<string>)
    requires forall c :: c in order ==> c in cs
    ensures forall l :: l in AllRuleOps(cs, order) ==> l.RuleOf?
  {
    if order != [] { AllRuleOpsAreRules(cs, order[1..]); }
  }

  lemma RefillEmptied(cs: Chains, flushed: set<string>, order: seq<string>, table: string, cfg: Config)
    requires ChainsOk(cs, cfg.isIP) && forall c :: c in order <==> c in cs
    ensures ActInAll(Scope(Emptied(cs, flushed), None), AllRuleOps(cs, order), table, cfg) == Scope(cs, None)
  {
    var emptied := Emptied(cs, flushed);
    AllRuleLinesAct(emptied, cs, order, table, cfg);
    assert Refill(emptied, cs, order) == cs;
  }

  lemma EmptyAndRefill(cs: Chains, order: seq<string>, table: string, cfg: Config)
    requires ChainsOk(cs, cfg.isIP) && forall c :: c in order <==> c in cs
    ensures ActInAll(Scope(cs, None), HeaderOps(order) + AllRuleOps(cs, order), table, cfg) == Scope(cs, None)
  {
    ActInAllConcat(Scope(cs, None), HeaderOps(order), AllRuleOps(cs, order), table, cfg);
    HeadersAct(cs, order, table, cfg);
    RefillEmptied(cs, FlushSet(table, order, cfg), order, table, cfg);
  }

  // ---- the object ---------------------------------------------------------------------------------------------

  class FakeIPTables {
    var tables: Tables
    const builtinChains: Builtins
    const isIP: string -> bool

    constructor (isIP: string -> bool)
      ensures tables == map[] && builtinChains == BUILTIN_CHAINS && this.isIP == isIP
    {
      tables, builtinChains, this.isIP := map[], BUILTIN_CHAINS, isIP;
    }

    method AddChain(table: string, chain: string) returns (existed: bool)
      modifies this
      ensures existed == old(HasChain(tables, table, chain)) && tables == old(EnsureChain(tables, table, chain))
    {
      existed := table in tables && chain in tables[table];
      if !existed {
        if table !in tables {
          tables := tables[table := map[]];
        }
        tables := tables[table := tables[table][chain := []]];
      }
    }

    method AddRule(position: Position, table: string, chain: string, rule: string) returns (status: Status)
      modifies this
      ensures (tables, status) == old(EnsureRule(tables, position, table, chain, rule, isIP))
    {
      var existed := AddChain(table, chain);
      var n := Normalize(rule, isIP);
      if n.MismatchedQuotes? { return Failed; }
      if n.OutOfRange? { return Panicked; }
      var rules := tables[table][chain];
      if n.rule !in rules {
        rules := if position.Prepend? then [n.rule] + rules else rules + [n.rule];
      }
      tables := tables[table := tables[table][chain := rules]];
      status := Fine;
    }

    method DeleteChain(table: string, chain: string) returns (ok: bool)
      modifies this
      ensures ok == old(HasChain(tables, table, chain))
      ensures tables == if ok then old(tables)[table := old(tables)[table] - {chain}] else old(tables)
    {
      ok := table in tables && chain in tables[table];
      if ok {
        tables := tables[table := tables[table] - {chain}];
      }
    }

    method ReadHeader(current: string, chain: string, flush: Flush, ghost restoreTable: string, text: string) returns (ok: bool)
      modifies this
      ensures var rs := OnHeader(Restoring(old(tables), current, None), chain, Config(restoreTable, flush, text, builtinChains, isIP));
        tables == rs.ts && rs.halted == if ok then None else Some(Failed)
    {
      if flush.FlushTables? {
        ok := DeleteChain(current, chain);
        if !ok { return; }
      }
      var existed := AddChain(current, chain);
      if !(current in builtinChains && chain in builtinChains[current]) && !Contains(text, "-X " + chain) {
        tables := tables[current := tables[current][chain := []]];
      }
      ok := true;
    }

    method RestoreText(restoreTable: string, text: string, flush: Flush) returns (status: Status)
      modifies this
      ensures (tables, status) == old(Restore(tables, restoreTable, text, flush, builtinChains, isIP))
    {
      ghost var cfg := Config(restoreTable, flush, text, builtinChains, isIP);
      var lines := ReadLines(text);
      ghost var all := Parsed(lines);
      var current := "";
      status := Fine;
      for i := 0 to |lines|
        invariant status == Fine
        invariant ActAll(Restoring(tables, current, None), all[i..], cfg) == ActAll(Restoring(old(tables), "", None), all, cfg)
      {
        var line := ParseLine(lines[i]);
        assert all[i..] == [line] + all[i + 1..];
        if line.Star? {
          current := line.table;
        }
        if current != "" && !(restoreTable != "" && restoreTable != current) {
          match line {
            case HeaderOf(chain) =>
              var ok := ReadHeader(current, chain, flush, restoreTable, text);
              if !ok { status := Failed; }
            case RuleOf(position, chain, rule) => status := AddRule(position, current, chain, rule);
            case DeleteOf(chain) =>
              var ok := DeleteChain(current, chain);
              if !ok { status := Failed; }
            case Malformed => status := Failed;
            case Commit =>
              if restoreTable == current {
                HaltedStays(Restoring(tables, current, Some(Fine)), all[i + 1..], cfg);
                return Fine;
              }
              current := "";
            case _ =>
          }
          if status != Fine {
            HaltedStays(Restoring(tables, current, Some(status)), all[i + 1..], cfg);
            return;
          }
        }
      }
    }

    /** SaveInto, with the order in which the chain map happens to be iterated; None is the error for a
        table that does not exist. */
    method SaveText(table: string, order: seq<string>) returns (text: Option<string>)
      requires table in tables ==> forall c :: c in order ==> c in tables[table]
      ensures text == if table in tables then Some(Unlines(SaveLines(table, tables[table], order))) else None
    {
      if table !in tables { return None; }
      var cs := tables[table];
      var headers: seq<string>, rules: seq<string> := [], [];
      for i := 0 to |order|
        invariant headers == Headers(order[..i]) && rules == AllRuleLines(cs, order[..i])
      {
        assert order[..i + 1] == order[..i] + [order[i]];
        HeadersSnoc(order[..i], order[i]);
        AllRuleLinesSnoc(cs, order[..i], order[i]);
        headers := headers + [Header(order[i])];
        rules := rules + RuleLines(order[i], cs[order[i]]);
      }
      assert order[..|order|] == order;
      text := Some(Unlines(["*" + table] + (headers + rules) + ["COMMIT"]));
    }
  }

  lemma {:induction false} HaltedStays(rs: Restoring, lines: seq<Line>, cfg: Config)
    requires rs.halted.Some?
    ensures ActAll(rs, lines, cfg) == rs
    decreases |lines|
  {
    if lines != [] { HaltedStays(rs, lines[1..], cfg); }
  }

  lemma {:induction false} HeadersSnoc(order: seq<string>, c: string)
    ensures Headers(order + [c]) == Headers(order) + [Header(c)]
  {
    if order != [] {
      assert (order + [c])[1..] == order[1..] + [c];
      HeadersSnoc(order[1..], c);
    }
  }

  lemma {:induction false} AllRuleLinesSnoc(cs: Chains, order: seq<string>, c: string)
    requires c in cs && forall d :: d in order ==> d in cs
    ensures AllRuleLines(cs, order + [c]) == AllRuleLines(cs, order) + RuleLines(c, cs[c])
  {
    if order == [] {
      assert order + [c] == [c] && [c][1..] == [];
    } else {
      assert (order + [c])[1..] == order[1..] + [c];
      AllRuleLinesSnoc(cs, order[1..], c);
    }
  }
}
