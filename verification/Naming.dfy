/** The codec between CRI metadata and Docker container names, core/naming.go. */
module Naming {
  import opened Text

  type Uint32 = n: nat | n < 0x1_0000_0000

  datatype PodMetadata = PodMetadata(name: string, namespace: string, uid: string, attempt: Uint32)
  datatype ContainerMetadata = ContainerMetadata(name: string, attempt: Uint32)

  const KUBE_PREFIX := "k8s"
  const SANDBOX_CONTAINER_NAME := "POD"
  const NAME_DELIMITER := '_'
  const MAX_UINT32 := 0xffff_ffff

  function NameOf(container: string, pod: PodMetadata, attempt: Uint32): string {
    Join(Parts(container, pod, attempt), [NAME_DELIMITER])
  }

  function Parts(container: string, pod: PodMetadata, attempt: Uint32): seq<string> {
    [KUBE_PREFIX, container, pod.name, pod.namespace, pod.uid, Decimal(attempt)]
  }

  function MakeSandboxName(pod: PodMetadata): string { NameOf(SANDBOX_CONTAINER_NAME, pod, pod.attempt) }

  function MakeContainerName(pod: PodMetadata, c: ContainerMetadata): string { NameOf(c.name, pod, c.attempt) }

  function HexDigit(d: nat): (c: char)
    requires d < 16
    ensures c != NAME_DELIMITER
  {
    if d < 10 then ('0' as int + d) as char else ('a' as int + d - 10) as char
  }

  /** The last `width` hexadecimal digits of `n`, zero-padded. */
  function Hex(n: nat, width: nat): (s: string)
    ensures NAME_DELIMITER !in s && |s| == width
  {
    if width == 0 then "" else Hex(n / 16, width - 1) + [HexDigit(n % 16)]
  }

  function Power16(width: nat): nat { if width == 0 then 1 else 16 * Power16(width - 1) }

  lemma PowerIs(width: nat)
    requires width == 8
    ensures Power16(width) == 0x1_0000_0000
  {
    assert Power16(4) == 0x1_0000;
    assert Power16(8) == 16 * (16 * (16 * (16 * Power16(4))));
  }

  /** Hexadecimal digits determine the numbers that fit into them. */
  lemma {:induction false} HexInjective(m: nat, n: nat, width: nat)
    requires m < Power16(width) && n < Power16(width) && Hex(m, width) == Hex(n, width)
    ensures m == n
    decreases width
  {
    if width > 0 {
      var s, t := Hex(m, width), Hex(n, width);
      assert s[..width - 1] == Hex(m / 16, width - 1) && t[..width - 1] == Hex(n / 16, width - 1);
      assert s[width - 1] == HexDigit(m % 16) && t[width - 1] == HexDigit(n % 16);
      HexInjective(m / 16, n / 16, width - 1);
    }
  }

  /** `random` is the number that was drawn. */
  function RandomizeName(name: string, random: Uint32): string { Join([name, Hex(random, 8)], [NAME_DELIMITER]) }

  /** The parts of a name of this shim, with the attempt. */
  function ParseName(name: string): Option<(seq<string>, Uint32)> {
    var parts := Split(TrimPrefix(name, "/"), NAME_DELIMITER);
    if |parts| != 6 && |parts| != 7 then None
    else if parts[0] != KUBE_PREFIX then None
    else
      match ParseUint(parts[5], MAX_UINT32)
      case None => None
      case Some(attempt) => ParseUintBounded(parts[5], MAX_UINT32); Some((parts, attempt))
  }

  lemma ParseUintBounded(s: string, max: nat)
    ensures ParseUint(s, max).Some? ==> ParseUint(s, max).value <= max
  {
  }

  function ParseSandboxName(name: string): Option<PodMetadata> {
    match ParseName(name)
    case None => None
    case Some((parts, attempt)) =>
      if |parts| < 6 then None else Some(PodMetadata(parts[2], parts[3], parts[4], attempt))
  }

  function ParseContainerName(name: string): Option<ContainerMetadata> {
    match ParseName(name)
    case None => None
    case Some((parts, attempt)) => if |parts| < 6 then None else Some(ContainerMetadata(parts[1], attempt))
  }

  // ---- the names Docker may report for what was made ------------------------------------------------------

  predicate DelimiterFree(pod: PodMetadata) {
    NAME_DELIMITER !in pod.name && NAME_DELIMITER !in pod.namespace && NAME_DELIMITER !in pod.uid
  }

  /** Docker reports a name with or without a leading slash, and the shim may have appended a random
      suffix before the container was created. */
  function Reported(name: string, slash: bool, random: Option<Uint32>): string {
    var made := if random.Some? then RandomizeName(name, random.value) else name;
    if slash then "/" + made else made
  }

  function ReportedParts(parts: seq<string>, random: Option<Uint32>): seq<string> {
    if random.Some? then parts + [Hex(random.value, 8)] else parts
  }

  lemma {:induction false} JoinAppend(parts: seq<string>, last: string, sep: string)
    requires parts != []
    ensures Join(parts + [last], sep) == Join([Join(parts, sep), last], sep)
  {
    if |parts| == 1 {
      assert parts + [last] == [parts[0], last];
      assert Join([parts[0], last], sep) == parts[0] + sep + Join([last], sep);
    } else {
      JoinAppend(parts[1..], last, sep);
      assert (parts + [last])[1..] == parts[1..] + [last];
      var rest := Join(parts[1..], sep);
      assert Join([rest, last], sep) == rest + sep + last by { assert [rest, last][1..] == [last]; }
      var whole := Join(parts, sep);
      assert Join([whole, last], sep) == whole + sep + last by { assert [whole, last][1..] == [last]; }
    }
  }

  lemma DecimalIsDelimiterFree(n: nat)
    ensures NAME_DELIMITER !in Decimal(n)
  {
  }

  lemma ReportedJoins(container: string, pod: PodMetadata, attempt: Uint32, slash: bool, random: Option<Uint32>)
    ensures TrimPrefix(Reported(NameOf(container, pod, attempt), slash, random), "/")
         == Join(ReportedParts(Parts(container, pod, attempt), random), [NAME_DELIMITER])
  {
    var parts := Parts(container, pod, attempt);
    var made := Join(ReportedParts(parts, random), [NAME_DELIMITER]);
    if random.Some? {
      JoinAppend(parts, Hex(random.value, 8), [NAME_DELIMITER]);
    }
    assert made[0] == KUBE_PREFIX[0];
    assert ("/" + made)[1..] == made;
  }

  /** What the parsers see of a made name. */
  lemma ReportedSplits(container: string, pod: PodMetadata, attempt: Uint32, slash: bool, random: Option<Uint32>)
    requires DelimiterFree(pod) && NAME_DELIMITER !in container
    ensures Split(TrimPrefix(Reported(NameOf(container, pod, attempt), slash, random), "/"), NAME_DELIMITER)
         == ReportedParts(Parts(container, pod, attempt), random)
  {
    ReportedJoins(container, pod, attempt, slash, random);
    DecimalIsDelimiterFree(attempt);
    SplitJoin(ReportedParts(Parts(container, pod, attempt), random), NAME_DELIMITER);
  }

  /** The fields of a made name, in their order. */
  lemma MadeNameFields(container: string, pod: PodMetadata, attempt: Uint32)
    requires DelimiterFree(pod) && NAME_DELIMITER !in container
    ensures Split(NameOf(container, pod, attempt), '_') == ["k8s", container, pod.name, pod.namespace, pod.uid, Decimal(attempt)]
  {
    DecimalIsDelimiterFree(attempt);
    SplitJoin(Parts(container, pod, attempt), NAME_DELIMITER);
  }

  /** What the parsers see of any made name, delimiters in the fields or not. */
  lemma ReportedPieces(container: string, pod: PodMetadata, attempt: Uint32, slash: bool, random: Option<Uint32>)
    ensures Split(TrimPrefix(Reported(NameOf(container, pod, attempt), slash, random), "/"), NAME_DELIMITER)
         == Around(Split(container, NAME_DELIMITER), Split(pod.name, NAME_DELIMITER), Split(pod.namespace, NAME_DELIMITER),
                   Split(pod.uid, NAME_DELIMITER), [Decimal(attempt)] + Suffix(random))
  {
    ReportedJoins(container, pod, attempt, slash, random);
    var parts := ReportedParts(Parts(container, pod, attempt), random);
    SplitOfJoin(parts, NAME_DELIMITER);
    FieldPieces(container, pod, attempt, random);
  }

  function Suffix(random: Option<Uint32>): seq<string> { if random.Some? then [Hex(random.value, 8)] else [] }

  function Around(c: seq<string>, n: seq<string>, s: seq<string>, u: seq<string>, end: seq<string>): seq<string> {
    [KUBE_PREFIX] + (c + (n + (s + (u + end))))
  }

  lemma FieldPieces(container: string, pod: PodMetadata, attempt: Uint32, random: Option<Uint32>)
    ensures Pieces(ReportedParts(Parts(container, pod, attempt), random), NAME_DELIMITER)
         == Around(Split(container, NAME_DELIMITER), Split(pod.name, NAME_DELIMITER), Split(pod.namespace, NAME_DELIMITER),
                   Split(pod.uid, NAME_DELIMITER), [Decimal(attempt)] + Suffix(random))
  {
    var d := Decimal(attempt);
    var parts := ReportedParts(Parts(container, pod, attempt), random);
    assert parts == [KUBE_PREFIX] + ([container] + ([pod.name] + ([pod.namespace] + ([pod.uid] + ([d] + Suffix(random))))));
    EndPieces(attempt, random);
    SplitPieces(KUBE_PREFIX, NAME_DELIMITER);
    assert NAME_DELIMITER !in KUBE_PREFIX;
    PiecesCons(pod.uid, [d] + Suffix(random));
    PiecesCons(pod.namespace, [pod.uid] + ([d] + Suffix(random)));
    PiecesCons(pod.name, [pod.namespace] + ([pod.uid] + ([d] + Suffix(random))));
    PiecesCons(container, [pod.name] + ([pod.namespace] + ([pod.uid] + ([d] + Suffix(random)))));
    PiecesCons(KUBE_PREFIX, [container] + ([pod.name] + ([pod.namespace] + ([pod.uid] + ([d] + Suffix(random))))));
  }

  lemma PiecesCons(part: string, rest: seq<string>)
    ensures Pieces([part] + rest, NAME_DELIMITER) == Split(part, NAME_DELIMITER) + Pieces(rest, NAME_DELIMITER)
  {
    assert ([part] + rest)[1..] == rest;
  }

  lemma EndPieces(attempt: Uint32, random: Option<Uint32>)
    ensures Pieces([Decimal(attempt)] + Suffix(random), NAME_DELIMITER) == [Decimal(attempt)] + Suffix(random)
  {
    PiecesCons(Decimal(attempt), Suffix(random));
    DecimalIsDelimiterFree(attempt);
    SplitPieces(Decimal(attempt), NAME_DELIMITER);
    if random.Some? {
      var h := Hex(random.value, 8);
      PiecesCons(h, []);
      assert [h] + [] == [h];
      SplitPieces(h, NAME_DELIMITER);
    }
  }

  /** A uid that leaves the fields before it in place: none or, where no suffix follows, one delimiter, with
      a 32-bit decimal behind it that is taken for the attempt. */
  predicate UidReadable(uid: string, random: Option<Uint32>) {
    var u := Split(uid, NAME_DELIMITER);
    |u| == 1 || (|u| == 2 && random.None? && ParseUint(u[1], MAX_UINT32).Some?)
  }

  ghost predicate Finds(m: Option<PodMetadata>, pod: PodMetadata) {
    m.Some? && m.value.name == pod.name && m.value.namespace == pod.namespace
  }

  /** What the sandbox parser finds in parts of this shape. */
  lemma ShapeFinds(n: seq<string>, s: seq<string>, u: seq<string>, end: seq<string>, pod: PodMetadata)
    requires n == Split(pod.name, NAME_DELIMITER) && s == Split(pod.namespace, NAME_DELIMITER) && |u| > 0
    requires 1 <= |end| <= 2 && ParseUint(end[0], MAX_UINT32).Some?
    ensures var parts := Around([SANDBOX_CONTAINER_NAME], n, s, u, end);
      (|parts| == 6 || |parts| == 7) && ParseUint(parts[5], MAX_UINT32).Some? && parts[2] == pod.name && parts[3] == pod.namespace
      <==> |n| == 1 && |s| == 1 && (|u| == 1 || (|u| == 2 && |end| == 1 && ParseUint(u[1], MAX_UINT32).Some?))
  {
    SplitPieces(pod.name, NAME_DELIMITER);
    SplitPieces(pod.namespace, NAME_DELIMITER);
    var parts := Around([SANDBOX_CONTAINER_NAME], n, s, u, end);
    assert |parts| == 2 + |n| + |s| + |u| + |end|;
    assert parts[2] == n[0];
    if |n| == 1 {
      assert parts[3] == s[0];
      if |s| == 1 && |u| <= 2 {
        assert parts[5] == (u + end)[1];
      }
    }
  }

  /** What the sandbox parser finds, by the parts of the name. */
  lemma FindsIff(name: string, parts: seq<string>, pod: PodMetadata)
    requires parts == Split(TrimPrefix(name, "/"), NAME_DELIMITER) && parts[0] == KUBE_PREFIX
    ensures Finds(ParseSandboxName(name), pod) <==>
            (|parts| == 6 || |parts| == 7) && ParseUint(parts[5], MAX_UINT32).Some? && parts[2] == pod.name && parts[3] == pod.namespace
  {
  }

  lemma SandboxParts(pod: PodMetadata, slash: bool, random: Option<Uint32>)
    ensures Split(TrimPrefix(Reported(MakeSandboxName(pod), slash, random), "/"), NAME_DELIMITER)
         == Around([SANDBOX_CONTAINER_NAME], Split(pod.name, NAME_DELIMITER), Split(pod.namespace, NAME_DELIMITER),
                   Split(pod.uid, NAME_DELIMITER), [Decimal(pod.attempt)] + Suffix(random))
  {
    ReportedPieces(SANDBOX_CONTAINER_NAME, pod, pod.attempt, slash, random);
    assert NAME_DELIMITER !in SANDBOX_CONTAINER_NAME;
    SplitPieces(SANDBOX_CONTAINER_NAME, NAME_DELIMITER);
  }

  /** The namespace and name of a made sandbox name are found exactly if they have no delimiter and the uid is
      readable. */
  lemma SandboxIdentityIff(pod: PodMetadata, slash: bool, random: Option<Uint32>)
    ensures Finds(ParseSandboxName(Reported(MakeSandboxName(pod), slash, random)), pod) <==>
            NAME_DELIMITER !in pod.name && NAME_DELIMITER !in pod.namespace && UidReadable(pod.uid, random)
  {
    var n, s, u := Split(pod.name, NAME_DELIMITER), Split(pod.namespace, NAME_DELIMITER), Split(pod.uid, NAME_DELIMITER);
    var end := [Decimal(pod.attempt)] + Suffix(random);
    SandboxParts(pod, slash, random);
    FindsIff(Reported(MakeSandboxName(pod), slash, random), Around([SANDBOX_CONTAINER_NAME], n, s, u, end), pod);
    assert |n| == 1 <==> NAME_DELIMITER !in pod.name by { SplitPieces(pod.name, NAME_DELIMITER); }
    assert |s| == 1 <==> NAME_DELIMITER !in pod.namespace by { SplitPieces(pod.namespace, NAME_DELIMITER); }
    assert ParseUint(end[0], MAX_UINT32).Some? by { ParseDecimal(pod.attempt, MAX_UINT32); }
    ShapeFinds(n, s, u, end, pod);
  }

  /** Parsing a made sandbox name, with or without the slash and the random suffix, gives the metadata
      back exactly if no field contains the delimiter. */
  lemma SandboxNameRoundTrip(pod: PodMetadata, slash: bool, random: Option<Uint32>)
    ensures ParseSandboxName(Reported(MakeSandboxName(pod), slash, random)) == Some(pod) <==> DelimiterFree(pod)
  {
    var name := Reported(MakeSandboxName(pod), slash, random);
    SplitPieces(TrimPrefix(name, "/"), NAME_DELIMITER);
    if DelimiterFree(pod) {
      ReportedSplits(SANDBOX_CONTAINER_NAME, pod, pod.attempt, slash, random);
      ParseDecimal(pod.attempt, MAX_UINT32);
    }
  }

  /** The part that stands where the attempt is looked for: the attempt itself, or, with one delimiter too
      many and no suffix, the end of the uid. */
  predicate AttemptReadable(pod: PodMetadata, attempt: Uint32, random: Option<Uint32>) {
    var n, s, u := Split(pod.name, NAME_DELIMITER), Split(pod.namespace, NAME_DELIMITER), Split(pod.uid, NAME_DELIMITER);
    || DelimiterFree(pod)
    || (|n| + |s| + |u| == 4 && random.None? && ParseUint(u[|u| - 1], MAX_UINT32) == Some(attempt))
  }

  lemma ShapeYields(c: seq<string>, name: string, n: seq<string>, s: seq<string>, u: seq<string>, end: seq<string>, attempt: Uint32)
    requires c == Split(name, NAME_DELIMITER) && |n| > 0 && |s| > 0 && |u| > 0
    requires 1 <= |end| <= 2 && ParseUint(end[0], MAX_UINT32) == Some(attempt)
    ensures var parts := Around(c, n, s, u, end);
      (|parts| == 6 || |parts| == 7) && ParseUint(parts[5], MAX_UINT32) == Some(attempt) && parts[1] == name
      <==> |c| == 1 && (|n| + |s| + |u| == 3 ||
                        (|n| + |s| + |u| == 4 && |end| == 1 && ParseUint(u[|u| - 1], MAX_UINT32) == Some(attempt)))
  {
    SplitPieces(name, NAME_DELIMITER);
    var parts := Around(c, n, s, u, end);
    assert |parts| == 1 + |c| + |n| + |s| + |u| + |end|;
    assert parts[1] == c[0];
    if |c| == 1 {
      assert |parts| >= 5 + |end|;
      if |n| + |s| + |u| == 3 {
        assert parts[5] == end[0];
      } else if |n| + |s| + |u| == 4 {
        assert parts[5] == u[|u| - 1];
      }
    }
  }

  /** When the container parser gives a name and an attempt. */
  lemma ParseContainerIff(name: string, c: ContainerMetadata)
    ensures var parts := Split(TrimPrefix(name, "/"), NAME_DELIMITER);
      ParseContainerName(name) == Some(c) <==>
      (|parts| == 6 || |parts| == 7) && parts[0] == KUBE_PREFIX && ParseUint(parts[5], MAX_UINT32) == Some(c.attempt) && parts[1] == c.name
  {
  }

  lemma AttemptReadableIff(pod: PodMetadata, attempt: Uint32, random: Option<Uint32>)
    ensures var n, s, u := Split(pod.name, NAME_DELIMITER), Split(pod.namespace, NAME_DELIMITER), Split(pod.uid, NAME_DELIMITER);
      AttemptReadable(pod, attempt, random) <==>
      (|n| + |s| + |u| == 3 || (|n| + |s| + |u| == 4 && random.None? && ParseUint(u[|u| - 1], MAX_UINT32) == Some(attempt)))
  {
    SplitPieces(pod.name, NAME_DELIMITER);
    SplitPieces(pod.namespace, NAME_DELIMITER);
    SplitPieces(pod.uid, NAME_DELIMITER);
  }

  /** Parsing a made container name gives name and attempt back exactly if the container's name has no
      delimiter and the attempt is readable. */
  lemma ContainerNameRoundTrip(pod: PodMetadata, c: ContainerMetadata, slash: bool, random: Option<Uint32>)
    ensures ParseContainerName(Reported(MakeContainerName(pod, c), slash, random)) == Some(c) <==>
            NAME_DELIMITER !in c.name && AttemptReadable(pod, c.attempt, random)
  {
    var n, s, u := Split(pod.name, NAME_DELIMITER), Split(pod.namespace, NAME_DELIMITER), Split(pod.uid, NAME_DELIMITER);
    ReportedPieces(c.name, pod, c.attempt, slash, random);
    ContainerFound(Reported(MakeContainerName(pod, c), slash, random), c, n, s, u, [Decimal(c.attempt)] + Suffix(random));
    AttemptReadableIff(pod, c.attempt, random);
  }

  lemma ContainerFound(name: string, c: ContainerMetadata, n: seq<string>, s: seq<string>, u: seq<string>, end: seq<string>)
    requires |n| > 0 && |s| > 0 && |u| > 0 && 1 <= |end| <= 2 && end[0] == Decimal(c.attempt)
    requires Split(TrimPrefix(name, "/"), NAME_DELIMITER) == Around(Split(c.name, NAME_DELIMITER), n, s, u, end)
    ensures ParseContainerName(name) == Some(c) <==>
      NAME_DELIMITER !in c.name &&
      (|n| + |s| + |u| == 3 || (|n| + |s| + |u| == 4 && |end| == 1 && ParseUint(u[|u| - 1], MAX_UINT32) == Some(c.attempt)))
  {
    ParseContainerIff(name, c);
    ParseDecimal(c.attempt, MAX_UINT32);
    SplitPieces(c.name, NAME_DELIMITER);
    ShapeYields(Split(c.name, NAME_DELIMITER), c.name, n, s, u, end, c.attempt);
  }

  /** Every made name, randomized or not, determines the parts it was made of. */
  lemma NamesAreInjective(c1: string, pod1: PodMetadata, a1: Uint32, r1: Option<Uint32>,
                          c2: string, pod2: PodMetadata, a2: Uint32, r2: Option<Uint32>)
    requires DelimiterFree(pod1) && NAME_DELIMITER !in c1 && DelimiterFree(pod2) && NAME_DELIMITER !in c2
    requires Reported(NameOf(c1, pod1, a1), false, r1) == Reported(NameOf(c2, pod2, a2), false, r2)
    ensures c1 == c2 && pod1.(attempt := 0) == pod2.(attempt := 0) && a1 == a2 && r1 == r2
  {
    ReportedSplits(c1, pod1, a1, false, r1);
    ReportedSplits(c2, pod2, a2, false, r2);
    var p1 := ReportedParts(Parts(c1, pod1, a1), r1);
    var p2 := ReportedParts(Parts(c2, pod2, a2), r2);
    assert p1[1] == p2[1] && p1[2] == p2[2] && p1[3] == p2[3] && p1[4] == p2[4] && p1[5] == p2[5];
    if r1.Some? {
      assert p1[6] == p2[6];
      PowerIs(8);
      HexInjective(r1.value, r2.value, 8);
    }
    ParseDecimal(a1, MAX_UINT32);
    ParseDecimal(a2, MAX_UINT32);
  }

  /** Two sandboxes have the same name exactly if they have the same metadata. */
  lemma SandboxNamesIdentify(pod1: PodMetadata, pod2: PodMetadata)
    requires DelimiterFree(pod1) && DelimiterFree(pod2)
    ensures MakeSandboxName(pod1) == MakeSandboxName(pod2) <==> pod1 == pod2
  {
    if MakeSandboxName(pod1) == MakeSandboxName(pod2) {
      NamesAreInjective(SANDBOX_CONTAINER_NAME, pod1, pod1.attempt, None, SANDBOX_CONTAINER_NAME, pod2, pod2.attempt, None);
    }
  }

  /** A container's name is the name of a sandbox exactly if the container is called POD and shares the
      sandbox's identity and attempt. */
  lemma ContainerNameIsSandboxNameIff(pod: PodMetadata, c: ContainerMetadata, sandbox: PodMetadata)
    requires DelimiterFree(pod) && DelimiterFree(sandbox) && NAME_DELIMITER !in c.name
    ensures MakeContainerName(pod, c) == MakeSandboxName(sandbox) <==>
            c.name == SANDBOX_CONTAINER_NAME && pod.(attempt := c.attempt) == sandbox
  {
    assert NAME_DELIMITER !in SANDBOX_CONTAINER_NAME;
    if MakeContainerName(pod, c) == MakeSandboxName(sandbox) {
      NamesAreInjective(c.name, pod, c.attempt, None, SANDBOX_CONTAINER_NAME, sandbox, sandbox.attempt, None);
    }
  }

  /** With the delimiter inside a field, two pods can share a name. */
  lemma DelimiterConfusesPods()
    ensures var p := PodMetadata("a_b", "c", "d", 0); var q := PodMetadata("a", "b_c", "d", 0);
      p != q && MakeSandboxName(p) == MakeSandboxName(q)
  {
    var p, q := PodMetadata("a_b", "c", "d", 0), PodMetadata("a", "b_c", "d", 0);
    assert p.name != q.name by { assert |p.name| != |q.name|; }
    FieldsJoin(p);
    FieldsJoin(q);
  }

  lemma FieldsJoin(pod: PodMetadata)
    ensures MakeSandboxName(pod)
         == "k8s_POD_" + (pod.name + "_" + pod.namespace) + "_" + pod.uid + "_" + Decimal(pod.attempt)
  {
    var parts := Parts(SANDBOX_CONTAINER_NAME, pod, pod.attempt);
    assert parts[1..][1..] == parts[2..] && parts[2..][1..] == parts[3..] && parts[3..][1..] == parts[4..];
    assert parts[4..][1..] == [Decimal(pod.attempt)];
    assert Join(parts[4..], "_") == pod.uid + "_" + Decimal(pod.attempt);
    assert Join(parts[3..], "_") == pod.namespace + "_" + Join(parts[4..], "_");
    assert Join(parts[2..], "_") == pod.name + "_" + Join(parts[3..], "_");
    assert Join(parts[1..], "_") == "POD" + "_" + Join(parts[2..], "_");
    assert Join(parts, "_") == "k8s" + "_" + Join(parts[1..], "_");
    assert "k8s" + "_" + ("POD" + "_") == "k8s_POD_";
  }
}
