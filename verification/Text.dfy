/** The string operations the modelled code takes from Go's strings and strconv packages. */
module Text {

  datatype Option<+T> = None | Some(value: T)

  // ---- prefixes and substrings -----------------------------------------------------------------

  predicate HasPrefix(s: string, prefix: string) {
    |prefix| <= |s| && s[..|prefix|] == prefix
  }

  function TrimPrefix(s: string, prefix: string): string {
    if HasPrefix(s, prefix) then s[|prefix|..] else s
  }

  predicate At(s: string, sub: string, i: nat) {
    i + |sub| <= |s| && s[i..i + |sub|] == sub
  }

  predicate Contains(s: string, sub: string) {
    exists i :: 0 <= i <= |s| && At(s, sub, i)
  }

  lemma ContainsInMiddle(before: string, sub: string, after: string)
    ensures Contains(before + sub + after, sub)
  {
    assert At(before + sub + after, sub, |before|);
  }

  lemma ContainsExtends(before: string, s: string, after: string, sub: string)
    requires Contains(s, sub)
    ensures Contains(before + s + after, sub)
  {
    var i :| 0 <= i <= |s| && At(s, sub, i);
    assert At(before + s + after, sub, |before| + i);
  }

  // ---- split and join ---------------------------------------------------------------------------

  /** The index of the first `c` in `s`, or |s|. */
  function IndexOf(s: string, c: char): (i: nat)
    ensures i <= |s| && c !in s[..i] && (i < |s| ==> s[i] == c)
  {
    if s == "" || s[0] == c then 0 else
      var i := IndexOf(s[1..], c);
      assert s[..i + 1] == [s[0]] + s[1..][..i];
      i + 1
  }

  lemma IndexOfFirst(before: string, c: char, after: string)
    requires c !in before
    ensures IndexOf(before + [c] + after, c) == |before|
    ensures IndexOf(before, c) == |before|
  {
    var s := before + [c] + after;
    var i := IndexOf(s, c);
    assert s[|before|] == c;
  }

  /** strings.Split with a one-character separator. */
  function Split(s: string, sep: char): (parts: seq<string>)
    ensures |parts| > 0
    decreases |s|
  {
    var i := IndexOf(s, sep);
    if i == |s| then [s] else [s[..i]] + Split(s[i + 1..], sep)
  }

  /** strings.Join. */
  function Join(parts: seq<string>, sep: string): string {
    if parts == [] then "" else if |parts| == 1 then parts[0] else parts[0] + sep + Join(parts[1..], sep)
  }

  lemma {:induction false} SplitJoin(parts: seq<string>, sep: char)
    requires |parts| > 0 && forall p :: p in parts ==> sep !in p
    ensures Split(Join(parts, [sep]), sep) == parts
  {
    var s := Join(parts, [sep]);
    if |parts| == 1 {
      IndexOfFirst(parts[0], sep, "");
    } else {
      var rest := Join(parts[1..], [sep]);
      assert s == parts[0] + [sep] + rest;
      IndexOfFirst(parts[0], sep, rest);
      assert s[..|parts[0]|] == parts[0] && s[|parts[0]| + 1..] == rest;
      SplitJoin(parts[1..], sep);
    }
  }

  lemma Regroup(s: string, i: nat, sep: string, rest: string)
    requires |sep| == 1 && i < |s| && s[i] == sep[0]
    ensures s == s[..i] + sep + s[i + 1..]
    ensures s + sep + rest == s[..i] + sep + (s[i + 1..] + sep + rest)
  {
  }

  lemma ConsConcat(a: string, b: seq<string>, c: seq<string>)
    ensures [a] + (b + c) == ([a] + b) + c
  {
  }

  lemma SplitFirst(s: string, sep: char)
    ensures Split(s, sep)[0] == s[..IndexOf(s, sep)]
  {
  }

  /** A separator cuts a text in two that are split apart. */
  lemma {:induction false} SplitConcat(first: string, sep: char, rest: string)
    ensures Split(first + [sep] + rest, sep) == Split(first, sep) + Split(rest, sep)
    decreases |first|
  {
    var i := IndexOf(first, sep);
    if i == |first| {
      SplitFree(first, sep, rest);
    } else {
      var tail := first[i + 1..];
      Regroup(first, i, [sep], rest);
      SplitFree(first[..i], sep, tail + [sep] + rest);
      SplitConcat(tail, sep, rest);
      SplitFree(first[..i], sep, tail);
      ConsConcat(first[..i], Split(tail, sep), Split(rest, sep));
    }
  }

  lemma SplitFree(first: string, sep: char, rest: string)
    requires sep !in first
    ensures Split(first, sep) == [first]
    ensures Split(first + [sep] + rest, sep) == [first] + Split(rest, sep)
  {
    var s := first + [sep] + rest;
    IndexOfFirst(first, sep, rest);
    assert s[..|first|] == first && s[|first| + 1..] == rest;
  }

  /** Splitting a text that begins with `first + sep` yields `first`, cut at its own separator. */
  lemma SplitHead(first: string, sep: char, rest: string)
    ensures Split(first + [sep] + rest, sep)[0] == first[..IndexOf(first, sep)]
    ensures sep !in first ==> Split(first + [sep] + rest, sep) == [first] + Split(rest, sep)
  {
    SplitConcat(first, sep, rest);
    SplitFirst(first, sep);
    if sep !in first {
      SplitFree(first, sep, rest);
    }
  }

  /** All parts, split. */
  function Pieces(parts: seq<string>, sep: char): seq<string> {
    if parts == [] then [] else Split(parts[0], sep) + Pieces(parts[1..], sep)
  }

  lemma {:induction false} SplitOfJoin(parts: seq<string>, sep: char)
    requires parts != []
    ensures Split(Join(parts, [sep]), sep) == Pieces(parts, sep)
  {
    if |parts| == 1 {
      assert parts[1..] == [];
    } else {
      SplitOfJoin(parts[1..], sep);
      SplitConcat(parts[0], sep, Join(parts[1..], [sep]));
    }
  }

  /** A text splits into itself exactly if it has no separator; every piece has none. */
  lemma {:induction false} SplitPieces(s: string, sep: char)
    ensures |Split(s, sep)| == 1 <==> sep !in s
    ensures |Split(s, sep)| == 1 ==> Split(s, sep) == [s]
    ensures forall p :: p in Split(s, sep) ==> sep !in p
    decreases |s|
  {
    var i := IndexOf(s, sep);
    if i < |s| {
      assert s[i] in s;
      SplitPieces(s[i + 1..], sep);
    } else {
      assert s[..i] == s;
    }
  }

  // ---- decimal ------------------------------------------------------------------------------------

  predicate IsDigit(c: char) { '0' <= c <= '9' }

  function Digit(d: nat): (c: char)
    requires d < 10
    ensures IsDigit(c) && (c as int) - ('0' as int) == d
  {
    ('0' as int + d) as char
  }

  /** fmt.Sprintf("%d") of an unsigned number. */
  function Decimal(n: nat): (s: string)
    ensures |s| > 0 && forall c :: c in s ==> IsDigit(c)
  {
    if n < 10 then [Digit(n)] else Decimal(n / 10) + [Digit(n % 10)]
  }

  function Value(s: string): nat
    requires forall c :: c in s ==> IsDigit(c)
  {
    if s == "" then 0
    else
      var c := s[|s| - 1];
      assert IsDigit(c);
      Value(s[..|s| - 1]) * 10 + (c as int - '0' as int)
  }

  /** strconv.ParseUint in base 10: digits only, at least one, at most `max`. */
  function ParseUint(s: string, max: nat): Option<nat> {
    if s == "" || exists c :: c in s && !IsDigit(c) then None
    else if Value(s) <= max then Some(Value(s)) else None
  }

  lemma {:induction false} ValueOfDecimal(n: nat)
    ensures Value(Decimal(n)) == n
  {
    if n < 10 {
      assert Decimal(n)[..0] == "";
    } else {
      ValueOfDecimal(n / 10);
      var s := Decimal(n);
      assert s[..|s| - 1] == Decimal(n / 10);
    }
  }

  lemma ParseDecimal(n: nat, max: nat)
    ensures ParseUint(Decimal(n), max) == if n <= max then Some(n) else None
  {
    ValueOfDecimal(n);
  }

  /** strconv.Itoa. */
  function Itoa(n: int): string {
    if n < 0 then "-" + Decimal(-n) else Decimal(n)
  }

  lemma DecimalInjective(m: nat, n: nat)
    requires Decimal(m) == Decimal(n)
    ensures m == n
  {
    ValueOfDecimal(m);
    ValueOfDecimal(n);
  }

  lemma ItoaSign(n: int)
    ensures Itoa(n) != "" && (Itoa(n)[0] == '-' <==> n < 0)
    ensures n < 0 ==> Itoa(n)[1..] == Decimal(-n)
  {
    assert n >= 0 ==> IsDigit(Itoa(n)[0]);
  }

  lemma ItoaInjective(m: int, n: int)
    ensures Itoa(m) == Itoa(n) <==> m == n
  {
    if Itoa(m) == Itoa(n) {
      ItoaSign(m);
      ItoaSign(n);
      if m < 0 {
        DecimalInjective(-m, -n);
      } else {
        DecimalInjective(m, n);
      }
    }
  }
}
