/** Aggregated errors, utils/errors/errors.go. */
module Errors {
  import opened Text

  /** An error is nil, a single error, or an aggregate; None stands for nil. */
  datatype Error = Leaf(message: string, tag: int) | Aggregate(errors: seq<Error>)

  /** Aggregates come from NewAggregate only, so none is empty. */
  predicate Built(e: Error)
    decreases e
  {
    e.Aggregate? ==> e.errors != [] && forall i :: 0 <= i < |e.errors| ==> Built(e.errors[i])
  }

  predicate AllBuilt(es: seq<Error>) { forall i :: 0 <= i < |es| ==> Built(es[i]) }

  /** The single errors, from left to right. */
  function Leaves(e: Error): seq<Error>
    decreases e
  {
    match e
    case Leaf(_, _) => [e]
    case Aggregate(es) => LeavesOf(es)
  }

  function LeavesOf(es: seq<Error>): seq<Error>
    decreases es
  {
    if es == [] then [] else Leaves(es[0]) + LeavesOf(es[1..])
  }

  function LeavesOfOption(e: Option<Error>): seq<Error> { if e.Some? then Leaves(e.value) else [] }

  // ---- construction ------------------------------------------------------------------------------------------

  function NonNil(es: seq<Option<Error>>): seq<Error> {
    if es == [] then [] else (if es[0].Some? then [es[0].value] else []) + NonNil(es[1..])
  }

  function Wrap(es: seq<Error>): Option<Error> { if es == [] then None else Some(Aggregate(es)) }

  lemma {:induction false} NonNilAppend(es: seq<Option<Error>>, e: Option<Error>)
    ensures NonNil(es + [e]) == NonNil(es) + if e.Some? then [e.value] else []
  {
    if es == [] {
      assert [] + [e] == [e];
    } else {
      NonNilAppend(es[1..], e);
      assert (es + [e])[1..] == es[1..] + [e];
    }
  }

  method NewAggregate(list: seq<Option<Error>>) returns (r: Option<Error>)
    ensures r == Wrap(NonNil(list))
    ensures r.None? <==> forall i :: 0 <= i < |list| ==> list[i].None?
  {
    var errs: seq<Error> := [];
    for i := 0 to |list|
      invariant errs == NonNil(list[..i])
      invariant errs == [] <==> forall k :: 0 <= k < i ==> list[k].None?
    {
      NonNilAppend(list[..i], list[i]);
      assert list[..i + 1] == list[..i] + [list[i]];
      if list[i].Some? {
        errs := errs + [list[i].value];
      }
    }
    assert list[..|list|] == list;
    r := if errs == [] then None else Some(Aggregate(errs));
  }

  // ---- visiting ------------------------------------------------------------------------------------------------

  /** The depth-first visit, which stops at the first error that `f` accepts. */
  function Visit(es: seq<Error>, f: Error -> bool): bool
    decreases es
  {
    if es == [] then false
    else if (match es[0] case Leaf(_, _) => f(es[0]) case Aggregate(inner) => Visit(inner, f)) then true
    else Visit(es[1..], f)
  }

  /** Is holds exactly if some single error, at whatever depth, is the target. */
  lemma {:induction false} VisitFindsALeaf(es: seq<Error>, f: Error -> bool)
    ensures Visit(es, f) <==> exists l :: l in LeavesOf(es) && f(l)
    decreases es
  {
    if es != [] {
      VisitFindsALeaf(es[1..], f);
      if es[0].Aggregate? {
        VisitFindsALeaf(es[0].errors, f);
      } else {
        assert es[0] in LeavesOf(es);
      }
      assert forall l :: l in LeavesOf(es) <==> l in Leaves(es[0]) || l in LeavesOf(es[1..]);
    }
  }

  // ---- filtering -------------------------------------------------------------------------------------------------

  predicate Matches(e: Error, fns: seq<Error -> bool>) { exists i :: 0 <= i < |fns| && fns[i](e) }

  function FilterOut(e: Error, fns: seq<Error -> bool>): Option<Error>
    decreases e
  {
    match e
    case Leaf(_, _) => if Matches(e, fns) then None else Some(e)
    case Aggregate(es) => Wrap(FilterErrors(es, fns))
  }

  function FilterErrors(es: seq<Error>, fns: seq<Error -> bool>): seq<Error>
    decreases es
  {
    if es == [] then []
    else
      var r := FilterOut(es[0], fns);
      (if r.Some? then [r.value] else []) + FilterErrors(es[1..], fns)
  }

  function Unmatched(ls: seq<Error>, fns: seq<Error -> bool>): seq<Error> {
    if ls == [] then [] else (if Matches(ls[0], fns) then [] else [ls[0]]) + Unmatched(ls[1..], fns)
  }

  lemma Assoc(a: seq<Error>, b: seq<Error>, c: seq<Error>)
    ensures (a + b) + c == a + (b + c)
  {
  }

  lemma {:induction false} UnmatchedConcat(a: seq<Error>, b: seq<Error>, fns: seq<Error -> bool>)
    ensures Unmatched(a + b, fns) == Unmatched(a, fns) + Unmatched(b, fns)
  {
    if a == [] {
      assert a + b == b;
    } else {
      UnmatchedConcat(a[1..], b, fns);
      assert (a + b)[1..] == a[1..] + b;
      Assoc(if Matches(a[0], fns) then [] else [a[0]], Unmatched(a[1..], fns), Unmatched(b, fns));
    }
  }

  lemma {:induction false} LeavesExist(e: Error)
    requires Built(e)
    ensures Leaves(e) != []
    decreases e
  {
    if e.Aggregate? {
      LeavesExist(e.errors[0]);
    }
  }

  /** FilterOut keeps exactly the single errors that no matcher accepts, in their order, builds no empty
      aggregate, and returns nil exactly if none remains. */
  lemma {:induction false} FilterOutKeepsUnmatched(e: Error, fns: seq<Error -> bool>)
    requires Built(e)
    ensures LeavesOfOption(FilterOut(e, fns)) == Unmatched(Leaves(e), fns)
    ensures FilterOut(e, fns).Some? ==> Built(FilterOut(e, fns).value)
    ensures FilterOut(e, fns).None? <==> forall l :: l in Leaves(e) ==> Matches(l, fns)
    decreases e
  {
    if e.Aggregate? {
      FilterErrorsKeepsUnmatched(e.errors, fns);
    } else {
      assert [e][1..] == [];
    }
    if FilterOut(e, fns).Some? {
      LeavesExist(FilterOut(e, fns).value);
    }
    UnmatchedEmptyIff(Leaves(e), fns);
  }

  lemma {:induction false} FilterErrorsKeepsUnmatched(es: seq<Error>, fns: seq<Error -> bool>)
    requires AllBuilt(es)
    ensures LeavesOf(FilterErrors(es, fns)) == Unmatched(LeavesOf(es), fns)
    ensures AllBuilt(FilterErrors(es, fns))
    decreases es
  {
    if es != [] {
      FilterOutKeepsUnmatched(es[0], fns);
      FilterErrorsKeepsUnmatched(es[1..], fns);
      UnmatchedConcat(Leaves(es[0]), LeavesOf(es[1..]), fns);
      var r, rest := FilterOut(es[0], fns), FilterErrors(es[1..], fns);
      if r.Some? {
        assert ([r.value] + rest)[1..] == rest;
      } else {
        assert [] + rest == rest;
      }
    }
  }

  lemma {:induction false} UnmatchedEmptyIff(ls: seq<Error>, fns: seq<Error -> bool>)
    ensures Unmatched(ls, fns) == [] <==> forall l :: l in ls ==> Matches(l, fns)
  {
    if ls != [] {
      UnmatchedEmptyIff(ls[1..], fns);
      assert forall l :: l in ls <==> l == ls[0] || l in ls[1..];
    }
  }

  /** Filtering does not flatten: where nothing matches, the error keeps its nesting. */
  lemma {:induction false} FilterOutKeepsNesting(e: Error, fns: seq<Error -> bool>)
    requires Built(e) && forall l :: l in Leaves(e) ==> !Matches(l, fns)
    ensures FilterOut(e, fns) == Some(e)
    decreases e
  {
    if e.Aggregate? {
      FilterErrorsKeepsNesting(e.errors, fns);
    }
  }

  lemma {:induction false} FilterErrorsKeepsNesting(es: seq<Error>, fns: seq<Error -> bool>)
    requires AllBuilt(es) && forall l :: l in LeavesOf(es) ==> !Matches(l, fns)
    ensures FilterErrors(es, fns) == es
    decreases es
  {
    if es != [] {
      FilterOutKeepsNesting(es[0], fns);
      FilterErrorsKeepsNesting(es[1..], fns);
    }
  }

  /** What filtering leaves is flat exactly if every nested aggregate is filtered out whole: an aggregate of
      which anything remains stays an aggregate. */
  lemma {:induction false} FilterErrorsIsFlatIff(es: seq<Error>, fns: seq<Error -> bool>)
    requires AllBuilt(es)
    ensures (forall r :: r in FilterErrors(es, fns) ==> r.Leaf?) <==>
            forall i :: 0 <= i < |es| && es[i].Aggregate? ==> AllMatch(Leaves(es[i]), fns)
    decreases es
  {
    if es != [] {
      var r, rest := FilterOut(es[0], fns), FilterErrors(es[1..], fns);
      FilterErrorsIsFlatIff(es[1..], fns);
      FilterOutKeepsUnmatched(es[0], fns);
      assert forall e :: e in FilterErrors(es, fns) <==> (r.Some? && e == r.value) || e in rest;
      assert forall i :: 0 <= i < |es[1..]| ==> es[1..][i] == es[i + 1];
      assert (forall i :: 0 <= i < |es| && es[i].Aggregate? ==> AllMatch(Leaves(es[i]), fns)) <==>
             (es[0].Aggregate? ==> AllMatch(Leaves(es[0]), fns)) &&
             forall i :: 0 <= i < |es[1..]| && es[1..][i].Aggregate? ==> AllMatch(Leaves(es[1..][i]), fns) by {
        assert forall i :: 0 < i < |es| ==> es[i] == es[1..][i - 1];
      }
    }
  }

  ghost predicate AllMatch(ls: seq<Error>, fns: seq<Error -> bool>) { forall l :: l in ls ==> Matches(l, fns) }

  // ---- flattening --------------------------------------------------------------------------------------------------

  /** Flatten of an aggregate's errors. */
  function FlattenErrors(es: seq<Error>): seq<Error>
    decreases es
  {
    if es == [] then []
    else
      (match es[0]
       case Leaf(_, _) => [es[0]]
       case Aggregate(inner) => FlattenErrors(inner)) + FlattenErrors(es[1..])
  }

  function Flatten(e: Option<Error>): Option<Error>
    requires e.Some? ==> e.value.Aggregate?
  {
    if e.None? then None else Wrap(FlattenErrors(e.value.errors))
  }

  lemma {:induction false} FlattenErrorsAreLeaves(es: seq<Error>)
    ensures FlattenErrors(es) == LeavesOf(es)
    ensures forall l :: l in LeavesOf(es) ==> l.Leaf?
    ensures LeavesOf(LeavesOf(es)) == LeavesOf(es)
    decreases es
  {
    if es != [] {
      FlattenErrorsAreLeaves(es[1..]);
      if es[0].Aggregate? {
        FlattenErrorsAreLeaves(es[0].errors);
      }
      assert forall l :: l in LeavesOf(es) ==> l in Leaves(es[0]) || l in LeavesOf(es[1..]);
      LeavesOfLeaves(LeavesOf(es));
    }
  }

  lemma {:induction false} LeavesOfLeaves(ls: seq<Error>)
    requires forall l :: l in ls ==> l.Leaf?
    ensures LeavesOf(ls) == ls
  {
    if ls != [] {
      LeavesOfLeaves(ls[1..]);
    }
  }

  /** Flatten keeps every single error, in order, at depth one. */
  lemma FlattenKeepsLeaves(e: Error)
    requires Built(e) && e.Aggregate?
    ensures Flatten(Some(e)) == Some(Aggregate(Leaves(e))) && forall l :: l in Leaves(e) ==> l.Leaf?
    ensures Leaves(Aggregate(Leaves(e))) == Leaves(e)
  {
    FlattenErrorsAreLeaves(e.errors);
    LeavesExist(e);
  }

  lemma {:induction false} FilterLeaves(ls: seq<Error>, fns: seq<Error -> bool>)
    requires forall l :: l in ls ==> l.Leaf?
    ensures FilterErrors(ls, fns) == Unmatched(ls, fns)
  {
    if ls != [] {
      FilterLeaves(ls[1..], fns);
    }
  }

  /** Filtering and flattening may be done in either order. */
  lemma FlattenCommutesWithFilterOut(e: Error, fns: seq<Error -> bool>)
    requires Built(e) && e.Aggregate?
    ensures FilterOut(e, fns).Some? ==> FilterOut(e, fns).value.Aggregate?
    ensures Flatten(Some(e)).Some?
    ensures Flatten(FilterOut(e, fns)) == FilterOut(Flatten(Some(e)).value, fns)
  {
    FlattenKeepsLeaves(e);
    FilterOutKeepsUnmatched(e, fns);
    FilterLeaves(Leaves(e), fns);
    var r := FilterOut(e, fns);
    if r.Some? {
      FlattenKeepsLeaves(r.value);
    } else {
      UnmatchedEmptyIff(Leaves(e), fns);
    }
  }

  // ---- messages ------------------------------------------------------------------------------------------------------

  function Messages(ls: seq<Error>): seq<string> {
    if ls == [] then []
    else Messages(ls[..|ls| - 1]) + match ls[|ls| - 1] case Leaf(m, _) => [m] case Aggregate(_) => [""]
  }

  /** Each text at its first occurrence. */
  function FirstOccurrences(ms: seq<string>): seq<string> {
    if ms == [] then []
    else
      var before := FirstOccurrences(ms[..|ms| - 1]);
      if ms[|ms| - 1] in before then before else before + [ms[|ms| - 1]]
  }

  /** The message of an aggregate's leaves. */
  function Bracketed(ms: seq<string>): string {
    var once := FirstOccurrences(ms);
    if |once| == 1 then once[0] else "[" + Join(once, ", ") + "]"
  }

  function Message(e: Error): string
    decreases e
  {
    match e
    case Leaf(m, _) => m
    case Aggregate(es) => if es == [] then "" else if |es| == 1 then Message(es[0]) else Bracketed(Messages(LeavesOf(es)))
  }

  /** What the closure that Error hands to the visit has gathered from the messages `ms`. */
  ghost predicate Gathered(ms: seq<string>, seen: set<string>, result: string) {
    && (forall m :: m in seen <==> m in FirstOccurrences(ms)) && |seen| == |FirstOccurrences(ms)|
    && result == Join(FirstOccurrences(ms), ", ")
  }

  /** The closure, on one message. */
  method Gather(ghost ms: seq<string>, seen: set<string>, result: string, msg: string) returns (seen': set<string>, result': string)
    requires Gathered(ms, seen, result)
    ensures Gathered(ms + [msg], seen', result')
  {
    assert (ms + [msg])[..|ms|] == ms;
    seen', result' := seen, result;
    if msg in seen { return; }
    JoinGrows(FirstOccurrences(ms), msg, ", ");
    seen' := seen + {msg};
    if |seen'| > 1 { result' := result' + ", "; }
    result' := result' + msg;
  }

  lemma {:induction false} MessagesConcat(a: seq<Error>, b: seq<Error>)
    ensures Messages(a + b) == Messages(a) + Messages(b)
    decreases |b|
  {
    if b == [] {
      assert a + b == a;
    } else {
      var n := |b| - 1;
      MessagesConcat(a, b[..n]);
      assert (a + b)[..|a| + n] == a + b[..n];
    }
  }

  lemma {:induction false} LeavesAppend(es: seq<Error>, e: Error)
    ensures LeavesOf(es + [e]) == LeavesOf(es) + Leaves(e)
  {
    if es == [] {
      assert [] + [e] == [e] && [e][1..] == [];
    } else {
      LeavesAppend(es[1..], e);
      assert (es + [e])[1..] == es[1..] + [e];
      Assoc(Leaves(es[0]), LeavesOf(es[1..]), Leaves(e));
    }
  }

  lemma MessagesStep(ms: seq<string>, es: seq<Error>, e: Error)
    ensures ms + Messages(LeavesOf(es + [e])) == ms + Messages(LeavesOf(es)) + Messages(Leaves(e))
  {
    LeavesAppend(es, e);
    MessagesConcat(LeavesOf(es), Leaves(e));
  }

  /** The visit with that closure: it meets the messages of the leaves, at every depth, from left to right. */
  method VisitMessages(es: seq<Error>, ghost ms: seq<string>, seen: set<string>, result: string)
    returns (seen': set<string>, result': string)
    requires Gathered(ms, seen, result)
    ensures Gathered(ms + Messages(LeavesOf(es)), seen', result')
    decreases es
  {
    seen', result' := seen, result;
    assert ms + [] == ms && es[..0] == [];
    for i := 0 to |es|
      invariant Gathered(ms + Messages(LeavesOf(es[..i])), seen', result')
    {
      MessagesStep(ms, es[..i], es[i]);
      assert es[..i + 1] == es[..i] + [es[i]];
      match es[i]
      case Aggregate(inner) => seen', result' := VisitMessages(inner, ms + Messages(LeavesOf(es[..i])), seen', result');
      case Leaf(m, _) =>
        assert Messages([es[i]]) == [m] by { assert [es[i]][..0] == []; }
        seen', result' := Gather(ms + Messages(LeavesOf(es[..i])), seen', result', m);
    }
    assert es[..|es|] == es;
  }

  /** Error, on a built error. */
  method ErrorText(e: Error) returns (text: string)
    ensures text == Message(e)
    decreases e
  {
    match e
    case Leaf(m, _) => return m;
    case Aggregate(es) =>
      if |es| == 0 { return ""; }
      if |es| == 1 {
        text := ErrorText(es[0]);
        return;
      }
      var seen, result := VisitMessages(es, [], {}, "");
      assert [] + Messages(LeavesOf(es)) == Messages(LeavesOf(es));
      if |seen| == 1 { return result; }
      text := "[" + result + "]";
  }

  lemma {:induction false} JoinGrows(parts: seq<string>, last: string, sep: string)
    ensures Join(parts + [last], sep) == if parts == [] then last else Join(parts, sep) + sep + last
  {
    if |parts| >= 1 {
      JoinGrows(parts[1..], last, sep);
      assert (parts + [last])[1..] == parts[1..] + [last];
    }
  }

  /** An aggregate has the message of its flattened form. */
  lemma {:induction false} MessageOfFlattened(e: Error)
    requires Built(e)
    ensures Message(e) == Message(Aggregate(Leaves(e)))
    decreases e
  {
    if e.Aggregate? {
      LeavesExist(e);
      FlattenErrorsAreLeaves(e.errors);
      if |e.errors| == 1 {
        MessageOfFlattened(e.errors[0]);
        assert e.errors[1..] == [];
        assert Leaves(e) == Leaves(e.errors[0]);
      } else {
        LeavesExist(e.errors[0]);
        LeavesExist(e.errors[1]);
        assert e.errors[1..][0] == e.errors[1];
        assert |Leaves(e)| >= 2;
      }
    }
  }

  // ---- the loops ---------------------------------------------------------------------------------------------------

  lemma {:induction false} FilterAppend(es: seq<Error>, e: Error, fns: seq<Error -> bool>)
    ensures FilterErrors(es + [e], fns) == FilterErrors(es, fns) + NonNil([FilterOut(e, fns)])
  {
    if es == [] {
      assert [] + [e] == [e];
    } else {
      FilterAppend(es[1..], e, fns);
      assert (es + [e])[1..] == es[1..] + [e];
    }
  }

  method FilterList(es: seq<Error>, fns: seq<Error -> bool>) returns (result: seq<Error>)
    ensures result == FilterErrors(es, fns)
  {
    result := [];
    for i := 0 to |es|
      invariant result == FilterErrors(es[..i], fns)
    {
      FilterAppend(es[..i], es[i], fns);
      assert es[..i + 1] == es[..i] + [es[i]];
      var r := FilterOut(es[i], fns);
      if r.Some? {
        result := result + [r.value];
      }
    }
    assert es[..|es|] == es;
  }

  function Pieces(e: Error): seq<Error> { if e.Aggregate? then FlattenErrors(e.errors) else [e] }

  lemma FlattenCons(es: seq<Error>)
    requires es != []
    ensures FlattenErrors(es) == Pieces(es[0]) + FlattenErrors(es[1..])
  {
  }

  lemma {:induction false} FlattenAppend(es: seq<Error>, e: Error)
    ensures FlattenErrors(es + [e]) == FlattenErrors(es) + Pieces(e)
  {
    if es == [] {
      assert [] + [e] == [e];
    } else {
      FlattenAppend(es[1..], e);
      FlattenCons(es);
      FlattenCons(es + [e]);
      assert (es + [e])[1..] == es[1..] + [e];
      Assoc(Pieces(es[0]), FlattenErrors(es[1..]), Pieces(e));
    }
  }

  /** Flatten of the aggregate of `es`. */
  method FlattenAggregate(es: seq<Error>) returns (r: Option<Error>)
    ensures r == Flatten(Some(Aggregate(es)))
    decreases es
  {
    var result: seq<Error> := [];
    for i := 0 to |es|
      invariant result == FlattenErrors(es[..i])
    {
      FlattenAppend(es[..i], es[i]);
      assert es[..i + 1] == es[..i] + [es[i]];
      if es[i].Aggregate? {
        var inner := FlattenAggregate(es[i].errors);
        if inner.Some? {
          result := result + inner.value.errors;
        }
      } else {
        result := result + [es[i]];
      }
    }
    assert es[..|es|] == es;
    r := if result == [] then None else Some(Aggregate(result));
  }
}
