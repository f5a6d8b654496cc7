/** FilterOp.Apply of internal/topo/operator/filter_operator.go: the meaning of a filter over what it receives. */
module Filters {
  import opened Wrappers
  import opened Sequences

  predicate Accepts<T(!new)>(eval: T -> Verdict, x: T) {
    eval(x) == True
  }

  /** The rows that a window or join filter keeps in place (`ms[:0]`), or the first row the condition fails on. */
  method FilterInPlace<T(!new)>(ms: array<T>, eval: T -> Verdict) returns (ok: bool, n: nat)
    modifies ms
    ensures n <= ms.Length
    ensures ok <==> forall k :: 0 <= k < ms.Length ==> eval(old(ms[k])) != Invalid
    ensures ok ==> ms[..n] == Select(old(ms[..]), x => Accepts(eval, x))
    ensures !ok ==> n < ms.Length && eval(old(ms[n])) == Invalid
    ensures !ok ==> forall k :: 0 <= k < n ==> eval(old(ms[k])) != Invalid
  {
    ghost var was := ms[..];
    ghost var p := x => Accepts(eval, x);
    n := 0;
    for j := 0 to ms.Length
      invariant n <= j
      invariant forall k :: j <= k < ms.Length ==> ms[k] == was[k]
      invariant AllEvaluate(was[..j], eval)
      invariant ms[..n] == Select(was[..j], p)
    {
      SelectNext(was, j, p);
      match eval(ms[j]) {
        case Invalid =>
          return false, j;
        case True =>
          ghost var kept := ms[..n];
          ms[n] := ms[j];
          n := n + 1;
          assert ms[..n] == kept + [was[j]];
        case False =>
      }
    }
    assert was[..ms.Length] == was;
    ok := true;
  }

  /** What a filter replies: an error, nothing, or the rows that pass. */
  datatype Reply<+T> = Fault | Nothing | Passed(rows: seq<T>)

  ghost predicate AllEvaluate<T(!new)>(rows: seq<T>, eval: T -> Verdict) {
    forall k :: 0 <= k < |rows| ==> eval(rows[k]) != Invalid
  }

  /** The reply for rows that came together: nothing at all if none passes. */
  ghost function Filtered<T(!new)>(rows: seq<T>, eval: T -> Verdict): (r: Reply<T>) {
    var kept := Select(rows, x => Accepts(eval, x));
    if !AllEvaluate(rows, eval) then Fault else if kept == [] then Nothing else Passed(kept)
  }

  /** The reply, row by row: an error exactly if the condition fails on some row, nothing exactly if it accepts none,
      and otherwise the accepted rows, each as often as it came. */
  lemma FilteredMeans<T(!new)>(rows: seq<T>, eval: T -> Verdict)
    ensures Filtered(rows, eval) == Fault <==> exists k :: 0 <= k < |rows| && eval(rows[k]) == Invalid
    ensures Filtered(rows, eval) == Nothing <==> forall k :: 0 <= k < |rows| ==> eval(rows[k]) == False
    ensures Filtered(rows, eval).Passed? ==>
              var kept := Filtered(rows, eval).rows;
              kept != [] && forall x :: multiset(kept)[x] == if eval(x) == True then multiset(rows)[x] else 0
  {
    var p: T -> bool := x => Accepts(eval, x);
    SelectEmpty(rows, p);
    forall x ensures multiset(Select(rows, p))[x] == if eval(x) == True then multiset(rows)[x] else 0 {
      SelectBag(rows, p, x);
    }
    assert forall k :: 0 <= k < |rows| ==> rows[k] in rows;
  }

  /** A single tuple. */
  method ApplyTuple<T(!new)>(x: T, eval: T -> Verdict) returns (r: Reply<T>)
    ensures r == Filtered([x], eval)
  {
    SelectAppend([], x, y => Accepts(eval, y));
    assert [] + [x] == [x];
    match eval(x) {
      case True => r := Passed([x]);
      case False => r := Nothing;
      case Invalid =>
        r := Fault;
        assert eval([x][0]) == Invalid;
    }
  }

  /** The rows of a join, filtered in place. */
  method ApplyJoinSets<T(!new)>(ms: array<T>, eval: T -> Verdict) returns (r: Reply<T>)
    modifies ms
    ensures r == Filtered(old(ms[..]), eval)
  {
    var ok, n := FilterInPlace(ms, eval);
    if !ok {
      return Fault;
    }
    r := if n == 0 then Nothing else Passed(ms[..n]);
  }

  /** A window: it must hold exactly one group. */
  method ApplyWindowSet<T(!new)>(groups: seq<array<T>>, eval: T -> Verdict) returns (r: Reply<T>)
    modifies groups
    ensures r == if |groups| == 1 then Filtered(old(groups[0][..]), eval) else Fault
  {
    if |groups| != 1 {
      return Fault;
    }
    r := ApplyJoinSets(groups[0], eval);
  }

  /** The batch of a table: passed on even if no row is left. */
  method ApplyBatch<T(!new)>(rows: seq<T>, eval: T -> Verdict) returns (r: Reply<T>)
    ensures r == if AllEvaluate(rows, eval) then Passed(Select(rows, x => Accepts(eval, x))) else Fault
  {
    ghost var p := x => Accepts(eval, x);
    var kept := [];
    for j := 0 to |rows|
      invariant AllEvaluate(rows[..j], eval) && kept == Select(rows[..j], p)
    {
      SelectNext(rows, j, p);
      if eval(rows[j]) == Invalid {
        return Fault;
      } else if eval(rows[j]) == True {
        kept := kept + [rows[j]];
      }
    }
    assert rows[..|rows|] == rows;
    r := Passed(kept);
  }
}
