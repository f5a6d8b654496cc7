/** The tuple containers of internal/xsql/collections.go: a window's tuples grouped by emitter, and the stable sort
    by timestamp that an event-time window applies to every group. */
module Collections {
  import opened Sequences

  /** One message. `ts` is its timestamp in milliseconds; the payload is opaque. */
  datatype Tuple = Tuple(emitter: string, ts: int, message: int)

  /** The tuples of one emitter inside a window. */
  datatype WindowTuples = WindowTuples(emitter: string, tuples: seq<Tuple>)

  function From(src: string): (p: Tuple -> bool) {
    (t: Tuple) => t.emitter == src
  }

  function At(ts: int): (p: Tuple -> bool) {
    (t: Tuple) => t.ts == ts
  }

  /** Timestamps in the closed range. */
  function Within(lo: int, hi: int): (p: Tuple -> bool) {
    (t: Tuple) => lo <= t.ts <= hi
  }

  // ----- grouping

  function AddTuple(content: seq<WindowTuples>, t: Tuple): (r: seq<WindowTuples>) {
    if content == [] then [WindowTuples(t.emitter, [t])]
    else if content[0].emitter == t.emitter then
      [WindowTuples(t.emitter, content[0].tuples + [t])] + content[1..]
    else [content[0]] + AddTuple(content[1..], t)
  }

  function GetBySrc(content: seq<WindowTuples>, src: string): (r: seq<Tuple>) {
    if content == [] then []
    else if content[0].emitter == src then content[0].tuples
    else GetBySrc(content[1..], src)
  }

  /** Adding the tuples of `s` one by one to an empty window. */
  function Grouped(s: seq<Tuple>): (r: seq<WindowTuples>) {
    if s == [] then [] else AddTuple(Grouped(s[..|s| - 1]), s[|s| - 1])
  }

  function Size(content: seq<WindowTuples>): (n: nat) {
    if content == [] then 0 else |content[0].tuples| + Size(content[1..])
  }

  lemma {:induction false} AddTupleBySrc(content: seq<WindowTuples>, t: Tuple, src: string)
    ensures GetBySrc(AddTuple(content, t), src)
         == if src == t.emitter then GetBySrc(content, src) + [t] else GetBySrc(content, src)
  {
    if content != [] && content[0].emitter != t.emitter {
      AddTupleBySrc(content[1..], t, src);
    }
  }

  /** A grouped window gives back, for every emitter, exactly its tuples in arrival order. */
  lemma {:induction false} GroupedBySrc(s: seq<Tuple>, src: string)
    ensures GetBySrc(Grouped(s), src) == Select(s, From(src))
  {
    if s != [] {
      var n := |s| - 1;
      GroupedBySrc(s[..n], src);
      AddTupleBySrc(Grouped(s[..n]), s[n], src);
    }
  }

  lemma {:induction false} AddTupleSize(content: seq<WindowTuples>, t: Tuple)
    ensures Size(AddTuple(content, t)) == Size(content) + 1
  {
    if content != [] && content[0].emitter != t.emitter {
      AddTupleSize(content[1..], t);
    }
  }

  /** Grouping neither drops nor copies a tuple. */
  lemma {:induction false} GroupedSize(s: seq<Tuple>)
    ensures Size(Grouped(s)) == |s|
  {
    if s != [] {
      GroupedSize(s[..|s| - 1]);
      AddTupleSize(Grouped(s[..|s| - 1]), s[|s| - 1]);
    }
  }

  // ----- the stable sort by timestamp

  ghost predicate Sorted(s: seq<Tuple>) {
    forall i, j :: 0 <= i < j < |s| ==> s[i].ts <= s[j].ts
  }

  function Insert(s: seq<Tuple>, t: Tuple): (r: seq<Tuple>)
    ensures |r| == |s| + 1
  {
    if s == [] || s[|s| - 1].ts <= t.ts then s + [t] else Insert(s[..|s| - 1], t) + [s[|s| - 1]]
  }

  function StableSort(s: seq<Tuple>): (r: seq<Tuple>)
    ensures |r| == |s|
  {
    if s == [] then [] else Insert(StableSort(s[..|s| - 1]), s[|s| - 1])
  }

  lemma {:induction false} InsertBag(s: seq<Tuple>, t: Tuple)
    ensures multiset(Insert(s, t)) == multiset(s) + multiset{t}
  {
    if s != [] && s[|s| - 1].ts > t.ts {
      InsertBag(s[..|s| - 1], t);
      assert s == s[..|s| - 1] + [s[|s| - 1]];
    }
  }

  lemma {:induction false} StableSortBag(s: seq<Tuple>)
    ensures multiset(StableSort(s)) == multiset(s)
  {
    if s != [] {
      var n := |s| - 1;
      assert multiset(s) == multiset(s[..n]) + multiset{s[n]} by {
        assert s == s[..n] + [s[n]];
      }
      StableSortBag(s[..n]);
      InsertBag(StableSort(s[..n]), s[n]);
    }
  }

  lemma {:induction false} InsertMember(s: seq<Tuple>, t: Tuple, x: Tuple)
    ensures x in Insert(s, t) <==> x in s || x == t
  {
    InsertBag(s, t);
    assert x in Insert(s, t) <==> x in multiset(Insert(s, t));
    assert x in s <==> x in multiset(s);
  }

  lemma AppendSorted(s: seq<Tuple>, t: Tuple)
    requires Sorted(s) && forall x :: x in s ==> x.ts <= t.ts
    ensures Sorted(s + [t])
  {
    forall i, j | 0 <= i < j < |s + [t]| ensures (s + [t])[i].ts <= (s + [t])[j].ts {
      assert (s + [t])[i] == s[i] && s[i] in s;
    }
  }

  lemma {:induction false} InsertSorted(s: seq<Tuple>, t: Tuple)
    requires Sorted(s)
    ensures Sorted(Insert(s, t))
  {
    if s == [] || s[|s| - 1].ts <= t.ts {
      AppendSorted(s, t);
    } else {
      var n := |s| - 1;
      InsertSorted(s[..n], t);
      forall x | x in Insert(s[..n], t) ensures x.ts <= s[n].ts {
        InsertMember(s[..n], t, x);
      }
      AppendSorted(Insert(s[..n], t), s[n]);
    }
  }

  lemma {:induction false} InsertStable(s: seq<Tuple>, t: Tuple, ts: int)
    requires Sorted(s)
    ensures Select(Insert(s, t), At(ts)) == Select(s + [t], At(ts))
  {
    SelectAppend(s, t, At(ts));
    if s != [] && s[|s| - 1].ts > t.ts {
      var n := |s| - 1;
      assert s == s[..n] + [s[n]];
      InsertStable(s[..n], t, ts);
      SelectPast(s[..n], Insert(s[..n], t), s[n], t, At(ts));
    }
  }

  /** Two tuples of which only one can be selected may change places at the end. */
  lemma {:induction false} SelectPast(a: seq<Tuple>, b: seq<Tuple>, x: Tuple, t: Tuple, p: Tuple -> bool)
    requires Select(b, p) == Select(a + [t], p) && !(p(x) && p(t))
    ensures Select(b + [x], p) == if p(t) then Select(a + [x], p) + [t] else Select(a + [x], p)
  {
    SelectAppend(a, t, p);
    SelectAppend(a, x, p);
    SelectAppend(b, x, p);
  }

  /** `StableSort` is the stable sort: ordered by timestamp, and the tuples of every timestamp keep their order. */
  lemma {:induction false} StableSortCorrect(s: seq<Tuple>)
    ensures Sorted(StableSort(s))
    ensures forall ts :: Select(StableSort(s), At(ts)) == Select(s, At(ts))
  {
    if s != [] {
      var n := |s| - 1;
      StableSortCorrect(s[..n]);
      InsertSorted(StableSort(s[..n]), s[n]);
      forall ts ensures Select(StableSort(s), At(ts)) == Select(s, At(ts)) {
        InsertStable(StableSort(s[..n]), s[n], ts);
        SelectAppend(StableSort(s[..n]), s[n], At(ts));
      }
    }
  }

  lemma StableSortMember(s: seq<Tuple>, x: Tuple)
    ensures x in StableSort(s) <==> x in s
  {
    StableSortBag(s);
    assert x in StableSort(s) <==> x in multiset(StableSort(s));
    assert x in s <==> x in multiset(s);
  }

  function SortGroups(content: seq<WindowTuples>): (r: seq<WindowTuples>) {
    if content == [] then []
    else [WindowTuples(content[0].emitter, StableSort(content[0].tuples))] + SortGroups(content[1..])
  }

  /** What an event-time window broadcasts for the tuples `s`. */
  function Packaged(s: seq<Tuple>): (r: seq<WindowTuples>) {
    SortGroups(Grouped(s))
  }

  lemma {:induction false} SortGroupsBySrc(content: seq<WindowTuples>, src: string)
    ensures GetBySrc(SortGroups(content), src) == StableSort(GetBySrc(content, src))
    ensures Size(SortGroups(content)) == Size(content)
  {
    if content != [] {
      SortGroupsBySrc(content[1..], src);
    }
  }

  /** A broadcast window holds, for every emitter, a stable sort of that emitter's tuples, and nothing else. */
  lemma PackagedBySrc(s: seq<Tuple>, src: string)
    ensures GetBySrc(Packaged(s), src) == StableSort(Select(s, From(src)))
    ensures Sorted(GetBySrc(Packaged(s), src))
    ensures multiset(GetBySrc(Packaged(s), src)) == multiset(Select(s, From(src)))
    ensures Size(Packaged(s)) == |s|
  {
    SortGroupsBySrc(Grouped(s), src);
    GroupedBySrc(s, src);
    GroupedSize(s);
    StableSortCorrect(Select(s, From(src)));
    StableSortBag(Select(s, From(src)));
  }
}
