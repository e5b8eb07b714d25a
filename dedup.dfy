/** First-occurrence deduplication by name, the rule shared by the scrapers:
    walk the items in order and keep one exactly when its name passes a
    validity test and no item with that name was kept before. */
module Dedup {
  import opened Strings

  /** The names of the items, in order. */
  function Names<T>(xs: seq<T>, name: T -> string): (r: seq<string>)
    ensures |r| == |xs|
    ensures forall i :: 0 <= i < |xs| ==> r[i] == name(xs[i])
  {
    seq(|xs|, i requires 0 <= i < |xs| => name(xs[i]))
  }

  /** The items kept by a left-to-right pass that keeps an item when `ok`
      accepts its name and its name is not among those kept so far. */
  function KeepFirst<T>(xs: seq<T>, name: T -> string, ok: string -> bool): (r: seq<T>)
    ensures forall i :: 0 <= i < |r| ==> ok(name(r[i]))
    ensures forall i, j :: 0 <= i < j < |r| ==> name(r[i]) != name(r[j])
    ensures forall k :: 0 <= k < |xs| && ok(name(xs[k])) ==> name(xs[k]) in Names(r, name)
    ensures forall n :: n in Names(r, name) ==> n in Names(xs, name)
    decreases |xs|
  {
    if xs == [] then []
    else
      var kept := KeepFirst(xs[..|xs| - 1], name, ok);
      var x := xs[|xs| - 1];
      assert forall k :: 0 <= k < |xs| - 1 ==> xs[..|xs| - 1][k] == xs[k];
      assert Names(xs, name) == Names(xs[..|xs| - 1], name) + [name(x)];
      if ok(name(x)) && name(x) !in Names(kept, name) then
        assert Names(kept + [x], name) == Names(kept, name) + [name(x)];
        kept + [x]
      else
        kept
  }

  lemma NamesSnoc<T>(xs: seq<T>, x: T, name: T -> string)
    ensures Names(xs + [x], name) == Names(xs, name) + [name(x)]
  {
  }

  /** One more step of the pass. */
  lemma KeepFirstSnoc<T>(xs: seq<T>, x: T, name: T -> string, ok: string -> bool)
    ensures KeepFirst(xs + [x], name, ok) ==
      if ok(name(x)) && name(x) !in Names(KeepFirst(xs, name, ok), name)
      then KeepFirst(xs, name, ok) + [x]
      else KeepFirst(xs, name, ok)
  {
    assert (xs + [x])[..|xs|] == xs;
  }

  /** The first item of `xs` whose name is `n`, if any. */
  function FirstNamed<T>(xs: seq<T>, name: T -> string, n: string): Option<T>
    decreases |xs|
  {
    if xs == [] then None
    else if name(xs[0]) == n then Some(xs[0])
    else FirstNamed(xs[1..], name, n)
  }

  /** `a` is `b` with some items left out, the rest in their original order. */
  predicate IsSubsequence<T(==)>(a: seq<T>, b: seq<T>)
    decreases |b|
  {
    if a == [] then true
    else if b == [] then false
    else (a[|a| - 1] == b[|b| - 1] && IsSubsequence(a[..|a| - 1], b[..|b| - 1]))
         || IsSubsequence(a, b[..|b| - 1])
  }

  lemma {:induction false} FirstNamedSnoc<T>(xs: seq<T>, x: T, name: T -> string, n: string)
    ensures FirstNamed(xs + [x], name, n) ==
      if FirstNamed(xs, name, n).Some? then FirstNamed(xs, name, n)
      else if name(x) == n then Some(x)
      else None
    decreases |xs|
  {
    if xs != [] {
      assert (xs + [x])[1..] == xs[1..] + [x];
      FirstNamedSnoc(xs[1..], x, name, n);
    }
  }

  lemma {:induction false} FirstNamedMissing<T>(xs: seq<T>, name: T -> string, n: string)
    requires n !in Names(xs, name)
    ensures FirstNamed(xs, name, n) == None
    decreases |xs|
  {
    if xs != [] {
      assert Names(xs[1..], name) == Names(xs, name)[1..];
      FirstNamedMissing(xs[1..], name, n);
    }
  }

  /** The pass keeps items in input order. */
  lemma {:induction false} KeepFirstOrdered<T>(xs: seq<T>, name: T -> string, ok: string -> bool)
    ensures IsSubsequence(KeepFirst(xs, name, ok), xs)
    decreases |xs|
  {
    if xs != [] {
      var pre := xs[..|xs| - 1];
      var kept := KeepFirst(pre, name, ok);
      KeepFirstOrdered(pre, name, ok);
      var r := KeepFirst(xs, name, ok);
      if r != kept {
        assert r == kept + [xs[|xs| - 1]];
        assert r[..|r| - 1] == kept;
      }
    }
  }

  /** Each kept item is the first item of the input with its name: a later
      item with the same name is ignored, whatever its other fields hold. */
  lemma {:induction false} KeepFirstEarliest<T>(xs: seq<T>, name: T -> string, ok: string -> bool)
    ensures forall i :: 0 <= i < |KeepFirst(xs, name, ok)| ==>
      FirstNamed(xs, name, name(KeepFirst(xs, name, ok)[i])) == Some(KeepFirst(xs, name, ok)[i])
    decreases |xs|
  {
    if xs != [] {
      var pre := xs[..|xs| - 1];
      var x := xs[|xs| - 1];
      assert xs == pre + [x];
      var kept := KeepFirst(pre, name, ok);
      KeepFirstEarliest(pre, name, ok);
      var r := KeepFirst(xs, name, ok);
      forall i | 0 <= i < |r|
        ensures FirstNamed(xs, name, name(r[i])) == Some(r[i])
      {
        FirstNamedSnoc(pre, x, name, name(r[i]));
        if i == |kept| {
          assert r[i] == x && ok(name(x)) && name(x) !in Names(kept, name);
          FirstNamedMissing(pre, name, name(x));
        } else {
          assert r[i] == kept[i];
        }
      }
    }
  }
}
