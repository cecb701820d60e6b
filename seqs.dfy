/** Facts about sequences of card identifiers: distinctness, and
    filtering a sequence by a set of identifiers. */
module Seqs {

  /** No element occurs twice. */
  ghost predicate Distinct(s: seq<string>) {
    forall x :: multiset(s)[x] <= 1
  }

  /** The elements of `s` as a set. */
  ghost function Elems(s: seq<string>): (xs: set<string>) {
    set x: string | x in s
  }

  /** `s` without the elements of `xs`, order kept. */
  function Remove(s: seq<string>, xs: set<string>): (r: seq<string>)
  {
    if s == [] then [] else (if s[0] in xs then [] else [s[0]]) + Remove(s[1..], xs)
  }

  /** The elements of `s` that lie in `xs`, order kept. */
  function Keep(s: seq<string>, xs: set<string>): (r: seq<string>)
  {
    if s == [] then [] else (if s[0] in xs then [s[0]] else []) + Keep(s[1..], xs)
  }

  /** What survives `Keep`. */
  lemma {:induction false} KeepElems(s: seq<string>, xs: set<string>)
    ensures forall x :: x in Keep(s, xs) <==> x in s && x in xs
  {
    if s != [] {
      KeepElems(s[1..], xs);
      assert s == [s[0]] + s[1..];
    }
  }

  lemma {:induction false} RemoveConcat(a: seq<string>, b: seq<string>, xs: set<string>)
    ensures Remove(a + b, xs) == Remove(a, xs) + Remove(b, xs)
  {
    if a != [] {
      assert (a + b)[1..] == a[1..] + b;
      RemoveConcat(a[1..], b, xs);
      var h := if a[0] in xs then [] else [a[0]];
      calc {
        Remove(a + b, xs);
        h + Remove(a[1..] + b, xs);
        h + (Remove(a[1..], xs) + Remove(b, xs));
        (h + Remove(a[1..], xs)) + Remove(b, xs);
      }
    } else {
      assert a + b == b;
    }
  }

  lemma {:induction false} KeepConcat(a: seq<string>, b: seq<string>, xs: set<string>)
    ensures Keep(a + b, xs) == Keep(a, xs) + Keep(b, xs)
  {
    if a != [] {
      assert (a + b)[1..] == a[1..] + b;
      KeepConcat(a[1..], b, xs);
      var h := if a[0] in xs then [a[0]] else [];
      calc {
        Keep(a + b, xs);
        h + Keep(a[1..] + b, xs);
        h + (Keep(a[1..], xs) + Keep(b, xs));
        (h + Keep(a[1..], xs)) + Keep(b, xs);
      }
    } else {
      assert a + b == b;
    }
  }

  /** Removing `a` and then `b` is removing both. */
  lemma {:induction false} RemoveTwice(s: seq<string>, a: set<string>, b: set<string>)
    ensures Remove(Remove(s, a), b) == Remove(s, a + b)
  {
    if s != [] {
      RemoveTwice(s[1..], a, b);
      RemoveConcat(if s[0] in a then [] else [s[0]], Remove(s[1..], a), b);
    }
  }

  /** Removing elements that are not there changes nothing. */
  lemma {:induction false} RemoveAbsent(s: seq<string>, xs: set<string>)
    requires forall x :: x in s ==> x !in xs
    ensures Remove(s, xs) == s
  {
    if s != [] {
      RemoveAbsent(s[1..], xs);
    }
  }

  /** Keeping every element keeps the sequence. */
  lemma {:induction false} KeepAll(s: seq<string>, xs: set<string>)
    requires forall x :: x in s ==> x in xs
    ensures Keep(s, xs) == s
  {
    if s != [] {
      KeepAll(s[1..], xs);
    }
  }

  /** Removing every element leaves nothing. */
  lemma RemoveAllOf(s: seq<string>, xs: set<string>)
    requires forall x :: x in s ==> x in xs
    ensures Remove(s, xs) == []
  {
  }

  lemma ElemsSnoc(s: seq<string>, x: string)
    ensures Elems(s + [x]) == Elems(s) + {x}
  {
  }

  lemma ElemsConcat(a: seq<string>, b: seq<string>)
    ensures Elems(a + b) == Elems(a) + Elems(b)
  {
  }

  /** The parts of a distinct concatenation are distinct and share nothing. */
  lemma DistinctConcat(a: seq<string>, b: seq<string>)
    requires Distinct(a + b)
    ensures Distinct(a) && Distinct(b)
    ensures forall x :: x in a ==> x !in b
  {
    assert multiset(a + b) == multiset(a) + multiset(b);
    forall x ensures multiset(a)[x] <= 1 && multiset(b)[x] <= 1 {
      assert multiset(a + b)[x] <= 1;
    }
    forall x | x in a ensures x !in b {
      assert multiset(a)[x] >= 1;
      assert multiset(a + b)[x] <= 1;
    }
  }

  /** In a distinct sequence, `s[i]` occurs nowhere else. */
  lemma DistinctAt(s: seq<string>, i: nat)
    requires i < |s| && Distinct(s)
    ensures s[i] !in s[..i] && s[i] !in s[i + 1..]
  {
    var x := s[i];
    assert s == s[..i] + [x] + s[i + 1..];
    assert multiset(s) == multiset(s[..i]) + multiset{x} + multiset(s[i + 1..]);
    assert multiset(s)[x] <= 1;
  }

  lemma RemoveHead(x: string, post: seq<string>)
    ensures Remove([x] + post, {x}) == Remove(post, {x})
  {
    assert ([x] + post)[1..] == post;
  }

  /** Removing the one occurrence of `x` from `pre + [x] + post`. */
  lemma RemoveMiddle(pre: seq<string>, x: string, post: seq<string>)
    requires x !in pre && x !in post
    ensures Remove(pre + ([x] + post), {x}) == pre + post
  {
    RemoveConcat(pre, [x] + post, {x});
    RemoveHead(x, post);
    RemoveAbsent(pre, {x});
    RemoveAbsent(post, {x});
  }

  /** In a distinct sequence, cutting out position `i` is removing `s[i]`. */
  lemma RemoveAt(s: seq<string>, i: nat)
    requires i < |s| && Distinct(s)
    ensures s[..i] + s[i + 1..] == Remove(s, {s[i]})
  {
    DistinctAt(s, i);
    assert s == s[..i] + ([s[i]] + s[i + 1..]);
    RemoveMiddle(s[..i], s[i], s[i + 1..]);
  }

  /** Cutting out position `i` takes one `s[i]` out of the multiset. */
  lemma CutMultiset<T>(s: seq<T>, i: nat)
    requires i < |s|
    ensures multiset(s[..i] + s[i + 1..]) + multiset{s[i]} == multiset(s)
  {
    assert s == s[..i] + [s[i]] + s[i + 1..];
  }

  /** Removing `ys` after removing `xs`, past a tail `k` that holds none of
      `ys`. */
  lemma RemovePast(s: seq<string>, xs: set<string>, k: seq<string>, ys: set<string>)
    requires forall y :: y in k ==> y !in ys
    ensures Remove(Remove(s, xs) + k, ys) == Remove(s, xs + ys) + k
  {
    RemoveConcat(Remove(s, xs), k, ys);
    RemoveTwice(s, xs, ys);
    RemoveAbsent(k, ys);
  }

  lemma KeepSnoc(s: seq<string>, x: string, xs: set<string>)
    ensures Keep(s + [x], xs) == Keep(s, xs) + (if x in xs then [x] else [])
  {
    KeepConcat(s, [x], xs);
    assert [x][1..] == [];
  }

  /** Taking three sets of ids out of `s` one after the other, each time
      adding a tail that holds none of the sets still to come. */
  lemma RemoveThree(s: seq<string>, t: seq<string>, i: seq<string>, d: seq<string>,
                    kt: seq<string>, ki: seq<string>, kd: seq<string>)
    requires forall y :: y in kt ==> y !in i && y !in d
    requires forall y :: y in ki ==> y !in d
    ensures Remove(Remove(Remove(s, Elems(t)) + kt, Elems(i)) + ki, Elems(d)) + kd ==
      Remove(s, Elems(t) + Elems(i) + Elems(d)) + (kt + ki + kd)
  {
    RemovePast(s, Elems(t), kt, Elems(i));
    var r := Remove(s, Elems(t) + Elems(i));
    assert r + kt + ki == r + (kt + ki);
    RemovePast(s, Elems(t) + Elems(i), kt + ki, Elems(d));
  }

  /** Pairwise different elements make a distinct sequence. */
  lemma {:induction false} DistinctByIndex(s: seq<string>)
    requires forall i, j :: 0 <= i < j < |s| ==> s[i] != s[j]
    ensures Distinct(s)
    decreases |s|
  {
    if s != [] {
      var p, y := s[..|s| - 1], s[|s| - 1];
      assert s == p + [y];
      DistinctByIndex(p);
      forall x ensures multiset(s)[x] <= 1 {
        assert multiset(s) == multiset(p) + multiset{y};
        if x == y {
          assert x !in p by {
            forall i | 0 <= i < |p| ensures p[i] != y {
              assert s[i] != s[|s| - 1];
            }
          }
        }
      }
    }
  }
}
