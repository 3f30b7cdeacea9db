/** Order-preserving subsequences: what a lossy queue makes of the packets put into it. */
module Subsequences {

  ghost predicate IsSubseq<T>(a: seq<T>, b: seq<T>) {
    a == [] ||
    (b != [] &&
     ((a[|a| - 1] == b[|b| - 1] && IsSubseq(a[..|a| - 1], b[..|b| - 1])) || IsSubseq(a, b[..|b| - 1])))
  }

  /** `a` is the end of `b`. */
  ghost predicate IsSuffix<T>(a: seq<T>, b: seq<T>) {
    |a| <= |b| && a == b[|b| - |a|..]
  }

  lemma SuffixShortened<T>(a: seq<T>, n: nat, b: seq<T>)
    requires IsSuffix(a, b) && n <= |a|
    ensures IsSuffix(a[n..], b)
  {
  }

  lemma SuffixExtended<T>(a: seq<T>, b: seq<T>, x: T)
    requires IsSuffix(a, b)
    ensures IsSuffix(a + [x], b + [x])
  {
  }

  lemma Extend<T>(a: seq<T>, b: seq<T>, x: T)
    requires IsSubseq(a, b)
    ensures IsSubseq(a + [x], b + [x]) && IsSubseq(a, b + [x])
  {
    assert (a + [x])[..|a|] == a && (b + [x])[..|b|] == b;
  }

  lemma {:induction false} Reflexive<T>(a: seq<T>)
    ensures IsSubseq(a, a)
  {
    if a != [] {
      Reflexive(a[..|a| - 1]);
    }
  }

  lemma {:induction false} Shorter<T>(a: seq<T>, b: seq<T>)
    requires IsSubseq(a, b)
    ensures |a| <= |b|
    ensures |a| == |b| ==> a == b
  {
    if a != [] {
      if a[|a| - 1] == b[|b| - 1] && IsSubseq(a[..|a| - 1], b[..|b| - 1]) {
        Shorter(a[..|a| - 1], b[..|b| - 1]);
        assert a == a[..|a| - 1] + [a[|a| - 1]] && b == b[..|b| - 1] + [b[|b| - 1]];
      } else {
        Shorter(a, b[..|b| - 1]);
      }
    }
  }

  /** Losing the last element. */
  lemma {:induction false} DropLast<T>(a: seq<T>, b: seq<T>)
    requires a != [] && IsSubseq(a, b)
    ensures IsSubseq(a[..|a| - 1], b)
  {
    if a[|a| - 1] == b[|b| - 1] && IsSubseq(a[..|a| - 1], b[..|b| - 1]) {
      Extend(a[..|a| - 1], b[..|b| - 1], b[|b| - 1]);
      assert b == b[..|b| - 1] + [b[|b| - 1]];
    } else {
      DropLast(a, b[..|b| - 1]);
      Extend(a[..|a| - 1], b[..|b| - 1], b[|b| - 1]);
      assert b == b[..|b| - 1] + [b[|b| - 1]];
    }
  }

  lemma WithoutOne<T>(a: seq<T>, k: nat)
    requires k < |a| - 1
    ensures var short := a[..|a| - 1];
            short[..k] + short[k + 1..] + [a[|a| - 1]] == a[..k] + a[k + 1..]
  {
  }

  /** Losing any one element. */
  lemma {:induction false} DropAt<T>(a: seq<T>, k: nat, b: seq<T>)
    requires k < |a| && IsSubseq(a, b)
    ensures IsSubseq(a[..k] + a[k + 1..], b)
    decreases |b|
  {
    var last := a[|a| - 1];
    var short := a[..|a| - 1];
    var init := b[..|b| - 1];
    assert b == init + [b[|b| - 1]];
    if k == |a| - 1 {
      DropLast(a, b);
      assert a[..k] + a[k + 1..] == short;
    } else if last == b[|b| - 1] && IsSubseq(short, init) {
      DropAt(short, k, init);
      Extend(short[..k] + short[k + 1..], init, last);
      WithoutOne(a, k);
    } else {
      DropAt(a, k, init);
      Extend(a[..k] + a[k + 1..], init, b[|b| - 1]);
    }
  }

  /** A queue behind what was taken from it: its front is dropped. */
  lemma FrontDropped<T>(taken: seq<T>, queue: seq<T>, all: seq<T>)
    requires queue != [] && IsSubseq(taken + queue, all)
    ensures IsSubseq(taken + queue[1..], all)
    ensures taken + [queue[0]] + queue[1..] == taken + queue
  {
    hide IsSubseq;
    DropAt(taken + queue, |taken|, all);
    assert (taken + queue)[..|taken|] + (taken + queue)[|taken| + 1..] == taken + queue[1..];
  }

  /** ... or it grows. */
  lemma BackAdded<T>(taken: seq<T>, queue: seq<T>, all: seq<T>, x: T)
    requires IsSubseq(taken + queue, all)
    ensures IsSubseq(taken + (queue + [x]), all + [x])
  {
    hide IsSubseq;
    Extend(taken + queue, all, x);
    assert taken + (queue + [x]) == taken + queue + [x];
  }

  lemma {:induction false} Transitive<T>(a: seq<T>, b: seq<T>, c: seq<T>)
    requires IsSubseq(a, b) && IsSubseq(b, c)
    ensures IsSubseq(a, c)
    decreases |c|
  {
    if a != [] {
      var init := c[..|c| - 1];
      assert c == init + [c[|c| - 1]];
      if b[|b| - 1] == c[|c| - 1] && IsSubseq(b[..|b| - 1], init) {
        if a[|a| - 1] == b[|b| - 1] && IsSubseq(a[..|a| - 1], b[..|b| - 1]) {
          Transitive(a[..|a| - 1], b[..|b| - 1], init);
          Extend(a[..|a| - 1], init, c[|c| - 1]);
          assert a == a[..|a| - 1] + [a[|a| - 1]];
        } else {
          Transitive(a, b[..|b| - 1], init);
          Extend(a, init, c[|c| - 1]);
        }
      } else {
        Transitive(a, b, init);
        Extend(a, init, c[|c| - 1]);
      }
    }
  }

  lemma {:induction false} PrefixSubseq<T>(a: seq<T>, more: seq<T>, b: seq<T>)
    requires IsSubseq(a + more, b)
    ensures IsSubseq(a, b)
    decreases |more|
  {
    if more == [] {
      assert a + more == a;
    } else {
      DropLast(a + more, b);
      assert (a + more)[..|a + more| - 1] == a + more[..|more| - 1];
      PrefixSubseq(a, more[..|more| - 1], b);
    }
  }

  /** A suffix of a sequence is a subsequence of it. */
  lemma {:induction false} SuffixSubseq<T>(b: seq<T>, k: nat)
    requires k <= |b|
    ensures IsSubseq(b[k..], b)
    decreases |b|
  {
    if k < |b| {
      var init := b[..|b| - 1];
      SuffixSubseq(init, k);
      Extend(init[k..], init, b[|b| - 1]);
      assert init[k..] + [b[|b| - 1]] == b[k..];
      assert init + [b[|b| - 1]] == b;
    }
  }

  /** A relation between every earlier and every later element passes on to subsequences. */
  ghost predicate Pairwise<T(!new)>(a: seq<T>, related: (T, T) -> bool) {
    forall i, j :: 0 <= i < j < |a| ==> related(a[i], a[j])
  }

  lemma {:induction false} MembersFrom<T>(a: seq<T>, b: seq<T>)
    requires IsSubseq(a, b)
    ensures forall x <- a :: x in b
    decreases |b|
  {
    if a != [] {
      var init := b[..|b| - 1];
      assert b == init + [b[|b| - 1]];
      if a[|a| - 1] == b[|b| - 1] && IsSubseq(a[..|a| - 1], init) {
        MembersFrom(a[..|a| - 1], init);
        assert a == a[..|a| - 1] + [a[|a| - 1]];
      } else {
        MembersFrom(a, init);
      }
    }
  }

  lemma {:induction false} PairwiseFrom<T(!new)>(a: seq<T>, b: seq<T>, related: (T, T) -> bool)
    requires IsSubseq(a, b) && Pairwise(b, related)
    ensures Pairwise(a, related)
    decreases |b|
  {
    if a != [] {
      var init := b[..|b| - 1];
      var last := b[|b| - 1];
      assert b == init + [last];
      if a[|a| - 1] == last && IsSubseq(a[..|a| - 1], init) {
        var short := a[..|a| - 1];
        PairwiseFrom(short, init, related);
        MembersFrom(short, init);
        forall i, j | 0 <= i < j < |a| ensures related(a[i], a[j]) {
          if j == |a| - 1 {
            assert short[i] in init;
            var m :| 0 <= m < |init| && init[m] == short[i];
            assert related(b[m], b[|b| - 1]);
          } else {
            assert related(short[i], short[j]);
          }
        }
      } else {
        PairwiseFrom(a, init, related);
      }
    }
  }
}
