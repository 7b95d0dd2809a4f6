// The JavaScript array operations the polyfill applies to its lists:
// `indexOf`, `splice(i, 1)`, removal of the first match, and what a
// `forEach` sees when its callback splices the array it is walking.

module Lists {

  /** No element occurs twice (identity, for lists of objects): none occurs before its own position. */
  ghost predicate Distinct<T>(s: seq<T>)
  {
    forall i :: 0 <= i < |s| ==> s[i] !in s[..i]
  }

  /** In a duplicate-free list, two positions holding the same element are one position. */
  lemma DistinctAt<T>(s: seq<T>, i: nat, j: nat)
    requires Distinct(s) && i < |s| && j < |s| && s[i] == s[j]
    ensures i == j
  {
  }

  /** In a duplicate-free list, position `j` holds an element no other position holds. */
  lemma DistinctFrom<T>(s: seq<T>, j: nat)
    requires Distinct(s) && j < |s|
    ensures forall i :: 0 <= i < |s| && i != j ==> s[i] != s[j]
  {
    forall i | 0 <= i < |s| && i != j ensures s[i] != s[j] {
      if s[i] == s[j] { DistinctAt(s, i, j); }
    }
  }

  /** `s.indexOf(x)`: the first index holding `x`, or -1. */
  function IndexOf<T(==)>(s: seq<T>, x: T): (i: int)
    ensures -1 <= i < |s|
    ensures i == -1 <==> x !in s
    ensures 0 <= i ==> s[i] == x && x !in s[..i]
  {
    if s == [] then -1
    else if s[0] == x then 0
    else
      var j := IndexOf(s[1..], x);
      assert 0 <= j ==> s[..j + 1] == [s[0]] + s[1..][..j];
      if j == -1 then -1 else j + 1
  }

  /**
   * `s.splice(start, 1)`: a negative start counts back from the end and
   * is clamped at 0; a start at or past the end removes nothing.
   */
  function SpliceOne<T>(s: seq<T>, start: int): (r: seq<T>)
    ensures |r| == if -|s| <= start < |s| || (start < -|s| && s != []) then |s| - 1 else |s|
  {
    var k := if start < 0 then (if |s| + start < 0 then 0 else |s| + start)
             else (if start > |s| then |s| else start);
    if k < |s| then s[..k] + s[k + 1..] else s
  }

  /** `s` without the first occurrence of `x`: the loop of a removal by identity. */
  function RemoveFirst<T(==)>(s: seq<T>, x: T): (r: seq<T>)
    ensures x !in s ==> r == s
    ensures x in s ==> |r| == |s| - 1
  {
    if s == [] then []
    else
      assert s == [s[0]] + s[1..];
      if s[0] == x then s[1..]
      else [s[0]] + RemoveFirst(s[1..], x)
  }

  /** Removing the first match removes exactly one copy of `x`, and nothing else. */
  lemma {:induction false} RemoveFirstCount<T>(s: seq<T>, x: T)
    ensures multiset(RemoveFirst(s, x)) == multiset(s) - multiset{x}
  {
    if s != [] {
      assert s == [s[0]] + s[1..];
      RemoveFirstCount(s[1..], x);
    }
  }

  /** Removing the first match at index `k` cuts exactly that slot. */
  lemma {:induction false} RemoveFirstAt<T>(s: seq<T>, x: T, k: nat)
    requires k < |s| && s[k] == x && x !in s[..k]
    ensures RemoveFirst(s, x) == s[..k] + s[k + 1..]
  {
    if k > 0 {
      var t := s[1..];
      assert s[0] != x by { assert s[0] == s[..k][0]; }
      assert t[..k - 1] == s[..k][1..];
      RemoveFirstAt(t, x, k - 1);
      assert s[..k] == [s[0]] + t[..k - 1];
      assert s[k + 1..] == t[k..];
    }
  }

  /** Removing what was just appended restores the list. */
  lemma RemoveFirstAppended<T>(s: seq<T>, x: T)
    requires x !in s
    ensures RemoveFirst(s + [x], x) == s
  {
    assert (s + [x])[..|s|] == s;
    RemoveFirstAt(s + [x], x, |s|);
    assert (s + [x])[|s| + 1..] == [];
  }

  /** Removing an element preserves the absence of duplicates, and removes every copy of it. */
  lemma {:induction false} RemoveFirstDistinct<T>(s: seq<T>, x: T)
    requires Distinct(s)
    ensures Distinct(RemoveFirst(s, x))
    ensures forall y :: y in RemoveFirst(s, x) ==> y in s && y != x
  {
    if s != [] {
      var t := s[1..];
      assert Distinct(t) by {
        forall i | 0 <= i < |t| ensures t[i] !in t[..i] {
          assert s[i + 1] == t[i] && s[..i + 1] == [s[0]] + t[..i];
        }
      }
      RemoveFirstDistinct(t, x);
      assert s[0] !in t by {
        forall i | 0 <= i < |t| ensures t[i] != s[0] {
          assert s[..i + 1][0] == s[0] && t[i] == s[i + 1];
        }
      }
      if s[0] != x {
        var r := [s[0]] + RemoveFirst(t, x);
        forall i | 0 <= i < |r| ensures r[i] !in r[..i] {
          if i > 0 {
            assert r[i] == RemoveFirst(t, x)[i - 1] && r[..i] == [s[0]] + RemoveFirst(t, x)[..i - 1];
          }
        }
      } else {
        assert x !in t;
      }
    }
  }

  /** Appending a fresh element preserves the absence of duplicates. */
  lemma AppendDistinct<T>(s: seq<T>, x: T)
    requires Distinct(s) && x !in s
    ensures Distinct(s + [x])
  {
    forall i | 0 <= i < |s| + 1 ensures (s + [x])[i] !in (s + [x])[..i] {
      if i < |s| { assert (s + [x])[..i] == s[..i]; } else { assert (s + [x])[..i] == s; }
    }
  }

  /** `s.splice(s.indexOf(x), 1)` when `x` is present removes its first occurrence. */
  lemma SpliceIndexOfPresent<T>(s: seq<T>, x: T)
    requires x in s
    ensures SpliceOne(s, IndexOf(s, x)) == RemoveFirst(s, x)
  {
    var i := IndexOf(s, x);
    SpliceOneInRange(s, i);
    RemoveFirstAt(s, x, i);
  }

  /** A start inside the list removes exactly that slot. */
  lemma SpliceOneInRange<T>(s: seq<T>, start: int)
    requires 0 <= start < |s|
    ensures SpliceOne(s, start) == s[..start] + s[start + 1..]
  {
  }

  /**
   * `s.splice(s.indexOf(x), 1)` when `x` is absent: `indexOf` gives -1 and
   * the splice removes the LAST element (nothing, if `s` is empty).
   */
  lemma SpliceIndexOfAbsent<T>(s: seq<T>, x: T)
    requires x !in s
    ensures SpliceOne(s, IndexOf(s, x)) == if s == [] then [] else s[..|s| - 1]
  {
  }

  /** The elements at even indices 0, 2, 4, ... */
  function Evens<T>(s: seq<T>): seq<T>
  {
    seq((|s| + 1) / 2, i requires 0 <= i < (|s| + 1) / 2 => s[2 * i])
  }

  /** The elements at odd indices 1, 3, 5, ... */
  function Odds<T>(s: seq<T>): seq<T>
  {
    seq(|s| / 2, i requires 0 <= i < |s| / 2 => s[2 * i + 1])
  }

  /** Extending a list by one element extends exactly one of its halves. */
  lemma EvensOddsSnoc<T>(s: seq<T>, x: T)
    ensures |s| % 2 == 0 ==> Evens(s + [x]) == Evens(s) + [x] && Odds(s + [x]) == Odds(s)
    ensures |s| % 2 == 1 ==> Evens(s + [x]) == Evens(s) && Odds(s + [x]) == Odds(s) + [x]
  {
    var t := s + [x];
    if |s| % 2 == 0 {
      assert |Evens(t)| == |Evens(s) + [x]|;
      forall i | 0 <= i < |Evens(t)| ensures Evens(t)[i] == (Evens(s) + [x])[i] {
        if i < |Evens(s)| { assert t[2 * i] == s[2 * i]; }
      }
      forall i | 0 <= i < |Odds(t)| ensures Odds(t)[i] == Odds(s)[i] {
        assert t[2 * i + 1] == s[2 * i + 1];
      }
    } else {
      forall i | 0 <= i < |Evens(t)| ensures Evens(t)[i] == Evens(s)[i] {
        assert t[2 * i] == s[2 * i];
      }
      assert |Odds(t)| == |Odds(s) + [x]|;
      forall i | 0 <= i < |Odds(t)| ensures Odds(t)[i] == (Odds(s) + [x])[i] {
        if i < |Odds(s)| { assert t[2 * i + 1] == s[2 * i + 1]; }
      }
    }
  }

  /** Every element is in exactly one of the halves of a duplicate-free list. */
  lemma EvensOddsPartition<T>(s: seq<T>, x: T)
    requires Distinct(s)
    ensures x in s <==> x in Evens(s) || x in Odds(s)
    ensures !(x in Evens(s) && x in Odds(s))
  {
    if x in s {
      var k :| 0 <= k < |s| && s[k] == x;
      if k % 2 == 0 { assert Evens(s)[k / 2] == x; } else { assert Odds(s)[k / 2] == x; }
    }
    forall i, j | 0 <= i < |Evens(s)| && 0 <= j < |Odds(s)| ensures Evens(s)[i] != Odds(s)[j] {
      DistinctFrom(s, 2 * j + 1);
      assert Evens(s)[i] == s[2 * i];
    }
  }

  // A `forEach` over `s` whose callback removes the element it is given
  // reads index k of the live list at step k. After k steps the live list
  // is `Remaining(s, k)` and the callback has seen `Visited(s, k)`.

  /** How much of `s` the first `k` steps have consumed. */
  function Cut(n: nat, k: nat): nat
  {
    if 2 * k <= n then 2 * k else n
  }

  function Remaining<T>(s: seq<T>, k: nat): seq<T>
  {
    Odds(s[..Cut(|s|, k)]) + s[Cut(|s|, k)..]
  }

  function Visited<T>(s: seq<T>, k: nat): seq<T>
  {
    Evens(s[..Cut(|s|, k)])
  }

  lemma SpliceWalkStart<T>(s: seq<T>)
    ensures Remaining(s, 0) == s && Visited(s, 0) == []
  {
    assert s[..0] == [] && s[0..] == s;
  }

  /** Before step `k` finds an element, the live list is the odd half of the visited prefix, then the rest of `s`. */
  lemma SpliceWalkLive<T>(s: seq<T>, k: nat)
    requires k < |Remaining(s, k)|
    ensures 2 * k < |s|
    ensures Remaining(s, k) == Odds(s[..2 * k]) + s[2 * k..] && |Odds(s[..2 * k])| == k
    ensures Visited(s, k) == Evens(s[..2 * k])
    ensures Remaining(s, k)[k] == s[2 * k]
  {
  }

  /** In a list where `s[2k]` occurs once, step `k` has not yet seen it. */
  lemma SpliceWalkUnseen<T>(s: seq<T>, k: nat)
    requires 2 * k < |s|
    requires forall i :: 0 <= i < |s| && i != 2 * k ==> s[i] != s[2 * k]
    ensures s[2 * k] !in Odds(s[..2 * k]) && s[2 * k] !in Evens(s[..2 * k])
  {
    var p, x := s[..2 * k], s[2 * k];
    forall i | 0 <= i < |Odds(p)| ensures Odds(p)[i] != x {
      assert Odds(p)[i] == s[2 * i + 1];
    }
    forall i | 0 <= i < |Evens(p)| ensures Evens(p)[i] != x {
      assert Evens(p)[i] == s[2 * i];
    }
  }

  /** Removing `s[2k]` from the live list gives the live list of step `k + 1`. */
  lemma SpliceWalkRemove<T>(s: seq<T>, k: nat)
    requires 2 * k < |s| && s[2 * k] !in Odds(s[..2 * k])
    ensures |Odds(s[..2 * k])| == k
    ensures RemoveFirst(Odds(s[..2 * k]) + s[2 * k..], s[2 * k]) == Remaining(s, k + 1)
  {
    var p, x := s[..2 * k], s[2 * k];
    var devs := Odds(p) + s[2 * k..];
    assert devs[..k] == Odds(p);
    RemoveFirstAt(devs, x, k);
    assert devs[k + 1..] == s[2 * k + 1..];
    SpliceWalkRemaining(s, k);
  }

  /** The live list of step `k + 1` is the odd half before `s[2k]`, then what follows `s[2k]`. */
  lemma SpliceWalkRemaining<T>(s: seq<T>, k: nat)
    requires 2 * k < |s|
    ensures Remaining(s, k + 1) == Odds(s[..2 * k]) + s[2 * k + 1..]
  {
    var p, x := s[..2 * k], s[2 * k];
    assert s[..2 * k + 1] == p + [x];
    EvensOddsSnoc(p, x);
    if 2 * k + 2 <= |s| {
      var y := s[2 * k + 1];
      assert s[..2 * k + 2] == (p + [x]) + [y];
      EvensOddsSnoc(p + [x], y);
      assert s[2 * k + 1..] == [y] + s[2 * k + 2..];
      assert (Odds(p) + [y]) + s[2 * k + 2..] == Odds(p) + ([y] + s[2 * k + 2..]);
    } else {
      assert s[..|s|] == p + [x];
      assert s[2 * k + 1..] == [] && s[|s|..] == [];
    }
  }

  /** Step `k` adds `s[2k]` to what the callback has seen. */
  lemma SpliceWalkVisit<T>(s: seq<T>, k: nat)
    requires 2 * k < |s|
    ensures Visited(s, k + 1) == Evens(s[..2 * k]) + [s[2 * k]]
  {
    var p, x := s[..2 * k], s[2 * k];
    assert s[..2 * k + 1] == p + [x];
    EvensOddsSnoc(p, x);
    if 2 * k + 2 <= |s| {
      var y := s[2 * k + 1];
      assert s[..2 * k + 2] == (p + [x]) + [y];
      EvensOddsSnoc(p + [x], y);
    } else {
      assert s[..|s|] == p + [x];
    }
  }

  /** A step past the end of the live list does nothing. */
  lemma SpliceWalkIdle<T>(s: seq<T>, k: nat)
    requires k >= |Remaining(s, k)|
    ensures Cut(|s|, k) == |s| && Cut(|s|, k + 1) == |s|
    ensures Remaining(s, k + 1) == Remaining(s, k) && Visited(s, k + 1) == Visited(s, k)
  {
  }

  /** After `|s|` steps the callback has seen the even positions; the odd ones are left. */
  lemma SpliceWalkEnd<T>(s: seq<T>)
    ensures Remaining(s, |s|) == Odds(s) && Visited(s, |s|) == Evens(s)
  {
    assert s[..|s|] == s;
  }

  /**
   * After `k` steps of a `forEach` over `s` whose callback removes the
   * element it is given, the live list is `live` and the callback has been
   * given the elements of `seen`, in order.
   */
  ghost predicate WalkedTo<T>(s: seq<T>, k: nat, live: seq<T>, seen: seq<T>)
  {
    live == Remaining(s, k) && seen == Visited(s, k)
  }

  lemma WalkStart<T>(s: seq<T>)
    ensures WalkedTo(s, 0, s, [])
  {
    SpliceWalkStart(s);
  }

  /** A step that finds an element hands the callback one it has not seen and removes it. */
  lemma WalkStep<T>(s: seq<T>, k: nat, live: seq<T>, seen: seq<T>)
    requires Distinct(s) && WalkedTo(s, k, live, seen) && k < |live|
    ensures 2 * k < |s| && live[k] == s[2 * k] && live[k] !in seen
    ensures WalkedTo(s, k + 1, RemoveFirst(live, live[k]), seen + [live[k]])
  {
    SpliceWalkLive(s, k);
    DistinctFrom(s, 2 * k);
    SpliceWalkUnseen(s, k);
    SpliceWalkRemove(s, k);
    SpliceWalkVisit(s, k);
  }

  lemma WalkIdle<T>(s: seq<T>, k: nat, live: seq<T>, seen: seq<T>)
    requires WalkedTo(s, k, live, seen) && k >= |live|
    ensures WalkedTo(s, k + 1, live, seen)
  {
    SpliceWalkIdle(s, k);
  }

  /** A `forEach` over `s` whose callback removes its element visits the even positions and leaves the odd ones. */
  lemma WalkEnd<T>(s: seq<T>, live: seq<T>, seen: seq<T>)
    requires WalkedTo(s, |s|, live, seen)
    ensures live == Odds(s) && seen == Evens(s)
  {
    SpliceWalkEnd(s);
  }

  /** Only a list of at most one element is its own even half. */
  lemma EvensIsWholeIff<T>(s: seq<T>)
    ensures Evens(s) == s <==> |s| <= 1
    ensures Odds(s) == [] <==> |s| <= 1
  {
    if |s| <= 1 {
      assert |Evens(s)| == |s|;
      forall i | 0 <= i < |s| ensures Evens(s)[i] == s[i] { }
    } else {
      assert |Evens(s)| < |s|;
      assert |Odds(s)| >= 1;
    }
  }
}
