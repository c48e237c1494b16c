/**
 * `Array.prototype.sort` with the comparator `(a, b) => b.votes - a.votes`.
 * The engine's sort is stable, so its result is the stable sort by votes,
 * most votes first; it is modelled here as an insertion sort, which is
 * stable, and proved sorted, a permutation, and order-preserving among
 * records with equal votes.
 */
module VoteSort {
  import opened RadioTypes

  /** Non-increasing by votes. */
  predicate SortedByVotes(s: seq<Station>) {
    forall i, j :: 0 <= i < j < |s| ==> s[i].votes >= s[j].votes
  }

  /** Puts `x` in front of the first record that has no more votes than `x`. */
  function Insert(x: Station, s: seq<Station>): seq<Station> {
    if s == [] || x.votes >= s[0].votes then [x] + s else [s[0]] + Insert(x, s[1..])
  }

  /** The stable sort by votes, most votes first. */
  function SortByVotes(s: seq<Station>): seq<Station> {
    if s == [] then [] else Insert(s[0], SortByVotes(s[1..]))
  }

  /** The records of `s` that have exactly `v` votes, in their order in `s`. */
  function WithVotes(s: seq<Station>, v: int): seq<Station> {
    if s == [] then [] else (if s[0].votes == v then [s[0]] else []) + WithVotes(s[1..], v)
  }

  lemma {:induction false} InsertPermutes(x: Station, s: seq<Station>)
    ensures multiset(Insert(x, s)) == multiset(s) + multiset{x}
    decreases |s|
  {
    if s != [] && x.votes < s[0].votes {
      InsertPermutes(x, s[1..]);
      assert s == [s[0]] + s[1..];
    }
  }

  /** A record with at least the votes of every record of a sorted list can go in front of it. */
  lemma ConsSorted(y: Station, t: seq<Station>)
    requires SortedByVotes(t)
    requires forall z | z in t :: y.votes >= z.votes
    ensures SortedByVotes([y] + t)
  {
    var r := [y] + t;
    forall i, j | 0 <= i < j < |r| ensures r[i].votes >= r[j].votes {
      assert r[j] == t[j - 1];
      if i > 0 {
        assert r[i] == t[i - 1];
      }
    }
  }

  lemma {:induction false} InsertSorted(x: Station, s: seq<Station>)
    requires SortedByVotes(s)
    ensures SortedByVotes(Insert(x, s))
    decreases |s|
  {
    if s != [] && x.votes < s[0].votes {
      var tail := s[1..];
      assert SortedByVotes(tail) by {
        forall i, j | 0 <= i < j < |tail| ensures tail[i].votes >= tail[j].votes {
          assert tail[i] == s[i + 1] && tail[j] == s[j + 1];
        }
      }
      var rest := Insert(x, tail);
      InsertSorted(x, tail);
      InsertPermutes(x, tail);
      forall y | y in rest ensures s[0].votes >= y.votes {
        assert y in multiset(rest);
        if y != x {
          assert y in multiset(tail);
          var p :| 0 <= p < |tail| && tail[p] == y;
          assert s[p + 1] == y;
        }
      }
      ConsSorted(s[0], rest);
    } else if s != [] {
      forall z | z in s ensures x.votes >= z.votes {
        var p :| 0 <= p < |s| && s[p] == z;
      }
      ConsSorted(x, s);
    }
  }

  lemma {:induction false} WithVotesAppend(a: seq<Station>, b: seq<Station>, v: int)
    ensures WithVotes(a + b, v) == WithVotes(a, v) + WithVotes(b, v)
    decreases |a|
  {
    if a != [] {
      WithVotesAppend(a[1..], b, v);
      assert (a + b)[1..] == a[1..] + b;
    } else {
      assert a + b == b;
    }
  }

  lemma WithVotesSingle(y: Station, v: int)
    ensures WithVotes([y], v) == if y.votes == v then [y] else []
  {
    assert [y][1..] == [];
  }

  lemma SwapEmpty(a: seq<Station>, b: seq<Station>, c: seq<Station>)
    requires a == [] || b == []
    ensures b + (a + c) == a + (b + c)
  {
    if a == [] {
      assert a + c == c;
    } else {
      assert b + c == c;
    }
  }

  /** Inserting never reorders records of equal votes, and `x` stays ahead of its equals. */
  lemma {:induction false} InsertStable(x: Station, s: seq<Station>, v: int)
    ensures WithVotes(Insert(x, s), v) == WithVotes([x] + s, v)
    decreases |s|
  {
    if s != [] && x.votes < s[0].votes {
      var y, rest := s[0], s[1..];
      assert s == [y] + rest;
      // x and y have different votes, so at most one of them is kept
      var wx, wy := WithVotes([x], v), WithVotes([y], v);
      assert wx == [] || wy == [] by {
        WithVotesSingle(x, v);
        WithVotesSingle(y, v);
      }
      calc {
        WithVotes(Insert(x, s), v);
        { WithVotesAppend([y], Insert(x, rest), v); }
        wy + WithVotes(Insert(x, rest), v);
        { InsertStable(x, rest, v); }
        wy + WithVotes([x] + rest, v);
        { WithVotesAppend([x], rest, v); }
        wy + (wx + WithVotes(rest, v));
        { SwapEmpty(wx, wy, WithVotes(rest, v)); }
        wx + (wy + WithVotes(rest, v));
        { WithVotesAppend([y], rest, v); }
        wx + WithVotes(s, v);
        { WithVotesAppend([x], s, v); }
        WithVotes([x] + s, v);
      }
    }
  }

  lemma {:induction false} SortByVotesPermutes(s: seq<Station>)
    ensures multiset(SortByVotes(s)) == multiset(s)
    decreases |s|
  {
    if s != [] {
      var t := SortByVotes(s[1..]);
      calc {
        multiset(SortByVotes(s));
        multiset(Insert(s[0], t));
        { InsertPermutes(s[0], t); }
        multiset(t) + multiset{s[0]};
        { SortByVotesPermutes(s[1..]); }
        multiset(s[1..]) + multiset{s[0]};
        { assert s == [s[0]] + s[1..]; }
        multiset(s);
      }
    }
  }

  lemma {:induction false} SortByVotesSorted(s: seq<Station>)
    ensures SortedByVotes(SortByVotes(s))
    decreases |s|
  {
    if s != [] {
      SortByVotesSorted(s[1..]);
      InsertSorted(s[0], SortByVotes(s[1..]));
    }
  }

  lemma {:induction false} SortByVotesStable(s: seq<Station>, v: int)
    ensures WithVotes(SortByVotes(s), v) == WithVotes(s, v)
    decreases |s|
  {
    if s != [] {
      var t := SortByVotes(s[1..]);
      assert s == [s[0]] + s[1..];
      calc {
        WithVotes(SortByVotes(s), v);
        WithVotes(Insert(s[0], t), v);
        { InsertStable(s[0], t, v); }
        WithVotes([s[0]] + t, v);
        { WithVotesAppend([s[0]], t, v); }
        WithVotes([s[0]], v) + WithVotes(t, v);
        { SortByVotesStable(s[1..], v); }
        WithVotes([s[0]], v) + WithVotes(s[1..], v);
        { WithVotesAppend([s[0]], s[1..], v); }
        WithVotes(s, v);
      }
    }
  }

  /**
   * The sort returns a permutation of its input, ordered by votes, most
   * first, and records with equal votes keep their relative input order.
   */
  lemma SortByVotesCorrect(s: seq<Station>)
    ensures SortedByVotes(SortByVotes(s))
    ensures multiset(SortByVotes(s)) == multiset(s)
    ensures forall v :: WithVotes(SortByVotes(s), v) == WithVotes(s, v)
  {
    SortByVotesSorted(s);
    SortByVotesPermutes(s);
    forall v ensures WithVotes(SortByVotes(s), v) == WithVotes(s, v) {
      SortByVotesStable(s, v);
    }
  }

  /** The sort keeps the records it is given: same members, same length. */
  lemma SortByVotesMembers(s: seq<Station>)
    ensures |SortByVotes(s)| == |s|
    ensures forall x :: x in SortByVotes(s) <==> x in s
  {
    SortByVotesCorrect(s);
    assert |multiset(SortByVotes(s))| == |multiset(s)|;
    forall x ensures x in SortByVotes(s) <==> x in s {
      assert x in SortByVotes(s) <==> x in multiset(SortByVotes(s));
      assert x in s <==> x in multiset(s);
    }
  }
}
