/** `SELECT nome, xp, nivel, diamantes FROM usuarios ORDER BY xp DESC LIMIT 50`. */
module Ranking {
  import opened Outcomes

  const RankingSize := 50

  /** One row of the ranking response. */
  datatype RankEntry = RankEntry(nome: string, xp: int, nivel: int, diamantes: int)

  predicate SortedByXpDesc(s: seq<RankEntry>)
  {
    forall i, j :: 0 <= i < j < |s| ==> s[i].xp >= s[j].xp
  }

  /**
    Places `e` before the first entry with no more xp than it. SQL leaves the
    order of equal xp unspecified; this puts `e` ahead of its equals.
  */
  function Insert(e: RankEntry, s: seq<RankEntry>): (r: seq<RankEntry>)
    requires SortedByXpDesc(s)
    ensures SortedByXpDesc(r)
    ensures multiset(r) == multiset(s) + multiset{e}
  {
    if s == [] then [e]
    else if s[0].xp <= e.xp then [e] + s
    else
      assert SortedByXpDesc(s[1..]);
      var rest := Insert(e, s[1..]);
      assert s == [s[0]] + s[1..];
      assert forall x :: x in rest ==> x.xp <= s[0].xp by {
        forall x | x in rest ensures x.xp <= s[0].xp {
          assert x in multiset(rest);
          assert x == e || x in s[1..];
        }
      }
      ConsSorted(s[0], rest);
      [s[0]] + rest
  }

  /** A head with at least the xp of every entry of a sorted tail keeps it sorted. */
  lemma ConsSorted(h: RankEntry, t: seq<RankEntry>)
    requires SortedByXpDesc(t)
    requires forall x :: x in t ==> x.xp <= h.xp
    ensures SortedByXpDesc([h] + t)
  {
    forall i, j | 0 <= i < j < |[h] + t| ensures ([h] + t)[i].xp >= ([h] + t)[j].xp {
      assert ([h] + t)[j] == t[j - 1];
      if i > 0 {
        assert ([h] + t)[i] == t[i - 1];
      } else {
        assert t[j - 1] in t;
      }
    }
  }

  /**
    An ORDER BY xp DESC of the whole table: a permutation sorted by xp, highest
    first. Each row is inserted ahead of the later rows with equal xp, so ties
    come out in table order.
  */
  function SortByXp(s: seq<RankEntry>): (r: seq<RankEntry>)
    ensures SortedByXpDesc(r)
    ensures multiset(r) == multiset(s)
  {
    if s == [] then []
    else
      assert s == [s[0]] + s[1..];
      Insert(s[0], SortByXp(s[1..]))
  }

  /** The entries with exactly `x` xp, in the order they appear. */
  function WithXp(s: seq<RankEntry>, x: int): seq<RankEntry>
  {
    if s == [] then []
    else (if s[0].xp == x then [s[0]] else []) + WithXp(s[1..], x)
  }

  lemma WithXpCons(h: RankEntry, t: seq<RankEntry>, x: int)
    ensures WithXp([h] + t, x) == (if h.xp == x then [h] else []) + WithXp(t, x)
  {
    assert ([h] + t)[1..] == t;
  }

  /** Inserting `e` puts it ahead of every entry with the same xp. */
  lemma {:induction false} InsertAheadOfEquals(e: RankEntry, s: seq<RankEntry>, x: int)
    requires SortedByXpDesc(s)
    ensures WithXp(Insert(e, s), x) == (if e.xp == x then [e] else []) + WithXp(s, x)
  {
    if s == [] {
      WithXpCons(e, [], x);
    } else if s[0].xp <= e.xp {
      WithXpCons(e, s, x);
    } else {
      assert SortedByXpDesc(s[1..]);
      var rest := Insert(e, s[1..]);
      assert Insert(e, s) == [s[0]] + rest;
      var tail := WithXp(s[1..], x);
      InsertAheadOfEquals(e, s[1..], x);
      WithXpCons(s[0], rest, x);
      WithXpCons(s[0], s[1..], x);
      assert s == [s[0]] + s[1..];
      if s[0].xp == x {
        // s[0] has more xp than e, so e is not among the entries with x xp.
        assert WithXp(rest, x) == tail;
        assert WithXp(s, x) == [s[0]] + tail;
      } else {
        assert WithXp(s, x) == tail;
      }
    }
  }

  /**
    Sorting is stable: for every xp value, the entries with that xp come out
    in the order they have in the table.
  */
  lemma {:induction false} TiesKeepTableOrder(s: seq<RankEntry>, x: int)
    ensures WithXp(SortByXp(s), x) == WithXp(s, x)
  {
    if s != [] {
      TiesKeepTableOrder(s[1..], x);
      InsertAheadOfEquals(s[0], SortByXp(s[1..]), x);
    }
  }

  /**
    The first k entries of a sorted sequence dominate the rest: every entry
    left out, counted with multiplicity, has no more xp than any entry kept.
  */
  lemma PrefixDominates(s: seq<RankEntry>, k: nat)
    requires SortedByXpDesc(s) && k <= |s|
    ensures forall e :: e in multiset(s) - multiset(s[..k]) ==> forall t :: t in s[..k] ==> e.xp <= t.xp
  {
    assert s == s[..k] + s[k..];
    assert multiset(s) - multiset(s[..k]) == multiset(s[k..]);
    forall e, t | e in multiset(s) - multiset(s[..k]) && t in s[..k] ensures e.xp <= t.xp {
      assert e in s[k..];
      var j :| 0 <= j < |s[k..]| && s[k..][j] == e;
      var i :| 0 <= i < k && s[..k][i] == t;
      assert s[k + j] == e && s[i] == t;
    }
  }

  /** Keeping the first k entries of a permutation of `table` leaves out exactly the rest. */
  lemma PrefixSplit(sorted: seq<RankEntry>, table: seq<RankEntry>, k: nat)
    requires multiset(sorted) == multiset(table) && k <= |sorted|
    ensures multiset(sorted[..k]) <= multiset(table)
    ensures multiset(table) - multiset(sorted[..k]) == multiset(sorted[k..])
    ensures forall e :: e in table && e !in sorted[..k] ==> e in multiset(table) - multiset(sorted[..k])
  {
    assert sorted == sorted[..k] + sorted[k..];
    forall e | e in table && e !in sorted[..k]
      ensures e in multiset(table) - multiset(sorted[..k])
    {
      assert e in multiset(table);
    }
  }

  /**
    The ranking response: at most 50 entries, sorted by xp, drawn from the
    table, and no row left out has more xp than a row shown.
  */
  function Top(table: seq<RankEntry>): (top: seq<RankEntry>)
    ensures |top| == Min(RankingSize, |table|)
    ensures SortedByXpDesc(top)
    ensures multiset(top) <= multiset(table)
    ensures forall e :: e in multiset(table) - multiset(top) ==> forall t :: t in top ==> e.xp <= t.xp
    ensures forall e :: e in table && e !in top ==> forall t :: t in top ==> e.xp <= t.xp
  {
    var sorted := SortByXp(table);
    assert |sorted| == |multiset(sorted)| == |table|;
    var k := Min(RankingSize, |sorted|);
    PrefixDominates(sorted, k);
    PrefixSplit(sorted, table, k);
    sorted[..k]
  }
}
