/**
 * The final ordering of find_arbitrage_opportunities
 * (get_odds/get_odds.py:153): a stable sort, highest first, on the profit
 * margin rounded to two decimals as stored in the record.
 */
module Ranking {
  import opened OddsData

  /** Rounding to the nearest integer, ties to the even neighbour, as Python's round does. */
  function RoundHalfEven(x: real): (n: int)
    ensures x - 0.5 <= n as real <= x + 0.5
    ensures (n as real - x == 0.5 || x - n as real == 0.5) ==> n % 2 == 0
  {
    var f := x.Floor;
    var fraction := x - f as real;
    if fraction < 0.5 then f
    else if fraction > 0.5 then f + 1
    else if f % 2 == 0 then f else f + 1
  }

  lemma RoundHalfEvenMonotone(x: real, y: real)
    requires x <= y
    ensures RoundHalfEven(x) <= RoundHalfEven(y)
  {
    var fx, fy := x.Floor, y.Floor;
    if fx == fy {
      assert x - fx as real <= y - fy as real;
    } else {
      assert fx < fy;
    }
  }

  /** round(x, 2) on an exact value: the nearest multiple of 0.01, ties to an even count of hundredths. */
  function RoundCents(x: real): (r: real)
    ensures (r * 100.0).Floor as real == r * 100.0
    ensures x - 0.005 <= r <= x + 0.005
    ensures (r - x == 0.005 || x - r == 0.005) ==> (r * 100.0).Floor % 2 == 0
  {
    RoundHalfEven(x * 100.0) as real / 100.0
  }

  lemma RoundCentsMonotone(x: real, y: real)
    requires x <= y
    ensures RoundCents(x) <= RoundCents(y)
  {
    RoundHalfEvenMonotone(x * 100.0, y * 100.0);
  }

  /** The sort key: the record's profit_margin_percent, which the source stores rounded to cents. */
  function MarginKey(o: Opportunity): real
  {
    RoundCents(o.profitMarginPercent)
  }

  ghost predicate Descending(s: seq<Opportunity>)
  {
    forall i, j :: 0 <= i < j < |s| ==> MarginKey(s[i]) >= MarginKey(s[j])
  }

  /** The records of `s` whose key is `k`, in their order in `s`. */
  function WithKey(s: seq<Opportunity>, k: real): seq<Opportunity>
  {
    if s == [] then []
    else (if MarginKey(s[0]) == k then [s[0]] else []) + WithKey(s[1..], k)
  }

  /** Places `o` after every record whose key is at least its own. */
  function Insert(sorted: seq<Opportunity>, o: Opportunity): seq<Opportunity>
  {
    if sorted == [] then [o]
    else if MarginKey(sorted[0]) >= MarginKey(o) then [sorted[0]] + Insert(sorted[1..], o)
    else [o] + sorted
  }

  /** Insertion sort: the reference for what list.sort(key=..., reverse=True) produces. */
  function SortByMargin(s: seq<Opportunity>): seq<Opportunity>
    decreases |s|
  {
    if s == [] then [] else Insert(SortByMargin(s[..|s| - 1]), s[|s| - 1])
  }

  lemma {:induction false} WithKeyAppend(s: seq<Opportunity>, t: seq<Opportunity>, k: real)
    ensures WithKey(s + t, k) == WithKey(s, k) + WithKey(t, k)
    decreases |s|
  {
    if s == [] {
      assert s + t == t;
    } else {
      assert (s + t)[1..] == s[1..] + t;
      WithKeyAppend(s[1..], t, k);
    }
  }

  lemma {:induction false} WithKeyAbsent(s: seq<Opportunity>, k: real)
    requires forall i :: 0 <= i < |s| ==> MarginKey(s[i]) != k
    ensures WithKey(s, k) == []
    decreases |s|
  {
    if s != [] {
      WithKeyAbsent(s[1..], k);
    }
  }

  lemma {:induction false} InsertPermutes(sorted: seq<Opportunity>, o: Opportunity)
    ensures multiset(Insert(sorted, o)) == multiset(sorted) + multiset{o}
    decreases |sorted|
  {
    if sorted != [] && MarginKey(sorted[0]) >= MarginKey(o) {
      assert sorted == [sorted[0]] + sorted[1..];
      InsertPermutes(sorted[1..], o);
    }
  }

  lemma {:induction false} InsertElements(sorted: seq<Opportunity>, o: Opportunity)
    ensures |Insert(sorted, o)| == |sorted| + 1
    ensures forall i :: 0 <= i < |Insert(sorted, o)| ==> Insert(sorted, o)[i] == o || Insert(sorted, o)[i] in sorted
    decreases |sorted|
  {
    if sorted != [] && MarginKey(sorted[0]) >= MarginKey(o) {
      InsertElements(sorted[1..], o);
      var r := Insert(sorted, o);
      forall i | 0 <= i < |r| ensures r[i] == o || r[i] in sorted {
        if i > 0 {
          assert r[i] == Insert(sorted[1..], o)[i - 1];
        }
      }
    }
  }

  lemma {:induction false} InsertDescending(sorted: seq<Opportunity>, o: Opportunity)
    requires Descending(sorted)
    ensures Descending(Insert(sorted, o))
    decreases |sorted|
  {
    var r := Insert(sorted, o);
    if sorted == [] {
    } else if MarginKey(sorted[0]) >= MarginKey(o) {
      var rest := sorted[1..];
      InsertDescending(rest, o);
      InsertElements(rest, o);
      var inserted := Insert(rest, o);
      assert r == [sorted[0]] + inserted;
      forall i, j | 0 <= i < j < |r| ensures MarginKey(r[i]) >= MarginKey(r[j]) {
        assert r[j] == inserted[j - 1];
        if i > 0 {
          assert r[i] == inserted[i - 1];
        } else if inserted[j - 1] != o {
          var m :| 0 <= m < |rest| && rest[m] == inserted[j - 1];
          assert sorted[m + 1] == rest[m];
        }
      }
    } else {
      assert r == [o] + sorted;
      forall i, j | 0 <= i < j < |r| ensures MarginKey(r[i]) >= MarginKey(r[j]) {
        assert r[j] == sorted[j - 1];
        if i > 0 {
          assert r[i] == sorted[i - 1];
        } else {
          assert MarginKey(sorted[0]) >= MarginKey(sorted[j - 1]);
        }
      }
    }
  }

  lemma {:induction false} InsertStable(sorted: seq<Opportunity>, o: Opportunity, k: real)
    requires Descending(sorted)
    ensures WithKey(Insert(sorted, o), k) == WithKey(sorted, k) + WithKey([o], k)
    decreases |sorted|
  {
    if sorted == [] {
      assert WithKey(sorted, k) == [];
    } else if MarginKey(sorted[0]) >= MarginKey(o) {
      var head, rest := sorted[0], sorted[1..];
      assert Descending(rest);
      calc {
        WithKey(Insert(sorted, o), k);
        WithKey([head] + Insert(rest, o), k);
        { WithKeyAppend([head], Insert(rest, o), k); }
        WithKey([head], k) + WithKey(Insert(rest, o), k);
        { InsertStable(rest, o, k); }
        WithKey([head], k) + (WithKey(rest, k) + WithKey([o], k));
        { WithKeyAppend([head], rest, k); assert [head] + rest == sorted; }
        WithKey(sorted, k) + WithKey([o], k);
      }
    } else {
      InsertStableFront(sorted, o, k);
    }
  }

  /** A record placed in front of a descending list, because its key is larger than the list's first, is last among its key. */
  lemma InsertStableFront(sorted: seq<Opportunity>, o: Opportunity, k: real)
    requires Descending(sorted) && sorted != [] && MarginKey(sorted[0]) < MarginKey(o)
    ensures WithKey([o] + sorted, k) == WithKey(sorted, k) + WithKey([o], k)
  {
    WithKeyAppend([o], sorted, k);
    if MarginKey(o) == k {
      forall i | 0 <= i < |sorted| ensures MarginKey(sorted[i]) != k {
        assert MarginKey(sorted[i]) <= MarginKey(sorted[0]);
      }
      WithKeyAbsent(sorted, k);
    } else {
      assert WithKey([o], k) == [];
    }
  }

  /**
   * The sort puts the records in non-increasing key order, keeps every
   * record, and keeps the input order among records with equal keys.
   */
  lemma {:induction false} SortByMarginCorrect(s: seq<Opportunity>)
    ensures Descending(SortByMargin(s))
    ensures multiset(SortByMargin(s)) == multiset(s)
    ensures forall k :: WithKey(SortByMargin(s), k) == WithKey(s, k)
    decreases |s|
  {
    if s != [] {
      var n := |s|;
      var prior, last := s[..n - 1], s[n - 1];
      assert s == prior + [last];
      SortByMarginCorrect(prior);
      InsertPermutes(SortByMargin(prior), last);
      InsertDescending(SortByMargin(prior), last);
      forall k ensures WithKey(SortByMargin(s), k) == WithKey(s, k) {
        InsertStable(SortByMargin(prior), last, k);
        WithKeyAppend(prior, [last], k);
      }
    }
  }

  /** Exact margins can come out of order only when they round to the same cents. */
  lemma ExactMarginsNearlyDescending(s: seq<Opportunity>, i: int, j: int)
    requires Descending(s) && 0 <= i < j < |s|
    requires s[i].profitMarginPercent < s[j].profitMarginPercent
    ensures MarginKey(s[i]) == MarginKey(s[j])
  {
    RoundCentsMonotone(s[i].profitMarginPercent, s[j].profitMarginPercent);
  }
}
