/**
 * The price levels a snapshot reports for one side of the book.
 *
 * `_accumulate_order_levels` walks the side's orders in key order, each as a
 * quote `(|key price|, shares)`, and merges a quote into the last level when the
 * prices match, otherwise opens a new level; before each quote it stops once
 * `depth` levels exist. `Accumulate` is that loop as written. The reference it is
 * proved against is `Groups`, the runs of equal consecutive prices with their
 * total and their first quote's shares, cut to `depth` by `Cap`: all levels but
 * the `depth`-th carry their run's total, while the `depth`-th carries only the
 * shares of its first quote, because the loop stops right after opening it.
 */
module Levels {

  /** A price level `(price, shares)`; a single order's quote has the same shape. */
  datatype Level = Level(price: int, shares: int)

  /** One pass of the loop body below the depth test. */
  function Absorb(levels: seq<Level>, q: Level): (r: seq<Level>)
    ensures |r| == |levels| || |r| == |levels| + 1
  {
    if |levels| == 0 || levels[|levels| - 1].price != q.price then levels + [q]
    else
      var last := levels[|levels| - 1];
      levels[|levels| - 1 := Level(last.price, last.shares + q.shares)]
  }

  /** The loop over the remaining quotes, from the levels built so far. */
  function AccumulateFrom(quotes: seq<Level>, depth: int, levels: seq<Level>): seq<Level>
    decreases |quotes|
  {
    if quotes == [] || |levels| >= depth then levels
    else AccumulateFrom(quotes[1..], depth, Absorb(levels, quotes[0]))
  }

  /** One turn of the loop below `depth` levels: a new level or a merge into the last. */
  lemma AccumulateStep(quotes: seq<Level>, i: nat, depth: int, levels: seq<Level>, price: int, shares: int)
    requires i < |quotes| && quotes[i] == Level(price, shares) && |levels| < depth
    ensures (|levels| == 0 || levels[|levels| - 1].price != price) ==>
      AccumulateFrom(quotes[i..], depth, levels)
      == AccumulateFrom(quotes[i + 1..], depth, levels + [Level(price, shares)])
    ensures (|levels| > 0 && levels[|levels| - 1].price == price) ==>
      AccumulateFrom(quotes[i..], depth, levels)
      == AccumulateFrom(quotes[i + 1..], depth,
                        levels[|levels| - 1 := Level(levels[|levels| - 1].price, levels[|levels| - 1].shares + shares)])
  {
    assert quotes[i..][0] == quotes[i] && quotes[i..][1..] == quotes[i + 1..];
  }

  /** `_accumulate_order_levels` on quotes listed in key order. */
  function Accumulate(quotes: seq<Level>, depth: int): seq<Level> {
    AccumulateFrom(quotes, depth, [])
  }

  // ---------------------------------------------------------------------------
  // The reference: runs of equal prices.

  /** A maximal run of quotes at one price: its total and its first quote's shares. */
  datatype Group = Group(price: int, total: int, first: int)

  function Sum(quotes: seq<Level>): int {
    if quotes == [] then 0 else quotes[0].shares + Sum(quotes[1..])
  }

  /** The length of the run of quotes at the first quote's price. */
  function RunLength(quotes: seq<Level>): (r: nat)
    requires quotes != []
    ensures 1 <= r <= |quotes|
    ensures r == |quotes| || quotes[r].price != quotes[0].price
  {
    if |quotes| > 1 && quotes[1].price == quotes[0].price then 1 + RunLength(quotes[1..]) else 1
  }

  lemma {:induction false} RunPrices(quotes: seq<Level>)
    requires quotes != []
    ensures forall i :: 0 <= i < RunLength(quotes) ==> quotes[i].price == quotes[0].price
  {
    if |quotes| > 1 && quotes[1].price == quotes[0].price {
      RunPrices(quotes[1..]);
      forall i | 1 <= i < RunLength(quotes)
        ensures quotes[i].price == quotes[0].price
      {
        assert quotes[i] == quotes[1..][i - 1];
      }
    }
  }

  /** The runs of equal consecutive prices, in order. */
  function Groups(quotes: seq<Level>): (gs: seq<Group>)
    ensures |gs| <= |quotes|
    ensures gs != [] <==> quotes != []
    ensures gs != [] ==> gs[0].price == quotes[0].price
    decreases |quotes|
  {
    if quotes == [] then []
    else
      var r := RunLength(quotes);
      [Group(quotes[0].price, Sum(quotes[..r]), quotes[0].shares)] + Groups(quotes[r..])
  }

  /** Consecutive runs have different prices. */
  lemma {:induction false} GroupsChangePrice(quotes: seq<Level>)
    ensures forall i, j :: (0 <= i < j < |Groups(quotes)| && j == i + 1
      ==> Groups(quotes)[i].price != Groups(quotes)[j].price)
    decreases |quotes|
  {
    if quotes != [] {
      var gs := Groups(quotes);
      var rest := quotes[RunLength(quotes)..];
      assert gs[1..] == Groups(rest);
      GroupsChangePrice(rest);
      forall i, j | 0 <= i < j < |gs| && j == i + 1
        ensures gs[i].price != gs[j].price
      {
        if i == 0 {
          assert gs[1] == Groups(rest)[0] && rest[0] == quotes[RunLength(quotes)];
        } else {
          assert gs[i] == Groups(rest)[i - 1] && gs[j] == Groups(rest)[j - 1];
        }
      }
    }
  }

  /** A property every quote's price has, every run's price has. */
  lemma {:induction false} GroupPricesWhere(quotes: seq<Level>, P: int -> bool)
    requires forall j :: 0 <= j < |quotes| ==> P(quotes[j].price)
    ensures forall i :: 0 <= i < |Groups(quotes)| ==> P(Groups(quotes)[i].price)
    decreases |quotes|
  {
    if quotes != [] {
      var gs := Groups(quotes);
      var r := RunLength(quotes);
      var rest := quotes[r..];
      assert gs[1..] == Groups(rest);
      forall j | 0 <= j < |rest|
        ensures P(rest[j].price)
      {
        assert rest[j] == quotes[r + j];
      }
      GroupPricesWhere(rest, P);
      forall i | 1 <= i < |gs|
        ensures P(gs[i].price)
      {
        assert gs[i] == Groups(rest)[i - 1];
      }
    }
  }

  /** The first `depth` runs as levels, the last of them counted by its first quote only. */
  function Cap(gs: seq<Group>, depth: int): (levels: seq<Level>)
    ensures |levels| == if depth <= 0 then 0 else if |gs| < depth then |gs| else depth
    decreases |gs|
  {
    if gs == [] || depth <= 0 then []
    else if depth == 1 then [Level(gs[0].price, gs[0].first)]
    else [Level(gs[0].price, gs[0].total)] + Cap(gs[1..], depth - 1)
  }

  /** Merging the rest of a run into the level it opened. */
  lemma {:induction false} MergeRun(quotes: seq<Level>, depth: int, levels: seq<Level>,
                                     last: Level, k: nat)
    requires k <= |quotes| && |levels| + 1 < depth
    requires forall i :: 0 <= i < k ==> quotes[i].price == last.price
    ensures AccumulateFrom(quotes, depth, levels + [last])
         == AccumulateFrom(quotes[k..], depth, levels + [Level(last.price, last.shares + Sum(quotes[..k]))])
  {
    if k == 0 {
      assert quotes[..0] == [];
    } else {
      var merged := Level(last.price, last.shares + quotes[0].shares);
      assert (levels + [last])[..|levels|] == levels;
      assert Absorb(levels + [last], quotes[0]) == levels + [merged];
      MergeRun(quotes[1..], depth, levels, merged, k - 1);
      assert quotes[..k][1..] == quotes[1..][..k - 1];
      assert quotes[1..][k - 1..] == quotes[k..];
    }
  }

  /** A quote at a new price opens a level; at `depth` levels the loop then stops. */
  lemma OpenLastLevel(quotes: seq<Level>, depth: int, levels: seq<Level>)
    requires quotes != [] && |levels| + 1 == depth
    requires levels != [] ==> levels[|levels| - 1].price != quotes[0].price
    ensures AccumulateFrom(quotes, depth, levels) == levels + [quotes[0]]
  {
    assert Absorb(levels, quotes[0]) == levels + [quotes[0]];
  }

  /** Below `depth`, the quotes of a run at a new price make one level holding their total. */
  lemma OpenFullLevel(quotes: seq<Level>, depth: int, levels: seq<Level>)
    requires quotes != [] && |levels| + 1 < depth
    requires levels != [] ==> levels[|levels| - 1].price != quotes[0].price
    ensures var r := RunLength(quotes);
            (AccumulateFrom(quotes, depth, levels)
             == AccumulateFrom(quotes[r..], depth, levels + [Level(quotes[0].price, Sum(quotes[..r]))]))
  {
    var r := RunLength(quotes);
    var p := quotes[0].price;
    assert AccumulateFrom(quotes, depth, levels) == AccumulateFrom(quotes[1..], depth, levels + [quotes[0]]) by {
      assert Absorb(levels, quotes[0]) == levels + [quotes[0]];
    }
    RunPrices(quotes);
    var tail := quotes[1..][..r - 1];
    assert quotes[..r][1..] == tail;
    assert Sum(quotes[..r]) == quotes[0].shares + Sum(tail);
    assert forall i :: 0 <= i < r - 1 ==> quotes[1..][i].price == p by {
      forall i | 0 <= i < r - 1
        ensures quotes[1..][i].price == p
      {
        assert quotes[1..][i] == quotes[i + 1];
      }
    }
    MergeRun(quotes[1..], depth, levels, quotes[0], r - 1);
    assert quotes[1..][r - 1..] == quotes[r..];
  }

  /** The first level `Cap` makes when more than one level is allowed: the first run's total. */
  lemma CapFirst(quotes: seq<Level>, d: int)
    requires quotes != [] && d >= 2
    ensures var r := RunLength(quotes);
            Cap(Groups(quotes), d)
            == [Level(quotes[0].price, Sum(quotes[..r]))] + Cap(Groups(quotes[r..]), d - 1)
  {
    var r := RunLength(quotes);
    var gs := Groups(quotes);
    assert gs[0] == Group(quotes[0].price, Sum(quotes[..r]), quotes[0].shares);
    assert gs[1..] == Groups(quotes[r..]);
  }

  /** The only level `Cap` makes when one level is allowed: the first quote. */
  lemma CapLast(quotes: seq<Level>)
    requires quotes != []
    ensures Cap(Groups(quotes), 1) == [quotes[0]]
  {
    var gs := Groups(quotes);
    assert gs[0].price == quotes[0].price && gs[0].first == quotes[0].shares;
  }

  /** The quote after the first run has another price. */
  lemma NextRunDiffers(quotes: seq<Level>)
    requires quotes != []
    ensures var rest := quotes[RunLength(quotes)..];
            rest != [] ==> rest[0].price != quotes[0].price
  {
    var r := RunLength(quotes);
    if r < |quotes| {
      assert quotes[r..][0] == quotes[r];
    }
  }

  /** The loop from any levels whose last price differs from the next quote's. */
  lemma {:induction false} AccumulateFromGroups(quotes: seq<Level>, depth: int, levels: seq<Level>)
    requires |levels| < depth
    requires levels != [] && quotes != [] ==> levels[|levels| - 1].price != quotes[0].price
    ensures AccumulateFrom(quotes, depth, levels) == levels + Cap(Groups(quotes), depth - |levels|)
    decreases |quotes|
  {
    if quotes == [] {
      assert Cap(Groups(quotes), depth - |levels|) == [];
      assert levels + [] == levels;
    } else if |levels| + 1 == depth {
      CapLast(quotes);
      OpenLastLevel(quotes, depth, levels);
    } else {
      var r := RunLength(quotes);
      var first := Level(quotes[0].price, Sum(quotes[..r]));
      var rest := Cap(Groups(quotes[r..]), depth - |levels| - 1);
      CapFirst(quotes, depth - |levels|);
      OpenFullLevel(quotes, depth, levels);
      NextRunDiffers(quotes);
      AccumulateFromGroups(quotes[r..], depth, levels + [first]);
      assert depth - |levels + [first]| == depth - |levels| - 1;
      assert AccumulateFrom(quotes, depth, levels) == (levels + [first]) + rest;
      ConcatAssoc(levels, [first], rest);
    }
  }

  lemma ConcatAssoc<T>(a: seq<T>, b: seq<T>, c: seq<T>)
    ensures a + (b + c) == (a + b) + c
  {
  }

  /** The loop as written equals the reference: the first `depth` runs, the last by its first quote. */
  lemma AccumulateIsCap(quotes: seq<Level>, depth: int)
    ensures Accumulate(quotes, depth) == Cap(Groups(quotes), depth)
  {
    if depth > 0 {
      AccumulateFromGroups(quotes, depth, []);
    }
  }

  /** At most `depth` levels, exactly as many as there are runs up to `depth`. */
  lemma AccumulateLength(quotes: seq<Level>, depth: int)
    ensures |Accumulate(quotes, depth)| == if depth <= 0 then 0
      else if |Groups(quotes)| < depth then |Groups(quotes)| else depth
  {
    AccumulateIsCap(quotes, depth);
  }

  /** Level `i` has run `i`'s price, and run `i`'s total unless it is the `depth`-th level. */
  lemma CapLevel(gs: seq<Group>, depth: int, i: nat)
    requires i < |Cap(gs, depth)|
    ensures Cap(gs, depth)[i].price == gs[i].price
    ensures Cap(gs, depth)[i].shares == if i == depth - 1 then gs[i].first else gs[i].total
    decreases i
  {
    if i > 0 {
      CapLevel(gs[1..], depth - 1, i - 1);
    }
  }

  // ---------------------------------------------------------------------------
  // What the runs mean when the quotes are in key order.

  /** The total shares of the quotes at `price`. */
  function SumAt(quotes: seq<Level>, price: int): int {
    if quotes == [] then 0
    else (if quotes[0].price == price then quotes[0].shares else 0) + SumAt(quotes[1..], price)
  }

  predicate NonDecreasing(quotes: seq<Level>) {
    forall i, j :: 0 <= i <= j < |quotes| ==> quotes[i].price <= quotes[j].price
  }

  predicate NonIncreasing(quotes: seq<Level>) {
    forall i, j :: 0 <= i <= j < |quotes| ==> quotes[i].price >= quotes[j].price
  }

  /** Quotes at one price sit next to each other. */
  predicate Grouped(quotes: seq<Level>) {
    forall i, j, k :: 0 <= i < j < k < |quotes| && quotes[i].price == quotes[k].price
      ==> quotes[j].price == quotes[i].price
  }

  lemma {:induction false} SumAtAppend(a: seq<Level>, b: seq<Level>, price: int)
    ensures SumAt(a + b, price) == SumAt(a, price) + SumAt(b, price)
  {
    if a == [] {
      assert a + b == b;
    } else {
      assert (a + b)[1..] == a[1..] + b;
      SumAtAppend(a[1..], b, price);
    }
  }

  lemma {:induction false} SumAtOne(quotes: seq<Level>, price: int)
    requires forall i :: 0 <= i < |quotes| ==> quotes[i].price == price
    ensures SumAt(quotes, price) == Sum(quotes)
  {
    if quotes != [] {
      assert forall i :: 0 <= i < |quotes| - 1 ==> quotes[1..][i] == quotes[i + 1];
      SumAtOne(quotes[1..], price);
    }
  }

  lemma {:induction false} SumAtNone(quotes: seq<Level>, price: int)
    requires forall i :: 0 <= i < |quotes| ==> quotes[i].price != price
    ensures SumAt(quotes, price) == 0
  {
    if quotes != [] {
      assert forall i :: 0 <= i < |quotes| - 1 ==> quotes[1..][i] == quotes[i + 1];
      SumAtNone(quotes[1..], price);
    }
  }

  lemma GroupedSuffix(quotes: seq<Level>, r: nat)
    requires Grouped(quotes) && r <= |quotes|
    ensures Grouped(quotes[r..])
  {
    var rest := quotes[r..];
    forall a, b, c | 0 <= a < b < c < |rest| && rest[a].price == rest[c].price
      ensures rest[b].price == rest[a].price
    {
      assert rest[a] == quotes[r + a] && rest[b] == quotes[r + b] && rest[c] == quotes[r + c];
    }
  }

  /** With equal prices adjacent, the first run's price never occurs after it. */
  lemma RunThenRest(quotes: seq<Level>)
    requires Grouped(quotes) && quotes != []
    ensures var rest := quotes[RunLength(quotes)..];
            Grouped(rest) && forall j :: 0 <= j < |rest| ==> rest[j].price != quotes[0].price
  {
    var r := RunLength(quotes);
    var p := quotes[0].price;
    var rest := quotes[r..];
    forall j | 0 <= j < |rest|
      ensures rest[j].price != p
    {
      assert rest[j] == quotes[r + j] && quotes[r].price != p;
    }
    GroupedSuffix(quotes, r);
  }

  /** With equal prices adjacent, no two runs share a price. */
  lemma {:induction false} GroupsDistinct(quotes: seq<Level>)
    requires Grouped(quotes)
    ensures forall i, j :: 0 <= i < j < |Groups(quotes)| ==> Groups(quotes)[i].price != Groups(quotes)[j].price
    decreases |quotes|
  {
    if quotes != [] {
      var gs := Groups(quotes);
      var p := quotes[0].price;
      var rest := quotes[RunLength(quotes)..];
      RunThenRest(quotes);
      GroupPricesWhere(rest, x => x != p);
      assert gs[1..] == Groups(rest);
      GroupsDistinct(rest);
      forall i, j | 0 <= i < j < |gs|
        ensures gs[i].price != gs[j].price
      {
        assert gs[j] == Groups(rest)[j - 1];
        if i > 0 {
          assert gs[i] == Groups(rest)[i - 1];
        }
      }
    }
  }

  /** The quotes at `price` split between the first run and the rest. */
  lemma SumAtRunRest(quotes: seq<Level>, price: int)
    requires quotes != []
    ensures var r := RunLength(quotes);
            SumAt(quotes, price) == SumAt(quotes[..r], price) + SumAt(quotes[r..], price)
  {
    var r := RunLength(quotes);
    assert quotes == quotes[..r] + quotes[r..];
    SumAtAppend(quotes[..r], quotes[r..], price);
  }

  /** The first run holds everything quoted at its price. */
  lemma FirstGroupTotal(quotes: seq<Level>)
    requires Grouped(quotes) && quotes != []
    ensures Sum(quotes[..RunLength(quotes)]) == SumAt(quotes, quotes[0].price)
  {
    var r := RunLength(quotes);
    var run := quotes[..r];
    assert forall k :: 0 <= k < |run| ==> run[k].price == quotes[0].price by {
      RunPrices(quotes);
      assert forall k :: 0 <= k < |run| ==> run[k] == quotes[k];
    }
    SumAtRunRest(quotes, quotes[0].price);
    SumAtOne(run, quotes[0].price);
    RunThenRest(quotes);
    SumAtNone(quotes[r..], quotes[0].price);
  }

  /** A price the first run does not have is quoted only after it. */
  lemma LaterGroupTotal(quotes: seq<Level>, price: int)
    requires Grouped(quotes) && quotes != [] && price != quotes[0].price
    ensures SumAt(quotes, price) == SumAt(quotes[RunLength(quotes)..], price)
  {
    var r := RunLength(quotes);
    var run := quotes[..r];
    assert forall k :: 0 <= k < |run| ==> run[k].price != price by {
      RunPrices(quotes);
      assert forall k :: 0 <= k < |run| ==> run[k] == quotes[k];
    }
    SumAtRunRest(quotes, price);
    SumAtNone(run, price);
  }

  /** With equal prices adjacent, each run's total is all the shares quoted at its price. */
  lemma {:induction false} GroupTotals(quotes: seq<Level>, i: nat)
    requires Grouped(quotes) && i < |Groups(quotes)|
    ensures Groups(quotes)[i].total == SumAt(quotes, Groups(quotes)[i].price)
    decreases |quotes|
  {
    var r := RunLength(quotes);
    var p := quotes[0].price;
    var gs := Groups(quotes);
    var rest := quotes[r..];
    if i == 0 {
      FirstGroupTotal(quotes);
    } else {
      assert gs[i] == Groups(rest)[i - 1] by {
        assert gs[1..] == Groups(rest);
      }
      RunThenRest(quotes);
      GroupTotals(rest, i - 1);
      GroupPricesWhere(rest, x => x != p);
      LaterGroupTotal(quotes, gs[i].price);
    }
  }

  lemma MonotoneGrouped(quotes: seq<Level>)
    requires NonDecreasing(quotes) || NonIncreasing(quotes)
    ensures Grouped(quotes)
  {
  }

  predicate Ascending(gs: seq<Group>) {
    forall i, j :: 0 <= i < j < |gs| ==> gs[i].price < gs[j].price
  }

  predicate Descending(gs: seq<Group>) {
    forall i, j :: 0 <= i < j < |gs| ==> gs[i].price > gs[j].price
  }

  lemma AscendingCons(g: Group, gs: seq<Group>)
    requires Ascending(gs) && forall i :: 0 <= i < |gs| ==> g.price < gs[i].price
    ensures Ascending([g] + gs)
  {
    var all := [g] + gs;
    forall i, j | 0 <= i < j < |all|
      ensures all[i].price < all[j].price
    {
      assert all[j] == gs[j - 1];
      if i > 0 {
        assert all[i] == gs[i - 1];
      }
    }
  }

  lemma DescendingCons(g: Group, gs: seq<Group>)
    requires Descending(gs) && forall i :: 0 <= i < |gs| ==> g.price > gs[i].price
    ensures Descending([g] + gs)
  {
    var all := [g] + gs;
    forall i, j | 0 <= i < j < |all|
      ensures all[i].price > all[j].price
    {
      assert all[j] == gs[j - 1];
      if i > 0 {
        assert all[i] == gs[i - 1];
      }
    }
  }

  /** After the first run of non-decreasing quotes every price is higher. */
  lemma RestAbove(quotes: seq<Level>)
    requires NonDecreasing(quotes) && quotes != []
    ensures var rest := quotes[RunLength(quotes)..];
            NonDecreasing(rest) && forall j :: 0 <= j < |rest| ==> rest[j].price > quotes[0].price
  {
    var r := RunLength(quotes);
    var rest := quotes[r..];
    assert forall j :: 0 <= j < |rest| ==> rest[j] == quotes[r + j];
    if r < |quotes| {
      assert quotes[r].price > quotes[0].price;
    }
  }

  /** After the first run of non-increasing quotes every price is lower. */
  lemma RestBelow(quotes: seq<Level>)
    requires NonIncreasing(quotes) && quotes != []
    ensures var rest := quotes[RunLength(quotes)..];
            NonIncreasing(rest) && forall j :: 0 <= j < |rest| ==> rest[j].price < quotes[0].price
  {
    var r := RunLength(quotes);
    var rest := quotes[r..];
    assert forall j :: 0 <= j < |rest| ==> rest[j] == quotes[r + j];
    if r < |quotes| {
      assert quotes[r].price < quotes[0].price;
    }
  }

  /** Along quotes of non-decreasing price the runs' prices strictly increase. */
  lemma {:induction false} GroupsAscend(quotes: seq<Level>)
    requires NonDecreasing(quotes)
    ensures Ascending(Groups(quotes))
    decreases |quotes|
  {
    if quotes != [] {
      var r := RunLength(quotes);
      var p := quotes[0].price;
      var rest := quotes[r..];
      RestAbove(quotes);
      GroupPricesWhere(rest, x => x > p);
      GroupsAscend(rest);
      AscendingCons(Group(p, Sum(quotes[..r]), quotes[0].shares), Groups(rest));
    }
  }

  /** Along quotes of non-increasing price the runs' prices strictly decrease. */
  lemma {:induction false} GroupsDescend(quotes: seq<Level>)
    requires NonIncreasing(quotes)
    ensures Descending(Groups(quotes))
    decreases |quotes|
  {
    if quotes != [] {
      var r := RunLength(quotes);
      var p := quotes[0].price;
      var rest := quotes[r..];
      RestBelow(quotes);
      GroupPricesWhere(rest, x => x < p);
      GroupsDescend(rest);
      DescendingCons(Group(p, Sum(quotes[..r]), quotes[0].shares), Groups(rest));
    }
  }

  /** Every level but the `depth`-th holds all the shares quoted at its price. */
  lemma LevelTotals(quotes: seq<Level>, depth: int, i: nat)
    requires Grouped(quotes) && i < |Accumulate(quotes, depth)| && i != depth - 1
    ensures Accumulate(quotes, depth)[i].shares == SumAt(quotes, Accumulate(quotes, depth)[i].price)
  {
    AccumulateIsCap(quotes, depth);
    CapLevel(Groups(quotes), depth, i);
    GroupTotals(quotes, i);
  }

  /** The loop stops as soon as `depth` levels exist: two orders at one price with
      depth 1 report only the first order's shares, not the 15 quoted there. */
  lemma LastLevelCountsFirstOrder()
    ensures Accumulate([Level(100, 10), Level(100, 5)], 1) == [Level(100, 10)]
    ensures SumAt([Level(100, 10), Level(100, 5)], 100) == 15
  {
  }
}
