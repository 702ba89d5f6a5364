/**
  The revenue card (src/components/RevenueCard/RevenueCard.tsx): the
  reconciliation of a range's points onto the fixed twelve-month axis of the
  bar chart, the "vs Last ..." caption, and the card's active range, which
  starts at "7d" and only decides which range the selector reads.
*/
module RevenueCard {
  import opened Wrappers
  import opened RevenueSlice

  /** The chart's label axis. */
  const Months: seq<string> := ["Jan", "Feb", "Mar", "Apr", "May", "Jun", "Jul", "Aug", "Sep", "Oct", "Nov", "Dec"]

  /**
    `new Map(data.map(d => [d.label, d.value]))`: the entries are inserted in
    order, so a later point with the same label overwrites an earlier one.
  */
  function ValueByLabel(points: seq<RevenuePoint>): (lookup: map<string, int>)
    ensures forall j :: 0 <= j < |points| ==> points[j].name in lookup
    ensures points != [] ==> lookup[points[|points| - 1].name] == points[|points| - 1].value
    decreases |points|
  {
    if points == [] then map[]
    else
      var last := points[|points| - 1];
      ValueByLabel(points[..|points| - 1])[last.name := last.value]
  }

  /** `Array.from(MONTHS, m => valueByLabel.get(m) ?? 0)`: one value per month, 0 where no point has that label. */
  function MonthValues(points: seq<RevenuePoint>): (values: seq<int>)
    ensures |values| == |Months| == 12
  {
    var lookup := ValueByLabel(points);
    seq(|Months|, i requires 0 <= i < |Months| => if Months[i] in lookup then lookup[Months[i]] else 0)
  }

  /** What `MiniBarChart` hands to the bar chart: the labels and the values, position by position. */
  datatype BarChartData = BarChartData(labels: seq<string>, values: seq<int>)

  function MiniBarChartData(points: seq<RevenuePoint>): (chart: BarChartData)
    ensures chart.labels == ["Jan", "Feb", "Mar", "Apr", "May", "Jun", "Jul", "Aug", "Sep", "Oct", "Nov", "Dec"]
    ensures |chart.values| == |chart.labels|
    ensures chart.values == MonthValues(points)
  {
    BarChartData(Months, MonthValues(points))
  }

  /** `j` is the index of the last point labelled `name`. */
  predicate IsLastWithName(points: seq<RevenuePoint>, j: int, name: string) {
    0 <= j < |points| && points[j].name == name &&
    forall k :: j < k < |points| ==> points[k].name != name
  }

  /** The lookup has an entry for exactly the labels that occur in the input. */
  lemma {:induction false} ValueByLabelDomain(points: seq<RevenuePoint>, name: string)
    ensures name in ValueByLabel(points) <==> exists j :: 0 <= j < |points| && points[j].name == name
    decreases |points|
  {
    if points != [] {
      var n := |points| - 1;
      ValueByLabelDomain(points[..n], name);
      if exists j :: 0 <= j < n && points[..n][j].name == name {
        var j :| 0 <= j < n && points[..n][j].name == name;
        assert points[j].name == name;
      }
      if exists j :: 0 <= j < |points| && points[j].name == name {
        var j :| 0 <= j < |points| && points[j].name == name;
        if j < n {
          assert points[..n][j].name == name;
        }
      }
    }
  }

  /** Last write wins: the lookup holds the value of the last point with the label. */
  lemma {:induction false} ValueByLabelLastWins(points: seq<RevenuePoint>, name: string, j: int)
    requires IsLastWithName(points, j, name)
    ensures name in ValueByLabel(points) && ValueByLabel(points)[name] == points[j].value
    decreases |points|
  {
    var n := |points| - 1;
    if j < n {
      assert IsLastWithName(points[..n], j, name);
      ValueByLabelLastWins(points[..n], name, j);
    }
  }

  /** Every entry of the lookup comes from some point with that label. */
  lemma {:induction false} ValueByLabelWitness(points: seq<RevenuePoint>, name: string) returns (j: int)
    requires name in ValueByLabel(points)
    ensures 0 <= j < |points| && points[j].name == name && ValueByLabel(points)[name] == points[j].value
    decreases |points|
  {
    var n := |points| - 1;
    if points[n].name == name {
      j := n;
    } else {
      j := ValueByLabelWitness(points[..n], name);
    }
  }

  /**
    The value shown for month `i` is the value of the last point labelled
    with that month, or 0 when no point carries that label.
  */
  lemma MonthValuesSpec(points: seq<RevenuePoint>, i: int)
    requires 0 <= i < 12
    ensures (forall j :: 0 <= j < |points| ==> points[j].name != Months[i]) ==> MonthValues(points)[i] == 0
    ensures forall j :: IsLastWithName(points, j, Months[i]) ==> MonthValues(points)[i] == points[j].value
  {
    ValueByLabelDomain(points, Months[i]);
    forall j | IsLastWithName(points, j, Months[i]) ensures MonthValues(points)[i] == points[j].value {
      ValueByLabelLastWins(points, Months[i], j);
    }
  }

  /** Specification helper: the points whose label is one of the twelve months, in their original order. */
  function KnownMonthsOnly(points: seq<RevenuePoint>): (kept: seq<RevenuePoint>)
    ensures forall p :: p in kept <==> p in points && p.name in Months
    decreases |points|
  {
    if points == [] then []
    else
      var last := points[|points| - 1];
      KnownMonthsOnly(points[..|points| - 1]) + (if last.name in Months then [last] else [])
  }

  lemma {:induction false} ValueByLabelOnMonths(points: seq<RevenuePoint>, m: string)
    requires m in Months
    ensures m in ValueByLabel(points) <==> m in ValueByLabel(KnownMonthsOnly(points))
    ensures m in ValueByLabel(points) ==> ValueByLabel(points)[m] == ValueByLabel(KnownMonthsOnly(points))[m]
    decreases |points|
  {
    if points != [] {
      var n := |points| - 1;
      var kept := KnownMonthsOnly(points[..n]);
      ValueByLabelOnMonths(points[..n], m);
      if points[n].name in Months {
        assert KnownMonthsOnly(points) == kept + [points[n]];
        assert (kept + [points[n]])[..|kept|] == kept;
      } else {
        assert KnownMonthsOnly(points) == kept;
      }
    }
  }

  /** Points whose label is not one of the twelve months have no effect on the chart. */
  lemma UnknownLabelsIgnored(points: seq<RevenuePoint>)
    ensures MonthValues(points) == MonthValues(KnownMonthsOnly(points))
  {
    forall i | 0 <= i < 12 ensures MonthValues(points)[i] == MonthValues(KnownMonthsOnly(points))[i] {
      ValueByLabelOnMonths(points, Months[i]);
    }
  }

  /** The filter keeps the order of the input: filtering a concatenation is concatenating the filtered parts. */
  lemma {:induction false} KnownMonthsOnlyAppend(a: seq<RevenuePoint>, b: seq<RevenuePoint>)
    ensures KnownMonthsOnly(a + b) == KnownMonthsOnly(a) + KnownMonthsOnly(b)
    decreases |b|
  {
    if b == [] {
      assert a + b == a;
    } else {
      var n := |b| - 1;
      assert (a + b)[..|a + b| - 1] == a + b[..n];
      KnownMonthsOnlyAppend(a, b[..n]);
    }
  }

  /** A point whose label is not a month, inserted anywhere in the input, leaves the chart unchanged. */
  lemma UnknownPointIgnored(ps: seq<RevenuePoint>, p: RevenuePoint, qs: seq<RevenuePoint>)
    requires p.name !in Months
    ensures MonthValues(ps + [p] + qs) == MonthValues(ps + qs)
  {
    assert KnownMonthsOnly([p]) == [] by {
      assert [p][..0] == [];
    }
    assert KnownMonthsOnly(ps + [p]) == KnownMonthsOnly(ps) by {
      KnownMonthsOnlyAppend(ps, [p]);
    }
    assert KnownMonthsOnly(ps + [p] + qs) == KnownMonthsOnly(ps + qs) by {
      KnownMonthsOnlyAppend(ps + [p], qs);
      KnownMonthsOnlyAppend(ps, qs);
    }
    UnknownLabelsIgnored(ps + [p] + qs);
    UnknownLabelsIgnored(ps + qs);
  }

  /** No two points share a label. */
  predicate DistinctNames(points: seq<RevenuePoint>) {
    forall j, k :: 0 <= j < k < |points| ==> points[j].name != points[k].name
  }

  /** Points that share a label also share a value. */
  predicate ConsistentNames(points: seq<RevenuePoint>) {
    forall j, k :: 0 <= j < |points| && 0 <= k < |points| && points[j].name == points[k].name ==>
      points[j].value == points[k].value
  }

  /** When no two different points share a label, the chart depends only on which points occur, not on their order or repetition. */
  lemma MonthValuesDependOnlyOnPoints(ps: seq<RevenuePoint>, qs: seq<RevenuePoint>)
    requires ConsistentNames(ps) && ConsistentNames(qs)
    requires forall x :: x in ps <==> x in qs
    ensures MonthValues(ps) == MonthValues(qs)
  {
    forall i | 0 <= i < 12 ensures MonthValues(ps)[i] == MonthValues(qs)[i] {
      SameMonthValue(ps, qs, Months[i]);
      SameMonthValue(qs, ps, Months[i]);
    }
  }

  lemma SameMonthValue(ps: seq<RevenuePoint>, qs: seq<RevenuePoint>, m: string)
    requires ConsistentNames(qs)
    requires forall x :: x in ps <==> x in qs
    ensures m in ValueByLabel(ps) ==> m in ValueByLabel(qs) && ValueByLabel(ps)[m] == ValueByLabel(qs)[m]
  {
    if m in ValueByLabel(ps) {
      var j := ValueByLabelWitness(ps, m);
      assert ps[j] in qs;
      var a :| 0 <= a < |qs| && qs[a] == ps[j];
      ValueByLabelDomain(qs, m);
      var k := ValueByLabelWitness(qs, m);
    }
  }

  /** If the input labels are distinct, reordering the input does not change the chart. */
  lemma ReorderingDistinctLabels(ps: seq<RevenuePoint>, qs: seq<RevenuePoint>)
    requires DistinctNames(ps)
    requires multiset(ps) == multiset(qs)
    ensures MonthValues(ps) == MonthValues(qs)
  {
    assert forall x :: x in ps <==> x in qs by {
      forall x ensures x in ps <==> x in qs {
        assert x in ps <==> x in multiset(ps);
        assert x in qs <==> x in multiset(qs);
      }
    }
    forall j, k | 0 <= j < |qs| && 0 <= k < |qs| && qs[j].name == qs[k].name
      ensures qs[j].value == qs[k].value
    {
      assert qs[j] in ps && qs[k] in ps;
      var a :| 0 <= a < |ps| && ps[a] == qs[j];
      var b :| 0 <= b < |ps| && ps[b] == qs[k];
      assert a == b;
    }
    MonthValuesDependOnlyOnPoints(ps, qs);
  }

  /** No data for the range: twelve zero bars. */
  lemma EmptyRangeGivesZeros()
    ensures MonthValues([]) == [0, 0, 0, 0, 0, 0, 0, 0, 0, 0, 0, 0]
  {
  }

  /** Of two points labelled "Jan", the later one is shown. */
  lemma DuplicateLabelKeepsLater()
    ensures MonthValues([RevenuePoint("Jan", 100), RevenuePoint("Jan", 200)])[0] == 200
  {
  }

  /** The "7d" data of the card's test, `[Jan: 100, Feb: 200]`, charts as 100, 200 and ten zeros. */
  lemma SevenDayTestData()
    ensures MonthValues([RevenuePoint("Jan", 100), RevenuePoint("Feb", 200)]) == [100, 200, 0, 0, 0, 0, 0, 0, 0, 0, 0, 0]
  {
    var points := [RevenuePoint("Jan", 100), RevenuePoint("Feb", 200)];
    assert points[..1] == [RevenuePoint("Jan", 100)];
    assert ValueByLabel(points) == map["Jan" := 100, "Feb" := 200];
  }

  /** The "vs Last ..." caption under the revenue figure. */
  function VsLastCaption(active: RangeKey): (caption: string)
    ensures |caption| > 8 && caption[..8] == "vs Last "
  {
    "vs Last " + (if active == Today then "day" else if active == Last7Days then "7 days" else "30 days")
  }

  /** Each range has its own caption; "today" reads "vs Last day". */
  lemma CaptionIdentifiesRange(a: RangeKey, b: RangeKey)
    ensures VsLastCaption(a) == VsLastCaption(b) <==> a == b
    ensures VsLastCaption(Today) == "vs Last day"
    ensures VsLastCaption(Last7Days) == "vs Last 7 days"
    ensures VsLastCaption(Last30Days) == "vs Last 30 days"
  {
  }

  /** The card's initial active range. */
  const DefaultRange: RangeKey := Last7Days

  /**
    What happens to the card: it mounts (its active range starts at "7d" and
    it dispatches the load), or the user picks a range.
  */
  datatype CardEvent = Mount | ChooseRange(key: RangeKey)

  /** The active range and the number of loads the card has dispatched. */
  datatype CardState = CardState(active: RangeKey, loadsDispatched: nat)

  const InitialCard: CardState := CardState(DefaultRange, 0)

  function CardStep(c: CardState, e: CardEvent): (next: CardState)
    ensures next.loadsDispatched == c.loadsDispatched + (if e.Mount? then 1 else 0)
    ensures next.active == (if e.ChooseRange? then e.key else DefaultRange)
  {
    match e
    case Mount => CardState(DefaultRange, c.loadsDispatched + 1)
    case ChooseRange(key) => c.(active := key)
  }

  function CardRun(c: CardState, events: seq<CardEvent>): (next: CardState)
    ensures c.loadsDispatched <= next.loadsDispatched <= c.loadsDispatched + |events|
    decreases |events|
  {
    if events == [] then c
    else CardStep(CardRun(c, events[..|events| - 1]), events[|events| - 1])
  }

  /** The chart the card shows for a store state: the active range's points, reconciled onto the month axis. */
  function ShownChart(s: RevenueState, c: CardState): (chart: BarChartData)
    ensures chart.labels == Months
    ensures c.active in s.data ==> chart.values == MonthValues(s.data[c.active])
    ensures c.active !in s.data ==> chart.values == MonthValues([])
  {
    MiniBarChartData(SelectRevenueForRange(s, c.active))
  }

  /**
    Choosing ranges never dispatches a load; the active range is the last
    one chosen, or "7d" when none was.
  */
  lemma {:induction false} ChoosingRangesOnlyChangesActive(c: CardState, events: seq<CardEvent>)
    requires forall i :: 0 <= i < |events| ==> events[i].ChooseRange?
    ensures CardRun(c, events).loadsDispatched == c.loadsDispatched
    ensures events == [] ==> CardRun(c, events).active == c.active
    ensures events != [] ==> CardRun(c, events).active == events[|events| - 1].key
    decreases |events|
  {
    if events != [] {
      var n := |events| - 1;
      assert forall i :: 0 <= i < n ==> events[..n][i].ChooseRange? by {
        forall i | 0 <= i < n ensures events[..n][i] == events[i] { }
      }
      ChoosingRangesOnlyChangesActive(c, events[..n]);
    }
  }

  /** After mounting once and choosing ranges any number of times, exactly one load was dispatched. */
  lemma OneLoadPerMount(choices: seq<CardEvent>)
    requires forall i :: 0 <= i < |choices| ==> choices[i].ChooseRange?
    ensures CardRun(InitialCard, [Mount] + choices).loadsDispatched == 1
    ensures CardRun(InitialCard, [Mount] + choices).active == if choices == [] then DefaultRange else choices[|choices| - 1].key
  {
    var c := CardStep(InitialCard, Mount);
    assert CardRun(InitialCard, [Mount]) == c;
    CardRunAppend(InitialCard, [Mount], choices);
    ChoosingRangesOnlyChangesActive(c, choices);
  }

  lemma {:induction false} CardRunAppend(c: CardState, a: seq<CardEvent>, b: seq<CardEvent>)
    ensures CardRun(c, a + b) == CardRun(CardRun(c, a), b)
    decreases |b|
  {
    if b == [] {
      assert a + b == a;
    } else {
      var n := |b| - 1;
      assert (a + b)[..|a + b| - 1] == a + b[..n];
      CardRunAppend(c, a, b[..n]);
    }
  }

  /** The payload the card's test serves. */
  function TestPayload(): RangeData {
    map[
      Today := [RevenuePoint("Jan", 100)],
      Last7Days := [RevenuePoint("Jan", 100), RevenuePoint("Feb", 200)],
      Last30Days := [RevenuePoint("Jan", 300)]
    ]
  }

  /**
    The card's test scenario: after the load succeeds, the default range
    charts as 100, 200 and ten zeros; after choosing "today" the caption
    reads "vs Last day", and no further load was dispatched.
  */
  lemma CardTestScenario()
    ensures var s := Run(InitialState(), [Pending, Fulfilled(TestPayload())]);
      ShownChart(s, CardRun(InitialCard, [Mount])).values == [100, 200, 0, 0, 0, 0, 0, 0, 0, 0, 0, 0]
    ensures var c := CardRun(InitialCard, [Mount, ChooseRange(Today)]);
      VsLastCaption(c.active) == "vs Last day" && c.loadsDispatched == 1
  {
    var s := Run(InitialState(), [Pending, Fulfilled(TestPayload())]);
    PendingThenFulfilled(InitialState(), TestPayload());
    assert CardRun(InitialCard, [Mount]).active == Last7Days;
    assert SelectRevenueForRange(s, Last7Days) == [RevenuePoint("Jan", 100), RevenuePoint("Feb", 200)];
    SevenDayTestData();
    OneLoadPerMount([ChooseRange(Today)]);
    assert [Mount] + [ChooseRange(Today)] == [Mount, ChooseRange(Today)];
  }
}
