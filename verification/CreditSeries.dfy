/** Credit outstanding per receiver and sender, swept from grant and data events
    (scripts/lab2_plot.py, derive_credit_series and moving_average). */
module CreditSeries {
  import opened Counters
  import opened Graphs
  import opened MapSums
  import opened SeqSums
  import opened Wrappers

  datatype Kind = Grant | Data | Other

  datatype Event = Event(time: int, kind: Kind, receiver: int, sender: string)

  type Key = (int, string)

  /** The two dictionaries of the sweep; an absent entry counts as zero. */
  datatype Credit = Credit(outstanding: map<Key, nat>, total: map<int, nat>)

  // ----- replaying events from scratch -----

  function Apply(c: Credit, e: Event): Credit {
    var key := (e.receiver, e.sender);
    match e.kind
    case Grant =>
      Credit(c.outstanding[key := ValueAt(c.outstanding, key) + 1],
             c.total[e.receiver := ValueAt(c.total, e.receiver) + 1])
    case Data =>
      if ValueAt(c.outstanding, key) > 0 then
        var t := ValueAt(c.total, e.receiver);
        Credit(c.outstanding[key := ValueAt(c.outstanding, key) - 1], c.total[e.receiver := if t > 0 then t - 1 else 0])
      else c
    case Other => c
  }

  function Replay(events: seq<Event>): Credit {
    if events == [] then Credit(map[], map[]) else Apply(Replay(events[..|events| - 1]), events[|events| - 1])
  }

  /** How many events from the front have a time at or before t. */
  function UpTo(events: seq<Event>, t: int): (n: nat)
    ensures n <= |events| && (forall i :: 0 <= i < n ==> events[i].time <= t) && (n < |events| ==> events[n].time > t)
  {
    if events == [] || events[0].time > t then 0 else 1 + UpTo(events[1..], t)
  }

  ghost predicate Sorted(events: seq<Event>) {
    forall i, j :: 0 <= i < j < |events| ==> events[i].time <= events[j].time
  }

  function AtOrBefore(events: seq<Event>, t: int): seq<Event> {
    if events == [] then [] else
      var last := events[|events| - 1];
      AtOrBefore(events[..|events| - 1], t) + if last.time <= t then [last] else []
  }

  lemma {:induction false} AllAtOrBefore(events: seq<Event>, t: int)
    requires forall i :: 0 <= i < |events| ==> events[i].time <= t
    ensures AtOrBefore(events, t) == events
    decreases |events|
  {
    if events == [] {
    } else {
      AllAtOrBefore(events[..|events| - 1], t);
    }
  }

  lemma {:induction false} NoneAfter(events: seq<Event>, n: nat, t: int)
    requires n <= |events| && forall i :: n <= i < |events| ==> events[i].time > t
    ensures AtOrBefore(events, t) == AtOrBefore(events[..n], t)
    decreases |events|
  {
    if n == |events| {
      assert events[..n] == events;
    } else {
      NoneAfter(events[..|events| - 1], n, t);
      assert events[..|events| - 1][..n] == events[..n];
    }
  }

  /** On sorted events the sweep has taken in all the events at or before t. */
  lemma UpToIsAll(events: seq<Event>, t: int)
    requires Sorted(events)
    ensures events[..UpTo(events, t)] == AtOrBefore(events, t)
  {
    hide AtOrBefore;
    var n := UpTo(events, t);
    assert forall i :: n <= i < |events| ==> events[n].time <= events[i].time;
    AllAtOrBefore(events[..n], t);
    NoneAfter(events, n, t);
  }

  // ----- what the replay counts -----

  /** Grants less data for one key. */
  function Balance(events: seq<Event>, key: Key): int {
    if events == [] then 0 else
      var e := events[|events| - 1];
      Balance(events[..|events| - 1], key) +
      if (e.receiver, e.sender) != key then 0 else if e.kind == Grant then 1 else if e.kind == Data then -1 else 0
  }

  lemma BalanceOfSuffix(events: seq<Event>, from: nat, key: Key)
    requires from < |events|
    ensures var last := |events| - 1;
            Balance(events[from..], key) == Balance(events[..last][from..], key) + Balance([events[last]], key)
  {
    var last := |events| - 1;
    assert events[from..][..|events[from..]| - 1] == events[..last][from..];
    assert [events[last]][..0] == [];
  }

  lemma OutstandingStep(c: Credit, e: Event, key: Key)
    ensures var v := ValueAt(c.outstanding, key) + Balance([e], key);
            ValueAt(Apply(c, e).outstanding, key) == if v >= 0 then v else 0
  {
    assert [e][..0] == [];
    assert Balance([e], key) ==
           if (e.receiver, e.sender) != key then 0 else if e.kind == Grant then 1 else if e.kind == Data then -1 else 0;
  }

  /** The outstanding credit of a key is the largest balance of any suffix of the events. */
  lemma {:induction false} OutstandingIsBestSuffix(events: seq<Event>, key: Key)
    ensures forall from :: 0 <= from <= |events| ==>
                             Balance(events[from..], key) <= ValueAt(Replay(events).outstanding, key)
    ensures exists from :: && 0 <= from <= |events|
                           && Balance(events[from..], key) == ValueAt(Replay(events).outstanding, key)
  {
    var now := ValueAt(Replay(events).outstanding, key);
    if events == [] {
      assert events[0..] == [];
    } else {
      var last := |events| - 1;
      var step := Balance([events[last]], key);
      var earlier := events[..last];
      var before := ValueAt(Replay(earlier).outstanding, key);
      OutstandingIsBestSuffix(earlier, key);
      OutstandingStep(Replay(earlier), events[last], key);
      assert events[|events|..] == [];
      forall from | 0 <= from <= |events|
        ensures Balance(events[from..], key) <= now
      {
        if from <= last {
          BalanceOfSuffix(events, from, key);
        }
      }
      var best :| 0 <= best <= last && Balance(earlier[best..], key) == before;
      BalanceOfSuffix(events, best, key);
      assert Balance(events[if before + step >= 0 then best else |events|..], key) == now;
    }
  }

  /** The outstanding credits of one receiver. */
  ghost function OfReceiver(outstanding: map<Key, nat>, receiver: int): map<Key, nat> {
    map k | k in outstanding && k.0 == receiver :: outstanding[k]
  }

  ghost predicate TotalsAddUp(c: Credit) {
    forall r: int {:trigger ValueAt(c.total, r)} :: ValueAt(c.total, r) == SumOf(OfReceiver(c.outstanding, r))
  }

  lemma UpdateOfReceiver(outstanding: map<Key, nat>, key: Key, v: nat, receiver: int)
    ensures SumOf(OfReceiver(outstanding[key := v], receiver)) ==
            SumOf(OfReceiver(outstanding, receiver)) + if key.0 == receiver then v - ValueAt(outstanding, key) else 0
    ensures key.0 == receiver ==> ValueAt(outstanding, key) <= SumOf(OfReceiver(outstanding, receiver))
  {
    var part := OfReceiver(outstanding, receiver);
    if key.0 == receiver {
      assert OfReceiver(outstanding[key := v], receiver) == part[key := v];
      SumUpdate(part, key, v);
      if key in part {
        PartOfSum(part, key);
      }
    } else {
      assert OfReceiver(outstanding[key := v], receiver) == part;
    }
  }

  lemma ApplyKeepsTotals(c: Credit, e: Event)
    requires TotalsAddUp(c)
    ensures TotalsAddUp(Apply(c, e))
  {
    var key := (e.receiver, e.sender);
    var d := Apply(c, e);
    var v := ValueAt(d.outstanding, key);
    if d != c {
      assert d.outstanding == c.outstanding[key := v];
      forall r: int
        ensures ValueAt(d.total, r) == SumOf(OfReceiver(d.outstanding, r))
      {
        UpdateOfReceiver(c.outstanding, key, v, r);
        assert ValueAt(c.total, r) == SumOf(OfReceiver(c.outstanding, r));
      }
    }
  }

  /** A receiver's total is the sum of its outstanding credits after any events. */
  lemma {:induction false} TotalsAlwaysAddUp(events: seq<Event>)
    ensures TotalsAddUp(Replay(events))
  {
    if events == [] {
      forall r: int
        ensures SumOf(OfReceiver(map[], r)) == 0
      {
        assert OfReceiver(map[], r) == map[];
      }
    } else {
      TotalsAlwaysAddUp(events[..|events| - 1]);
      ApplyKeepsTotals(Replay(events[..|events| - 1]), events[|events| - 1]);
    }
  }

  /** So the clamp at zero never changes anything: when it is applied, the total is positive. */
  lemma ClampNeverFires(events: seq<Event>, e: Event)
    requires e.kind == Data && ValueAt(Replay(events).outstanding, (e.receiver, e.sender)) > 0
    ensures ValueAt(Replay(events).total, e.receiver) > 0
  {
    TotalsAlwaysAddUp(events);
    var c := Replay(events);
    UpdateOfReceiver(c.outstanding, (e.receiver, e.sender), 0, e.receiver);
    assert ValueAt(c.total, e.receiver) == SumOf(OfReceiver(c.outstanding, e.receiver));
  }

  // ----- the sampled series -----

  ghost function SenderSum(c: Credit, receivers: seq<int>, target: string): nat {
    if receivers == [] then 0 else
      SenderSum(c, receivers[..|receivers| - 1], target) + ValueAt(c.outstanding, (receivers[|receivers| - 1], target))
  }

  ghost function AvailSum(c: Credit, receivers: seq<int>, budget: int): nat {
    if receivers == [] then 0 else
      AvailSum(c, receivers[..|receivers| - 1], budget) + Headroom(budget, ValueAt(c.total, receivers[|receivers| - 1]))
  }

  function Headroom(budget: int, used: nat): nat {
    if budget > used then budget - used else 0
  }

  function Itself(n: nat): nat {
    n
  }

  /** For each receiver: the target's outstanding credit there, and what the sum of its outstanding credits
      leaves of the budget, which is nothing once the budget is used up. */
  ghost predicate Measures(c: Credit, receivers: seq<int>, target: string, budget: int, at: seq<nat>, left: seq<nat>) {
    && |at| == |left| == |receivers|
    && forall j :: 0 <= j < |receivers| ==>
                     var used := SumOf(OfReceiver(c.outstanding, receivers[j]));
                     && at[j] == ValueAt(c.outstanding, (receivers[j], target))
                     && (used <= budget ==> left[j] + used == budget)
                     && (used >= budget ==> left[j] == 0)
  }

  /** Times the bandwidth-delay product, both values are sums over the receivers. */
  ghost predicate IsMeasured(c: Credit, sender: real, avail: real, receivers: seq<int>, target: string, bdp: real,
                             budget: int)
  {
    exists at, left :: Measures(c, receivers, target, budget, at, left)
                       && sender * bdp == Total(at, Itself) as real && avail * bdp == Total(left, Itself) as real
  }

  lemma {:induction false} SumsAreMeasured(c: Credit, receivers: seq<int>, target: string, budget: int)
    returns (at: seq<nat>, left: seq<nat>)
    requires TotalsAddUp(c)
    ensures Measures(c, receivers, target, budget, at, left)
    ensures Total(at, Itself) == SenderSum(c, receivers, target)
    ensures Total(left, Itself) == AvailSum(c, receivers, budget)
    decreases |receivers|
  {
    hide SumOf, OfReceiver;
    if receivers == [] {
      at, left := [], [];
    } else {
      var last := |receivers| - 1;
      var at', left' := SumsAreMeasured(c, receivers[..last], target, budget);
      var here := ValueAt(c.outstanding, (receivers[last], target));
      var free := Headroom(budget, ValueAt(c.total, receivers[last]));
      TotalPush(at', here, Itself);
      TotalPush(left', free, Itself);
      at, left := at' + [here], left' + [free];
      assert ValueAt(c.total, receivers[last]) == SumOf(OfReceiver(c.outstanding, receivers[last]));
    }
  }

  lemma Undivided(x: nat, y: real)
    requires y != 0.0
    ensures x as real / y * y == x as real
  {
  }

  lemma SampleIsMeasured(c: Credit, sender: real, avail: real, receivers: seq<int>, target: string, bdp: real,
                         budget: int)
    requires bdp != 0.0 && TotalsAddUp(c) && IsSample(c, sender, avail, receivers, target, bdp, budget)
    ensures IsMeasured(c, sender, avail, receivers, target, bdp, budget)
  {
    hide Measures, SenderSum, AvailSum, Total, TotalsAddUp;
    var at, left := SumsAreMeasured(c, receivers, target, budget);
    assert sender * bdp == Total(at, Itself) as real by {
      Undivided(SenderSum(c, receivers, target), bdp);
    }
    assert avail * bdp == Total(left, Itself) as real by {
      Undivided(AvailSum(c, receivers, budget), bdp);
    }
  }

  datatype Samples = Samples(times: seq<int>, sender: seq<real>, avail: seq<real>)

  /** Sampling every sampleNs from the first event's time to the last's. Each sample is taken from
      a replay of the events up to its time. */
  ghost predicate AreSamples(events: seq<Event>, s: Samples, receivers: seq<int>, target: string,
                             bdp: real, budget: int, sampleNs: nat)
    requires events != [] && bdp != 0.0
  {
    && |s.sender| == |s.avail| == |s.times|
    && forall i :: 0 <= i < |s.times| ==>
                     && s.times[i] == SampleTime(events[0].time, i, sampleNs)
                     && IsSample(Replay(events[..UpTo(events, s.times[i])]), s.sender[i], s.avail[i],
                                 receivers, target, bdp, budget)
  }

  /** On sorted events, as they are read, each sample is of all the events at or before its time. */
  ghost predicate AreSamplesOfAll(events: seq<Event>, s: Samples, receivers: seq<int>, target: string,
                                  bdp: real, budget: int)
    requires bdp != 0.0
  {
    && |s.sender| == |s.avail| == |s.times|
    && forall i :: 0 <= i < |s.times| ==>
                     IsSample(Replay(AtOrBefore(events, s.times[i])), s.sender[i], s.avail[i],
                              receivers, target, bdp, budget)
  }

  lemma SamplesAreOfAll(events: seq<Event>, s: Samples, receivers: seq<int>, target: string,
                        bdp: real, budget: int, sampleNs: nat)
    requires events != [] && bdp != 0.0 && Sorted(events)
    requires AreSamples(events, s, receivers, target, bdp, budget, sampleNs)
    ensures AreSamplesOfAll(events, s, receivers, target, bdp, budget)
  {
    hide Replay, UpTo, AtOrBefore, IsSample, SampleTime;
    forall i | 0 <= i < |s.times|
      ensures IsSample(Replay(AtOrBefore(events, s.times[i])), s.sender[i], s.avail[i],
                       receivers, target, bdp, budget)
    {
      UpToIsAll(events, s.times[i]);
    }
  }

  /** What the samples say about the credit after all the events up to their times. */
  ghost predicate AreMeasured(events: seq<Event>, s: Samples, receivers: seq<int>, target: string, bdp: real,
                              budget: int)
  {
    && |s.sender| == |s.avail| == |s.times|
    && forall i :: 0 <= i < |s.times| ==>
                     IsMeasured(Replay(events[..UpTo(events, s.times[i])]), s.sender[i], s.avail[i],
                                receivers, target, bdp, budget)
  }

  lemma SamplesAreMeasured(events: seq<Event>, s: Samples, receivers: seq<int>, target: string, bdp: real, budget: int,
                           sampleNs: nat)
    requires events != [] && bdp != 0.0 && AreSamples(events, s, receivers, target, bdp, budget, sampleNs)
    ensures AreMeasured(events, s, receivers, target, bdp, budget)
  {
    hide Replay, UpTo, IsSample, IsMeasured, SampleTime, TotalsAddUp;
    forall i | 0 <= i < |s.times|
      ensures IsMeasured(Replay(events[..UpTo(events, s.times[i])]), s.sender[i], s.avail[i],
                         receivers, target, bdp, budget)
    {
      var c := Replay(events[..UpTo(events, s.times[i])]);
      TotalsAlwaysAddUp(events[..UpTo(events, s.times[i])]);
      SampleIsMeasured(c, s.sender[i], s.avail[i], receivers, target, bdp, budget);
    }
  }

  function SampleTime(t0: int, i: nat, interval: nat): int {
    t0 + i * interval
  }

  ghost predicate IsSample(c: Credit, sender: real, avail: real, receivers: seq<int>, target: string, bdp: real,
                           budget: int)
    requires bdp != 0.0
  {
    && sender == SenderSum(c, receivers, target) as real / bdp
    && avail == AvailSum(c, receivers, budget) as real / bdp
  }

  lemma ReplayOneMore(events: seq<Event>, i: nat)
    requires i < |events|
    ensures Replay(events[..i + 1]) == Apply(Replay(events[..i]), events[i])
  {
    assert events[..i + 1][..i] == events[..i];
  }

  lemma {:induction false} UpToIs(events: seq<Event>, t: int, n: nat)
    requires n <= |events| && (forall i :: 0 <= i < n ==> events[i].time <= t) && (n < |events| ==> events[n].time > t)
    ensures UpTo(events, t) == n
  {
  }

  // ----- moving average -----

  function SumReals(s: seq<real>): real {
    if s == [] then 0.0 else SumReals(s[..|s| - 1]) + s[|s| - 1]
  }

  /** The last `window` values up to position i, or all of them when there are fewer. */
  function Window(values: seq<real>, i: nat, window: int): (w: seq<real>)
    requires i < |values|
    ensures w != []
  {
    var n := if window > 1 then window else 1;
    values[if i + 1 > n then i + 1 - n else 0..i + 1]
  }

  function Mean(s: seq<real>): real
    requires s != []
  {
    SumReals(s) / |s| as real
  }

  ghost predicate AreMeans(means: seq<real>, values: seq<real>, window: int) {
    |means| == |values| && forall i :: 0 <= i < |values| ==> means[i] == Mean(Window(values, i, window))
  }

  lemma {:induction false} SumPopsFront(s: seq<real>)
    requires s != []
    ensures SumReals(s) == s[0] + SumReals(s[1..])
    decreases |s|
  {
    var last := |s| - 1;
    if last > 0 {
      SumPopsFront(s[..last]);
      assert s[1..][..last - 1] == s[..last][1..];
    }
  }

  lemma MeanOfOne(x: real)
    ensures Mean([x]) == x
  {
    assert [x][..0] == [];
    assert SumReals([x]) == SumReals([]) + x == x;
    assert |[x]| as real == 1.0;
    assert x / 1.0 == x;
  }

  /** The next window: the new value goes in at the end and the oldest drops out of a full one. */
  lemma NextWindow(values: seq<real>, i: nat, window: int, queue: seq<real>)
    requires i < |values| && window > 1
    requires queue == if i == 0 then [] else Window(values, i - 1, window)
    ensures var longer := queue + [values[i]];
            && SumReals(longer) == SumReals(queue) + values[i]
            && Window(values, i, window) == (if |longer| > window then longer[1..] else longer)
            && SumReals(longer) == longer[0] + SumReals(longer[1..])
  {
    var longer := queue + [values[i]];
    assert longer[..|queue|] == queue;
    SumPopsFront(longer);
    WindowSlides(values, i, window, queue);
  }

  lemma WindowSlides(values: seq<real>, i: nat, window: int, queue: seq<real>)
    requires i < |values| && window > 1
    requires queue == if i == 0 then [] else Window(values, i - 1, window)
    ensures var longer := queue + [values[i]];
            Window(values, i, window) == if |longer| > window then longer[1..] else longer
  {
    hide SumReals;
    var longer := queue + [values[i]];
    if i >= window {
      assert longer == values[i - window..i + 1];
      assert longer[1..] == values[i + 1 - window..i + 1];
    } else {
      assert longer == values[..i + 1];
    }
  }

  /** Each value is the sum of the last `window` values up to it, or of all when there are fewer, divided by
      how many they are. */
  ghost predicate AreAverages(means: seq<real>, values: seq<real>, window: int) {
    && |means| == |values|
    && (window <= 1 ==> means == values)
    && (window > 1 ==>
          forall i :: 0 <= i < |values| ==>
                        means[i] == if i < window then SumReals(values[..i + 1]) / (i + 1) as real
                                    else SumReals(values[i + 1 - window..i + 1]) / window as real)
  }

  lemma MeansAreAverages(means: seq<real>, values: seq<real>, window: int)
    requires AreMeans(means, values, window) && (window <= 1 ==> means == values)
    ensures AreAverages(means, values, window)
  {
    hide SumReals;
    forall i | 0 <= i < |values| && window > 1
      ensures means[i] == if i < window then SumReals(values[..i + 1]) / (i + 1) as real
                          else SumReals(values[i + 1 - window..i + 1]) / window as real
    {
      var w := Window(values, i, window);
      assert means[i] == SumReals(w) / |w| as real;
      if i < window {
        assert w == values[..i + 1];
      } else {
        assert w == values[i + 1 - window..i + 1];
      }
    }
  }

  method MovingAverage(values: seq<real>, window: int) returns (result: seq<real>)
    ensures AreMeans(result, values, window)
    ensures AreAverages(result, values, window)
  {
    hide SumReals, Window;
    if window <= 1 {
      forall i | 0 <= i < |values|
        ensures values[i] == Mean(Window(values, i, window))
      {
        WindowOfOne(values, i, window);
        MeanOfOne(values[i]);
      }
      MeansAreAverages(values, values, window);
      return values;
    }
    result := [];
    var running := 0.0;
    var queue: seq<real> := [];
    SumOfNone();
    for i := 0 to |values|
      invariant |result| == i && forall k :: 0 <= k < i ==> result[k] == Mean(Window(values, k, window))
      invariant queue == (if i == 0 then [] else Window(values, i - 1, window)) && running == SumReals(queue)
    {
      NextWindow(values, i, window, queue);
      queue := queue + [values[i]];
      running := running + values[i];
      if |queue| > window {
        running := running - queue[0];
        queue := queue[1..];
      }
      result := result + [running / |queue| as real];
    }
    MeansAreAverages(result, values, window);
  }

  lemma WindowOfOne(values: seq<real>, i: nat, window: int)
    requires i < |values| && window <= 1
    ensures Window(values, i, window) == [values[i]]
  {
  }

  lemma SumOfNone()
    ensures SumReals([]) == 0.0
  {
  }

  // ----- the sweep -----

  lemma SampleHere(events: seq<Event>, index: nat, t: int)
    requires index <= |events| && (forall i :: 0 <= i < index ==> events[i].time <= t)
    requires index < |events| ==> events[index].time > t
    ensures UpTo(events, t) == index
  {
    UpToIs(events, t, index);
  }

  /** The running dictionaries, brought up to the events at or before t. */
  method Advance(events: seq<Event>, index0: nat, credit0: Credit, t: int) returns (index: nat, credit: Credit)
    requires index0 <= |events| && credit0 == Replay(events[..index0])
    requires forall i :: 0 <= i < index0 ==> events[i].time <= t
    ensures index == UpTo(events, t) && credit == Replay(events[..index])
  {
    index := index0;
    var outstanding: map<Key, nat>, total: map<int, nat> := credit0.outstanding, credit0.total;
    while index < |events| && events[index].time <= t
      invariant index0 <= index <= |events| && forall i :: 0 <= i < index ==> events[i].time <= t
      invariant Credit(outstanding, total) == Replay(events[..index])
    {
      var e := events[index];
      var key := (e.receiver, e.sender);
      ReplayOneMore(events, index);
      if e.kind == Grant {
        outstanding := outstanding[key := ValueAt(outstanding, key) + 1];
        total := total[e.receiver := ValueAt(total, e.receiver) + 1];
      } else if e.kind == Data {
        if ValueAt(outstanding, key) > 0 {
          outstanding := outstanding[key := ValueAt(outstanding, key) - 1];
          var less := ValueAt(total, e.receiver) - 1;
          total := total[e.receiver := if less > 0 then less else 0];
        }
      }
      index := index + 1;
    }
    SampleHere(events, index, t);
    credit := Credit(outstanding, total);
  }

  method SumSenders(credit: Credit, receivers: seq<int>, target: string) returns (sum: nat)
    ensures sum == SenderSum(credit, receivers, target)
  {
    sum := 0;
    for i := 0 to |receivers|
      invariant sum == SenderSum(credit, receivers[..i], target)
    {
      assert receivers[..i + 1][..i] == receivers[..i];
      sum := sum + ValueAt(credit.outstanding, (receivers[i], target));
    }
    assert receivers[..|receivers|] == receivers;
  }

  method SumHeadroom(credit: Credit, receivers: seq<int>, budget: int) returns (sum: nat)
    ensures sum == AvailSum(credit, receivers, budget)
  {
    sum := 0;
    for i := 0 to |receivers|
      invariant sum == AvailSum(credit, receivers[..i], budget)
    {
      assert receivers[..i + 1][..i] == receivers[..i];
      sum := sum + Headroom(budget, ValueAt(credit.total, receivers[i]));
    }
    assert receivers[..|receivers|] == receivers;
  }

  ghost predicate HasGrant(events: seq<Event>) {
    exists i :: 0 <= i < |events| && events[i].kind == Grant
  }

  lemma OneMoreSample(events: seq<Event>, s: Samples, receivers: seq<int>, target: string, bdp: real, budget: int,
                      interval: nat, sender: real, avail: real)
    requires events != [] && bdp != 0.0 && AreSamples(events, s, receivers, target, bdp, budget, interval)
    requires var t := SampleTime(events[0].time, |s.times|, interval);
             IsSample(Replay(events[..UpTo(events, t)]), sender, avail, receivers, target, bdp, budget)
    ensures var t := SampleTime(events[0].time, |s.times|, interval);
            AreSamples(events, Samples(s.times + [t], s.sender + [sender], s.avail + [avail]),
                       receivers, target, bdp, budget, interval)
  {
    hide IsSample, Replay, UpTo, SampleTime;
  }

  lemma NextSampleTime(t0: int, i: nat, interval: nat)
    ensures SampleTime(t0, i + 1, interval) == SampleTime(t0, i, interval) + interval
  {
    assert (i + 1) * interval == i * interval + interval;
  }

  /** One sample at every multiple of the interval from the first event's time up to the last's. */
  method SampleAll(events: seq<Event>, receivers: seq<int>, target: string, bdp: real, budget: int, interval: nat)
    returns (s: Samples)
    requires events != [] && bdp != 0.0 && interval > 0
    ensures AreSamples(events, s, receivers, target, bdp, budget, interval)
    ensures forall i :: 0 <= i < |s.times| ==> s.times[i] <= events[|events| - 1].time
    ensures SampleTime(events[0].time, |s.times|, interval) > events[|events| - 1].time
  {
    hide Replay, UpTo, AreSamples, SampleTime;
    var t0, tEnd := events[0].time, events[|events| - 1].time;
    var nextSample, index: nat, credit := t0, 0, Credit(map[], map[]);
    s := Samples([], [], []);
    NothingSampled(events, receivers, target, bdp, budget, interval);
    while nextSample <= tEnd
      invariant nextSample == SampleTime(t0, |s.times|, interval)
      invariant index <= |events| && credit == Replay(events[..index])
      invariant forall i :: 0 <= i < index ==> events[i].time <= nextSample
      invariant AreSamples(events, s, receivers, target, bdp, budget, interval)
      invariant forall i :: 0 <= i < |s.times| ==> s.times[i] <= tEnd
      decreases tEnd - nextSample
    {
      index, credit := Advance(events, index, credit, nextSample);
      var senderAccum := SumSenders(credit, receivers, target);
      var receiverAvail := SumHeadroom(credit, receivers, budget);
      var sender, avail := senderAccum as real / bdp, receiverAvail as real / bdp;
      OneMoreSample(events, s, receivers, target, bdp, budget, interval, sender, avail);
      s := Samples(s.times + [nextSample], s.sender + [sender], s.avail + [avail]);
      NextSampleTime(t0, |s.times| - 1, interval);
      nextSample := nextSample + interval;
    }
  }

  lemma NothingSampled(events: seq<Event>, receivers: seq<int>, target: string, bdp: real, budget: int, interval: nat)
    requires events != [] && bdp != 0.0
    ensures AreSamples(events, Samples([], [], []), receivers, target, bdp, budget, interval)
    ensures Replay(events[..0]) == Credit(map[], map[]) && SampleTime(events[0].time, 0, interval) == events[0].time
  {
    assert events[..0] == [];
  }

  ghost function GrantSenders(events: seq<Event>): seq<string> {
    if events == [] then [] else
      var e := events[|events| - 1];
      GrantSenders(events[..|events| - 1]) + if e.kind == Grant then [e.sender] else []
  }

  ghost function GrantReceivers(events: seq<Event>): seq<int> {
    if events == [] then [] else
      var e := events[|events| - 1];
      GrantReceivers(events[..|events| - 1]) + if e.kind == Grant then [e.receiver] else []
  }

  lemma GrantsNext(events: seq<Event>)
    requires events != []
    ensures var e, before := events[|events| - 1], events[..|events| - 1];
      if e.kind == Grant then
        && GrantSenders(events) == GrantSenders(before) + [e.sender]
        && GrantReceivers(events) == GrantReceivers(before) + [e.receiver] && HasGrant(events)
      else
        && GrantSenders(events) == GrantSenders(before)
        && GrantReceivers(events) == GrantReceivers(before) && (HasGrant(events) <==> HasGrant(before))
  {
    var before := events[..|events| - 1];
    if i :| 0 <= i < |before| && before[i].kind == Grant {
      assert events[i].kind == Grant;
    }
    if i :| 0 <= i < |events| && events[i].kind == Grant && events[|events| - 1].kind != Grant {
      assert before[i].kind == Grant;
    }
  }

  lemma CountNext<T>(items: seq<T>, x: T)
    ensures CountAll(items + [x]) == CountOne(CountAll(items), x)
  {
    assert (items + [x])[..|items|] == items;
  }

  lemma {:induction false} GrantsAreCounted(events: seq<Event>)
    ensures HasGrant(events) <==> CountAll(GrantSenders(events)).order != []
    ensures HasGrant(events) <==> CountAll(GrantReceivers(events)).order != []
    decreases |events|
  {
    if events == [] {
    } else {
      var last := |events| - 1;
      hide HasGrant, GrantSenders, GrantReceivers, CountAll;
      GrantsAreCounted(events[..last]);
      GrantsNext(events);
      CountNext(GrantSenders(events[..last]), events[last].sender);
      CountNext(GrantReceivers(events[..last]), events[last].receiver);
      KeysCounted(GrantSenders(events[..last]));
      KeysCounted(GrantReceivers(events[..last]));
    }
  }

  lemma {:induction false} KeysCounted<T(!new)>(items: seq<T>)
    ensures CountAll(items).order == [] <==> CountAll(items).counts == map[]
    decreases |items|
  {
    if items == [] {
    } else {
      KeysCounted(items[..|items| - 1]);
      assert items[|items| - 1] in CountAll(items).counts;
    }
  }

  method CountGrants(events: seq<Event>) returns (bySender: Counter<string>, byReceiver: Counter<int>)
    ensures bySender == CountAll(GrantSenders(events)) && byReceiver == CountAll(GrantReceivers(events))
  {
    hide HasGrant, CountOne;
    bySender, byReceiver := Counter([], map[]), Counter([], map[]);
    for i := 0 to |events|
      invariant bySender == CountAll(GrantSenders(events[..i]))
      invariant byReceiver == CountAll(GrantReceivers(events[..i]))
    {
      assert events[..i + 1][..i] == events[..i];
      GrantsNext(events[..i + 1]);
      if events[i].kind == Grant {
        CountNext(GrantSenders(events[..i]), events[i].sender);
        CountNext(GrantReceivers(events[..i]), events[i].receiver);
        bySender := CountOne(bySender, events[i].sender);
        byReceiver := CountOne(byReceiver, events[i].receiver);
      }
    }
    assert events[..|events|] == events;
  }

  // ----- who is in the series -----

  /** The grants to a sender, by position. */
  ghost function GrantsTo(events: seq<Event>, sender: string): set<nat> {
    set i: nat | i < |events| && events[i].kind == Grant && events[i].sender == sender
  }

  /** The grants of a receiver, by position. */
  ghost function GrantsOf(events: seq<Event>, receiver: int): set<nat> {
    set i: nat | i < |events| && events[i].kind == Grant && events[i].receiver == receiver
  }

  lemma GrantsMore(events: seq<Event>, sender: string, receiver: int)
    requires events != []
    ensures var last, e := |events| - 1, events[|events| - 1];
      && GrantsTo(events, sender) ==
         GrantsTo(events[..last], sender) + (if e.kind == Grant && e.sender == sender then {last} else {})
      && GrantsOf(events, receiver) ==
         GrantsOf(events[..last], receiver) + (if e.kind == Grant && e.receiver == receiver then {last} else {})
      && last !in GrantsTo(events[..last], sender) && last !in GrantsOf(events[..last], receiver)
  {
  }

  lemma {:induction false} GrantsByCount(events: seq<Event>, sender: string, receiver: int)
    ensures multiset(GrantSenders(events))[sender] == |GrantsTo(events, sender)|
    ensures multiset(GrantReceivers(events))[receiver] == |GrantsOf(events, receiver)|
    decreases |events|
  {
    if events == [] {
    } else {
      hide GrantsTo, GrantsOf, HasGrant;
      GrantsByCount(events[..|events| - 1], sender, receiver);
      GrantsMore(events, sender, receiver);
    }
  }

  /** The first grant of one set comes before all of the other. */
  ghost predicate StartsFirst(a: set<nat>, b: set<nat>) {
    exists i :: i in a && forall j :: j in b ==> i < j
  }

  /** More grants, or as many and the first of them earlier. */
  ghost predicate Outranks(a: set<nat>, b: set<nat>) {
    |a| > |b| || (|a| == |b| && StartsFirst(a, b))
  }

  lemma {:induction false} SeenFirstStarts(events: seq<Event>, x: string, y: string, x': int, y': int)
    ensures SeenBefore(GrantSenders(events), x, y) ==> StartsFirst(GrantsTo(events, x), GrantsTo(events, y))
    ensures SeenBefore(GrantReceivers(events), x', y') ==> StartsFirst(GrantsOf(events, x'), GrantsOf(events, y'))
    decreases |events|
  {
    if events == [] {
    } else {
      var last := |events| - 1;
      var e, before := events[last], events[..last];
      SeenFirstStarts(before, x, y, x', y');
      GrantsByCount(before, y, y');
      GrantsMore(events, x, x');
      GrantsMore(events, y, y');
      hide GrantSenders, GrantReceivers, HasGrant, SeenBefore;
      GrantsNext(events);
      if SeenBefore(GrantSenders(events), x, y) {
        if e.kind == Grant && !SeenBefore(GrantSenders(before), x, y) {
          SeenInFront(GrantSenders(before), e.sender, x, y);
          assert GrantsTo(before, y) == {} && last in GrantsTo(events, x);
        } else {
          StillFirst(GrantsTo(before, x), GrantsTo(before, y), GrantsTo(events, x), GrantsTo(events, y), last);
        }
      }
      if SeenBefore(GrantReceivers(events), x', y') {
        if e.kind == Grant && !SeenBefore(GrantReceivers(before), x', y') {
          SeenInFront(GrantReceivers(before), e.receiver, x', y');
          assert GrantsOf(before, y') == {} && last in GrantsOf(events, x');
        } else {
          StillFirst(GrantsOf(before, x'), GrantsOf(before, y'), GrantsOf(events, x'), GrantsOf(events, y'), last);
        }
      }
    }
  }

  lemma StillFirst(a: set<nat>, b: set<nat>, a': set<nat>, b': set<nat>, last: nat)
    requires StartsFirst(a, b) && a <= a' && b' <= b + {last} && forall i :: i in a ==> i < last
    ensures StartsFirst(a', b')
  {
    var i :| i in a && forall j :: j in b ==> i < j;
    assert i in a';
  }

  /** The target outranks every other sender that was granted; the receivers are up to three, in order, each
      outranking those behind it and all that are left out. */
  ghost predicate AreInSeries(events: seq<Event>, target: string, receivers: seq<int>) {
    && GrantsTo(events, target) != {}
    && (forall sender :: sender != target && GrantsTo(events, sender) != {} ==>
                           Outranks(GrantsTo(events, target), GrantsTo(events, sender)))
    && |receivers| <= 3 && (forall k :: 0 <= k < |receivers| ==> GrantsOf(events, receivers[k]) != {})
    && (forall j, k :: 0 <= j < k < |receivers| ==>
                         receivers[j] != receivers[k] &&
                         Outranks(GrantsOf(events, receivers[j]), GrantsOf(events, receivers[k])))
    && (forall r :: r !in receivers && GrantsOf(events, r) != {} ==>
                      |receivers| == 3 &&
                      forall k :: 0 <= k < |receivers| ==>
                                    Outranks(GrantsOf(events, receivers[k]), GrantsOf(events, r)))
  }

  lemma LeadsOutranks(events: seq<Event>, x: string, y: string, x': int, y': int)
    ensures Leads(GrantSenders(events), x, y) ==> Outranks(GrantsTo(events, x), GrantsTo(events, y))
    ensures Leads(GrantReceivers(events), x', y') ==> Outranks(GrantsOf(events, x'), GrantsOf(events, y'))
    ensures x in GrantSenders(events) <==> GrantsTo(events, x) != {}
    ensures x' in GrantReceivers(events) <==> GrantsOf(events, x') != {}
  {
    hide GrantSenders, GrantReceivers, GrantsTo, GrantsOf, SeenBefore, StartsFirst;
    GrantsByCount(events, x, x');
    GrantsByCount(events, y, y');
    SeenFirstStarts(events, x, y, x', y');
    assert x in GrantSenders(events) <==> x in multiset(GrantSenders(events));
    assert x' in GrantReceivers(events) <==> x' in multiset(GrantReceivers(events));
  }

  lemma MostAreInSeries(events: seq<Event>, target: string, receivers: seq<int>)
    requires [target] == MostCommon(CountAll(GrantSenders(events)), 1)
    requires receivers == MostCommon(CountAll(GrantReceivers(events)), 3)
    ensures AreInSeries(events, target, receivers)
  {
    hide MostCommon, CountAll, GrantSenders, GrantReceivers, GrantsTo, GrantsOf, Leads, Outranks;
    MostCommonAreMost(GrantSenders(events), 1);
    MostCommonAreMost(GrantReceivers(events), 3);
    assert [target][0] == target && target in [target];
    LeadsOutranks(events, target, target, 0, 0);
    forall sender | sender != target && GrantsTo(events, sender) != {}
      ensures Outranks(GrantsTo(events, target), GrantsTo(events, sender))
    {
      LeadsOutranks(events, target, sender, 0, 0);
      LeadsOutranks(events, sender, sender, 0, 0);
    }
    forall k | 0 <= k < |receivers| ensures GrantsOf(events, receivers[k]) != {} {
      LeadsOutranks(events, target, target, receivers[k], 0);
      assert receivers[k] in receivers;
    }
    forall r | r !in receivers && GrantsOf(events, r) != {}
      ensures |receivers| == 3
      ensures forall k :: 0 <= k < |receivers| ==> Outranks(GrantsOf(events, receivers[k]), GrantsOf(events, r))
    {
      LeadsOutranks(events, target, target, r, 0);
      forall k | 0 <= k < |receivers| ensures Outranks(GrantsOf(events, receivers[k]), GrantsOf(events, r)) {
        LeadsOutranks(events, target, target, receivers[k], r);
        assert receivers[k] in receivers;
      }
    }
    forall j, k | 0 <= j < k < |receivers|
      ensures receivers[j] != receivers[k]
      ensures Outranks(GrantsOf(events, receivers[j]), GrantsOf(events, receivers[k]))
    {
      LeadsOutranks(events, target, target, receivers[j], receivers[k]);
    }
  }

  /** The series for the sender with the most grants and the three receivers that grant the most; raw
      is the samples before they are averaged. There is no series without a grant. */
  method DeriveCreditSeries(events: seq<Event>, bdp: real, budget: int, dtNs: int, window: int)
    returns (r: Option<Samples>, target: string, receivers: seq<int>, ghost raw: Samples)
    requires bdp != 0.0
    ensures r.Some? <==> HasGrant(events)
    ensures r.Some? ==> [target] == MostCommon(CountAll(GrantSenders(events)), 1)
    ensures r.Some? ==> receivers == MostCommon(CountAll(GrantReceivers(events)), 3)
    ensures r.Some? ==> AreInSeries(events, target, receivers)
    ensures r.Some? ==> AreMeasured(events, raw, receivers, target, bdp, budget)
    ensures r.Some? ==> AreSamples(events, raw, receivers, target, bdp, budget, if dtNs > 1 then dtNs else 1)
    ensures r.Some? && Sorted(events) ==> AreSamplesOfAll(events, raw, receivers, target, bdp, budget)
    ensures r.Some? ==> forall i :: 0 <= i < |raw.times| ==> raw.times[i] <= events[|events| - 1].time
    ensures r.Some? ==>
              SampleTime(events[0].time, |raw.times|, if dtNs > 1 then dtNs else 1) > events[|events| - 1].time
    ensures r.Some? ==> r.value.times == raw.times
    ensures r.Some? ==> AreMeans(r.value.sender, raw.sender, window) && AreMeans(r.value.avail, raw.avail, window)
    ensures r.Some? ==> AreAverages(r.value.sender, raw.sender, window) && AreAverages(r.value.avail, raw.avail, window)
  {
    hide AreSamples, AreSamplesOfAll, SampleTime, MostCommon, CountAll, AreMeans, Sorted, AreAverages,
         AreInSeries, AreMeasured;
    raw, target, receivers := Samples([], [], []), "", [];
    GrantsAreCounted(events);
    var bySender, byReceiver := CountGrants(events);
    if bySender.order == [] || byReceiver.order == [] {
      return None, target, receivers, raw;
    }
    MostCommonIsThere(GrantSenders(events));
    target := MostCommon(bySender, 1)[0];
    receivers := MostCommon(byReceiver, 3);
    var s := SampleAll(events, receivers, target, bdp, budget, if dtNs > 1 then dtNs else 1);
    if Sorted(events) {
      SamplesAreOfAll(events, s, receivers, target, bdp, budget, if dtNs > 1 then dtNs else 1);
    }
    SamplesAreMeasured(events, s, receivers, target, bdp, budget, if dtNs > 1 then dtNs else 1);
    MostAreInSeries(events, target, receivers);
    var sender := MovingAverage(s.sender, window);
    var avail := MovingAverage(s.avail, window);
    raw := s;
    r := Some(Samples(s.times, sender, avail));
  }

  lemma MostCommonIsThere(items: seq<string>)
    requires CountAll(items).order != []
    ensures |MostCommon(CountAll(items), 1)| == 1
  {
    hide CountAll, RankAll;
    MostCommonAreMost(items, 1);
    FirstSeen(items);
    assert CountAll(items).order[0] in items;
  }
}
