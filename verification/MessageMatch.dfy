/** Matching message starts with finishes: one queue of starts per key (scripts/sim1_plot.py,
    parse_msg_trace) and one slot per key (scripts/lab1_plot.py, parse_msg_trace). */
module MessageMatch {
  import opened Wrappers

  datatype Key = Key(src: string, dst: string, txMsgId: string, size: int)

  datatype Kind = Begin | End | Other

  datatype Event = Event(kind: Kind, key: Key, time: int)

  datatype Record = Record(key: Key, start: int, finish: int)

  function Queue(starts: map<Key, seq<int>>, k: Key): seq<int> {
    if k in starts then starts[k] else []
  }

  // ----- the queue matcher -----

  datatype Fifo = Fifo(starts: map<Key, seq<int>>, records: seq<Record>)

  function FifoStep(f: Fifo, e: Event): Fifo {
    var q := Queue(f.starts, e.key);
    match e.kind
    case Begin => f.(starts := f.starts[e.key := q + [e.time]])
    case End =>
      if q == [] then f else Fifo(f.starts[e.key := q[1..]], f.records + [Record(e.key, q[0], e.time)])
    case Other => f
  }

  function FifoRun(events: seq<Event>): Fifo {
    if events == [] then Fifo(map[], []) else FifoStep(FifoRun(events[..|events| - 1]), events[|events| - 1])
  }

  method ParseFifo(events: seq<Event>) returns (records: seq<Record>)
    ensures records == FifoRun(events).records
  {
    var starts: map<Key, seq<int>> := map[];
    records := [];
    for i := 0 to |events|
      invariant FifoRun(events[..i]) == Fifo(starts, records)
    {
      var e := events[i];
      assert events[..i + 1][..i] == events[..i];
      if e.kind == Begin {
        starts := starts[e.key := Queue(starts, e.key) + [e.time]];
      } else if e.kind == End && Queue(starts, e.key) != [] {
        var start := starts[e.key][0];
        starts := starts[e.key := starts[e.key][1..]];
        records := records + [Record(e.key, start, e.time)];
      }
    }
    assert events[..|events|] == events;
  }

  // ----- the slot matcher -----

  datatype Slot = Slot(starts: map<Key, int>, records: seq<Record>)

  function SlotStep(s: Slot, e: Event): Slot {
    match e.kind
    case Begin => s.(starts := s.starts[e.key := e.time])
    case End =>
      if e.key in s.starts then Slot(s.starts - {e.key}, s.records + [Record(e.key, s.starts[e.key], e.time)]) else s
    case Other => s
  }

  function SlotRun(events: seq<Event>): Slot {
    if events == [] then Slot(map[], []) else SlotStep(SlotRun(events[..|events| - 1]), events[|events| - 1])
  }

  method ParseSlots(events: seq<Event>) returns (records: seq<Record>)
    ensures records == SlotRun(events).records
  {
    var starts: map<Key, int> := map[];
    records := [];
    for i := 0 to |events|
      invariant SlotRun(events[..i]) == Slot(starts, records)
    {
      var e := events[i];
      assert events[..i + 1][..i] == events[..i];
      if e.kind == Begin {
        starts := starts[e.key := e.time];
      } else if e.kind == End {
        if e.key !in starts {
          continue;
        }
        var start := starts[e.key];
        starts := starts - {e.key};
        records := records + [Record(e.key, start, e.time)];
      }
    }
    assert events[..|events|] == events;
  }

  // ----- conservation -----

  /** The start times seen for a key, in order. */
  function StartsOf(events: seq<Event>, k: Key): seq<int> {
    if events == [] then [] else
      var e := events[|events| - 1];
      StartsOf(events[..|events| - 1], k) + if e.kind == Begin && e.key == k then [e.time] else []
  }

  /** The start times of a key's records, in the order of the records. */
  function Matched(records: seq<Record>, k: Key): seq<int> {
    if records == [] then [] else
      var r := records[|records| - 1];
      Matched(records[..|records| - 1], k) + if r.key == k then [r.start] else []
  }

  lemma MatchedOneMore(records: seq<Record>, r: Record, k: Key)
    ensures Matched(records + [r], k) == Matched(records, k) + if r.key == k then [r.start] else []
  {
    assert (records + [r])[..|records|] == records;
  }

  lemma ConserveStep(f: Fifo, e: Event, starts: seq<int>, k: Key)
    requires starts == Matched(f.records, k) + Queue(f.starts, k)
    ensures var after := FifoStep(f, e);
            starts + (if e.kind == Begin && e.key == k then [e.time] else []) ==
            Matched(after.records, k) + Queue(after.starts, k)
  {
    hide Matched;
    var q := Queue(f.starts, e.key);
    if e.kind == End && q != [] {
      MatchedOneMore(f.records, Record(e.key, q[0], e.time), k);
      assert q == [q[0]] + q[1..];
    }
  }

  /** The starts of a key are used in order, each at most once: those matched so far, in the order
      of their records, followed by those still pending, are all the starts there have been. */
  lemma {:induction false} StartsAreConserved(events: seq<Event>, k: Key)
    ensures var f := FifoRun(events); StartsOf(events, k) == Matched(f.records, k) + Queue(f.starts, k)
    decreases |events|
  {
    hide FifoStep;
    if events == [] {
    } else {
      var n := |events| - 1;
      StartsAreConserved(events[..n], k);
      ConserveStep(FifoRun(events[..n]), events[n], StartsOf(events[..n], k), k);
    }
  }

  lemma {:induction false} PendingHasStarted(events: seq<Event>, k: Key, p: nat) returns (i: nat)
    requires p < |Queue(FifoRun(events).starts, k)|
    ensures i < |events| && events[i] == Event(Begin, k, Queue(FifoRun(events).starts, k)[p])
    decreases |events|
  {
    var n := |events| - 1;
    var e, f := events[n], FifoRun(events[..n]);
    var q := Queue(f.starts, k);
    if e.kind == Begin && e.key == k && p == |q| {
      i := n;
    } else {
      var p0 := if e.kind == End && e.key == k && q != [] then p + 1 else p;
      i := PendingHasStarted(events[..n], k, p0);
    }
  }

  /** Every record is a start event and a later finish event of its key. */
  lemma {:induction false} RecordsAreCausal(events: seq<Event>, r: nat) returns (i: nat, j: nat)
    requires r < |FifoRun(events).records|
    ensures i < j < |events|
    ensures var rec := FifoRun(events).records[r];
            events[i] == Event(Begin, rec.key, rec.start) && events[j] == Event(End, rec.key, rec.finish)
    decreases |events|
  {
    var n := |events| - 1;
    var f := FifoRun(events[..n]);
    if r < |f.records| {
      i, j := RecordsAreCausal(events[..n], r);
    } else {
      i := PendingHasStarted(events[..n], events[n].key, 0);
      j := n;
    }
  }

  // ----- when the two matchers agree -----

  /** A finish event with more than one start of its key waiting. */
  ghost predicate Crowded(events: seq<Event>, i: nat)
    requires i < |events|
  {
    events[i].kind == End && |Queue(FifoRun(events[..i]).starts, events[i].key)| > 1
  }

  ghost predicate NeverCrowded(events: seq<Event>) {
    forall i {:trigger Crowded(events, i)} :: 0 <= i < |events| ==> !Crowded(events, i)
  }

  /** No key has two starts at the same time. */
  ghost predicate StartsDiffer(events: seq<Event>) {
    forall i, j :: 0 <= i < j < |events| && events[i].kind == Begin && events[j].kind == Begin &&
                   events[i].key == events[j].key
      ==> events[i].time != events[j].time
  }

  /** The slot holds the last pending start. */
  ghost predicate SameStarts(f: Fifo, s: Slot) {
    forall k: Key {:trigger k in s.starts} {:trigger Queue(f.starts, k)} ::
      (k in s.starts <==> Queue(f.starts, k) != []) &&
      (k in s.starts ==> s.starts[k] == Queue(f.starts, k)[|Queue(f.starts, k)| - 1])
  }

  lemma StepAgrees(f: Fifo, s: Slot, e: Event)
    requires SameStarts(f, s) && f.records == s.records
    requires e.kind == End ==> |Queue(f.starts, e.key)| <= 1
    ensures SameStarts(FifoStep(f, e), SlotStep(s, e)) && FifoStep(f, e).records == SlotStep(s, e).records
  {
    var f', s' := FifoStep(f, e), SlotStep(s, e);
    forall k: Key
      ensures k in s'.starts <==> Queue(f'.starts, k) != []
      ensures k in s'.starts ==> s'.starts[k] == Queue(f'.starts, k)[|Queue(f'.starts, k)| - 1]
    {
      assert k in s.starts <==> Queue(f.starts, k) != [];
      assert e.key in s.starts <==> Queue(f.starts, e.key) != [];
    }
  }

  lemma NeverCrowdedBefore(events: seq<Event>, n: nat)
    requires n <= |events| && NeverCrowded(events)
    ensures NeverCrowded(events[..n])
  {
    forall i | 0 <= i < n
      ensures !Crowded(events[..n], i)
    {
      assert events[..n][..i] == events[..i];
      assert !Crowded(events, i);
    }
  }

  lemma {:induction false} UncrowdedAgree(events: seq<Event>)
    requires NeverCrowded(events)
    ensures FifoRun(events).records == SlotRun(events).records && SameStarts(FifoRun(events), SlotRun(events))
    decreases |events|
  {
    hide FifoStep, SlotStep, SameStarts;
    if events == [] {
      NothingPending();
    } else {
      var n := |events| - 1;
      NeverCrowdedBefore(events, n);
      UncrowdedAgree(events[..n]);
      assert !Crowded(events, n);
      StepAgrees(FifoRun(events[..n]), SlotRun(events[..n]), events[n]);
    }
  }

  lemma NothingPending()
    ensures SameStarts(Fifo(map[], []), Slot(map[], []))
  {
  }

  lemma {:induction false} RecordsGrow(events: seq<Event>, n: nat)
    requires n <= |events|
    ensures FifoRun(events[..n]).records <= FifoRun(events).records
    ensures SlotRun(events[..n]).records <= SlotRun(events).records
    decreases |events|
  {
    if n < |events| {
      var m := |events| - 1;
      RecordsGrow(events[..m], n);
      assert events[..m][..n] == events[..n];
    } else {
      assert events[..n] == events;
    }
  }

  /** Two pending starts come from two start events, so their times differ. */
  lemma {:induction false} PendingDiffer(events: seq<Event>, k: Key, p: nat)
    requires StartsDiffer(events) && p + 1 < |Queue(FifoRun(events).starts, k)|
    ensures var q := Queue(FifoRun(events).starts, k); q[p] != q[|q| - 1]
    decreases |events|
  {
    var n := |events| - 1;
    var e, f := events[n], FifoRun(events[..n]);
    var q := Queue(f.starts, k);
    if e.kind == Begin && e.key == k {
      var i := PendingHasStarted(events[..n], k, p);
      assert events[i].kind == Begin && events[i].key == e.key;
    } else {
      var p0 := if e.kind == End && e.key == k && q != [] then p + 1 else p;
      PendingDiffer(events[..n], k, p0);
    }
  }

  lemma CrowdedStep(f: Fifo, s: Slot, e: Event) returns (a: Record, b: Record)
    requires SameStarts(f, s) && e.kind == End && Queue(f.starts, e.key) != []
    requires var q := Queue(f.starts, e.key); q[0] != q[|q| - 1]
    ensures FifoStep(f, e).records == f.records + [a] && SlotStep(s, e).records == s.records + [b] && a != b
  {
    assert e.key in s.starts;
    a := Record(e.key, Queue(f.starts, e.key)[0], e.time);
    b := Record(e.key, s.starts[e.key], e.time);
  }

  lemma StartsDifferBefore(events: seq<Event>, n: nat)
    requires n <= |events| && StartsDiffer(events)
    ensures StartsDiffer(events[..n])
  {
    forall a, b | 0 <= a < b < n && events[a].kind == Begin && events[b].kind == Begin && events[a].key == events[b].key
      ensures events[..n][a].time != events[..n][b].time
    {
    }
  }

  /** The first crowded finish takes the oldest start in one matcher and the newest in the other. */
  lemma CrowdedDiffer(events: seq<Event>, i: nat)
    requires StartsDiffer(events) && i < |events| && Crowded(events, i) && NeverCrowded(events[..i])
    ensures FifoRun(events).records != SlotRun(events).records
  {
    hide FifoStep, SlotStep, SameStarts, StartsDiffer, NeverCrowded;
    var before, e := events[..i], events[i];
    UncrowdedAgree(before);
    StartsDifferBefore(events, i);
    PendingDiffer(before, e.key, 0);
    var a, b := CrowdedStep(FifoRun(before), SlotRun(before), e);
    assert events[..i + 1][..i] == before;
    RecordsGrow(events, i + 1);
    var at := |FifoRun(before).records|;
    assert FifoRun(events).records[at] == a;
    assert SlotRun(events).records[at] == b;
  }

  lemma {:induction false} FirstCrowded(events: seq<Event>, i: nat) returns (first: nat)
    requires i < |events| && Crowded(events, i)
    ensures first < |events| && Crowded(events, first) && NeverCrowded(events[..first])
    decreases i
  {
    if j :| 0 <= j < i && Crowded(events, j) {
      first := FirstCrowded(events, j);
    } else {
      first := i;
      forall j | 0 <= j < i
        ensures !Crowded(events[..i], j)
      {
        assert events[..i][..j] == events[..j];
        assert !Crowded(events, j);
      }
    }
  }

  /** Where no key has two starts at one time, the two matchers return the same records in the same
      order exactly when no finish ever finds more than one start waiting. */
  lemma MatchersAgreeIffNeverCrowded(events: seq<Event>)
    requires StartsDiffer(events)
    ensures FifoRun(events).records == SlotRun(events).records <==> NeverCrowded(events)
  {
    if NeverCrowded(events) {
      UncrowdedAgree(events);
    } else {
      var i :| 0 <= i < |events| && Crowded(events, i);
      var first := FirstCrowded(events, i);
      CrowdedDiffer(events, first);
    }
  }

  // ----- the same without any condition on the starts -----

  /** The oldest start of a key that is waiting, and its newest start since its last finish. */
  function Oldest(events: seq<Event>, k: Key): Option<int> {
    var q := Queue(FifoRun(events).starts, k);
    if q == [] then None else Some(q[0])
  }

  function Newest(events: seq<Event>, k: Key): Option<int> {
    if events == [] then None else
      var e := events[|events| - 1];
      if e.key != k || e.kind == Other then Newest(events[..|events| - 1], k)
      else if e.kind == Begin then Some(e.time) else None
  }

  ghost predicate OldestIsNewest(events: seq<Event>, i: nat)
    requires i < |events|
  {
    events[i].kind == End ==> Oldest(events[..i], events[i].key) == Newest(events[..i], events[i].key)
  }

  ghost predicate FinishesAreClear(events: seq<Event>) {
    forall i {:trigger OldestIsNewest(events, i)} :: 0 <= i < |events| ==> OldestIsNewest(events, i)
  }

  lemma {:induction false} SlotHoldsNewest(events: seq<Event>, k: Key)
    ensures Newest(events, k) == if k in SlotRun(events).starts then Some(SlotRun(events).starts[k]) else None
    ensures Newest(events, k).Some? ==> Queue(FifoRun(events).starts, k) != []
    decreases |events|
  {
    if events == [] {
    } else {
      SlotHoldsNewest(events[..|events| - 1], k);
    }
  }

  /** The queue matcher always has at least as many records. */
  lemma {:induction false} SlotsLagBehind(events: seq<Event>)
    ensures |SlotRun(events).records| <= |FifoRun(events).records|
    decreases |events|
  {
    if events == [] {
    } else {
      var n := |events| - 1;
      SlotsLagBehind(events[..n]);
      SlotHoldsNewest(events[..n], events[n].key);
    }
  }

  lemma StepIsClear(f: Fifo, s: Slot, e: Event)
    requires |s.records| <= |f.records| && (e.key in s.starts ==> Queue(f.starts, e.key) != [])
    ensures FifoStep(f, e).records == SlotStep(s, e).records <==>
            && f.records == s.records
            && (e.kind == End ==>
                  (if Queue(f.starts, e.key) == [] then None else Some(Queue(f.starts, e.key)[0])) ==
                  (if e.key in s.starts then Some(s.starts[e.key]) else None))
  {
    if e.kind == End && e.key in s.starts {
      SameEnds(f.records, s.records,
               Record(e.key, Queue(f.starts, e.key)[0], e.time), Record(e.key, s.starts[e.key], e.time));
    }
  }

  lemma SameEnds(q: seq<Record>, r: seq<Record>, a: Record, b: Record)
    ensures q + [a] == r + [b] <==> q == r && a == b
  {
    if q + [a] == r + [b] {
      assert (q + [a])[|q|] == a && (r + [b])[|r|] == b;
      assert q == (q + [a])[..|q|] && r == (r + [b])[..|r|];
    }
  }

  lemma LastIsClear(events: seq<Event>)
    requires events != []
    ensures var n := |events| - 1;
            FifoRun(events).records == SlotRun(events).records <==>
            FifoRun(events[..n]).records == SlotRun(events[..n]).records && OldestIsNewest(events, n)
  {
    hide FifoStep, SlotStep, Newest;
    var n := |events| - 1;
    SlotsLagBehind(events[..n]);
    SlotHoldsNewest(events[..n], events[n].key);
    StepIsClear(FifoRun(events[..n]), SlotRun(events[..n]), events[n]);
  }

  lemma ClearBefore(events: seq<Event>)
    requires events != []
    ensures var n := |events| - 1;
            FinishesAreClear(events) <==> FinishesAreClear(events[..n]) && OldestIsNewest(events, n)
  {
    hide Oldest, Newest;
    var n := |events| - 1;
    forall i | 0 <= i < n ensures OldestIsNewest(events[..n], i) <==> OldestIsNewest(events, i) {
      assert events[..n][..i] == events[..i];
    }
  }

  /** Whatever the events, the two matchers return the same records in the same order exactly when at
      every finish the oldest start waiting is the newest one since the last finish, or there is
      neither. */
  lemma {:induction false} MatchersAgreeIffClear(events: seq<Event>)
    ensures FifoRun(events).records == SlotRun(events).records <==> FinishesAreClear(events)
    decreases |events|
  {
    if events == [] {
    } else {
      hide FifoRun, SlotRun, FinishesAreClear, OldestIsNewest;
      MatchersAgreeIffClear(events[..|events| - 1]);
      LastIsClear(events);
      ClearBefore(events);
    }
  }
}
