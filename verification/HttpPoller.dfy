/** The polling loop of src/http_poller.c over an arbitrary sequence of responses. */
module HttpPoller {
  import opened Arithmetic
  import opened EventTypes
  import opened Lists
  import opened JsonTree
  import opened LogParser
  import opened Metrics

  // What one request comes to: an answer whose body parses to a tree or does not, or a failure
  // of the transfer.
  datatype Response =
    | Body(latency: nat, length: nat, root: Option<Json>)
    | Failed(latency: nat)

  function Offers(root: Option<Json>, programs: Programs): seq<Event> {
    if root.Some? then Candidates(root.value, programs) else []
  }

  // What a response offers to the queue.
  function Offered(r: Response, programs: Programs): seq<Event> {
    if r.Body? then Offers(r.root, programs) else []
  }

  function OfferedBy(responses: seq<Response>, programs: Programs): seq<Event> {
    FlatMap((r: Response) => Offered(r, programs), responses)
  }

  lemma OfferedConcat(before: seq<Response>, after: seq<Response>, programs: Programs)
    ensures OfferedBy(before + after, programs) == OfferedBy(before, programs) + OfferedBy(after, programs)
  {
    FlatMapConcat((r: Response) => Offered(r, programs), before, after);
  }

  lemma OfferedMore(before: seq<Response>, r: Response, programs: Programs)
    ensures OfferedBy(before + [r], programs) == OfferedBy(before, programs) + Offered(r, programs)
  {
    OfferedConcat(before, [r], programs);
    FlatMapOne((x: Response) => Offered(x, programs), r);
  }

  function Successes(responses: seq<Response>): (n: nat)
    ensures n <= |responses|
  {
    if responses == [] then 0
    else Successes(responses[..|responses| - 1]) + if responses[|responses| - 1].Body? then 1 else 0
  }

  function TotalLatency(responses: seq<Response>): nat {
    if responses == [] then 0
    else TotalLatency(responses[..|responses| - 1]) + responses[|responses| - 1].latency
  }

  function FetchAddAll(x: nat, n: nat): nat {
    if n == 0 then x else FetchAdd(FetchAddAll(x, n - 1), 1)
  }

  lemma NextSum(y: nat)
    ensures FetchAdd(y % WORD, 1) == (y + 1) % WORD
  {
  }

  lemma {:induction false} FetchAddAllIsSum(x: nat, n: nat)
    requires x < WORD
    ensures FetchAddAll(x, n) == (x + n) % WORD
  {
    if n != 0 {
      FetchAddAllIsSum(x, n - 1);
      NextSum(x + (n - 1));
    }
  }

  lemma {:induction false} FetchAddAllAdds(x: nat, m: nat, n: nat)
    ensures FetchAddAll(FetchAddAll(x, m), n) == FetchAddAll(x, m + n)
  {
    if n != 0 {
      FetchAddAllAdds(x, m, n - 1);
      assert m + n - 1 == m + (n - 1);
    }
  }

  lemma HigherNeedsAnEvent(d: Delivery, es: seq<Event>)
    ensures
      var k := Accepted(d.openFor, |es|);
      && DeliverAll(d, es) == Delivery(d.accepted + es[..k], RoomLeft(d.openFor, |es|), d.count + k, MaxSlot(d.highest, es[..k]))
      && d.highest <= MaxSlot(d.highest, es[..k])
      && (k == 0 ==> MaxSlot(d.highest, es[..k]) == d.highest)
  {
    DeliveryIsPrefix(d, es);
    MaxSlotIsMax(d.highest, es[..Accepted(d.openFor, |es|)]);
  }

  // All that the loop changes.
  datatype Progress = Progress(delivery: Delivery, counters: Counters, events: nat, bytes: nat)

  // What recording a request changes, and what delivering events does.
  function AfterRecord(s: Progress, r: Response): Progress {
    s.(counters := Recorded(s.counters, r.Body?, r.latency),
       bytes := if r.Body? then FetchAdd(s.bytes, r.length) else s.bytes)
  }

  function AfterDelivery(s: Progress, es: seq<Event>): Progress {
    s.(delivery := DeliverAll(s.delivery, es),
       events := FetchAddAll(s.events, Accepted(s.delivery.openFor, |es|)))
  }

  function AfterTurn(s: Progress, r: Response, programs: Programs): Progress {
    AfterDelivery(AfterRecord(s, r), Offered(r, programs))
  }

  function AfterTurns(s: Progress, responses: seq<Response>, programs: Programs): Progress {
    if responses == [] then s
    else AfterTurn(AfterTurns(s, responses[..|responses| - 1], programs), responses[|responses| - 1], programs)
  }

  lemma NothingDelivered(s: Progress)
    ensures AfterDelivery(s, []) == s
  {
  }

  class Poller {
    const programs: Programs
    const queue: QueueEnd
    const metrics: Recorder
    var lastSlot: nat
    ghost var pushed: nat // how many events it has pushed

    ghost function View(): Progress
      reads this, queue, metrics
    {
      Progress(Delivery(queue.accepted, queue.openFor, pushed, lastSlot),
            metrics.counters, metrics.eventsProcessed, metrics.bytesReceived)
    }

    constructor (programs: Programs, queue: QueueEnd, metrics: Recorder)
      ensures this.programs == programs && this.queue == queue && this.metrics == metrics
      ensures lastSlot == 0 && pushed == 0
    {
      this.programs, this.queue, this.metrics, lastSlot, pushed := programs, queue, metrics, 0, 0;
    }

    // One turn of the loop.
    method Turn(r: Response, failures: nat)
      modifies this, queue, metrics
      ensures View() == AfterTurn(old(View()), r, programs)
    {
      Record(r, failures);
      NothingDelivered(View());
      if r.Body? {
        Receive(r.root);
      }
    }

    method Record(r: Response, failures: nat)
      modifies metrics
      ensures View() == AfterRecord(old(View()), r)
    {
      metrics.Request(r.Body?, r.latency, failures);
      if r.Body? {
        metrics.Bytes(r.length);
      }
    }

    // What it does with an answer. The test of `processed` loses no slot: a higher one can only
    // come with a pushed event.
    method Receive(root: Option<Json>)
      modifies this, queue, metrics`eventsProcessed
      ensures View() == AfterDelivery(old(View()), Offers(root, programs))
    {
      HigherNeedsAnEvent(View().delivery, Offers(root, programs));
      var processed, highestSlot := HandleMessage(root, programs, queue, lastSlot);
      if processed > 0 {
        CountEvents(processed);
        pushed := pushed + processed;
      }
      if processed > 0 && highestSlot > lastSlot {
        lastSlot := highestSlot;
      }
    }

    method CountEvents(n: nat)
      modifies metrics`eventsProcessed
      ensures metrics.eventsProcessed == FetchAddAll(old(metrics.eventsProcessed), n)
    {
      for i := 0 to n
        invariant metrics.eventsProcessed == FetchAddAll(old(metrics.eventsProcessed), i)
      {
        metrics.EventDone();
      }
    }

    // The loop, until the running flag falls.
    method Run(responses: seq<Response>, failures: nat)
      modifies this, queue, metrics
      ensures View() == AfterTurns(old(View()), responses, programs)
    {
      for i := 0 to |responses|
        invariant View() == AfterTurns(old(View()), responses[..i], programs)
      {
        Turn(responses[i], failures);
        assert responses[..i + 1][..i] == responses[..i];
      }
      assert responses[..|responses|] == responses;
    }
  }

  lemma DeliveredMore(d: Delivery, before: seq<Response>, r: Response, programs: Programs)
    ensures DeliverAll(d, OfferedBy(before + [r], programs))
         == DeliverAll(DeliverAll(d, OfferedBy(before, programs)), Offered(r, programs))
  {
    OfferedMore(before, r, programs);
    DeliverConcat(d, OfferedBy(before, programs), Offered(r, programs));
  }

  lemma OneTurnDelivers(s: Progress, before: seq<Response>, r: Response, programs: Programs)
    ensures AfterTurns(s, before + [r], programs).delivery
         == DeliverAll(AfterTurns(s, before, programs).delivery, Offered(r, programs))
  {
    assert (before + [r])[..|before|] == before;
  }

  // Over any responses the poller pushes what they offer, one after the other.
  lemma {:induction false} RunDelivers(s: Progress, responses: seq<Response>, programs: Programs)
    ensures AfterTurns(s, responses, programs).delivery == DeliverAll(s.delivery, OfferedBy(responses, programs))
  {
    if responses == [] {
      assert OfferedBy(responses, programs) == [];
    } else {
      var before, r := responses[..|responses| - 1], responses[|responses| - 1];
      assert responses == before + [r];
      RunDelivers(s, before, programs);
      OneTurnDelivers(s, before, r, programs);
      DeliveredMore(s.delivery, before, r, programs);
    }
  }

  // The counters are true modulo 2^64: every request is in the total and in the latencies, and
  // every answer is a success, every other request a failure.
  predicate Records(m: Counters, m': Counters, responses: seq<Response>) {
    && m'.total == (m.total + |responses|) % WORD
    && m'.count == (m.count + |responses|) % WORD
    && m'.success == (m.success + Successes(responses)) % WORD
    && m'.failed == (m.failed + (|responses| - Successes(responses))) % WORD
    && m'.sum == (m.sum + TotalLatency(responses)) % WORD
  }

  predicate Words(m: Counters) {
    m.total < WORD && m.success < WORD && m.failed < WORD && m.sum < WORD && m.count < WORD
  }

  lemma RecordsOne(m: Counters, t: Counters, before: seq<Response>, r: Response)
    requires Records(m, t, before)
    ensures Records(m, Recorded(t, r.Body?, r.latency), before + [r])
  {
    assert (before + [r])[..|before|] == before;
    ModAdd(m.total + |before|, 1);
    ModAdd(m.count + |before|, 1);
    ModAdd(m.success + Successes(before), 1);
    ModAdd(m.failed + (|before| - Successes(before)), 1);
    ModAdd(m.sum + TotalLatency(before), r.latency);
  }

  lemma {:induction false} RunRecords(s: Progress, responses: seq<Response>, programs: Programs)
    requires Words(s.counters)
    ensures Records(s.counters, AfterTurns(s, responses, programs).counters, responses)
  {
    if responses != [] {
      var n := |responses| - 1;
      RunRecords(s, responses[..n], programs);
      RecordsOne(s.counters, AfterTurns(s, responses[..n], programs).counters, responses[..n], responses[n]);
      assert responses == responses[..n] + [responses[n]];
    }
  }

  function TotalLength(responses: seq<Response>): nat {
    if responses == [] then 0
    else TotalLength(responses[1..]) + if responses[0].Body? then responses[0].length else 0
  }

  lemma {:induction false} TotalLengthMore(before: seq<Response>, r: Response)
    ensures TotalLength(before + [r]) == TotalLength(before) + if r.Body? then r.length else 0
  {
    if before == [] {
      assert [r][1..] == [];
      assert before + [r] == [r];
    } else {
      TotalLengthMore(before[1..], r);
      assert (before + [r])[1..] == before[1..] + [r];
    }
  }

  predicate Received(x: nat, y: nat, responses: seq<Response>) {
    y == (x + TotalLength(responses)) % WORD
  }

  lemma FetchAddMore(x: nat, t: nat, n: nat)
    ensures FetchAdd((x + t) % WORD, n) == (x + (t + n)) % WORD
  {
    ModAdd(x + t, n);
    assert x + t + n == x + (t + n);
  }

  lemma BytesOne(x: nat, y: nat, before: seq<Response>, r: Response)
    requires Received(x, y, before)
    ensures Received(x, if r.Body? then FetchAdd(y, r.length) else y, before + [r])
  {
    TotalLengthMore(before, r);
    if r.Body? {
      FetchAddMore(x, TotalLength(before), r.length);
    }
  }

  // The bytes received are those of the answers, modulo 2^64.
  lemma {:induction false} RunBytes(s: Progress, responses: seq<Response>, programs: Programs)
    requires s.bytes < WORD
    ensures Received(s.bytes, AfterTurns(s, responses, programs).bytes, responses)
  {
    if responses != [] {
      var n := |responses| - 1;
      RunBytes(s, responses[..n], programs);
      BytesOne(s.bytes, AfterTurns(s, responses[..n], programs).bytes, responses[..n], responses[n]);
      assert responses == responses[..n] + [responses[n]];
    }
  }

  // The extremes of the latencies recorded so far.
  ghost predicate Extremes(m: Counters, m': Counters, responses: seq<Response>) {
    && m'.min <= m.min && m.max <= m'.max
    && (forall i | 0 <= i < |responses| :: m'.min <= responses[i].latency <= m'.max)
    && (m'.min == m.min || exists i :: 0 <= i < |responses| && responses[i].latency == m'.min)
    && (m'.max == m.max || exists i :: 0 <= i < |responses| && responses[i].latency == m'.max)
  }

  lemma ExtremesOne(m: Counters, t: Counters, before: seq<Response>, r: Response)
    requires Extremes(m, t, before)
    ensures Extremes(m, Recorded(t, r.Body?, r.latency), before + [r])
  {
    var t', all := Recorded(t, r.Body?, r.latency), before + [r];
    assert all[|before|] == r;
    assert forall i | 0 <= i < |before| :: all[i] == before[i];
    if t'.min != m.min && t'.min == t.min {
      var i :| 0 <= i < |before| && before[i].latency == t.min;
      assert all[i].latency == t'.min;
    }
    if t'.max != m.max && t'.max == t.max {
      var i :| 0 <= i < |before| && before[i].latency == t.max;
      assert all[i].latency == t'.max;
    }
  }

  lemma {:induction false} RunFindsExtremes(s: Progress, responses: seq<Response>, programs: Programs)
    ensures Extremes(s.counters, AfterTurns(s, responses, programs).counters, responses)
  {
    if responses != [] {
      var n := |responses| - 1;
      RunFindsExtremes(s, responses[..n], programs);
      ExtremesOne(s.counters, AfterTurns(s, responses[..n], programs).counters, responses[..n], responses[n]);
      assert responses == responses[..n] + [responses[n]];
    }
  }

  lemma {:induction false} TotalWithin(responses: seq<Response>, low: nat, high: nat)
    requires forall i | 0 <= i < |responses| :: low <= responses[i].latency <= high
    ensures low * |responses| <= TotalLatency(responses) <= high * |responses|
  {
    if responses != [] {
      var n := |responses| - 1;
      TotalWithin(responses[..n], low, high);
      assert low * |responses| == low * n + low && high * |responses| == high * n + high;
    }
  }

  lemma SmallWord(x: nat)
    requires x < WORD
    ensures (0 + x) % WORD == x
  {
  }

  lemma ExactRecords(m: Counters, responses: seq<Response>)
    requires Records(START.m, m, responses) && |responses| < WORD && TotalLatency(responses) < WORD
    ensures m.count == |responses| && m.sum == TotalLatency(responses)
  {
    SmallWord(|responses|);
    SmallWord(TotalLatency(responses));
  }

  // Without overflow the words of a poller that starts from fresh counters are the true sums.
  lemma RunRecordsExactly(s: Progress, responses: seq<Response>, programs: Programs)
    requires s.counters == START.m && |responses| < WORD && TotalLatency(responses) < WORD
    ensures var m := AfterTurns(s, responses, programs).counters;
            m.count == |responses| && m.sum == TotalLatency(responses)
  {
    RunRecords(s, responses, programs);
    ExactRecords(AfterTurns(s, responses, programs).counters, responses);
  }

  lemma AverageWithin(responses: seq<Response>, low: nat, high: nat)
    requires responses != [] && forall i | 0 <= i < |responses| :: low <= responses[i].latency <= high
    ensures low <= TotalLatency(responses) / |responses| <= high
  {
    TotalWithin(responses, low, high);
    Quotient(TotalLatency(responses), |responses|, low);
    QuotientBelow(TotalLatency(responses), |responses|, high);
  }

  // So between requests, and without overflow, the average of a poller that starts from fresh
  // counters lies between the extremes.
  lemma RunAverage(s: Progress, responses: seq<Response>, programs: Programs)
    requires s.counters == START.m && responses != []
    requires |responses| < WORD && TotalLatency(responses) < WORD
    ensures var m := AfterTurns(s, responses, programs).counters;
            m.count != 0 && m.min <= m.sum / m.count <= m.max
  {
    var m := AfterTurns(s, responses, programs).counters;
    RunRecordsExactly(s, responses, programs);
    RunFindsExtremes(s, responses, programs);
    AverageWithin(responses, m.min, m.max);
  }

  // The events pushed between two points are counted.
  predicate Counted(s: Progress, t: Progress) {
    && s.delivery.count <= t.delivery.count
    && t.events == FetchAddAll(s.events, t.delivery.count - s.delivery.count)
  }

  lemma TurnAdds(t: Progress, r: Response, programs: Programs)
    ensures var k := Accepted(t.delivery.openFor, |Offered(r, programs)|);
            && AfterTurn(t, r, programs).delivery.count == t.delivery.count + k
            && AfterTurn(t, r, programs).events == FetchAddAll(t.events, k)
  {
    DeliveryIsPrefix(t.delivery, Offered(r, programs));
  }

  lemma CountedMore(s: Progress, t: Progress, t': Progress, k: nat)
    requires Counted(s, t)
    requires t'.delivery.count == t.delivery.count + k && t'.events == FetchAddAll(t.events, k)
    ensures Counted(s, t')
  {
    FetchAddAllAdds(s.events, t.delivery.count - s.delivery.count, k);
  }

  lemma TurnCounts(s: Progress, t: Progress, r: Response, programs: Programs)
    requires Counted(s, t)
    ensures Counted(s, AfterTurn(t, r, programs))
  {
    TurnAdds(t, r, programs);
    CountedMore(s, t, AfterTurn(t, r, programs), Accepted(t.delivery.openFor, |Offered(r, programs)|));
  }

  // It counts every event it has pushed.
  lemma {:induction false} RunCounts(s: Progress, responses: seq<Response>, programs: Programs)
    ensures Counted(s, AfterTurns(s, responses, programs))
  {
    if responses != [] {
      var n := |responses| - 1;
      RunCounts(s, responses[..n], programs);
      TurnCounts(s, AfterTurns(s, responses[..n], programs), responses[n], programs);
    }
  }

  // Over any responses, for a poller whose slot starts at 0: the events it has pushed are a prefix
  // of what the responses offer, cut only by the close, and after every turn its slot is their
  // maximum, 0 if there is none.
  lemma SlotIsHighestPushed(s: Progress, responses: seq<Response>, programs: Programs)
    requires s.delivery.highest == 0
    ensures
      var es := OfferedBy(responses, programs);
      var sent := es[..Accepted(s.delivery.openFor, |es|)];
      var end := AfterTurns(s, responses, programs).delivery;
      && end.accepted == s.delivery.accepted + sent
      && end.count == s.delivery.count + |sent|
      && (s.delivery.openFor.None? ==> sent == es)
      && (forall e | e in sent :: e.slot <= end.highest)
      && (if sent == [] then end.highest == 0 else exists e :: e in sent && e.slot == end.highest)
  {
    var es := OfferedBy(responses, programs);
    var sent := es[..Accepted(s.delivery.openFor, |es|)];
    RunDelivers(s, responses, programs);
    DeliveryIsPrefix(s.delivery, es);
    MaxSlotIsMax(0, sent);
    if sent != [] && MaxSlot(0, sent) == 0 {
      assert sent[0].slot == 0 && sent[0] in sent;
    }
  }

  // From any turn of the loop to any later one the slot does not fall.
  lemma SlotNeverFalls(s: Progress, before: seq<Response>, after: seq<Response>, programs: Programs)
    ensures AfterTurns(s, before, programs).delivery.highest <= AfterTurns(s, before + after, programs).delivery.highest
  {
    var d, es := DeliverAll(s.delivery, OfferedBy(before, programs)), OfferedBy(after, programs);
    RunDelivers(s, before, programs);
    RunDelivers(s, before + after, programs);
    OfferedConcat(before, after, programs);
    DeliverConcat(s.delivery, OfferedBy(before, programs), es);
    HigherNeedsAnEvent(d, es);
  }
}
