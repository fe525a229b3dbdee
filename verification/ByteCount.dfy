/** Encoded sizes of collections of events (`stored_event_bytes`, `encoded_event_bytes`). */
module ByteCount {
  import opened Protocol
  import opened Ordering
  import opened Closure
  import opened Json

  /** The sum of the encoded sizes. */
  function Total(events: Events): nat
    decreases |events|
  {
    if events == map[] then 0
    else
      var m: Id := Least(events.Keys);
      SmallerWithout(events, m);
      EventJson(events[m]) + Total(events - {m})
  }

  lemma SmallerWithout(events: Events, m: Id)
    requires m in events
    ensures |events - {m}| < |events|
  {
    assert (events - {m}).Keys == events.Keys - {m};
    assert |events.Keys| == |events.Keys - {m}| + 1;
  }

  /** Which event is counted first does not matter. */
  lemma {:induction false} TotalWithout(events: Events, x: Id)
    requires x in events
    ensures Total(events) == EventJson(events[x]) + Total(events - {x})
    decreases |events|
  {
    var m: Id := Least(events.Keys);
    if x != m {
      SmallerWithout(events, m);
      TotalWithout(events - {m}, x);
      assert x in events - {m} && (events - {m})[x] == events[x];
      assert m in events - {x} && (events - {x})[m] == events[m];
      assert (events - {x}).Keys == events.Keys - {x};
      assert IsLeast(m, (events - {x}).Keys);
      LeastIsUnique((events - {x}).Keys, m);
      assert events - {m} - {x} == events - {x} - {m};
    }
  }

  lemma LeastIsUnique(ids: set<Id>, m: Id)
    requires IsLeast(m, ids)
    ensures Least(ids) == m
  {
  }

  /** The part of a collection with the given ids. */
  function Only(events: Events, ids: set<Id>): Events {
    map i | i in events && i in ids :: events[i]
  }

  /** A collection weighs what its two parts weigh. */
  lemma {:induction false} TotalSplits(events: Events, ids: set<Id>)
    ensures Total(events) == Total(Only(events, ids)) + Total(events - ids)
    decreases |events|
  {
    if events == map[] {
      assert Only(events, ids) == map[] && events - ids == map[];
    } else {
      var x :| x in events;
      SmallerWithout(events, x);
      TotalSplits(events - {x}, ids);
      TotalWithout(events, x);
      PartsWithout(events, ids, x);
      if x in ids {
        TotalWithout(Only(events, ids), x);
      } else {
        TotalWithout(events - ids, x);
      }
    }
  }

  lemma PartsWithout(events: Events, ids: set<Id>, x: Id)
    requires x in events
    ensures x in ids ==> x in Only(events, ids) && Only(events, ids)[x] == events[x]
    ensures x in ids ==> Only(events, ids) - {x} == Only(events - {x}, ids) && events - {x} - ids == events - ids
    ensures x !in ids ==> x in events - ids && (events - ids)[x] == events[x]
    ensures x !in ids ==> events - ids - {x} == events - {x} - ids && Only(events - {x}, ids) == Only(events, ids)
  {
  }

  /** Disjoint collections add up. */
  lemma TotalAdds(a: Events, b: Events)
    requires a.Keys !! b.Keys
    ensures Total(a + b) == Total(a) + Total(b)
  {
    TotalSplits(a + b, a.Keys);
    assert Only(a + b, a.Keys) == a;
    assert a + b - a.Keys == b;
  }
}
