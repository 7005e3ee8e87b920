/** The AIS consumer: dedupe, aggregate, buffer, flush (ais/service.py, AisConsumer). */
module AisConsumers {
  import opened Basics
  import opened AisObservations
  import opened Deduplication
  import opened TrafficAggregation
  import L = LatestStore

  /** What the parser makes of a payload. */
  datatype Parsed = ProviderError | Malformed | Unsupported | Message(observation: Observation)

  /** How process_message ends: it passes on the provider's error, or tells whether it buffered. */
  datatype Processed = Raised | Returned(accepted: bool)

  datatype Counters = Counters(
    received: nat,
    parsed: nat,
    ignored: nat,
    duplicates: nat,
    malformed: nat,
    written: nat)

  datatype Event = Buffered(observation: Observation) | Flushed(outcome: L.Outcome)

  /** What one vessel sees of an event: its own observations and every flush. */
  function SeenBy(e: Event, mmsi: string): seq<L.Event> {
    match e
    case Buffered(o) => if o.mmsi == mmsi then [L.Accept(o)] else []
    case Flushed(outcome) => [L.Flush(outcome)]
  }

  function EventsOf(events: seq<Event>, mmsi: string): seq<L.Event> {
    if events == [] then []
    else EventsOf(events[..|events| - 1], mmsi) + SeenBy(events[|events| - 1], mmsi)
  }

  lemma EventsOfNext(events: seq<Event>, e: Event, mmsi: string)
    ensures EventsOf(events + [e], mmsi) == EventsOf(events, mmsi) + SeenBy(e, mmsi)
  {
    assert (events + [e])[..|events|] == events;
  }

  lemma RunNext(v: L.Vessel, events: seq<L.Event>, e: L.Event)
    ensures L.Run(v, events + [e]) == L.Step(L.Run(v, events), e)
  {
    assert (events + [e])[..|events|] == events;
  }

  /** Buffer and store as one vessel sees them. */
  function View(pending: map<string, Observation>, nodes: map<string, L.Latest>, mmsi: string): L.Vessel {
    L.Vessel(L.Lookup(nodes, mmsi), if mmsi in pending then Some(pending[mmsi]) else None)
  }

  ghost predicate KeyedByVessel(pending: map<string, Observation>) {
    forall mmsi :: mmsi in pending ==> pending[mmsi].mmsi == mmsi
  }

  /** The rows of a buffer: one per vessel. */
  ghost predicate RowsOf(pending: map<string, Observation>, rows: seq<Observation>) {
    && L.DistinctVessels(rows)
    && (forall i :: 0 <= i < |rows| ==> rows[i].mmsi in pending && pending[rows[i].mmsi] == rows[i])
    && (forall mmsi :: mmsi in pending ==> exists i :: 0 <= i < |rows| && rows[i].mmsi == mmsi)
  }

  method Values(pending: map<string, Observation>) returns (rows: seq<Observation>)
    requires KeyedByVessel(pending)
    ensures RowsOf(pending, rows) && |rows| == |pending|
  {
    rows := [];
    var left := pending.Keys;
    while left != {}
      invariant left <= pending.Keys
      invariant L.DistinctVessels(rows)
      invariant forall i :: 0 <= i < |rows| ==>
        rows[i].mmsi in pending && rows[i].mmsi !in left && pending[rows[i].mmsi] == rows[i]
      invariant forall mmsi :: mmsi in pending && mmsi !in left ==> exists i :: 0 <= i < |rows| && rows[i].mmsi == mmsi
      invariant |rows| + |left| == |pending.Keys|
      decreases left
    {
      var mmsi :| mmsi in left;
      ghost var before := rows;
      rows := rows + [pending[mmsi]];
      assert rows[|before|].mmsi == mmsi;
      left := left - {mmsi};
      forall m | m in pending && m !in left ensures exists i :: 0 <= i < |rows| && rows[i].mmsi == m {
        if m != mmsi {
          var i :| 0 <= i < |before| && before[i].mmsi == m;
          assert rows[i].mmsi == m;
        }
      }
    }
  }

  /** Writing the rows of a buffer is one store step for every vessel. */
  lemma UpsertIsAStep(pending: map<string, Observation>, nodes: map<string, L.Latest>,
                      rows: seq<Observation>, mmsi: string)
    requires RowsOf(pending, rows)
    ensures var after := L.UpsertAll(nodes, rows);
      && View(map[], after, mmsi) == L.Step(View(pending, nodes, mmsi), L.Flush(L.Written))
      && View(pending, after, mmsi) == L.Step(View(pending, nodes, mmsi), L.Flush(L.FailedAfterUpsert))
  {
    L.UpsertAllByVessel(nodes, rows, mmsi);
    if mmsi in pending {
      var i :| 0 <= i < |rows| && rows[i].mmsi == mmsi;
    }
  }

  /** Store and buffer are what the run so far makes of the vessel's initial state. */
  ghost predicate Explains(pending: map<string, Observation>, nodes: map<string, L.Latest>,
                           base: map<string, L.Latest>, events: seq<Event>, mmsi: string)
  {
    View(pending, nodes, mmsi) == L.Run(L.Vessel(L.Lookup(base, mmsi), None), EventsOf(events, mmsi))
  }

  function Buffer(pending: map<string, Observation>, o: Observation): map<string, Observation> {
    pending[o.mmsi := Merge(if o.mmsi in pending then Some(pending[o.mmsi]) else None, o)]
  }

  lemma BufferIsAStep(pending: map<string, Observation>, nodes: map<string, L.Latest>,
                      base: map<string, L.Latest>, events: seq<Event>, o: Observation, mmsi: string)
    requires Explains(pending, nodes, base, events, mmsi)
    ensures Explains(Buffer(pending, o), nodes, base, events + [Buffered(o)], mmsi)
  {
    var run := EventsOf(events, mmsi);
    EventsOfNext(events, Buffered(o), mmsi);
    if o.mmsi == mmsi {
      RunNext(L.Vessel(L.Lookup(base, mmsi), None), run, L.Accept(o));
    } else {
      assert run + [] == run;
    }
  }

  lemma FlushIsAStep(pending: map<string, Observation>, nodes: map<string, L.Latest>, base: map<string, L.Latest>,
                     events: seq<Event>, rows: seq<Observation>, outcome: L.Outcome, mmsi: string)
    requires Explains(pending, nodes, base, events, mmsi) && RowsOf(pending, rows)
    ensures Explains(if outcome == L.Written then map[] else pending,
                     if outcome == L.UpsertFailed then nodes else L.UpsertAll(nodes, rows),
                     base, events + [Flushed(outcome)], mmsi)
  {
    EventsOfNext(events, Flushed(outcome), mmsi);
    RunNext(L.Vessel(L.Lookup(base, mmsi), None), EventsOf(events, mmsi), L.Flush(outcome));
    UpsertIsAStep(pending, nodes, rows, mmsi);
  }

  /** The observation with the targets whose subscription box holds it. */
  function Enriched(targets: seq<Target>, o: Observation): Observation {
    o.WithTargets(MatchedIds(targets, o))
  }

  class AisConsumer {
    const dryRun: bool
    const dedupe: DedupeCache
    const aggregator: PortTrafficAggregator
    const storage: L.Store
    var pending: map<string, Observation>
    var counters: Counters
    var lastMessageAt: Option<int>
    ghost var providerErrors: nat
    ghost const base: map<string, L.Latest>
    ghost var events: seq<Event>

    ghost predicate Valid()
      reads this, dedupe, aggregator, storage
    {
      && dedupe.Valid() && storage.Valid() && aggregator.Valid() && aggregator.window > 0
      && KeyedByVessel(pending)
      && counters.received ==
           counters.parsed + counters.ignored + counters.duplicates + counters.malformed + providerErrors
      && (if dryRun then storage.vessels == base else Explained())
    }

    /** Store and buffer are what the run so far makes of the initial store, for every vessel. */
    ghost predicate Explained()
      reads this`pending, this`events, storage
    {
      forall mmsi :: Explains(pending, storage.vessels, base, events, mmsi)
    }

    constructor (dryRun: bool, dedupe: DedupeCache, aggregator: PortTrafficAggregator, storage: L.Store)
      requires dedupe.Valid() && storage.Valid() && aggregator.Valid() && aggregator.window > 0
      ensures Valid()
      ensures this.dryRun == dryRun && this.dedupe == dedupe && this.aggregator == aggregator && this.storage == storage
      ensures base == storage.vessels && events == [] && pending == map[]
    {
      this.dryRun, this.dedupe, this.aggregator, this.storage := dryRun, dedupe, aggregator, storage;
      pending, counters, lastMessageAt := map[], Counters(0, 0, 0, 0, 0, 0), None;
      providerErrors, base, events := 0, storage.vessels, [];
    }

    /**
     * A message is buffered iff it parses to an observation the cache has not seen recently; then it
     * extends the run by that observation with the targets that matched. Nothing else touches the buffer.
     */
    method ProcessMessage(parsed: Parsed, now: int) returns (result: Processed)
      requires Valid()
      modifies this, dedupe, aggregator
      ensures Valid()
      ensures result == Raised <==> parsed == ProviderError
      ensures parsed.Message? ==>
        result == Returned(!Hit(dedupe.limits, old(dedupe.entries), Call(parsed.observation.dedupeKey, now)))
      ensures dedupe.history == old(dedupe.history)
        + if parsed.Message? then [Call(parsed.observation.dedupeKey, now)] else []
      ensures !parsed.Message? ==> result != Returned(true)
      ensures result == Returned(true) ==>
        && events == old(events) + [Buffered(Enriched(aggregator.targets, parsed.observation))]
        && pending == Buffer(old(pending), Enriched(aggregator.targets, parsed.observation))
        && aggregator.moves == Moved(aggregator.targets, old(aggregator.moves), parsed.observation)
        && lastMessageAt == Some(parsed.observation.receivedAt)
      ensures result != Returned(true) ==>
        && events == old(events) && pending == old(pending)
        && aggregator.moves == old(aggregator.moves) && lastMessageAt == old(lastMessageAt)
      ensures counters.received == old(counters.received) + 1
      ensures counters.parsed == old(counters.parsed) + if result == Returned(true) then 1 else 0
      ensures counters.malformed == old(counters.malformed) + if parsed.Malformed? then 1 else 0
      ensures counters.ignored == old(counters.ignored) + if parsed.Unsupported? then 1 else 0
    {
      counters := counters.(received := counters.received + 1);
      match parsed
      case ProviderError =>
        providerErrors := providerErrors + 1;
        return Raised;
      case Malformed =>
        counters := counters.(malformed := counters.malformed + 1);
        return Returned(false);
      case Unsupported =>
        counters := counters.(ignored := counters.ignored + 1);
        return Returned(false);
      case Message(observation) =>
        var accepted := ProcessObservation(observation, now);
        counters := if accepted then counters.(parsed := counters.parsed + 1)
                    else counters.(duplicates := counters.duplicates + 1);
        return Returned(accepted);
    }

    /** The part of process_message that handles an observation. */
    method ProcessObservation(observation: Observation, now: int) returns (accepted: bool)
      requires dedupe.Valid() && aggregator.Valid() && KeyedByVessel(pending) && (!dryRun ==> Explained())
      modifies this`pending, this`events, this`lastMessageAt, dedupe, aggregator
      ensures dedupe.Valid() && aggregator.Valid() && KeyedByVessel(pending) && (!dryRun ==> Explained())
      ensures accepted == !Hit(dedupe.limits, old(dedupe.entries), Call(observation.dedupeKey, now))
      ensures dedupe.history == old(dedupe.history) + [Call(observation.dedupeKey, now)]
      ensures accepted ==> events == old(events) + [Buffered(Enriched(aggregator.targets, observation))]
      ensures accepted ==> pending == Buffer(old(pending), Enriched(aggregator.targets, observation))
      ensures accepted ==> aggregator.moves == Moved(aggregator.targets, old(aggregator.moves), observation)
      ensures accepted ==> lastMessageAt == Some(observation.receivedAt)
      ensures !accepted ==> events == old(events) && pending == old(pending)
      ensures !accepted ==> aggregator.moves == old(aggregator.moves) && lastMessageAt == old(lastMessageAt)
    {
      var seen := dedupe.Seen(observation.dedupeKey, now);
      if !seen {
        Accept(observation);
      }
      accepted := !seen;
    }

    /** Ingests an observation that is no duplicate and buffers it with the targets it matched. */
    method Accept(observation: Observation)
      requires aggregator.Valid() && KeyedByVessel(pending) && (!dryRun ==> Explained())
      modifies this`pending, this`events, this`lastMessageAt, aggregator
      ensures aggregator.Valid() && KeyedByVessel(pending) && (!dryRun ==> Explained())
      ensures events == old(events) + [Buffered(Enriched(aggregator.targets, observation))]
      ensures pending == Buffer(old(pending), Enriched(aggregator.targets, observation))
      ensures aggregator.moves == Moved(aggregator.targets, old(aggregator.moves), observation)
      ensures lastMessageAt == Some(observation.receivedAt)
    {
      var enriched := Enrich(observation);
      Append(enriched);
      lastMessageAt := Some(observation.receivedAt);
    }

    /** Lets the aggregator ingest the observation and adds the targets it matched, if any. */
    method Enrich(observation: Observation) returns (enriched: Observation)
      requires aggregator.Valid()
      modifies aggregator
      ensures aggregator.Valid()
      ensures aggregator.moves == Moved(aggregator.targets, old(aggregator.moves), observation)
      ensures enriched == Enriched(aggregator.targets, observation)
    {
      var targetIds := aggregator.Ingest(observation);
      assert observation.WithTargets({}) == observation;
      enriched := if targetIds != {} then observation.WithTargets(targetIds) else observation;
    }

    method Append(o: Observation)
      requires KeyedByVessel(pending) && (!dryRun ==> Explained())
      modifies this`pending, this`events
      ensures KeyedByVessel(pending) && (!dryRun ==> Explained())
      ensures pending == Buffer(old(pending), o)
      ensures events == old(events) + [Buffered(o)]
    {
      if !dryRun {
        forall mmsi ensures Explains(Buffer(pending, o), storage.vessels, base, events + [Buffered(o)], mmsi) {
          BufferIsAStep(pending, storage.vessels, base, events, o, mmsi);
        }
      }
      pending := Buffer(pending, o);
      events := events + [Buffered(o)];
    }

    /** A flush extends the run by its outcome; only a completed one empties the buffer. */
    method Flush(now: int, outcome: L.Outcome)
      requires Valid()
      modifies this, aggregator, storage
      ensures Valid()
      ensures dryRun ==> pending == map[] && storage.vessels == old(storage.vessels) && events == old(events)
      ensures !dryRun ==> events == old(events) + [Flushed(outcome)]
      ensures !dryRun ==> pending == if outcome == L.Written then map[] else old(pending)
      ensures counters.written == old(counters.written)
        + if !dryRun && outcome == L.Written then |old(pending)| else 0
      ensures aggregator.moves == AfterPrune(old(aggregator.moves), WindowStart(now, aggregator.window))
    {
      var rows := Values(pending);
      Summarize(now);
      if dryRun {
        pending := map[];
        return;
      }
      Commit(rows, outcome);
    }

    /** Every flush takes the snapshots of the current window, which prunes the aggregator. */
    method Summarize(now: int)
      requires aggregator.Valid() && aggregator.window > 0
      modifies aggregator
      ensures aggregator.Valid()
      ensures aggregator.moves == AfterPrune(old(aggregator.moves), WindowStart(now, aggregator.window))
    {
      var _ := aggregator.BuildSnapshots(now);
    }

    method Commit(rows: seq<Observation>, outcome: L.Outcome)
      requires Explained() && storage.Valid() && RowsOf(pending, rows) && KeyedByVessel(pending)
      modifies this`pending, this`counters, this`events, storage
      ensures Explained() && storage.Valid() && KeyedByVessel(pending)
      ensures events == old(events) + [Flushed(outcome)]
      ensures pending == if outcome == L.Written then map[] else old(pending)
      ensures counters == if outcome == L.Written
        then old(counters).(written := old(counters).written + |rows|) else old(counters)
    {
      ghost var left := if outcome == L.Written then map[] else pending;
      ghost var nodes := if outcome == L.UpsertFailed then storage.vessels else L.UpsertAll(storage.vessels, rows);
      forall mmsi ensures Explains(left, nodes, base, events + [Flushed(outcome)], mmsi) {
        FlushIsAStep(pending, storage.vessels, base, events, rows, outcome, mmsi);
      }
      events := events + [Flushed(outcome)];
      if outcome == L.UpsertFailed {
        return;
      }
      storage.Upsert(rows);
      if outcome == L.FailedAfterUpsert {
        return;
      }
      pending := map[];
      counters := counters.(written := counters.written + |rows|);
    }
  }

  /** For every vessel, the store holds the fold of its observations up to the last upsert that took effect. */
  lemma StoreIsFold(c: AisConsumer, mmsi: string)
    requires c.Valid() && !c.dryRun
    ensures var run := EventsOf(c.events, mmsi);
      && L.Lookup(c.storage.vessels, mmsi)
           == L.CombineAll(L.Lookup(c.base, mmsi), L.Accepted(run)[..L.StoredCount(run)])
      && (mmsi in c.pending <==> L.FlushedCount(run) < |L.Accepted(run)|)
      && (mmsi in c.pending ==> c.pending[mmsi] == Fold(L.Accepted(run)[L.FlushedCount(run)..]))
  {
    var run := EventsOf(c.events, mmsi);
    assert Explains(c.pending, c.storage.vessels, c.base, c.events, mmsi);
    L.RunIsFold(L.Lookup(c.base, mmsi), run);
  }

  /**
   * Field by field, the store holds for every vessel the last static value carried and the latest
   * position among the observations that reached it, or else what it held at the start.
   */
  lemma StoreHoldsLast(c: AisConsumer, mmsi: string)
    requires c.Valid() && !c.dryRun
    ensures var run := EventsOf(c.events, mmsi);
      L.HoldsLast(L.Lookup(c.base, mmsi), L.Accepted(run)[..L.StoredCount(run)], L.Lookup(c.storage.vessels, mmsi))
  {
    var run := EventsOf(c.events, mmsi);
    assert Explains(c.pending, c.storage.vessels, c.base, c.events, mmsi);
    L.RunHoldsLast(L.Lookup(c.base, mmsi), run);
  }
}
