/** What the rows hold, said of the events. */
module RowMeaning {
  import opened Lists
  import opened RowSums
  import opened UsageRows
  import opened PricingRules
  import opened ActivityGrain
  import Text

  function HasKey<K(==)>(key: Event -> K, k: K): Event -> bool {
    (e: Event) => key(e) == k
  }

  function Failed(e: Event): bool {
    e.failed
  }

  function Succeeded(e: Event): bool {
    !e.failed
  }

  /** All counters of a group of events. */
  ghost predicate CountsEvents(r: Counters, mine: seq<Event>) {
    && r.requests == |mine| && r.success == |Select(mine, Succeeded)| && r.failure == |Select(mine, Failed)|
    && r.input == SumOf(mine, (e: Event) => e.counters.input) && r.output == SumOf(mine, (e: Event) => e.counters.output)
    && r.reasoning == SumOf(mine, (e: Event) => e.counters.reasoning) && r.cached == SumOf(mine, (e: Event) => e.counters.cached)
    && r.cacheRead == SumOf(mine, (e: Event) => e.counters.cacheRead)
    && r.cacheCreation == SumOf(mine, (e: Event) => e.counters.cacheCreation) && r.total == SumOf(mine, (e: Event) => e.counters.total)
  }

  lemma {:induction false} CountsOneMore(r: Counters, mine: seq<Event>, e: Event)
    requires CountsEvents(r, mine)
    ensures CountsEvents(Plus(r, Contribution(e)), mine + [e])
  {
    assert (mine + [e])[..|mine|] == mine;
  }

  /** The row of a key: one request for each of its events, a success or a failure, and
      the sums of their tokens. */
  lemma {:induction false} RowCountsEvents<K>(events: seq<Event>, key: Event -> K, k: K)
    ensures var rows, mine := Collect(EntriesBy(events, key)), Select(events, HasKey(key, k));
            && (k in rows <==> mine != [])
            && CountsEvents(Get(rows, k), mine)
  {
    var mine := Select(events, HasKey(key, k));
    if events == [] {
      assert EntriesBy(events, key) == [];
      assert CountsEvents(ZERO, []);
    } else {
      var n := |events| - 1;
      RowCountsEvents(events[..n], key, k);
      assert events[..n + 1] == events;
      NextEntry(events, key, n);
      hide Contribution;
      hide CountsEvents;
      if key(events[n]) == k {
        CountsOneMore(Get(Collect(EntriesBy(events[..n], key)), k), Select(events[..n], HasKey(key, k)), events[n]);
      } else {
        assert mine == Select(events[..n], HasKey(key, k));
      }
      hide Plus;
      hide EntriesBy;
    }
  }

  /** The hour of an event: a whole hour, begun and not yet over. */
  lemma HourOf(e: Event)
    ensures HourKey(e).start % (3600 * 1_000_000_000) == 0 && HourKey(e).start <= e.at < HourKey(e).start + 3600 * 1_000_000_000
  {
  }

  /** Its day, from midnight to midnight. */
  lemma DayOf(c: Calendar, e: Event)
    requires Regular(c)
    ensures DayKey(c)(e).start <= e.at < c.midnight(c.dayOf(e.at) + 1) * 1_000_000_000
    ensures exists d :: DayKey(c)(e).start == c.midnight(d) * 1_000_000_000
  {
    var d := c.dayOf(e.at);
    assert DayKey(c)(e).start == c.midnight(d) * 1_000_000_000;
  }

  /** Its dimensions: without surrounding blanks, and never without group or model. */
  lemma DimensionsOf(c: Calendar, e: Event)
    ensures var d, o := HourKey(e).dimensions, e.dimensions;
            && DayKey(c)(e).dimensions == d
            && d.apiGroupKey == (if Text.Trim(o.apiGroupKey) == "" then "unknown" else Text.Trim(o.apiGroupKey))
            && d.model == (if Text.Trim(o.model) == "" then "unknown" else Text.Trim(o.model))
            && d.authIndex == Text.Trim(o.authIndex) && d.modelAlias == Text.Trim(o.modelAlias)
            && d.serviceTier == Text.Trim(o.serviceTier) && d.responseServiceTier == Text.Trim(o.responseServiceTier)
            && d.reasoningEffort == Text.Trim(o.reasoningEffort) && d.endpoint == Text.Trim(o.endpoint)
            && d.executorType == Text.Trim(o.executorType)
  {
  }

  /** How long each grain keeps an event: three, eight and thirty-one days, and for ever. */
  lemma KeptFor(g: Grain, at: int, now: int)
    requires !g.Unsupported?
    ensures Retained(g, at, now) <==>
              match g
              case Short => now - 3 * 86_400_000_000_000 <= at
              case Medium => now - 8 * 86_400_000_000_000 <= at
              case Long => now - 31 * 86_400_000_000_000 <= at
              case _ => true
  {
  }

  /** The ID a page ends with: the largest, if one is positive. */
  lemma {:induction false} MaxIDIsHighest(events: seq<Event>)
    ensures 0 <= MaxID(events) && forall i :: 0 <= i < |events| ==> events[i].id <= MaxID(events)
    ensures MaxID(events) == 0 || exists i :: 0 <= i < |events| && events[i].id == MaxID(events)
  {
    if events != [] {
      var n := |events| - 1;
      MaxIDIsHighest(events[..n]);
      assert forall i :: 0 <= i < n ==> events[..n][i] == events[i];
    }
  }
}
