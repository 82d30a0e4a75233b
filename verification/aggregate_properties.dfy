/**
 * What the aggregation promises about its result: which records it holds and
 * under which key, the order of each list, where the walk stops and what
 * the entries after that point can change.
 */
module AggregateProperties {
  import opened Wrappers
  import opened Mood
  import opened Calendar
  import opened Period
  import opened GenreFilter
  import opened Aggregator

  /** The saved-tracks feed lists the most recently saved entry first. */
  predicate NewestFirst(library: seq<Item>) {
    forall i, j :: 0 <= i < j < |library| ==> library[i].savedAt >= library[j].savedAt
  }

  /** A list of records, most recently saved first. */
  predicate NewestFirstRecords(records: seq<Record>) {
    forall i, j :: 0 <= i < j < |records| ==> records[i].savedAt >= records[j].savedAt
  }

  // ---------------------------------------------------------------------------
  // The walk's stopping point

  /** Every entry before the stopping point was saved no earlier than the window start. */
  lemma {:induction false} NotOlderBeforeStop(library: seq<Item>, start: int, j: nat)
    requires j < StopIndex(library, start)
    ensures library[j].savedAt >= start
  {
    if j > 0 {
      NotOlderBeforeStop(library[1..], start, j - 1);
    }
  }

  /** On a newest-first feed, no entry at or after the stopping point lies in the window. */
  lemma SortedFeedLosesNothing(library: seq<Item>, req: Request, j: nat)
    requires NewestFirst(library)
    requires StopIndex(library, req.startDate) <= j < |library|
    ensures !InWindow(library[j].savedAt, req)
  {
    var stop := StopIndex(library, req.startDate);
    assert library[j].savedAt <= library[stop].savedAt;
  }

  /**
   * The walk never looks past its stopping entry: a feed that agrees with
   * `library` up to and including that entry, whatever follows, stops at the
   * same place and yields the same result.
   */
  lemma EntriesAfterStopIgnored(library: seq<Item>, other: seq<Item>, req: Request)
    requires StopIndex(library, req.startDate) < |library|
    requires StopIndex(library, req.startDate) < |other|
    requires forall j :: 0 <= j <= StopIndex(library, req.startDate) ==> other[j] == library[j]
    ensures StopIndex(other, req.startDate) == StopIndex(library, req.startDate)
    ensures Aggregate(other, req) == Aggregate(library, req)
  {
    var stop := StopIndex(library, req.startDate);
    StopAtFirstOlder(other, req.startDate, stop);
    var otherStop := StopIndex(other, req.startDate);
    if otherStop < stop {
      NotOlderBeforeStop(library, req.startDate, otherStop);
      assert false;
    }
    SurvivorsAgree(other, library, stop, req);
  }

  /** Survivors of a prefix depend on that prefix only. */
  lemma {:induction false} SurvivorsAgree(a: seq<Item>, b: seq<Item>, n: nat, req: Request)
    requires n <= |a| && n <= |b|
    requires forall j :: 0 <= j < n ==> a[j] == b[j]
    ensures Survivors(a, n, req) == Survivors(b, n, req)
  {
    if n > 0 {
      SurvivorsAgree(a, b, n - 1, req);
      assert a[n - 1] == b[n - 1];
    }
  }

  /**
   * An empty feed: the walk stops at index 0, so by the page count of
   * `FetchLikedSongs` (`StopIndex / BatchSize + 1`) a single page is
   * requested, and the result holds no period.
   */
  lemma EmptyFeed(req: Request)
    ensures StopIndex([], req.startDate) == 0
    ensures Aggregate([], req) == map[] && PeriodOrder([], req) == []
  {
  }

  // ---------------------------------------------------------------------------
  // Which records survive

  /** A record survives exactly when it is built from a qualifying entry with features. */
  lemma {:induction false} SurvivorsMembership(items: seq<Item>, n: nat, req: Request, r: Record)
    requires n <= |items|
    ensures r in Survivors(items, n, req) <==>
      exists j :: 0 <= j < n && Qualifies(items[j], req) && items[j].features.Some? && r == MakeRecord(items[j])
  {
    if n > 0 {
      SurvivorsMembership(items, n - 1, req, r);
      var last := items[n - 1];
      if Qualifies(last, req) && last.features.Some? {
        assert Survivors(items, n, req) == Survivors(items, n - 1, req) + [MakeRecord(last)];
      } else {
        assert Survivors(items, n, req) == Survivors(items, n - 1, req);
      }
    }
  }

  /** Survivors of a newest-first feed are newest first. */
  lemma {:induction false} SurvivorsNewestFirst(items: seq<Item>, n: nat, req: Request)
    requires n <= |items| && NewestFirst(items)
    ensures NewestFirstRecords(Survivors(items, n, req))
  {
    if n > 0 {
      SurvivorsNewestFirst(items, n - 1, req);
      var last := items[n - 1];
      var prior := Survivors(items, n - 1, req);
      if Qualifies(last, req) && last.features.Some? {
        forall i | 0 <= i < |prior|
          ensures prior[i].savedAt >= last.savedAt
        {
          SurvivorsMembership(items, n - 1, req, prior[i]);
        }
        assert Survivors(items, n, req) == prior + [MakeRecord(last)];
      } else {
        assert Survivors(items, n, req) == prior;
      }
    }
  }

  // ---------------------------------------------------------------------------
  // Grouping

  /** A key's list holds exactly the records carrying that key. */
  lemma {:induction false} BucketMembership(records: seq<Record>, groupBy: string, key: string, r: Record)
    ensures r in Bucket(records, groupBy, key) <==> r in records && PeriodKey(r.savedAt, groupBy) == key
  {
    if records != [] {
      var init := records[..|records| - 1];
      assert records == init + [records[|records| - 1]];
      BucketMembership(init, groupBy, key, r);
    }
  }

  /** No record carries the key: its list is empty. */
  lemma {:induction false} EmptyBucket(records: seq<Record>, groupBy: string, key: string)
    requires forall w :: w in records ==> PeriodKey(w.savedAt, groupBy) != key
    ensures Bucket(records, groupBy, key) == []
  {
    if records != [] {
      var init := records[..|records| - 1];
      assert records == init + [records[|records| - 1]];
      EmptyBucket(init, groupBy, key);
    }
  }

  /** A key's list keeps the order of the records it was built from. */
  lemma {:induction false} BucketNewestFirst(records: seq<Record>, groupBy: string, key: string)
    requires NewestFirstRecords(records)
    ensures NewestFirstRecords(Bucket(records, groupBy, key))
  {
    if records != [] {
      var init := records[..|records| - 1];
      var last := records[|records| - 1];
      assert records == init + [last];
      BucketNewestFirst(init, groupBy, key);
      var prior := Bucket(init, groupBy, key);
      if PeriodKey(last.savedAt, groupBy) == key {
        forall i | 0 <= i < |prior|
          ensures prior[i].savedAt >= last.savedAt
        {
          BucketMembership(init, groupBy, key, prior[i]);
        }
      }
    }
  }

  /** The keys of one more record are the keys of the others plus its own. */
  lemma PeriodKeysSnoc(records: seq<Record>, r: Record, groupBy: string)
    ensures PeriodKeys(records + [r], groupBy) == PeriodKeys(records, groupBy) + {PeriodKey(r.savedAt, groupBy)}
  {
    assert forall w :: w in records + [r] <==> w in records || w == r;
  }

  /** The keys of a grouping are exactly the keys of its records. */
  lemma {:induction false} GroupedKeys(records: seq<Record>, groupBy: string)
    ensures GroupByPeriod(records, groupBy).Keys == PeriodKeys(records, groupBy)
  {
    if records != [] {
      var init := records[..|records| - 1];
      var last := records[|records| - 1];
      assert records == init + [last];
      GroupedKeys(init, groupBy);
      PeriodKeysSnoc(init, last, groupBy);
      AppendToChangesOneList(GroupByPeriod(init, groupBy), PeriodKey(last.savedAt, groupBy), last);
    }
  }

  /**
   * Grouping files every record under its own key and nowhere else: each
   * key's list is that key's records, in order.
   */
  lemma {:induction false} GroupedListsAreBuckets(records: seq<Record>, groupBy: string, key: string)
    requires key in GroupByPeriod(records, groupBy)
    ensures GroupByPeriod(records, groupBy)[key] == Bucket(records, groupBy, key)
  {
    var init := records[..|records| - 1];
    var last := records[|records| - 1];
    var prior := GroupByPeriod(init, groupBy);
    if key in prior {
      GroupedListsAreBuckets(init, groupBy, key);
    } else {
      GroupedKeys(init, groupBy);
      EmptyBucket(init, groupBy, key);
    }
  }

  /** Every list of a grouping is non-empty and holds only records of its own key. */
  lemma GroupedListsSound(records: seq<Record>, groupBy: string, key: string)
    requires key in GroupByPeriod(records, groupBy)
    ensures |GroupByPeriod(records, groupBy)[key]| > 0
    ensures forall r :: r in GroupByPeriod(records, groupBy)[key] ==> r in records && PeriodKey(r.savedAt, groupBy) == key
  {
    GroupedKeys(records, groupBy);
    GroupedListsAreBuckets(records, groupBy, key);
    var w :| w in records && PeriodKey(w.savedAt, groupBy) == key;
    BucketMembership(records, groupBy, key, w);
    forall r | r in GroupByPeriod(records, groupBy)[key]
      ensures r in records && PeriodKey(r.savedAt, groupBy) == key
    {
      BucketMembership(records, groupBy, key, r);
    }
  }

  // ---------------------------------------------------------------------------
  // The result

  /**
   * Every record in the result was saved inside the window, passes both
   * filters, carries the label of its features, is filed under its own key
   * and comes from an entry the walk reached.
   */
  lemma AggregateSound(library: seq<Item>, req: Request, key: string, r: Record)
    requires key in Aggregate(library, req) && r in Aggregate(library, req)[key]
    ensures PeriodKey(r.savedAt, req.groupBy) == key
    ensures InWindow(r.savedAt, req)
    ensures GenreMatches(req.genreFilter, r.genres) && MoodMatches(req.moodFilter, r.mood)
    ensures r.mood == Classify(Some(r.features))
    ensures exists j :: 0 <= j < StopIndex(library, req.startDate) && library[j].features.Some? && r == MakeRecord(library[j])
  {
    var survivors := Survivors(library, StopIndex(library, req.startDate), req);
    GroupedListsSound(survivors, req.groupBy, key);
    SurvivorsMembership(library, StopIndex(library, req.startDate), req, r);
  }

  /** Every qualifying entry the walk reaches is in the result, under its key. */
  lemma AggregateComplete(library: seq<Item>, req: Request, j: nat)
    requires j < StopIndex(library, req.startDate)
    requires FeaturesPresent(library, StopIndex(library, req.startDate), req)
    requires Qualifies(library[j], req)
    ensures PeriodKey(library[j].savedAt, req.groupBy) in Aggregate(library, req)
    ensures MakeRecord(library[j]) in Aggregate(library, req)[PeriodKey(library[j].savedAt, req.groupBy)]
  {
    var stop := StopIndex(library, req.startDate);
    var survivors := Survivors(library, stop, req);
    var r := MakeRecord(library[j]);
    var key := PeriodKey(library[j].savedAt, req.groupBy);
    SurvivorsMembership(library, stop, req, r);
    assert key in PeriodKeys(survivors, req.groupBy);
    GroupedKeys(survivors, req.groupBy);
    GroupedListsAreBuckets(survivors, req.groupBy, key);
    BucketMembership(survivors, req.groupBy, key, r);
  }

  /** No list of the result is empty. */
  lemma AggregateListsNonEmpty(library: seq<Item>, req: Request, key: string)
    requires key in Aggregate(library, req)
    ensures |Aggregate(library, req)[key]| > 0
  {
    GroupedListsSound(Survivors(library, StopIndex(library, req.startDate), req), req.groupBy, key);
  }

  /** On a newest-first feed every list of the result is newest first. */
  lemma AggregateListsNewestFirst(library: seq<Item>, req: Request, key: string)
    requires NewestFirst(library)
    requires key in Aggregate(library, req)
    ensures NewestFirstRecords(Aggregate(library, req)[key])
  {
    var survivors := Survivors(library, StopIndex(library, req.startDate), req);
    SurvivorsNewestFirst(library, StopIndex(library, req.startDate), req);
    GroupedListsAreBuckets(survivors, req.groupBy, key);
    BucketNewestFirst(survivors, req.groupBy, key);
  }

  // ---------------------------------------------------------------------------
  // The order of the periods

  /** The key order lists every key of the dictionary exactly once, and no list is empty. */
  predicate OrderListsKeys(g: Grouping) {
    && (forall k :: k in g.order ==> k in g.lists)
    && (forall k :: k in g.lists ==> k in g.order)
    && (forall i, j :: 0 <= i < j < |g.order| ==> g.order[i] != g.order[j])
    && (forall k :: k in g.lists ==> |g.lists[k]| > 0)
  }

  /** Every period's first record is at least as recent as the first record of each later period. */
  predicate PeriodsNewestFirst(g: Grouping)
    requires OrderListsKeys(g)
  {
    forall i, j :: 0 <= i < j < |g.order| ==> g.lists[g.order[i]][0].savedAt >= g.lists[g.order[j]][0].savedAt
  }

  /** Filing a record keeps every key listed once in the key order, with no list empty. */
  lemma FileKeepsOrderListsKeys(g: Grouping, key: string, r: Record)
    requires OrderListsKeys(g)
    ensures OrderListsKeys(File(g, key, r))
  {
    AppendToChangesOneList(g.lists, key, r);
  }

  lemma {:induction false} WalkedOrderListsKeys(library: seq<Item>, n: nat, req: Request)
    requires n <= |library|
    ensures OrderListsKeys(Walked(library, n, req))
  {
    if n > 0 {
      WalkedOrderListsKeys(library, n - 1, req);
      var item := library[n - 1];
      if Qualifies(item, req) && item.features.Some? {
        FileKeepsOrderListsKeys(Walked(library, n - 1, req), PeriodKey(item.savedAt, req.groupBy), MakeRecord(item));
      }
    }
  }

  /** The records the walk has filed are no older than the oldest entry it has considered. */
  lemma {:induction false} WalkedRecordsNotOlderThan(library: seq<Item>, n: nat, req: Request, key: string, bound: int)
    requires n <= |library|
    requires forall j :: 0 <= j < n ==> library[j].savedAt >= bound
    requires key in Walked(library, n, req).lists
    ensures forall r :: r in Walked(library, n, req).lists[key] ==> r.savedAt >= bound
  {
    if n > 0 && key in Walked(library, n - 1, req).lists {
      WalkedRecordsNotOlderThan(library, n - 1, req, key, bound);
    }
  }

  /**
   * Filing a record no more recent than the first record of every period
   * keeps the periods newest first: a new period goes last.
   */
  lemma FileKeepsPeriodsNewestFirst(g: Grouping, key: string, r: Record)
    requires OrderListsKeys(g) && PeriodsNewestFirst(g)
    requires forall k :: k in g.lists ==> g.lists[k][0].savedAt >= r.savedAt
    ensures OrderListsKeys(File(g, key, r)) && PeriodsNewestFirst(File(g, key, r))
  {
    FileKeepsOrderListsKeys(g, key, r);
    var filed := File(g, key, r);
    forall i, j | 0 <= i < j < |filed.order|
      ensures filed.lists[filed.order[i]][0].savedAt >= filed.lists[filed.order[j]][0].savedAt
    {
      assert filed.order[i] == g.order[i];
      FileKeepsFirstRecord(g, key, r, g.order[i]);
      if j < |g.order| {
        FileKeepsFirstRecord(g, key, r, g.order[j]);
      } else {
        assert filed.lists[filed.order[j]] == [r];
      }
    }
  }

  /** Filing a record leaves the first record of every existing period alone. */
  lemma FileKeepsFirstRecord(g: Grouping, key: string, r: Record, k: string)
    requires OrderListsKeys(g) && k in g.lists
    ensures k in File(g, key, r).lists && File(g, key, r).lists[k][0] == g.lists[k][0]
  {
  }

  /** On a newest-first feed the walk creates the periods newest first. */
  lemma {:induction false} WalkedPeriodsNewestFirst(library: seq<Item>, n: nat, req: Request)
    requires n <= |library| && NewestFirst(library)
    ensures OrderListsKeys(Walked(library, n, req)) && PeriodsNewestFirst(Walked(library, n, req))
  {
    if n > 0 {
      WalkedPeriodsNewestFirst(library, n - 1, req);
      var item := library[n - 1];
      var prior := Walked(library, n - 1, req);
      if Qualifies(item, req) && item.features.Some? {
        forall k | k in prior.lists
          ensures prior.lists[k][0].savedAt >= item.savedAt
        {
          WalkedRecordsNotOlderThan(library, n - 1, req, k, item.savedAt);
          assert prior.lists[k][0] in prior.lists[k];
        }
        FileKeepsPeriodsNewestFirst(prior, PeriodKey(item.savedAt, req.groupBy), MakeRecord(item));
      }
    }
  }

  /**
   * The dictionary an aggregation returns lists every period key exactly once,
   * none with an empty list, and on a newest-first feed it lists the periods
   * newest first, by their most recent record.
   */
  lemma AggregateOrder(library: seq<Item>, req: Request)
    ensures OrderListsKeys(Grouping(Aggregate(library, req), PeriodOrder(library, req)))
    ensures NewestFirst(library) ==> PeriodsNewestFirst(Grouping(Aggregate(library, req), PeriodOrder(library, req)))
  {
    var stop := StopIndex(library, req.startDate);
    WalkedGroupsSurvivors(library, stop, req);
    assert Walked(library, stop, req) == Grouping(Aggregate(library, req), PeriodOrder(library, req));
    WalkedOrderListsKeys(library, stop, req);
    if NewestFirst(library) {
      WalkedPeriodsNewestFirst(library, stop, req);
    }
  }

  /**
   * With window bounds taken as the midnights that begin their days, the
   * start day is inside the window as a whole, but of the end day only its
   * first second is.
   */
  lemma WindowDayBoundaries(req: Request, first: Date, last: Date, t: int)
    requires req.startDate == Midnight(first) && req.endDate == Midnight(last)
    ensures DateOf(t) == first && t <= req.endDate ==> InWindow(t, req)
    ensures DateOf(t) == last ==> (InWindow(t, req) <==> t == req.endDate && req.startDate <= t)
  {
  }
}
