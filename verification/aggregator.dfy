/**
 * The liked-songs aggregator: walks the user's saved-tracks feed (newest first,
 * in pages of 50 addressed by an offset), stops at the first track saved before
 * the start of the date window, skips tracks saved after its end, applies the
 * optional genre and mood filters and files every surviving track, in feed
 * order, under its period key.
 *
 * The streaming service is abstracted away: the whole feed is one sequence of
 * items, a page is the slice the service would return for an offset, and each
 * item carries the answers the feature and artist-genre lookups give for it.
 */
module Aggregator {
  import opened Wrappers
  import opened Mood
  import opened Calendar
  import opened Period
  import opened GenreFilter

  /** Page size requested from the saved-tracks endpoint. */
  const BatchSize: int := 50

  /** Display fields of a track, copied into the result without being inspected. */
  datatype Track = Track(id: string, name: string, artists: seq<string>, previewUrl: Option<string>, externalUrl: string)

  /**
   * One saved-tracks entry with the collaborators' answers for it: the audio
   * features of the track (absent when the service has none) and the genres
   * of its first artist.
   */
  datatype Item = Item(track: Track, savedAt: int, features: Option<Features>, genres: seq<string>)

  /**
   * The inputs of one aggregation: window bounds as timestamps (both inclusive),
   * the grouping mode, and the two filters ("" when not given).
   */
  datatype Request = Request(startDate: int, endDate: int, groupBy: string, genreFilter: string, moodFilter: string)

  /** One entry of the grouped result. */
  datatype Record = Record(track: Track, savedAt: int, genres: seq<string>, mood: Mood, features: Features)

  /**
   * The grouping dictionary: the list of records of each period key, and the
   * keys in the order their lists were created, which is the order in which
   * the dictionary lists them.
   */
  datatype Grouping = Grouping(lists: map<string, seq<Record>>, order: seq<string>)

  /** The page the saved-tracks endpoint returns for `offset` and `limit`. */
  function FetchPage(library: seq<Item>, offset: nat, limit: nat): (page: seq<Item>)
    ensures |page| <= limit
    ensures offset >= |library| ==> page == []
    ensures offset < |library| ==> offset + |page| <= |library| && page == library[offset..offset + |page|]
    ensures offset < |library| ==> |page| == if offset + limit <= |library| then limit else |library| - offset
  {
    if offset >= |library| then []
    else if offset + limit <= |library| then library[offset..offset + limit]
    else library[offset..]
  }

  predicate InWindow(t: int, req: Request) {
    req.startDate <= t <= req.endDate
  }

  /** The mood test: an empty filter keeps everything, otherwise the label's name must equal it. */
  predicate MoodMatches(filter: string, mood: Mood) {
    filter == "" || MoodName(mood) == filter
  }

  /** An entry reached by the walk ends up in the result exactly when this holds. */
  predicate Qualifies(item: Item, req: Request) {
    && InWindow(item.savedAt, req)
    && GenreMatches(req.genreFilter, item.genres)
    && MoodMatches(req.moodFilter, Classify(item.features))
  }

  /**
   * Every qualifying entry among the first `n` has features. Building the
   * record of one without them fails (its `valence` is read from an absent
   * value), so this is what the aggregator demands of the entries it reaches.
   */
  predicate FeaturesPresent(items: seq<Item>, n: nat, req: Request)
    requires n <= |items|
  {
    forall j {:trigger Qualifies(items[j], req)} :: 0 <= j < n && Qualifies(items[j], req) ==> items[j].features.Some?
  }

  function MakeRecord(item: Item): (r: Record)
    requires item.features.Some?
    ensures r.savedAt == item.savedAt && r.genres == item.genres && r.track == item.track
    ensures Some(r.features) == item.features && r.mood == Classify(item.features)
  {
    Record(item.track, item.savedAt, item.genres, Classify(item.features), item.features.value)
  }

  /**
   * The number of entries the walk reaches before it meets one saved before
   * `start` (all of them when there is none).
   */
  function StopIndex(library: seq<Item>, start: int): (stop: nat)
    ensures stop <= |library|
    ensures stop < |library| ==> library[stop].savedAt < start
  {
    if library == [] || library[0].savedAt < start then 0
    else 1 + StopIndex(library[1..], start)
  }

  /**
   * The records of the qualifying entries among the first `n` of `items`, in
   * feed order. An entry without features is passed over; under
   * `FeaturesPresent` no qualifying entry is.
   */
  function Survivors(items: seq<Item>, n: nat, req: Request): seq<Record>
    requires n <= |items|
  {
    if n == 0 then []
    else
      var last := items[n - 1];
      Survivors(items, n - 1, req) + (if Qualifies(last, req) && last.features.Some? then [MakeRecord(last)] else [])
  }

  /**
   * The grouping once the walk has considered the first `n` entries: each
   * qualifying one filed in turn, starting from an empty dictionary.
   */
  function Walked(library: seq<Item>, n: nat, req: Request): Grouping
    requires n <= |library|
  {
    if n == 0 then Grouping(map[], [])
    else
      var item := library[n - 1];
      var prior := Walked(library, n - 1, req);
      if Qualifies(item, req) && item.features.Some? then File(prior, PeriodKey(item.savedAt, req.groupBy), MakeRecord(item))
      else prior
  }

  /** The records of `records` filed under `key`, in their original order. */
  function Bucket(records: seq<Record>, groupBy: string, key: string): seq<Record> {
    if records == [] then []
    else
      var last := records[|records| - 1];
      Bucket(records[..|records| - 1], groupBy, key) + (if PeriodKey(last.savedAt, groupBy) == key then [last] else [])
  }

  function PeriodKeys(records: seq<Record>, groupBy: string): set<string> {
    set r | r in records :: PeriodKey(r.savedAt, groupBy)
  }

  /** Appending one record to the list of `key`, which starts out empty when the key is new. */
  function AppendTo(m: map<string, seq<Record>>, key: string, r: Record): map<string, seq<Record>> {
    m[key := (if key in m then m[key] else []) + [r]]
  }

  /**
   * Filing one record in the dictionary: on first use of the key its list is
   * created, last in the key order; then the record is appended to it.
   */
  function File(g: Grouping, key: string, r: Record): Grouping {
    Grouping(AppendTo(g.lists, key, r), if key in g.lists then g.order else g.order + [key])
  }

  /** The grouped result: the records filed one after the other, starting from an empty map. */
  function GroupByPeriod(records: seq<Record>, groupBy: string): map<string, seq<Record>> {
    if records == [] then map[]
    else
      var last := records[|records| - 1];
      AppendTo(GroupByPeriod(records[..|records| - 1], groupBy), PeriodKey(last.savedAt, groupBy), last)
  }

  /** What one aggregation returns: the survivors of the walked prefix, grouped by period. */
  function Aggregate(library: seq<Item>, req: Request): map<string, seq<Record>> {
    GroupByPeriod(Survivors(library, StopIndex(library, req.startDate), req), req.groupBy)
  }

  /** The order in which one aggregation lists its period keys: the order of first filing. */
  function PeriodOrder(library: seq<Item>, req: Request): seq<string> {
    Walked(library, StopIndex(library, req.startDate), req).order
  }

  // ---------------------------------------------------------------------------
  // The aggregation loop

  /**
   * Fetches, filters and groups the saved tracks of `library` for `req`.
   * Besides the grouping, whose keys come in the order of `PeriodOrder`, it
   * returns the offsets of the pages it requested.
   */
  method FetchLikedSongs(library: seq<Item>, req: Request) returns (songsByPeriod: Grouping, offsets: seq<nat>)
    requires FeaturesPresent(library, StopIndex(library, req.startDate), req)
    ensures songsByPeriod.lists == Aggregate(library, req)
    ensures songsByPeriod.order == PeriodOrder(library, req)
    ensures |offsets| == StopIndex(library, req.startDate) / BatchSize + 1
    ensures forall k :: 0 <= k < |offsets| ==> offsets[k] == k * BatchSize
  {
    ghost var stop := StopIndex(library, req.startDate);
    ghost var walked: nat := 0;
    songsByPeriod := Grouping(map[], []);
    offsets := [];
    var offset: nat := 0;
    var continueFetching := true;
    while continueFetching
      invariant forall k :: 0 <= k < |offsets| ==> offsets[k] == k * BatchSize
      invariant walked <= stop && songsByPeriod == Walked(library, walked, req)
      invariant continueFetching ==> walked == offset == |offsets| * BatchSize
      invariant !continueFetching ==> walked == stop && 0 < |offsets| && (|offsets| - 1) * BatchSize <= stop < |offsets| * BatchSize
      decreases |library| - offset
    {
      var page := FetchPage(library, offset, BatchSize);
      offsets := offsets + [offset];
      if page == [] {
        assert walked == stop;
        break;
      }
      songsByPeriod, continueFetching := ProcessPage(library, req, offset, page, songsByPeriod);
      walked := if continueFetching then offset + |page| else stop;
      offset := offset + BatchSize;
      if |page| < BatchSize {
        assert walked == stop;
        break;
      }
    }
    WalkedGroupsSurvivors(library, stop, req);
    PageCount(stop, |offsets|);
  }

  /**
   * The page loop of the walk: scans one page in feed order, filing every
   * qualifying entry, and reports whether the walk may go on (false once an
   * entry older than the window has been seen).
   */
  method ProcessPage(library: seq<Item>, req: Request, offset: nat, page: seq<Item>, grouped: Grouping)
    returns (songsByPeriod: Grouping, continueFetching: bool)
    requires offset + |page| <= |library| && page == library[offset..offset + |page|]
    requires offset <= StopIndex(library, req.startDate)
    requires FeaturesPresent(library, StopIndex(library, req.startDate), req)
    requires grouped == Walked(library, offset, req)
    ensures continueFetching <==> offset + |page| <= StopIndex(library, req.startDate)
    ensures continueFetching ==> songsByPeriod == Walked(library, offset + |page|, req)
    ensures !continueFetching ==> songsByPeriod == Walked(library, StopIndex(library, req.startDate), req)
  {
    ghost var stop := StopIndex(library, req.startDate);
    songsByPeriod := grouped;
    continueFetching := true;
    for i := 0 to |page|
      invariant offset + i <= stop
      invariant continueFetching
      invariant songsByPeriod == Walked(library, offset + i, req)
    {
      var item := page[i];
      assert item == library[offset + i];
      if item.savedAt < req.startDate {
        StopAtFirstOlder(library, req.startDate, offset + i);
        continueFetching := false;
        break;
      }
      assert offset + i < stop;
      assert Qualifies(item, req) ==> item.features.Some?;
      songsByPeriod := FileEntry(item, req, songsByPeriod);
    }
  }

  /**
   * The loop body for one entry that is not older than the window: outside
   * the window, or rejected by a filter, it leaves the grouping alone;
   * otherwise it appends the entry's record to the list of its period key,
   * creating that list first, last in the key order, when the key is new.
   */
  method FileEntry(item: Item, req: Request, grouped: Grouping) returns (songsByPeriod: Grouping)
    requires Qualifies(item, req) ==> item.features.Some?
    ensures !Qualifies(item, req) ==> songsByPeriod == grouped
    ensures Qualifies(item, req) ==> songsByPeriod == File(grouped, PeriodKey(item.savedAt, req.groupBy), MakeRecord(item))
  {
    songsByPeriod := grouped;
    if req.startDate <= item.savedAt <= req.endDate {
      var genres := item.genres;
      var mood := Classify(item.features);
      if !GenreMatches(req.genreFilter, genres) {
        return;
      }
      if !MoodMatches(req.moodFilter, mood) {
        return;
      }
      var periodKey := PeriodKey(item.savedAt, req.groupBy);
      var lists, order := grouped.lists, grouped.order;
      if periodKey !in lists {
        lists := lists[periodKey := []];
        order := order + [periodKey];
      }
      lists := lists[periodKey := lists[periodKey] + [MakeRecord(item)]];
      songsByPeriod := Grouping(lists, order);
    }
  }

  // ---------------------------------------------------------------------------
  // Steps of the walk

  /** The walk's grouping is the grouping of the survivors. */
  lemma {:induction false} WalkedGroupsSurvivors(library: seq<Item>, n: nat, req: Request)
    requires n <= |library|
    ensures Walked(library, n, req).lists == GroupByPeriod(Survivors(library, n, req), req.groupBy)
  {
    if n > 0 {
      WalkedGroupsSurvivors(library, n - 1, req);
      var item := library[n - 1];
      var prior := Survivors(library, n - 1, req);
      if Qualifies(item, req) && item.features.Some? {
        var key := PeriodKey(item.savedAt, req.groupBy);
        assert Walked(library, n, req).lists == AppendTo(Walked(library, n - 1, req).lists, key, MakeRecord(item));
        assert Survivors(library, n, req) == prior + [MakeRecord(item)];
        GroupSnoc(prior, MakeRecord(item), req.groupBy);
      } else {
        assert Walked(library, n, req) == Walked(library, n - 1, req);
        assert Survivors(library, n, req) == prior;
      }
    }
  }

  /** The walk stops no later than at the first entry older than the window. */
  lemma {:induction false} StopAtFirstOlder(library: seq<Item>, start: int, j: nat)
    requires j < |library| && library[j].savedAt < start
    ensures StopIndex(library, start) <= j
  {
    if j > 0 && library[0].savedAt >= start {
      StopAtFirstOlder(library[1..], start, j - 1);
    }
  }

  /** A walk that ends inside its last page requested `stop / BatchSize + 1` pages. */
  lemma PageCount(stop: nat, pages: nat)
    requires 0 < pages && (pages - 1) * BatchSize <= stop < pages * BatchSize
    ensures stop / BatchSize + 1 == pages
  {
  }

  /** Grouping one more record is filing it into the grouping of the others. */
  lemma GroupSnoc(records: seq<Record>, r: Record, groupBy: string)
    ensures GroupByPeriod(records + [r], groupBy) == AppendTo(GroupByPeriod(records, groupBy), PeriodKey(r.savedAt, groupBy), r)
  {
    assert (records + [r])[..|records|] == records;
  }

  /**
   * Filing a record adds its key if missing, extends that key's list by the
   * record at the end, and leaves every other key and list as it was.
   */
  lemma AppendToChangesOneList(m: map<string, seq<Record>>, key: string, r: Record)
    ensures AppendTo(m, key, r).Keys == m.Keys + {key}
    ensures AppendTo(m, key, r)[key] == (if key in m then m[key] else []) + [r]
    ensures forall k :: k in m && k != key ==> AppendTo(m, key, r)[k] == m[k]
  {
  }
}
