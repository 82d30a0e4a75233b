# Liked-songs aggregation of the playify dashboard, in Dafny

playify is a small web dashboard over a user's saved ("liked") tracks on a
streaming service. Its core is `fetch_liked_songs`. The function walks the
saved-tracks feed, newest first, in pages of 50 addressed by an offset. It
stops at the first track saved before the start of the date window and skips
tracks saved after its end. It labels each track with a mood computed from
its audio features, and applies an optional genre filter and an optional mood
filter. It then appends every surviving track, in feed order, to the list of
its period key: "March 2024" when grouping monthly, "Winter 2024" seasonally,
and "2024" for any other grouping mode.

The project has these modules:

- `Mood` (`mood.dfy`): the threshold table and the first-match-wins classifier
  `classify_mood`.
- `Calendar` (`calendar.dfy`): a proleptic Gregorian calendar over timestamps in
  seconds. It stands in for the parsed `added_at` datetime and its `year` and
  `month`.
- `Period` (`period.dfy`): `get_season` and the three period-key forms, with the
  decimal year string.
- `GenreFilter` (`genre.dfy`): the case-insensitive substring test over a
  track's genres.
- `Aggregator` (`aggregator.dfy`): the aggregation loop as an imperative method,
  together with the specification functions it is proved against.
- `AggregateProperties` (`aggregate_properties.dfy`): what the result promises.
  It covers soundness and completeness of its contents, keys and order, the
  stopping point, and the window on the end day.
- `Wrappers` (`wrappers.dfy`): `Option`.

The streaming service is an input. The whole saved-tracks feed is one
sequence of items, and a page is the slice of it that the service returns for an
offset. Each item carries the audio features and the first artist's genres
that the lookups give for it. The method `Aggregator.FetchLikedSongs` keeps the
source's control flow: `continue_fetching`, the empty-page and short-page exits,
and the early stop inside a page. The dictionary it builds is a `Grouping`: the
list of each period key, together with the keys in the order their lists were
created, which is the order in which a Python dict lists them. Its lists are
proved equal to the declarative `Aggregator.Aggregate`: group by period the
records of the qualifying entries before the stopping index. Its key order is
proved equal to `Aggregator.PeriodOrder`, the order of first filing. It also
returns the offsets it requested, so that the paging behaviour is part of its
contract.

The window check compares full timestamps. Both bounds are midnights of the
dates the user picked. So the end day is in the window only at its first second
(`AggregateProperties.WindowDayBoundaries`), although the date bounds are
meant to be inclusive. The model follows the code here.

## Model

| member | source | states |
|---|---|---|
| Mood.Classify | app.py:48-64 | total; `Unknown` exactly when features are absent; otherwise a label of the threshold table; each label holds exactly on its region once earlier branches are accounted for (Happy: v≥0.7∧e≥0.7; Sad: v≤0.3∧e≤0.4; Energetic: v<0.7∧e≥0.8; Chill: v>0.3∧e≤0.3; Balanced: 0.3<e<0.8 outside Happy and Sad) |
| Mood.ThresholdLabelsAreReachable | app.py:20-26 | every label of the threshold table is produced by some valence/energy pair |
| Mood.MoodNameInjective | app.py:104 | distinct labels have distinct names, so a mood filter selects one label |
| Mood.ClassifyExamples | app.py:55-64 | (0.9,0.9) Happy, (0.1,0.1) Sad, (0.5,0.9) Energetic, (0.5,0.1) Chill, (0.5,0.5) Balanced, absent features Unknown |
| Calendar.DateOf | app.py:90 | the calendar date of a timestamp is a valid date whose day contains the timestamp |
| Calendar.MidnightRoundTrip | app.py:90 | the midnight of a valid date lies on that date |
| Calendar.DayNumberInjective | app.py:90 | distinct valid dates have distinct day numbers |
| Period.SeasonOf | app.py:37-46 | December–February Winter, March–May Spring, June–August Summer, September–November Fall |
| Period.YearStringRoundTrip | app.py:111-113 | the decimal year string reads back as the year |
| Period.YearStringInjective | app.py:111-113 | distinct years give distinct year strings |
| Period.PeriodKey | app.py:108-113 | every key is non-empty |
| Period.MonthlyKeysEqual | app.py:108-109 | monthly keys ("Month YYYY") of two save times agree iff they share month and year |
| Period.SeasonalKeysEqual | app.py:110-111 | seasonal keys ("Season YYYY") agree iff the save times share season and calendar year |
| Period.FallbackKeysEqual | app.py:112-113 | any mode other than monthly or seasonal gives the yearly key, and keys agree iff the years do |
| Period.DecemberKeepsItsYear | app.py:39-40 | December shares its winter key with January of the same year, not the following one |
| Period.KeyExamples | app.py:108-113 | "March 2024", "Winter 2024" for January and December 2024, "Summer 2024", and "2024" for "yearly" and for an unknown mode |
| GenreFilter.Lower | app.py:102 | lower-casing keeps the length, maps each character, and leaves no ASCII upper-case letter |
| GenreFilter.ContainsIffOccurs | app.py:102 | the substring test holds iff the needle occurs at some position |
| GenreFilter.AnyGenreContainsIffSome | app.py:102 | `any` over the genres holds iff some lower-cased genre contains the needle |
| GenreFilter.GenreMatchesIffSomeGenreContains | app.py:102-103 | an empty filter keeps every track; otherwise a track passes iff the lower-cased filter occurs inside some lower-cased genre |
| GenreFilter.RockExcludesJazzAndBlues | app.py:102-103 | "rock" rejects a track tagged jazz and blues |
| GenreFilter.RockMatchesIndieRock | app.py:102-103 | "rock" accepts "Indie Rock" (case-insensitive, inside the tag) |
| Aggregator.FetchPage | app.py:79-82 | a page holds at most 50 entries, is empty past the end of the feed, and is otherwise the next slice of the feed, full unless the feed ends inside it |
| Aggregator.StopIndex | app.py:92-94 | the walk stops within the feed, and it stops at an entry only when that entry is older than the window start |
| Aggregator.FetchLikedSongs | app.py:72-139 | the dictionary's lists equal `Aggregate` and its key order equals `PeriodOrder`; the method requests `stop/50 + 1` pages, where `stop` is the stopping index, at offsets 0, 50, 100, …; no page after the one holding the stopping entry, nor after an empty or short page |
| Aggregator.ProcessPage | app.py:88-133 | scans one page; it reports that the walk goes on iff the page ends before the stopping index, and returns the grouping of the entries considered so far |
| Aggregator.FileEntry | app.py:96-133 | an entry outside the window or rejected by a filter leaves the dictionary unchanged; a qualifying one is appended to its key's list, which is created when missing and then comes last in the key order |
| Aggregator.WalkedGroupsSurvivors | app.py:88-133 | filing the entries one by one gives the grouping of the surviving records |
| Aggregator.StopAtFirstOlder | app.py:92-94 | the walk stops no later than the first entry older than the window start |
| Aggregator.AppendToChangesOneList | app.py:115-118 | an append adds the key if missing, extends that key's list by the record at its end, and changes no other key or list |
| AggregateProperties.NotOlderBeforeStop | app.py:92-94 | every entry before the stopping index was saved no earlier than the window start |
| AggregateProperties.SortedFeedLosesNothing | app.py:92-94 | on a newest-first feed, no entry at or after the stopping index is inside the window |
| AggregateProperties.EntriesAfterStopIgnored | app.py:92-94 | a feed that agrees up to and including the stopping entry stops at the same index and gives the same result, whatever follows |
| AggregateProperties.SurvivorsAgree | app.py:88-96 | the surviving records of a prefix depend on that prefix only |
| AggregateProperties.EmptyFeed | app.py:81-82 | an empty library: the walk stops at index 0, so one page is requested, and the result holds no period |
| AggregateProperties.SurvivorsMembership | app.py:92-105 | a record survives among the first n entries iff it is built from one of them that has features, lies in the window and passes both filters |
| AggregateProperties.SurvivorsNewestFirst | app.py:88-133 | the survivors of a newest-first feed are newest first |
| AggregateProperties.BucketMembership | app.py:115-118 | a key's list holds exactly the records with that key |
| AggregateProperties.EmptyBucket | app.py:115-118 | a key that no record carries has an empty list |
| AggregateProperties.BucketNewestFirst | app.py:115-118 | a key's list keeps the order of the records it came from |
| AggregateProperties.PeriodKeysSnoc | app.py:115-116 | one more record adds its own key to the key set |
| AggregateProperties.GroupedKeys | app.py:115-116 | the keys of the grouping are exactly the keys of the records |
| AggregateProperties.GroupedListsAreBuckets | app.py:115-118 | each key's list is exactly that key's records, in feed order |
| AggregateProperties.GroupedListsSound | app.py:115-118 | every list is non-empty and holds only records of its own key |
| AggregateProperties.AggregateSound | app.py:92-118 | every record in the result was saved inside the window, passes the genre and mood filters, carries the label of its features, sits under its own key and comes from an entry before the stop |
| AggregateProperties.AggregateComplete | app.py:92-118 | every entry before the stop that lies in the window and passes both filters is in the result, under its key |
| AggregateProperties.AggregateListsNonEmpty | app.py:115-118 | no list of the result is empty |
| AggregateProperties.AggregateListsNewestFirst | app.py:88-118 | on a newest-first feed every list of the result is newest first |
| AggregateProperties.FileKeepsOrderListsKeys | app.py:115-118 | filing a record keeps every key listed exactly once in the key order, with no empty list |
| AggregateProperties.WalkedOrderListsKeys | app.py:73-118 | after any number of entries, the key order lists each key of the dictionary exactly once and no list is empty |
| AggregateProperties.FileKeepsPeriodsNewestFirst | app.py:115-118 | filing a record no more recent than every period's first record keeps the periods newest first; a new period goes last |
| AggregateProperties.WalkedPeriodsNewestFirst | app.py:88-118 | on a newest-first feed, the walk creates the periods newest first, ordered by their first record |
| AggregateProperties.AggregateOrder | app.py:73-118 | the returned dictionary lists every period key exactly once, none with an empty list; on a newest-first feed its periods come newest first, by their most recent record |
| AggregateProperties.WindowDayBoundaries | app.py:96 | with midnight bounds, the whole start day is in the window, but of the end day only its first second is |

## Left out

- The web layer is not part of this model: routes, session, OAuth, template rendering and the dashboard's genre sampling. This is I/O plumbing.
- The service calls are inputs. These are the saved-tracks pages, `audio_features` and the artist lookup behind `get_track_genres`. The feed is a fixed sequence, the feature list is assumed to line up one-to-one with the page (so `zip` never truncates), and the genre lookup is deterministic. Service errors, rate limits and retries are not modelled.
- Aggregator.FetchLikedSongs requires that every qualifying entry the walk reaches has audio features. Without them, the source fails while it builds the record, when it reads `valence` from an absent value. The model does not reproduce that failure. `Survivors` and `Walked` pass such an entry over, and `AggregateComplete` carries the same precondition.
- Timestamps are whole seconds of a proleptic Gregorian calendar. `strptime` parsing of the `added_at` text and `strftime` formatting of the record's date are not modelled. The record keeps the save time instead.
- Audio-feature scores are exact reals, not floating-point numbers. Threshold comparisons at the boundaries are therefore exact.
- GenreFilter.Lower: lower-cases ASCII letters only. Unicode case mapping is not modelled.
- An absent filter and an empty filter are both falsy in the source, so both are modelled as `""`.
- Display fields are not inspected. These are the comma-joined artist names, the preview URL and the external URL.
- Period.YearString: writes negative years with a minus sign. The source's datetime cannot hold a year outside 1–9999, so such years never occur there.
- There is no validation of `start_date <= end_date` or of the grouping mode in the source, and none in the model. An unknown mode falls back to yearly keys.
