/**
 * `load_feed` (iplayercast.py) from the history to the written feed: the
 * search loop, the download loop, the saving of the history and the writing
 * of `feed.xml`. A listing that fails to parse raises `IndexError` inside
 * the search loop, and nothing after it runs.
 */
module FeedRun {
  import opened Wrappers
  import opened Text
  import opened Programmes
  import opened Dates
  import opened Listing
  import opened Catalog
  import opened Rss

  /** What one run leaves behind. `Aborted`: a listing failed to parse;
      nothing was downloaded, the history was not saved and no feed was
      written. `Saved`: the catalog saved as the new history, and the
      feed document or the error that stopped `write_feed_rss`. */
  datatype Outcome =
    | Aborted(error: ListingError)
    | Saved(history: seq<Programme>, feed: Result<string, RenderError>)

  /** Under a valid clock reading the search loop only adds programmes
      with valid timestamps. */
  lemma {:induction false} SearchAllKeepsDates(ps: seq<Programme>, listings: seq<string>, now: DateTime)
    requires Valid(now) && AllDatesValid(ps)
    ensures AllDatesValid(SearchAll(ps, listings, now).catalog)
    decreases |listings|
  {
    if listings != [] {
      match ParseListing(listings[0], now) {
        case Err(_) =>
        case Ok(candidates) =>
          ParsedAreNew(Split(listings[0], '\n'), now, candidates);
          MergedAppendsFirstOccurrences(ps, candidates);
          FirstOccurrencesAreFresh(Pids(ps), candidates);
          var fs := FirstOccurrences(Pids(ps), candidates);
          var m := Merged(ps, candidates);
          forall k | 0 <= k < |m| ensures Valid(m[k].dateLoaded) {
            if k >= |ps| {
              assert m[k] == fs[k - |ps|];
              var j :| 0 <= j < |candidates| && candidates[j] == fs[k - |ps|];
            }
          }
          SearchAllKeepsDates(m, listings[1..], now);
      }
    }
  }

  /** One run of `load_feed` on a feed whose history is `history`:
      `listings` are the outputs of the searches in order, `now` the clock
      reading of the search loop, `staging` what the staging directory held
      after each fetch, and `sizes` and `buildTime` the feed directory and
      the clock as `write_feed_rss` sees them. The run aborts exactly when
      the search loop stops on a listing error, and with that error; the
      history it saves keeps every timestamp valid. */
  function LoadedFeed(ch: Channel, history: seq<Programme>, listings: seq<string>, now: DateTime,
                      staging: map<string, seq<string>>, sizes: map<string, nat>, buildTime: DateTime): (r: Outcome)
    requires Valid(now) && Valid(buildTime) && AllDatesValid(history)
    ensures r.Aborted? <==> SearchAll(history, listings, now).failure.Some?
    ensures r.Aborted? ==> SearchAll(history, listings, now).failure == Some(r.error)
    ensures r.Saved? ==> AllDatesValid(r.history)
  {
    var searched := SearchAll(history, listings, now);
    if searched.failure.Some? then Aborted(searched.failure.value)
    else
      SearchAllKeepsDates(history, listings, now);
      DownloadedAllKeepsDates(searched.catalog, staging);
      var catalog := DownloadedAll(searched.catalog, staging);
      Saved(catalog, RenderFeed(ch, catalog, sizes, buildTime))
  }

  /** `load_feed` on a feed object: the search loop, then, unless it
      stopped on a listing error, the download loop, the history as saved
      and the feed document. */
  method LoadFeed(ch: Channel, feed: Feed, listings: seq<string>, now: DateTime,
                  staging: map<string, seq<string>>, sizes: map<string, nat>, buildTime: DateTime)
    returns (r: Outcome)
    requires Valid(now) && Valid(buildTime) && AllDatesValid(feed.programmes)
    modifies feed
    ensures r == LoadedFeed(ch, old(feed.programmes), listings, now, staging, sizes, buildTime)
    ensures feed.programmes == if r.Saved? then r.history else SearchAll(old(feed.programmes), listings, now).catalog
  {
    var failure := feed.Search(listings, now);
    if failure.Some? {
      return Aborted(failure.value);
    }
    SearchAllKeepsDates(old(feed.programmes), listings, now);
    ghost var searched := feed.programmes;
    feed.DownloadPending(staging);
    DownloadedAllKeepsDates(searched, staging);
    var document := WriteFeedRss(ch, feed, sizes, buildTime);
    return Saved(feed.programmes, document);
  }

  /** A run that saves its history keeps every programme of the old
      history, in place and with its identity, adds only programmes with
      new pids, and leaves every programme downloaded and consistent. */
  lemma RunKeepsHistory(ch: Channel, history: seq<Programme>, listings: seq<string>, now: DateTime,
                        staging: map<string, seq<string>>, sizes: map<string, nat>, buildTime: DateTime)
    requires Valid(now) && Valid(buildTime) && AllDatesValid(history)
    requires UniquePids(history) && AllConsistent(history)
    ensures var r := LoadedFeed(ch, history, listings, now, staging, sizes, buildTime);
            r.Saved? ==>
              |history| <= |r.history| && UniquePids(r.history) && AllConsistent(r.history)
              && (forall k :: 0 <= k < |history| ==> SameIdentity(history[k], r.history[k]))
              && (forall k :: 0 <= k < |r.history| ==> r.history[k].downloaded)
  {
    var searched := SearchAll(history, listings, now).catalog;
    SearchAllKeepsInvariants(history, listings, now);
    DownloadedAllFacts(searched, staging);
    DownloadedAllKeepsInvariants(searched, staging);
    assert forall k :: 0 <= k < |history| ==> searched[k] == history[k];
  }

  /** A run that saves its history writes the feed exactly when every
      programme of the saved history has a file name. */
  lemma RunWritesFeedIff(ch: Channel, history: seq<Programme>, listings: seq<string>, now: DateTime,
                         staging: map<string, seq<string>>, sizes: map<string, nat>, buildTime: DateTime)
    requires Valid(now) && Valid(buildTime) && AllDatesValid(history)
    ensures var r := LoadedFeed(ch, history, listings, now, staging, sizes, buildTime);
            r.Saved? ==> (r.feed.Ok? <==> forall k :: 0 <= k < |r.history| ==> r.history[k].filename.Some?)
  {
    var r := LoadedFeed(ch, history, listings, now, staging, sizes, buildTime);
    if r.Saved? {
      SearchAllKeepsDates(history, listings, now);
      DownloadedAllKeepsDates(SearchAll(history, listings, now).catalog, staging);
      RenderItemsOkIff(ch, r.history, sizes);
    }
  }

  /** When the history, the configuration and the staged file names hold
      no line break, a run that writes its feed writes exactly one item per
      programme of the saved history, each at its place in catalog order. */
  lemma RunRendersEveryProgramme(ch: Channel, history: seq<Programme>, listings: seq<string>, now: DateTime,
                                 staging: map<string, seq<string>>, sizes: map<string, nat>, buildTime: DateTime)
    requires Valid(now) && Valid(buildTime) && AllWellFormed(history) && StagingOneLine(staging)
    requires '\n' !in ch.name && '\n' !in ch.outputDir && '\n' !in ch.serverUrl
    ensures var r := LoadedFeed(ch, history, listings, now, staging, sizes, buildTime);
            r.Saved? && r.feed.Ok? ==>
              var lines := Split(r.feed.value, '\n');
              |lines| == 9 + 7 * |r.history| && ItemCount(lines) == |r.history|
              && forall k :: 0 <= k < |r.history| ==>
                   r.history[k].filename.Some? && lines[7 + 7 * k..14 + 7 * k] == ItemLines(ch, r.history[k], sizes)
  {
    AllWellFormedRenders(ch, history);
    var r := LoadedFeed(ch, history, listings, now, staging, sizes, buildTime);
    if r.Saved? && r.feed.Ok? {
      var searched := SearchAll(history, listings, now).catalog;
      SearchAllWellFormed(history, listings, now);
      DownloadedAllWellFormed(searched, staging);
      AllWellFormedRenders(ch, r.history);
      RenderFeedLines(ch, r.history, sizes, buildTime, r.feed.value);
    }
  }
}
