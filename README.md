# iplayercast, modelled in Dafny

`iplayercast.py` builds podcast feeds from BBC iPlayer searches. For each
configured feed, one run does three things:

1. It runs the `get-iplayer` tool for every search term and parses the
   listing the tool prints. Every line of the form
   `programmeoutput|pid|name|episode|desc` becomes a new programme.
2. It merges those programmes into the feed's history. A programme is
   appended only when its pid is not in the list yet.
3. It downloads every programme not yet downloaded. Then it writes
   `feed.xml`, an RSS 2.0 channel with one item per programme.

This project models the in-memory logic of that run and proves properties
of it. The modules are:

- `Wrappers`: `Option` and `Result`.
- `Text`: Python's `str.split` and `str(n)` for non-negative integers. The
  program never joins; `Join` is only the partner of `Split` in the
  round-trip lemmas, and the text of a document built line by line.
- `Dates`: `format_date`. The date is a record whose weekday and month are
  given as fields. The pattern `%a, %d %b %Y %H:%M:%S +0000` is the date
  form of RSS 2.0: section 5 of RFC 822, with the four-digit year of
  section 5.2.14 of RFC 1123. The module also has a reference parser, and
  the format is proved to round-trip through it.
- `Programmes`: the `Programme` record, and the state update that
  `download_programme` makes once the staging directory has been walked.
- `Listing`: `get_programmes`. It is a loop (`GetProgrammes`), proved equal
  to a recursive specification (`ParseListing`) whose properties are proved
  as lemmas.
- `Catalog`: the `Feed` class, whose `programmes` list is updated in place.
  It has three methods:
  - `Merge`: the merge loop of `load_feed`.
  - `DownloadPending`: the download loop.
  - `Search`: the search loop.

  Each method is proved against a specification function. Those functions
  (`Merged`, `DownloadedAll`, `SearchAll`) carry the lemmas: append-only,
  unique pids, idempotence, and what the download loop changes.
- `Rss`: `get_extension` and `write_feed_rss`.
  - `WriteFeedRss` emits the document line by line, as the source does. It
    is proved equal to `RenderFeed`.
  - The lemmas about `RenderFeed` cover the document's frame, its lines, and
    its items in catalog order with their content. They also cover the
    error raised for a programme without a file.
- `FeedRun`: `load_feed` from the history to the written feed. The method
  `LoadFeed` is proved equal to the function `LoadedFeed`, whose lemmas
  cover the abort on a listing error, the history the run saves, and the
  feed it writes.

Inputs that the program reads from the outside world are parameters here:

- the text the listing tool printed for each search;
- the names of the files the staging-directory walk found, per pid;
- the sizes of the files in the feed directory;
- the clock readings;
- the configured feed name, output directory and server URL.

Behaviour of the code that the model keeps as written:

- A marker line with fewer than five `|`-separated fields is not skipped.
  Indexing it raises `IndexError`, and the run stops: nothing is
  downloaded, the history is not saved and no feed is written. The parser
  gives `Err(MissingField(line))`, and the run gives `Aborted` with that
  error.
- A programme whose staging directory is empty is still marked downloaded,
  and its file name stays `None`. Writing the feed then raises `TypeError`
  at the size lookup (line 264), which catches only `OSError`. The model
  gives `Err(MissingFile(pid))`. No later run retries the download, so the
  feed stays unwritable (`EmptyStagingBlocksFeed`).
- The enclosure type is `get_extension` of the file URL, not of the file
  name.
- Only "a file name implies downloaded" holds in every reachable state
  (`Consistent`). A downloaded programme may have no file.

## Model

| member | source | states |
|---|---|---|
| Text.Split | iplayercast.py:184-187 | Python's `split` on one separator character always gives at least one piece |
| Text.JoinSplit | iplayercast.py:184 | Splitting a text on a separator loses nothing: joining the pieces with the separator gives the text back |
| Text.SplitJoin | iplayercast.py:184 | Splitting a join of separator-free pieces gives back exactly those pieces, so a document's lines can be recovered from its text |
| Text.SplitPiecesAreFree | iplayercast.py:187 | No piece of a split contains the separator |
| Text.DecimalRoundTrip | iplayercast.py:264 | `str(size)` is the decimal text of the size: reading its digits back gives the size |
| Dates.FormatDate | iplayercast.py:288-289 | The formatted date starts with the weekday abbreviation and ends with ` +0000`; it is 31 characters long for every year from 1000 on |
| Dates.FormatDateRoundTrip | iplayercast.py:288-289 | For every valid timestamp from the year 1000 on, parsing the formatted date gives the timestamp back: the format loses nothing above the second |
| Dates.FormatDateInjective | iplayercast.py:288-289 | Two different timestamps from the year 1000 on never format to the same date |
| Dates.FormatDateIsOneLine | iplayercast.py:288-289 | A formatted date contains no line break |
| Programmes.Downloaded | iplayercast.py:220-229 | A downloaded programme is marked downloaded and keeps its identity. Its file name is the last staged name, or the old one unchanged when nothing was staged |
| Programmes.DownloadProgramme | iplayercast.py:218-229 | The walk loop leaves the programme downloaded with pid, name, episode, description and load date unchanged. Its file name is the last staged name, or the old one when nothing was staged |
| Listing.GetProgrammes | iplayercast.py:183-197 | The parsing loop returns exactly what the recursive listing specification `ParseListing` gives: the programmes, or the first short marker line |
| Listing.ParseLinesOkIff | iplayercast.py:186-193 | Parsing succeeds if and only if every line whose first field is `programmeoutput` has at least five fields |
| Listing.ParseLinesErr | iplayercast.py:187-193 | A failed parse names a line of the listing that is a marker line with fewer than five fields |
| Listing.ParseLinesSelects | iplayercast.py:186-194 | A successful parse yields one programme per marker line, in line order, built from fields 1 to 4 of that line; other lines yield nothing |
| Listing.ParseLinesAppend | iplayercast.py:186-194 | Parsing two blocks of lines in one go is parsing the first block and then the second: line order is kept and the first short marker line wins |
| Listing.ParsedAreNew | iplayercast.py:189-194 | Every parsed programme is new: not downloaded, no file name, and stamped with the parse's clock reading |
| Listing.ParsedFieldsAreClean | iplayercast.py:184-193 | No field of a parsed programme contains a line break or a `\|` |
| Catalog.MergedAppendsFirstOccurrences | iplayercast.py:127-134 | Merging appends to the catalog exactly those candidates, in order, whose pid is neither in the catalog nor carried by an earlier candidate |
| Catalog.FirstOccurrencesAreFresh | iplayercast.py:128-134 | What a merge appends comes from the candidates, is no longer than the candidate list, and carries no pid the catalog had |
| Catalog.FirstOccurrencesUnique | iplayercast.py:128-134 | What a merge appends carries no pid twice, even when the candidates repeat a pid |
| Catalog.MergedIsAppendOnly | iplayercast.py:127-134 | Merging is append-only: the catalog is a prefix of the result, which grows by at most the number of candidates |
| Catalog.MergedKeepsPidsUnique | iplayercast.py:128-134 | If pids are unique before a merge, they are unique after it |
| Catalog.MergedPids | iplayercast.py:127-134 | After a merge, the pids present are those of the catalog plus every candidate's |
| Catalog.MergedKnownIsNoop | iplayercast.py:128-134 | A merge of candidates whose pids are all present leaves the catalog unchanged |
| Catalog.MergedIdempotent | iplayercast.py:127-134 | Merging the same candidates a second time leaves the catalog unchanged |
| Catalog.DownloadStep | iplayercast.py:138-140 | One pass of the download loop leaves the programme downloaded with its identity, and leaves a programme already downloaded untouched. A pending programme gets the last staged name, or keeps its old file name when nothing was staged |
| Catalog.DownloadedAllAt | iplayercast.py:138-140 | The download loop treats each programme independently: the k-th result is the k-th programme after its own download step |
| Catalog.DownloadedAllFacts | iplayercast.py:138-140 | After the download loop: every programme is downloaded; those already downloaded are untouched; the others keep their identity and record their last staged file, or keep their old file when nothing was staged |
| Catalog.DownloadedAllKeepsInvariants | iplayercast.py:138-140 | The download loop keeps the set of pids, keeps them unique, and leaves every programme consistent (a file name only on a downloaded programme) |
| Catalog.SearchAllKeepsInvariants | iplayercast.py:123-134 | The search loop is append-only and keeps pids unique and programmes consistent |
| Catalog.Feed.constructor | iplayercast.py:42-44 | A new feed has no programmes |
| Catalog.Feed.Merge | iplayercast.py:127-134 | The in-place merge loop with its `present` flag leaves the list equal to `Merged` of the old list and the candidates |
| Catalog.Feed.DownloadPending | iplayercast.py:138-140 | The in-place download loop leaves the list equal to `DownloadedAll` of the old list |
| Catalog.Feed.Search | iplayercast.py:123-134 | The search loop leaves the list and the failure equal to `SearchAll` of the old list and the listings |
| Rss.GetExtension | iplayercast.py:292-294 | The extension is a dot-free suffix of the text, preceded by a `.` unless it is the whole text: it is what follows the last `.`, or the whole text when there is none |
| Rss.FileSize | iplayercast.py:262-266 | The enclosure length is decimal digits without a leading zero (so exactly `str` of the value): the size of the file when the feed directory has it, and 1024 when the size lookup fails |
| Rss.FileUrl | iplayercast.py:268 | The enclosure URL starts with the server URL and a `/`, has the feed directory between the two, ends with a `/` and the file name, and is exactly as long as the server URL, the feed directory, the file name and two slashes |
| Rss.ItemLinesOpenOnce | iplayercast.py:270-277 | A programme's seven item lines open exactly one item |
| Rss.ItemLinesAreOneLine | iplayercast.py:270-277 | When the configuration, the programme's fields and its file name hold no line break, none of its seven item lines does |
| Rss.HeaderLinesAreOneLine | iplayercast.py:246-256 | When the feed name holds no line break, none of the seven header lines does |
| Rss.HeaderOpensNoItem | iplayercast.py:246-256 | The header lines open no item |
| Rss.WriteFeedRss | iplayercast.py:245-281 | The line-by-line writer produces exactly `RenderFeed`: the header, the items, then the footer, or the error of the first programme without a file |
| Rss.RenderItemsOkIff | iplayercast.py:260-268 | The item loop succeeds if and only if every programme has a file name |
| Rss.RenderItemsFirstMissing | iplayercast.py:260-268 | A failing item loop fails on the first programme without a file name, and reports its pid |
| Rss.RenderItemsLayout | iplayercast.py:260-277 | A successful item loop writes seven lines per programme, the k-th programme's item at lines 7k to 7k+6, in catalog order |
| Rss.RenderFeedFrame | iplayercast.py:246-281 | Every document starts with the XML declaration and the `rss` and `channel` opening lines, and ends with `</channel>\n</rss>` |
| Rss.RenderFeedSplit | iplayercast.py:246-281 | When no input text holds a line break, splitting the document on line breaks gives the header lines, the item lines and the two closing lines |
| Rss.RenderFeedLines | iplayercast.py:246-281 | When no input text holds a line break, the document's lines are: the seven header lines, seven item lines per programme in catalog order, and the two closing lines. Exactly one `<item>` line per programme |
| Rss.RenderedItem | iplayercast.py:262-277 | When no input text holds a line break, the k-th item's lines hold: title `episode - name`; the description; the pid as guid; the formatted load date; an enclosure URL of `server_url/output_dir/filename`, length the file size or `1024` when the size is unknown, and type the URL's extension |
| Rss.RenderEmptyCatalog | iplayercast.py:246-281 | When the feed name holds no line break, an empty catalog renders to the header and the footer lines alone, with no item |
| Rss.DownloadedAllKeepsDates | iplayercast.py:138-140 | The download loop keeps every load date |
| Rss.EmptyStagingBlocksFeed | iplayercast.py:218-229 | A pending programme whose staging directory is empty comes out downloaded without a file, and the feed then fails to render |
| Rss.StagedFilesLetFeedRender | iplayercast.py:218-229 | When every downloaded programme has a file and every pending one finds a staged file, the feed renders after the download loop |
| Rss.ParsedAreWellFormed | iplayercast.py:183-194 | Programmes parsed under a valid clock reading have valid dates and no line break in any field |
| Rss.MergedWellFormed | iplayercast.py:127-134 | Merging well-formed candidates into a well-formed catalog gives a well-formed catalog |
| Rss.SearchAllWellFormed | iplayercast.py:123-134 | The search loop keeps a catalog well formed |
| Rss.DownloadedAllWellFormed | iplayercast.py:138-140 | The download loop keeps a catalog well formed when no staged file name holds a line break |
| FeedRun.SearchAllKeepsDates | iplayercast.py:123-134 | Under a valid clock reading the search loop keeps every load date valid |
| FeedRun.LoadedFeed | iplayercast.py:108-146 | A run aborts exactly when the search loop stops on a listing error, and with that error. Otherwise it saves a history whose load dates are all valid |
| FeedRun.LoadFeed | iplayercast.py:108-146 | The run on a feed object gives exactly `LoadedFeed` of the old list. The list it leaves is the saved history, or the partly merged list when the run aborts |
| FeedRun.RunKeepsHistory | iplayercast.py:108-146 | A run that saves its history keeps every old programme in place with its identity, keeps pids unique and programmes consistent, and leaves every programme downloaded |
| FeedRun.RunWritesFeedIff | iplayercast.py:136-146 | A run that saves its history writes the feed if and only if every programme of the saved history has a file name |
| FeedRun.RunRendersEveryProgramme | iplayercast.py:108-146 | A run that starts from a well-formed history, with line-break-free configuration and staged names, and that writes its feed, writes exactly one item per programme of the saved history, each at its place in catalog order |

## Left out

- The `get-iplayer` calls (lines 95, 180, 216) are left out. The text each search printed and the file names each download staged are inputs.
- The configuration is left out: argument parsing, the configuration files and the global settings (lines 60-121). The feed name, output directory and server URL are the fields of `Channel`.
- The split of the `searches` setting into search terms (line 121) is left out. `SearchAll` takes one listing text per search.
- The filesystem is left out:
  - the order of the walk (line 220) and its recursion into subdirectories, which are OS-defined; the staged names are a given sequence per pid;
  - the moves (line 223);
  - the `os.rmdir` failure when the staging directory is missing (line 226);
  - `make_sure_path_exists`;
  - opening, writing and closing `feed.xml`.

  File sizes are a map from file name to size. A missing name stands for the `OSError` branch.
- When rendering fails with `TypeError`, the partial file already written is not modelled. The result is the error alone.
- Pickle history load and save (lines 149-170) are left out. The history loaded is the initial value of the list, and the history saved is the `history` field of `Saved`.
- `datetime.now()` (lines 39 and 243) is a parameter. One clock reading serves the whole search loop (`SearchAll` and `Feed.Search`), where the source reads the clock once per programme.
- Sub-second precision and the calendar arithmetic behind `%a` are left out. The weekday is a field of the date, and no check ties it to the day, month and year.
- The diagnostic `print` calls are left out.
- XML escaping is left out. Names, descriptions and file names are concatenated raw, so no claim is made that the document is well-formed XML.
- Dates.FormatDateRoundTrip: proved only for years from 1000 on. `%Y` writes earlier years with fewer digits, and the parser reads four.
- Rss.RenderFeedLines: holds only when the feed name, output directory, server URL, programme fields and file names contain no line break. Otherwise a field adds lines to the document.
- Rss.RenderFeedSplit: holds only under the same line-break condition as `Rss.RenderFeedLines`.
- Rss.RenderedItem: holds only under the same line-break condition as `Rss.RenderFeedLines`.
- Rss.RenderEmptyCatalog: holds only when the feed name contains no line break.
- FeedRun.RunRendersEveryProgramme: holds only when the history, the configuration and the staged file names contain no line break.
