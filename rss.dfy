/**
 * `write_feed_rss` and `get_extension`: the feed document, an RSS 2.0
 * channel with one item per programme of the catalog. The document is the
 * text the function writes to `feed.xml`; strings are concatenated as they
 * are, without XML escaping.
 */
module Rss {
  import opened Wrappers
  import opened Text
  import opened Programmes
  import opened Dates
  import opened Catalog

  /** What the renderer reads from the configuration: the feed's name, its
      output directory relative to the root, and the base URL of the server. */
  datatype Channel = Channel(name: string, outputDir: string, serverUrl: string)

  /** A programme without a file name: Python raises `TypeError` when it
      concatenates `None` to the feed path, and the run stops. */
  datatype RenderError = MissingFile(pid: string)

  /** The last piece of a split is a suffix of the string, preceded by the
      separator unless it is the whole string. */
  lemma LastPiece(s: string, sep: char)
    ensures var parts := Split(s, sep);
            var last := parts[|parts| - 1];
            |last| <= |s| && s[|s| - |last|..] == last
            && (|last| == |s| || s[|s| - |last| - 1] == sep)
  {
    var parts := Split(s, sep);
    var last := parts[|parts| - 1];
    JoinSplit(s, sep);
    if |parts| > 1 {
      var init := parts[..|parts| - 1];
      assert init + [last] == parts;
      JoinSnoc(init, last, sep);
      assert s == Join(init, sep) + [sep] + last;
    }
  }

  /** `get_extension(s)`: the text after the last `.` of `s`, or all of `s`
      when it has none. */
  function GetExtension(s: string): (ext: string)
    ensures '.' !in ext
    ensures |ext| <= |s| && s[|s| - |ext|..] == ext
    ensures |ext| == |s| || s[|s| - |ext| - 1] == '.'
  {
    var parts := Split(s, '.');
    SplitPiecesAreFree(s, '.');
    LastPiece(s, '.');
    parts[|parts| - 1]
  }

  /** The channel's fixed description. */
  const Description: string := "iplayercast custom feed"

  /** The first three lines of every document. */
  const Prolog: seq<string> := ["<?xml version=\"1.0\" encoding=\"UTF-8\" ?>", "<rss version=\"2.0\">", "<channel>"]

  /** The last two lines of every document. */
  const Epilog: seq<string> := ["</channel>", "</rss>"]

  /** The header lines, with the build time `now` as both channel dates. */
  function HeaderLines(ch: Channel, now: DateTime): seq<string>
    requires Valid(now)
  {
    Prolog + ["<title>" + ch.name + "</title>",
              "<description>" + Description + "</description>",
              "<lastBuildDate>" + FormatDate(now) + "</lastBuildDate>",
              "<pubDate>" + FormatDate(now) + "</pubDate>"]
  }

  /** The enclosure URL of a file: server URL, feed directory, file name. */
  function FileUrl(ch: Channel, filename: string): (url: string)
    ensures |url| == |ch.serverUrl| + |ch.outputDir| + |filename| + 2
    ensures url[..|ch.serverUrl|] == ch.serverUrl && url[|ch.serverUrl|] == '/'
    ensures url[|url| - |filename|..] == filename && url[|url| - |filename| - 1] == '/'
    ensures url[|ch.serverUrl| + 1..|url| - |filename| - 1] == ch.outputDir
  {
    ch.serverUrl + "/" + ch.outputDir + "/" + filename
  }

  /** The enclosure length: the size of the file in the feed directory, or
      `1024` when the size lookup fails. `sizes` maps the names of the files
      present in the feed directory to their sizes in bytes. */
  function FileSize(sizes: map<string, nat>, filename: string): (size: string)
    ensures IsDigits(size) && |size| >= 1 && (size[0] == '0' ==> size == "0")
    ensures filename in sizes ==> DecimalValue(size) == sizes[filename]
    ensures filename !in sizes ==> DecimalValue(size) == 1024
  {
    if filename in sizes then DecimalRoundTrip(sizes[filename]); Decimal(sizes[filename])
    else assert "1024"[..3] == "102" && "102"[..2] == "10" && "10"[..1] == "1"; "1024"
  }

  /** The seven lines of a programme's item. */
  function ItemLines(ch: Channel, p: Programme, sizes: map<string, nat>): seq<string>
    requires p.filename.Some? && Valid(p.dateLoaded)
  {
    var url := FileUrl(ch, p.filename.value);
    ["<item>",
     "<title>" + p.episode + " - " + p.name + "</title>",
     "<description>" + p.desc + "</description>",
     "<guid>" + p.pid + "</guid>",
     "<pubDate>" + FormatDate(p.dateLoaded) + "</pubDate>",
     "<enclosure url=\"" + url + "\" length=\"" + FileSize(sizes, p.filename.value)
       + "\" type=\"" + GetExtension(url) + "\" />",
     "</item>"]
  }

  /** Every timestamp of the catalog is a real one. */
  predicate AllDatesValid(ps: seq<Programme>)
  {
    forall k :: 0 <= k < |ps| ==> Valid(ps[k].dateLoaded)
  }

  /** The item loop: the items of the programmes in catalog order, or the
      error of the first programme that has no file name. */
  function RenderItems(ch: Channel, ps: seq<Programme>, sizes: map<string, nat>): Result<seq<string>, RenderError>
    requires AllDatesValid(ps)
  {
    if ps == [] then Ok([])
    else if ps[0].filename.None? then Err(MissingFile(ps[0].pid))
    else match RenderItems(ch, ps[1..], sizes)
      case Ok(lines) => Ok(ItemLines(ch, ps[0], sizes) + lines)
      case Err(e) => Err(e)
  }

  /** The lines of the document. */
  function DocumentLines(ch: Channel, items: seq<string>, now: DateTime): seq<string>
    requires Valid(now)
  {
    HeaderLines(ch, now) + items + Epilog
  }

  /** The document `write_feed_rss` writes: every line ends with a line
      break except the closing `</rss>`. */
  function RenderFeed(ch: Channel, ps: seq<Programme>, sizes: map<string, nat>, now: DateTime): Result<string, RenderError>
    requires Valid(now) && AllDatesValid(ps)
  {
    match RenderItems(ch, ps, sizes)
    case Ok(items) => Ok(Join(DocumentLines(ch, items, now), '\n'))
    case Err(e) => Err(e)
  }

  /** The item lines already written, in front of what the remaining
      programmes give. */
  function PrependLines(done: seq<string>, rest: Result<seq<string>, RenderError>): Result<seq<string>, RenderError>
  {
    match rest
    case Ok(lines) => Ok(done + lines)
    case Err(e) => Err(e)
  }

  lemma PrependLinesNothing(r: Result<seq<string>, RenderError>)
    ensures PrependLines([], r) == r
  {
    if r.Ok? { assert [] + r.value == r.value; }
  }

  lemma PrependLinesShift(done: seq<string>, block: seq<string>, rest: Result<seq<string>, RenderError>)
    ensures PrependLines(done, PrependLines(block, rest)) == PrependLines(done + block, rest)
  {
    if rest.Ok? { assert done + (block + rest.value) == (done + block) + rest.value; }
  }

  /** One `write(line + "\n")` to the document. */
  method Emit(text: string, ghost lines: seq<string>, line: string)
    returns (text': string, ghost lines': seq<string>)
    requires text == Terminated(lines)
    ensures lines' == lines + [line] && text' == Terminated(lines')
  {
    text', lines' := text + line + "\n", lines + [line];
    assert lines'[..|lines'| - 1] == lines;
  }

  /** A run of `write(line + "\n")` calls, one per line of the block. */
  method EmitLines(text: string, ghost lines: seq<string>, block: seq<string>)
    returns (text': string, ghost lines': seq<string>)
    requires text == Terminated(lines)
    ensures text' == Terminated(lines') && lines' == lines + block
  {
    text', lines' := text, lines;
    for j := 0 to |block|
      invariant text' == Terminated(lines') && lines' == lines + block[..j]
    {
      assert block[..j + 1] == block[..j] + [block[j]];
      text', lines' := Emit(text', lines', block[j]);
    }
    assert block[..|block|] == block;
  }

  lemma AppendAssociates(a: seq<string>, b: seq<string>, c: seq<string>)
    ensures a + b + c == a + (b + c)
  {
  }

  /** One pass of the item loop, as the item loop function sees it. */
  lemma RenderItemsStep(ch: Channel, ps: seq<Programme>, sizes: map<string, nat>, i: nat)
    requires AllDatesValid(ps) && i < |ps|
    ensures ps[i].filename.None? ==> RenderItems(ch, ps[i..], sizes) == Err(MissingFile(ps[i].pid))
    ensures ps[i].filename.Some? ==>
              RenderItems(ch, ps[i..], sizes)
              == PrependLines(ItemLines(ch, ps[i], sizes), RenderItems(ch, ps[i + 1..], sizes))
  {
    assert ps[i..][0] == ps[i] && ps[i..][1..] == ps[i + 1..];
  }

  /** The footer: the closing channel line, then `</rss>` without a line break. */
  lemma FooterCloses(ch: Channel, items: seq<string>, now: DateTime)
    requires Valid(now)
    ensures Terminated(HeaderLines(ch, now) + items + ["</channel>"]) + "</rss>"
            == Join(DocumentLines(ch, items, now), '\n')
  {
    TerminatedJoin(HeaderLines(ch, now) + items + ["</channel>"], "</rss>");
    assert HeaderLines(ch, now) + items + ["</channel>"] + ["</rss>"] == DocumentLines(ch, items, now);
  }

  /** `write_feed_rss`: the header, then per programme its item (after its
      file size is looked up and its URL built), then the footer, written
      line by line into the document; `now` is the build time and `sizes`
      the feed directory's file sizes. */
  method WriteFeedRss(ch: Channel, feed: Feed, sizes: map<string, nat>, now: DateTime)
    returns (r: Result<string, RenderError>)
    requires Valid(now) && AllDatesValid(feed.programmes)
    ensures r == RenderFeed(ch, feed.programmes, sizes, now)
  {
    var ps := feed.programmes;
    var text;
    ghost var lines;
    var header := HeaderLines(ch, now);
    text, lines := EmitLines("", [], header);
    ghost var items: seq<string> := [];
    assert ps[0..] == ps;
    PrependLinesNothing(RenderItems(ch, ps, sizes));
    for i := 0 to |ps|
      invariant text == Terminated(lines) && lines == header + items
      invariant PrependLines(items, RenderItems(ch, ps[i..], sizes)) == RenderItems(ch, ps, sizes)
    {
      RenderItemsStep(ch, ps, sizes, i);
      var programme := ps[i];
      if programme.filename.None? {
        return Err(MissingFile(programme.pid));
      }
      var item := ItemLines(ch, programme, sizes);
      text, lines := EmitLines(text, lines, item);
      PrependLinesShift(items, item, RenderItems(ch, ps[i + 1..], sizes));
      AppendAssociates(header, items, item);
      items := items + item;
    }
    text, lines := Emit(text, lines, "</channel>");
    text := text + "</rss>";
    assert ps[|ps|..] == [] && items + [] == items;
    FooterCloses(ch, items, now);
    return Ok(text);
  }

  /** The item loop succeeds exactly when every programme has a file name. */
  lemma {:induction false} RenderItemsOkIff(ch: Channel, ps: seq<Programme>, sizes: map<string, nat>)
    requires AllDatesValid(ps)
    ensures RenderItems(ch, ps, sizes).Ok? <==> forall k :: 0 <= k < |ps| ==> ps[k].filename.Some?
  {
    if ps != [] {
      RenderItemsOkIff(ch, ps[1..], sizes);
      assert forall k :: 1 <= k < |ps| ==> ps[k] == ps[1..][k - 1];
    }
  }

  /** A failing item loop fails on the first programme that has no file
      name. */
  lemma {:induction false} RenderItemsFirstMissing(ch: Channel, ps: seq<Programme>, sizes: map<string, nat>)
    requires AllDatesValid(ps) && RenderItems(ch, ps, sizes).Err?
    ensures exists k :: 0 <= k < |ps| && ps[k].filename.None?
                        && RenderItems(ch, ps, sizes).error == MissingFile(ps[k].pid)
                        && forall j :: 0 <= j < k ==> ps[j].filename.Some?
  {
    if ps[0].filename.Some? {
      RenderItemsFirstMissing(ch, ps[1..], sizes);
      var k :| 0 <= k < |ps[1..]| && ps[1..][k].filename.None?
               && RenderItems(ch, ps[1..], sizes).error == MissingFile(ps[1..][k].pid)
               && forall j :: 0 <= j < k ==> ps[1..][j].filename.Some?;
      assert ps[k + 1] == ps[1..][k];
      assert forall j :: 1 <= j < k + 1 ==> ps[j] == ps[1..][j - 1];
    } else {
      assert ps[0].filename.None? && RenderItems(ch, ps, sizes).error == MissingFile(ps[0].pid);
    }
  }

  /** The lines of a sequence of blocks, one block after the other. */
  function Flatten(blocks: seq<seq<string>>): seq<string>
  {
    if blocks == [] then [] else blocks[0] + Flatten(blocks[1..])
  }

  /** Blocks of seven lines each: the k-th block is at lines 7k to 7k+6. */
  lemma {:induction false} FlattenSevens(blocks: seq<seq<string>>)
    requires forall k :: 0 <= k < |blocks| ==> |blocks[k]| == 7
    ensures |Flatten(blocks)| == 7 * |blocks|
    ensures forall k :: 0 <= k < |blocks| ==> Flatten(blocks)[7 * k..7 * k + 7] == blocks[k]
  {
    if blocks != [] {
      var rest := Flatten(blocks[1..]);
      FlattenSevens(blocks[1..]);
      forall k | 0 <= k < |blocks| ensures Flatten(blocks)[7 * k..7 * k + 7] == blocks[k] {
        if k > 0 {
          var m := k - 1;
          assert blocks[k] == blocks[1..][m];
          assert rest[7 * m..7 * m + 7] == blocks[1..][m];
          assert Flatten(blocks)[7 * k..7 * k + 7] == rest[7 * m..7 * m + 7];
        }
      }
    }
  }

  /** The item of every programme of a catalog in which all have a file. */
  function ItemBlocks(ch: Channel, ps: seq<Programme>, sizes: map<string, nat>): (blocks: seq<seq<string>>)
    requires AllDatesValid(ps) && forall k :: 0 <= k < |ps| ==> ps[k].filename.Some?
    ensures |blocks| == |ps|
  {
    if ps == [] then []
    else
      assert forall k :: 0 <= k < |ps[1..]| ==> ps[1..][k] == ps[k + 1];
      [ItemLines(ch, ps[0], sizes)] + ItemBlocks(ch, ps[1..], sizes)
  }

  /** Past the head, the k-th element of a sequence with a head in front is
      the (k-1)-th of the rest. */
  lemma AfterHead<T>(head: T, rest: seq<T>, k: nat)
    requires 1 <= k <= |rest|
    ensures ([head] + rest)[k] == rest[k - 1]
  {
  }

  /** The k-th block is the item of the k-th programme. */
  lemma {:induction false} ItemBlocksAt(ch: Channel, ps: seq<Programme>, sizes: map<string, nat>)
    requires AllDatesValid(ps) && forall k :: 0 <= k < |ps| ==> ps[k].filename.Some?
    ensures forall k :: 0 <= k < |ps| ==> ItemBlocks(ch, ps, sizes)[k] == ItemLines(ch, ps[k], sizes)
  {
    if ps != [] {
      var tail := ps[1..];
      assert forall k :: 0 <= k < |tail| ==> tail[k] == ps[k + 1];
      ItemBlocksAt(ch, tail, sizes);
      var head, rest := ItemLines(ch, ps[0], sizes), ItemBlocks(ch, tail, sizes);
      assert ItemBlocks(ch, ps, sizes) == [head] + rest;
      forall k | 1 <= k < |ps| ensures ItemBlocks(ch, ps, sizes)[k] == ItemLines(ch, ps[k], sizes) {
        AfterHead(head, rest, k);
        assert tail[k - 1] == ps[k];
      }
    }
  }

  /** A successful item loop writes the items of the programmes one after
      the other, in catalog order. */
  lemma {:induction false} RenderItemsFlatten(ch: Channel, ps: seq<Programme>, sizes: map<string, nat>, items: seq<string>)
    requires AllDatesValid(ps) && RenderItems(ch, ps, sizes) == Ok(items)
    ensures forall k :: 0 <= k < |ps| ==> ps[k].filename.Some?
    ensures items == Flatten(ItemBlocks(ch, ps, sizes))
  {
    RenderItemsOkIff(ch, ps, sizes);
    if ps != [] {
      var rest := RenderItems(ch, ps[1..], sizes).value;
      RenderItemsFlatten(ch, ps[1..], sizes, rest);
    }
  }

  /** A successful item loop writes seven lines per programme, the item of
      the k-th programme at lines 7k to 7k+6, in catalog order. */
  lemma RenderItemsLayout(ch: Channel, ps: seq<Programme>, sizes: map<string, nat>, items: seq<string>)
    requires AllDatesValid(ps) && RenderItems(ch, ps, sizes) == Ok(items)
    ensures |items| == 7 * |ps|
    ensures forall k :: 0 <= k < |ps| ==>
              ps[k].filename.Some? && items[7 * k..7 * k + 7] == ItemLines(ch, ps[k], sizes)
  {
    RenderItemsFlatten(ch, ps, sizes, items);
    var blocks := ItemBlocks(ch, ps, sizes);
    ItemBlocksAt(ch, ps, sizes);
    FlattenSevens(blocks);
    forall k | 0 <= k < |ps|
      ensures items[7 * k..7 * k + 7] == ItemLines(ch, ps[k], sizes)
    {
      assert items[7 * k..7 * k + 7] == blocks[k];
    }
  }

  /** The text of the first three lines. */
  const PrologText: string := Prolog[0] + "\n" + Prolog[1] + "\n" + Prolog[2] + "\n"

  lemma PrologIsText()
    ensures Terminated(Prolog) == PrologText
  {
    var a, b, c := Prolog[0], Prolog[1], Prolog[2];
    assert Prolog[..1][..0] == [] && "" + a == a;
    assert Terminated(Prolog[..1]) == a + "\n";
    assert Prolog[..2][..1] == Prolog[..1];
    assert Terminated(Prolog[..2]) == a + "\n" + b + "\n";
    assert Prolog[..2] == Prolog[..|Prolog| - 1];
  }

  /** A document is its header text, its item text and the closing tags. */
  lemma RenderFeedText(ch: Channel, items: seq<string>, now: DateTime)
    requires Valid(now)
    ensures Join(DocumentLines(ch, items, now), '\n')
            == Terminated(HeaderLines(ch, now)) + Terminated(items) + "</channel>\n</rss>"
  {
    var header := HeaderLines(ch, now);
    FooterCloses(ch, items, now);
    TerminatedAppend(header + items, ["</channel>"]);
    TerminatedAppend(header, items);
    assert ["</channel>"][..0] == [];
  }

  /** The header lines begin with the prolog. */
  lemma HeaderStartsWithProlog(ch: Channel, now: DateTime)
    requires Valid(now)
    ensures |HeaderLines(ch, now)| == 7 && Prolog + HeaderLines(ch, now)[3..] == HeaderLines(ch, now)
  {
  }

  /** A text made of a front, a middle and a back starts with the front and
      ends with the back. */
  lemma FrontAndBack(front: string, middle: string, back: string)
    ensures |front + middle + back| >= |front| + |back|
    ensures (front + middle + back)[..|front|] == front
    ensures (front + middle + back)[|front + middle + back| - |back|..] == back
  {
  }

  /** A text of lines that begin with the prolog, followed by the closing
      tags, is framed by the prolog and the closing tags. */
  lemma {:induction false} FramedText(header: seq<string>, items: seq<string>, doc: string)
    requires |header| >= 3 && Prolog + header[3..] == header
    requires doc == Terminated(header) + Terminated(items) + "</channel>\n</rss>"
    ensures |doc| >= |PrologText| + 17
    ensures doc[..|PrologText|] == PrologText && doc[|doc| - 17..] == "</channel>\n</rss>"
  {
    TerminatedAppend(Prolog, header[3..]);
    PrologIsText();
    var middle := Terminated(header[3..]) + Terminated(items);
    assert doc == PrologText + middle + "</channel>\n</rss>";
    FrontAndBack(PrologText, middle, "</channel>\n</rss>");
  }

  /** Every document starts with the XML declaration and the opening `rss`
      and `channel` tags, and ends with the closing `channel` and `rss` tags. */
  lemma RenderFeedFrame(ch: Channel, ps: seq<Programme>, sizes: map<string, nat>, now: DateTime, doc: string)
    requires Valid(now) && AllDatesValid(ps) && RenderFeed(ch, ps, sizes, now) == Ok(doc)
    ensures |doc| >= |PrologText| + 17
    ensures doc[..|PrologText|] == PrologText && doc[|doc| - 17..] == "</channel>\n</rss>"
  {
    var items := RenderItems(ch, ps, sizes).value;
    RenderFeedText(ch, items, now);
    HeaderStartsWithProlog(ch, now);
    FramedText(HeaderLines(ch, now), items, doc);
  }

  /** Nothing the document is built from holds a line break. */
  predicate LineSafe(ch: Channel, ps: seq<Programme>)
  {
    '\n' !in ch.name && '\n' !in ch.outputDir && '\n' !in ch.serverUrl
    && forall k :: 0 <= k < |ps| ==>
         '\n' !in ps[k].pid && '\n' !in ps[k].name && '\n' !in ps[k].episode && '\n' !in ps[k].desc
         && (ps[k].filename.Some? ==> '\n' !in ps[k].filename.value)
  }

  /** The number of lines that open an item. */
  function ItemCount(lines: seq<string>): nat
  {
    multiset(lines)["<item>"]
  }

  /** The extension of a line-break-free string has no line break. */
  lemma ExtensionIsOneLine(s: string)
    requires '\n' !in s
    ensures '\n' !in GetExtension(s)
  {
  }

  /** The fixed text of an item holds no line break. */
  lemma ItemTagsAreOneLine()
    ensures '\n' !in "<item>" && '\n' !in "</item>" && '\n' !in " - "
    ensures '\n' !in "<guid>" && '\n' !in "</guid>"
    ensures '\n' !in "<enclosure url=\"" && '\n' !in "\" length=\"" && '\n' !in "\" type=\"" && '\n' !in "\" />"
    ensures '\n' !in "1024" && '\n' !in "/"
  {
  }

  /** The enclosure URL of a line-break-free file name is one line. */
  lemma FileUrlIsOneLine(ch: Channel, filename: string)
    requires '\n' !in ch.outputDir && '\n' !in ch.serverUrl && '\n' !in filename
    ensures '\n' !in FileUrl(ch, filename)
  {
    ItemTagsAreOneLine();
  }

  /** The enclosure length is one line. */
  lemma FileSizeIsOneLine(sizes: map<string, nat>, filename: string)
    ensures '\n' !in FileSize(sizes, filename)
  {
    ItemTagsAreOneLine();
    if filename in sizes { DigitsAreOneLine(Decimal(sizes[filename])); }
  }

  /** No line of a programme's item holds a line break when the
      programme's fields and the channel's do not. */
  lemma ItemLinesAreOneLine(ch: Channel, p: Programme, sizes: map<string, nat>)
    requires p.filename.Some? && Valid(p.dateLoaded)
    requires '\n' !in ch.outputDir && '\n' !in ch.serverUrl
    requires '\n' !in p.pid && '\n' !in p.name && '\n' !in p.episode && '\n' !in p.desc
    requires '\n' !in p.filename.value
    ensures forall j :: 0 <= j < 7 ==> '\n' !in ItemLines(ch, p, sizes)[j]
  {
    var url := FileUrl(ch, p.filename.value);
    var size := FileSize(sizes, p.filename.value);
    FileUrlIsOneLine(ch, p.filename.value);
    FileSizeIsOneLine(sizes, p.filename.value);
    ExtensionIsOneLine(url);
    FormatDateIsOneLine(p.dateLoaded);
    HeaderTagsAreOneLine();
    DateTagsAreOneLine();
    ItemTagsAreOneLine();
    Wrapped("<title>", p.episode + " - " + p.name, "</title>");
    Wrapped("<description>", p.desc, "</description>");
    Wrapped("<guid>", p.pid, "</guid>");
    Wrapped("<pubDate>", FormatDate(p.dateLoaded), "</pubDate>");
    Wrapped("<enclosure url=\"" + url + "\" length=\"", size, "\" type=\"" + GetExtension(url) + "\" />");
  }

  /** Exactly the first line of a programme's item opens an item. */
  lemma ItemLinesOpenOnce(ch: Channel, p: Programme, sizes: map<string, nat>)
    requires p.filename.Some? && Valid(p.dateLoaded)
    ensures ItemCount(ItemLines(ch, p, sizes)) == 1
  {
    var item := ItemLines(ch, p, sizes);
    assert forall j :: 1 <= j < 7 ==> |item[j]| > 6;
    assert item == [item[0]] + item[1..];
    assert "<item>" !in item[1..];
  }

  /** The fixed text of the header holds no line break. */
  lemma HeaderTagsAreOneLine()
    ensures '\n' !in "<title>" && '\n' !in "</title>" && '\n' !in "<description>"
    ensures '\n' !in "</description>" && '\n' !in Description
  {
  }

  /** The fixed text of the date lines holds no line break. */
  lemma DateTagsAreOneLine()
    ensures '\n' !in "<lastBuildDate>" && '\n' !in "</lastBuildDate>"
    ensures '\n' !in "<pubDate>" && '\n' !in "</pubDate>"
  {
  }

  /** The prolog lines hold no line break. */
  lemma PrologIsOneLine()
    ensures forall j :: 0 <= j < 3 ==> '\n' !in Prolog[j]
  {
    assert '\n' !in Prolog[0];
    assert '\n' !in Prolog[1];
    assert '\n' !in Prolog[2];
  }

  /** A body between an opening and a closing text is one line when all
      three are. */
  lemma Wrapped(open: string, body: string, close: string)
    requires '\n' !in open && '\n' !in body && '\n' !in close
    ensures '\n' !in open + body + close
  {
  }

  /** Lines none of which is the opening item tag open no item. */
  lemma NoItemOpens(lines: seq<string>)
    requires forall j :: 0 <= j < |lines| ==> |lines[j]| != 6
    ensures ItemCount(lines) == 0
  {
    assert "<item>" !in lines;
  }

  /** The header lines hold no line break when the feed name has none. */
  lemma HeaderLinesAreOneLine(ch: Channel, now: DateTime)
    requires Valid(now) && '\n' !in ch.name
    ensures forall j :: 0 <= j < 7 ==> '\n' !in HeaderLines(ch, now)[j]
  {
    FormatDateIsOneLine(now);
    HeaderTagsAreOneLine();
    DateTagsAreOneLine();
    PrologIsOneLine();
    Wrapped("<title>", ch.name, "</title>");
    Wrapped("<description>", Description, "</description>");
    Wrapped("<lastBuildDate>", FormatDate(now), "</lastBuildDate>");
    Wrapped("<pubDate>", FormatDate(now), "</pubDate>");
  }

  /** No header line opens an item. */
  lemma HeaderOpensNoItem(ch: Channel, now: DateTime)
    requires Valid(now)
    ensures ItemCount(HeaderLines(ch, now)) == 0
  {
    var h := HeaderLines(ch, now);
    assert forall j :: 0 <= j < 7 ==> |h[j]| > 6;
    NoItemOpens(h);
  }

  /** Joining lines none of which holds a line break, and splitting the
      result again, gives the lines back. */
  lemma {:induction false} OneLineDocument(header: seq<string>, items: seq<string>, doc: string)
    requires forall i :: 0 <= i < |header| ==> '\n' !in header[i]
    requires forall i :: 0 <= i < |items| ==> '\n' !in items[i]
    requires doc == Join(header + items + Epilog, '\n')
    ensures Split(doc, '\n') == header + items + Epilog
  {
    var lines := header + items + Epilog;
    forall i | 0 <= i < |lines| ensures '\n' !in lines[i] {
      if i < |header| {
        assert lines[i] == header[i];
      } else if i < |header| + |items| {
        assert lines[i] == items[i - |header|];
      } else {
        assert lines[i] == Epilog[i - |header| - |items|];
      }
    }
    SplitJoin(lines, '\n');
  }

  /** The k-th block of seven item lines sits seven lines further on in the
      document. */
  lemma DocumentBlock(header: seq<string>, items: seq<string>, k: nat)
    requires |header| == 7 && 7 * k + 7 <= |items|
    ensures (header + items + Epilog)[7 + 7 * k..14 + 7 * k] == items[7 * k..7 * k + 7]
  {
    assert (header + (items + Epilog))[7 + 7 * k..14 + 7 * k] == (items + Epilog)[7 * k..7 * k + 7];
    assert header + items + Epilog == header + (items + Epilog);
    assert (items + Epilog)[7 * k..7 * k + 7] == items[7 * k..7 * k + 7];
  }

  /** The layout of seven header lines that open no item, `n` blocks of
      seven item lines that open `n` items, and the two closing lines. */
  lemma {:induction false} LinesLayout(header: seq<string>, items: seq<string>, n: nat, lines: seq<string>)
    requires |header| == 7 && |items| == 7 * n
    requires ItemCount(header) == 0 && ItemCount(items) == n
    requires lines == header + items + Epilog
    ensures |lines| == 9 + 7 * n
    ensures lines[..7] == header && lines[7 + 7 * n..] == Epilog
    ensures forall k :: 0 <= k < n ==> lines[7 + 7 * k..14 + 7 * k] == items[7 * k..7 * k + 7]
    ensures ItemCount(lines) == n
  {
    forall k | 0 <= k < n
      ensures lines[7 + 7 * k..14 + 7 * k] == items[7 * k..7 * k + 7]
    {
      DocumentBlock(header, items, k);
    }
    assert multiset(Epilog)["<item>"] == 0;
    assert lines[..7] == header;
    assert lines[7 + 7 * n..] == Epilog;
  }

  /** When nothing it is built from holds a line break, the document splits
      into its header lines, its item lines and its closing lines. */
  lemma RenderFeedSplit(ch: Channel, ps: seq<Programme>, sizes: map<string, nat>, now: DateTime, doc: string)
    requires Valid(now) && AllDatesValid(ps) && RenderFeed(ch, ps, sizes, now) == Ok(doc)
    requires LineSafe(ch, ps)
    ensures Split(doc, '\n') == HeaderLines(ch, now) + RenderItems(ch, ps, sizes).value + Epilog
  {
    var items := RenderItems(ch, ps, sizes).value;
    HeaderLinesAreOneLine(ch, now);
    ItemsAreOneLine(ch, ps, sizes, items);
    OneLineDocument(HeaderLines(ch, now), items, doc);
  }

  /** When nothing it is built from holds a line break, the document's lines
      are the seven header lines, seven lines per programme in catalog
      order, and the two closing lines; exactly one line per programme
      opens an item. */
  lemma RenderFeedLines(ch: Channel, ps: seq<Programme>, sizes: map<string, nat>, now: DateTime, doc: string)
    requires Valid(now) && AllDatesValid(ps) && RenderFeed(ch, ps, sizes, now) == Ok(doc)
    requires LineSafe(ch, ps)
    ensures var lines := Split(doc, '\n');
            |lines| == 9 + 7 * |ps|
            && lines[..7] == HeaderLines(ch, now)
            && lines[7 + 7 * |ps|..] == Epilog
            && (forall k :: 0 <= k < |ps| ==>
                  ps[k].filename.Some? && lines[7 + 7 * k..14 + 7 * k] == ItemLines(ch, ps[k], sizes))
            && ItemCount(lines) == |ps|
  {
    var items := RenderItems(ch, ps, sizes).value;
    RenderFeedSplit(ch, ps, sizes, now, doc);
    RenderItemsLayout(ch, ps, sizes, items);
    HeaderOpensNoItem(ch, now);
    ItemCountInItems(ch, ps, sizes, items);
    LinesLayout(HeaderLines(ch, now), items, |ps|, Split(doc, '\n'));
  }

  /** The lines of a block of seven read at offset i are lines i to i + 6. */
  lemma BlockLines(lines: seq<string>, i: nat, block: seq<string>)
    requires i + 7 <= |lines| && lines[i..i + 7] == block
    ensures lines[i] == block[0] && lines[i + 1] == block[1] && lines[i + 2] == block[2]
    ensures lines[i + 3] == block[3] && lines[i + 4] == block[4] && lines[i + 5] == block[5]
    ensures lines[i + 6] == block[6]
  {
    assert block[0] == lines[i];
  }

  /** When nothing it is built from holds a line break, the k-th item of the
      document reads: the episode and name as title, the description, the
      pid as guid, the load date as publication date, and an enclosure
      whose URL is the server URL, the feed directory and the file name,
      whose length is the file size or `1024` when the size is unknown, and
      whose type is what follows the URL's last dot. */
  lemma RenderedItem(ch: Channel, ps: seq<Programme>, sizes: map<string, nat>, now: DateTime, doc: string, k: nat)
    requires Valid(now) && AllDatesValid(ps) && RenderFeed(ch, ps, sizes, now) == Ok(doc)
    requires LineSafe(ch, ps) && k < |ps|
    ensures ps[k].filename.Some?
    ensures var lines, p := Split(doc, '\n'), ps[k];
            var url := ch.serverUrl + "/" + ch.outputDir + "/" + p.filename.value;
            var size := if p.filename.value in sizes then Decimal(sizes[p.filename.value]) else "1024";
            |lines| == 9 + 7 * |ps|
            && lines[7 + 7 * k] == "<item>"
            && lines[8 + 7 * k] == "<title>" + p.episode + " - " + p.name + "</title>"
            && lines[9 + 7 * k] == "<description>" + p.desc + "</description>"
            && lines[10 + 7 * k] == "<guid>" + p.pid + "</guid>"
            && lines[11 + 7 * k] == "<pubDate>" + FormatDate(p.dateLoaded) + "</pubDate>"
            && lines[12 + 7 * k] == "<enclosure url=\"" + url + "\" length=\"" + size
                                    + "\" type=\"" + GetExtension(url) + "\" />"
            && lines[13 + 7 * k] == "</item>"
  {
    RenderFeedLines(ch, ps, sizes, now, doc);
    BlockLines(Split(doc, '\n'), 7 + 7 * k, ItemLines(ch, ps[k], sizes));
  }

  /** The item lines hold no line break when the catalog's fields do not. */
  lemma ItemsAreOneLine(ch: Channel, ps: seq<Programme>, sizes: map<string, nat>, items: seq<string>)
    requires AllDatesValid(ps) && RenderItems(ch, ps, sizes) == Ok(items)
    requires LineSafe(ch, ps)
    ensures forall i :: 0 <= i < |items| ==> '\n' !in items[i]
  {
    RenderItemsLayout(ch, ps, sizes, items);
    forall i | 0 <= i < |items| ensures '\n' !in items[i] {
      var k := i / 7;
      ItemLinesAreOneLine(ch, ps[k], sizes);
      assert items[i] == items[7 * k..7 * k + 7][i - 7 * k];
    }
  }

  /** The item lines of a successful item loop open one item per programme. */
  lemma {:induction false} ItemCountInItems(ch: Channel, ps: seq<Programme>, sizes: map<string, nat>, items: seq<string>)
    requires AllDatesValid(ps) && RenderItems(ch, ps, sizes) == Ok(items)
    ensures ItemCount(items) == |ps|
  {
    if ps != [] {
      var rest := RenderItems(ch, ps[1..], sizes).value;
      ItemCountInItems(ch, ps[1..], sizes, rest);
      ItemLinesOpenOnce(ch, ps[0], sizes);
      assert items == ItemLines(ch, ps[0], sizes) + rest;
    }
  }
  /** An empty catalog renders to the header and the closing lines alone:
      nine lines and no item. */
  lemma RenderEmptyCatalog(ch: Channel, sizes: map<string, nat>, now: DateTime)
    requires Valid(now) && '\n' !in ch.name
    ensures RenderFeed(ch, [], sizes, now).Ok?
    ensures var lines := Split(RenderFeed(ch, [], sizes, now).value, '\n');
            lines == HeaderLines(ch, now) + Epilog && ItemCount(lines) == 0
  {
    var header := HeaderLines(ch, now);
    var doc := RenderFeed(ch, [], sizes, now).value;
    HeaderLinesAreOneLine(ch, now);
    HeaderOpensNoItem(ch, now);
    OneLineDocument(header, [], doc);
    LinesLayout(header, [], 0, Split(doc, '\n'));
    assert header + [] == header;
  }

  /** The download loop keeps every timestamp. */
  lemma DownloadedAllKeepsDates(ps: seq<Programme>, staging: map<string, seq<string>>)
    requires AllDatesValid(ps)
    ensures AllDatesValid(DownloadedAll(ps, staging))
  {
    DownloadedAllFacts(ps, staging);
  }

  /** A programme whose staging directory stayed empty is still marked
      downloaded, without a file; the feed can then not be rendered, and no
      later run retries the download. */
  lemma EmptyStagingBlocksFeed(ch: Channel, ps: seq<Programme>, staging: map<string, seq<string>>,
                               sizes: map<string, nat>, now: DateTime, k: nat)
    requires Valid(now) && AllDatesValid(ps)
    requires k < |ps| && !ps[k].downloaded && ps[k].filename.None? && Staged(staging, ps[k].pid) == []
    ensures AllDatesValid(DownloadedAll(ps, staging))
    ensures DownloadedAll(ps, staging)[k].downloaded && DownloadedAll(ps, staging)[k].filename.None?
    ensures RenderFeed(ch, DownloadedAll(ps, staging), sizes, now).Err?
  {
    DownloadedAllKeepsDates(ps, staging);
    DownloadedAllFacts(ps, staging);
    RenderItemsOkIff(ch, DownloadedAll(ps, staging), sizes);
  }

  /** When every downloaded programme has its file and every pending one
      finds at least one staged file, the feed renders after the download
      loop. */
  lemma StagedFilesLetFeedRender(ch: Channel, ps: seq<Programme>, staging: map<string, seq<string>>,
                                 sizes: map<string, nat>, now: DateTime)
    requires Valid(now) && AllDatesValid(ps)
    requires forall k :: 0 <= k < |ps| ==> ps[k].downloaded ==> ps[k].filename.Some?
    requires forall k :: 0 <= k < |ps| ==> !ps[k].downloaded ==> Staged(staging, ps[k].pid) != []
    ensures AllDatesValid(DownloadedAll(ps, staging))
    ensures RenderFeed(ch, DownloadedAll(ps, staging), sizes, now).Ok?
  {
    DownloadedAllKeepsDates(ps, staging);
    DownloadedAllFacts(ps, staging);
    RenderItemsOkIff(ch, DownloadedAll(ps, staging), sizes);
  }

  /** A programme the feed can be built from line by line: a real load
      date, and no line break in any text field or in its file name. */
  predicate WellFormed(p: Programme)
  {
    Valid(p.dateLoaded) && '\n' !in p.pid && '\n' !in p.name && '\n' !in p.episode && '\n' !in p.desc
    && (p.filename.Some? ==> '\n' !in p.filename.value)
  }

  predicate AllWellFormed(ps: seq<Programme>)
  {
    forall k :: 0 <= k < |ps| ==> WellFormed(ps[k])
  }

  /** A well-formed catalog under a channel without line breaks has valid
      dates and is line-safe. */
  lemma AllWellFormedRenders(ch: Channel, ps: seq<Programme>)
    requires AllWellFormed(ps)
    requires '\n' !in ch.name && '\n' !in ch.outputDir && '\n' !in ch.serverUrl
    ensures AllDatesValid(ps) && LineSafe(ch, ps)
  {
  }

  /** Every programme parsed under a valid clock reading is well formed. */
  lemma ParsedAreWellFormed(output: string, now: DateTime, ps: seq<Programme>)
    requires Valid(now) && Listing.ParseListing(output, now) == Ok(ps)
    ensures AllWellFormed(ps)
  {
    Listing.ParsedFieldsAreClean(output, now, ps);
    Listing.ParsedAreNew(Split(output, '\n'), now, ps);
  }

  /** Merging well-formed candidates into a well-formed catalog gives a
      well-formed catalog. */
  lemma MergedWellFormed(ps: seq<Programme>, candidates: seq<Programme>)
    requires AllWellFormed(ps) && AllWellFormed(candidates)
    ensures AllWellFormed(Merged(ps, candidates))
  {
    MergedAppendsFirstOccurrences(ps, candidates);
    var fs := FirstOccurrences(Pids(ps), candidates);
    FirstOccurrencesAreFresh(Pids(ps), candidates);
    var m := Merged(ps, candidates);
    forall k | 0 <= k < |m| ensures WellFormed(m[k]) {
      if k >= |ps| {
        assert m[k] == fs[k - |ps|];
        var j :| 0 <= j < |candidates| && candidates[j] == fs[k - |ps|];
      }
    }
  }

  /** The search loop keeps a catalog well formed when the clock reading is
      valid. */
  lemma {:induction false} SearchAllWellFormed(ps: seq<Programme>, listings: seq<string>, now: DateTime)
    requires Valid(now) && AllWellFormed(ps)
    ensures AllWellFormed(SearchAll(ps, listings, now).catalog)
    decreases |listings|
  {
    if listings != [] {
      match Listing.ParseListing(listings[0], now) {
        case Err(_) =>
        case Ok(candidates) =>
          ParsedAreWellFormed(listings[0], now, candidates);
          MergedWellFormed(ps, candidates);
          SearchAllWellFormed(Merged(ps, candidates), listings[1..], now);
      }
    }
  }

  /** No staged file name holds a line break. */
  predicate StagingOneLine(staging: map<string, seq<string>>)
  {
    forall pid :: pid in staging ==> forall j :: 0 <= j < |staging[pid]| ==> '\n' !in staging[pid][j]
  }

  /** The download loop keeps a catalog well formed when no staged file name
      holds a line break. */
  lemma DownloadedAllWellFormed(ps: seq<Programme>, staging: map<string, seq<string>>)
    requires AllWellFormed(ps) && StagingOneLine(staging)
    ensures AllWellFormed(DownloadedAll(ps, staging))
  {
    DownloadedAllFacts(ps, staging);
    var r := DownloadedAll(ps, staging);
    forall k | 0 <= k < |r| ensures WellFormed(r[k]) {
      var staged := Staged(staging, ps[k].pid);
      if !ps[k].downloaded && staged != [] {
        assert ps[k].pid in staging && staged == staging[ps[k].pid];
        assert r[k].filename.value == staged[|staged| - 1];
      }
    }
  }
}
