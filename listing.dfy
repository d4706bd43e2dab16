/**
 * `get_programmes`: reading the fetch tool's search listing. The tool is
 * asked to print each result as `programmeoutput|<pid>|<name>|<episode>|<desc>`
 * among its other output; the text it printed is the input here.
 */
module Listing {
  import opened Wrappers
  import opened Text
  import opened Programmes
  import Dates

  /** The literal that marks a result line (`PROGRAMME_OUTPUT_KEYWORD`). */
  const Marker: string := "programmeoutput"

  /** A marker line with fewer than five fields: Python raises `IndexError`
      when it reads the missing field, and the run stops. */
  datatype ListingError = MissingField(line: string)

  /** The `|`-separated fields of a line. */
  function Fields(line: string): seq<string>
  {
    Split(line, '|')
  }

  /** A line whose first field is the marker. */
  predicate IsRecordLine(line: string)
  {
    Fields(line)[0] == Marker
  }

  /** A record line with all the fields the parser reads. */
  predicate IsCompleteRecord(line: string)
  {
    IsRecordLine(line) && |Fields(line)| >= 5
  }

  /** The programme a complete record line describes: fields 1 to 4 are the
      pid, name, episode and description; further fields are ignored. */
  function ProgrammeOf(line: string, now: Dates.DateTime): Programme
    requires |Fields(line)| >= 5
  {
    var f := Fields(line);
    NewProgramme(f[1], f[2], f[3], f[4], now)
  }

  /** The loop over the lines: non-record lines are skipped, each record
      line becomes a programme, and the first short record line stops the
      parse with an error. */
  function ParseLines(lines: seq<string>, now: Dates.DateTime): Result<seq<Programme>, ListingError>
  {
    if lines == [] then Ok([])
    else if !IsRecordLine(lines[0]) then ParseLines(lines[1..], now)
    else if |Fields(lines[0])| < 5 then Err(MissingField(lines[0]))
    else match ParseLines(lines[1..], now)
      case Ok(ps) => Ok([ProgrammeOf(lines[0], now)] + ps)
      case Err(e) => Err(e)
  }

  /** The whole listing: `output.split("\n")`, then the loop. */
  function ParseListing(output: string, now: Dates.DateTime): Result<seq<Programme>, ListingError>
  {
    ParseLines(Split(output, '\n'), now)
  }

  /** The programmes already built, in front of what the remaining lines give. */
  function Prepend(done: seq<Programme>, rest: Result<seq<Programme>, ListingError>): Result<seq<Programme>, ListingError>
  {
    match rest
    case Ok(ps) => Ok(done + ps)
    case Err(e) => Err(e)
  }

  lemma PrependNothing(r: Result<seq<Programme>, ListingError>)
    ensures Prepend([], r) == r
  {
    if r.Ok? { assert [] + r.value == r.value; }
  }

  /** Moving one programme from the front of the rest to the end of what is done. */
  lemma PrependShift(done: seq<Programme>, p: Programme, rest: Result<seq<Programme>, ListingError>)
    ensures Prepend(done, Prepend([p], rest)) == Prepend(done + [p], rest)
  {
    if rest.Ok? { assert done + ([p] + rest.value) == (done + [p]) + rest.value; }
  }

  /** `get_programmes` on the text the fetch tool printed; `now` is the clock
      reading each new `Programme` takes. */
  method GetProgrammes(output: string, now: Dates.DateTime) returns (r: Result<seq<Programme>, ListingError>)
    ensures r == ParseListing(output, now)
  {
    var programmes: seq<Programme> := [];
    var lines := Split(output, '\n');
    var i := 0;
    PrependNothing(ParseLines(lines, now));
    assert lines[0..] == lines;
    while i < |lines|
      invariant 0 <= i <= |lines|
      invariant Prepend(programmes, ParseLines(lines[i..], now)) == ParseLines(lines, now)
    {
      assert lines[i..][0] == lines[i] && lines[i..][1..] == lines[i + 1..];
      var parts := Split(lines[i], '|');
      if parts[0] == Marker {
        if |parts| < 5 {
          return Err(MissingField(lines[i]));
        }
        var programme := NewProgramme(parts[1], parts[2], parts[3], parts[4], now);
        PrependShift(programmes, programme, ParseLines(lines[i + 1..], now));
        programmes := programmes + [programme];
      }
      i := i + 1;
    }
    assert lines[i..] == [] && programmes + [] == programmes;
    return Ok(programmes);
  }

  /** The record lines, in order: the reference the parser is measured by. */
  function RecordLines(lines: seq<string>): seq<string>
  {
    if lines == [] then []
    else if IsRecordLine(lines[0]) then [lines[0]] + RecordLines(lines[1..])
    else RecordLines(lines[1..])
  }

  /** The parse succeeds exactly when every record line is complete. */
  lemma {:induction false} ParseLinesOkIff(lines: seq<string>, now: Dates.DateTime)
    ensures ParseLines(lines, now).Ok?
            <==> forall k :: 0 <= k < |lines| && IsRecordLine(lines[k]) ==> IsCompleteRecord(lines[k])
  {
    if lines != [] {
      ParseLinesOkIff(lines[1..], now);
      assert forall k :: 1 <= k < |lines| ==> lines[k] == lines[1..][k - 1];
    }
  }

  /** A failed parse names a record line of the listing that is short. */
  lemma {:induction false} ParseLinesErr(lines: seq<string>, now: Dates.DateTime)
    requires ParseLines(lines, now).Err?
    ensures var line := ParseLines(lines, now).error.line;
            line in lines && IsRecordLine(line) && !IsCompleteRecord(line)
  {
    if IsRecordLine(lines[0]) && |Fields(lines[0])| < 5 {
    } else {
      ParseLinesErr(lines[1..], now);
    }
  }

  /** A successful parse yields one programme per record line, in line
      order, each built from fields 1 to 4 of its line. */
  lemma {:induction false} ParseLinesSelects(lines: seq<string>, now: Dates.DateTime, ps: seq<Programme>)
    requires ParseLines(lines, now) == Ok(ps)
    ensures |ps| == |RecordLines(lines)|
    ensures forall k :: 0 <= k < |ps| ==>
              |Fields(RecordLines(lines)[k])| >= 5 && ps[k] == ProgrammeOf(RecordLines(lines)[k], now)
  {
    if lines != [] {
      if !IsRecordLine(lines[0]) {
        ParseLinesSelects(lines[1..], now, ps);
      } else {
        ParseLinesSelects(lines[1..], now, ps[1..]);
      }
    }
  }

  /** Parsing one block of lines and then another is parsing both in one go:
      programmes keep line order and the first short record line wins. */
  lemma {:induction false} ParseLinesAppend(a: seq<string>, b: seq<string>, now: Dates.DateTime)
    ensures ParseLines(a + b, now)
            == match ParseLines(a, now)
               case Err(e) => Err(e)
               case Ok(x) => Prepend(x, ParseLines(b, now))
  {
    if a == [] {
      assert a + b == b;
      match ParseLines(b, now) {
        case Ok(y) => assert [] + y == y;
        case Err(_) =>
      }
    } else {
      assert (a + b)[1..] == a[1..] + b;
      ParseLinesAppend(a[1..], b, now);
      match ParseLines(b, now) {
        case Ok(y) =>
          if IsRecordLine(a[0]) && |Fields(a[0])| >= 5 {
            match ParseLines(a[1..], now) {
              case Ok(x) => assert [ProgrammeOf(a[0], now)] + (x + y) == ([ProgrammeOf(a[0], now)] + x) + y;
              case Err(_) =>
            }
          }
        case Err(_) =>
      }
    }
  }

  /** Every parsed programme is new: not downloaded, without a file, and
      stamped with the parse's clock reading. */
  lemma {:induction false} ParsedAreNew(lines: seq<string>, now: Dates.DateTime, ps: seq<Programme>)
    requires ParseLines(lines, now) == Ok(ps)
    ensures forall k :: 0 <= k < |ps| ==>
              !ps[k].downloaded && ps[k].filename == None && ps[k].dateLoaded == now
  {
    ParseLinesSelects(lines, now, ps);
  }

  /** A text field with neither a line break nor a field separator. */
  predicate IsClean(s: string)
  {
    '\n' !in s && '|' !in s
  }

  /** The fields of a parsed programme never hold a line break or a `|`:
      both were consumed as separators. */
  lemma ParsedFieldsAreClean(output: string, now: Dates.DateTime, ps: seq<Programme>)
    requires ParseListing(output, now) == Ok(ps)
    ensures forall k :: 0 <= k < |ps| ==>
              IsClean(ps[k].pid) && IsClean(ps[k].name) && IsClean(ps[k].episode) && IsClean(ps[k].desc)
  {
    var lines := Split(output, '\n');
    SplitPiecesAreFree(output, '\n');
    RecordLinesAreLines(lines);
    ParseLinesSelects(lines, now, ps);
    forall k | 0 <= k < |ps|
      ensures IsClean(ps[k].pid) && IsClean(ps[k].name) && IsClean(ps[k].episode) && IsClean(ps[k].desc)
    {
      var line := RecordLines(lines)[k];
      SplitPiecesAreFree(line, '|');
      SplitPiecesInherit(line, '|', '\n');
    }
  }

  /** Every record line is one of the lines. */
  lemma {:induction false} RecordLinesAreLines(lines: seq<string>)
    ensures forall k :: 0 <= k < |RecordLines(lines)| ==> RecordLines(lines)[k] in lines
  {
    if lines != [] {
      RecordLinesAreLines(lines[1..]);
    }
  }
}
