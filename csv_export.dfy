/**
 * The CSV export of an analysis (frontend/src/widgets/analyses/overview/ui/export.tsx): a header
 * line and one `source_id,label` line per review, joined by newlines.
 */
module CsvExport {
  import opened Wrappers
  import opened Domain

  /** `SENTIMENT_LABELS`: the class labels the training data uses. */
  function SentimentLabel(s: Sentiment): (lbl: string)
    ensures lbl in {"0.0", "1.0", "2.0"}
  {
    match s
    case Negative => "0.0"
    case Neutral => "1.0"
    case Positive => "2.0"
  }

  /** Reading a label back. */
  function LabelSentiment(lbl: string): (s: Option<Sentiment>)
    ensures s.Some? <==> lbl in {"0.0", "1.0", "2.0"}
  {
    if lbl == "0.0" then Some(Negative)
    else if lbl == "1.0" then Some(Neutral)
    else if lbl == "2.0" then Some(Positive)
    else None
  }

  /** The label map is injective: every label decodes to the sentiment it encodes. */
  lemma LabelRoundTrip(s: Sentiment)
    ensures LabelSentiment(SentimentLabel(s)) == Some(s)
  {
  }

  const Header := "ID,label"

  /** The line of one review: its `source_id`, unquoted, a comma, and its label. */
  function CsvLine(r: Review): string {
    r.sourceId + "," + SentimentLabel(r.sentiment)
  }

  /** `csvRows`: the header followed by one line per review, in order. */
  function CsvRows(rs: seq<Review>): (lines: seq<string>)
    ensures |lines| == |rs| + 1
    ensures lines[0] == Header
    ensures forall i :: 0 <= i < |rs| ==> lines[i + 1] == CsvLine(rs[i])
  {
    [Header] + seq(|rs|, i requires 0 <= i < |rs| => CsvLine(rs[i]))
  }

  /** `Array.prototype.join(sep)`: no separator before the first or after the last element. */
  function Join(lines: seq<string>, sep: char): string {
    if lines == [] then ""
    else if |lines| == 1 then lines[0]
    else lines[0] + [sep] + Join(lines[1..], sep)
  }

  /** The text handed to the download: nothing at all without data. */
  function Export(reviews: Option<seq<Review>>): (text: Option<string>)
    ensures reviews.None? <==> text.None?
  {
    if reviews.None? then None else Some(Join(CsvRows(reviews.value), '\n'))
  }

  // ---------------------------------------------------------------------------
  // Reading the file back
  // ---------------------------------------------------------------------------

  /** Splitting on a separator character: the pieces between separators, at least one. */
  function Split(s: string, sep: char): (parts: seq<string>)
    ensures |parts| >= 1
  {
    if s == [] then [""]
    else if s[0] == sep then [""] + Split(s[1..], sep)
    else
      var rest := Split(s[1..], sep);
      [[s[0]] + rest[0]] + rest[1..]
  }

  lemma {:induction false} SplitWithout(x: string, sep: char)
    requires sep !in x
    ensures Split(x, sep) == [x]
  {
    if x != [] {
      SplitWithout(x[1..], sep);
      assert x == [x[0]] + x[1..];
    }
  }

  lemma {:induction false} SplitAtFirst(x: string, sep: char, rest: string)
    requires sep !in x
    ensures Split(x + [sep] + rest, sep) == [x] + Split(rest, sep)
  {
    if x == [] {
      assert x + [sep] + rest == [sep] + rest;
    } else {
      assert (x + [sep] + rest)[1..] == x[1..] + [sep] + rest;
      SplitAtFirst(x[1..], sep, rest);
      assert x == [x[0]] + x[1..];
    }
  }

  /** Splitting undoes joining when no piece contains the separator. */
  lemma {:induction false} SplitJoin(lines: seq<string>, sep: char)
    requires |lines| >= 1
    requires forall i :: 0 <= i < |lines| ==> sep !in lines[i]
    ensures Split(Join(lines, sep), sep) == lines
  {
    if |lines| == 1 {
      SplitWithout(lines[0], sep);
    } else {
      SplitJoin(lines[1..], sep);
      SplitAtFirst(lines[0], sep, Join(lines[1..], sep));
      assert lines == [lines[0]] + lines[1..];
    }
  }

  /** One data line read back: exactly two comma-separated fields, the second a known label. */
  function ParseLine(line: string): Option<(string, Sentiment)> {
    var fields := Split(line, ',');
    if |fields| != 2 then None
    else
      match LabelSentiment(fields[1])
      case None => None
      case Some(s) => Some((fields[0], s))
  }

  function ParseLines(lines: seq<string>): Option<seq<(string, Sentiment)>> {
    if lines == [] then Some([])
    else
      match (ParseLine(lines[0]), ParseLines(lines[1..]))
      case (Some(p), Some(ps)) => Some([p] + ps)
      case _ => None
  }

  /** A reader of the exported file: the header, then one `(source_id, sentiment)` per line. */
  function ParseCsv(text: string): Option<seq<(string, Sentiment)>> {
    var lines := Split(text, '\n');
    if lines[0] != Header then None else ParseLines(lines[1..])
  }

  function Pairs(rs: seq<Review>): (ps: seq<(string, Sentiment)>)
    ensures |ps| == |rs|
    ensures forall i :: 0 <= i < |rs| ==> ps[i] == (rs[i].sourceId, rs[i].sentiment)
  {
    seq(|rs|, i requires 0 <= i < |rs| => (rs[i].sourceId, rs[i].sentiment))
  }

  /** A `source_id` the unquoted format carries safely. */
  predicate PlainField(s: string) {
    ',' !in s && '\n' !in s
  }

  lemma ParseCsvLine(r: Review)
    requires PlainField(r.sourceId)
    ensures ParseLine(CsvLine(r)) == Some((r.sourceId, r.sentiment))
  {
    var lbl := SentimentLabel(r.sentiment);
    assert ',' !in lbl;
    SplitAtFirst(r.sourceId, ',', lbl);
    SplitWithout(lbl, ',');
    assert CsvLine(r) == r.sourceId + [','] + lbl;
  }

  /** Reading a line and then the rest gives the line's pair followed by the rest's pairs. */
  lemma ParseLinesCons(l: string, ls: seq<string>, p: (string, Sentiment), ps: seq<(string, Sentiment)>)
    requires ParseLine(l) == Some(p) && ParseLines(ls) == Some(ps)
    ensures ParseLines([l] + ls) == Some([p] + ps)
  {
    assert ([l] + ls)[1..] == ls;
  }

  /** Lines that each read back as the matching pair read back as the whole sequence of pairs. */
  lemma {:induction false} ParseLinesEach(lines: seq<string>, ps: seq<(string, Sentiment)>)
    requires |lines| == |ps|
    requires forall i :: 0 <= i < |lines| ==> ParseLine(lines[i]) == Some(ps[i])
    ensures ParseLines(lines) == Some(ps)
  {
    if lines != [] {
      ParseLinesEach(lines[1..], ps[1..]);
      ParseLinesCons(lines[0], lines[1..], ps[0], ps[1..]);
      assert lines == [lines[0]] + lines[1..];
      assert ps == [ps[0]] + ps[1..];
    }
  }

  /** The data lines of an export read back as the reviews' `(source_id, sentiment)` pairs. */
  lemma ParseLinesOfReviews(rs: seq<Review>)
    requires forall i :: 0 <= i < |rs| ==> PlainField(rs[i].sourceId)
    ensures ParseLines(CsvRows(rs)[1..]) == Some(Pairs(rs))
  {
    var lines := CsvRows(rs)[1..];
    var ps := Pairs(rs);
    forall i | 0 <= i < |lines| ensures ParseLine(lines[i]) == Some(ps[i]) {
      ParseCsvLine(rs[i]);
    }
    ParseLinesEach(lines, ps);
  }

  /**
   * Round trip: when no `source_id` holds a comma or a newline, reading the export back yields
   * every review's `(source_id, sentiment)` in order, and the file has one line per review plus the header.
   */
  lemma ExportRoundTrip(rs: seq<Review>)
    requires forall i :: 0 <= i < |rs| ==> PlainField(rs[i].sourceId)
    ensures |Split(Export(Some(rs)).value, '\n')| == |rs| + 1
    ensures ParseCsv(Export(Some(rs)).value) == Some(Pairs(rs))
  {
    var lines := CsvRows(rs);
    forall i | 0 <= i < |lines| ensures '\n' !in lines[i] {
      if i > 0 {
        assert '\n' !in SentimentLabel(rs[i - 1].sentiment);
        assert lines[i] == rs[i - 1].sourceId + "," + SentimentLabel(rs[i - 1].sentiment);
      }
    }
    SplitJoin(lines, '\n');
    ParseLinesOfReviews(rs);
  }

  /** Splitting yields one more part than there are separators. */
  lemma {:induction false} SplitLength(x: string, sep: char)
    ensures |Split(x, sep)| == multiset(x)[sep] + 1
  {
    if x != [] {
      SplitLength(x[1..], sep);
      assert x == [x[0]] + x[1..];
    }
  }

  /** The fields are not quoted: a comma inside a `source_id` gives the line three or more fields. */
  lemma CommaInSourceBreaksLine(r: Review)
    requires ',' in r.sourceId
    ensures ParseLine(CsvLine(r)) == None
  {
    var line := CsvLine(r);
    assert line == r.sourceId + [','] + SentimentLabel(r.sentiment);
    assert multiset(r.sourceId)[','] >= 1;
    SplitLength(line, ',');
  }
}
