/** `parseYouTubeId` and `toCSV` from the shared transcribe helpers. */
module TranscribeUtils {
  import opened Wrappers
  import opened JsString
  import opened YouTubeUrl

  /** The bare-token test of `parseYouTubeId`: no slash, no question mark,
      no (ASCII) space. Nothing else about the characters is checked. */
  predicate LooksBare(s: string)
  {
    '/' !in s && '?' !in s && ' ' !in s
  }

  /** Video id from an id or a URL, accepting any bare token of at least
      ten code units. */
  function ParseYouTubeId(input: string, parse: UrlParser): (r: Option<string>)
    // A bare token is returned unchanged exactly when it is ten or more
    // UTF-16 code units long; there is no upper bound and no character class.
    ensures LooksBare(Trim(input)) ==> (r.Some? <==> Utf16Length(Trim(input)) >= 10)
    ensures LooksBare(Trim(input)) && r.Some? ==> r.value == Trim(input)
    // Anything else goes through the URL parser; a parse failure is null.
    ensures !LooksBare(Trim(input)) && parse(Trim(input)).None? ==> r.None?
    ensures r.Some? ==> r.value != []
  {
    var url := Trim(input);
    if LooksBare(url) then
      if Utf16Length(url) >= 10 then Some(url) else None
    else
      match parse(url)
      case None => None
      case Some(u) => IdFromUrl(u)
  }

  /** Length is counted in UTF-16 code units: a bare token of five
      characters outside the Basic Multilingual Plane (five emoji, say) is
      ten units long and so is returned as an id. */
  lemma AstralTokenIsAnId(input: string, parse: UrlParser)
    requires LooksBare(Trim(input)) && |Trim(input)| == 5
    requires forall i :: 0 <= i < 5 ==> Trim(input)[i] >= '\U{10000}'
    ensures ParseYouTubeId(input, parse) == Some(Trim(input))
  {
  }

  /** A trimmed input that does not look bare is decided by the URL alone,
      through the shared URL decision. */
  lemma ParseUrlBranch(input: string, parse: UrlParser, u: ParsedUrl)
    requires !LooksBare(Trim(input)) && parse(Trim(input)) == Some(u)
    ensures ParseYouTubeId(input, parse) == IdFromUrl(u)
  {
  }

  // ---------------------------------------------------------------------
  // CSV export: one quoted field per line (section 2, rules 5-7, RFC 4180).

  /** `line.replace(/"/g, '""')`: double every quote. */
  function Escape(line: string): (r: string)
    ensures |r| >= |line|
    ensures forall i :: 0 <= i < |r| ==> r[i] == '"' || r[i] in line
    ensures '"' !in line ==> r == line
  {
    if line == [] then []
    else (if line[0] == '"' then "\"\"" else [line[0]]) + Escape(line[1..])
  }

  /** One CSV field: the escaped line between two quotes. */
  function QuoteLine(line: string): (r: string)
    ensures |r| >= 2 && r[0] == '"' && r[|r| - 1] == '"'
    ensures '\n' !in line ==> '\n' !in r
  {
    "\"" + Escape(line) + "\""
  }

  function QuoteLines(lines: seq<string>): (r: seq<string>)
    ensures |r| == |lines| && forall i :: 0 <= i < |r| ==> r[i] == QuoteLine(lines[i])
  {
    seq(|lines|, i requires 0 <= i < |lines| => QuoteLine(lines[i]))
  }

  /** `toCSV`: quote each `\n`-separated line and join them back with `\n`. */
  function ToCsv(text: string): (r: string)
    // One CSV line per input line: line i of the CSV is line i of the
    // input, quoted.
    ensures Split(r, '\n') == QuoteLines(Split(text, '\n'))
  {
    var q := QuoteLines(Split(text, '\n'));
    SplitPiecesFree(text, '\n');
    SplitJoin(q, '\n');
    Join(q, '\n')
  }

  /** The inverse of Escape: turn each `""` back into `"`; a quote that is not
      doubled is an error. */
  function Unescape(s: string): (r: Option<string>)
  {
    if s == [] then Some([])
    else if s[0] == '"' then
      if |s| >= 2 && s[1] == '"' then
        match Unescape(s[2..])
        case Some(t) => Some(['"'] + t)
        case None => None
      else None
    else
      match Unescape(s[1..])
      case Some(t) => Some([s[0]] + t)
      case None => None
  }

  /** Read one CSV field back: strip the outer quotes, then unescape. */
  function UnquoteLine(field: string): Option<string>
  {
    if |field| >= 2 && field[0] == '"' && field[|field| - 1] == '"' then
      Unescape(field[1..|field| - 1])
    else None
  }

  function UnquoteLines(fields: seq<string>): Option<seq<string>>
  {
    if fields == [] then Some([])
    else
      match UnquoteLine(fields[0])
      case None => None
      case Some(l) =>
        match UnquoteLines(fields[1..])
        case None => None
        case Some(ls) => Some([l] + ls)
  }

  /** Read a whole CSV text back into the original multi-line text. */
  function FromCsv(csv: string): Option<string>
  {
    match UnquoteLines(Split(csv, '\n'))
    case None => None
    case Some(lines) => Some(Join(lines, '\n'))
  }

  /** Inside a field every quote is doubled, so undoubling restores the line. */
  lemma {:induction false} UnescapeEscape(line: string)
    ensures Unescape(Escape(line)) == Some(line)
  {
    if line != [] {
      UnescapeEscape(line[1..]);
      var head := if line[0] == '"' then "\"\"" else [line[0]];
      assert Escape(line) == head + Escape(line[1..]);
      if line[0] == '"' {
        assert Escape(line)[2..] == Escape(line[1..]);
      } else {
        assert Escape(line)[1..] == Escape(line[1..]);
      }
      assert [line[0]] + line[1..] == line;
    }
  }

  /** Round trip of one line: strip the outer quotes and undouble the inner ones. */
  lemma UnquoteQuoteLine(line: string)
    ensures UnquoteLine(QuoteLine(line)) == Some(line)
  {
    var f := QuoteLine(line);
    assert f[1..|f| - 1] == Escape(line);
    UnescapeEscape(line);
  }

  lemma {:induction false} UnquoteQuoteLines(lines: seq<string>)
    ensures UnquoteLines(QuoteLines(lines)) == Some(lines)
  {
    if lines != [] {
      UnquoteQuoteLine(lines[0]);
      assert QuoteLines(lines)[1..] == QuoteLines(lines[1..]);
      UnquoteQuoteLines(lines[1..]);
      assert [lines[0]] + lines[1..] == lines;
    }
  }

  /** Reading the CSV back gives the original text. */
  lemma CsvRoundTrip(text: string)
    ensures FromCsv(ToCsv(text)) == Some(text)
  {
    UnquoteQuoteLines(Split(text, '\n'));
    JoinSplit(text, '\n');
  }
}
