/**
 The statement-line tokenizer of `parse_pdf`: every line of every page's
 extracted text that splits into at least three whitespace tokens becomes one
 record whose date is the first token, whose amount is the last token and whose
 description is the tokens in between joined by single spaces. Page text
 extraction itself is an input: a page is the string its text extractor returned.
 */
module Statements {
  import opened Text
  import opened Values

  datatype Statement = Statement(date: string, description: string, amount: string)

  /** The record a line yields, if it has enough tokens to yield one. */
  function ParseLine(line: string): (r: Option<Statement>)
    ensures r.Some? <==> |Split(line)| >= 3
    ensures r.Some? ==>
      var parts := Split(line);
      && r.value.date == parts[0]
      && r.value.amount == parts[|parts| - 1]
      && Split(r.value.description) == parts[1..|parts| - 1]
  {
    var parts := Split(line);
    if |parts| >= 3 then
      var middle := parts[1..|parts| - 1];
      assert AllTokens(middle) by {
        forall i | 0 <= i < |middle| ensures IsToken(middle[i]) {
          assert middle[i] == parts[i + 1];
        }
      }
      SplitJoin(middle);
      Some(Statement(parts[0], Join(middle, ' '), parts[|parts| - 1]))
    else
      None
  }

  /** The records of a page's lines, in line order: at most one per line, each one well formed. */
  function ParseLines(lines: seq<string>): (r: seq<Statement>)
    ensures |r| <= |lines|
    ensures forall k :: 0 <= k < |r| ==> WellFormed(r[k])
  {
    if |lines| == 0 then []
    else
      var rest := ParseLines(lines[1..]);
      if ParseLine(lines[0]).Some? then
        ParsedIsWellFormed(lines[0]);
        [ParseLine(lines[0]).value] + rest
      else
        rest
  }

  /** The records of all pages, page by page, each page cut into lines at '\n'; every one well formed. */
  function ParsePages(pages: seq<string>): (r: seq<Statement>)
    ensures forall k :: 0 <= k < |r| ==> WellFormed(r[k])
  {
    if |pages| == 0 then [] else ParseLines(SplitLines(pages[0])) + ParsePages(pages[1..])
  }

  /** A record as a line of text: its three fields separated by single spaces. */
  function FormatLine(st: Statement): string {
    st.date + " " + st.description + " " + st.amount
  }

  /**
   A record the parser can produce: date and amount are single tokens and the
   description is a non-empty run of tokens separated by single spaces.
   */
  predicate WellFormed(st: Statement) {
    && IsToken(st.date)
    && IsToken(st.amount)
    && |Split(st.description)| > 0
    && Join(Split(st.description), ' ') == st.description
  }

  /** A line with fewer than three tokens yields nothing; one with three or more yields exactly one record. */
  lemma LineYieldsAtMostOne(line: string)
    ensures |Split(line)| < 3 ==> ParseLines([line]) == []
    ensures |Split(line)| >= 3 ==> ParseLines([line]) == [ParseLine(line).value]
  {
    assert [line][1..] == [];
  }

  /** Records keep line order: parsing a concatenation concatenates the results. */
  lemma {:induction false} ParseLinesAppend(a: seq<string>, b: seq<string>)
    ensures ParseLines(a + b) == ParseLines(a) + ParseLines(b)
    decreases |a|
  {
    if |a| == 0 {
      assert a + b == b;
    } else {
      assert (a + b)[1..] == a[1..] + b;
      ParseLinesAppend(a[1..], b);
    }
  }

  /** Records keep page order: parsing a concatenation of pages concatenates the results. */
  lemma {:induction false} ParsePagesAppend(a: seq<string>, b: seq<string>)
    ensures ParsePages(a + b) == ParsePages(a) + ParsePages(b)
    decreases |a|
  {
    if |a| == 0 {
      assert a + b == b;
    } else {
      assert (a + b)[1..] == a[1..] + b;
      ParsePagesAppend(a[1..], b);
    }
  }

  /** Every parsed record is well formed, and printing it back gives a line with the same tokens. */
  lemma ParsedIsWellFormed(line: string)
    requires ParseLine(line).Some?
    ensures WellFormed(ParseLine(line).value)
    ensures Split(FormatLine(ParseLine(line).value)) == Split(line)
  {
    var parts := Split(line);
    var st := ParseLine(line).value;
    var middle := parts[1..|parts| - 1];
    assert st.description == Join(middle, ' ');
    assert Split(st.description) == middle;
    assert parts == [parts[0]] + middle + [parts[|parts| - 1]];
    JoinAppend([parts[0]], middle + [parts[|parts| - 1]], ' ');
    JoinAppend(middle, [parts[|parts| - 1]], ' ');
    assert [parts[0]] + (middle + [parts[|parts| - 1]]) == parts;
    assert Join(parts, ' ') == FormatLine(st);
    SplitJoin(parts);
  }

  /** Printing a well-formed record as a line and parsing that line gives the record back. */
  lemma FormatParse(st: Statement)
    requires WellFormed(st)
    ensures ParseLine(FormatLine(st)) == Some(st)
  {
    var middle := Split(st.description);
    var parts := [st.date] + middle + [st.amount];
    JoinAppend([st.date], middle + [st.amount], ' ');
    JoinAppend(middle, [st.amount], ' ');
    assert [st.date] + (middle + [st.amount]) == parts;
    assert Join(parts, ' ') == FormatLine(st);
    assert AllTokens(parts) by {
      forall i | 0 <= i < |parts| ensures IsToken(parts[i]) {
        if 0 < i < |parts| - 1 {
          assert parts[i] == middle[i - 1];
        }
      }
    }
    SplitJoin(parts);
    assert parts[1..|parts| - 1] == middle;
  }

  /** The inner loop of `parse_pdf`: the records of one page's lines, in line order. */
  method ParsePage(text: string) returns (records: seq<Statement>)
    ensures records == ParseLines(SplitLines(text))
  {
    var lines := SplitLines(text);
    records := [];
    for i := 0 to |lines|
      invariant records == ParseLines(lines[..i])
    {
      var parts := Split(lines[i]);
      LineYieldsAtMostOne(lines[i]);
      ParseLinesAppend(lines[..i], [lines[i]]);
      assert lines[..i + 1] == lines[..i] + [lines[i]];
      if |parts| >= 3 {
        var date, description, amount := parts[0], Join(parts[1..|parts| - 1], ' '), parts[|parts| - 1];
        records := records + [Statement(date, description, amount)];
      }
    }
    assert lines[..|lines|] == lines;
  }

  /** `parse_pdf`: the records of every page, page after page. */
  method ParsePdf(pages: seq<string>) returns (statements: seq<Statement>)
    ensures statements == ParsePages(pages)
  {
    statements := [];
    for p := 0 to |pages|
      invariant statements == ParsePages(pages[..p])
    {
      var records := ParsePage(pages[p]);
      statements := statements + records;
      ParsePagesAppend(pages[..p], [pages[p]]);
      assert pages[..p + 1] == pages[..p] + [pages[p]];
      assert [pages[p]][1..] == [];
    }
    assert pages[..|pages|] == pages;
  }
}
