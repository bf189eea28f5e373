/** The lens-wear log: one calendar date per line, written `DD.MM.YYYY`
    followed by a newline, read back skipping whitespace-only lines. */
module History {
  import opened Numerals
  import opened Text

  datatype Option<+T> = None | Some(value: T)

  datatype CalendarDate = CalendarDate(day: int, month: int, year: int)

  /** Gregorian leap years. */
  predicate IsLeapYear(year: int) {
    year % 4 == 0 && (year % 100 != 0 || year % 400 == 0)
  }

  function DaysInMonth(month: int, year: int): (days: int)
    requires 1 <= month <= 12
    ensures 28 <= days <= 31
    ensures days == 29 <==> month == 2 && IsLeapYear(year)
  {
    if month == 2 then (if IsLeapYear(year) then 29 else 28)
    else if month in {4, 6, 9, 11} then 30
    else 31
  }

  /** A real calendar day whose year has four digits. */
  predicate IsValidDate(d: CalendarDate) {
    1000 <= d.year <= 9999 && 1 <= d.month <= 12 && 1 <= d.day <= DaysInMonth(d.month, d.year)
  }

  type Date = d: CalendarDate | IsValidDate(d) witness CalendarDate(1, 1, 1000)

  function Pow10(w: nat): (p: nat)
    ensures 1 <= p
  {
    if w == 0 then 1 else 10 * Pow10(w - 1)
  }

  /** `n` zero-padded to exactly `w` decimal digits, as `%d`, `%m` and `%Y` print. */
  function FixedDigits(n: nat, w: nat): (r: string)
    requires n < Pow10(w)
    ensures |r| == w && AllDigits(r)
  {
    if w == 0 then [] else FixedDigits(n / 10, w - 1) + [DigitChar(n % 10)]
  }

  /** Fixed-width digits read back as the number they were made from. */
  lemma {:induction false} FixedDigitsReadBack(n: nat, w: nat)
    requires n < Pow10(w)
    ensures ReadDecimal(FixedDigits(n, w)) == n
  {
    if w == 0 {
      assert n == 0;
    } else {
      var r := FixedDigits(n, w);
      assert r[..|r| - 1] == FixedDigits(n / 10, w - 1);
      FixedDigitsReadBack(n / 10, w - 1);
    }
  }

  /** Reading a digit string and writing it back at the same width gives the
      same string: the fixed-width form is the only spelling of its value. */
  lemma {:induction false} ReadDecimalWritesBack(s: string)
    requires AllDigits(s)
    ensures ReadDecimal(s) < Pow10(|s|)
    ensures FixedDigits(ReadDecimal(s), |s|) == s
  {
    if s != [] {
      var init := s[..|s| - 1];
      ReadDecimalWritesBack(init);
      var v := ReadDecimal(s);
      var digit := s[|s| - 1] as int - '0' as int;
      assert v == ReadDecimal(init) * 10 + digit;
      assert v / 10 == ReadDecimal(init) && v % 10 == digit;
      assert s == init + [s[|s| - 1]];
    }
  }

  /** `d.strftime('%d.%m.%Y')`. */
  function FormatDate(d: Date): (r: string)
    ensures |r| == 10 && r[2] == '.' && r[5] == '.'
    ensures AllDigits(r[..2]) && AllDigits(r[3..5]) && AllDigits(r[6..])
  {
    var r := FixedDigits(d.day, 2) + "." + FixedDigits(d.month, 2) + "." + FixedDigits(d.year, 4);
    assert r[..2] == FixedDigits(d.day, 2);
    assert r[3..5] == FixedDigits(d.month, 2);
    assert r[6..] == FixedDigits(d.year, 4);
    r
  }

  /** `datetime.strptime(s, '%d.%m.%Y').date()`, read strictly: two, two and
      four digits separated by dots, naming a real day; anything else fails. */
  function ParseDate(s: string): Option<Date> {
    if |s| == 10 && s[2] == '.' && s[5] == '.'
       && AllDigits(s[..2]) && AllDigits(s[3..5]) && AllDigits(s[6..])
    then
      var d := CalendarDate(ReadDecimal(s[..2]), ReadDecimal(s[3..5]), ReadDecimal(s[6..]));
      if IsValidDate(d) then Some(d) else None
    else None
  }

  /** Parsing a formatted date gives the date back. */
  lemma ParseFormat(d: Date)
    ensures ParseDate(FormatDate(d)) == Some(d)
  {
    var s := FormatDate(d);
    assert s[..2] == FixedDigits(d.day, 2);
    assert s[3..5] == FixedDigits(d.month, 2);
    assert s[6..] == FixedDigits(d.year, 4);
    FixedDigitsReadBack(d.day, 2);
    FixedDigitsReadBack(d.month, 2);
    FixedDigitsReadBack(d.year, 4);
  }

  /** Conversely, a line the parser accepts is exactly the formatted form of
      the date it yields. */
  lemma FormatParse(s: string)
    requires ParseDate(s).Some?
    ensures FormatDate(ParseDate(s).value) == s
  {
    var d := ParseDate(s).value;
    ReadDecimalWritesBack(s[..2]);
    ReadDecimalWritesBack(s[3..5]);
    ReadDecimalWritesBack(s[6..]);
    assert s == s[..2] + "." + s[3..5] + "." + s[6..];
  }

  /** The text `save_history` writes for `dates`: each date formatted and
      followed by a newline, in order. */
  function Serialize(dates: seq<Date>): string {
    if dates == [] then "" else FormatDate(dates[0]) + "\n" + Serialize(dates[1..])
  }

  /** Writing one more date appends exactly its line. */
  lemma {:induction false} SerializeSnoc(dates: seq<Date>, d: Date)
    ensures Serialize(dates + [d]) == Serialize(dates) + FormatDate(d) + "\n"
  {
    if dates == [] {
      assert [] + [d] == [d];
    } else {
      assert (dates + [d])[1..] == dates[1..] + [d];
      SerializeSnoc(dates[1..], d);
    }
  }

  /** The text is empty exactly when there are no dates. */
  lemma SerializeEmpty(dates: seq<Date>)
    ensures Serialize(dates) == "" <==> dates == []
  {
    if dates != [] {
      assert |Serialize(dates)| >= 11;
    }
  }

  /** A line counts as blank when stripping it leaves nothing. */
  predicate IsBlankLine(line: string) {
    Strip(line) == ""
  }

  /** One line of the store: nothing when it is blank, its date when it
      parses after stripping, failure otherwise. */
  function ParseLine(line: string): Option<seq<Date>> {
    if IsBlankLine(line) then Some([])
    else match ParseDate(Strip(line))
      case None => None
      case Some(d) => Some([d])
  }

  /** Both reads succeed, and the results are concatenated; otherwise failure. */
  function JoinParsed(a: Option<seq<Date>>, b: Option<seq<Date>>): Option<seq<Date>> {
    if a.Some? && b.Some? then Some(a.value + b.value) else None
  }

  /** Parses the lines in order, skipping blank ones; a single malformed line
      makes the whole read fail (the exception propagates, nothing is skipped). */
  function ParseLines(lines: seq<string>): (r: Option<seq<Date>>)
    ensures r.Some? ==> |r.value| <= |lines|
  {
    if lines == [] then Some([])
    else JoinParsed(ParseLine(lines[0]), ParseLines(lines[1..]))
  }

  /** The read succeeds exactly when every line is blank or a date. */
  lemma {:induction false} ParseLinesSucceeds(lines: seq<string>)
    ensures ParseLines(lines).Some? <==> forall i :: 0 <= i < |lines| ==> ParseLine(lines[i]).Some?
  {
    if lines != [] {
      ParseLinesSucceeds(lines[1..]);
      assert forall i :: 1 <= i < |lines| ==> lines[i] == lines[1..][i - 1];
    }
  }

  lemma JoinParsedAssociates(x: Option<seq<Date>>, y: Option<seq<Date>>, z: Option<seq<Date>>)
    ensures JoinParsed(x, JoinParsed(y, z)) == JoinParsed(JoinParsed(x, y), z)
  {
    if x.Some? && y.Some? && z.Some? {
      assert x.value + (y.value + z.value) == x.value + y.value + z.value;
    }
  }

  /** Reading a list of lines reads each part and concatenates. */
  lemma {:induction false} ParseLinesAppend(a: seq<string>, b: seq<string>)
    ensures ParseLines(a + b) == JoinParsed(ParseLines(a), ParseLines(b))
  {
    if a == [] {
      assert a + b == b;
      if ParseLines(b).Some? {
        assert [] + ParseLines(b).value == ParseLines(b).value;
      }
    } else {
      var ab := a + b;
      assert ab[0] == a[0] && ab[1..] == a[1..] + b;
      ParseLinesAppend(a[1..], b);
      JoinParsedAssociates(ParseLine(a[0]), ParseLines(a[1..]), ParseLines(b));
    }
  }

  /** `get_history`: the dates on the non-blank lines of the store's text, or
      failure when one of them does not parse. */
  function Load(text: string): Option<seq<Date>> {
    ParseLines(SplitLines(text))
  }

  /** An empty store reads as an empty log. */
  lemma LoadEmpty()
    ensures Load("") == Some([])
  {
    assert SplitLines("") == [""];
    assert Strip("") == "";
  }

  /** A formatted date holds no newline. */
  lemma FormatDateHasNoNewline(d: Date)
    ensures '\n' !in FormatDate(d)
  {
    var line := FormatDate(d);
    assert forall i :: 0 <= i < 10 ==> line[i] == '.' || IsDigit(line[i]) by {
      assert forall i :: 0 <= i < 2 ==> line[..2][i] == line[i];
      assert forall i :: 0 <= i < 2 ==> line[3..5][i] == line[3 + i];
      assert forall i :: 0 <= i < 4 ==> line[6..][i] == line[6 + i];
    }
  }

  /** A formatted date is one line that reads back as that date. */
  lemma FormattedLine(d: Date)
    ensures ParseLine(FormatDate(d)) == Some([d])
  {
    var line := FormatDate(d);
    assert line[..2][0] == line[0];
    assert line[6..][3] == line[9];
    StripKeeps(line);
    ParseFormat(d);
  }

  /** Putting a formatted date's line in front of lines that read as `dates`
      puts the date in front of `dates`. */
  lemma ParseFormattedLineFirst(d: Date, lines: seq<string>, dates: seq<Date>)
    requires ParseLines(lines) == Some(dates)
    ensures ParseLines([FormatDate(d)] + lines) == Some([d] + dates)
  {
    var all := [FormatDate(d)] + lines;
    FormattedLine(d);
    assert all[0] == FormatDate(d) && all[1..] == lines;
  }

  /** The first date of a non-empty log is the first line of its text. */
  lemma SerializeFirstLine(dates: seq<Date>)
    requires dates != []
    ensures SplitLines(Serialize(dates)) == [FormatDate(dates[0])] + SplitLines(Serialize(dates[1..]))
  {
    FormatDateHasNoNewline(dates[0]);
    SplitLinesCons(FormatDate(dates[0]), Serialize(dates[1..]));
  }

  /** The round trip: reading what `save_history` wrote gives back exactly the
      same dates in the same order. */
  lemma {:induction false} LoadSerialize(dates: seq<Date>)
    ensures Load(Serialize(dates)) == Some(dates)
  {
    if dates == [] {
      LoadEmpty();
    } else {
      LoadSerialize(dates[1..]);
      SerializeFirstLine(dates);
      ParseFormattedLineFirst(dates[0], SplitLines(Serialize(dates[1..])), dates[1..]);
      assert [dates[0]] + dates[1..] == dates;
    }
  }

  /** A whitespace-only line at any position among the lines is ignored on
      read: the read is the same as without that line. */
  lemma ParseLinesSkipsBlank(b: seq<string>, blank: string, v: seq<string>)
    requires IsBlankLine(blank)
    ensures ParseLines(b + [blank] + v) == ParseLines(b + v)
  {
    assert ParseLines([blank]) == Some([]) by {
      assert [blank][1..] == [];
    }
    ParseLinesAppend(b + [blank], v);
    ParseLinesAppend(b, [blank]);
    ParseLinesAppend(b, v);
    if ParseLines(b).Some? {
      assert ParseLines(b).value + [] == ParseLines(b).value;
    }
  }

  /** A whitespace-only line between two line breaks is ignored on read. */
  lemma LoadSkipsBlankLine(before: string, blank: string, after: string)
    requires '\n' !in blank && Blank(blank)
    ensures Load(before + "\n" + blank + "\n" + after) == Load(before + "\n" + after)
  {
    var b, v := SplitLines(before), SplitLines(after);
    assert SplitLines(before + "\n" + blank + "\n" + after) == b + [blank] + v by {
      assert before + "\n" + blank + "\n" + after == (before + "\n" + blank) + "\n" + after;
      SplitLinesJoin(before + "\n" + blank, after);
      SplitLinesJoin(before, blank);
      SplitLinesOfLine(blank);
    }
    assert SplitLines(before + "\n" + after) == b + v by {
      SplitLinesJoin(before, after);
    }
    StripEmpty(blank);
    ParseLinesSkipsBlank(b, blank, v);
  }

  /** A whitespace-only first line, and a whitespace-only last line without
      a closing line break, are ignored on read too. */
  lemma LoadSkipsBlankEnds(blank: string, text: string)
    requires '\n' !in blank && Blank(blank)
    ensures Load(blank + "\n" + text) == Load(text)
    ensures Load(text + "\n" + blank) == Load(text)
  {
    var t := SplitLines(text);
    StripEmpty(blank);
    SplitLinesOfLine(blank);
    assert SplitLines(blank + "\n" + text) == [] + [blank] + t by {
      SplitLinesJoin(blank, text);
    }
    ParseLinesSkipsBlank([], blank, t);
    assert [] + t == t;
    assert SplitLines(text + "\n" + blank) == t + [blank] + [] by {
      SplitLinesJoin(text, blank);
    }
    ParseLinesSkipsBlank(t, blank, []);
    assert t + [] == t;
  }
}
