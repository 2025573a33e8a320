/**
 The lines the CSV writer of ffprobe prints, and what a reader by section 2 of RFC 4180 makes of
 them. Lines end in a line feed.
 */
module CsvWriter {

  import opened Common
  import opened ProbeParse
  import opened ProbeTree
  import opened ProbeEscape

  const SEP := ','

  // ----- the reader -----

  /** The inside of a quoted field, through the closing quote. */
  function ParseQuoted(s: string): (r: Parse<string>)
    ensures r.Done? ==> |r.rest| < |s|
    decreases |s|
  {
    if s == [] then Fail
    else if s[0] != '"' then Prepend(s[0], ParseQuoted(s[1..]))
    else if |s| > 1 && s[1] == '"' then Prepend('"', ParseQuoted(s[2..]))
    else Done("", s[1..])
  }

  /** The characters before the first special one. */
  function ParsePlain(s: string): (r: Parse<string>)
    ensures r.Done? && |r.rest| <= |s|
    decreases |s|
  {
    if s == [] || IsSpecial(s[0], SEP) then Done("", s) else Prepend(s[0], ParsePlain(s[1..]))
  }

  function ParseField(s: string): (r: Parse<string>)
    ensures r.Done? ==> |r.rest| <= |s|
  {
    if s != [] && s[0] == '"' then ParseQuoted(s[1..]) else ParsePlain(s)
  }

  /** One field or more, through the line break that a last line may lack. */
  function ParseRecord(s: string): (r: Parse<seq<string>>)
    ensures r.Done? && s != [] ==> |r.rest| < |s|
    decreases |s|
  {
    match ParseField(s)
    case Fail => Fail
    case Done(f, rest) =>
      if rest == [] then Done([f], [])
      else if rest[0] == '\n' then Done([f], rest[1..])
      else if rest[0] != SEP then Fail
      else
        match ParseRecord(rest[1..])
        case Fail => Fail
        case Done(fs, rest') => Done([f] + fs, rest')
  }

  function Read(s: string): Option<seq<seq<string>>>
    decreases |s|
  {
    if s == [] then Some([])
    else
      match ParseRecord(s)
      case Fail => None
      case Done(record, rest) =>
        match Read(rest)
        case None => None
        case Some(records) => Some([record] + records)
  }

  // ----- the text -----

  function FieldValue(f: Field): string {
    if f.IntField? then Decimal(f.n) else f.s
  }

  function FieldText(f: Field): string {
    if f.IntField? then Decimal(f.n) else CsvEscape(f.s, SEP)
  }

  function FieldTexts(fields: seq<Field>): seq<string> {
    seq(|fields|, i requires 0 <= i < |fields| => FieldText(fields[i]))
  }

  function FieldValues(fields: seq<Field>): seq<string> {
    seq(|fields|, i requires 0 <= i < |fields| => FieldValue(fields[i]))
  }

  function Entries(tags: Tags): seq<(string, string)> {
    if tags.NoTags? then [] else tags.entries
  }

  /** Tags are printed by their values, each after the separator when a field was printed. */
  function TagsText(entries: seq<(string, string)>, sep: string): string {
    if entries == [] then ""
    else TagsText(entries[..|entries| - 1], sep) + sep + CsvEscape(entries[|entries| - 1].1, SEP)
  }

  function TagValues(entries: seq<(string, string)>): seq<string> {
    seq(|entries|, i requires 0 <= i < |entries| => entries[i].1)
  }

  function TagSeparator(fields: seq<Field>): string {
    if fields == [] then "" else ","
  }

  function RowText(sec: Section): string {
    sec.name + "," + Join(FieldTexts(sec.fields), ",") + TagsText(Entries(sec.tags), TagSeparator(sec.fields)) + "\n"
  }

  function CsvText(sections: seq<Section>): string {
    if sections == [] then ""
    else CsvText(sections[..|sections| - 1]) + RowText(sections[|sections| - 1])
  }

  // ----- the values -----

  function Row(sec: Section): seq<string> {
    [sec.name] + FieldValues(sec.fields) + TagValues(Entries(sec.tags))
  }

  function Rows(sections: seq<Section>): seq<seq<string>> {
    seq(|sections|, i requires 0 <= i < |sections| => Row(sections[i]))
  }

  /** A row is the name of its section, the value of every field, optional or not, in order, and of
      every tag. */
  lemma RowTells(sec: Section)
    ensures var row, n := Row(sec), |sec.fields|;
      && |row| == 1 + n + (if sec.tags.NoTags? then 0 else |sec.tags.entries|) && row[0] == sec.name
      && (forall i :: 0 <= i < n ==>
            row[1 + i] == match sec.fields[i]
                          case IntField(_, k) => Decimal(k)
                          case StrField(_, s) => s
                          case OptField(_, s) => s)
      && (sec.tags.Tags? ==> forall i :: 0 <= i < |sec.tags.entries| ==> row[1 + n + i] == sec.tags.entries[i].1)
  {
  }

  /** The separator after the section name counts on a first value, and the one before a tag on a
      field. */
  predicate RowSound(sec: Section) {
    sec.fields != [] || |Entries(sec.tags)| == 1
  }

  /** Section names are printed as they are; those of ffprobe need no quotes. */
  predicate PlainName(name: string) {
    !NeedsQuotes(name, SEP)
  }

  // ----- one field -----

  function EscapedField(s: string): string {
    CsvEscape(s, SEP)
  }

  predicate Ends(rest: string) {
    rest != [] && (rest[0] == SEP || rest[0] == '\n')
  }

  lemma PlainPart(s: string, i: nat, j: nat)
    requires !NeedsQuotes(s, SEP) && i <= j <= |s|
    ensures !NeedsQuotes(s[i..j], SEP)
    ensures i < j ==> !IsSpecial(s[i], SEP)
  {
    hide IsSpecial;
    var part := s[i..j];
    forall k | 0 <= k < |part| ensures !IsSpecial(part[k], SEP) {
      assert part[k] == s[i + k];
    }
  }

  lemma {:induction false} NothingDoubled(s: string)
    requires !NeedsQuotes(s, SEP)
    ensures DoubleQuotes(s) == s
  {
    hide DoubleQuotes, NeedsQuotes;
    if s == [] {
      DoubleQuotesNil();
    } else {
      var init, last := s[..|s| - 1], s[|s| - 1];
      PlainPart(s, 0, |s| - 1);
      PlainPart(s, |s| - 1, |s|);
      NothingDoubled(init);
      DoubleQuotesSnoc(init, last);
      assert s == init + [last];
    }
  }

  lemma EscapedQuoted(s: string)
    requires NeedsQuotes(s, SEP)
    ensures EscapedField(s) == "\"" + DoubleQuotes(s) + "\""
  {
  }

  lemma EscapedPlain(s: string)
    requires !NeedsQuotes(s, SEP)
    ensures EscapedField(s) == s
  {
    NothingDoubled(s);
  }

  lemma {:induction false} PlainRun(s: string, rest: string)
    requires !NeedsQuotes(s, SEP)
    ensures ParsePlain(s + rest) == Done(s + ParsePlain(rest).value, ParsePlain(rest).rest)
    decreases |s|
  {
    if s == [] {
      assert s + rest == rest;
      assert s + ParsePlain(rest).value == ParsePlain(rest).value;
    } else {
      PlainPart(s, 0, 1);
      PlainPart(s, 1, |s|);
      assert (s + rest)[1..] == s[1..] + rest;
      PlainRun(s[1..], rest);
      assert s + ParsePlain(rest).value == [s[0]] + (s[1..] + ParsePlain(rest).value);
    }
  }

  function PrependAll(s: string, p: Parse<string>): Parse<string> {
    match p
    case Fail => Fail
    case Done(t, rest) => Done(s + t, rest)
  }

  lemma QuotedChar(c: char, rest: string)
    ensures ParseQuoted(DoubleChar(c) + rest) == Prepend(c, ParseQuoted(rest))
  {
    var s := DoubleChar(c) + rest;
    if c == '"' {
      assert s[2..] == rest;
    } else {
      assert s[1..] == rest;
    }
  }

  lemma {:induction false} QuotedRun(s: string, rest: string)
    ensures ParseQuoted(DoubleQuotes(s) + rest) == PrependAll(s, ParseQuoted(rest))
    decreases |s|
  {
    hide DoubleQuotes, ParseQuoted, DoubleChar;
    if s == [] {
      DoubleQuotesNil();
      assert DoubleQuotes(s) + rest == rest;
    } else {
      assert s == [s[0]] + s[1..];
      DoubleQuotesCons(s[0], s[1..]);
      var t := DoubleQuotes(s[1..]) + rest;
      assert DoubleQuotes(s) + rest == DoubleChar(s[0]) + t;
      QuotedChar(s[0], t);
      QuotedRun(s[1..], rest);
    }
    match ParseQuoted(rest)
    case Fail =>
    case Done(t, _) => assert s + t == if s == [] then t else [s[0]] + (s[1..] + t);
  }

  lemma QuoteCloses(rest: string)
    requires rest == [] || rest[0] != '"'
    ensures ParseQuoted("\"" + rest) == Done("", rest)
  {
    assert ("\"" + rest)[1..] == rest;
  }

  /** An escaped field is read back whatever it holds. */
  lemma FieldRoundTrip(s: string, rest: string)
    requires Ends(rest)
    ensures ParseField(EscapedField(s) + rest) == Done(s, rest)
  {
    hide DoubleQuotes, ParseQuoted, NeedsQuotes;
    assert s + "" == s;
    if NeedsQuotes(s, SEP) {
      var t := EscapedField(s) + rest;
      assert t[1..] == DoubleQuotes(s) + ("\"" + rest);
      QuotedRun(s, "\"" + rest);
      QuoteCloses(rest);
    } else {
      NothingDoubled(s);
      PlainRun(s, rest);
      assert EscapedField(s) + rest == s + rest;
      assert ParsePlain(rest) == Done("", rest);
      if s != [] {
        PlainStart(s);
      }
    }
  }

  lemma PlainStart(s: string)
    requires !NeedsQuotes(s, SEP) && s != []
    ensures !IsSpecial(s[0], SEP)
  {
  }

  // ----- a record of fields -----

  function Escaped(values: seq<string>): seq<string> {
    seq(|values|, i requires 0 <= i < |values| => EscapedField(values[i]))
  }

  lemma {:induction false} RecordRoundTrip(values: seq<string>, rest: string)
    requires values != []
    ensures ParseRecord(Join(Escaped(values), ",") + "\n" + rest) == Done(values, rest)
    decreases |values|
  {
    hide Join, EscapedField, ParseField;
    var first, others := values[0], values[1..];
    if others == [] {
      assert Escaped(values) == [EscapedField(first)];
      JoinOne(EscapedField(first), ",");
      var tail := "\n" + rest;
      assert Join(Escaped(values), ",") + "\n" + rest == EscapedField(first) + tail;
      FieldRoundTrip(first, tail);
      assert tail[1..] == rest && values == [first];
    } else {
      assert Escaped(values) == [EscapedField(first)] + Escaped(others);
      JoinCons(EscapedField(first), Escaped(others), ",");
      var more := Join(Escaped(others), ",") + "\n" + rest;
      var tail := "," + more;
      assert Join(Escaped(values), ",") + "\n" + rest == EscapedField(first) + tail;
      FieldRoundTrip(first, tail);
      assert tail[1..] == more && values == [first] + others;
      RecordRoundTrip(others, rest);
    }
  }

  // ----- a row with its separators in place -----

  lemma {:induction false} DigitsPlain(n: nat)
    ensures !NeedsQuotes(Digits(n), SEP)
  {
    if n >= 10 {
      DigitsPlain(n / 10);
      CsvPrefix(Digits(n), SEP, |Digits(n / 10)|);
      assert Digits(n)[..|Digits(n / 10)|] == Digits(n / 10);
      assert Digits(n)[..|Digits(n / 10)| + 1] == Digits(n);
    }
  }

  lemma DecimalPlain(n: int)
    ensures EscapedField(Decimal(n)) == Decimal(n)
  {
    hide DoubleQuotes, Digits;
    if n < 0 {
      DigitsPlain(-n);
      assert !NeedsQuotes(Decimal(n), SEP) by {
        forall i | 0 <= i < |Decimal(n)| ensures !IsSpecial(Decimal(n)[i], SEP) {
          if i > 0 { assert Decimal(n)[i] == Digits(-n)[i - 1]; }
        }
      }
    } else {
      DigitsPlain(n);
    }
    NothingDoubled(Decimal(n));
  }

  lemma FieldTextsEscaped(fields: seq<Field>)
    ensures FieldTexts(fields) == Escaped(FieldValues(fields))
  {
    forall i | 0 <= i < |fields| ensures FieldTexts(fields)[i] == Escaped(FieldValues(fields))[i] {
      if fields[i].IntField? { DecimalPlain(fields[i].n); }
    }
  }

  lemma {:induction false} TagsJoin(values: seq<string>, entries: seq<(string, string)>)
    requires values != []
    ensures Join(Escaped(values), ",") + TagsText(entries, ",") == Join(Escaped(values + TagValues(entries)), ",")
    decreases |entries|
  {
    hide Join, EscapedField, TagsText;
    if entries == [] {
      assert values + TagValues(entries) == values;
      TagsNone(",");
    } else {
      var init, last := entries[..|entries| - 1], entries[|entries| - 1];
      TagsJoin(values, init);
      TagsSnoc(init, last, ",");
      assert init + [last] == entries;
      var before := Escaped(values + TagValues(init));
      assert Escaped(values + TagValues(entries)) == before + [EscapedField(last.1)];
      JoinSnoc(before, EscapedField(last.1), ",");
      assert Join(before, ",") + "," + EscapedField(last.1)
          == Join(Escaped(values), ",") + (TagsText(init, ",") + "," + EscapedField(last.1));
    }
  }

  lemma TagsNone(sep: string)
    ensures TagsText([], sep) == ""
  {
  }

  lemma TagsSnoc(entries: seq<(string, string)>, last: (string, string), sep: string)
    ensures TagsText(entries + [last], sep) == TagsText(entries, sep) + sep + EscapedField(last.1)
  {
    assert (entries + [last])[..|entries|] == entries;
  }

  lemma SoundRowText(sec: Section)
    requires RowSound(sec) && PlainName(sec.name)
    ensures RowText(sec) == Join(Escaped(Row(sec)), ",") + "\n"
  {
    hide Join, EscapedField, NeedsQuotes, TagsText;
    var name, values, entries := sec.name, FieldValues(sec.fields), Entries(sec.tags);
    EscapedPlain(name);
    FieldTextsEscaped(sec.fields);
    var cells := values + TagValues(entries);
    if sec.fields == [] {
      JoinNone(",");
      TagsNone("");
      TagsSnoc([], entries[0], "");
      assert entries == [] + [entries[0]];
      assert FieldTexts(sec.fields) == [];
      assert cells == [entries[0].1];
      assert Escaped(cells) == [EscapedField(entries[0].1)];
      JoinOne(EscapedField(entries[0].1), ",");
    } else {
      TagsJoin(values, entries);
    }
    assert Escaped(Row(sec)) == [EscapedField(name)] + Escaped(cells);
    JoinCons(EscapedField(name), Escaped(cells), ",");
  }

  lemma SoundRowReads(sec: Section, rest: string)
    requires RowSound(sec) && PlainName(sec.name)
    ensures ParseRecord(RowText(sec) + rest) == Done(Row(sec), rest)
  {
    hide Join, ParseRecord;
    SoundRowText(sec);
    RecordRoundTrip(Row(sec), rest);
  }

  // ----- a row without -----

  /** A row that prints no value ends in an empty one. */
  lemma EmptyRowReads(sec: Section, rest: string)
    requires sec.fields == [] && Entries(sec.tags) == [] && PlainName(sec.name)
    ensures ParseRecord(RowText(sec) + rest) == Done([sec.name, ""], rest)
  {
    hide Join, ParseRecord, DoubleQuotes, NeedsQuotes;
    var values := [sec.name, ""];
    NothingDoubled(sec.name);
    DoubleQuotesNil();
    NoQuotesNil(SEP);
    assert Escaped(values) == [EscapedField(sec.name)] + [""];
    JoinCons(EscapedField(sec.name), [""], ",");
    JoinOne("", ",");
    assert FieldTexts(sec.fields) == [];
    JoinNone(",");
    assert RowText(sec) == Join(Escaped(values), ",") + "\n";
    RecordRoundTrip(values, rest);
  }

  /** Escaped fields with nothing between them. */
  function Glue(values: seq<string>): string {
    if values == [] then "" else EscapedField(values[0]) + Glue(values[1..])
  }

  /** What may follow the one field that reading glued fields gives. */
  predicate Stuck(p: Parse<string>, after: string) {
    p.Fail? || p.rest == after || (p.rest != [] && p.rest[0] != SEP && p.rest[0] != '\n')
  }

  /** Glued fields are read as one field, or break the record off. */
  lemma {:induction false} GluedPlain(values: seq<string>, after: string)
    requires Ends(after)
    ensures Stuck(ParsePlain(Glue(values) + after), after)
    decreases |values|
  {
    hide NeedsQuotes, DoubleQuotes;
    if values == [] {
      assert Glue(values) + after == after;
    } else {
      var more := Glue(values[1..]) + after;
      assert Glue(values) + after == EscapedField(values[0]) + more;
      if NeedsQuotes(values[0], SEP) {
        assert (Glue(values) + after)[0] == '"';
      } else {
        NothingDoubled(values[0]);
        assert EscapedField(values[0]) == values[0];
        PlainRun(values[0], more);
        GluedPlain(values[1..], after);
      }
    }
  }

  /** A quoted field, its opening quote read, with others glued to it. */
  lemma QuotedThen(s: string, more: string, after: string)
    requires Stuck(ParseQuoted("\"" + more), after)
    ensures Stuck(ParseQuoted(DoubleQuotes(s) + "\"" + more), after)
  {
    hide ParseQuoted, DoubleQuotes;
    assert DoubleQuotes(s) + "\"" + more == DoubleQuotes(s) + ("\"" + more);
    QuotedRun(s, "\"" + more);
  }

  lemma QuoteThenQuoted(s: string, more: string, after: string)
    requires Stuck(ParseQuoted("\"" + more), after)
    ensures Stuck(ParseQuoted("\"" + ("\"" + DoubleQuotes(s) + "\"" + more)), after)
  {
    hide ParseQuoted, DoubleQuotes;
    QuotedThen(s, more, after);
    assert "\"" + ("\"" + DoubleQuotes(s) + "\"" + more) == DoubleChar('"') + (DoubleQuotes(s) + "\"" + more);
    QuotedChar('"', DoubleQuotes(s) + "\"" + more);
  }

  /** A closing quote that other fields are glued to. */
  lemma {:induction false} GluedClose(values: seq<string>, after: string)
    requires Ends(after)
    ensures Stuck(ParseQuoted("\"" + (Glue(values) + after)), after)
    decreases |values|
  {
    hide NeedsQuotes, DoubleQuotes, ParseQuoted, EscapedField, IsSpecial;
    if values == [] {
      assert "\"" + (Glue(values) + after) == "\"" + after;
      QuoteCloses(after);
    } else {
      var first, more := values[0], Glue(values[1..]) + after;
      GluedClose(values[1..], after);
      if NeedsQuotes(first, SEP) {
        EscapedQuoted(first);
        assert Glue(values) + after == "\"" + DoubleQuotes(first) + "\"" + more;
        QuoteThenQuoted(first, more, after);
      } else {
        EscapedPlain(first);
        assert Glue(values) + after == first + more;
        if first == [] {
          assert first + more == more;
        } else {
          PlainClose(first, more, after);
        }
      }
    }
  }

  lemma PlainClose(s: string, more: string, after: string)
    requires !NeedsQuotes(s, SEP) && s != []
    ensures Stuck(ParseQuoted("\"" + (s + more)), after)
  {
    hide NeedsQuotes, ParseQuoted;
    PlainStart(s);
    assert (s + more)[0] == s[0];
    QuoteCloses(s + more);
  }

  lemma FieldOfQuoted(t: string)
    ensures ParseField("\"" + t) == ParseQuoted(t)
  {
    hide ParseQuoted;
    assert ("\"" + t)[1..] == t;
  }

  lemma FieldOfPlain(s: string, more: string)
    requires !NeedsQuotes(s, SEP) && s != []
    ensures ParseField(s + more) == ParsePlain(s + more)
  {
    hide ParseQuoted, ParsePlain, NeedsQuotes;
    PlainStart(s);
  }

  lemma GlueParts(values: seq<string>, after: string)
    requires values != []
    ensures var more := Glue(values[1..]) + after;
      Glue(values) + after == if NeedsQuotes(values[0], SEP) then "\"" + (DoubleQuotes(values[0]) + "\"" + more)
                              else values[0] + more
  {
    hide NeedsQuotes, DoubleQuotes, EscapedField;
    if NeedsQuotes(values[0], SEP) {
      EscapedQuoted(values[0]);
    } else {
      EscapedPlain(values[0]);
    }
  }

  lemma {:induction false} GluedField(values: seq<string>, after: string)
    requires Ends(after)
    ensures Stuck(ParseField(Glue(values) + after), after)
    decreases |values|
  {
    hide NeedsQuotes, DoubleQuotes, ParseQuoted, ParsePlain, ParseField, EscapedField, Stuck, IsSpecial, Glue;
    if values == [] {
      GlueNil();
      assert Glue(values) + after == after;
      FieldOfEnd(after);
    } else {
      var first, more := values[0], Glue(values[1..]) + after;
      GlueParts(values, after);
      if NeedsQuotes(first, SEP) {
        FieldOfQuoted(DoubleQuotes(first) + "\"" + more);
        GluedClose(values[1..], after);
        QuotedThen(first, more, after);
      } else {
        if first == [] {
          assert first + more == more;
          GluedField(values[1..], after);
        } else {
          FieldOfPlain(first, more);
          GluedPlain(values, after);
        }
      }
    }
  }

  lemma GlueNil()
    ensures Glue([]) == ""
  {
  }

  lemma FieldOfEnd(after: string)
    requires Ends(after)
    ensures Stuck(ParseField(after), after)
  {
  }

  /** Tags printed without a separator are glued. */
  lemma {:induction false} TagsGlue(entries: seq<(string, string)>)
    ensures TagsText(entries, "") == Glue(TagValues(entries))
    decreases |entries|
  {
    hide TagsText, EscapedField;
    if entries == [] {
      TagsNone("");
    } else {
      var init, last := entries[..|entries| - 1], entries[|entries| - 1];
      TagsGlue(init);
      TagsSnoc(init, last, "");
      assert init + [last] == entries;
      GlueSnoc(TagValues(init), last.1);
      assert TagValues(entries) == TagValues(init) + [last.1];
    }
  }

  lemma {:induction false} GlueSnoc(values: seq<string>, last: string)
    ensures Glue(values + [last]) == Glue(values) + EscapedField(last)
    decreases |values|
  {
    hide EscapedField;
    if values == [] {
      assert values + [last] == [last];
      assert Glue([last][1..]) == "";
    } else {
      assert (values + [last])[1..] == values[1..] + [last];
      GlueSnoc(values[1..], last);
    }
  }

  // ----- every row -----

  /** The record is broken off, or ends where the row ends. */
  predicate Aligned(p: Parse<seq<string>>, rest: string) {
    p.Fail? || p.rest == rest
  }

  lemma UnsoundRowReads(sec: Section, rest: string)
    requires !RowSound(sec) && PlainName(sec.name)
    ensures var p := ParseRecord(RowText(sec) + rest); Aligned(p, rest) && (p.Done? ==> p.value != Row(sec))
  {
    hide Join, ParseField, NeedsQuotes, DoubleQuotes, TagsText, Glue;
    var entries := Entries(sec.tags);
    if entries == [] {
      EmptyRowReads(sec, rest);
    } else {
      var values, after := TagValues(entries), "\n" + rest;
      TagsGlue(entries);
      assert FieldTexts(sec.fields) == [];
      JoinNone(",");
      var more := Glue(values) + after;
      var tail := "," + more;
      NothingDoubled(sec.name);
      assert RowText(sec) + rest == EscapedField(sec.name) + tail;
      FieldRoundTrip(sec.name, tail);
      assert tail[1..] == more;
      GluedField(values, after);
      assert after[1..] == rest;
      assert |Row(sec)| > 2;
    }
  }

  lemma RowReads(sec: Section, rest: string)
    requires PlainName(sec.name)
    ensures var p := ParseRecord(RowText(sec) + rest);
      Aligned(p, rest) && (RowSound(sec) <==> p == Done(Row(sec), rest))
  {
    hide ParseRecord, RowText, Row;
    if RowSound(sec) {
      SoundRowReads(sec, rest);
    } else {
      UnsoundRowReads(sec, rest);
    }
  }

  predicate PlainNames(sections: seq<Section>) {
    forall i :: 0 <= i < |sections| ==> PlainName(sections[i].name)
  }

  predicate RowsSound(sections: seq<Section>) {
    forall i :: 0 <= i < |sections| ==> RowSound(sections[i])
  }

  lemma {:induction false} CsvTextCons(sec: Section, sections: seq<Section>)
    ensures CsvText([sec] + sections) == RowText(sec) + CsvText(sections)
    decreases |sections|
  {
    hide RowText;
    if sections == [] {
      assert [sec] + sections == [] + [sec];
      assert ([sec] + sections)[..0] == [];
    } else {
      var init, last := sections[..|sections| - 1], sections[|sections| - 1];
      assert ([sec] + sections)[..|sections|] == [sec] + init;
      CsvTextCons(sec, init);
    }
  }

  /**
   The printed lines parse to the section names and the values, whatever the values hold, exactly
   when every section prints a field, or no field and one tag.
   */
  lemma {:induction false} CsvRoundTrip(sections: seq<Section>)
    requires PlainNames(sections)
    ensures Read(CsvText(sections)) == Some(Rows(sections)) <==> RowsSound(sections)
    decreases |sections|
  {
    hide CsvText, RowText, Row, ParseRecord, PlainName, RowSound;
    if sections == [] {
      CsvTextNil();
      assert Rows(sections) == [];
    } else {
      var sec, others := sections[0], sections[1..];
      assert sections == [sec] + others;
      CsvTextCons(sec, others);
      RowReads(sec, CsvText(others));
      RowNotEmpty(sec);
      CsvRoundTrip(others);
      assert Rows(sections) == [Row(sec)] + Rows(others);
      RowsSoundSplits(sections);
      match Read(CsvText(others))
      case None =>
      case Some(rows) =>
        forall row: seq<string> ensures [row] + rows == Rows(sections) <==> row == Row(sec) && rows == Rows(others) {
          assert ([row] + rows)[0] == row && ([row] + rows)[1..] == rows;
          assert Rows(sections)[0] == Row(sec) && Rows(sections)[1..] == Rows(others);
        }
    }
  }

  lemma CsvTextNil()
    ensures CsvText([]) == ""
  {
  }

  lemma RowNotEmpty(sec: Section)
    ensures RowText(sec) != ""
  {
    hide Join, TagsText;
  }

  lemma RowsSoundSplits(sections: seq<Section>)
    requires sections != []
    ensures RowsSound(sections) <==> RowSound(sections[0]) && RowsSound(sections[1..])
  {
    hide RowSound;
    var others := sections[1..];
    if RowSound(sections[0]) && RowsSound(others) {
      forall i | 0 <= i < |sections| ensures RowSound(sections[i]) {
        if i > 0 { assert sections[i] == others[i - 1]; }
      }
    }
    if RowsSound(sections) {
      forall i | 0 <= i < |others| ensures RowSound(others[i]) {
        assert others[i] == sections[i + 1];
      }
    }
  }
}
