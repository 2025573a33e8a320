/**
 The text the JSON writer of ffprobe prints, and what a reader by RFC 8259 makes of it.
 */
module JsonWriter {

  import opened JsonReader
  import opened Common
  import opened ProbeParse
  import opened ProbeTree
  import opened ProbeEscape

  // ----- the text -----

  function JsonString(s: string): string {
    "\"" + JsonEscape(s) + "\""
  }

  function MemberText(indent: string, key: string, value: string): string {
    indent + JsonString(key) + ": " + value
  }

  const INDENT := "    "
  const INDENT2 := "        "

  function FieldText(f: Field): string {
    MemberText(INDENT, f.key, if f.IntField? then Decimal(f.n) else JsonString(f.s))
  }

  /** The JSON writer does not display optional fields. */
  function Shown(fields: seq<Field>): seq<Field> {
    if fields == [] then []
    else Shown(fields[..|fields| - 1]) + if fields[|fields| - 1].OptField? then [] else [fields[|fields| - 1]]
  }

  /** What is shown of two lists is shown of one after the other, and of one field all but an optional
      string. */
  lemma {:induction false} ShownParts(a: seq<Field>, b: seq<Field>)
    ensures Shown(a + b) == Shown(a) + Shown(b)
    ensures |a| == 1 ==> Shown(a) == if a[0].IntField? || a[0].StrField? then a else []
    decreases |b|
  {
    if b == [] {
      assert a + b == a;
    } else {
      assert (a + b)[..|a + b| - 1] == a + b[..|b| - 1];
      ShownParts(a, b[..|b| - 1]);
    }
  }

  function FieldTexts(fields: seq<Field>): seq<string> {
    seq(|fields|, i requires 0 <= i < |fields| => FieldText(fields[i]))
  }

  function TagText(tag: (string, string)): string {
    MemberText(INDENT2, tag.0, JsonString(tag.1))
  }

  function TagTexts(tags: seq<(string, string)>): seq<string> {
    seq(|tags|, i requires 0 <= i < |tags| => TagText(tags[i]))
  }

  function TagsObject(entries: seq<(string, string)>): string {
    "{\n" + Join(TagTexts(entries), ",\n") + "\n    }"
  }

  function TagsText(tags: Tags): string {
    match tags
    case NoTags => ""
    case Tags(entries) => ",\n" + MemberText(INDENT, "tags", TagsObject(entries))
  }

  function SectionText(sec: Section): string {
    "{\n" + Join(FieldTexts(Shown(sec.fields)), ",\n") + TagsText(sec.tags) + "\n  }"
  }

  function SectionTexts(sections: seq<Section>): seq<string> {
    seq(|sections|, i requires 0 <= i < |sections| => SectionText(sections[i]))
  }

  predicate MultipleEntries(chapter: string) {
    chapter == "packets" || chapter == "streams"
  }

  function ChapterText(c: Chapter): string {
    "\n  " + JsonString(c.name) + ":" + (if MultipleEntries(c.name) then " [" else " ")
    + Join(SectionTexts(c.sections), ",") + if MultipleEntries(c.name) then "]" else ""
  }

  function ChapterTexts(doc: seq<Chapter>): seq<string> {
    seq(|doc|, i requires 0 <= i < |doc| => ChapterText(doc[i]))
  }

  function JsonText(doc: seq<Chapter>): string {
    "{" + Join(ChapterTexts(doc), ",") + "\n}\n"
  }

  // ----- the tree -----

  function FieldTree(f: Field): (string, Json) {
    (f.key, if f.IntField? then Int(f.n) else Str(f.s))
  }

  function FieldTrees(fields: seq<Field>): seq<(string, Json)> {
    seq(|fields|, i requires 0 <= i < |fields| => FieldTree(fields[i]))
  }

  function TagTree(tag: (string, string)): (string, Json) {
    (tag.0, Str(tag.1))
  }

  function TagTrees(tags: seq<(string, string)>): seq<(string, Json)> {
    seq(|tags|, i requires 0 <= i < |tags| => TagTree(tags[i]))
  }

  function TagsTree(tags: Tags): seq<(string, Json)> {
    match tags
    case NoTags => []
    case Tags(entries) => [("tags", Obj(TagTrees(entries)))]
  }

  function SectionTree(sec: Section): Json {
    Obj(FieldTrees(Shown(sec.fields)) + TagsTree(sec.tags))
  }

  function SectionTrees(sections: seq<Section>): seq<Json> {
    seq(|sections|, i requires 0 <= i < |sections| => SectionTree(sections[i]))
  }

  /** A comma goes out before the tags whether or not a field went before. */
  predicate SectionSound(sec: Section) {
    Shown(sec.fields) != [] || sec.tags.NoTags?
  }

  predicate SectionsSound(sections: seq<Section>) {
    forall i :: 0 <= i < |sections| ==> SectionSound(sections[i])
  }

  /** A chapter that is not a list holds one section. */
  predicate ChapterSound(c: Chapter) {
    (MultipleEntries(c.name) || |c.sections| == 1) && SectionsSound(c.sections)
  }

  function ChapterTree(c: Chapter): (string, Json)
    requires ChapterSound(c)
  {
    (c.name, if MultipleEntries(c.name) then Arr(SectionTrees(c.sections)) else SectionTree(c.sections[0]))
  }

  predicate Sound(doc: seq<Chapter>) {
    forall i :: 0 <= i < |doc| ==> ChapterSound(doc[i])
  }

  function Trees(doc: seq<Chapter>): seq<(string, Json)>
    requires Sound(doc)
  {
    seq(|doc|, i requires 0 <= i < |doc| => ChapterTree(doc[i]))
  }

  // ----- strings -----

  lemma HexRoundTrip(d: nat)
    requires d < 16
    ensures Hex(HexChar(d)) == Some(d)
  {
  }

  /** Reading the escape of a control character gives it back. */
  lemma ControlRoundTrip(c: char, rest: string)
    requires c < 32 as char
    ensures ParseUnicode("00" + [HexChar(c as int / 16), HexChar(c as int % 16)] + rest) == Done(c, rest)
  {
    var a, b := c as int / 16, c as int % 16;
    HexRoundTrip(a);
    HexRoundTrip(b);
    var s := "00" + [HexChar(a), HexChar(b)] + rest;
    assert s[4..] == rest;
    assert ParseHex4(s) == Done(16 * a + b, rest);
  }

  lemma CharRoundTrip(c: char, rest: string)
    ensures ParseChars(EscapeChar(c) + rest) == Prepend(c, ParseChars(rest))
  {
    var s := EscapeChar(c) + rest;
    if Subst(c) != "" {
      assert s[1..] == Subst(c) + rest;
      assert s[1..][1..] == rest;
      assert ParseEscape(s[1..]) == Done(c, rest);
    } else if c < 32 as char {
      var hex := "00" + [HexChar(c as int / 16), HexChar(c as int % 16)];
      assert s[1..][1..] == hex + rest;
      ControlRoundTrip(c, rest);
      assert ParseEscape(s[1..]) == Done(c, rest);
    } else {
      assert s[1..] == rest;
    }
  }

  lemma {:induction false} StringRoundTrip(s: string, rest: string)
    ensures ParseChars(JsonEscape(s) + "\"" + rest) == Done(s, rest)
    decreases |s|
  {
    hide JsonEscape, EscapeChar, ParseChars;
    if s == [] {
      JsonEscapeNil();
      assert JsonEscape(s) + "\"" + rest == "\"" + rest;
      CharsEnd(rest);
    } else {
      assert s == [s[0]] + s[1..];
      JsonEscapeCons(s[0], s[1..]);
      var t := JsonEscape(s[1..]) + "\"" + rest;
      assert JsonEscape(s) + "\"" + rest == EscapeChar(s[0]) + t;
      CharRoundTrip(s[0], t);
      StringRoundTrip(s[1..], rest);
    }
  }

  lemma CharsEnd(rest: string)
    ensures ParseChars("\"" + rest) == Done("", rest)
  {
    assert ("\"" + rest)[1..] == rest;
  }

  // ----- integers -----

  predicate AllDigits(s: string) {
    forall i :: 0 <= i < |s| ==> IsDigit(s[i])
  }

  lemma ValueSnoc(s: string, c: char)
    requires AllDigits(s) && IsDigit(c)
    ensures AllDigits(s + [c]) && Value(s + [c]) == 10 * Value(s) + Digit(c)
  {
    assert (s + [c])[..|s|] == s;
  }

  lemma {:induction false} DigitsRoundTrip(n: nat)
    ensures AllDigits(Digits(n)) && Digits(n) != [] && Value(Digits(n)) == n
    ensures n > 0 ==> Digits(n)[0] != '0'
  {
    hide Value;
    if n < 10 {
      ValueSnoc([], DigitChar(n));
      assert Digits(n) == [] + [DigitChar(n)];
      ValueNil();
    } else {
      DigitsRoundTrip(n / 10);
      ValueSnoc(Digits(n / 10), DigitChar(n % 10));
    }
  }

  lemma ValueNil()
    ensures Value([]) == 0
  {
  }

  /** What may follow a number: nothing that could belong to it. */
  predicate Delimited(rest: string) {
    rest == [] || !(IsDigit(rest[0]) || rest[0] in ".eE")
  }

  lemma {:induction false} TakeDigitsAll(s: string, rest: string)
    requires AllDigits(s) && Delimited(rest)
    ensures TakeDigits(s + rest) == s
    decreases |s|
  {
    if s == [] {
      assert s + rest == rest;
    } else {
      assert (s + rest)[1..] == s[1..] + rest;
      TakeDigitsAll(s[1..], rest);
    }
  }

  lemma UnsignedRoundTrip(n: nat, negative: bool, v: int, rest: string)
    requires Delimited(rest)
    requires v == if negative then 0 - n else n
    ensures ParseUnsigned(Digits(n) + rest, negative) == Done(Int(v), rest)
  {
    var s := Digits(n) + rest;
    DigitsRoundTrip(n);
    TakeDigitsAll(Digits(n), rest);
    if n == 0 {
      assert Digits(n) == "0";
    }
    assert TakeInteger(s) == Digits(n);
    assert s[|Digits(n)|..] == rest;
    assert rest[0..] == rest;
    assert TailLength(rest) == Some(0);
  }

  lemma NumberToken(s: string)
    requires s != [] && (IsDigit(s[0]) || s[0] == '-')
    ensures ParseValue(s) == ParseNumber(s)
  {
    hide ParseNumber;
    assert SkipWs(s) == s;
  }

  lemma IntegerRoundTrip(n: int, rest: string)
    requires Delimited(rest)
    ensures ParseValue(Decimal(n) + rest) == Done(Int(n), rest)
  {
    hide Digits, ParseUnsigned, ParseValue;
    var s := Decimal(n) + rest;
    if n < 0 {
      assert s[1..] == Digits(-n) + rest;
      UnsignedRoundTrip(-n, true, n, rest);
    } else {
      DigitsRoundTrip(n);
      UnsignedRoundTrip(n, false, n, rest);
    }
    NumberToken(s);
  }

  // ----- members -----

  predicate AllWs(s: string) {
    forall i :: 0 <= i < |s| ==> IsWs(s[i])
  }

  lemma {:induction false} SkipIndent(ws: string, s: string)
    requires AllWs(ws)
    ensures SkipWs(ws + s) == SkipWs(s)
    decreases |ws|
  {
    if ws == [] {
      assert ws + s == s;
    } else {
      assert (ws + s)[1..] == ws[1..] + s;
      SkipIndent(ws[1..], s);
    }
  }

  /** A member is read wherever its text stands, and its value decides. */
  lemma MemberReads(indent: string, key: string, value: string, rest: string)
    requires AllWs(indent)
    ensures ParseMember(MemberText(indent, key, value) + rest)
            == match ParseValue(value + rest)
               case Fail => Fail
               case Done(v, t) => Done((key, v), t)
  {
    hide JsonEscape, ParseChars, ParseValue, SkipWs;
    var after := ": " + value + rest;
    var chars := JsonEscape(key) + "\"" + after;
    assert MemberText(indent, key, value) + rest == indent + ("\"" + chars);
    SkipIndent(indent, "\"" + chars);
    SkipNone("\"" + chars);
    assert ("\"" + chars)[1..] == chars;
    StringRoundTrip(key, after);
    SkipNone(after);
    assert after[1..] == " " + (value + rest);
    ValueSkips(" ", value + rest);
  }

  lemma SkipNone(s: string)
    requires s == [] || !IsWs(s[0])
    ensures SkipWs(s) == s
  {
  }

  lemma ValueSkips(ws: string, s: string)
    requires AllWs(ws)
    ensures ParseValue(ws + s) == ParseValue(s)
  {
    SkipIndent(ws, s);
  }

  /** Whatever comes after it, the text of a value is read as the value. */
  ghost predicate Reads(text: string, v: Json) {
    forall rest :: Delimited(rest) ==> ReadsBefore(text, v, rest)
  }

  predicate ReadsBefore(text: string, v: Json, rest: string) {
    ParseValue(text + rest) == Done(v, rest)
  }

  lemma StringReads(s: string)
    ensures Reads(JsonString(s), Str(s))
  {
    hide JsonEscape, ParseChars;
    forall rest | Delimited(rest) ensures ReadsBefore(JsonString(s), Str(s), rest) {
      var t := JsonString(s) + rest;
      assert t[1..] == JsonEscape(s) + "\"" + rest;
      StringRoundTrip(s, rest);
      SkipNone(t);
      assert ParseToken(t) == Done(Str(s), rest);
    }
  }

  lemma IntegerReads(n: int)
    ensures Reads(Decimal(n), Int(n))
  {
    forall rest | Delimited(rest) ensures ReadsBefore(Decimal(n), Int(n), rest) {
      IntegerRoundTrip(n, rest);
    }
  }

  /** A member's text, read as a member. */
  ghost predicate MemberIs(text: string, m: (string, Json)) {
    forall rest :: Delimited(rest) ==> MemberIsBefore(text, m, rest)
  }

  predicate MemberIsBefore(text: string, m: (string, Json), rest: string) {
    ParseMember(text + rest) == Done(m, rest)
  }

  lemma MemberOf(indent: string, key: string, value: string, v: Json)
    requires AllWs(indent) && Reads(value, v)
    ensures MemberIs(MemberText(indent, key, value), (key, v))
  {
    hide ParseValue, ParseMember, MemberText;
    forall rest | Delimited(rest) ensures MemberIsBefore(MemberText(indent, key, value), (key, v), rest) {
      MemberReads(indent, key, value, rest);
      assert ReadsBefore(value, v, rest);
    }
  }

  ghost predicate MembersAre(texts: seq<string>, ms: seq<(string, Json)>) {
    |texts| == |ms| && forall i :: 0 <= i < |ms| ==> MemberIs(texts[i], ms[i])
  }

  lemma MembersSkip(ws: string, s: string)
    requires AllWs(ws)
    ensures ParseMembers(ws + s) == ParseMembers(s)
  {
    SkipIndent(ws, s);
    assert ParseMember(ws + s) == ParseMember(s);
  }

  /** One step of the member list, by what follows the first member. */
  lemma MembersStep(text: string, m: (string, Json), rest: string)
    requires MemberIs(text, m) && Delimited(rest) && SkipWs(rest) != []
    ensures SkipWs(rest)[0] == '}' ==> ParseMembers(text + rest) == Done([m], SkipWs(rest)[1..])
    ensures SkipWs(rest)[0] == ',' ==>
              ParseMembers(text + rest)
              == match ParseMembers(SkipWs(rest)[1..])
                 case Fail => Fail
                 case Done(ms, t) => Done([m] + ms, t)
  {
    hide ParseMember, SkipWs;
    assert MemberIsBefore(text, m, rest);
  }

  lemma {:induction false} MembersRead(texts: seq<string>, ms: seq<(string, Json)>, close: string)
    requires MembersAre(texts, ms) && ms != []
    requires Delimited(close) && SkipWs(close) != [] && SkipWs(close)[0] == '}'
    ensures ParseMembers(Join(texts, ",\n") + close) == Done(ms, SkipWs(close)[1..])
    decreases |texts|
  {
    hide Join, ParseMembers, MemberIs, SkipWs;
    assert texts == [texts[0]] + texts[1..] && ms == [ms[0]] + ms[1..];
    if |texts| == 1 {
      assert texts == [texts[0]] && ms == [ms[0]];
      JoinOne(texts[0], ",\n");
      MembersStep(texts[0], ms[0], close);
    } else {
      var more := Join(texts[1..], ",\n") + close;
      JoinCons(texts[0], texts[1..], ",\n");
      var rest := ",\n" + more;
      assert Join(texts, ",\n") + close == texts[0] + rest;
      SkipNone(rest);
      MembersStep(texts[0], ms[0], rest);
      assert SkipWs(rest)[1..] == "\n" + more;
      MembersSkip("\n", more);
      MembersRead(texts[1..], ms[1..], close);
    }
  }

  /** After an opening brace. */
  lemma BraceOpens(t: string)
    ensures ParseValue("{" + t)
            == if SkipWs(t) != [] && SkipWs(t)[0] == '}' then Done(Obj([]), SkipWs(t)[1..])
               else
                 match ParseMembers(t)
                 case Fail => Fail
                 case Done(ms, rest) => Done(Obj(ms), rest)
  {
    hide ParseMembers, ParseElements, ParseChars, ParseNumber;
    var s := "{" + t;
    SkipNone(s);
    assert s[1..] == t;
  }

  lemma MembersOpen(s: string)
    requires ParseMembers(s).Done?
    ensures SkipWs(s) != [] && SkipWs(s)[0] == '"'
  {
  }

  // ----- objects -----

  lemma ObjectReads(texts: seq<string>, ms: seq<(string, Json)>, close: string, rest: string)
    requires MembersAre(texts, ms) && AllWs(close)
    ensures ParseValue("{\n" + Join(texts, ",\n") + "\n" + close + "}" + rest) == Done(Obj(ms), rest)
  {
    hide ParseMembers, MemberIs, ParseValue, SkipWs, Join;
    var tail := "\n" + close + "}" + rest;
    var inner := Join(texts, ",\n") + tail;
    var s := "{\n" + Join(texts, ",\n") + "\n" + close + "}" + rest;
    assert s == "{" + ("\n" + inner);
    BraceOpens("\n" + inner);
    assert tail == ("\n" + close) + ("}" + rest);
    SkipIndent("\n" + close, "}" + rest);
    SkipNone("}" + rest);
    SkipIndent("\n", inner);
    MembersSkip("\n", inner);
    assert ("}" + rest)[1..] == rest;
    if ms == [] {
      assert texts == [];
      JoinNone(",\n");
      assert inner == tail;
      assert ms == [];
    } else {
      MembersRead(texts, ms, tail);
      MembersOpen(inner);
    }
  }

  lemma FieldMember(f: Field)
    ensures MemberIs(FieldText(f), FieldTree(f))
  {
    hide MemberIs, Reads, JsonString, Decimal;
    if f.IntField? {
      IntegerReads(f.n);
      MemberOf(INDENT, f.key, Decimal(f.n), Int(f.n));
    } else {
      StringReads(f.s);
      MemberOf(INDENT, f.key, JsonString(f.s), Str(f.s));
    }
  }

  lemma FieldMembers(fields: seq<Field>)
    ensures MembersAre(FieldTexts(fields), FieldTrees(fields))
  {
    hide MemberIs, FieldText, FieldTree;
    forall i | 0 <= i < |fields| ensures MemberIs(FieldTexts(fields)[i], FieldTrees(fields)[i]) {
      FieldMember(fields[i]);
    }
  }

  lemma TagMembers(tags: seq<(string, string)>)
    ensures MembersAre(TagTexts(tags), TagTrees(tags))
  {
    hide MemberIs, Reads;
    forall i | 0 <= i < |tags| ensures MemberIs(TagTexts(tags)[i], TagTrees(tags)[i]) {
      StringReads(tags[i].1);
      MemberOf(INDENT2, tags[i].0, JsonString(tags[i].1), Str(tags[i].1));
    }
  }

  lemma TagsObjectReads(entries: seq<(string, string)>)
    ensures Reads(TagsObject(entries), Obj(TagTrees(entries)))
  {
    hide MembersAre, ParseValue, Join;
    TagMembers(entries);
    var texts := TagTexts(entries);
    forall rest | Delimited(rest) ensures ReadsBefore(TagsObject(entries), Obj(TagTrees(entries)), rest) {
      assert TagsObject(entries) + rest == "{\n" + Join(texts, ",\n") + "\n" + "    " + "}" + rest;
      ObjectReads(texts, TagTrees(entries), "    ", rest);
    }
  }

  /** A section with its comma in place is an object of its fields and then its tags. */
  lemma SoundSectionReads(sec: Section, rest: string)
    requires SectionSound(sec)
    ensures ParseValue(SectionText(sec) + rest) == Done(SectionTree(sec), rest)
  {
    hide MemberIs, ParseValue, Join, Shown, Reads, FieldText, FieldTree, TagsObject, MemberText;
    var fields := Shown(sec.fields);
    var texts, ms := FieldTexts(fields), FieldTrees(fields);
    FieldMembers(fields);
    match sec.tags
    case NoTags =>
      assert SectionText(sec) + rest == "{\n" + Join(texts, ",\n") + "\n" + "  " + "}" + rest;
      assert ms + [] == ms;
      ObjectReads(texts, ms, "  ", rest);
    case Tags(entries) =>
      TagsObjectReads(entries);
      var text := MemberText(INDENT, "tags", TagsObject(entries));
      var tree := ("tags", Obj(TagTrees(entries)));
      MemberOf(INDENT, "tags", TagsObject(entries), tree.1);
      JoinSnoc(texts, text, ",\n");
      assert SectionText(sec) + rest == "{\n" + Join(texts + [text], ",\n") + "\n" + "  " + "}" + rest;
      ObjectReads(texts + [text], ms + [tree], "  ", rest);
  }

  lemma CommaFails(t: string)
    ensures ParseValue("{\n," + t) == Fail
  {
    hide ParseChars, ParseValue;
    assert "{\n," + t == "{" + ("\n" + ("," + t));
    BraceOpens("\n" + ("," + t));
    SkipIndent("\n", "," + t);
    SkipNone("," + t);
    assert ParseMember("\n" + ("," + t)) == Fail;
  }

  /** Without a field the tags follow a comma that follows nothing. */
  lemma UnsoundSectionFails(sec: Section, rest: string)
    requires !SectionSound(sec)
    ensures ParseValue(SectionText(sec) + rest) == Fail
  {
    hide ParseValue;
    var s := SectionText(sec) + rest;
    assert FieldTexts(Shown(sec.fields)) == [];
    assert s == "{\n," + s[3..];
    CommaFails(s[3..]);
  }

  lemma SectionReads(sec: Section, rest: string)
    ensures ParseValue(SectionText(sec) + rest) == if SectionSound(sec) then Done(SectionTree(sec), rest) else Fail
  {
    if SectionSound(sec) {
      SoundSectionReads(sec, rest);
    } else {
      UnsoundSectionFails(sec, rest);
    }
  }

  // ----- arrays of sections -----

  lemma {:induction false} ElementsRead(sections: seq<Section>, rest: string)
    requires sections != []
    ensures ParseElements(Join(SectionTexts(sections), ",") + "]" + rest)
            == if SectionsSound(sections) then Done(SectionTrees(sections), rest) else Fail
    decreases |sections|
  {
    hide ParseValue, Join, SectionText, SectionSound, SectionTree;
    var sec, others := sections[0], sections[1..];
    if others == [] {
      assert SectionTexts(sections) == [SectionText(sec)];
      JoinOne(SectionText(sec), ",");
      var tail := "]" + rest;
      assert Join(SectionTexts(sections), ",") + "]" + rest == SectionText(sec) + tail;
      SectionReads(sec, tail);
      SkipNone(tail);
      assert tail[1..] == rest;
      assert SectionTrees(sections) == [SectionTree(sec)];
    } else {
      assert SectionTexts(sections) == [SectionText(sec)] + SectionTexts(others);
      JoinCons(SectionText(sec), SectionTexts(others), ",");
      var more := Join(SectionTexts(others), ",") + "]" + rest;
      var tail := "," + more;
      assert Join(SectionTexts(sections), ",") + "]" + rest == SectionText(sec) + tail;
      SectionReads(sec, tail);
      SkipNone(tail);
      assert tail[1..] == more;
      ElementsRead(others, rest);
      assert SectionTrees(sections) == [SectionTree(sec)] + SectionTrees(others);
      assert SectionsSound(sections) <==> SectionSound(sec) && SectionsSound(others) by {
        if SectionSound(sec) && SectionsSound(others) {
          forall i | 0 <= i < |sections| ensures SectionSound(sections[i]) {
            if i > 0 { assert sections[i] == others[i - 1]; }
          }
        }
        if SectionsSound(sections) {
          forall i | 0 <= i < |others| ensures SectionSound(others[i]) {
            assert others[i] == sections[i + 1];
          }
        }
      }
    }
  }

  lemma SectionOpens(sec: Section)
    ensures SectionText(sec) != [] && SectionText(sec)[0] == '{'
  {
    hide Join, TagsText, Shown;
  }

  lemma JoinOpens(sections: seq<Section>)
    requires sections != []
    ensures Join(SectionTexts(sections), ",") != [] && Join(SectionTexts(sections), ",")[0] == '{'
  {
    hide Join, SectionText;
    var sec, others := sections[0], sections[1..];
    SectionOpens(sec);
    if others == [] {
      assert SectionTexts(sections) == [SectionText(sec)];
      JoinOne(SectionText(sec), ",");
    } else {
      assert SectionTexts(sections) == [SectionText(sec)] + SectionTexts(others);
      JoinCons(SectionText(sec), SectionTexts(others), ",");
    }
  }

  lemma ArrayReads(sections: seq<Section>, rest: string)
    ensures ParseValue("[" + Join(SectionTexts(sections), ",") + "]" + rest)
            == if SectionsSound(sections) then Done(Arr(SectionTrees(sections)), rest) else Fail
  {
    hide ParseMembers, ParseElements, ParseChars, SectionText, SectionSound, SectionTree, Join;
    var inner := Join(SectionTexts(sections), ",") + "]" + rest;
    var s := "[" + Join(SectionTexts(sections), ",") + "]" + rest;
    SkipNone(s);
    assert s[1..] == inner;
    if sections == [] {
      assert SectionTexts(sections) == [];
      JoinNone(",");
      assert inner == "]" + rest;
      SkipNone(inner);
      assert inner[1..] == rest;
      assert SectionTrees(sections) == [];
    } else {
      JoinOpens(sections);
      SkipNone(inner);
      ElementsRead(sections, rest);
    }
  }

  // ----- chapters -----

  function ChapterValue(c: Chapter): string {
    if MultipleEntries(c.name) then "[" + Join(SectionTexts(c.sections), ",") + "]"
    else Join(SectionTexts(c.sections), ",")
  }

  lemma ChapterIsMember(c: Chapter)
    ensures ChapterText(c) == MemberText("\n  ", c.name, ChapterValue(c))
  {
    hide Join, JsonString, SectionTexts;
  }

  /** What may follow a chapter: the next one or the end of the document. */
  predicate Continues(rest: string) {
    SkipWs(rest) != [] && (SkipWs(rest)[0] == '}' || SkipWs(rest)[0] == ',')
  }

  lemma NoValue(rest: string)
    requires Continues(rest)
    ensures ParseValue(rest) == Fail
  {
    hide ParseMembers, ParseElements, ParseChars;
  }

  lemma NoMember(t: string)
    requires t != [] && t[0] == '{'
    ensures ParseMembers(t) == Fail
  {
    hide ParseChars, ParseValue;
    SkipNone(t);
    assert ParseMember(t) == Fail;
  }

  lemma ChapterReads(c: Chapter, rest: string)
    requires MultipleEntries(c.name) || |c.sections| == 1
    ensures ParseMember(ChapterText(c) + rest)
            == if ChapterSound(c) then Done(ChapterTree(c), rest) else Fail
  {
    hide ParseMember, ParseValue, MemberText, Join, SectionText, SectionTree, ChapterText, SectionSound, SkipWs;
    ChapterIsMember(c);
    MemberReads("\n  ", c.name, ChapterValue(c), rest);
    if MultipleEntries(c.name) {
      ArrayReads(c.sections, rest);
    } else {
      assert SectionTexts(c.sections) == [SectionText(c.sections[0])];
      JoinOne(SectionText(c.sections[0]), ",");
      SectionReads(c.sections[0], rest);
      assert SectionsSound(c.sections) <==> SectionSound(c.sections[0]);
    }
  }

  /** A chapter that is no list and has no section or several never parses. */
  lemma ChapterFails(c: Chapter, rest: string)
    requires !MultipleEntries(c.name) && |c.sections| != 1 && Continues(rest)
    ensures ParseMembers(ChapterText(c) + rest) == Fail
  {
    hide ParseMember, ParseValue, MemberText, Join, SectionText, SectionTree, ChapterText, SectionSound, SkipWs;
    ChapterIsMember(c);
    MemberReads("\n  ", c.name, ChapterValue(c), rest);
    if c.sections == [] {
      JoinNone(",");
      assert SectionTexts(c.sections) == [];
      assert ChapterValue(c) + rest == rest;
      NoValue(rest);
    } else {
      var sec, others := c.sections[0], c.sections[1..];
      assert SectionTexts(c.sections) == [SectionText(sec)] + SectionTexts(others);
      JoinCons(SectionText(sec), SectionTexts(others), ",");
      var more := Join(SectionTexts(others), ",") + rest;
      var tail := "," + more;
      assert ChapterValue(c) + rest == SectionText(sec) + tail;
      SectionReads(sec, tail);
      SkipNone(tail);
      assert tail[1..] == more;
      JoinOpens(others);
      NoMember(more);
    }
  }

  /** The chapter list goes on after a sound chapter and fails at any other. */
  lemma ChapterStep(c: Chapter, rest: string)
    requires Continues(rest)
    ensures ParseMembers(ChapterText(c) + rest)
            == if !ChapterSound(c) then Fail
               else if SkipWs(rest)[0] == '}' then Done([ChapterTree(c)], SkipWs(rest)[1..])
               else
                 match ParseMembers(SkipWs(rest)[1..])
                 case Fail => Fail
                 case Done(ms, t) => Done([ChapterTree(c)] + ms, t)
  {
    hide ParseMember, ChapterText, ChapterTree, SkipWs, SectionsSound;
    if MultipleEntries(c.name) || |c.sections| == 1 {
      ChapterReads(c, rest);
    } else {
      ChapterFails(c, rest);
    }
  }

  const FOOTER := "\n}\n"

  lemma {:induction false} ChaptersRead(doc: seq<Chapter>)
    requires doc != []
    ensures ParseMembers(Join(ChapterTexts(doc), ",") + FOOTER) == if Sound(doc) then Done(Trees(doc), "\n") else Fail
    decreases |doc|
  {
    hide ParseMembers, Join, ChapterText, ChapterSound, ChapterTree;
    var c, others := doc[0], doc[1..];
    FooterEnds();
    if others == [] {
      assert ChapterTexts(doc) == [ChapterText(c)];
      JoinOne(ChapterText(c), ",");
      ChapterStep(c, FOOTER);
      if Sound(doc) {
        assert Trees(doc) == [ChapterTree(c)];
      }
    } else {
      assert ChapterTexts(doc) == [ChapterText(c)] + ChapterTexts(others);
      JoinCons(ChapterText(c), ChapterTexts(others), ",");
      var more := Join(ChapterTexts(others), ",") + FOOTER;
      var tail := "," + more;
      assert Join(ChapterTexts(doc), ",") + FOOTER == ChapterText(c) + tail;
      SkipNone(tail);
      assert tail[1..] == more;
      ChapterStep(c, tail);
      ChaptersRead(others);
      SoundSplits(doc);
    }
  }

  lemma ChaptersOpen(doc: seq<Chapter>, rest: string)
    requires doc != []
    ensures SkipWs(Join(ChapterTexts(doc), ",") + rest) != []
    ensures SkipWs(Join(ChapterTexts(doc), ",") + rest)[0] == '"'
  {
    hide Join, SkipWs;
    var s := Join(ChapterTexts(doc), ",") + rest;
    var first := ChapterText(doc[0]);
    if |doc| == 1 {
      assert ChapterTexts(doc) == [first];
      JoinOne(first, ",");
    } else {
      assert ChapterTexts(doc) == [first] + ChapterTexts(doc[1..]);
      JoinCons(first, ChapterTexts(doc[1..]), ",");
    }
    assert first[..3] == "\n  " && first[3] == '"';
    assert s[..3] == first[..3] && s[3] == '"';
    assert s == "\n  " + s[3..];
    SkipIndent("\n  ", s[3..]);
    SkipNone(s[3..]);
  }

  lemma FooterEnds()
    ensures SkipWs(FOOTER) == "}\n" && SkipWs("\n") == ""
  {
    SkipIndent("\n", "}\n");
    assert FOOTER == "\n" + "}\n";
    SkipIndent("\n", "");
    assert "\n" + "" == "\n";
  }

  lemma SoundSplits(doc: seq<Chapter>)
    requires doc != []
    ensures Sound(doc) <==> ChapterSound(doc[0]) && Sound(doc[1..])
    ensures Sound(doc) ==> Trees(doc) == [ChapterTree(doc[0])] + Trees(doc[1..])
  {
    hide ChapterSound, ChapterTree;
    if ChapterSound(doc[0]) && Sound(doc[1..]) {
      forall i | 0 <= i < |doc| ensures ChapterSound(doc[i]) {
        if i > 0 { assert doc[i] == doc[1..][i - 1]; }
      }
    }
    if Sound(doc) {
      forall i | 0 <= i < |doc[1..]| ensures ChapterSound(doc[1..][i]) {
        assert doc[1..][i] == doc[i + 1];
      }
    }
  }

  /**
   The printed text parses exactly when every section with tags shows a field before them and
   every chapter that is no list has one section. It then parses to the tree that was printed.
   */
  lemma JsonRoundTrip(doc: seq<Chapter>)
    ensures Read(JsonText(doc)) == if Sound(doc) then Some(Obj(Trees(doc))) else None
  {
    hide ParseMembers, ParseValue, Join, ChapterText, ChapterSound, ChapterTree, SkipWs;
    var inner := Join(ChapterTexts(doc), ",") + FOOTER;
    assert JsonText(doc) == "{" + inner;
    BraceOpens(inner);
    FooterEnds();
    if doc == [] {
      assert ChapterTexts(doc) == [];
      JoinNone(",");
      assert inner == FOOTER;
      assert Trees(doc) == [];
      assert "}\n"[1..] == "\n";
    } else {
      ChaptersRead(doc);
      ChaptersOpen(doc, FOOTER);
    }
  }
}
