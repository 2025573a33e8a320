/**
 The writer context of ffprobe: the counters that decide on separators, the wrappers that keep
 them, and the walk over chapters, sections, fields and tags that drives the wrappers.
 */
module ProbeWriter {

  import opened Common
  import opened ProbeTree
  import ProbeEscape
  import J = JsonWriter
  import C = CsvWriter
  import JsonReader

  datatype Format = Json | Csv

  /** What goes before an item, by the number of items printed before it. */
  function ItemSeparator(format: Format, items: nat): string {
    if items == 0 then "" else if format.Json? then ",\n" else ","
  }

  function ListSeparator(entries: nat): string {
    if entries == 0 then "" else ","
  }

  /** The fields that a writer displays. */
  function Displayed(format: Format, fields: seq<Field>): seq<Field> {
    if format.Json? then J.Shown(fields) else fields
  }

  function ItemTexts(format: Format, fields: seq<Field>): seq<string> {
    if format.Json? then J.FieldTexts(fields) else C.FieldTexts(fields)
  }

  function ItemText(format: Format, f: Field): string {
    if format.Json? then J.FieldText(f) else C.FieldText(f)
  }

  function Comma(format: Format): string {
    if format.Json? then ",\n" else ","
  }

  function AllSections(doc: seq<Chapter>): seq<Section> {
    if doc == [] then [] else AllSections(doc[..|doc| - 1]) + doc[|doc| - 1].sections
  }

  class WriterContext {
    const format: Format
    var out: string
    var nbItem: nat
    var nbSection: nat
    var nbChapter: nat
    var multipleEntries: bool

    /** writer_open leaves the counters as the allocator gives them. */
    constructor (format: Format)
      ensures this.format == format && out == ""
    {
      this.format := format;
      out := "";
    }

    // ----- the wrappers -----

    /** writer_print_header */
    method PrintHeader()
      modifies this
      ensures out == old(out) + (if format.Json? then "{" else "") && nbChapter == 0
    {
      if format.Json? {
        out := out + "{";
      }
      nbChapter := 0;
    }

    /** writer_print_footer */
    method PrintFooter()
      modifies `out
      ensures out == old(out) + if format.Json? then "\n}\n" else ""
    {
      if format.Json? {
        out := out + "\n}\n";
      }
    }

    /** writer_print_chapter_header */
    method PrintChapterHeader(name: string)
      modifies `out, `nbSection, `multipleEntries
      ensures nbSection == 0
      ensures format.Json? ==>
        && multipleEntries == J.MultipleEntries(name)
        && out == old(out) + ListSeparator(nbChapter) + "\n  " + J.JsonString(name) + ":"
                  + if multipleEntries then " [" else " "
      ensures format.Csv? ==> out == old(out)
    {
      hide ProbeEscape.JsonEscape;
      if format.Json? {
        if nbChapter != 0 {
          out := out + ",";
        }
        multipleEntries := name == "packets" || name == "streams";
        out := out + "\n  " + "\"" + ProbeEscape.JsonEscape(name) + "\"" + ":" + if multipleEntries then " [" else " ";
      }
      nbSection := 0;
    }

    /** writer_print_chapter_footer */
    method PrintChapterFooter()
      modifies `out, `nbChapter
      ensures nbChapter == old(nbChapter) + 1
      ensures out == old(out) + if format.Json? && multipleEntries then "]" else ""
    {
      if format.Json? && multipleEntries {
        out := out + "]";
      }
      nbChapter := nbChapter + 1;
    }

    /** writer_print_section_header */
    method PrintSectionHeader(name: string)
      modifies `out, `nbItem
      ensures nbItem == 0
      ensures out == old(out) + if format.Json? then ListSeparator(nbSection) + "{\n" else name + ","
    {
      if format.Json? {
        if nbSection != 0 {
          out := out + ",";
        }
        out := out + "{\n";
      } else {
        out := out + name + ",";
      }
      nbItem := 0;
    }

    /** writer_print_section_footer */
    method PrintSectionFooter()
      modifies `out, `nbSection
      ensures nbSection == old(nbSection) + 1
      ensures out == old(out) + if format.Json? then "\n  }" else "\n"
    {
      if format.Json? {
        out := out + "\n  }";
      } else {
        out := out + "\n";
      }
      nbSection := nbSection + 1;
    }

    /** writer_print_integer */
    method PrintInteger(key: string, val: int)
      modifies `out, `nbItem
      ensures nbItem == old(nbItem) + 1
      ensures out == old(out) + ItemSeparator(format, old(nbItem)) + ItemText(format, IntField(key, val))
    {
      if nbItem != 0 {
        out := out + if format.Json? then ",\n" else ",";
      }
      if format.Json? {
        out := out + ("    " + ("\"" + ProbeEscape.JsonEscape(key) + "\"") + ": " + Decimal(val));
      } else {
        out := out + Decimal(val);
      }
      nbItem := nbItem + 1;
    }

    /** writer_print_string: only the writers that display optional fields print one. */
    method PrintString(key: string, val: string, opt: bool)
      modifies `out, `nbItem
      ensures opt && format.Json? ==> out == old(out) && nbItem == old(nbItem)
      ensures !(opt && format.Json?) ==>
        && nbItem == old(nbItem) + 1
        && out == old(out) + ItemSeparator(format, old(nbItem)) + ItemText(format, StrField(key, val))
    {
      if opt && format.Json? {
        return;
      }
      if nbItem != 0 {
        out := out + if format.Json? then ",\n" else ",";
      }
      if format.Json? {
        PrintItemStr(key, val, "    ");
      } else {
        out := out + ProbeEscape.CsvEscape(val, C.SEP);
      }
      nbItem := nbItem + 1;
    }

    /** json_print_item_str */
    method PrintItemStr(key: string, val: string, indent: string)
      modifies `out
      ensures out == old(out) + J.MemberText(indent, key, J.JsonString(val))
    {
      hide ProbeEscape.JsonEscape;
      out := out + indent + "\"" + ProbeEscape.JsonEscape(key) + "\":";
      out := out + " \"" + ProbeEscape.JsonEscape(val) + "\"";
    }

    /** The loop of json_show_tags. */
    method PrintTags(entries: seq<(string, string)>)
      modifies `out
      ensures out == old(out) + Join(J.TagTexts(entries), ",\n")
    {
      hide Join, J.TagText, J.MemberText, J.JsonString;
      JoinNone(",\n");
      assert J.TagTexts(entries[..0]) == [];
      var isFirst := true;
      for i := 0 to |entries|
        invariant isFirst <==> i == 0
        invariant out == old(out) + Join(J.TagTexts(entries[..i]), ",\n")
      {
        if isFirst {
          isFirst := false;
        } else {
          out := out + ",\n";
        }
        PrintItemStr(entries[i].0, entries[i].1, "        ");
        TagsSnoc(entries, i);
      }
      assert entries[..|entries|] == entries;
    }

    /** json_show_tags */
    method ShowTagsJson(tags: Tags)
      modifies `out
      ensures out == old(out) + J.TagsText(tags)
    {
      hide Join, J.TagTexts, J.TagsText;
      TagsLayout(tags);
      if tags.NoTags? {
        return;
      }
      out := out + (",\n" + J.INDENT + "\"tags\": {\n");
      PrintTags(tags.entries);
      out := out + "\n    }";
    }

    /** compact_show_tags: the item counter stays as it is from tag to tag. */
    method ShowTagsCsv(tags: Tags)
      modifies `out
      ensures out == old(out) + C.TagsText(C.Entries(tags), if nbItem == 0 then "" else ",")
    {
      hide ProbeEscape.CsvEscape, C.TagsText;
      var entries := C.Entries(tags);
      ghost var sep := if nbItem == 0 then "" else ",";
      C.TagsNone(sep);
      for i := 0 to |entries|
        invariant out == old(out) + C.TagsText(entries[..i], sep)
      {
        if nbItem != 0 {
          out := out + ",";
        }
        out := out + ProbeEscape.CsvEscape(entries[i].1, C.SEP);
        C.TagsSnoc(entries[..i], entries[i], sep);
        assert entries[..i] + [entries[i]] == entries[..i + 1];
      }
      assert entries[..|entries|] == entries;
    }

    // ----- the walk -----

    /** The fields of a section, in order. */
    method PrintFields(fields: seq<Field>)
      requires nbItem == 0
      modifies `out, `nbItem
      ensures nbItem == |Displayed(format, fields)|
      ensures out == old(out) + Join(ItemTexts(format, Displayed(format, fields)), Comma(format))
    {
      hide Join, ItemText, ItemTexts, Displayed;
      NoItems(format);
      for i := 0 to |fields|
        invariant nbItem == |Displayed(format, fields[..i])|
        invariant out == old(out) + Join(ItemTexts(format, Displayed(format, fields[..i])), Comma(format))
      {
        ItemsSnoc(format, fields, i);
        match fields[i]
        case IntField(key, n) => PrintInteger(key, n);
        case StrField(key, s) => PrintString(key, s, false);
        case OptField(key, s) =>
          OptionalText(format, key, s);
          PrintString(key, s, true);
      }
      assert fields[..|fields|] == fields;
    }

    method PrintSection(sec: Section)
      modifies `out, `nbItem, `nbSection
      ensures nbSection == old(nbSection) + 1
      ensures out == old(out) + if format.Json? then ListSeparator(old(nbSection)) + J.SectionText(sec)
                                else C.RowText(sec)
    {
      hide Join, J.TagsText, C.TagsText, J.Shown, ItemTexts, ListSeparator, J.SectionText, C.RowText;
      PrintSectionHeader(sec.name);
      PrintFields(sec.fields);
      if format.Json? {
        ShowTagsJson(sec.tags);
      } else {
        ShowTagsCsv(sec.tags);
      }
      PrintSectionFooter();
      SectionLayout(format, sec);
    }

    /** PRINT_CHAPTER */
    method PrintChapter(c: Chapter)
      modifies this
      ensures nbChapter == old(nbChapter) + 1
      ensures out == old(out) + if format.Json? then ListSeparator(old(nbChapter)) + J.ChapterText(c)
                                else C.CsvText(c.sections)
    {
      hide Join, J.SectionText, C.RowText, C.CsvText, J.JsonString, J.MultipleEntries, J.ChapterText, ListSeparator;
      PrintChapterHeader(c.name);
      var sections := c.sections;
      ghost var before := out;
      JoinNone(",");
      C.CsvTextNil();
      assert J.SectionTexts(sections[..0]) == [];
      for i := 0 to |sections|
        invariant nbSection == i && nbChapter == old(nbChapter)
        invariant format.Json? ==> multipleEntries == J.MultipleEntries(c.name)
        invariant out == before + if format.Json? then Join(J.SectionTexts(sections[..i]), ",")
                                  else C.CsvText(sections[..i])
      {
        PrintSection(sections[i]);
        SectionsSnoc(sections, i);
      }
      assert sections[..|sections|] == sections;
      PrintChapterFooter();
      ChapterLayout(c);
    }
  
    /** probe_file: the printed text is the document, and parses exactly when it is sound. */
    method PrintDocument(doc: seq<Chapter>)
      requires out == ""
      modifies this
      ensures format.Json? ==> out == J.JsonText(doc)
      ensures format.Csv? ==> out == C.CsvText(AllSections(doc))
    {
      hide Join, J.ChapterText, C.CsvText, AllSections;
      PrintHeader();
      ghost var before := out;
      JoinNone(",");
      C.CsvTextNil();
      NoSections();
      assert J.ChapterTexts(doc[..0]) == [];
      for i := 0 to |doc|
        invariant nbChapter == i
        invariant out == before + if format.Json? then Join(J.ChapterTexts(doc[..i]), ",")
                                  else C.CsvText(AllSections(doc[..i]))
      {
        PrintChapter(doc[i]);
        ChaptersSnoc(doc, i);
      }
      assert doc[..|doc|] == doc;
      PrintFooter();
    }
  }

  // ----- one more of each -----

  lemma TagsSnoc(entries: seq<(string, string)>, i: nat)
    requires i < |entries|
    ensures Join(J.TagTexts(entries[..i + 1]), ",\n")
            == Join(J.TagTexts(entries[..i]), ",\n") + (if i == 0 then "" else ",\n")
               + J.MemberText("        ", entries[i].0, J.JsonString(entries[i].1))
  {
    hide Join, J.MemberText, J.JsonString;
    assert J.TagTexts(entries[..i + 1]) == J.TagTexts(entries[..i]) + [J.TagText(entries[i])];
    JoinMore(J.TagTexts(entries[..i]), J.TagText(entries[i]), ",\n");
  }

  lemma TagsLayout(tags: Tags)
    ensures J.TagsText(tags)
            == if tags.NoTags? then ""
               else ",\n" + J.INDENT + "\"tags\": {\n" + Join(J.TagTexts(tags.entries), ",\n") + "\n    }"
  {
    hide Join, J.TagTexts, ProbeEscape.JsonEscape;
    TagsKey();
    if tags.Tags? {
      assert J.JsonString("tags") == "\"tags\"";
      assert "\"tags\"" + ": " + "{\n" == "\"tags\": {\n";
      Regroup(",\n", J.INDENT, J.JsonString("tags"), ": ", "{\n", Join(J.TagTexts(tags.entries), ",\n"), "\n    }");
    }
  }

  lemma Regroup(a: string, b: string, c: string, d: string, e: string, f: string, g: string)
    ensures a + (b + c + d + (e + f + g)) == a + b + (c + d + e) + f + g
  {
  }

  lemma TagsKey()
    ensures ProbeEscape.JsonEscape("tags") == "tags"
  {
    hide ProbeEscape.JsonEscape;
    ProbeEscape.JsonEscapeNil();
    ProbeEscape.JsonEscapeSnoc("", 't');
    ProbeEscape.JsonEscapeSnoc("t", 'a');
    ProbeEscape.JsonEscapeSnoc("ta", 'g');
    ProbeEscape.JsonEscapeSnoc("tag", 's');
    assert "" + ['t'] == "t" && "t" + ['a'] == "ta" && "ta" + ['g'] == "tag" && "tag" + ['s'] == "tags";
  }

  lemma OptionalText(format: Format, key: string, s: string)
    ensures ItemText(format, OptField(key, s)) == ItemText(format, StrField(key, s))
  {
  }

  lemma NoItems(format: Format)
    ensures Displayed(format, []) == [] && Join(ItemTexts(format, []), Comma(format)) == ""
  {
  }

  lemma ItemsSnoc(format: Format, fields: seq<Field>, i: nat)
    requires i < |fields|
    ensures var before, after := Displayed(format, fields[..i]), Displayed(format, fields[..i + 1]);
      if format.Json? && fields[i].OptField? then after == before
      else
        |after| == |before| + 1
        && Join(ItemTexts(format, after), Comma(format))
           == Join(ItemTexts(format, before), Comma(format)) + ItemSeparator(format, |before|)
              + ItemText(format, fields[i])
  {
    hide Join, ItemText;
    var before, after := Displayed(format, fields[..i]), Displayed(format, fields[..i + 1]);
    assert fields[..i + 1][..i] == fields[..i];
    if !(format.Json? && fields[i].OptField?) {
      assert after == before + [fields[i]];
      TextsSnoc(format, before, fields[i]);
      JoinMore(ItemTexts(format, before), ItemText(format, fields[i]), Comma(format));
    }
  }

  lemma TextsSnoc(format: Format, fields: seq<Field>, f: Field)
    ensures ItemTexts(format, fields + [f]) == ItemTexts(format, fields) + [ItemText(format, f)]
    ensures |ItemTexts(format, fields)| == |fields|
  {
    hide J.FieldText, C.FieldText;
  }

  lemma SectionLayout(format: Format, sec: Section)
    ensures var items := Join(ItemTexts(format, Displayed(format, sec.fields)), Comma(format));
      if format.Json? then J.SectionText(sec) == "{\n" + (items + (J.TagsText(sec.tags) + "\n  }"))
      else
        C.RowText(sec)
        == sec.name + "," + (items + (C.TagsText(C.Entries(sec.tags), if sec.fields == [] then "" else ",") + "\n"))
  {
    hide Join, J.TagsText, C.TagsText, J.Shown, J.FieldTexts, C.FieldTexts;
  }

  lemma ChapterLayout(c: Chapter)
    ensures var multiple := J.MultipleEntries(c.name);
      J.ChapterText(c)
      == "\n  " + (J.JsonString(c.name) + (":" + ((if multiple then " [" else " ")
         + (Join(J.SectionTexts(c.sections), ",") + (if multiple then "]" else "")))))
  {
    hide Join, J.SectionTexts, J.JsonString, J.MultipleEntries;
  }

  lemma SectionsSnoc(sections: seq<Section>, i: nat)
    requires i < |sections|
    ensures Join(J.SectionTexts(sections[..i + 1]), ",")
            == Join(J.SectionTexts(sections[..i]), ",") + ListSeparator(i) + J.SectionText(sections[i])
    ensures C.CsvText(sections[..i + 1]) == C.CsvText(sections[..i]) + C.RowText(sections[i])
  {
    hide Join, J.SectionText, C.RowText;
    assert sections[..i + 1][..i] == sections[..i];
    assert J.SectionTexts(sections[..i + 1]) == J.SectionTexts(sections[..i]) + [J.SectionText(sections[i])];
    JoinMore(J.SectionTexts(sections[..i]), J.SectionText(sections[i]), ",");
  }

  lemma NoSections()
    ensures AllSections([]) == []
  {
  }

  lemma ChaptersSnoc(doc: seq<Chapter>, i: nat)
    requires i < |doc|
    ensures Join(J.ChapterTexts(doc[..i + 1]), ",")
            == Join(J.ChapterTexts(doc[..i]), ",") + ListSeparator(i) + J.ChapterText(doc[i])
    ensures C.CsvText(AllSections(doc[..i + 1])) == C.CsvText(AllSections(doc[..i])) + C.CsvText(doc[i].sections)
  {
    hide Join, J.ChapterText, C.CsvText;
    assert doc[..i + 1][..i] == doc[..i];
    CsvTextConcat(AllSections(doc[..i]), doc[i].sections);
    assert J.ChapterTexts(doc[..i + 1]) == J.ChapterTexts(doc[..i]) + [J.ChapterText(doc[i])];
    JoinMore(J.ChapterTexts(doc[..i]), J.ChapterText(doc[i]), ",");
  }

  lemma {:induction false} CsvTextConcat(a: seq<Section>, b: seq<Section>)
    ensures C.CsvText(a + b) == C.CsvText(a) + C.CsvText(b)
    decreases |b|
  {
    hide C.RowText;
    if b == [] {
      assert a + b == a;
    } else {
      assert (a + b)[..|a + b| - 1] == a + b[..|b| - 1];
      CsvTextConcat(a, b[..|b| - 1]);
    }
  }

  /** probe_file with the JSON writer: the printed text reads back as the document. */
  method ProbeFileJson(doc: seq<Chapter>) returns (text: string)
    ensures JsonReader.Read(text) == if J.Sound(doc) then Some(JsonReader.Obj(J.Trees(doc))) else None
  {
    hide J.JsonText, JsonReader.Read, J.Sound;
    var w := new WriterContext(Json);
    w.PrintDocument(doc);
    J.JsonRoundTrip(doc);
    text := w.out;
  }

  /** probe_file with the CSV writer: the printed lines read back as the values. */
  method ProbeFileCsv(doc: seq<Chapter>) returns (text: string)
    requires C.PlainNames(AllSections(doc))
    ensures C.Read(text) == Some(C.Rows(AllSections(doc))) <==> C.RowsSound(AllSections(doc))
  {
    hide C.CsvText, C.Read, C.RowsSound, C.Rows;
    var w := new WriterContext(Csv);
    w.PrintDocument(doc);
    C.CsvRoundTrip(AllSections(doc));
    text := w.out;
  }
}
