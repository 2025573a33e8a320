/**
 What ffprobe prints of a file: the sections of show_packet, show_stream and show_format, in the
 chapters of probe_file.
 */
module ProbeShow {

  import opened Common
  import opened ProbeTree
  import opened ProbeWriter
  import J = JsonWriter
  import C = CsvWriter
  import JsonReader

  /** A timestamp, unless it is missing, with the text of its time in seconds. */
  datatype Stamp = NoStamp | Stamp(ts: int, seconds: string)

  datatype PacketInfo = PacketInfo(codecType: Option<string>, streamIndex: int, pts: Stamp, dts: Stamp, duration: Stamp,
                                   size: string, pos: Option<string>, key: bool)

  /** `details` is what the codec, its options and the container add after the index. */
  datatype StreamInfo = StreamInfo(index: int, details: seq<Field>, tags: Tags)

  /** Times are their texts in seconds here. */
  datatype FormatInfo = FormatInfo(filename: string, nbStreams: int, name: string, longName: string,
                                   startTime: Option<string>, duration: Option<string>, size: Option<string>,
                                   bitRate: Option<string>, tags: Tags)

  /** A string that is optional where its value is missing. */
  function StringField(key: string, value: Option<string>, missing: string): Field {
    if value.Some? then StrField(key, value.value) else OptField(key, missing)
  }

  /** writer_print_ts */
  function TsField(key: string, t: Stamp): Field {
    if t.NoStamp? then OptField(key, "N/A") else IntField(key, t.ts)
  }

  /** writer_print_time */
  function TimeField(key: string, t: Stamp): Field {
    if t.NoStamp? then OptField(key, "N/A") else StrField(key, t.seconds)
  }

  /** show_packet */
  function ShowPacket(p: PacketInfo): Section {
    Section("packet",
            [StringField("codec_type", p.codecType, "unknown"), IntField("stream_index", p.streamIndex),
             TsField("pts", p.pts), TimeField("pts_time", p.pts), TsField("dts", p.dts), TimeField("dts_time", p.dts),
             TsField("duration", p.duration), TimeField("duration_time", p.duration),
             StrField("size", p.size), StringField("pos", p.pos, "N/A"), StrField("flags", if p.key then "K" else "_")],
            NoTags)
  }

  /** show_stream */
  function ShowStream(s: StreamInfo): Section {
    Section("stream", [IntField("index", s.index)] + s.details, s.tags)
  }

  /** show_format */
  function ShowFormat(f: FormatInfo): Section {
    Section("format",
            [StrField("filename", f.filename), IntField("nb_streams", f.nbStreams),
             StrField("format_name", f.name), StrField("format_long_name", f.longName),
             StringField("start_time", f.startTime, "N/A"), StringField("duration", f.duration, "N/A"),
             StringField("size", f.size, "N/A"), StringField("bit_rate", f.bitRate, "N/A")],
            f.tags)
  }

  function PacketSections(ps: seq<PacketInfo>): seq<Section> {
    seq(|ps|, i requires 0 <= i < |ps| => ShowPacket(ps[i]))
  }

  function StreamSections(ss: seq<StreamInfo>): seq<Section> {
    seq(|ss|, i requires 0 <= i < |ss| => ShowStream(ss[i]))
  }

  /** probe_file: the chapters that were asked for, in this order. */
  function ProbeFile(packets: Option<seq<PacketInfo>>, streams: Option<seq<StreamInfo>>, format: Option<FormatInfo>)
    : seq<Chapter>
  {
    (if packets.None? then []
     else [Chapter("packets", PacketSections(packets.value))])
    + (if streams.None? then [] else [Chapter("streams", StreamSections(streams.value))])
    + (if format.None? then [] else [Chapter("format", [ShowFormat(format.value)])])
  }

  // ----- what a reader of the JSON text learns -----

  /** The first value under a key. */
  function Member(ms: seq<(string, JsonReader.Json)>, key: string): Option<JsonReader.Json> {
    if ms == [] then None else if ms[0].0 == key then Some(ms[0].1) else Member(ms[1..], key)
  }

  function Members(j: JsonReader.Json): seq<(string, JsonReader.Json)> {
    if j.Obj? then j.members else []
  }

  function Text(j: Option<JsonReader.Json>): Option<string> {
    if j.Some? && j.value.Str? then Some(j.value.s) else None
  }

  function TextOr(j: Option<JsonReader.Json>): string {
    if j.Some? && j.value.Str? then j.value.s else ""
  }

  function Number(j: Option<JsonReader.Json>): int {
    if j.Some? && j.value.Int? then j.value.n else 0
  }

  /** A time is there when its text is; timestamps in units of the stream are printed beside it. */
  function TimeOf(ms: seq<(string, JsonReader.Json)>, key: string, keyTime: string): Stamp {
    match Text(Member(ms, keyTime))
    case None => NoStamp
    case Some(seconds) => Stamp(Number(Member(ms, key)), seconds)
  }

  function PacketOf(j: JsonReader.Json): PacketInfo {
    var ms := Members(j);
    PacketInfo(Text(Member(ms, "codec_type")), Number(Member(ms, "stream_index")), TimeOf(ms, "pts", "pts_time"),
               TimeOf(ms, "dts", "dts_time"), TimeOf(ms, "duration", "duration_time"), TextOr(Member(ms, "size")),
               Text(Member(ms, "pos")), Member(ms, "flags") == Some(JsonReader.Str("K")))
  }

  lemma {:induction false} MemberConcat(a: seq<(string, JsonReader.Json)>, b: seq<(string, JsonReader.Json)>,
                                        key: string)
    ensures Member(a + b, key) == if Member(a, key).Some? then Member(a, key) else Member(b, key)
    decreases |a|
  {
    if a == [] {
      assert a + b == b;
    } else {
      assert (a + b)[1..] == a[1..] + b;
      MemberConcat(a[1..], b, key);
    }
  }

  function ValueOf(f: Field): JsonReader.Json {
    if f.IntField? then JsonReader.Int(f.n) else JsonReader.Str(f.s)
  }

  /** A key of one field only is found exactly when the field is shown. */
  lemma {:induction false} MemberShown(fields: seq<Field>, i: nat, key: string)
    requires forall j :: 0 <= j < |fields| && j != i ==> fields[j].key != key
    requires i < |fields| ==> fields[i].key == key
    ensures Member(J.FieldTrees(J.Shown(fields)), key)
            == if i < |fields| && !fields[i].OptField? then Some(ValueOf(fields[i])) else None
    decreases |fields|
  {
    if fields != [] {
      var init, last := fields[..|fields| - 1], fields[|fields| - 1];
      MemberShown(init, i, key);
      var shown: seq<Field> := if last.OptField? then [] else [last];
      assert J.FieldTrees(J.Shown(fields)) == J.FieldTrees(J.Shown(init)) + J.FieldTrees(shown);
      MemberConcat(J.FieldTrees(J.Shown(init)), J.FieldTrees(shown), key);
      if !last.OptField? {
        assert J.FieldTrees(shown)[0] == (last.key, ValueOf(last)) && J.FieldTrees(shown)[1..] == [];
      }
    }
  }

  const PACKET_KEYS: seq<string> := ["codec_type", "stream_index", "pts", "pts_time", "dts", "dts_time", "duration",
                                     "duration_time", "size", "pos", "flags"]

  /** Lengths and first letters tell the keys apart. */
  lemma PacketKeysDiffer(i: nat, j: nat)
    requires i < j < 11
    ensures |PACKET_KEYS| == 11 && PACKET_KEYS[i] != PACKET_KEYS[j]
  {
    assert |PACKET_KEYS[i]| != |PACKET_KEYS[j]| || PACKET_KEYS[i][0] != PACKET_KEYS[j][0]
        || PACKET_KEYS[i][1] != PACKET_KEYS[j][1];
  }

  lemma PacketMember(p: PacketInfo, i: nat)
    requires i < 11
    ensures var f := ShowPacket(p).fields;
      && |f| == 11 && f[i].key == PACKET_KEYS[i]
      && Member(Members(J.SectionTree(ShowPacket(p))), PACKET_KEYS[i])
         == if f[i].OptField? then None else Some(ValueOf(f[i]))
  {
    var fields := ShowPacket(p).fields;
    KeysOfPacket(p);
    forall j | 0 <= j < 11 && j != i ensures fields[j].key != PACKET_KEYS[i] {
      if j < i { PacketKeysDiffer(j, i); } else { PacketKeysDiffer(i, j); }
    }
    hide J.FieldTrees, J.Shown;
    MemberShown(fields, i, PACKET_KEYS[i]);
    assert J.FieldTrees(J.Shown(fields)) + [] == J.FieldTrees(J.Shown(fields));
  }

  lemma KeysOfPacket(p: PacketInfo)
    ensures var f := ShowPacket(p).fields;
      |f| == |PACKET_KEYS| == 11 && forall j :: 0 <= j < 11 ==> f[j].key == PACKET_KEYS[j]
  {
  }

  /** The printed object of a packet tells all of it. */
  lemma PacketReadsBack(p: PacketInfo)
    ensures PacketOf(J.SectionTree(ShowPacket(p))) == p
  {
    hide Member, Members, J.SectionTree;
    PacketMember(p, 0);
    PacketMember(p, 1);
    PacketMember(p, 2);
    PacketMember(p, 3);
    PacketMember(p, 4);
    PacketMember(p, 5);
    PacketMember(p, 6);
    PacketMember(p, 7);
    PacketMember(p, 8);
    PacketMember(p, 9);
    PacketMember(p, 10);
  }

  /** The tags are the one member that is an object, behind all others. */
  function TagsOf(ms: seq<(string, JsonReader.Json)>): Tags {
    if ms == [] || !ms[|ms| - 1].1.Obj? then NoTags
    else
      var entries := ms[|ms| - 1].1.members;
      Tags(seq(|entries|, i requires 0 <= i < |entries| => (entries[i].0, TextOr(Some(entries[i].1)))))
  }

  function WithoutTags(ms: seq<(string, JsonReader.Json)>): seq<(string, JsonReader.Json)> {
    if ms == [] || !ms[|ms| - 1].1.Obj? then ms else ms[..|ms| - 1]
  }

  lemma TagsReadBack(fields: seq<Field>, tags: Tags)
    ensures var ms := J.FieldTrees(fields) + J.TagsTree(tags);
      TagsOf(ms) == tags && WithoutTags(ms) == J.FieldTrees(fields)
  {
    var shown, ms := J.FieldTrees(fields), J.FieldTrees(fields) + J.TagsTree(tags);
    match tags
    case NoTags =>
      assert ms == shown;
    case Tags(entries) =>
      assert ms[|ms| - 1].1 == JsonReader.Obj(J.TagTrees(entries));
      assert TagsOf(ms).entries == entries;
  }

  /** What is seen of a stream: its index, what is shown behind it, and its tags. */
  datatype StreamSeen = StreamSeen(index: int, details: seq<(string, JsonReader.Json)>, tags: Tags)

  function StreamOf(j: JsonReader.Json): StreamSeen {
    var ms := Members(j);
    var shown := WithoutTags(ms);
    StreamSeen(Number(Member(ms, "index")), if shown == [] then [] else shown[1..], TagsOf(ms))
  }

  function Seen(s: StreamInfo): StreamSeen {
    StreamSeen(s.index, J.FieldTrees(J.Shown(s.details)), s.tags)
  }

  lemma StreamReadsBack(s: StreamInfo)
    ensures StreamOf(J.SectionTree(ShowStream(s))) == Seen(s)
  {
    hide J.Shown;
    var index: Field := IntField("index", s.index);
    J.ShownParts([index], s.details);
    TagsReadBack(J.Shown(ShowStream(s).fields), s.tags);
    var shown := J.FieldTrees(J.Shown(ShowStream(s).fields));
    assert shown[0] == ("index", JsonReader.Int(s.index)) && shown[1..] == J.FieldTrees(J.Shown(s.details));
  }

  function FormatOf(j: JsonReader.Json): FormatInfo {
    var ms := Members(j);
    FormatInfo(TextOr(Member(ms, "filename")), Number(Member(ms, "nb_streams")), TextOr(Member(ms, "format_name")),
               TextOr(Member(ms, "format_long_name")), Text(Member(ms, "start_time")), Text(Member(ms, "duration")),
               Text(Member(ms, "size")), Text(Member(ms, "bit_rate")), TagsOf(ms))
  }

  const FORMAT_KEYS: seq<string> := ["filename", "nb_streams", "format_name", "format_long_name", "start_time",
                                     "duration", "size", "bit_rate"]

  lemma FormatKeysDiffer(i: nat, j: nat)
    requires i < j < 8
    ensures |FORMAT_KEYS| == 8 && FORMAT_KEYS[i] != FORMAT_KEYS[j]
    ensures FORMAT_KEYS[i] != "tags" && FORMAT_KEYS[j] != "tags"
  {
    assert |FORMAT_KEYS[i]| != |FORMAT_KEYS[j]| || FORMAT_KEYS[i][0] != FORMAT_KEYS[j][0];
    assert |FORMAT_KEYS[i]| != 4 || FORMAT_KEYS[i][0] != 't';
    assert |FORMAT_KEYS[j]| != 4 || FORMAT_KEYS[j][0] != 't';
  }

  lemma KeysOfFormat(f: FormatInfo)
    ensures var fs := ShowFormat(f).fields;
      |fs| == |FORMAT_KEYS| == 8 && forall j :: 0 <= j < 8 ==> fs[j].key == FORMAT_KEYS[j]
  {
  }

  lemma FormatMember(f: FormatInfo, i: nat)
    requires i < 8
    ensures var fs := ShowFormat(f).fields;
      && |fs| == 8 && fs[i].key == FORMAT_KEYS[i]
      && Member(Members(J.SectionTree(ShowFormat(f))), FORMAT_KEYS[i])
         == if fs[i].OptField? then None else Some(ValueOf(fs[i]))
  {
    var fields := ShowFormat(f).fields;
    KeysOfFormat(f);
    forall j | 0 <= j < 8 && j != i ensures fields[j].key != FORMAT_KEYS[i] {
      if j < i { FormatKeysDiffer(j, i); } else { FormatKeysDiffer(i, j); }
    }
    if i == 0 { FormatKeysDiffer(0, 1); } else { FormatKeysDiffer(0, i); }
    hide J.FieldTrees, J.Shown;
    MemberShown(fields, i, FORMAT_KEYS[i]);
    MemberConcat(J.FieldTrees(J.Shown(fields)), J.TagsTree(f.tags), FORMAT_KEYS[i]);
    assert Member(J.TagsTree(f.tags), FORMAT_KEYS[i]).None?;
  }

  /** The printed object of a container tells all of it. */
  lemma FormatReadsBack(f: FormatInfo)
    ensures FormatOf(J.SectionTree(ShowFormat(f))) == f
  {
    TagsReadBack(J.Shown(ShowFormat(f).fields), f.tags);
    assert TagsOf(Members(J.SectionTree(ShowFormat(f)))) == f.tags;
    hide Member, Members, J.SectionTree, TagsOf;
    FormatMember(f, 0);
    FormatMember(f, 1);
    FormatMember(f, 2);
    FormatMember(f, 3);
    FormatMember(f, 4);
    FormatMember(f, 5);
    FormatMember(f, 6);
    FormatMember(f, 7);
  }

  /** A file as the reader sees it: the chapters that were printed. */
  datatype FileSeen = FileSeen(packets: Option<seq<PacketInfo>>, streams: Option<seq<StreamSeen>>,
                               format: Option<FormatInfo>)

  function Elements(j: JsonReader.Json): seq<JsonReader.Json> {
    if j.Arr? then j.elements else []
  }

  function PacketsOf(es: seq<JsonReader.Json>): seq<PacketInfo> {
    seq(|es|, i requires 0 <= i < |es| => PacketOf(es[i]))
  }

  function StreamsOf(es: seq<JsonReader.Json>): seq<StreamSeen> {
    seq(|es|, i requires 0 <= i < |es| => StreamOf(es[i]))
  }

  function SeenStreams(ss: seq<StreamInfo>): seq<StreamSeen> {
    seq(|ss|, i requires 0 <= i < |ss| => Seen(ss[i]))
  }

  function FileOf(j: JsonReader.Json): FileSeen {
    var ms := Members(j);
    FileSeen(match Member(ms, "packets")
             case None => None
             case Some(a) => Some(PacketsOf(Elements(a))),
             match Member(ms, "streams")
             case None => None
             case Some(a) => Some(StreamsOf(Elements(a))),
             match Member(ms, "format")
             case None => None
             case Some(f) => Some(FormatOf(f)))
  }

  function SeenAll(packets: Option<seq<PacketInfo>>, streams: Option<seq<StreamInfo>>, format: Option<FormatInfo>)
    : FileSeen
  {
    FileSeen(packets,
             match streams
             case None => None
             case Some(ss) => Some(SeenStreams(ss)),
             format)
  }

  lemma ChapterKeysDiffer()
    ensures "packets" != "streams" && "packets" != "format" && "streams" != "format"
  {
    assert "packets"[0] != "streams"[0] && |"format"| != |"packets"| == |"streams"|;
  }

  lemma MemberOne(key: string, value: JsonReader.Json, rest: seq<(string, JsonReader.Json)>, other: string)
    ensures Member([(key, value)] + rest, other) == if key == other then Some(value) else Member(rest, other)
  {
    assert ([(key, value)] + rest)[1..] == rest;
  }

  lemma PacketsReadBack(ps: seq<PacketInfo>)
    ensures PacketsOf(J.SectionTrees(PacketSections(ps))) == ps
  {
    hide PacketOf, ShowPacket, J.SectionTree;
    forall i | 0 <= i < |ps| ensures PacketOf(J.SectionTree(ShowPacket(ps[i]))) == ps[i] {
      PacketReadsBack(ps[i]);
    }
  }

  lemma StreamsReadBack(ss: seq<StreamInfo>)
    ensures StreamsOf(J.SectionTrees(StreamSections(ss))) == SeenStreams(ss)
  {
    hide StreamOf, ShowStream, J.SectionTree, Seen;
    forall i | 0 <= i < |ss| ensures StreamOf(J.SectionTree(ShowStream(ss[i]))) == Seen(ss[i]) {
      StreamReadsBack(ss[i]);
    }
  }

  // ----- every such document is sound -----

  lemma {:induction false} SomethingShown(fields: seq<Field>, i: nat)
    requires i < |fields| && !fields[i].OptField?
    ensures J.Shown(fields) != []
    decreases |fields|
  {
    if i < |fields| - 1 {
      SomethingShown(fields[..|fields| - 1], i);
    }
  }

  predicate SectionFine(sec: Section) {
    J.SectionSound(sec) && C.RowSound(sec) && C.PlainName(sec.name)
  }

  lemma PacketFine(p: PacketInfo)
    ensures SectionFine(ShowPacket(p))
  {
    hide J.Shown;
    SomethingShown(ShowPacket(p).fields, 1);
  }

  lemma StreamFine(s: StreamInfo)
    ensures SectionFine(ShowStream(s))
  {
    hide J.Shown;
    SomethingShown(ShowStream(s).fields, 0);
  }

  lemma FormatFine(f: FormatInfo)
    ensures SectionFine(ShowFormat(f))
  {
    hide J.Shown;
    SomethingShown(ShowFormat(f).fields, 0);
  }

  predicate ChapterFine(c: Chapter) {
    && (J.MultipleEntries(c.name) || |c.sections| == 1)
    && forall i :: 0 <= i < |c.sections| ==> SectionFine(c.sections[i])
  }

  lemma ChaptersFine(packets: Option<seq<PacketInfo>>, streams: Option<seq<StreamInfo>>, format: Option<FormatInfo>)
    ensures var doc := ProbeFile(packets, streams, format); forall i :: 0 <= i < |doc| ==> ChapterFine(doc[i])
  {
    hide SectionFine;
    var doc := ProbeFile(packets, streams, format);
    forall i, k | 0 <= i < |doc| && 0 <= k < |doc[i].sections| ensures SectionFine(doc[i].sections[k]) {
      if doc[i].name == "packets" {
        PacketFine(packets.value[k]);
      } else if doc[i].name == "streams" {
        StreamFine(streams.value[k]);
      } else {
        FormatFine(format.value);
      }
    }
  }

  lemma {:induction false} RowsFine(doc: seq<Chapter>)
    requires forall i :: 0 <= i < |doc| ==> ChapterFine(doc[i])
    ensures forall k :: 0 <= k < |AllSections(doc)| ==> SectionFine(AllSections(doc)[k])
    decreases |doc|
  {
    hide SectionFine;
    if doc != [] {
      RowsFine(doc[..|doc| - 1]);
      assert ChapterFine(doc[|doc| - 1]);
    }
  }

  /** Whatever the file holds and whichever chapters are asked for, both writers print a sound
      document: a field that is not optional comes first or second in every section. */
  lemma ProbeDocumentsAreSound(packets: Option<seq<PacketInfo>>, streams: Option<seq<StreamInfo>>,
                               format: Option<FormatInfo>)
    ensures var doc := ProbeFile(packets, streams, format);
      J.Sound(doc) && C.RowsSound(AllSections(doc)) && C.PlainNames(AllSections(doc))
  {
    hide J.SectionSound, C.RowSound, C.PlainName;
    var doc := ProbeFile(packets, streams, format);
    ChaptersFine(packets, streams, format);
    RowsFine(doc);
    forall i | 0 <= i < |doc| ensures J.ChapterSound(doc[i]) {
      assert ChapterFine(doc[i]);
      assert forall k :: 0 <= k < |doc[i].sections| ==> SectionFine(doc[i].sections[k]);
    }
    assert forall k :: 0 <= k < |AllSections(doc)| ==> SectionFine(AllSections(doc)[k]);
  }

  /** What is printed under a chapter's name, when it was asked for. */
  lemma ChapterMembers(packets: Option<seq<PacketInfo>>, streams: Option<seq<StreamInfo>>, format: Option<FormatInfo>)
    requires J.Sound(ProbeFile(packets, streams, format))
    ensures var ms := J.Trees(ProbeFile(packets, streams, format));
      && Member(ms, "packets")
         == (if packets.None? then None else Some(JsonReader.Arr(J.SectionTrees(PacketSections(packets.value)))))
      && Member(ms, "streams")
         == (if streams.None? then None else Some(JsonReader.Arr(J.SectionTrees(StreamSections(streams.value)))))
      && Member(ms, "format") == (if format.None? then None else Some(J.SectionTree(ShowFormat(format.value))))
  {
    hide J.SectionTree, ShowFormat, ShowPacket, ShowStream;
    ChapterKeysDiffer();
    var a: seq<(string, JsonReader.Json)> :=
      if packets.None? then [] else [("packets", JsonReader.Arr(J.SectionTrees(PacketSections(packets.value))))];
    var b: seq<(string, JsonReader.Json)> :=
      if streams.None? then [] else [("streams", JsonReader.Arr(J.SectionTrees(StreamSections(streams.value))))];
    var c: seq<(string, JsonReader.Json)> :=
      if format.None? then [] else [("format", J.SectionTree(ShowFormat(format.value)))];
    assert J.Trees(ProbeFile(packets, streams, format)) == a + b + c;
    forall key: string ensures Member(a + b + c, key) == if Member(a, key).Some? then Member(a, key)
                               else if Member(b, key).Some? then Member(b, key) else Member(c, key) {
      MemberConcat(a + b, c, key);
      MemberConcat(a, b, key);
    }
    forall key: string, v: JsonReader.Json, k: string
      ensures Member([(k, v)], key) == if k == key then Some(v) else None {
      MemberOne(k, v, [], key);
      assert [(k, v)] + [] == [(k, v)];
    }
  }

  /** The tree of the document tells all that was found of the chapters that were asked for. */
  lemma FileReadsBack(packets: Option<seq<PacketInfo>>, streams: Option<seq<StreamInfo>>, format: Option<FormatInfo>)
    requires J.Sound(ProbeFile(packets, streams, format))
    ensures FileOf(JsonReader.Obj(J.Trees(ProbeFile(packets, streams, format)))) == SeenAll(packets, streams, format)
  {
    hide PacketOf, StreamOf, FormatOf, Seen, J.SectionTree, ShowPacket, ShowStream, ShowFormat, J.Trees, J.Sound;
    hide ProbeFile, Member, J.SectionTrees, PacketsOf, StreamsOf, SeenStreams;
    ChapterMembers(packets, streams, format);
    if packets.Some? { PacketsReadBack(packets.value); }
    if streams.Some? { StreamsReadBack(streams.value); }
    if format.Some? { FormatReadsBack(format.value); }
  }

  /** So what ffprobe prints reads back as what it found, with either writer. */
  method PrintFile(writer: Format, packets: Option<seq<PacketInfo>>, streams: Option<seq<StreamInfo>>,
                   format: Option<FormatInfo>) returns (text: string)
    ensures var doc := ProbeFile(packets, streams, format);
      if writer.Json? then
        && J.Sound(doc) && JsonReader.Read(text) == Some(JsonReader.Obj(J.Trees(doc)))
        && FileOf(JsonReader.Read(text).value) == SeenAll(packets, streams, format)
      else C.Read(text) == Some(C.Rows(AllSections(doc)))
  {
    hide J.Sound, JsonReader.Read, C.Read, C.RowsSound, C.PlainNames, C.Rows, AllSections, ProbeFile;
    ProbeDocumentsAreSound(packets, streams, format);
    var doc := ProbeFile(packets, streams, format);
    if writer.Json? {
      FileReadsBack(packets, streams, format);
      text := ProbeFileJson(doc);
    } else {
      text := ProbeFileCsv(doc);
    }
  }
}
