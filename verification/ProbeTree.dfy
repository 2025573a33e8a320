/**
 What ffprobe prints: chapters of sections of fields, each section with a dictionary of tags or
 none. The writers differ only in the text they turn it into.
 */
module ProbeTree {

  /** `OptField` is a string that a writer may leave out. */
  datatype Field =
    | IntField(key: string, n: int)
    | StrField(key: string, s: string)
    | OptField(key: string, s: string)

  /** `NoTags` is the null dictionary. */
  datatype Tags = NoTags | Tags(entries: seq<(string, string)>)

  datatype Section = Section(name: string, fields: seq<Field>, tags: Tags)

  datatype Chapter = Chapter(name: string, sections: seq<Section>)

  // ----- the decimal form of an integer -----

  function DigitChar(d: nat): char
    requires d < 10
  {
    "0123456789"[d]
  }

  function Digits(n: nat): string {
    if n < 10 then [DigitChar(n)] else Digits(n / 10) + [DigitChar(n % 10)]
  }

  function Decimal(n: int): string {
    if n < 0 then "-" + Digits(-n) else Digits(n)
  }

  // ----- texts with a separator between them -----

  function Join(parts: seq<string>, sep: string): string {
    if parts == [] then ""
    else if |parts| == 1 then parts[0]
    else Join(parts[..|parts| - 1], sep) + sep + parts[|parts| - 1]
  }

  lemma JoinNone(sep: string)
    ensures Join([], sep) == ""
  {
  }

  lemma JoinOne(part: string, sep: string)
    ensures Join([part], sep) == part
  {
  }

  lemma JoinSnoc(parts: seq<string>, part: string, sep: string)
    requires parts != []
    ensures Join(parts + [part], sep) == Join(parts, sep) + sep + part
  {
    assert (parts + [part])[..|parts|] == parts;
  }

  lemma {:induction false} JoinCons(part: string, parts: seq<string>, sep: string)
    requires parts != []
    ensures Join([part] + parts, sep) == part + sep + Join(parts, sep)
    decreases |parts|
  {
    hide Join;
    var init, last := parts[..|parts| - 1], parts[|parts| - 1];
    assert parts == init + [last];
    if init == [] {
      assert [part] + parts == [part] + [last];
      JoinSnoc([part], last, sep);
      JoinOne(part, sep);
      JoinOne(last, sep);
    } else {
      assert [part] + parts == ([part] + init) + [last];
      JoinSnoc([part] + init, last, sep);
      JoinSnoc(init, last, sep);
      JoinCons(part, init, sep);
    }
  }

  /** One more part, with the separator that counting the parts calls for. */
  lemma JoinMore(parts: seq<string>, part: string, sep: string)
    ensures Join(parts + [part], sep) == Join(parts, sep) + (if parts == [] then "" else sep) + part
  {
    hide Join;
    if parts == [] {
      assert parts + [part] == [part];
      JoinOne(part, sep);
      JoinNone(sep);
    } else {
      JoinSnoc(parts, part, sep);
    }
  }
}
