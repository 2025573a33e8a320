/**
 The two escapers of ffprobe that precompute the size of their output: JSON strings and CSV
 fields. Each runs over the text twice, once to size the shared buffer and once to fill it.
 Text is what a C string holds, without its terminator.
 */
module ProbeEscape {

  const SIZE_MAX: nat := 0xffff_ffff_ffff_ffff
  const TOO_BIG := "FFPROBE_TOO_BIG_STRING"
  const NOT_ESCAPED := "FFPROBE_THIS_STRING_COULD_NOT_BE_ESCAPED"

  // ----- JSON -----

  function HexChar(d: nat): char
    requires d < 16
  {
    "0123456789abcdef"[d]
  }

  /** The simple escapes, by position in `json_escape` and `json_subst`. */
  function Subst(c: char): (r: string)
    ensures |r| <= 1
  {
    if c == '"' then "\"" else if c == '\\' then "\\"
    else if c == 8 as char then "b" else if c == 12 as char then "f"
    else if c == '\n' then "n" else if c == '\r' then "r" else if c == '\t' then "t" else ""
  }

  function EscapeChar(c: char): (r: string)
    ensures r != []
  {
    if Subst(c) != "" then "\\" + Subst(c)
    else if c < 32 as char then "\\u00" + [HexChar(c as int / 16), HexChar(c as int % 16)]
    else [c]
  }

  function JsonEscape(s: string): string {
    if s == [] then [] else JsonEscape(s[..|s| - 1]) + EscapeChar(s[|s| - 1])
  }

  lemma JsonEscapeSnoc(s: string, c: char)
    ensures JsonEscape(s + [c]) == JsonEscape(s) + EscapeChar(c)
  {
    assert (s + [c])[..|s|] == s;
  }

  lemma JsonEscapeNil()
    ensures JsonEscape([]) == []
  {
  }

  lemma {:induction false} JsonEscapeCons(c: char, s: string)
    ensures JsonEscape([c] + s) == EscapeChar(c) + JsonEscape(s)
    decreases |s|
  {
    hide JsonEscape, EscapeChar;
    if s == [] {
      JsonEscapeNil();
      assert [c] + s == [] + [c];
      JsonEscapeSnoc([], c);
    } else {
      var init, last := s[..|s| - 1], s[|s| - 1];
      assert s == init + [last];
      assert [c] + s == ([c] + init) + [last];
      JsonEscapeSnoc([c] + init, last);
      JsonEscapeSnoc(init, last);
      JsonEscapeCons(c, init);
    }
  }

  // ----- CSV, section 2 of RFC 4180 -----

  predicate IsSpecial(c: char, sep: char) {
    c == '"' || c == sep || c == '\n' || c == '\r'
  }

  predicate NeedsQuotes(s: string, sep: char) {
    exists i :: 0 <= i < |s| && IsSpecial(s[i], sep)
  }

  function DoubleChar(c: char): string {
    if c == '"' then "\"\"" else [c]
  }

  function DoubleQuotes(s: string): string {
    if s == [] then [] else DoubleQuotes(s[..|s| - 1]) + DoubleChar(s[|s| - 1])
  }

  lemma DoubleQuotesSnoc(s: string, c: char)
    ensures DoubleQuotes(s + [c]) == DoubleQuotes(s) + DoubleChar(c)
  {
    assert (s + [c])[..|s|] == s;
  }

  lemma DoubleQuotesNil()
    ensures DoubleQuotes([]) == []
  {
  }

  lemma {:induction false} DoubleQuotesCons(c: char, s: string)
    ensures DoubleQuotes([c] + s) == DoubleChar(c) + DoubleQuotes(s)
    decreases |s|
  {
    hide DoubleQuotes, DoubleChar;
    if s == [] {
      DoubleQuotesNil();
      assert [c] + s == [] + [c];
      DoubleQuotesSnoc([], c);
    } else {
      var init, last := s[..|s| - 1], s[|s| - 1];
      assert s == init + [last];
      assert [c] + s == ([c] + init) + [last];
      DoubleQuotesSnoc([c] + init, last);
      DoubleQuotesSnoc(init, last);
      DoubleQuotesCons(c, init);
    }
  }

  function Quotes(s: string, sep: char): string {
    if NeedsQuotes(s, sep) then "\"" else ""
  }

  function CsvEscape(s: string, sep: char): string {
    Quotes(s, sep) + DoubleQuotes(s) + Quotes(s, sep)
  }

  // ----- the code -----

  class Scratch {
    var buf: array<char>

    constructor ()
      ensures fresh(buf) && buf.Length == 256
    {
      buf := new char[256];
    }

    /** ESCAPE_REALLOC_BUF: the buffer only grows, and only when the memory is there. */
    method Reserve(size: nat, memory: bool) returns (ok: bool)
      modifies this
      ensures ok <==> old(buf.Length) >= size || memory
      ensures ok ==> buf.Length >= size && buf.Length >= old(buf.Length) && (buf == old(buf) || fresh(buf))
      ensures !ok ==> buf == old(buf)
    {
      if buf.Length < size {
        if !memory {
          return false;
        }
        buf := new char[size];
      }
      return true;
    }

    /** json_escape_str */
    method JsonEscapeStr(src: string, memory: bool) returns (r: string)
      modifies this, buf
      ensures buf == old(buf) || fresh(buf)
      ensures !JsonFits(src) ==> r == TOO_BIG
      ensures JsonFits(src) && !memory && old(buf.Length) < |JsonEscape(src)| + 1 ==> r == NOT_ESCAPED
      ensures JsonFits(src) && (memory || old(buf.Length) >= |JsonEscape(src)| + 1) ==>
        r == JsonEscape(src) && buf.Length >= |r| + 1 && buf[..|r|] == r && buf[|r|] == 0 as char
    {
      hide JsonEscape, JsonFits;
      var big, size := JsonSize(src);
      if big {
        return TOO_BIG;
      }
      var ok := Reserve(size, memory);
      if !ok {
        return NOT_ESCAPED;
      }
      JsonFill(src);
      r := buf[..size - 1];
    }

    /** The second pass and the terminator. */
    method JsonFill(src: string)
      requires buf.Length >= |JsonEscape(src)| + 1
      modifies buf
      ensures buf[..|JsonEscape(src)| + 1] == JsonEscape(src) + [0 as char]
    {
      hide JsonEscape, EscapeChar;
      var q := 0;
      JsonEscapeNil();
      for p := 0 to |src|
        invariant q == |JsonEscape(src[..p])| <= |JsonEscape(src)|
        invariant buf[..q] == JsonEscape(src[..p])
      {
        assert src[..p + 1] == src[..p] + [src[p]];
        JsonEscapeSnoc(src[..p], src[p]);
        JsonSizeMonotone(src, p + 1);
        q := Put(q, EscapeChar(src[p]));
      }
      assert src[..|src|] == src;
      buf[q] := 0 as char;
    }

    /** The characters one source character turns into go to the end of the text. */
    method Put(q: nat, text: string) returns (q': nat)
      requires q + |text| <= buf.Length
      modifies buf
      ensures q' == q + |text| && buf[..q'] == old(buf[..q]) + text
    {
      forall i | 0 <= i < |text| {
        buf[q + i] := text[i];
      }
      q' := q + |text|;
    }

    /** csv_escape_str */
    method CsvEscapeStr(src: string, sep: char, memory: bool) returns (r: string)
      modifies this, buf
      ensures buf == old(buf) || fresh(buf)
      ensures !CsvFits(src, sep) ==> r == TOO_BIG
      ensures CsvFits(src, sep) && !memory && old(buf.Length) < |CsvEscape(src, sep)| + 1 ==> r == NOT_ESCAPED
      ensures CsvFits(src, sep) && (memory || old(buf.Length) >= |CsvEscape(src, sep)| + 1) ==>
        r == CsvEscape(src, sep) && buf.Length >= |r| + 1 && buf[..|r|] == r && buf[|r|] == 0 as char
    {
      hide CsvEscape, CsvFits, NeedsQuotes;
      var big, quote, size := CsvSize(src, sep);
      if big {
        return TOO_BIG;
      }
      var ok := Reserve(size, memory);
      if !ok {
        return NOT_ESCAPED;
      }
      CsvFill(src, sep, quote);
      r := buf[..size - 1];
    }

    /** A double quote is written twice. */
    method PutDoubled(q: nat, c: char) returns (q': nat)
      requires q + |DoubleChar(c)| <= buf.Length
      modifies buf
      ensures q' == q + |DoubleChar(c)| && buf[..q'] == old(buf[..q]) + DoubleChar(c)
    {
      q' := q;
      if c == '"' {
        q' := Put(q', "\"");
      }
      q' := Put(q', [c]);
    }

    method PutDoubledAll(q: nat, src: string) returns (q': nat)
      requires q + |DoubleQuotes(src)| <= buf.Length
      modifies buf
      ensures q' == q + |DoubleQuotes(src)| && buf[..q'] == old(buf[..q]) + DoubleQuotes(src)
    {
      hide DoubleQuotes, DoubleChar;
      q' := q;
      ghost var before := buf[..q];
      DoubleQuotesNil();
      for p := 0 to |src|
        invariant q' == q + |DoubleQuotes(src[..p])| <= q + |DoubleQuotes(src)|
        invariant buf[..q'] == before + DoubleQuotes(src[..p])
      {
        assert src[..p + 1] == src[..p] + [src[p]];
        DoubleQuotesSnoc(src[..p], src[p]);
        DoubleSizeMonotone(src, p + 1);
        q' := PutDoubled(q', src[p]);
      }
      assert src[..|src|] == src;
    }

    /** The second pass and the terminator. */
    method CsvFill(src: string, sep: char, quote: bool)
      requires buf.Length >= |CsvEscape(src, sep)| + 1 && quote == NeedsQuotes(src, sep)
      modifies buf
      ensures buf[..|CsvEscape(src, sep)| + 1] == CsvEscape(src, sep) + [0 as char]
    {
      hide DoubleQuotes, NeedsQuotes;
      var q := 0;
      if quote {
        q := Put(q, "\"");
      }
      q := PutDoubledAll(q, src);
      if quote {
        q := Put(q, "\"");
      }
      buf[q] := 0 as char;
      assert buf[..q] == CsvEscape(src, sep);
    }
  }

  /** The size check runs before every character but never after the last one. */
  predicate JsonFits(src: string) {
    src == [] || |JsonEscape(src[..|src| - 1])| + 1 <= SIZE_MAX - 6
  }

  predicate CsvFits(src: string, sep: char) {
    src == [] || |CsvEscape(src[..|src| - 1], sep)| + 1 <= SIZE_MAX - 4
  }

  /** The first pass of json_escape_str, which sizes the text with its terminator. */
  method JsonSize(src: string) returns (big: bool, size: nat)
    ensures big <==> !JsonFits(src)
    ensures !big ==> size == |JsonEscape(src)| + 1
  {
    hide JsonEscape, EscapeChar, Subst;
    big, size := false, 1;
    JsonEscapeNil();
    for p := 0 to |src|
      invariant size == |JsonEscape(src[..p])| + 1
      invariant p > 0 ==> |JsonEscape(src[..p - 1])| + 1 <= SIZE_MAX - 6
    {
      if size > SIZE_MAX - 6 {
        JsonSizeMonotone(src, p);
        return true, size;
      }
      assert src[..p + 1] == src[..p] + [src[p]];
      JsonEscapeSnoc(src[..p], src[p]);
      EscapeCharSize(src[p]);
      if Subst(src[p]) != "" {
        size := size + 2;
      } else if src[p] < 32 as char {
        size := size + 6;
      } else {
        size := size + 1;
      }
    }
    assert src[..|src|] == src;
  }

  /** The first pass of csv_escape_str. */
  method CsvSize(src: string, sep: char) returns (big: bool, quote: bool, size: nat)
    ensures big <==> !CsvFits(src, sep)
    ensures !big ==> size == |CsvEscape(src, sep)| + 1 && quote == NeedsQuotes(src, sep)
  {
    hide DoubleQuotes, NeedsQuotes;
    big, quote, size := false, false, 1;
    DoubleQuotesNil();
    NoQuotesNil(sep);
    for p := 0 to |src|
      invariant quote == NeedsQuotes(src[..p], sep)
      invariant size == |CsvEscape(src[..p], sep)| + 1
      invariant p > 0 ==> |CsvEscape(src[..p - 1], sep)| + 1 <= SIZE_MAX - 4
    {
      if size > SIZE_MAX - 4 {
        CsvSizeMonotone(src, sep, p);
        return true, quote, size;
      }
      CsvPrefix(src, sep, p);
      if src[p] == '"' || src[p] == sep || src[p] == '\n' || src[p] == '\r' {
        if !quote {
          quote, size := true, size + 2;
        }
      }
      if src[p] == '"' {
        size := size + 1;
      }
      size := size + 1;
    }
    assert src[..|src|] == src;
  }

  lemma NoQuotesNil(sep: char)
    ensures !NeedsQuotes([], sep)
  {
  }

  lemma EscapeCharSize(c: char)
    ensures |EscapeChar(c)| == if Subst(c) != "" then 2 else if c < 32 as char then 6 else 1
  {
  }

  lemma {:induction false} JsonSizeMonotone(s: string, p: nat)
    requires p <= |s|
    ensures |JsonEscape(s[..p])| <= |JsonEscape(s)|
    ensures p < |s| ==> |JsonEscape(s[..p])| <= |JsonEscape(s[..|s| - 1])|
    decreases |s|
  {
    if p == |s| {
      assert s[..p] == s;
    } else {
      assert s[..|s| - 1][..p] == s[..p];
      JsonSizeMonotone(s[..|s| - 1], p);
    }
  }

  lemma {:induction false} DoubleSizeMonotone(s: string, p: nat)
    requires p <= |s|
    ensures |DoubleQuotes(s[..p])| <= |DoubleQuotes(s)|
    ensures p < |s| ==> |DoubleQuotes(s[..p])| <= |DoubleQuotes(s[..|s| - 1])|
    decreases |s|
  {
    if p == |s| {
      assert s[..p] == s;
    } else {
      assert s[..|s| - 1][..p] == s[..p];
      DoubleSizeMonotone(s[..|s| - 1], p);
    }
  }

  lemma CsvPrefix(s: string, sep: char, p: nat)
    requires p < |s|
    ensures NeedsQuotes(s[..p + 1], sep) == (NeedsQuotes(s[..p], sep) || IsSpecial(s[p], sep))
    ensures DoubleQuotes(s[..p + 1]) == DoubleQuotes(s[..p]) + DoubleChar(s[p])
  {
    var a, b := s[..p], s[..p + 1];
    assert b == a + [s[p]];
    DoubleQuotesSnoc(a, s[p]);
    if NeedsQuotes(a, sep) {
      var i :| 0 <= i < |a| && IsSpecial(a[i], sep);
      assert IsSpecial(b[i], sep);
    }
    if IsSpecial(s[p], sep) { assert IsSpecial(b[p], sep); }
    if NeedsQuotes(b, sep) {
      var i :| 0 <= i < |b| && IsSpecial(b[i], sep);
      if i < p { assert IsSpecial(a[i], sep); }
    }
  }

  lemma CsvSizeMonotone(s: string, sep: char, p: nat)
    requires p < |s|
    ensures |CsvEscape(s[..p], sep)| <= |CsvEscape(s[..|s| - 1], sep)|
  {
    DoubleSizeMonotone(s, p);
    var a, b := s[..p], s[..|s| - 1];
    if NeedsQuotes(a, sep) {
      var i :| 0 <= i < |a| && IsSpecial(a[i], sep);
      assert IsSpecial(b[i], sep);
    }
  }
}
