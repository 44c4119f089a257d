/** Page splitting and the OCR fallback. */
module Parsing {
  import opened Text

  datatype Page = Page(number: int, text: string)

  datatype ParsedDocument = ParsedDocument(pages: seq<Page>, usedOcr: bool)

  function Split(s: string, sep: char): (parts: seq<string>)
    ensures |parts| >= 1
    ensures forall p :: p in parts ==> sep !in p
  {
    if s == "" then [""]
    else
      var rest := Split(s[1..], sep);
      if s[0] == sep then [""] + rest else [[s[0]] + rest[0]] + rest[1..]
  }

  function Join(parts: seq<string>, sep: char): string
    requires |parts| >= 1
  {
    if |parts| == 1 then parts[0] else parts[0] + [sep] + Join(parts[1..], sep)
  }

  lemma {:induction false} JoinSplit(s: string, sep: char)
    ensures Join(Split(s, sep), sep) == s
  {
    if s != "" {
      JoinSplit(s[1..], sep);
      var rest := Split(s[1..], sep);
      assert s == [s[0]] + s[1..];
      if s[0] == sep {
        assert ([""] + rest)[1..] == rest;
      } else {
        var longer := [[s[0]] + rest[0]] + rest[1..];
        assert longer[1..] == rest[1..];
        assert |rest| > 1 ==>
          [s[0]] + rest[0] + [sep] + Join(rest[1..], sep) == [s[0]] + (rest[0] + [sep] + Join(rest[1..], sep));
      }
    }
  }

  lemma {:induction false} SplitJoin(parts: seq<string>, sep: char)
    requires |parts| >= 1 && forall p :: p in parts ==> sep !in p
    ensures Split(Join(parts, sep), sep) == parts
    decreases |parts|, |parts[0]|
  {
    var s := Join(parts, sep);
    if parts[0] == "" {
      if |parts| == 1 {
        assert parts == [""];
      } else {
        SplitJoin(parts[1..], sep);
        assert s == [sep] + Join(parts[1..], sep);
        assert s[1..] == Join(parts[1..], sep);
        assert [""] + parts[1..] == parts;
      }
    } else {
      var shorter := [parts[0][1..]] + parts[1..];
      assert shorter[1..] == parts[1..];
      assert parts[0] == [parts[0][0]] + parts[0][1..];
      assert parts[0][0] in parts[0];
      forall p | p in shorter
        ensures sep !in p
      {
        assert p == parts[0][1..] || p in parts;
        assert forall c :: c in parts[0][1..] ==> c in parts[0];
      }
      SplitJoin(shorter, sep);
      assert s == [parts[0][0]] + Join(shorter, sep);
      assert s[1..] == Join(shorter, sep);
      assert [[parts[0][0]] + shorter[0]] + shorter[1..] == parts;
    }
  }

  /** Page texts are separated by form feeds and numbered from 1. */
  function ParseNative(source: string): ParsedDocument {
    var texts := Split(source, '\U{000C}');
    ParsedDocument(seq(|texts|, i requires 0 <= i < |texts| => Page(i + 1, texts[i])), false)
  }

  predicate HasText(doc: ParsedDocument) {
    exists p :: p in doc.pages && !IsBlank(p.text, IsPySpace)
  }

  function ParseDocument(source: string, ocr: string -> ParsedDocument): ParsedDocument {
    var parsed := ParseNative(source);
    if HasText(parsed) then parsed else ocr(source)
  }

  /** Pages are the parts between form feeds, numbered from 1. */
  lemma NativePages(source: string)
    ensures var doc := ParseNative(source);
            && !doc.usedOcr && |doc.pages| == |Split(source, '\U{000C}')|
            && forall k :: 0 <= k < |doc.pages| ==>
                 doc.pages[k].number == k + 1 && doc.pages[k].text == Split(source, '\U{000C}')[k]
  {}
}
