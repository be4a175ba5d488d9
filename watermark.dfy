/** The fixed watermark both send methods append to every outbound text. The
    package name and author are read from the package manifest, which is not
    part of this model; they are parameters here. */
module Watermark {
  import opened Common
  import opened StrUtil

  /** `c.toUpperCase()` for the ASCII letters; other characters are kept. */
  function UpperAscii(c: char): (u: char)
    ensures 'a' <= c <= 'z' ==> u as int == c as int - 32
    ensures !('a' <= c <= 'z') ==> u == c
  {
    if 'a' <= c <= 'z' then (c as int - 32) as char else c
  }

  /** JavaScript `s.indexOf(c)`: the index, or -1. */
  function IndexOrMinusOne(s: string, c: char): (i: int)
    ensures -1 <= i < |s|
    ensures i >= 0 ==> s[i] == c && c !in s[..i]
    ensures i == -1 ==> c !in s
  {
    var r := Before(s, c);
    if |r| < |s| then |r| else -1
  }

  /** JavaScript `s.slice(start, end)` for 0 <= start: a negative `end` counts
      from the back, an `end` past the string stops at its end, and an empty
      string results when `end` is not past `start`. */
  function Slice(s: string, start: nat, end: int): (r: string)
    ensures var e := if end < 0 then |s| + end else if end > |s| then |s| else end;
      |r| == if start < e then e - start else 0
    ensures forall k :: 0 <= k < |r| ==> start + k < |s| && r[k] == s[start + k]
  {
    var e := if end < 0 then |s| + end else if end > |s| then |s| else end;
    if start < e then s[start..e] else []
  }

  /** The brand line as the source computes it:
      `s[0].toUpperCase() + s.slice(1, s.indexOf('-'))`. */
  function BrandAsWritten(name: string): (r: string)
    requires name != []
    ensures |r| >= 1 && r[0] == UpperAscii(name[0])
  {
    [UpperAscii(name[0])] + Slice(name, 1, IndexOrMinusOne(name, '-'))
  }

  /** The intended brand: the first hyphen-separated word of the package name,
      capitalised. */
  function Brand(name: string): (r: string)
    requires name != []
    ensures var word := Before(name, '-');
      word != [] ==> r == [UpperAscii(name[0])] + word[1..]
    ensures |r| >= 1 && r[0] == UpperAscii(name[0]) && '-' !in r[1..]
  {
    var word := Before(name, '-');
    if word == [] then [UpperAscii(name[0])] else [UpperAscii(name[0])] + word[1..]
  }

  /** For a package name with a hyphen the two agree. */
  lemma BrandAgreesWithHyphen(name: string)
    requires name != [] && '-' in name
    ensures BrandAsWritten(name) == Brand(name)
  {
    var i := IndexOrMinusOne(name, '-');
    assert i >= 0;
    assert Before(name, '-') == name[..i];
  }

  /** Without a hyphen, the source drops the last letter of the name. */
  lemma BrandAsWrittenDropsLastLetter(name: string)
    requires |name| >= 2 && '-' !in name
    ensures Brand(name) == [UpperAscii(name[0])] + name[1..]
    ensures BrandAsWritten(name) == Brand(name)[..|name| - 1]
  {
    assert Before(name, '-') == name;
  }

  /** The concrete input: package name "whatsapp". */
  lemma BrandCounterexample()
    ensures BrandAsWritten("whatsapp") == "Whatsap"
    ensures Brand("whatsapp") == "Whatsapp"
  {
    BrandAsWrittenDropsLastLetter("whatsapp");
  }

  const SentVia: string := "\n\n> Sent via "

  /** `\n\n> Sent via <brand>\n> @<author>/<name>.git`, with the brand as the
      source computes it (BrandAsWritten). */
  function Suffix(name: string, author: string): (w: string)
    requires name != []
    ensures StartsWith(w, SentVia) && |w| > |SentVia| && w[|SentVia|] == UpperAscii(name[0])
    ensures var tail := "\n> @" + author + "/" + name + ".git";
      |tail| < |w| && w[|w| - |tail|..] == tail
  {
    var brand := BrandAsWritten(name);
    var tail := "\n> @" + author + "/" + name + ".git";
    var w := SentVia + brand + tail;
    assert w[..|SentVia|] == SentVia;
    assert w[|w| - |tail|..] == tail;
    w
  }

  /** With a hyphen in the package name, the watermark carries the intended
      brand. */
  lemma SuffixWithHyphen(name: string, author: string)
    requires name != [] && '-' in name
    ensures Suffix(name, author) == SentVia + Brand(name) + "\n> @" + author + "/" + name + ".git"
  {
    BrandAgreesWithHyphen(name);
  }

  /** The text actually sent for package name "whatsapp": the brand is
      "Whatsap". */
  lemma SuffixCounterexample(author: string)
    ensures Suffix("whatsapp", author) == SentVia + "Whatsap" + "\n> @" + author + "/whatsapp.git"
  {
    BrandCounterexample();
  }

  /** `message += watermark`: the message is kept whole, in front. */
  function Stamp(message: string, name: string, author: string): (text: string)
    requires name != []
    ensures StartsWith(text, message)
    ensures text[|message|..] == Suffix(name, author)
  {
    message + Suffix(name, author)
  }
}
