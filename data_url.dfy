/** `extractFileInfoFromBase64`: a file given as a string is either a data URL
    of the restricted form `data:<mediatype>;base64,<payload>` (a subset of the
    syntax of section 3 of RFC 2397 with no `;` parameters in the media type),
    or bare base64. The base64 text is decoded by Node's lenient
    `Buffer.from(…, 'base64')`, which is a parameter `decode` here. */
module DataUrl {
  import opened Common
  import opened StrUtil

  const DataPrefix: string := "data:"
  const Base64Marker: string := ";base64,"
  const FallbackMimetype: string := "application/octet-stream"
  const FallbackFilename: string := "document"
  const FilenameOpen: string := "filename=\""
  const InvalidBase64Error: string := "Invalid base64 format"

  /** The two capture groups of `/^data:([^;]+);base64,(.+)$/`. */
  datatype DataUrlMatch = DataUrlMatch(mediaType: string, payload: string)

  /** `s` is matched by `/^data:([^;]+);base64,(.+)$/` with these captures:
      a non-empty media type without `;`, and a non-empty payload without line
      terminators (`.` does not match them, and `$` is the end of input). */
  ghost predicate Matches(s: string, mediaType: string, payload: string) {
    && s == DataPrefix + mediaType + Base64Marker + payload
    && |mediaType| > 0 && (forall i :: 0 <= i < |mediaType| ==> mediaType[i] != ';')
    && |payload| > 0 && (forall i :: 0 <= i < |payload| ==> !IsLineTerminator(payload[i]))
  }

  /** Nothing before the first `;` is a `;`. */
  lemma BeforeFirstSemicolon(rest: string, k: nat)
    requires IndexOf(rest, [';']) == Some(k)
    ensures k <= |rest| && forall i :: 0 <= i < k ==> rest[..k][i] != ';'
  {
    forall i | 0 <= i < k ensures rest[..k][i] != ';' {
      OccursAtSingle(rest, ';', i);
    }
  }

  /** A string starting with `data:` is the prefix, the text up to index `k`
      of the rest, the marker found there, and what follows it. */
  lemma MarkerSplit(s: string, k: nat)
    requires StartsWith(s, DataPrefix) && k <= |s[5..]| && StartsWith(s[5..][k..], Base64Marker)
    ensures k + 8 <= |s[5..]|
    ensures s == DataPrefix + s[5..][..k] + Base64Marker + s[5..][k + 8..]
  {
    var rest := s[5..];
    assert rest[k..k + 8] == rest[k..][..8];
    SplitThree(rest, k, k + 8);
    assert s == s[..5] + rest;
  }

  /** Where the text after `data:` has its first `;` at `k`, opening
      `;base64,`, the string is the prefix, the `;`-free media type, the marker
      and the rest. */
  lemma MatchParts(s: string, k: nat)
    requires StartsWith(s, DataPrefix)
    requires IndexOf(s[5..], [';']) == Some(k) && StartsWith(s[5..][k..], Base64Marker)
    ensures k + 8 <= |s[5..]|
    ensures s == DataPrefix + s[5..][..k] + Base64Marker + s[5..][k + 8..]
    ensures forall i :: 0 <= i < k ==> s[5..][..k][i] != ';'
  {
    BeforeFirstSemicolon(s[5..], k);
    MarkerSplit(s, k);
  }

  /** The regular-expression match. The media type runs to the first `;`,
      which must open `;base64,`. */
  function MatchDataUrl(s: string): (r: Option<DataUrlMatch>)
    ensures !StartsWith(s, DataPrefix) ==> r.None?
    ensures r.Some? ==> Matches(s, r.value.mediaType, r.value.payload)
  {
    if !StartsWith(s, DataPrefix) then None
    else
      var rest := s[5..];
      match IndexOf(rest, [';'])
      case None => None
      case Some(k) =>
        if k == 0 || !StartsWith(rest[k..], Base64Marker) then None
        else
          MatchParts(s, k);
          var m, p := rest[..k], rest[k + 8..];
          if |p| == 0 || exists i :: 0 <= i < |p| && IsLineTerminator(p[i]) then None
          else Some(DataUrlMatch(m, p))
  }

  /** Every string the regular expression matches is found, with its captures. */
  lemma MatchComplete(s: string, mediaType: string, payload: string)
    requires Matches(s, mediaType, payload)
    ensures MatchDataUrl(s) == Some(DataUrlMatch(mediaType, payload))
  {
    var rest := s[5..];
    assert s[..5] == DataPrefix;
    assert rest == mediaType + Base64Marker + payload;
    var k := |mediaType|;
    OccursAtSingle(rest, ';', k);
    forall i | 0 <= i < k ensures !OccursAt(rest, [';'], i) {
      OccursAtSingle(rest, ';', i);
      assert rest[i] == mediaType[i];
    }
    assert IndexOf(rest, [';']) == Some(k);
    assert rest[k..][..8] == Base64Marker;
    assert rest[..k] == mediaType && rest[k + 8..] == payload;
  }

  /** Text without a `:` is never a data URL. */
  lemma NoColonNoPrefix(s: string)
    requires ':' !in s
    ensures !StartsWith(s, DataPrefix)
  {
    if |s| >= |DataPrefix| {
      assert s[4] in s;
      assert s[..5][4] == s[4];
    }
  }

  /** `filename="<name>"` starts at index `i` of `mediaType`, with a non-empty
      name free of `"`: the regular expression `/filename="([^"]+)"/` matches
      there with capture `name`. */
  ghost predicate FilenameAt(mediaType: string, i: nat, name: string) {
    && OccursAt(mediaType, FilenameOpen + name + "\"", i)
    && |name| > 0 && (forall k :: 0 <= k < |name| ==> name[k] != '"')
  }

  /** The characters of a match: `filename="`, the name, which is free of
      `"`, then `"`. */
  lemma FilenameAtChars(mediaType: string, i: nat, n: string)
    requires FilenameAt(mediaType, i, n)
    ensures i + 11 + |n| <= |mediaType|
    ensures OccursAt(mediaType, FilenameOpen, i)
    ensures n == mediaType[i + 10..i + 10 + |n|]
    ensures forall k :: i + 10 <= k < i + 10 + |n| ==> mediaType[k] != '"'
    ensures mediaType[i + 10 + |n|] == '"'
  {
    var w := FilenameOpen + n + "\"";
    var m := mediaType[i..i + |w|];
    assert m == w;
    forall k | 0 <= k < 10 ensures mediaType[i + k] == FilenameOpen[k] {
      assert mediaType[i + k] == m[k];
      assert w[k] == FilenameOpen[k];
    }
    assert mediaType[i..i + 10] == FilenameOpen;
    forall k | 0 <= k < |n| ensures mediaType[i + 10 + k] == n[k] {
      assert mediaType[i + 10 + k] == m[10 + k];
      assert w[10 + k] == n[k];
    }
    assert mediaType[i + 10..i + 10 + |n|] == n;
    assert mediaType[i + 10 + |n|] == m[10 + |n|];
    assert w[10 + |n|] == '"';
  }

  /** At a given index the captured name is determined. */
  lemma FilenameAtUnique(mediaType: string, i: nat, n1: string, n2: string)
    requires FilenameAt(mediaType, i, n1) && FilenameAt(mediaType, i, n2)
    ensures n1 == n2
  {
    FilenameAtChars(mediaType, i, n1);
    FilenameAtChars(mediaType, i, n2);
  }

  /** A regular-expression match: where it starts and what it captured. */
  datatype FilenameMatch = FilenameMatch(at: nat, name: string)

  /** The leftmost match of `/filename="([^"]+)"/` at or after `from`. */
  function FindFilename(mediaType: string, from: nat): (r: Option<FilenameMatch>)
    ensures r.Some? ==> from <= r.value.at && FilenameAt(mediaType, r.value.at, r.value.name)
    ensures r.Some? ==> forall i, n :: from <= i < r.value.at ==> !FilenameAt(mediaType, i, n)
    ensures r.None? ==> forall i, n :: from <= i ==> !FilenameAt(mediaType, i, n)
    decreases |mediaType| - from
  {
    if from >= |mediaType| then
      assert forall i, n :: from <= i ==> !FilenameAt(mediaType, i, n);
      None
    else
      var here := MatchFilenameAt(mediaType, from);
      if here.Some? then Some(FilenameMatch(from, here.value))
      else FindFilename(mediaType, from + 1)
  }

  /** Where the expression matches, the capture runs from just after
      `filename="` up to the first `"` that follows. */
  lemma FilenameAtShape(mediaType: string, i: nat, n: string)
    ensures FilenameAt(mediaType, i, n) ==>
      && OccursAt(mediaType, FilenameOpen, i)
      && IndexOf(mediaType[i + 10..], ['"']) == Some(|n|)
      && n == mediaType[i + 10..i + 10 + |n|]
  {
    if FilenameAt(mediaType, i, n) {
      FilenameAtChars(mediaType, i, n);
      var tail := mediaType[i + 10..];
      OccursAtSingle(tail, '"', |n|);
      forall q | 0 <= q < |n| ensures !OccursAt(tail, ['"'], q) {
        OccursAtSingle(tail, '"', q);
        assert tail[q] == mediaType[i + 10 + q];
      }
    }
  }

  /** Conversely, `filename="` followed by a non-empty run up to the first
      `"` is a match. */
  lemma FilenameAtFromQuote(mediaType: string, i: nat, k: nat)
    requires OccursAt(mediaType, FilenameOpen, i)
    requires k > 0 && IndexOf(mediaType[i + 10..], ['"']) == Some(k)
    ensures FilenameAt(mediaType, i, mediaType[i + 10..][..k])
  {
    var tail := mediaType[i + 10..];
    OccursAtSingle(tail, '"', k);
    forall q | 0 <= q < k ensures tail[q] != '"' {
      OccursAtSingle(tail, '"', q);
    }
    var name := tail[..k];
    var whole := FilenameOpen + name + "\"";
    assert mediaType[i..i + |whole|] == whole;
  }

  /** Whether `/filename="([^"]+)"/` matches at index `i`, and its capture. */
  function MatchFilenameAt(mediaType: string, i: nat): (r: Option<string>)
    ensures r.Some? ==> FilenameAt(mediaType, i, r.value)
    ensures r.None? ==> forall n :: !FilenameAt(mediaType, i, n)
  {
    assert forall n :: FilenameAt(mediaType, i, n) ==>
      && OccursAt(mediaType, FilenameOpen, i)
      && IndexOf(mediaType[i + 10..], ['"']) == Some(|n|) by {
      forall n {
        FilenameAtShape(mediaType, i, n);
      }
    }
    if !OccursAt(mediaType, FilenameOpen, i) then None
    else
      var tail := mediaType[i + 10..];
      match IndexOf(tail, ['"'])
      case None => None
      case Some(k) =>
        if k == 0 then None
        else
          FilenameAtFromQuote(mediaType, i, k);
          Some(tail[..k])
  }

  /** Wherever the expression matches, `filename=` is included: the
      `includes('filename=')` guard in front of the match never changes the
      outcome. */
  lemma MatchIncludesKey(mediaType: string)
    ensures FindFilename(mediaType, 0).Some? ==> Contains(mediaType, "filename=")
  {
    if FindFilename(mediaType, 0).Some? {
      MatchHasKey(mediaType, FindFilename(mediaType, 0).value);
    }
  }

  lemma MatchHasKey(mediaType: string, m: FilenameMatch)
    requires FindFilename(mediaType, 0) == Some(m)
    ensures Contains(mediaType, "filename=")
  {
    var i := m.at;
    FilenameAtChars(mediaType, i, m.name);
    forall k | 0 <= k < 9 ensures mediaType[i + k] == "filename="[k] {
      assert mediaType[i..i + 10][k] == FilenameOpen[k];
    }
    assert mediaType[i..i + 9] == "filename=";
    ContainsAt(mediaType, "filename=", i);
  }

  /** The filename taken from the media type: the capture of the first
      `filename="…"` when the media type includes `filename=` and the
      expression matches; `document` otherwise. */
  function FilenameOf(mediaType: string): (name: string)
    ensures name == match FindFilename(mediaType, 0) case Some(m) => m.name case None => FallbackFilename
  {
    MatchIncludesKey(mediaType);
    var name := FallbackFilename;
    if Contains(mediaType, "filename=") then
      match FindFilename(mediaType, 0)
      case Some(m) => m.name
      case None => name
    else name
  }

  /** What the function returns (`base64Data` is the text that was decoded). */
  datatype FileInfo = FileInfo(mimetype: string, filename: string, base64Data: string, buffer: seq<byte>)

  /** `extractFileInfoFromBase64(file)`. A value that is not a string has no
      `startsWith`, and the resulting TypeError is rethrown as
      `Invalid base64 format`. */
  function ExtractFileInfo(file: JsValue, decode: string -> seq<byte>): (r: Attempt<FileInfo>)
    ensures !file.Str? <==> r == Threw(InvalidBase64Error)
    ensures file.Str? ==> r.Returned? && r.value.buffer == decode(r.value.base64Data)
    ensures file.Str? && MatchDataUrl(file.s).Some? ==>
      var m := MatchDataUrl(file.s).value;
      r.value.mimetype == m.mediaType && r.value.base64Data == m.payload && r.value.filename == FilenameOf(m.mediaType)
    ensures file.Str? && MatchDataUrl(file.s).None? ==>
      r.value == FileInfo(FallbackMimetype, FallbackFilename, file.s, decode(file.s))
  {
    match file
    case Str(s) =>
      var matched := if StartsWith(s, DataPrefix) then MatchDataUrl(s) else None;
      if matched.Some? then
        var m := matched.value;
        Returned(FileInfo(m.mediaType, FilenameOf(m.mediaType), m.payload, decode(m.payload)))
      else
        Returned(FileInfo(FallbackMimetype, FallbackFilename, s, decode(s)))
    case _ => Threw(InvalidBase64Error)
  }

  /** The first `;` after a `;`-free media type is the one that ends it. */
  lemma FirstSemicolon(mediaType: string, after: string)
    requires ';' !in mediaType
    ensures IndexOf(mediaType + ";" + after, [';']) == Some(|mediaType|)
  {
    var rest := mediaType + ";" + after;
    var k := |mediaType|;
    OccursAtSingle(rest, ';', k);
    forall i | 0 <= i < k ensures !OccursAt(rest, [';'], i) {
      OccursAtSingle(rest, ';', i);
      assert rest[i] == mediaType[i];
    }
  }

  /** A data URL whose media type carries a `;` parameter (beyond the one
      before `base64,`) falls back to the whole string as bare base64. */
  lemma ParameterFallsBack(mediaType: string, param: string, payload: string, decode: string -> seq<byte>)
    requires |mediaType| > 0 && ';' !in mediaType && ',' !in param
    ensures var s := DataPrefix + mediaType + ";" + param + Base64Marker + payload;
      ExtractFileInfo(Str(s), decode) == Returned(FileInfo(FallbackMimetype, FallbackFilename, s, decode(s)))
  {
    var s := DataPrefix + mediaType + ";" + param + Base64Marker + payload;
    var k := |mediaType|;
    var after := param + Base64Marker + payload;
    assert s[5..] == mediaType + ";" + after;
    FirstSemicolon(mediaType, after);
    assert after[6] != ',' by {
      if |param| > 6 {
        assert after[6] == param[6];
      } else {
        assert after[6] == Base64Marker[6 - |param|];
      }
    }
    assert s[5..][k..][7] == after[6];
    assert !StartsWith(s[5..][k..], Base64Marker) by {
      assert Base64Marker[7] == ',';
    }
    assert MatchDataUrl(s).None?;
  }
}
