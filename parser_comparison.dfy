/** Where the two parsers of the line protocol agree and where they part:
    the Electron main process strips the tag only at the start of a line, keeps
    only the text between a token's first and second colon and skips tokens with
    an empty key; the Python backend deletes the tag anywhere, splits at the
    first colon only, keeps empty keys and adds `raw`. */
module ParserComparison {
  import opened Values
  import opened Text
  import opened KeyValue
  import ElectronParser
  import SerialBackend

  /** A token with at most one colon, and not at its start. */
  predicate PlainToken(part: string) {
    (part == [] || part[0] != ':') &&
    forall i, j :: 0 <= i < j < |part| && part[i] == ':' ==> part[j] != ':'
  }

  /** In a plain token with a colon, the key before the colon is not empty and
      the text after it has no colon. */
  lemma PlainTokenSplit(part: string)
    requires PlainToken(part) && ':' in part
    ensures IndexOf(part, ':') > 0
    ensures ':' !in part[IndexOf(part, ':') + 1..]
  {
    var colon := IndexOf(part, ':');
    var afterKey := part[colon + 1..];
    forall j | 0 <= j < |afterKey|
      ensures afterKey[j] != ':'
    {
      assert afterKey[j] == part[colon + 1 + j];
    }
  }

  /** The trimmed text after a token's first colon: the text both number
      readers are given for a plain token. */
  function AfterColon(part: string): string
    requires ':' in part
  {
    Trim(part[IndexOf(part, ':') + 1..])
  }

  /** `Number.parseFloat` and Python's `float` read a token's value text alike. */
  predicate ReadersAgreeOn(part: string, jsParse: string -> Option<real>, pyParse: string -> Option<real>) {
    ':' in part ==> jsParse(AfterColon(part)) == pyParse(AfterColon(part))
  }

  /** The two readers read every value text of a line alike. */
  predicate ReadersAgree(parts: seq<string>, jsParse: string -> Option<real>, pyParse: string -> Option<real>) {
    forall t <- parts :: ReadersAgreeOn(t, jsParse, pyParse)
  }

  /** Two readers that read a text alike decode it alike. */
  lemma SameDecode(v: string, jsParse: string -> Option<real>, pyParse: string -> Option<real>)
    requires jsParse(v) == pyParse(v)
    ensures DecodeValue(v, jsParse) == DecodeValue(v, pyParse)
  {
  }

  /** On a plain token whose value text both readers read alike, both parsers
      decode the same entry. */
  lemma SameEntry(part: string, jsParse: string -> Option<real>, pyParse: string -> Option<real>)
    requires PlainToken(part) && ReadersAgreeOn(part, jsParse, pyParse)
    ensures ElectronParser.JsEntry(part, jsParse) == SerialBackend.PyEntry(part, pyParse)
  {
    if ':' in part {
      PlainTokenSplit(part);
      var afterKey := part[IndexOf(part, ':') + 1..];
      assert afterKey[..IndexOf(afterKey, ':')] == afterKey;
      SameDecode(AfterColon(part), jsParse, pyParse);
    }
  }

  /** The lines on which both parsers remove the same framing: a line without
      any tag, or a line that opens with `[ESP-NOW] RX` and holds no second
      one. */
  predicate SameFraming(data: string) {
    (!StartsWith(data, ElectronParser.TagMarker) && !Occurs(data, SerialBackend.FramingTag)) ||
    (StartsWith(data, SerialBackend.FramingTag) && !Occurs(data[|SerialBackend.FramingTag|..], SerialBackend.FramingTag))
  }

  /** The Electron parser removes a leading `[ESP-NOW] RX` together with the
      whitespace after it. */
  lemma StripFramingTag(rest: string)
    ensures ElectronParser.StripTagPrefix(SerialBackend.FramingTag + rest) == TrimStart(rest)
  {
    var tail := "RX" + rest;
    assert SerialBackend.FramingTag + rest == ElectronParser.TagMarker + (" " + tail);
    ConcatHalves(ElectronParser.TagMarker, " " + tail);
    assert tail[0] == 'R';
    TrimStartAfterSpaces(" ", tail);
    ConcatHalves("RX", rest);
  }

  /** The Python parser deletes a leading `[ESP-NOW] RX` when it is the only
      one. */
  lemma DeleteFramingTag(rest: string)
    requires !Occurs(rest, SerialBackend.FramingTag)
    ensures ReplaceAll(SerialBackend.FramingTag + rest, SerialBackend.FramingTag, "") == rest
  {
    var data := SerialBackend.FramingTag + rest;
    ConcatHalves(SerialBackend.FramingTag, rest);
    ReplaceAllIdentity(rest, SerialBackend.FramingTag, "");
    assert data[|SerialBackend.FramingTag|..] == rest;
  }

  /** A line as the receiver sends it, `[ESP-NOW] RX` and then the readings, is
      cut into the same tokens by both parsers. */
  lemma SameTokensTagged(rest: string)
    requires !Occurs(rest, SerialBackend.FramingTag)
    ensures ElectronParser.Tokens(SerialBackend.FramingTag + rest) == SerialBackend.Tokens(SerialBackend.FramingTag + rest)
  {
    StripFramingTag(rest);
    DeleteFramingTag(rest);
    TrimAfterTrimStart(rest);
  }

  /** A line without any tag, or opening with the one tag, is cut into the
      same tokens by both parsers. */
  lemma SameTokens(data: string)
    requires SameFraming(data)
    ensures ElectronParser.Tokens(data) == SerialBackend.Tokens(data)
  {
    if StartsWith(data, SerialBackend.FramingTag) {
      var rest := data[|SerialBackend.FramingTag|..];
      assert data == SerialBackend.FramingTag + rest;
      SameTokensTagged(rest);
    } else {
      ReplaceAllIdentity(data, SerialBackend.FramingTag, "");
    }
  }

  /** Plain tokens whose value texts both readers read alike decode to the same
      entries under both parsers. */
  lemma SameEntries(parts: seq<string>, jsParse: string -> Option<real>, pyParse: string -> Option<real>)
    requires forall t <- parts :: PlainToken(t)
    requires ReadersAgree(parts, jsParse, pyParse)
    ensures ElectronParser.Entries(parts, jsParse) == SerialBackend.Entries(parts, pyParse)
  {
    var js := ElectronParser.Entries(parts, jsParse);
    var py := SerialBackend.Entries(parts, pyParse);
    forall i | 0 <= i < |parts|
      ensures js[i] == py[i]
    {
      assert parts[i] in parts;
      SameEntry(parts[i], jsParse, pyParse);
    }
  }

  /** The Python dictionary in terms of the decoded tokens. */
  lemma PyFieldsOf(data: string, parse: string -> Option<real>, es: seq<Option<Entry>>)
    requires es == SerialBackend.Entries(SerialBackend.Tokens(data), parse)
    ensures SerialBackend.ParsedFields(data, parse) == SerialBackend.WithRaw(Collect(es), data)
  {
  }

  /** The JavaScript object in terms of the decoded tokens. */
  lemma JsFieldsOf(data: string, parse: string -> Option<real>, es: seq<Option<Entry>>)
    requires es == ElectronParser.Entries(ElectronParser.Tokens(data), parse)
    ensures ElectronParser.ParsedFields(data, parse) == Rename(Collect(es))
  {
  }

  /** `raw` is added after the renaming. */
  lemma WithRawIsRename(data: string, result: map<string, Value>)
    ensures SerialBackend.WithRaw(result, data) == Rename(result)["raw" := Str(data)]
  {
  }

  /** On a line without a tag or opening with the one tag, made of plain
      tokens whose value texts both number readers read alike, the Python
      dictionary is the JavaScript object with `raw` added. */
  lemma SameFields(data: string, jsParse: string -> Option<real>, pyParse: string -> Option<real>)
    requires SameFraming(data)
    requires forall t <- ElectronParser.Tokens(data) :: PlainToken(t)
    requires ReadersAgree(ElectronParser.Tokens(data), jsParse, pyParse)
    ensures SerialBackend.ParsedFields(data, pyParse) == ElectronParser.ParsedFields(data, jsParse)["raw" := Str(data)]
  {
    var es := ElectronParser.Entries(ElectronParser.Tokens(data), jsParse);
    SameTokens(data);
    SameEntries(ElectronParser.Tokens(data), jsParse, pyParse);
    PyFieldsOf(data, pyParse, es);
    JsFieldsOf(data, jsParse, es);
    WithRawIsRename(data, Collect(es));
  }

  /** A line that does not start with the tag but carries the framing tag
      further on: the Electron parser leaves the line as it is, the Python
      parser deletes the tag. */
  lemma MidLineTag(data: string)
    requires !StartsWith(data, ElectronParser.TagMarker)
    requires Occurs(data, SerialBackend.FramingTag)
    ensures ElectronParser.StripTagPrefix(data) == data
    ensures ReplaceAll(data, SerialBackend.FramingTag, "") != data
  {
    ReplaceAllChangesIff(data, SerialBackend.FramingTag, "");
  }

  /** A token `key:v1:v2`: the Electron parser reads `v1`, the Python parser
      reads `v1:v2`. */
  lemma SecondColon(key: string, v1: string, v2: string, parse: string -> Option<real>)
    requires key != [] && ':' !in key && ':' !in v1
    ensures ElectronParser.JsEntry(key + [':'] + (v1 + [':'] + v2), parse)
         == Some(Entry(ToLower(Trim(key)), DecodeValue(Trim(v1), parse)))
    ensures SerialBackend.PyEntry(key + [':'] + (v1 + [':'] + v2), parse)
         == Some(Entry(ToLower(Trim(key)), DecodeValue(Trim(v1 + [':'] + v2), parse)))
  {
    ElectronParser.JsEntryDropsAfterSecondColon(key, v1, v2, parse);
    SerialBackend.PyEntrySplitsOnce(key, v1 + [':'] + v2, parse);
  }

  /** A token `:v` with an empty key: skipped by the Electron parser, stored
      under the empty key by the Python parser. */
  lemma EmptyKey(v: string, parse: string -> Option<real>)
    ensures ElectronParser.JsEntry([':'] + v, parse).None?
    ensures SerialBackend.PyEntry([':'] + v, parse) == Some(Entry("", DecodeValue(Trim(v), parse)))
  {
    ElectronParser.JsEntryKeeps([':'] + v, parse);
    var part := [':'] + v;
    assert part[0] == ':';
    assert IndexOf(part, ':') == 0;
    assert part[..0] == [] && part[1..] == v;
    assert ToLower(Trim([])) == [];
  }

  /** A value text that `Number.parseFloat` reads as a number and Python's
      `float` rejects: the Electron parser stores the number, the Python parser
      the text. */
  lemma ReaderDivergence(key: string, v: string, x: real, jsParse: string -> Option<real>, pyParse: string -> Option<real>)
    requires key != [] && ':' !in key && ':' !in v && !IsMissingMarker(Trim(v))
    requires jsParse(Trim(v)) == Some(x) && pyParse(Trim(v)) == None
    ensures ElectronParser.JsEntry(key + ":" + v, jsParse) == Some(Entry(ToLower(Trim(key)), Num(x)))
    ensures SerialBackend.PyEntry(key + ":" + v, pyParse) == Some(Entry(ToLower(Trim(key)), Str(Trim(v))))
  {
    ElectronParser.JsEntryOneColon(key, v, jsParse);
    SerialBackend.PyEntrySplitsOnce(key, v, pyParse);
    assert key + ":" + v == key + [':'] + v;
  }

  /** The key `t` is already trimmed and lower-case. */
  lemma KeyT()
    ensures ':' !in "t" && "t" != [] && ToLower(Trim("t")) == "t"
  {
    assert "t"[0] == 't';
    TrimUnchanged("t");
  }

  /** The value text `12abc` is already trimmed. */
  lemma Trimmed12abc()
    ensures Trim("12abc") == "12abc"
  {
    assert "12abc"[0] == '1' && "12abc"[4] == 'c';
    TrimUnchanged("12abc");
  }

  /** The value text `12abc` has no colon and is no missing marker. */
  lemma Plain12abc()
    ensures ':' !in "12abc" && !IsMissingMarker("12abc")
  {
    assert "12abc"[0] == '1';
  }

  /** `t:12abc`: `Number.parseFloat` reads the leading 12, Python's `float`
      raises, so the temperature is 12 in the Electron record and the text
      `12abc` in the Python one. */
  lemma TrailingGarbage(jsParse: string -> Option<real>, pyParse: string -> Option<real>)
    requires jsParse("12abc") == Some(12.0) && pyParse("12abc") == None
    ensures ElectronParser.JsEntry("t:12abc", jsParse) == Some(Entry("t", Num(12.0)))
    ensures SerialBackend.PyEntry("t:12abc", pyParse) == Some(Entry("t", Str("12abc")))
  {
    KeyT();
    Trimmed12abc();
    Plain12abc();
    assert "t" + ":" + "12abc" == "t:12abc";
    ReaderDivergence("t", "12abc", 12.0, jsParse, pyParse);
  }
}
