/** `parseSerialData` of the Electron main process: a received line, already
    trimmed, loses a leading `[ESP-NOW] RX` tag, is split into whitespace
    separated tokens, and every `key:value` token with a non-empty key is decoded
    and stored under its lower-cased key; the twelve known keys are then renamed. */
module ElectronParser {
  import opened Values
  import opened Text
  import opened KeyValue

  /** The bracketed tag the ESP-NOW receiver puts in front of forwarded lines. */
  const TagMarker: string := "[ESP-NOW]"

  /** `replace(/^\[ESP-NOW\]\s*RX\s*\/, "")`: the tag, optional whitespace, `RX`
      and optional whitespace are removed, and only at the very start. */
  function StripTagPrefix(s: string): (r: string)
    ensures r != s ==> StartsWith(s, TagMarker)
  {
    if StartsWith(s, TagMarker) then
      var a := TrimStart(s[|TagMarker|..]);
      if StartsWith(a, "RX") then TrimStart(a[2..]) else s
    else s
  }

  /** A line that starts with the tag, `RX` and any whitespace around them loses
      exactly that prefix. */
  lemma StripTagPrefixRemovesTag(ws1: string, ws2: string, rest: string)
    requires forall i :: 0 <= i < |ws1| ==> IsSpace(ws1[i])
    requires forall i :: 0 <= i < |ws2| ==> IsSpace(ws2[i])
    requires rest == [] || !IsSpace(rest[0])
    ensures StripTagPrefix(TagMarker + (ws1 + ("RX" + (ws2 + rest)))) == rest
  {
    var tail := "RX" + (ws2 + rest);
    ConcatHalves(TagMarker, ws1 + tail);
    ConcatHalves("RX", ws2 + rest);
    assert tail[0] == 'R';
    TrimStartAfterSpaces(ws1, tail);
    TrimStartAfterSpaces(ws2, rest);
  }

  /** One token of the loop: a token with a colon is cut at its colons
      (`part.split(":")`), the text before the first colon is the key and the text
      between the first and the second colon the value; an empty key is skipped. */
  function JsEntry(part: string, parse: string -> Option<real>): Option<Entry>
  {
    if ':' !in part then None
    else
      var colon := IndexOf(part, ':');
      var key := part[..colon];
      var afterKey := part[colon + 1..];
      var value := afterKey[..IndexOf(afterKey, ':')];
      if key == "" then None
      else Some(Entry(ToLower(Trim(key)), DecodeValue(Trim(value), parse)))
  }

  /** A token yields an entry exactly when it has a colon and does not start
      with one; the key is the lower-cased text before the first colon. */
  lemma JsEntryKeeps(part: string, parse: string -> Option<real>)
    ensures JsEntry(part, parse).Some? <==> ':' in part && part[0] != ':'
    ensures JsEntry(part, parse).Some? ==> JsEntry(part, parse).value.key == ToLower(Trim(part[..IndexOf(part, ':')]))
  {
  }

  /** A token `key:v1:v2` keeps `v1` and drops what follows the second colon. */
  lemma JsEntryDropsAfterSecondColon(key: string, v1: string, v2: string, parse: string -> Option<real>)
    requires key != [] && ':' !in key && ':' !in v1
    ensures JsEntry(key + [':'] + (v1 + [':'] + v2), parse)
         == Some(Entry(ToLower(Trim(key)), DecodeValue(Trim(v1), parse)))
  {
    IndexOfAfter(key, ':', v1 + [':'] + v2);
    IndexOfAfter(v1, ':', v2);
  }

  /** A token with one colon stores its value under its lower-cased key. */
  lemma JsEntryOneColon(key: string, v: string, parse: string -> Option<real>)
    requires key != [] && ':' !in key && ':' !in v
    ensures JsEntry(key + ":" + v, parse) == Some(Entry(ToLower(Trim(key)), DecodeValue(Trim(v), parse)))
  {
    var part := key + [':'] + v;
    assert part == key + ":" + v;
    IndexOfAfter(key, ':', v);
    assert IndexOf(v, ':') == |v| && v[..|v|] == v;
  }

  /** The tokens of a line after the tag is removed (`split(/\s+/)`). */
  function Tokens(data: string): seq<string>
  {
    Words(Trim(StripTagPrefix(data)))
  }

  /** Each token decoded on its own. */
  function Entries(parts: seq<string>, parse: string -> Option<real>): (es: seq<Option<Entry>>)
    ensures |es| == |parts|
    ensures forall i :: 0 <= i < |parts| ==> es[i] == JsEntry(parts[i], parse)
  {
    seq(|parts|, i requires 0 <= i < |parts| => JsEntry(parts[i], parse))
  }

  /** The object `parseSerialData` returns for a line. */
  function ParsedFields(data: string, parse: string -> Option<real>): (mapped: map<string, Value>)
    ensures mapped.Keys <= OutputKeys
  {
    Rename(Collect(Entries(Tokens(data), parse)))
  }

  /** An output field is present exactly when some token of the line decodes to
      an entry for its firmware key (in any letter case, with a non-empty key). */
  lemma ParsedFieldPresent(data: string, parse: string -> Option<real>, o: string)
    requires o in OutputKeys
    ensures o in ParsedFields(data, parse) <==> Mentions(Entries(Tokens(data), parse), SourceKey(o))
  {
    CollectKeys(Entries(Tokens(data), parse), SourceKey(o));
  }

  /** The last token carrying a field's firmware key gives the field its value. */
  lemma ParsedFieldLastWins(data: string, parse: string -> Option<real>, o: string, i: nat)
    requires o in OutputKeys
    requires var es := Entries(Tokens(data), parse);
      i < |es| && es[i].Some? && es[i].value.key == SourceKey(o) &&
      forall j :: i < j < |es| ==> es[j].None? || es[j].value.key != SourceKey(o)
    ensures o in ParsedFields(data, parse)
    ensures ParsedFields(data, parse)[o] == Entries(Tokens(data), parse)[i].value.value
  {
    CollectLastWins(Entries(Tokens(data), parse), i);
  }

  /** The parser, as the main process runs it: the tag is removed, the line is
      cut into tokens, the decoded tokens are stored in turn, and the known keys
      are renamed. It stands for the source's loop and is proved equal to
      `ParsedFields`. */
  method ParseSerialData(data: string, parse: string -> Option<real>) returns (mapped: map<string, Value>)
    ensures mapped == ParsedFields(data, parse)
    ensures mapped.Keys <= OutputKeys
  {
    var cleanData := Trim(StripTagPrefix(data));
    var parts := Words(cleanData);
    var result := StoreEntries(Entries(parts, parse));
    mapped := Rename(result);
  }
}
