/** String operations the sensor pipeline relies on: whitespace trimming and
    splitting, ASCII case folding, literal search-and-replace, and joining or
    splitting on a one-character delimiter. Both the Electron main process and
    the Python backend use these; so do the CSV encoders and the asset rewriter. */
module Text {

  /** The six ASCII whitespace characters that JavaScript's `\s`/`trim()` and
      Python's `str.split()`/`str.strip()` both treat as whitespace. Python
      also counts U+001C to U+001F (and some non-ASCII characters) as
      whitespace where JavaScript does not; those are not modelled. */
  predicate IsSpace(c: char) {
    c == ' ' || c == '\t' || c == '\n' || c == '\r' || c == '\U{000B}' || c == '\U{000C}'
  }

  predicate NoSpace(s: string) {
    forall i :: 0 <= i < |s| ==> !IsSpace(s[i])
  }

  /** The two halves of a concatenation. */
  lemma ConcatHalves(a: string, b: string)
    ensures (a + b)[..|a|] == a && (a + b)[|a|..] == b
    ensures StartsWith(a + b, a)
  {
  }

  /** Drops leading whitespace. */
  function TrimStart(s: string): (r: string)
    ensures |r| <= |s| && r == s[|s| - |r|..]
    ensures r == [] || !IsSpace(r[0])
    ensures forall i :: 0 <= i < |s| - |r| ==> IsSpace(s[i])
  {
    if |s| > 0 && IsSpace(s[0]) then TrimStart(s[1..]) else s
  }

  /** Drops trailing whitespace. */
  function TrimEnd(s: string): (r: string)
    ensures |r| <= |s| && r == s[..|r|]
    ensures r == [] || !IsSpace(r[|r| - 1])
    ensures forall i :: |r| <= i < |s| ==> IsSpace(s[i])
  {
    if |s| > 0 && IsSpace(s[|s| - 1]) then TrimEnd(s[..|s| - 1]) else s
  }

  /** `trim()` / `strip()`. */
  function Trim(s: string): string {
    TrimStart(TrimEnd(s))
  }

  /** A string that neither starts nor ends with whitespace is its own trim. */
  lemma TrimUnchanged(s: string)
    requires s == [] || (!IsSpace(s[0]) && !IsSpace(s[|s| - 1]))
    ensures Trim(s) == s
  {
    assert TrimEnd(s) == s;
  }

  /** A string without whitespace is its own trim. */
  lemma TrimNoSpace(s: string)
    requires NoSpace(s)
    ensures Trim(s) == s
  {
    assert TrimStart(s) == s;
  }

  /** Dropping leading whitespace removes exactly a leading whitespace run. */
  lemma {:induction false} TrimStartAfterSpaces(ws: string, x: string)
    requires forall i :: 0 <= i < |ws| ==> IsSpace(ws[i])
    requires x == [] || !IsSpace(x[0])
    ensures TrimStart(ws + x) == x
    decreases |ws|
  {
    if ws == [] {
      assert ws + x == x;
    } else {
      assert (ws + x)[0] == ws[0] && (ws + x)[1..] == ws[1..] + x;
      TrimStartAfterSpaces(ws[1..], x);
    }
  }

  /** Dropping trailing whitespace stops at the last non-whitespace character,
      wherever that is. */
  lemma TrimEndAt(s: string, k: nat)
    requires k <= |s|
    requires forall i :: k <= i < |s| ==> IsSpace(s[i])
    requires k == 0 || !IsSpace(s[k - 1])
    ensures TrimEnd(s) == s[..k]
  {
  }

  /** Leading whitespace does not change the trim. */
  lemma TrimDropSpace(s: string)
    requires |s| > 0 && IsSpace(s[0])
    ensures Trim(s) == Trim(s[1..])
  {
    var k := |TrimEnd(s)|;
    if k == 0 {
      TrimEndAt(s[1..], 0);
    } else {
      assert TrimEnd(s)[k - 1] == s[k - 1];
      TrimEndAt(s[1..], k - 1);
      assert s[..k][1..] == s[1..][..k - 1];
    }
  }

  /** A whitespace run in front of a text does not change its trim. */
  lemma {:induction false} TrimAfterSpaces(ws: string, x: string)
    requires forall i :: 0 <= i < |ws| ==> IsSpace(ws[i])
    ensures Trim(ws + x) == Trim(x)
    decreases |ws|
  {
    if ws == [] {
      assert ws + x == x;
    } else {
      assert (ws + x)[0] == ws[0] && (ws + x)[1..] == ws[1..] + x;
      TrimDropSpace(ws + x);
      TrimAfterSpaces(ws[1..], x);
    }
  }

  /** Trimming after dropping leading whitespace is trimming. */
  lemma TrimAfterTrimStart(s: string)
    ensures Trim(TrimStart(s)) == Trim(s)
  {
    var r := TrimStart(s);
    var ws := s[..|s| - |r|];
    assert s == ws + r;
    TrimAfterSpaces(ws, r);
  }

  /** Length of the leading run of non-whitespace characters. */
  function WordLength(s: string): (n: nat)
    ensures n <= |s|
    ensures forall i :: 0 <= i < n ==> !IsSpace(s[i])
    ensures n < |s| ==> IsSpace(s[n])
  {
    if |s| == 0 || IsSpace(s[0]) then 0 else 1 + WordLength(s[1..])
  }

  /** The maximal runs of non-whitespace characters, in order: Python's
      `str.split()` with no argument, and JavaScript's `split(/\s+/)` applied to a
      non-empty trimmed string. */
  function Words(s: string): seq<string>
    decreases |s|
  {
    var t := TrimStart(s);
    if t == [] then []
    else
      var n := WordLength(t);
      [t[..n]] + Words(t[n..])
  }

  /** Every word is non-empty and free of whitespace. */
  lemma {:induction false} WordsAreWords(s: string)
    ensures forall w <- Words(s) :: w != [] && NoSpace(w)
    decreases |s|
  {
    var t := TrimStart(s);
    if t != [] {
      var n := WordLength(t);
      assert n > 0 by { assert !IsSpace(t[0]); }
      var w := t[..n];
      assert NoSpace(w) by {
        forall i | 0 <= i < |w| ensures !IsSpace(w[i]) { assert w[i] == t[i]; }
      }
      var rest := t[n..];
      WordsAreWords(rest);
      assert Words(s) == [w] + Words(rest);
      forall u <- Words(s) ensures u != [] && NoSpace(u) {
        if u != w { assert u in Words(rest); }
      }
    }
  }

  /** ASCII lower-casing of one character. */
  function LowerChar(c: char): char {
    if 'A' <= c <= 'Z' then (c as int + 32) as char else c
  }

  /** `toLowerCase()` / `lower()`, ASCII letters only. */
  function ToLower(s: string): (r: string)
    ensures |r| == |s|
  {
    if s == [] then [] else [LowerChar(s[0])] + ToLower(s[1..])
  }

  /** Index of the first occurrence of c in s, or |s| when there is none. */
  function IndexOf(s: string, c: char): (i: nat)
    ensures i <= |s|
    ensures i < |s| ==> s[i] == c
    ensures forall j :: 0 <= j < i ==> s[j] != c
    ensures i == |s| <==> c !in s
  {
    if |s| == 0 then 0 else if s[0] == c then 0 else 1 + IndexOf(s[1..], c)
  }

  /** The first c in `a + [c] + b` is the one after a, when a has none. */
  lemma IndexOfAfter(a: string, c: char, b: string)
    requires c !in a
    ensures IndexOf(a + [c] + b, c) == |a|
    ensures (a + [c] + b)[..|a|] == a && (a + [c] + b)[|a| + 1..] == b
  {
    var s := a + [c] + b;
    assert s[|a|] == c;
    assert forall k :: 0 <= k < |a| ==> s[k] == a[k];
  }

  predicate StartsWith(s: string, p: string) {
    |p| <= |s| && s[..|p|] == p
  }

  predicate EndsWith(s: string, p: string) {
    |p| <= |s| && s[|s| - |p|..] == p
  }

  /** p occurs somewhere in s. */
  predicate Occurs(s: string, p: string)
    decreases |s|
  {
    StartsWith(s, p) || (|s| > 0 && Occurs(s[1..], p))
  }

  /** Replaces every occurrence of p found by a left-to-right scan that resumes
      after each replaced occurrence: Python's `str.replace(p, r)` and
      JavaScript's `replace(/p/g, r)` for a literal pattern p. */
  function ReplaceAll(s: string, p: string, r: string): string
    requires p != []
    decreases |s|
  {
    if |s| == 0 then []
    else if StartsWith(s, p) then r + ReplaceAll(s[|p|..], p, r)
    else [s[0]] + ReplaceAll(s[1..], p, r)
  }

  /** The number of occurrences ReplaceAll replaces. */
  function Count(s: string, p: string): nat
    requires p != []
    decreases |s|
  {
    if |s| == 0 then 0
    else if StartsWith(s, p) then 1 + Count(s[|p|..], p)
    else Count(s[1..], p)
  }

  /** Each replacement changes the length by |r| - |p|; nothing else changes it. */
  lemma {:induction false} ReplaceAllLength(s: string, p: string, r: string)
    requires p != []
    ensures |ReplaceAll(s, p, r)| == |s| + Count(s, p) * (|r| - |p|)
    decreases |s|
  {
    if |s| == 0 {
    } else if StartsWith(s, p) {
      var t := s[|p|..];
      var c := Count(t, p);
      var d := |r| - |p|;
      ReplaceAllLength(t, p, r);
      assert |ReplaceAll(s, p, r)| == |r| + |ReplaceAll(t, p, r)|;
      assert Count(s, p) == 1 + c;
      Distribute(c, d);
    } else {
      ReplaceAllLength(s[1..], p, r);
    }
  }

  /** ReplaceAll replaces something exactly when the pattern occurs. */
  lemma {:induction false} CountPositiveIff(s: string, p: string)
    requires p != []
    ensures Count(s, p) > 0 <==> Occurs(s, p)
    decreases |s|
  {
    if |s| == 0 {
      assert !StartsWith(s, p);
    } else if !StartsWith(s, p) {
      CountPositiveIff(s[1..], p);
    }
  }

  /** A string without the pattern is left as it is. */
  lemma {:induction false} ReplaceAllIdentity(s: string, p: string, r: string)
    requires p != []
    requires !Occurs(s, p)
    ensures ReplaceAll(s, p, r) == s
    decreases |s|
  {
    if |s| > 0 {
      ReplaceAllIdentity(s[1..], p, r);
      assert [s[0]] + s[1..] == s;
    }
  }

  /** One more occurrence adds one more difference in length. */
  lemma Distribute(c: int, d: int)
    ensures (1 + c) * d == d + c * d
  {
  }

  /** Each replacement by a longer text lengthens the string by at least one
      character; each replacement by a shorter text shortens it by at least one. */
  lemma {:induction false} ReplaceAllLengthBounds(s: string, p: string, r: string)
    requires p != []
    ensures |r| > |p| ==> |ReplaceAll(s, p, r)| >= |s| + Count(s, p)
    ensures |r| < |p| ==> |ReplaceAll(s, p, r)| <= |s| - Count(s, p)
    decreases |s|
  {
    if |s| == 0 {
    } else if StartsWith(s, p) {
      ReplaceAllLengthBounds(s[|p|..], p, r);
    } else {
      ReplaceAllLengthBounds(s[1..], p, r);
    }
  }

  /** When replacement and pattern differ in length, the text changes exactly
      when the pattern occurs. */
  lemma ReplaceAllChangesIff(s: string, p: string, r: string)
    requires p != [] && |r| != |p|
    ensures ReplaceAll(s, p, r) != s <==> Occurs(s, p)
  {
    ReplaceAllLengthBounds(s, p, r);
    CountPositiveIff(s, p);
    if !Occurs(s, p) {
      ReplaceAllIdentity(s, p, r);
    }
  }

  /** A string starts with a non-empty pattern when its first character and the
      rest match. */
  lemma StartsWithCons(s: string, p: string)
    requires |s| > 0 && |p| > 0
    ensures StartsWith(s, p) <==> s[0] == p[0] && StartsWith(s[1..], p[1..])
  {
    if s[0] == p[0] && StartsWith(s[1..], p[1..]) {
      assert s[..|p|] == [s[0]] + s[1..][..|p| - 1];
    }
  }

  /** If the output of a replacement begins with w, and w does not contain the
      first character of the replacement text, then the input began with w too:
      no replacement can have happened inside that prefix. */
  lemma {:induction false} PrefixSurvives(s: string, p: string, r: string, w: string)
    requires p != [] && r != []
    requires r[0] !in w
    ensures StartsWith(ReplaceAll(s, p, r), w) ==> StartsWith(s, w)
    decreases |w|
  {
    if w != [] && |s| > 0 {
      var out := ReplaceAll(s, p, r);
      if StartsWith(s, p) {
        assert out[0] == r[0];
        assert w[0] in w;
      } else {
        assert out == [s[0]] + ReplaceAll(s[1..], p, r);
        assert out[1..] == ReplaceAll(s[1..], p, r);
        PrefixSurvives(s[1..], p, r, w[1..]);
        StartsWithCons(out, w);
        StartsWithCons(s, w);
      }
    }
  }

  /** An occurrence in a + b that cannot start inside a lies inside b. */
  lemma {:induction false} OccursSkipPrefix(a: string, b: string, q: string)
    requires q != [] && q[0] !in a
    ensures Occurs(a + b, q) ==> Occurs(b, q)
    decreases |a|
  {
    if a != [] {
      assert (a + b)[0] == a[0];
      assert (a + b)[1..] == a[1..] + b;
      OccursSkipPrefix(a[1..], b, q);
    } else {
      assert a + b == b;
    }
  }

  /** After ReplaceAll no occurrence of the pattern remains, provided the
      replacement cannot itself start or complete one: it is at least as long as
      the pattern and does not begin with it, the pattern's first character does
      not reappear after the start of the replacement, and the replacement's
      first character does not appear after the start of the pattern. */
  lemma {:induction false} NoOccurrenceAfterReplace(s: string, p: string, r: string)
    requires p != [] && |p| <= |r| && !StartsWith(r, p)
    requires p[0] !in r[1..] && r[0] !in p[1..]
    ensures !Occurs(ReplaceAll(s, p, r), p)
    decreases |s|
  {
    if |s| > 0 {
      if StartsWith(s, p) {
        var tail := ReplaceAll(s[|p|..], p, r);
        NoOccurrenceAfterReplace(s[|p|..], p, r);
        assert (r + tail)[..|p|] == r[..|p|];
        assert r + tail == [r[0]] + (r[1..] + tail);
        assert (r + tail)[1..] == r[1..] + tail;
        OccursSkipPrefix(r[1..], tail, p);
      } else {
        var out := ReplaceAll(s, p, r);
        var tail := ReplaceAll(s[1..], p, r);
        NoOccurrenceAfterReplace(s[1..], p, r);
        assert out == [s[0]] + tail && out[1..] == tail;
        PrefixSurvives(s[1..], p, r, p[1..]);
        StartsWithCons(out, p);
        StartsWithCons(s, p);
      }
    }
  }

  /** Replacing p by r does not create an occurrence of another pattern q that
      shares no character with the start of r and whose tail avoids r's first
      character. */
  lemma {:induction false} NoOccurrencePreserved(s: string, p: string, r: string, q: string)
    requires p != [] && q != [] && r != []
    requires q[0] !in r && r[0] !in q[1..]
    requires !Occurs(s, q)
    ensures !Occurs(ReplaceAll(s, p, r), q)
    decreases |s|
  {
    if |s| > 0 {
      assert !Occurs(s[1..], q);
      if StartsWith(s, p) {
        var tail := ReplaceAll(s[|p|..], p, r);
        OccursDrop(s, |p|, q);
        NoOccurrencePreserved(s[|p|..], p, r, q);
        OccursSkipPrefix(r, tail, q);
      } else {
        var out := ReplaceAll(s, p, r);
        var tail := ReplaceAll(s[1..], p, r);
        NoOccurrencePreserved(s[1..], p, r, q);
        assert out == [s[0]] + tail && out[1..] == tail;
        PrefixSurvives(s[1..], p, r, q[1..]);
        StartsWithCons(out, q);
        StartsWithCons(s, q);
      }
    }
  }

  /** An occurrence in a suffix is an occurrence in the whole string. */
  lemma {:induction false} OccursDrop(s: string, k: nat, q: string)
    requires k <= |s|
    ensures Occurs(s[k..], q) ==> Occurs(s, q)
    decreases k
  {
    if k > 0 {
      assert s[1..][k - 1..] == s[k..];
      OccursDrop(s[1..], k - 1, q);
    }
  }

  /** `parts.join(sep)`. */
  function Join(parts: seq<string>, sep: char): string
    decreases |parts|
  {
    if |parts| == 0 then ""
    else if |parts| == 1 then parts[0]
    else parts[0] + [sep] + Join(parts[1..], sep)
  }

  /** `s.split(sep)`: the pieces between delimiters, always at least one. */
  function Split(s: string, sep: char): (parts: seq<string>)
    ensures |parts| > 0
    decreases |s|
  {
    var i := IndexOf(s, sep);
    if i == |s| then [s] else [s[..i]] + Split(s[i + 1..], sep)
  }

  /** The first and last characters of a join come from the first and last parts. */
  lemma {:induction false} JoinEnds(parts: seq<string>, sep: char)
    requires |parts| > 0 && forall i :: 0 <= i < |parts| ==> parts[i] != []
    ensures |Join(parts, sep)| > 0
    ensures Join(parts, sep)[0] == parts[0][0]
    ensures Join(parts, sep)[|Join(parts, sep)| - 1] == parts[|parts| - 1][|parts[|parts| - 1]| - 1]
    decreases |parts|
  {
    if |parts| > 1 {
      JoinEnds(parts[1..], sep);
    }
  }

  /** A run of non-whitespace followed by whitespace is one word long. */
  lemma {:induction false} WordLengthOfWord(w: string, rest: string)
    requires NoSpace(w) && (rest == [] || IsSpace(rest[0]))
    ensures WordLength(w + rest) == |w|
    decreases |w|
  {
    if w == [] {
      assert w + rest == rest;
    } else {
      assert (w + rest)[0] == w[0] && (w + rest)[1..] == w[1..] + rest;
      WordLengthOfWord(w[1..], rest);
    }
  }

  /** A leading word is split off as it is. */
  lemma WordsStep(w: string, rest: string)
    requires w != [] && NoSpace(w) && (rest == [] || IsSpace(rest[0]))
    ensures Words(w + rest) == [w] + Words(rest)
  {
    var s := w + rest;
    assert s[0] == w[0];
    TrimStartAfterSpaces([], s);
    assert [] + s == s;
    WordLengthOfWord(w, rest);
    assert s[..|w|] == w && s[|w|..] == rest;
  }

  /** Leading whitespace does not change the words. */
  lemma WordsAfterSpace(c: char, s: string)
    requires IsSpace(c)
    ensures Words([c] + s) == Words(s)
  {
    assert ([c] + s)[1..] == s;
    assert TrimStart([c] + s) == TrimStart(s);
  }

  /** A word, a space, then text whose words are `rest`: the words are the
      word followed by `rest`. */
  lemma WordThenSpace(w: string, tail: string, rest: seq<string>)
    requires w != [] && NoSpace(w) && Words(tail) == rest
    ensures Words(w + ([' '] + tail)) == [w] + rest
  {
    WordsStep(w, [' '] + tail);
    WordsAfterSpace(' ', tail);
  }

  /** A join of two or more parts is the first part, the separator and the
      join of the rest. */
  lemma JoinCons(parts: seq<string>, sep: char)
    requires |parts| > 1
    ensures Join(parts, sep) == parts[0] + ([sep] + Join(parts[1..], sep))
  {
  }

  /** Splitting words joined by single spaces gives the words back. */
  lemma {:induction false} WordsJoin(ws: seq<string>)
    requires forall i :: 0 <= i < |ws| ==> ws[i] != [] && NoSpace(ws[i])
    ensures Words(Join(ws, ' ')) == ws
    decreases |ws|
  {
    if |ws| == 1 {
      WordsStep(ws[0], "");
      assert ws[0] + "" == ws[0];
    } else if |ws| > 1 {
      var rest := ws[1..];
      WordsJoin(rest);
      WordThenSpace(ws[0], Join(rest, ' '), rest);
      JoinCons(ws, ' ');
      assert ws == [ws[0]] + rest;
    }
  }

  /** Replacing every r back by p undoes a replacement of p by r, provided s
      held no r of its own and r cannot start again inside itself: the
      replacement touched the occurrences of p and nothing else. */
  lemma {:induction false} ReplaceAllUndo(s: string, p: string, r: string)
    requires p != [] && r != [] && r[0] !in r[1..]
    requires !Occurs(s, r)
    ensures ReplaceAll(ReplaceAll(s, p, r), r, p) == s
    decreases |s|
  {
    if |s| > 0 {
      var out := ReplaceAll(s, p, r);
      if StartsWith(s, p) {
        var rest := ReplaceAll(s[|p|..], p, r);
        OccursDrop(s, |p|, r);
        ReplaceAllUndo(s[|p|..], p, r);
        assert out == r + rest;
        assert out[..|r|] == r && out[|r|..] == rest;
        assert s == p + s[|p|..];
      } else {
        var rest := ReplaceAll(s[1..], p, r);
        assert out == [s[0]] + rest && out[1..] == rest;
        PrefixSurvives(s[1..], p, r, r[1..]);
        StartsWithCons(out, r);
        StartsWithCons(s, r);
        ReplaceAllUndo(s[1..], p, r);
        assert s == [s[0]] + s[1..];
      }
    }
  }

  /** A joined string contains the delimiter only where Join put it. */
  lemma {:induction false} JoinAvoids(parts: seq<string>, sep: char, c: char)
    requires c != sep && forall i :: 0 <= i < |parts| ==> c !in parts[i]
    ensures c !in Join(parts, sep)
    decreases |parts|
  {
    if |parts| > 1 {
      JoinAvoids(parts[1..], sep, c);
    }
  }

  /** Splitting a joined list gives the list back when no part holds the delimiter. */
  lemma {:induction false} SplitJoin(parts: seq<string>, sep: char)
    requires |parts| > 0
    requires forall i :: 0 <= i < |parts| ==> sep !in parts[i]
    ensures Split(Join(parts, sep), sep) == parts
    decreases |parts|
  {
    if |parts| > 1 {
      var rest := Join(parts[1..], sep);
      var s := parts[0] + [sep] + rest;
      assert IndexOf(s, sep) == |parts[0]| by {
        assert s[|parts[0]|] == sep;
        assert forall k :: 0 <= k < |parts[0]| ==> s[k] == parts[0][k];
      }
      assert s[..|parts[0]|] == parts[0];
      assert s[|parts[0]| + 1..] == rest;
      SplitJoin(parts[1..], sep);
    }
  }

  /** The JavaScript rule for one CSV cell: a text containing a comma is wrapped
      in double quotes, with no escaping of quotes inside it. */
  function QuoteIfComma(t: string): string {
    if ',' in t then "\"" + t + "\"" else t
  }

  /** Reads the comma-separated fields of one CSV line, where a field that starts
      with a double quote runs to the next double quote (section 2 of RFC 4180,
      without doubled quotes). Text after a closing quote that is not a comma
      starts the next field. */
  function DecodeFields(s: string): (fields: seq<string>)
    ensures |fields| > 0
    decreases |s|
  {
    if |s| > 0 && s[0] == '"' then
      var j := IndexOf(s[1..], '"');
      var field := s[1..1 + j];
      if j + 2 >= |s| then [field]
      else if s[j + 2] == ',' then [field] + DecodeFields(s[j + 3..])
      else [field] + DecodeFields(s[j + 2..])
    else
      var i := IndexOf(s, ',');
      if i == |s| then [s] else [s[..i]] + DecodeFields(s[i + 1..])
  }

  /** The first double quote after a quote-free text is the one that follows it. */
  lemma QuoteEnds(t: string, rest: string)
    requires '"' !in t
    ensures IndexOf(t + ['"'] + rest, '"') == |t|
  {
    var s := t + ['"'] + rest;
    assert s[|t|] == '"';
    assert forall k :: 0 <= k < |t| ==> s[k] == t[k];
  }

  /** A quoted cell is read back as its text. */
  lemma DecodeQuotedCell(t: string, rest: string)
    requires '"' !in t
    ensures DecodeFields("\"" + t + "\"") == [t]
    ensures DecodeFields("\"" + t + "\"" + [','] + rest) == [t] + DecodeFields(rest)
  {
    DecodeQuotedLast(t);
    DecodeQuotedFirst(t, rest);
  }

  /** A quoted cell at the end of a line. */
  lemma DecodeQuotedLast(t: string)
    requires '"' !in t
    ensures DecodeFields("\"" + t + "\"") == [t]
  {
    var s := "\"" + t + "\"";
    assert s[1..] == t + ['"'] + [];
    QuoteEnds(t, []);
    assert s[1..1 + |t|] == t;
  }

  /** A quoted cell followed by a comma and more cells. */
  lemma DecodeQuotedFirst(t: string, rest: string)
    requires '"' !in t
    ensures DecodeFields("\"" + t + "\"" + [','] + rest) == [t] + DecodeFields(rest)
  {
    var s := "\"" + t + "\"" + [','] + rest;
    QuotedFirstParts(t, rest);
    DecodeQuotedStep(s, |t|);
  }

  /** Where the quotes and the comma of `"t",rest` are. */
  lemma QuotedFirstParts(t: string, rest: string)
    requires '"' !in t
    ensures var s := "\"" + t + "\"" + [','] + rest;
      s[0] == '"' && IndexOf(s[1..], '"') == |t| && s[1..1 + |t|] == t &&
      s[|t| + 2] == ',' && s[|t| + 3..] == rest
  {
    var s := "\"" + t + "\"" + [','] + rest;
    var u := s[1..];
    assert u[|t|] == '"';
    assert forall k :: 0 <= k < |t| ==> u[k] == t[k];
  }

  /** A quoted first field closed at index j + 1 and followed by a comma. */
  lemma DecodeQuotedStep(s: string, j: nat)
    requires |s| > j + 2 && s[0] == '"' && IndexOf(s[1..], '"') == j && s[j + 2] == ','
    ensures DecodeFields(s) == [s[1..1 + j]] + DecodeFields(s[j + 3..])
  {
  }

  /** A bare cell without commas or quotes is read back as itself. */
  lemma DecodeBareCell(t: string, rest: string)
    requires '"' !in t && ',' !in t
    ensures DecodeFields(t) == [t]
    ensures DecodeFields(t + [','] + rest) == [t] + DecodeFields(rest)
  {
    var s := t + [','] + rest;
    assert s[0] != '"' by { if t != [] { assert s[0] == t[0]; } }
    assert IndexOf(s, ',') == |t| by {
      assert s[|t|] == ',';
      assert forall k :: 0 <= k < |t| ==> s[k] == t[k];
    }
    assert s[..|t|] == t && s[|t| + 1..] == rest;
  }

  /** One cell written by QuoteIfComma is read back as its text. */
  lemma DecodeCell(t: string, rest: string)
    requires '"' !in t
    ensures DecodeFields(QuoteIfComma(t)) == [t]
    ensures DecodeFields(QuoteIfComma(t) + [','] + rest) == [t] + DecodeFields(rest)
  {
    if ',' in t {
      DecodeQuotedCell(t, rest);
    } else {
      DecodeBareCell(t, rest);
    }
  }

  /** Decoding a row encoded with QuoteIfComma recovers every field, as long as
      no field contains a double quote. */
  lemma {:induction false} DecodeQuotedJoin(cells: seq<string>, texts: seq<string>)
    requires |cells| == |texts| > 0
    requires forall i :: 0 <= i < |texts| ==> '"' !in texts[i] && cells[i] == QuoteIfComma(texts[i])
    ensures DecodeFields(Join(cells, ',')) == texts
    decreases |cells|
  {
    var t := texts[0];
    if |cells| == 1 {
      assert Join(cells, ',') == QuoteIfComma(t);
      DecodeCell(t, "");
      assert texts == [t];
    } else {
      var rest := Join(cells[1..], ',');
      assert Join(cells, ',') == QuoteIfComma(t) + [','] + rest;
      DecodeCell(t, rest);
      DecodeQuotedJoin(cells[1..], texts[1..]);
      assert texts == [t] + texts[1..];
    }
  }
}
