/** The build step that makes the exported pages load their assets from a
    relative path: in each `.html` file the `href` and `src` attributes that
    start with `/_next/`, and in each `.js` file the quoted strings that start
    with `/_next/`, are rewritten to start with `./_next/`; a file is written
    back only when its text changed. */
module FixAssets {
  import opened Values
  import opened Text

  const HrefPattern: string := "href=\"/_next/"
  const HrefFixed: string := "href=\"./_next/"
  const SrcPattern: string := "src=\"/_next/"
  const SrcFixed: string := "src=\"./_next/"
  const DoubleQuotePattern: string := "\"/_next/"
  const DoubleQuoteFixed: string := "\"./_next/"
  const SingleQuotePattern: string := "'/_next/"
  const SingleQuoteFixed: string := "'./_next/"

  /** Two literal replace-all passes, the second over the result of the first. */
  function TwoPass(s: string, p1: string, r1: string, p2: string, r2: string): string
    requires p1 != [] && p2 != []
  {
    ReplaceAll(ReplaceAll(s, p1, r1), p2, r2)
  }

  /** A replacement one character longer than its pattern that cannot
      re-create the pattern around or inside itself. */
  predicate Widens(p: string, r: string) {
    p != [] && |r| == |p| + 1 && !StartsWith(r, p) && p[0] !in r[1..] && r[0] !in p[1..]
  }

  /** A replacement that cannot complete an occurrence of another pattern. */
  predicate Apart(p: string, r: string) {
    p != [] && r != [] && p[0] !in r && r[0] !in p[1..]
  }

  /** Conditions under which two passes each lengthen their pattern by one
      character and can neither re-create their own pattern nor the pattern of
      the first pass. */
  predicate Separate(p1: string, r1: string, p2: string, r2: string) {
    Widens(p1, r1) && Widens(p2, r2) && Apart(p1, r2)
  }

  /** After both passes neither pattern occurs. */
  lemma TwoPassClean(s: string, p1: string, r1: string, p2: string, r2: string)
    requires Separate(p1, r1, p2, r2)
    ensures !Occurs(TwoPass(s, p1, r1, p2, r2), p1)
    ensures !Occurs(TwoPass(s, p1, r1, p2, r2), p2)
  {
    var mid := ReplaceAll(s, p1, r1);
    NoOccurrenceAfterReplace(s, p1, r1);
    NoOccurrencePreserved(mid, p2, r2, p1);
    NoOccurrenceAfterReplace(mid, p2, r2);
  }

  /** Running both passes again changes nothing. */
  lemma TwoPassIdempotent(s: string, p1: string, r1: string, p2: string, r2: string)
    requires Separate(p1, r1, p2, r2)
    ensures TwoPass(TwoPass(s, p1, r1, p2, r2), p1, r1, p2, r2) == TwoPass(s, p1, r1, p2, r2)
  {
    var t := TwoPass(s, p1, r1, p2, r2);
    TwoPassClean(s, p1, r1, p2, r2);
    ReplaceAllIdentity(t, p1, r1);
    ReplaceAllIdentity(t, p2, r2);
  }

  /** The text grows by one character per replaced occurrence, in each pass. */
  lemma TwoPassLength(s: string, p1: string, r1: string, p2: string, r2: string)
    requires Separate(p1, r1, p2, r2)
    ensures |TwoPass(s, p1, r1, p2, r2)| == |s| + Count(s, p1) + Count(ReplaceAll(s, p1, r1), p2)
  {
    OneLonger(s, p1, r1);
    OneLonger(ReplaceAll(s, p1, r1), p2, r2);
  }

  /** One pass whose replacement is one character longer than its pattern. */
  lemma OneLonger(s: string, p: string, r: string)
    requires p != [] && |r| == |p| + 1
    ensures |ReplaceAll(s, p, r)| == |s| + Count(s, p)
  {
    ReplaceAllLength(s, p, r);
  }

  /** The text changes exactly when one of the patterns occurs in it. */
  lemma TwoPassChangesIff(s: string, p1: string, r1: string, p2: string, r2: string)
    requires Separate(p1, r1, p2, r2)
    ensures TwoPass(s, p1, r1, p2, r2) != s <==> Occurs(s, p1) || Occurs(s, p2)
  {
    var mid := ReplaceAll(s, p1, r1);
    ReplaceAllLengthBounds(s, p1, r1);
    ReplaceAllLengthBounds(mid, p2, r2);
    CountPositiveIff(s, p1);
    if !Occurs(s, p1) {
      ReplaceAllIdentity(s, p1, r1);
      ReplaceAllChangesIff(s, p2, r2);
    }
  }

  /** Replacement texts that cannot start again inside themselves, and of
      which the second cannot be completed by the first. */
  predicate Reversible(r1: string, r2: string) {
    r1 != [] && r2 != [] && r1[0] !in r1[1..] && r2[0] !in r2[1..] && r2[0] !in r1 && r1[0] !in r2[1..]
  }

  /** On a text holding neither replacement, undoing the second pass and then
      the first gives the text back: the passes changed the occurrences of
      their patterns and nothing else. */
  lemma TwoPassUndo(s: string, p1: string, r1: string, p2: string, r2: string)
    requires p1 != [] && p2 != [] && Reversible(r1, r2)
    requires !Occurs(s, r1) && !Occurs(s, r2)
    ensures ReplaceAll(ReplaceAll(TwoPass(s, p1, r1, p2, r2), r2, p2), r1, p1) == s
  {
    var mid := ReplaceAll(s, p1, r1);
    NoOccurrencePreserved(s, p1, r1, r2);
    ReplaceAllUndo(mid, p2, r2);
    ReplaceAllUndo(s, p1, r1);
  }

  /** The HTML rewrite: `href="/_next/` first, then `src="/_next/`. */
  function FixHtml(content: string): string {
    TwoPass(content, HrefPattern, HrefFixed, SrcPattern, SrcFixed)
  }

  /** The JavaScript rewrite: `"/_next/` first, then `'/_next/`. */
  function FixJs(content: string): string {
    TwoPass(content, DoubleQuotePattern, DoubleQuoteFixed, SingleQuotePattern, SingleQuoteFixed)
  }

  lemma HrefWidens()
    ensures Widens(HrefPattern, HrefFixed)
  {
    assert HrefFixed[6] != HrefPattern[6];
  }

  lemma SrcWidens()
    ensures Widens(SrcPattern, SrcFixed)
  {
    assert SrcFixed[5] != SrcPattern[5];
  }

  lemma DoubleQuoteWidens()
    ensures Widens(DoubleQuotePattern, DoubleQuoteFixed)
  {
    assert DoubleQuoteFixed[1] != DoubleQuotePattern[1];
  }

  lemma SingleQuoteWidens()
    ensures Widens(SingleQuotePattern, SingleQuoteFixed)
  {
    assert SingleQuoteFixed[1] != SingleQuotePattern[1];
  }

  /** Both rewrites meet the conditions of the two-pass lemmas. */
  lemma PatternsSeparate()
    ensures Separate(HrefPattern, HrefFixed, SrcPattern, SrcFixed)
    ensures Separate(DoubleQuotePattern, DoubleQuoteFixed, SingleQuotePattern, SingleQuoteFixed)
  {
    HrefWidens();
    SrcWidens();
    DoubleQuoteWidens();
    SingleQuoteWidens();
    assert Apart(HrefPattern, SrcFixed);
    assert Apart(DoubleQuotePattern, SingleQuoteFixed);
  }

  lemma HtmlReversible()
    ensures Reversible(HrefFixed, SrcFixed)
  {
    HrefApart();
    SrcApart();
  }

  lemma HrefApart()
    ensures HrefFixed[0] == 'h' && 'h' !in HrefFixed[1..] && 'h' !in SrcFixed[1..]
  {
    assert HrefFixed[1..] == "ref=\"./_next/";
    assert SrcFixed[1..] == "rc=\"./_next/";
  }

  lemma SrcApart()
    ensures SrcFixed[0] == 's' && 's' !in SrcFixed[1..] && 's' !in HrefFixed
  {
    assert SrcFixed[1..] == "rc=\"./_next/";
  }

  lemma JsReversible()
    ensures Reversible(DoubleQuoteFixed, SingleQuoteFixed)
  {
    assert DoubleQuoteFixed[0] == '"' && SingleQuoteFixed[0] == '\'';
  }

  /** Outside the rewritten attributes an HTML text is unchanged: turning
      `src="./_next/` and then `href="./_next/` back into their absolute forms
      restores any text that held neither relative form. */
  lemma HtmlRestore(content: string)
    requires !Occurs(content, HrefFixed) && !Occurs(content, SrcFixed)
    ensures ReplaceAll(ReplaceAll(FixHtml(content), SrcFixed, SrcPattern), HrefFixed, HrefPattern) == content
  {
    HtmlReversible();
    TwoPassUndo(content, HrefPattern, HrefFixed, SrcPattern, SrcFixed);
  }

  /** Outside the rewritten strings a JavaScript text is unchanged, in the same
      sense. */
  lemma JsRestore(content: string)
    requires !Occurs(content, DoubleQuoteFixed) && !Occurs(content, SingleQuoteFixed)
    ensures ReplaceAll(ReplaceAll(FixJs(content), SingleQuoteFixed, SingleQuotePattern), DoubleQuoteFixed, DoubleQuotePattern) == content
  {
    JsReversible();
    TwoPassUndo(content, DoubleQuotePattern, DoubleQuoteFixed, SingleQuotePattern, SingleQuoteFixed);
  }

  /** The file names the rewriter opens. */
  predicate IsHtml(name: string) {
    EndsWith(name, ".html")
  }

  predicate IsJs(name: string) {
    EndsWith(name, ".js")
  }

  /** A file's text after the rewrite and whether it was found modified. */
  datatype Rewrite = Rewrite(content: string, modified: bool)

  /** The body of the walk for one readable file: the HTML block and then the
      JavaScript block, each comparing the text before and after its passes. */
  function RewriteFile(name: string, content: string): Rewrite {
    var afterHtml := if IsHtml(name) then Rewrite(FixHtml(content), content != FixHtml(content)) else Rewrite(content, false);
    if IsJs(name) then Rewrite(FixJs(afterHtml.content), afterHtml.content != FixJs(afterHtml.content))
    else afterHtml
  }

  /** What the walk writes to a file: the rewritten text, only for an HTML or
      JavaScript file that was modified. */
  function FixFile(name: string, content: string): (written: Option<string>)
    ensures written.Some? ==> IsHtml(name) || IsJs(name)
  {
    if IsHtml(name) || IsJs(name) then
      var rewrite := RewriteFile(name, content);
      if rewrite.modified then Some(rewrite.content) else None
    else None
  }

  /** No name ends in both `.html` and `.js`. */
  lemma HtmlOrJs(name: string)
    ensures !(IsHtml(name) && IsJs(name))
  {
    if IsHtml(name) {
      assert name[|name| - 1] == 'l';
    }
  }

  /** An HTML file is written exactly when it holds one of its patterns, and
      what is written holds neither. */
  lemma HtmlFile(name: string, content: string)
    requires IsHtml(name)
    ensures FixFile(name, content).Some? <==> Occurs(content, HrefPattern) || Occurs(content, SrcPattern)
    ensures FixFile(name, content).Some? ==>
      FixFile(name, content).value == FixHtml(content) &&
      !Occurs(FixHtml(content), HrefPattern) && !Occurs(FixHtml(content), SrcPattern)
  {
    HtmlOrJs(name);
    PatternsSeparate();
    TwoPassChangesIff(content, HrefPattern, HrefFixed, SrcPattern, SrcFixed);
    TwoPassClean(content, HrefPattern, HrefFixed, SrcPattern, SrcFixed);
  }

  /** A JavaScript file is written exactly when it holds one of its patterns,
      and what is written holds neither. */
  lemma JsFile(name: string, content: string)
    requires IsJs(name)
    ensures FixFile(name, content).Some? <==> Occurs(content, DoubleQuotePattern) || Occurs(content, SingleQuotePattern)
    ensures FixFile(name, content).Some? ==>
      FixFile(name, content).value == FixJs(content) &&
      !Occurs(FixJs(content), DoubleQuotePattern) && !Occurs(FixJs(content), SingleQuotePattern)
  {
    HtmlOrJs(name);
    PatternsSeparate();
    TwoPassChangesIff(content, DoubleQuotePattern, DoubleQuoteFixed, SingleQuotePattern, SingleQuoteFixed);
    TwoPassClean(content, DoubleQuotePattern, DoubleQuoteFixed, SingleQuotePattern, SingleQuoteFixed);
  }

  /** The flag is set exactly when the text changed. */
  lemma ModifiedIffChanged(name: string, content: string)
    requires IsHtml(name) || IsJs(name)
    ensures RewriteFile(name, content).modified <==> RewriteFile(name, content).content != content
  {
    HtmlOrJs(name);
  }

  /** Running the script a second time writes nothing. */
  lemma FixFileIdempotent(name: string, content: string)
    requires FixFile(name, content).Some?
    ensures FixFile(name, FixFile(name, content).value).None?
  {
    HtmlOrJs(name);
    PatternsSeparate();
    if IsHtml(name) {
      TwoPassIdempotent(content, HrefPattern, HrefFixed, SrcPattern, SrcFixed);
    } else {
      TwoPassIdempotent(content, DoubleQuotePattern, DoubleQuoteFixed, SingleQuotePattern, SingleQuoteFixed);
    }
  }

  /** A written HTML file grows by one character per rewritten attribute. */
  lemma HtmlGrowth(content: string)
    ensures |FixHtml(content)| == |content| + Count(content, HrefPattern) +
      Count(ReplaceAll(content, HrefPattern, HrefFixed), SrcPattern)
  {
    PatternsSeparate();
    TwoPassLength(content, HrefPattern, HrefFixed, SrcPattern, SrcFixed);
  }

  /** A written JavaScript file grows by one character per rewritten string. */
  lemma JsGrowth(content: string)
    ensures |FixJs(content)| == |content| + Count(content, DoubleQuotePattern) +
      Count(ReplaceAll(content, DoubleQuotePattern, DoubleQuoteFixed), SingleQuotePattern)
  {
    PatternsSeparate();
    TwoPassLength(content, DoubleQuotePattern, DoubleQuoteFixed, SingleQuotePattern, SingleQuoteFixed);
  }
}
