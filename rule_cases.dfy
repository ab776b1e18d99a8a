/**
  The rule's case table, one lemma per case. Each element's attributes are
  listed in source order. Cases whose pattern is made of ordinary characters
  hold for every matcher that is faithful on such patterns; cases whose
  pattern uses regular-expression syntax hold for every matcher that gives
  the stated verdict on the substituted pattern, which is also shown.
  Cases that give no file name hold for every path; cases that do hold for
  every file with the same logical name, and a lemma per path shows that the
  test's file has that name.
 */
module ConsistentDataTestIdCases {
  import opened Strings
  import opened FileName
  import opened Template
  import opened ConsistentDataTestId

  const AwesomePath: string := "/my/cool/file/path/Awesome.js"
  const ParentIndexPath: string := "/my/cool/file/Parent/index.js"
  const TestsParentIndexPath: string := "/my/cool/__tests__/Parent/index.js"

  /** What follows the name in the component pattern: `__`-separated capitalised parts. */
  const ComponentSuffix: string := "(__([A-Z]+[a-z]*?)+)*$"

  /** The component pattern for a given name, anchored at both ends. */
  function ComponentPatternFor(name: string): string {
    "^" + name + ComponentSuffix
  }

  /** The template of the file-name cases, `^{fileName}(__([A-Z]+[a-z]*?)+)*$`. */
  const ComponentTemplate: string := ComponentPatternFor(FileNamePlaceholder)

  /** A six-segment join spelled out, for the three test paths. */
  lemma JoinSix(a: string, b: string, c: string, d: string, e: string, f: string, sep: string)
    ensures Join([a, b, c, d, e, f], sep) == a + sep + (b + sep + (c + sep + (d + sep + (e + sep + f))))
  {
    var s := [a, b, c, d, e, f];
    assert s == [a] + s[1..] && s[1..] == [b] + s[2..] && s[2..] == [c] + s[3..];
    assert s[3..] == [d] + s[4..] && s[4..] == [e] + s[5..];
    JoinCons(a, s[1..], sep);
    JoinCons(b, s[2..], sep);
    JoinCons(c, s[3..], sep);
    JoinCons(d, s[4..], sep);
    JoinCons(e, s[5..], sep);
  }

  /** The segments of the three test paths. */
  lemma AwesomeSegments()
    ensures Segments(AwesomePath) == ["", "my", "cool", "file", "path", "Awesome.js"]
  {
    var segments := ["", "my", "cool", "file", "path", "Awesome.js"];
    AwesomeJoin();
    assert SeparatorFree(segments);
    SplitJoin(segments, PathSeparator);
  }

  lemma AwesomeJoin()
    ensures AwesomePath == Join(["", "my", "cool", "file", "path", "Awesome.js"], "/")
  {
    JoinSix("", "my", "cool", "file", "path", "Awesome.js", "/");
  }

  lemma ParentIndexSegments()
    ensures Segments(ParentIndexPath) == ["", "my", "cool", "file", "Parent", "index.js"]
  {
    var segments := ["", "my", "cool", "file", "Parent", "index.js"];
    ParentIndexJoin();
    assert SeparatorFree(segments);
    SplitJoin(segments, PathSeparator);
  }

  lemma ParentIndexJoin()
    ensures ParentIndexPath == Join(["", "my", "cool", "file", "Parent", "index.js"], "/")
  {
    JoinSix("", "my", "cool", "file", "Parent", "index.js", "/");
  }

  lemma TestsParentIndexSegments()
    ensures Segments(TestsParentIndexPath) == ["", "my", "cool", "__tests__", "Parent", "index.js"]
  {
    var segments := ["", "my", "cool", "__tests__", "Parent", "index.js"];
    TestsParentIndexJoin();
    assert SeparatorFree(segments);
    SplitJoin(segments, PathSeparator);
  }

  lemma TestsParentIndexJoin()
    ensures TestsParentIndexPath == Join(["", "my", "cool", "__tests__", "Parent", "index.js"], "/")
  {
    JoinSix("", "my", "cool", "__tests__", "Parent", "index.js", "/");
  }

  lemma AwesomeStem()
    ensures Stem("Awesome.js") == "Awesome"
  {
    assert "Awesome.js" == "Awesome" + [ExtensionSeparator] + "js";
    StemOfDotted("Awesome", "js");
  }

  lemma IndexStemOfIndexJs()
    ensures Stem("index.js") == IndexStem
  {
    assert "index.js" == IndexStem + [ExtensionSeparator] + "js";
    StemOfDotted(IndexStem, "js");
  }

  /** `/my/cool/file/path/Awesome.js` is named `Awesome`. */
  lemma AwesomeName()
    ensures LogicalName(AwesomePath) == "Awesome"
  {
    AwesomeSegments();
    AwesomeStem();
  }

  /** `/my/cool/file/Parent/index.js` is named `Parent`. */
  lemma ParentIndexName()
    ensures LogicalName(ParentIndexPath) == "Parent"
  {
    ParentIndexSegments();
    IndexStemOfIndexJs();
  }

  /** `/my/cool/__tests__/Parent/index.js` is named `Parent` too. */
  lemma TestsParentIndexName()
    ensures LogicalName(TestsParentIndexPath) == "Parent"
  {
    TestsParentIndexSegments();
    IndexStemOfIndexJs();
  }

  /** The template as the tests write it. */
  lemma ComponentTemplateText()
    ensures ComponentTemplate == "^{fileName}(__([A-Z]+[a-z]*?)+)*$"
  {
  }

  /** The component template with a name put in for its one placeholder. */
  lemma ComponentPattern(name: string)
    ensures Substitute(ComponentTemplate, name) == ComponentPatternFor(name)
  {
    var pieces := ["^", ComponentSuffix];
    assert ComponentTemplate == Join(pieces, FileNamePlaceholder);
    assert forall i :: 0 <= i < |pieces| ==> !Contains(pieces[i], FileNamePlaceholder) by {
      forall i | 0 <= i < |pieces| ensures !Contains(pieces[i], FileNamePlaceholder) {
        if Contains(pieces[i], FileNamePlaceholder) {
          ContainsOnlyCharsOf(pieces[i], FileNamePlaceholder, '{');
        }
      }
    }
    SubstituteJoin(pieces, name);
    assert Join(pieces, name) == ComponentPatternFor(name);
  }

  /** The two substituted patterns the tests show. */
  lemma AwesomePatternText()
    ensures ComponentPatternFor("Awesome") == "^Awesome(__([A-Z]+[a-z]*?)+)*$"
  {
  }

  lemma ParentPatternText()
    ensures ComponentPatternFor("Parent") == "^Parent(__([A-Z]+[a-z]*?)+)*$"
  {
  }

  /** The plain patterns of the tests hold no syntax character. */
  lemma CoolIsPlain()
    ensures IsPlain("cool")
  {
  }

  lemma ParentIsPlain()
    ensures IsPlain("Parent")
  {
  }

  lemma ErrorIsPlain()
    ensures IsPlain("error")
  {
  }

  lemma MatchMeIsPlain()
    ensures IsPlain("matchMe")
  {
  }

  /** `error` is not part of `Awesome__CoolStuff`: the latter has no `r`. */
  lemma ErrorNotInAwesomeCoolStuff()
    ensures !Contains("Awesome__CoolStuff", "error")
  {
    if Contains("Awesome__CoolStuff", "error") {
      ContainsOnlyCharsOf("Awesome__CoolStuff", "error", 'r');
    }
  }

  /*
    The diagnostic texts the tests expect, built from `Message` one piece at
    a time.
   */
  lemma MismatchMessageText()
    ensures Message("data-testid", "Awesome__CoolStuff", "error")
         == "`data-testid` \"Awesome__CoolStuff\" should match `/error/`"
  {
    assert "`" + "data-testid" == "`data-testid";
    assert "`data-testid" + "` \"" == "`data-testid` \"";
    assert "`data-testid` \"" + "Awesome__CoolStuff" == "`data-testid` \"Awesome__CoolStuff";
    assert "`data-testid` \"Awesome__CoolStuff" + "\" should match `/" == "`data-testid` \"Awesome__CoolStuff\" should match `/";
    assert "`data-testid` \"Awesome__CoolStuff\" should match `/" + "error" == "`data-testid` \"Awesome__CoolStuff\" should match `/error";
  }

  lemma PlainTemplateMessageText()
    ensures Message("data-testid", "Nope", "matchMe") == "`data-testid` \"Nope\" should match `/matchMe/`"
  {
    assert "`" + "data-testid" == "`data-testid";
    assert "`data-testid" + "` \"" == "`data-testid` \"";
    assert "`data-testid` \"" + "Nope" == "`data-testid` \"Nope";
    assert "`data-testid` \"Nope" + "\" should match `/" == "`data-testid` \"Nope\" should match `/";
    assert "`data-testid` \"Nope\" should match `/" + "matchMe" == "`data-testid` \"Nope\" should match `/matchMe";
  }

  lemma CustomAttributeMessageHead()
    ensures "`" + "my-custom-attr" + "` \"" + "WrongComponent__cool" == "`my-custom-attr` \"WrongComponent__cool"
  {
    assert "`" + "my-custom-attr" == "`my-custom-attr";
    assert "`my-custom-attr" + "` \"" == "`my-custom-attr` \"";
  }

  lemma CustomAttributeMessageBody()
    ensures "`my-custom-attr` \"WrongComponent__cool" + "\" should match `/" + "^Parent(__([A-Z]+[a-z]*?)+)*$"
         == "`my-custom-attr` \"WrongComponent__cool\" should match `/^Parent(__([A-Z]+[a-z]*?)+)*$"
  {
    assert "`my-custom-attr` \"WrongComponent__cool" + "\" should match `/" == "`my-custom-attr` \"WrongComponent__cool\" should match `/";
  }

  lemma CustomAttributeMessageText()
    ensures Message("my-custom-attr", "WrongComponent__cool", ComponentPatternFor("Parent"))
         == "`my-custom-attr` \"WrongComponent__cool\" should match `/^Parent(__([A-Z]+[a-z]*?)+)*$/`"
  {
    ParentPatternText();
    CustomAttributeMessageHead();
    CustomAttributeMessageBody();
  }

  lemma WrongComponentMessageHead()
    ensures "`" + "data-testid" + "` \"" + "WrongComponent__cool" == "`data-testid` \"WrongComponent__cool"
  {
    assert "`" + "data-testid" == "`data-testid";
    assert "`data-testid" + "` \"" == "`data-testid` \"";
  }

  lemma WrongComponentMessageBody()
    ensures "`data-testid` \"WrongComponent__cool" + "\" should match `/" + "^Parent(__([A-Z]+[a-z]*?)+)*$"
         == "`data-testid` \"WrongComponent__cool\" should match `/^Parent(__([A-Z]+[a-z]*?)+)*$"
  {
    assert "`data-testid` \"WrongComponent__cool" + "\" should match `/" == "`data-testid` \"WrongComponent__cool\" should match `/";
  }

  lemma WrongComponentMessageText()
    ensures Message("data-testid", "WrongComponent__cool", ComponentPatternFor("Parent"))
         == "`data-testid` \"WrongComponent__cool\" should match `/^Parent(__([A-Z]+[a-z]*?)+)*$/`"
  {
    ParentPatternText();
    WrongComponentMessageHead();
    WrongComponentMessageBody();
  }

  /** `cool` against `cool`. */
  lemma ValidLiteralMatch(path: string, matches: Matcher)
    requires PlainFaithful(matches)
    ensures Lint(ConfigOf(Options(Some("cool"), None)), path,
                 [Occurrence("data-testid", Literal("cool"))], matches) == []
  {
    CoolIsPlain();
    PlainTemplateHasNoPlaceholder("cool", path);
    PlainVerdict(matches, "cool", "cool");
    ContainsPrefix("cool", "cool");
  }

  /** An element without the marker attribute. */
  lemma ValidNoMarkerAttribute(path: string, matches: Matcher)
    ensures Lint(ConfigOf(Options(Some("cool"), None)), path,
                 [Occurrence("className", Literal("cool"))], matches) == []
  {
  }

  /** `Awesome__CoolStuff` in `Awesome.js`, for a matcher that accepts it. */
  lemma ValidAwesomeCoolStuff(path: string, matches: Matcher)
    requires LogicalName(path) == "Awesome"
    requires matches(ComponentPatternFor("Awesome"), "Awesome__CoolStuff")
    ensures ResolvePattern(ComponentTemplate, path) == ComponentPatternFor("Awesome")
    ensures Lint(ConfigOf(Options(Some(ComponentTemplate), None)), path,
                 [Occurrence("data-testid", Literal("Awesome__CoolStuff"))], matches) == []
  {
    ComponentPattern("Awesome");
  }

  /** `Awesome` in `Awesome.js`, for a matcher that accepts it. */
  lemma ValidAwesome(path: string, matches: Matcher)
    requires LogicalName(path) == "Awesome"
    requires matches(ComponentPatternFor("Awesome"), "Awesome")
    ensures Lint(ConfigOf(Options(Some(ComponentTemplate), None)), path,
                 [Occurrence("data-testid", Literal("Awesome"))], matches) == []
  {
    ComponentPattern("Awesome");
  }

  /** `Parent` in `Parent/index.js`, for a matcher that accepts it. */
  lemma ValidParentIndex(path: string, matches: Matcher)
    requires LogicalName(path) == "Parent"
    requires matches(ComponentPatternFor("Parent"), "Parent")
    ensures ResolvePattern(ComponentTemplate, path) == ComponentPatternFor("Parent")
    ensures Lint(ConfigOf(Options(Some(ComponentTemplate), None)), path,
                 [Occurrence("data-testid", Literal("Parent"))], matches) == []
  {
    ComponentPattern("Parent");
  }

  /** The bare placeholder in `__tests__/Parent/index.js` becomes `Parent`. */
  lemma ValidBarePlaceholder(path: string, matches: Matcher)
    requires LogicalName(path) == "Parent"
    requires PlainFaithful(matches)
    ensures ResolvePattern(FileNamePlaceholder, path) == "Parent"
    ensures Lint(ConfigOf(Options(Some(FileNamePlaceholder), None)), path,
                 [Occurrence("data-testid", Literal("Parent"))], matches) == []
  {
    InsertedTextNotRescanned(LogicalName(path));
    ParentIsPlain();
    PlainVerdict(matches, "Parent", "Parent");
    ContainsPrefix("Parent", "Parent");
  }

  /** With `custom-attr` configured, `data-testid="wrong"` is not looked at. */
  lemma ValidCustomAttribute(path: string, matches: Matcher)
    requires matches("^right(.*)$", "right-1")
    ensures Lint(ConfigOf(Options(Some("^right(.*)$"), Some("custom-attr"))), path,
                 [Occurrence("data-testid", Literal("wrong")), Occurrence("custom-attr", Literal("right-1"))],
                 matches) == []
  {
    assert !Contains("^right(.*)$", FileNamePlaceholder) by {
      if Contains("^right(.*)$", FileNamePlaceholder) {
        ContainsOnlyCharsOf("^right(.*)$", FileNamePlaceholder, '{');
      }
    }
  }

  /** With `data-test-id` configured and the bare placeholder. */
  lemma ValidDataTestIdAttribute(path: string, matches: Matcher)
    requires LogicalName(path) == "Parent"
    requires PlainFaithful(matches)
    ensures Lint(ConfigOf(Options(Some(FileNamePlaceholder), Some("data-test-id"))), path,
                 [Occurrence("data-test-id", Literal("Parent"))], matches) == []
  {
    InsertedTextNotRescanned(LogicalName(path));
    ParentIsPlain();
    PlainVerdict(matches, "Parent", "Parent");
    ContainsPrefix("Parent", "Parent");
  }

  /** A template literal with an interpolation is never reported. */
  lemma ValidDynamicValue(path: string, matches: Matcher)
    ensures Lint(ConfigOf(Options(Some("somethingElse"), None)), path,
                 [Occurrence("data-testid", Dynamic)], matches) == []
  {
  }

  /** `Awesome__CoolStuff` against `error`: exactly one diagnostic. */
  lemma InvalidLiteralMismatch(path: string, matches: Matcher)
    requires PlainFaithful(matches)
    ensures Lint(ConfigOf(Options(Some("error"), None)), path,
                 [Occurrence("data-testid", Literal("Awesome__CoolStuff"))], matches)
         == [Message("data-testid", "Awesome__CoolStuff", "error")]
         == ["`data-testid` \"Awesome__CoolStuff\" should match `/error/`"]
  {
    MismatchMessageText();
    ErrorIsPlain();
    PlainTemplateHasNoPlaceholder("error", path);
    PlainVerdict(matches, "error", "Awesome__CoolStuff");
    ErrorNotInAwesomeCoolStuff();
  }

  /** A template without placeholder is reported as written, whatever the file. */
  lemma InvalidPlainTemplate(path: string, matches: Matcher)
    requires PlainFaithful(matches)
    ensures Lint(ConfigOf(Options(Some("matchMe"), None)), path,
                 [Occurrence("data-testid", Literal("Nope"))], matches)
         == [Message("data-testid", "Nope", "matchMe")]
         == ["`data-testid` \"Nope\" should match `/matchMe/`"]
  {
    PlainTemplateMessageText();
    MatchMeIsPlain();
    PlainTemplateHasNoPlaceholder("matchMe", path);
    PlainVerdict(matches, "matchMe", "Nope");
  }

  /** With `my-custom-attr` configured, only its value is reported, under its own name. */
  lemma InvalidCustomAttribute(path: string, matches: Matcher)
    requires LogicalName(path) == "Parent"
    requires !matches(ComponentPatternFor("Parent"), "WrongComponent__cool")
    ensures Lint(ConfigOf(Options(Some(ComponentTemplate), Some("my-custom-attr"))), path,
                 [Occurrence("data-testid", Literal("Parent__cool")), Occurrence("my-custom-attr", Literal("WrongComponent__cool"))],
                 matches)
         == [Message("my-custom-attr", "WrongComponent__cool", ComponentPatternFor("Parent"))]
         == ["`my-custom-attr` \"WrongComponent__cool\" should match `/^Parent(__([A-Z]+[a-z]*?)+)*$/`"]
  {
    CustomAttributeMessageText();
    ComponentPattern("Parent");
  }

  /** The message shows the substituted pattern, not the template. */
  lemma InvalidWrongComponent(path: string, matches: Matcher)
    requires LogicalName(path) == "Parent"
    requires !matches(ComponentPatternFor("Parent"), "WrongComponent__cool")
    ensures Lint(ConfigOf(Options(Some(ComponentTemplate), None)), path,
                 [Occurrence("data-testid", Literal("WrongComponent__cool"))], matches)
         == [Message("data-testid", "WrongComponent__cool", ComponentPatternFor("Parent"))]
         == ["`data-testid` \"WrongComponent__cool\" should match `/^Parent(__([A-Z]+[a-z]*?)+)*$/`"]
  {
    WrongComponentMessageText();
    ComponentPattern("Parent");
  }
}
