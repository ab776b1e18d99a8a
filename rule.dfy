/**
  The `consistent-data-testid` rule: every literal value of the configured
  test-id attribute must match the rule's pattern, in which `{fileName}`
  stands for the logical name of the file being linted.

  Regular-expression matching is the host's `RegExp.prototype.test`; it is a
  parameter `matches(pattern, value)` here. The only thing assumed of it, and
  only where a lemma says so, is `PlainFaithful`: against a pattern without
  regular-expression syntax characters it tests substring containment, which
  is what an unanchored ECMAScript regular expression made only of ordinary
  characters does (ECMA-262, section 22.2, RegExp Objects).
 */
module ConsistentDataTestId {
  import opened Strings
  import opened FileName
  import opened Template

  datatype Option<T> = None | Some(value: T)

  /** The rule's options as written in a configuration; both are optional. */
  datatype Options = Options(testIdPattern: Option<string>, testIdAttribute: Option<string>)

  /** The options with their defaults filled in. */
  datatype Config = Config(attribute: string, template: string)

  const DefaultAttribute: string := "data-testid"
  /** The empty pattern, which every value matches. */
  const DefaultTemplate: string := ""

  /** How the parser hands over an attribute's value. */
  datatype AttrValue =
    | Literal(text: string)   // a string literal, the only kind that is checked
    | Dynamic                 // any expression, e.g. a template literal with `${...}`

  /** One attribute of a JSX element, met in document order. */
  datatype Occurrence = Occurrence(name: string, value: AttrValue)

  /** `RegExp(pattern).test(value)`, supplied by the host. */
  type Matcher = (string, string) -> bool

  /** ECMAScript's regular-expression syntax characters. */
  const SyntaxCharacters: string := "^$\\.*+?()[]{}|"

  /** A pattern made of ordinary characters only. */
  predicate IsPlain(pattern: string) {
    forall i :: 0 <= i < |pattern| ==> pattern[i] !in SyntaxCharacters
  }

  /** `m` agrees with ECMAScript on every pattern of ordinary characters. */
  ghost predicate PlainFaithful(m: Matcher) {
    forall pattern, value :: IsPlain(pattern) ==> (m(pattern, value) <==> Contains(value, pattern))
  }

  /** Substring containment, the meaning of a plain unanchored pattern. */
  predicate SubstringMatcher(pattern: string, value: string) {
    Contains(value, pattern)
  }

  /** Substring containment is a faithful matcher, so `PlainFaithful` can be met. */
  lemma SubstringMatcherIsPlainFaithful()
    ensures PlainFaithful(SubstringMatcher)
  {
  }

  /** On a plain pattern a faithful matcher tests containment. */
  lemma PlainVerdict(m: Matcher, pattern: string, value: string)
    requires PlainFaithful(m) && IsPlain(pattern)
    ensures m(pattern, value) == Contains(value, pattern)
  {
  }

  /** `{` is a syntax character, so a plain template has no placeholder and is used as it is. */
  lemma PlainTemplateHasNoPlaceholder(template: string, path: string)
    requires IsPlain(template)
    ensures !Contains(template, FileNamePlaceholder)
    ensures ResolvePattern(template, path) == template
  {
    if Contains(template, FileNamePlaceholder) {
      ContainsOnlyCharsOf(template, FileNamePlaceholder, '{');
    }
  }

  /** Fills in the defaults for options that are not given. */
  function ConfigOf(options: Options): (c: Config)
    ensures options.testIdAttribute.Some? ==> c.attribute == options.testIdAttribute.value
    ensures options.testIdAttribute.None? ==> c.attribute == DefaultAttribute
    ensures options.testIdPattern.Some? ==> c.template == options.testIdPattern.value
    ensures options.testIdPattern.None? ==> c.template == DefaultTemplate
  {
    Config(
      match options.testIdAttribute case Some(a) => a case None => DefaultAttribute,
      match options.testIdPattern case Some(p) => p case None => DefaultTemplate)
  }

  /**
    The pattern a file is checked against: the template with the file's
    logical name put in. A template without a placeholder is used as it is.
   */
  function ResolvePattern(template: string, path: string): (r: string)
    ensures !Contains(template, FileNamePlaceholder) ==> r == template
  {
    Substitute(template, LogicalName(path))
  }

  /** The diagnostic text: `<attr>` "<value>" should match `/<pattern>/`. */
  function Message(attribute: string, value: string, pattern: string): string {
    "`" + attribute + "` \"" + value + "\" should match `/" + pattern + "/`"
  }

  /** The message names the offending value: different values give different messages. */
  lemma MessageDeterminesValue(attribute: string, v1: string, v2: string, pattern: string)
    requires Message(attribute, v1, pattern) == Message(attribute, v2, pattern)
    ensures v1 == v2
  {
    var prefix := "`" + attribute + "` \"";
    var suffix := "\" should match `/" + pattern + "/`";
    assert Message(attribute, v1, pattern) == prefix + v1 + suffix;
    assert Message(attribute, v2, pattern) == prefix + v2 + suffix;
    assert |v1| == |v2|;
    assert v1 == (prefix + v1 + suffix)[|prefix|..|prefix| + |v1|];
    assert v2 == (prefix + v2 + suffix)[|prefix|..|prefix| + |v2|];
  }

  /**
    The check of one attribute occurrence. Only the configured attribute is
    looked at, dynamic values are skipped, and a literal is reported, with
    the substituted pattern in the message, exactly when it does not match.
   */
  function EvaluateOccurrence(config: Config, path: string, occurrence: Occurrence, matches: Matcher): (r: Option<string>)
    ensures r.Some? <==>
      && occurrence.name == config.attribute
      && occurrence.value.Literal?
      && !matches(ResolvePattern(config.template, path), occurrence.value.text)
    ensures r.Some? ==> r.value == Message(config.attribute, occurrence.value.text, ResolvePattern(config.template, path))
  {
    if occurrence.name != config.attribute then None
    else
      match occurrence.value
      case Dynamic => None
      case Literal(text) =>
        var pattern := ResolvePattern(config.template, path);
        if matches(pattern, text) then None else Some(Message(config.attribute, text, pattern))
  }

  /**
    The diagnostics of one file, in document order: one message per failing
    occurrence.
   */
  function Lint(config: Config, path: string, occurrences: seq<Occurrence>, matches: Matcher): (r: seq<string>)
    ensures |r| <= |occurrences|
    decreases |occurrences|
  {
    if |occurrences| == 0 then []
    else
      var rest := Lint(config, path, occurrences[1..], matches);
      match EvaluateOccurrence(config, path, occurrences[0], matches)
      case None => rest
      case Some(message) => [message] + rest
  }

  /** Occurrences are checked independently: the diagnostics of a file are those of its parts, in order. */
  lemma {:induction false} LintAppend(config: Config, path: string, a: seq<Occurrence>, b: seq<Occurrence>, matches: Matcher)
    ensures Lint(config, path, a + b, matches) == Lint(config, path, a, matches) + Lint(config, path, b, matches)
    decreases |a|
  {
    if |a| > 0 {
      assert (a + b)[0] == a[0];
      assert (a + b)[1..] == a[1..] + b;
      LintAppend(config, path, a[1..], b, matches);
    } else {
      assert a + b == b;
    }
  }

  /** A message is reported exactly when some occurrence fails with it. */
  lemma {:induction false} LintReports(config: Config, path: string, occurrences: seq<Occurrence>, matches: Matcher, message: string)
    ensures message in Lint(config, path, occurrences, matches) <==>
      exists i :: 0 <= i < |occurrences| && EvaluateOccurrence(config, path, occurrences[i], matches) == Some(message)
    decreases |occurrences|
  {
    if |occurrences| > 0 {
      LintReports(config, path, occurrences[1..], matches, message);
      if exists i :: 0 <= i < |occurrences| && EvaluateOccurrence(config, path, occurrences[i], matches) == Some(message) {
        var i :| 0 <= i < |occurrences| && EvaluateOccurrence(config, path, occurrences[i], matches) == Some(message);
        if i > 0 {
          assert occurrences[1..][i - 1] == occurrences[i];
        }
      }
      if message in Lint(config, path, occurrences[1..], matches) {
        var j :| 0 <= j < |occurrences| - 1 && EvaluateOccurrence(config, path, occurrences[1..][j], matches) == Some(message);
        assert occurrences[1..][j] == occurrences[j + 1];
      }
    }
  }

  /** A file is clean exactly when none of its occurrences fails. */
  lemma {:induction false} LintSilentIff(config: Config, path: string, occurrences: seq<Occurrence>, matches: Matcher)
    ensures Lint(config, path, occurrences, matches) == [] <==>
      forall i :: 0 <= i < |occurrences| ==> EvaluateOccurrence(config, path, occurrences[i], matches).None?
    decreases |occurrences|
  {
    if |occurrences| > 0 {
      LintSilentIff(config, path, occurrences[1..], matches);
      assert forall i :: 1 <= i < |occurrences| ==> occurrences[1..][i - 1] == occurrences[i];
    }
  }

  /**
    Occurrences of other attributes and dynamic values never produce a
    diagnostic, whatever the pattern and the matcher.
   */
  lemma {:induction false} LintSkipsIrrelevant(config: Config, path: string, occurrences: seq<Occurrence>, matches: Matcher)
    requires forall i :: 0 <= i < |occurrences| ==> occurrences[i].name != config.attribute || occurrences[i].value.Dynamic?
    ensures Lint(config, path, occurrences, matches) == []
    decreases |occurrences|
  {
    if |occurrences| > 0 {
      LintSkipsIrrelevant(config, path, occurrences[1..], matches);
    }
  }

  /** With a template that has no placeholder, the file being linted makes no difference. */
  lemma {:induction false} LintIgnoresPathWithoutPlaceholder(config: Config, path1: string, path2: string, occurrences: seq<Occurrence>, matches: Matcher)
    requires !Contains(config.template, FileNamePlaceholder)
    ensures Lint(config, path1, occurrences, matches) == Lint(config, path2, occurrences, matches)
    decreases |occurrences|
  {
    if |occurrences| > 0 {
      LintIgnoresPathWithoutPlaceholder(config, path1, path2, occurrences[1..], matches);
    }
  }

  /**
    The default configuration checks `data-testid` against the empty
    pattern, which every literal matches, so nothing is ever reported.
   */
  lemma DefaultConfigReportsNothing(path: string, occurrence: Occurrence, matches: Matcher)
    requires PlainFaithful(matches)
    ensures ConfigOf(Options(None, None)).attribute == "data-testid"
    ensures EvaluateOccurrence(ConfigOf(Options(None, None)), path, occurrence, matches) == None
  {
    var config := ConfigOf(Options(None, None));
    assert !Contains(DefaultTemplate, FileNamePlaceholder);
    assert IsPlain(DefaultTemplate);
    if occurrence.value.Literal? {
      ContainsPrefix(occurrence.value.text, DefaultTemplate);
    }
  }
}
