/**
  Substitution of the `{fileName}` placeholder in a `testIdPattern` template.
  Occurrences are replaced left to right and the inserted text is never
  scanned again, so a file name that itself spells `{fileName}` stays as it is.
 */
module Template {
  import opened Strings

  const FileNamePlaceholder: string := "{fileName}"

  /** Replaces every occurrence of `token` in `s` by `replacement`, scanning left to right. */
  function ReplaceAll(s: string, token: string, replacement: string): string
    requires |token| > 0
    decreases |s|
  {
    if |s| == 0 then ""
    else if StartsWith(s, token) then replacement + ReplaceAll(s[|token|..], token, replacement)
    else [s[0]] + ReplaceAll(s[1..], token, replacement)
  }

  /** The template with the logical file name put in for every placeholder. */
  function Substitute(template: string, fileName: string): (r: string)
    ensures !Contains(template, FileNamePlaceholder) ==> r == template
  {
    var r := ReplaceAll(template, FileNamePlaceholder, fileName);
    assert !Contains(template, FileNamePlaceholder) ==> r == template by {
      if !Contains(template, FileNamePlaceholder) {
        ReplaceAllAbsent(template, FileNamePlaceholder, fileName);
      }
    }
    r
  }

  /** Where the token does not occur, nothing is replaced. */
  lemma {:induction false} ReplaceAllAbsent(s: string, token: string, replacement: string)
    requires |token| > 0
    requires !Contains(s, token)
    ensures ReplaceAll(s, token, replacement) == s
    decreases |s|
  {
    if |s| > 0 {
      assert !StartsWith(s, token) by {
        if StartsWith(s, token) {
          ContainsPrefix(s, token);
        }
      }
      assert !Contains(s[1..], token) by {
        if Contains(s[1..], token) {
          var j :| 0 <= j <= |s| - 1 - |token| && OccursAt(s[1..], token, j);
          assert s[1..][j..j + |token|] == s[j + 1..j + 1 + |token|];
          assert OccursAt(s, token, j + 1);
        }
      }
      ReplaceAllAbsent(s[1..], token, replacement);
      assert s == [s[0]] + s[1..];
    }
  }

  /** A token at the front is replaced, and the scan goes on after it. */
  lemma ReplaceAllToken(rest: string, token: string, replacement: string)
    requires |token| > 0
    ensures ReplaceAll(token + rest, token, replacement) == replacement + ReplaceAll(rest, token, replacement)
  {
    var s := token + rest;
    assert s[..|token|] == token;
    assert s[|token|..] == rest;
  }

  /**
    Text without the token is copied verbatim and the token after it is
    replaced. No occurrence can start inside the text and run into the token,
    because the token's first character does not recur in it.
   */
  lemma {:induction false} ReplaceAllBeforeToken(a: string, rest: string, token: string, replacement: string)
    requires |token| > 0 && token[0] !in token[1..]
    requires !Contains(a, token)
    ensures ReplaceAll(a + token + rest, token, replacement) == a + replacement + ReplaceAll(rest, token, replacement)
    decreases |a|
  {
    if |a| == 0 {
      assert a + token + rest == token + rest;
      ReplaceAllToken(rest, token, replacement);
    } else {
      var s := a + token + rest;
      if |a| < |token| {
        // the token's head sits at |a| in s, where a match would need token[|a|]
        assert s[|a|] == token[0];
        assert token[1..][|a| - 1] == token[|a|];
      }
      assert !StartsWith(s, token) by {
        if StartsWith(s, token) && |a| >= |token| {
          assert a[..|token|] == s[..|token|];
          ContainsPrefix(a, token);
        }
      }
      assert !Contains(a[1..], token) by {
        if Contains(a[1..], token) {
          var j :| 0 <= j <= |a| - 1 - |token| && OccursAt(a[1..], token, j);
          assert a[1..][j..j + |token|] == a[j + 1..j + 1 + |token|];
          assert OccursAt(a, token, j + 1);
        }
      }
      assert s[1..] == a[1..] + token + rest;
      ReplaceAllBeforeToken(a[1..], rest, token, replacement);
      assert a == [a[0]] + a[1..];
    }
  }

  /**
    A template made of pieces joined by the token becomes the same pieces
    joined by the replacement: every occurrence is replaced and the text
    around them is kept. The pieces are the text between occurrences, so none
    holds the token; they may hold the token's first character, as a regular
    expression's `{2}` does.
   */
  lemma {:induction false} ReplaceAllJoin(pieces: seq<string>, token: string, replacement: string)
    requires |token| > 0 && token[0] !in token[1..]
    requires forall i :: 0 <= i < |pieces| ==> !Contains(pieces[i], token)
    ensures ReplaceAll(Join(pieces, token), token, replacement) == Join(pieces, replacement)
    decreases |pieces|
  {
    if |pieces| == 1 {
      ReplaceAllAbsent(pieces[0], token, replacement);
    } else if |pieces| > 1 {
      var rest := pieces[1..];
      JoinCons(pieces[0], rest, token);
      JoinCons(pieces[0], rest, replacement);
      assert pieces == [pieces[0]] + rest;
      ReplaceAllBeforeToken(pieces[0], Join(rest, token), token, replacement);
      ReplaceAllJoin(rest, token, replacement);
    }
  }

  /** The placeholder's `{` does not recur inside it. */
  lemma PlaceholderHeadOnce()
    ensures |FileNamePlaceholder| > 0 && FileNamePlaceholder[0] !in FileNamePlaceholder[1..]
  {
    assert FileNamePlaceholder[0] == '{';
    assert FileNamePlaceholder[1..] == "fileName}";
  }

  /**
    Every placeholder of a template is replaced by the file name and the text
    between placeholders is kept, whatever that text holds, `{` included.
   */
  lemma SubstituteJoin(pieces: seq<string>, fileName: string)
    requires forall i :: 0 <= i < |pieces| ==> !Contains(pieces[i], FileNamePlaceholder)
    ensures Substitute(Join(pieces, FileNamePlaceholder), fileName) == Join(pieces, fileName)
  {
    PlaceholderHeadOnce();
    ReplaceAllJoin(pieces, FileNamePlaceholder, fileName);
  }

  /**
    When every `{` of the template opens a placeholder and the replacement
    holds no `{`, no `{` and so no placeholder is left.
   */
  lemma {:induction false} ReplaceAllLeavesNoHead(s: string, token: string, replacement: string)
    requires |token| > 0 && token[0] !in token[1..]
    requires token[0] !in replacement
    requires forall i :: 0 <= i < |s| && s[i] == token[0] ==> StartsWith(s[i..], token)
    ensures token[0] !in ReplaceAll(s, token, replacement)
    decreases |s|
  {
    if |s| > 0 {
      if StartsWith(s, token) {
        var t := s[|token|..];
        forall j | 0 <= j < |t| && t[j] == token[0] ensures StartsWith(t[j..], token) {
          assert s[|token| + j] == t[j];
          assert s[|token| + j..] == t[j..];
        }
        ReplaceAllLeavesNoHead(t, token, replacement);
      } else {
        var t := s[1..];
        assert s[0] != token[0];
        forall j | 0 <= j < |t| && t[j] == token[0] ensures StartsWith(t[j..], token) {
          assert s[1 + j] == t[j];
          assert s[1 + j..] == t[j..];
        }
        ReplaceAllLeavesNoHead(t, token, replacement);
      }
    }
  }

  /**
    Substitution into a template whose every `{` opens a placeholder, with a
    name that holds no `{`, leaves no placeholder behind.
   */
  lemma NoPlaceholderRemains(template: string, fileName: string)
    requires '{' !in fileName
    requires forall i :: 0 <= i < |template| && template[i] == '{' ==> StartsWith(template[i..], FileNamePlaceholder)
    ensures !Contains(Substitute(template, fileName), FileNamePlaceholder)
  {
    PlaceholderHeadOnce();
    ReplaceAllLeavesNoHead(template, FileNamePlaceholder, fileName);
    if Contains(Substitute(template, fileName), FileNamePlaceholder) {
      ContainsOnlyCharsOf(Substitute(template, fileName), FileNamePlaceholder, '{');
    }
  }

  /** The inserted name is not scanned again for placeholders. */
  lemma InsertedTextNotRescanned(fileName: string)
    ensures Substitute(FileNamePlaceholder, fileName) == fileName
  {
    ReplaceAllToken("", FileNamePlaceholder, fileName);
    assert FileNamePlaceholder + "" == FileNamePlaceholder;
  }
}
