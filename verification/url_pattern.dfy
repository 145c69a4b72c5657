/**
 * The URL shape check shared by the three URL fields (`validate_url`): a hand-coded matcher
 * for Python's `re.match(r'^https?:\/\/[^\s/$.?#].[^\s]*$', url)`, and a proof that it agrees
 * with a declarative reading of that expression.
 */
module UrlPattern {
  import opened Wrappers
  import opened CharClasses
  import opened Strings

  const InvalidUrlMessage: string := "Invalid URL format"

  /** `[^\s/$.?#]`: the first character after the scheme. */
  predicate IsHostStart(c: char) {
    !IsSpace(c) && c !in "/$.?#"
  }

  /** `[^\s]` */
  predicate IsNonSpace(c: char) { !IsSpace(c) }

  /**
   * Matcher for `[^\s]*$` under Python's rules: non-space characters up to the end, where
   * `$` also matches in front of one final line break.
   */
  predicate MatchesNonSpaceToEnd(t: string) {
    || |t| == 0
    || (|t| == 1 && t[0] == '\n')
    || (!IsSpace(t[0]) && MatchesNonSpaceToEnd(t[1..]))
  }

  /** What follows `http://` or `https://`: `[^\s/$.?#].[^\s]*$`. */
  predicate MatchesAfterScheme(t: string) {
    |t| >= 2 && IsHostStart(t[0]) && t[1] != '\n' && MatchesNonSpaceToEnd(t[2..])
  }

  /** The hand-coded matcher for the whole expression. */
  predicate MatchesUrlShape(s: string) {
    if StartsWith(s, "https://") then MatchesAfterScheme(s[8..])
    else if StartsWith(s, "http://") then MatchesAfterScheme(s[7..])
    else false
  }

  /**
   * One way of reading what follows the scheme against `[^\s/$.?#].[^\s]*$`: one host-start
   * character, one character other than a line break, a run of non-space characters, and
   * either nothing or the single line break Python's `$` tolerates.
   */
  ghost predicate IsTailParse(t: string, head: char, any: char, body: string, end: string) {
    && end in {"", "\n"}
    && t == [head, any] + body + end
    && IsHostStart(head)
    && any != '\n'
    && All(body, IsNonSpace)
  }

  /** A reading of the whole of `s`: `http://` or `https://` followed by a tail reading. */
  ghost predicate IsUrlParse(s: string, scheme: string, head: char, any: char, body: string, end: string) {
    && scheme in {"http://", "https://"}
    && s == scheme + [head, any] + body + end
    && IsTailParse(s[|scheme|..], head, any, body, end)
  }

  /** The declarative meaning of the expression: some reading of `s` exists. */
  ghost predicate UrlRegexMatches(s: string) {
    exists scheme, head, any, body, end :: IsUrlParse(s, scheme, head, any, body, end)
  }

  ghost predicate TailReadable(t: string) {
    exists head, any, body, end :: IsTailParse(t, head, any, body, end)
  }

  /** The scanning matcher for `[^\s]*$` accepts exactly the two shapes Python accepts. */
  lemma {:induction false} NonSpaceToEndShapes(t: string)
    ensures MatchesNonSpaceToEnd(t) <==>
      (All(t, IsNonSpace) || (|t| > 0 && t[|t| - 1] == '\n' && All(t[..|t| - 1], IsNonSpace)))
    decreases |t|
  {
    if |t| == 0 {
    } else if |t| == 1 {
      assert t[..0] == [];
    } else {
      var u, p, m := t[1..], t[..|t| - 1], t[1..|t| - 1];
      NonSpaceToEndShapes(u);
      assert u[..|u| - 1] == m;
      assert p[1..] == m;
      assert p[0] == t[0];
      assert u[|u| - 1] == t[|t| - 1];
      AllUncons(t, IsNonSpace);
      AllUncons(p, IsNonSpace);
    }
  }

  /** The matcher for the part after the scheme accepts exactly the readable tails. */
  lemma AfterSchemeShapes(t: string)
    ensures MatchesAfterScheme(t) <==> TailReadable(t)
  {
    if MatchesAfterScheme(t) {
      var rest := t[2..];
      NonSpaceToEndShapes(rest);
      if All(rest, IsNonSpace) {
        assert IsTailParse(t, t[0], t[1], rest, "");
      } else {
        assert IsTailParse(t, t[0], t[1], rest[..|rest| - 1], "\n");
      }
    }
    if TailReadable(t) {
      var head, any, body, end :| IsTailParse(t, head, any, body, end);
      var rest := t[2..];
      assert rest == body + end;
      NonSpaceToEndShapes(rest);
      if end == "" {
        assert rest == body;
      } else {
        assert rest[..|rest| - 1] == body;
      }
    }
  }

  /** A reading with a given scheme exists iff `s` starts with it and the rest is readable. */
  lemma UrlParseWithScheme(s: string, scheme: string)
    requires scheme in {"http://", "https://"}
    ensures (exists head, any, body, end :: IsUrlParse(s, scheme, head, any, body, end))
      <==> StartsWith(s, scheme) && TailReadable(s[|scheme|..])
  {
    if StartsWith(s, scheme) && TailReadable(s[|scheme|..]) {
      var t := s[|scheme|..];
      var head, any, body, end :| IsTailParse(t, head, any, body, end);
      assert s == scheme + t;
      assert IsUrlParse(s, scheme, head, any, body, end);
    }
    if exists head, any, body, end :: IsUrlParse(s, scheme, head, any, body, end) {
      var head, any, body, end :| IsUrlParse(s, scheme, head, any, body, end);
      assert s[..|scheme|] == scheme;
      assert IsTailParse(s[|scheme|..], head, any, body, end);
    }
  }

  /** A witness for the URL expression: scheme, a host-start character, any character, the rest non-space. */
  lemma UrlShapeWitness(scheme: string, rest: string)
    requires scheme in {"http://", "https://"}
    requires |rest| >= 2 && IsHostStart(rest[0]) && rest[1] != '\n'
    requires All(rest[2..], IsNonSpace)
    ensures UrlRegexMatches(scheme + rest)
  {
    var s := scheme + rest;
    assert rest == [rest[0], rest[1]] + rest[2..] + "";
    assert s[|scheme|..] == rest;
    assert IsUrlParse(s, scheme, rest[0], rest[1], rest[2..], "");
  }

  /** The hand-coded matcher accepts exactly the strings the regular expression matches. */
  lemma MatchesUrlShapeIffRegex(s: string)
    ensures MatchesUrlShape(s) <==> UrlRegexMatches(s)
  {
    UrlParseWithScheme(s, "http://");
    UrlParseWithScheme(s, "https://");
    if StartsWith(s, "https://") {
      AfterSchemeShapes(s[8..]);
      assert s[4] == 's';
      assert !StartsWith(s, "http://");
    } else if StartsWith(s, "http://") {
      AfterSchemeShapes(s[7..]);
    }
  }

  /**
   * `validate_url`: `None` passes through; a string is returned unchanged when it matches
   * the URL expression and is otherwise rejected with the fixed message.
   */
  function ValidateUrl(url: Option<string>): (r: Result<Option<string>, string>)
    ensures url.None? ==> r == Success(None)
    ensures url.Some? ==> (r.Success? <==> UrlRegexMatches(url.value))
    ensures r.Success? ==> r.value == url
    ensures r.Failure? ==> r.error == InvalidUrlMessage
  {
    match url
    case None => Success(None)
    case Some(s) =>
      MatchesUrlShapeIffRegex(s);
      if MatchesUrlShape(s) then Success(url) else Failure(InvalidUrlMessage)
  }
}
