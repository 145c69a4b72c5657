/**
 * The part of Python's `urllib.parse.urlparse` the profile-picture validator relies on (the
 * path of a URL), and that validator itself: the path must end in `.jpg`, `.jpeg` or `.png`.
 */
module UrlParse {
  import opened Wrappers
  import opened CharClasses
  import opened Strings

  /** Tab, carriage return and line feed are deleted from a URL before it is split. */
  const UnsafeChars: set<char> := {'\t', '\r', '\n'}

  /** Schemes whose last path segment may carry `;parameters`, which `urlparse` splits off. */
  const UsesParams: set<string> := {
    "", "ftp", "hdl", "prospero", "http", "imap", "https", "shttp", "rtsp", "rtsps", "rtspu",
    "sip", "sips", "mms", "sftp", "tel"
  }

  const InvalidIpv6Message: string := "Invalid IPv6 URL"

  const ImageMessage: string := "Profile Picture URL must point to a valid image file (JPEG, PNG)."

  /** The components of a parsed URL the model needs. */
  datatype UrlParts = UrlParts(scheme: string, netloc: string, path: string)

  /** C0 control characters and the space, which `urlsplit` strips from the start of a URL. */
  predicate IsC0OrSpace(c: char) {
    c <= ' '
  }

  /** `url.lstrip(_WHATWG_C0_CONTROL_OR_SPACE)`: the longest suffix not starting with such a character. */
  function StripLeading(s: string): (r: string)
    ensures |r| <= |s| && r == s[|s| - |r|..]
    ensures forall i :: 0 <= i < |s| - |r| ==> IsC0OrSpace(s[i])
    ensures r == "" || !IsC0OrSpace(r[0])
  {
    if |s| == 0 || !IsC0OrSpace(s[0]) then s
    else
      var r := StripLeading(s[1..]);
      assert s[1..][|s| - 1 - |r|..] == s[|s| - |r|..];
      r
  }

  /** Text that starts with neither a control character nor a space is not stripped. */
  lemma StripLeadingKeeps(s: string)
    requires |s| > 0 && !IsC0OrSpace(s[0])
    ensures StripLeading(s) == s
  {
  }

  function RemoveUnsafe(s: string): (r: string)
    ensures forall c :: c in r <==> c in s && c !in UnsafeChars
    ensures Excludes(r, UnsafeChars)
    ensures Excludes(s, UnsafeChars) ==> r == s
  {
    if |s| == 0 then []
    else
      var rest := RemoveUnsafe(s[1..]);
      assert forall c :: c in s <==> c == s[0] || c in s[1..];
      if s[0] in UnsafeChars then rest else [s[0]] + rest
  }

  predicate IsSchemeChar(c: char) {
    IsAsciiLetter(c) || IsAsciiDigit(c) || c == '+' || c == '-' || c == '.'
  }

  /**
   * The scheme is what precedes the first `:` when that is non-empty, starts with an ASCII
   * letter and holds only scheme characters; it is lower-cased. Otherwise there is none and
   * the whole string is the remainder.
   */
  function SplitScheme(s: string): (r: (string, string))
    ensures r.0 == "" ==> r.1 == s
    ensures r.0 != "" ==> 0 < |r.0| < |s| && s[|r.0|] == ':' && r.1 == s[|r.0| + 1..]
    ensures r.0 != "" ==> ':' !in s[..|r.0|] && All(r.0, IsSchemeChar)
  {
    var i := IndexOfAny(s, 0, {':'});
    if 0 < i < |s| && IsAsciiLetter(s[0]) && All(s[..i], IsSchemeChar) then
      (AsciiLower(s[..i]), s[i + 1..])
    else ("", s)
  }

  /** After `//`, the network location runs up to the first `/`, `?` or `#`. */
  function SplitNetloc(s: string): (r: (string, string))
    requires StartsWith(s, "//")
    ensures 2 + |r.0| <= |s| && r.0 == s[2..2 + |r.0|] && r.1 == s[2 + |r.0|..]
    ensures Excludes(r.0, {'/', '?', '#'})
    ensures r.1 == "" || r.1[0] in {'/', '?', '#'}
  {
    var d := IndexOfAny(s, 2, {'/', '?', '#'});
    (s[2..d], s[d..])
  }

  /** `;parameters` after the last `/` of the path are cut off. */
  function StripParams(path: string): (r: string)
    ensures |r| <= |path| && r == path[..|r|]
    ensures ';' !in path ==> r == path
  {
    if ';' !in path then path
    else match LastIndexOf(path, '/')
      case Some(j) => path[..IndexOfAny(path, j, {';'})]
      case None => path[..IndexOfAny(path, 0, {';'})]
  }

  /** The network location, and what follows it: the path, then the query, then the fragment. */
  function AfterNetloc(s: string): (r: (string, string))
    ensures |r.1| <= |s| && r.1 == s[|s| - |r.1|..]
  {
    var rest := SplitScheme(s).1;
    assert rest == s[|s| - |rest|..];
    if StartsWith(rest, "//") then
      var (netloc, after) := SplitNetloc(rest);
      assert after == s[|s| - |after|..];
      (netloc, after)
    else ("", rest)
  }

  /** The path proper: cut at the fragment and then at the query. */
  function PathPart(after: string): (r: string)
    ensures |r| <= |after| && r == after[..|r|]
    ensures Excludes(r, {'?', '#'})
  {
    var beforeFragment := CutAtAny(after, {'#'});
    var beforeQuery := CutAtAny(beforeFragment, {'?'});
    assert Excludes(beforeQuery, {'#'}) by {
      ExcludesSlice(beforeFragment, {'#'}, {'#'}, 0, |beforeQuery|);
    }
    beforeQuery
  }

  /**
   * `urlparse(url)`, reduced to scheme, network location and path. Leading C0 controls and
   * spaces are stripped and tab, CR and LF deleted before splitting. The only error modelled is
   * for a network location with one square bracket but not the other.
   */
  function Parse(url: string): (r: Result<UrlParts, string>)
    ensures r.Failure? ==> r.error == InvalidIpv6Message
    ensures r.Success? ==> Excludes(r.value.path, {'?', '#', '\n'})
  {
    var s := RemoveUnsafe(StripLeading(url));
    var scheme := SplitScheme(s).0;
    var (netloc, after) := AfterNetloc(s);
    if ('[' in netloc) != (']' in netloc) then Failure(InvalidIpv6Message)
    else
      var beforeQuery := PathPart(after);
      var path := if scheme in UsesParams then StripParams(beforeQuery) else beforeQuery;
      ExcludesSlice(s, UnsafeChars, UnsafeChars, |s| - |after|, |s|);
      ExcludesSlice(after, UnsafeChars, {'\n'}, 0, |beforeQuery|);
      ExcludesSlice(beforeQuery, {'?', '#'}, {'?', '#'}, 0, |path|);
      ExcludesSlice(beforeQuery, {'\n'}, {'\n'}, 0, |path|);
      Success(UrlParts(scheme, netloc, path))
  }

  predicate HasImageSuffix(path: string) {
    EndsWith(path, ".jpg") || EndsWith(path, ".jpeg") || EndsWith(path, ".png")
  }

  /** `re.search(r"\.(jpg|jpeg|png)$", path)`, where `$` also matches before a final line break. */
  predicate ImageSuffixAtEnd(path: string) {
    || HasImageSuffix(path)
    || (|path| > 0 && path[|path| - 1] == '\n' && HasImageSuffix(path[..|path| - 1]))
  }

  /**
   * `validate_profile_picture_url`: `None` passes; any other value is returned unchanged when
   * its parsed path ends with an image extension (case-sensitive) and is otherwise rejected
   * with the image message, or with the parser's own message when parsing fails.
   */
  function CheckProfilePicture(v: Option<string>): (r: Result<Option<string>, string>)
    ensures v.None? ==> r == Success(None)
    ensures r.Success? ==> r.value == v
    ensures v.Some? ==>
      (r.Success? <==> Parse(v.value).Success? && HasImageSuffix(Parse(v.value).value.path))
    ensures r.Failure? ==> r.error in {ImageMessage, InvalidIpv6Message}
    ensures v.Some? && Parse(v.value).Failure? ==> r == Failure(Parse(v.value).error)
    ensures v.Some? && Parse(v.value).Success? && !HasImageSuffix(Parse(v.value).value.path) ==>
      r == Failure(ImageMessage)
  {
    match v
    case None => Success(None)
    case Some(url) =>
      match Parse(url)
      case Failure(e) => Failure(e)
      case Success(parts) =>
        if ImageSuffixAtEnd(parts.path) then Success(v) else Failure(ImageMessage)
  }

  /** A scheme written the way the parser reports it: a lower-case letter, then scheme characters, no capitals. */
  predicate IsPlainScheme(scheme: string) {
    && |scheme| > 0
    && IsAsciiLower(scheme[0])
    && All(scheme, IsSchemeChar)
    && !Any(scheme, IsAsciiUpper)
  }

  /** A plain scheme in front of `:` is recognised and kept as written. */
  lemma PlainScheme(scheme: string, rest: string)
    requires IsPlainScheme(scheme)
    ensures SplitScheme(scheme + ":" + rest) == (scheme, rest)
  {
    var s := scheme + ":" + rest;
    assert s[..|scheme|] == scheme;
    assert s[|scheme|] == ':';
    assert forall i :: 0 <= i < |scheme| ==> s[i] == scheme[i] && s[i] != ':';
    assert IndexOfAny(s, 0, {':'}) == |scheme|;
    assert IsAsciiLetter(s[0]);
    var lower := AsciiLower(scheme);
    assert forall i :: 0 <= i < |scheme| ==> lower[i] == scheme[i];
    assert lower == scheme;
    assert s[|scheme| + 1..] == rest;
  }

  /** The network location of `//host...` is `host` when `host` has no `/`, `?` or `#`. */
  lemma NetlocOf(host: string, after: string)
    requires Excludes(host, {'/', '?', '#'})
    requires after == "" || after[0] in {'/', '?', '#'}
    ensures SplitNetloc("//" + host + after) == (host, after)
  {
    var s := "//" + host + after;
    forall i | 2 <= i < 2 + |host|
      ensures s[i] !in {'/', '?', '#'}
    {
      assert s[i] == host[i - 2];
    }
    if after != "" {
      assert s[2 + |host|] == after[0];
    }
    assert IndexOfAny(s, 2, {'/', '?', '#'}) == 2 + |host|;
    assert s[2..2 + |host|] == host;
    assert s[2 + |host|..] == after;
  }

  /** Cutting `path + tail` at the fragment and then the query leaves `path`. */
  lemma PathPartOf(path: string, tail: string)
    requires Excludes(path, {'?', '#'})
    requires tail == "" || tail[0] in {'?', '#'}
    ensures PathPart(path + tail) == path
  {
    var after := path + tail;
    var h := IndexOfAny(after, 0, {'#'});
    var y := after[..h];
    var q := IndexOfAny(y, 0, {'?'});
    assert |path| <= h by {
      assert forall i :: 0 <= i < |path| ==> after[i] == path[i];
    }
    assert |path| < |y| ==> y[|path|] == tail[0] && tail[0] == '?';
    assert forall i :: 0 <= i < |path| ==> y[i] == path[i];
    assert q == |path|;
    assert y[..q] == path;
  }

  /**
   * The path of a URL `scheme://host` + `path` + (`?...` or `#...`) is `path`: what follows
   * the network location, up to the query or fragment. The host is ASCII, so the parser's
   * Unicode-normalisation check of the network location, which skips ASCII text, has nothing to reject.
   */
  lemma UrlPathOf(scheme: string, host: string, path: string, tail: string)
    requires IsPlainScheme(scheme)
    requires Excludes(host, {'/', '?', '#', '[', ']'}) && Excludes(host, UnsafeChars) && All(host, IsAscii)
    requires path == "" || path[0] == '/'
    requires Excludes(path, {'?', '#', ';'}) && Excludes(path, UnsafeChars)
    requires tail == "" || tail[0] in {'?', '#'}
    requires Excludes(tail, UnsafeChars)
    ensures Parse(scheme + "://" + host + path + tail) == Success(UrlParts(scheme, host, path))
  {
    var after := path + tail;
    var rest := "//" + host + after;
    var url := scheme + ":" + rest;
    assert url == scheme + "://" + host + path + tail;
    PlainScheme(scheme, rest);
    CleanUrl(scheme, host, path, tail);
    ExcludesSlice(host, {'/', '?', '#', '[', ']'}, {'/', '?', '#'}, 0, |host|);
    ExcludesSlice(path, {'?', '#', ';'}, {'?', '#'}, 0, |path|);
    assert host[0..|host|] == host && path[0..|path|] == path;
    AfterNetlocOf(scheme, host, after);
    PathPartOf(path, tail);
    ExcludesNotIn(host, {'/', '?', '#', '[', ']'}, '[');
    ExcludesNotIn(host, {'/', '?', '#', '[', ']'}, ']');
    ExcludesNotIn(path, {'?', '#', ';'}, ';');
    assert url[0] == scheme[0];
    StripLeadingKeeps(url);
    ParseSteps(url, url, scheme, host, after);
  }

  /**
   * Text without `:` has no scheme, and when it does not start with `//` (after its leading
   * controls and spaces) no network location either: without a query, fragment or parameters,
   * all of it but those leading characters is the path.
   */
  lemma NoSchemePath(url: string)
    requires Excludes(url, {':', '?', '#', ';'}) && Excludes(url, UnsafeChars)
    requires !StartsWith(StripLeading(url), "//")
    ensures Parse(url) == Success(UrlParts("", "", StripLeading(url)))
  {
    var t := StripLeading(url);
    ExcludesSlice(url, {':', '?', '#', ';'}, {':', '?', '#', ';'}, |url| - |t|, |url|);
    ExcludesSlice(url, UnsafeChars, UnsafeChars, |url| - |t|, |url|);
    assert RemoveUnsafe(t) == t;
    BarePath(t);
    ParseSteps(url, t, "", "", t);
  }

  /** Text without `:`, `?`, `#`, `;` or a leading `//` is all path. */
  lemma BarePath(t: string)
    requires Excludes(t, {':', '?', '#', ';'}) && !StartsWith(t, "//")
    ensures SplitScheme(t) == ("", t) && AfterNetloc(t) == ("", t)
    ensures PathPart(t) == t && StripParams(t) == t
  {
    ExcludesNotIn(t, {':', '?', '#', ';'}, ':');
    assert IndexOfAny(t, 0, {':'}) == |t| by {
      ExcludesSlice(t, {':', '?', '#', ';'}, {':'}, 0, |t|);
      assert t[0..|t|] == t;
    }
    ExcludesSlice(t, {':', '?', '#', ';'}, {'?', '#'}, 0, |t|);
    assert t[0..|t|] == t;
    PathPartOf(t, "");
    assert t + "" == t;
    ExcludesNotIn(t, {':', '?', '#', ';'}, ';');
  }

  /**
   * A leading space is stripped before splitting, so ` //host` has the network location
   * `host` and an empty path (an ASCII host, which the normalisation check skips).
   */
  lemma LeadingSpaceNetloc(host: string)
    requires Excludes(host, {'/', '?', '#', '[', ']', ':'}) && Excludes(host, UnsafeChars) && All(host, IsAscii)
    ensures Parse(" //" + host) == Success(UrlParts("", host, ""))
  {
    var url := " //" + host;
    var t := "//" + host;
    assert url[1..] == t;
    StripLeadingKeeps(t);
    assert StripLeading(url) == t;
    ExcludesConcat("//", host, UnsafeChars);
    assert RemoveUnsafe(t) == t;
    ExcludesConcat("//", host, {':'});
    assert IndexOfAny(t, 0, {':'}) == |t|;
    assert SplitScheme(t) == ("", t);
    ExcludesSlice(host, {'/', '?', '#', '[', ']', ':'}, {'/', '?', '#'}, 0, |host|);
    assert host[0..|host|] == host;
    NetlocOf(host, "");
    assert "//" + host + "" == t;
    assert AfterNetloc(t) == (host, "");
    assert PathPart("") == "";
    ExcludesNotIn(host, {'/', '?', '#', '[', ']', ':'}, '[');
    ExcludesNotIn(host, {'/', '?', '#', '[', ']', ':'}, ']');
    ParseSteps(url, t, "", host, "");
  }

  /** Such a URL holds no character the parser deletes. */
  lemma CleanUrl(scheme: string, host: string, path: string, tail: string)
    requires IsPlainScheme(scheme)
    requires Excludes(host, UnsafeChars) && Excludes(path, UnsafeChars) && Excludes(tail, UnsafeChars)
    ensures Excludes(scheme + "://" + host + path + tail, UnsafeChars)
  {
    assert Excludes(scheme + "://", UnsafeChars) by {
      forall i | 0 <= i < |scheme|
        ensures scheme[i] !in UnsafeChars
      {
        assert IsSchemeChar(scheme[i]);
      }
    }
    ExcludesConcat(scheme + "://", host, UnsafeChars);
    ExcludesConcat(scheme + "://" + host, path, UnsafeChars);
    ExcludesConcat(scheme + "://" + host + path, tail, UnsafeChars);
  }

  /** `Parse` in terms of its steps, for a network location without brackets. */
  lemma ParseSteps(url: string, s: string, scheme: string, netloc: string, after: string)
    requires RemoveUnsafe(StripLeading(url)) == s
    requires SplitScheme(s).0 == scheme
    requires AfterNetloc(s) == (netloc, after)
    requires '[' !in netloc && ']' !in netloc
    ensures Parse(url) == Success(UrlParts(scheme, netloc,
      if scheme in UsesParams then StripParams(PathPart(after)) else PathPart(after)))
  {
  }

  lemma AfterNetlocOf(scheme: string, host: string, after: string)
    requires IsPlainScheme(scheme)
    requires Excludes(host, {'/', '?', '#'})
    requires after == "" || after[0] in {'/', '?', '#'}
    ensures AfterNetloc(scheme + ":" + ("//" + host + after)) == (host, after)
  {
    var rest := "//" + host + after;
    PlainScheme(scheme, rest);
    NetlocOf(host, after);
  }
}
