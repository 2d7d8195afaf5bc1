/**
 * `parseGitHubURL` (main.go): turns the `origin` remote URL into the
 * repository's owner and name. One trailing `.git` is dropped; a URL that
 * starts with `git@` has `git@github.com:` trimmed, one that starts with
 * `https://` has `https://github.com/` trimmed, and the remainder is split on
 * `/`; pieces 0 and 1 are the result. Any other URL gives two empty strings.
 * When the remainder has no `/`, Go's `parts[1]` is out of range and the
 * program panics: here that is the `OutOfRange` result.
 */
module GitHubUrl {
  import opened Strings

  const GitSuffix: string := ".git"
  const SshScheme: string := "git@"
  const HttpsScheme: string := "https://"
  const SshPrefix: string := "git@github.com:"
  const HttpsPrefix: string := "https://github.com/"

  datatype ParseResult =
    | Parsed(owner: string, name: string)
    | OutOfRange  // the runtime panic of indexing `parts[1]`

  /** `return parts[0], parts[1]` on the pieces of a `Split`: it panics when there is no second piece. */
  function FirstTwo(parts: seq<string>): (r: ParseResult)
    requires |parts| > 0
    ensures r.OutOfRange? <==> |parts| == 1
    ensures r.Parsed? ==> r.owner == parts[0] && r.name == parts[1]
  {
    if |parts| < 2 then OutOfRange else Parsed(parts[0], parts[1])
  }

  function ParseGitHubURL(url: string): (r: ParseResult)
    ensures r.OutOfRange? ==> HasPrefix(url, SshScheme) || HasPrefix(url, HttpsScheme)
  {
    var u := TrimSuffix(url, GitSuffix);
    if HasPrefix(u, SshScheme) then FirstTwo(Split(TrimPrefix(u, SshPrefix), '/'))
    else if HasPrefix(u, HttpsScheme) then FirstTwo(Split(TrimPrefix(u, HttpsPrefix), '/'))
    else Parsed("", "")
  }

  // ---------------------------------------------------------------------
  // How trimming `.git` interacts with the rest of the URL

  /** Anything the trimmed URL starts with, the URL starts with. */
  lemma PrefixOfTrimmed(url: string, p: string)
    requires HasPrefix(TrimSuffix(url, GitSuffix), p)
    ensures HasPrefix(url, p)
  {
    var u := TrimSuffix(url, GitSuffix);
    assert url[..|u|] == u;
    assert url[..|p|] == u[..|p|];
  }

  /**
   * Trimming `.git` never reaches back past a character that `.git` does
   * not contain (such as `/`, `:` or `@`): it only trims the part after it.
   */
  lemma {:induction false} TrimAfter(a: string, b: string)
    requires |a| > 0 && a[|a| - 1] !in GitSuffix
    ensures TrimSuffix(a + b, GitSuffix) == a + TrimSuffix(b, GitSuffix)
  {
    var s := a + b;
    if |b| >= 4 {
      assert s[|s| - 4..] == b[|b| - 4..];
      if HasSuffix(b, GitSuffix) {
        assert s[..|s| - 4] == a + b[..|b| - 4];
      }
    } else {
      if |s| >= 4 {
        var k := |a| - 1 - (|s| - 4);
        assert s[|s| - 4..][k] == a[|a| - 1];
        assert a[|a| - 1] != GitSuffix[k];
      }
    }
  }

  /** The piece after `n`'s separator-free run is `n` itself. */
  lemma NamePiece(n: string, rest: string)
    requires '/' !in n
    requires rest == [] || rest[0] == '/'
    ensures Split(n + rest, '/')[0] == n
  {
    if rest == [] {
      assert n + rest == n;
      SplitNoSep(n, '/');
    } else {
      assert n + rest == n + ['/'] + rest[1..];
      SplitFirst(n, rest[1..], '/');
    }
  }

  /** Splitting `o/n` followed by nothing or by `/...` gives pieces `o`, `n`, .... */
  lemma OwnerNamePieces(o: string, n: string, rest: string)
    requires '/' !in o && '/' !in n
    requires rest == [] || rest[0] == '/'
    ensures FirstTwo(Split(o + "/" + n + rest, '/')) == Parsed(o, n)
  {
    assert o + "/" + n + rest == o + ['/'] + (n + rest);
    SplitFirst(o, n + rest, '/');
    NamePiece(n, rest);
  }

  lemma TrimHost(prefix: string, tail: string)
    ensures TrimPrefix(prefix + tail, prefix) == tail
  {
    assert (prefix + tail)[..|prefix|] == prefix;
  }

  /** `git@github.com:...` takes the SSH branch. */
  lemma SshBranch(tail: string)
    ensures HasPrefix(SshPrefix + tail, SshScheme)
  {
    assert (SshPrefix + tail)[..|SshScheme|] == SshPrefix[..|SshScheme|];
  }

  /** `https://github.com/...` takes the HTTPS branch. */
  lemma HttpsBranch(tail: string)
    ensures !HasPrefix(HttpsPrefix + tail, SshScheme)
    ensures HasPrefix(HttpsPrefix + tail, HttpsScheme)
  {
    assert (HttpsPrefix + tail)[0] == 'h';
    assert (HttpsPrefix + tail)[..|HttpsScheme|] == HttpsPrefix[..|HttpsScheme|];
  }

  /**
   * The heart of the parser: a GitHub URL whose part after `.git` trimming
   * is `o/n`, possibly followed by more `/`-separated segments, yields
   * exactly `(o, n)`; extra segments are ignored.
   */
  lemma RecognisedUrl(prefix: string, o: string, n: string, rest: string, url: string)
    requires prefix == SshPrefix || prefix == HttpsPrefix
    requires '/' !in o && '/' !in n
    requires rest == [] || rest[0] == '/'
    requires TrimSuffix(url, GitSuffix) == prefix + (o + "/" + n + rest)
    ensures ParseGitHubURL(url) == Parsed(o, n)
  {
    var tail := o + "/" + n + rest;
    TrimHost(prefix, tail);
    OwnerNamePieces(o, n, rest);
    if prefix == HttpsPrefix {
      HttpsBranch(tail);
    } else {
      SshBranch(tail);
    }
  }

  // ---------------------------------------------------------------------
  // The properties the parser promises

  /** `git@github.com:O/N`, with or without `.git`, parses to `(O, N)`. */
  lemma SshForm(o: string, n: string)
    requires '/' !in o && '/' !in n
    ensures ParseGitHubURL(SshPrefix + o + "/" + n + GitSuffix) == Parsed(o, n)
    ensures !HasSuffix(n, GitSuffix) ==> ParseGitHubURL(SshPrefix + o + "/" + n) == Parsed(o, n)
  {
    RecognisedForm(SshPrefix, o, n);
  }

  /** `https://github.com/O/N`, with or without `.git`, parses to `(O, N)`. */
  lemma HttpsForm(o: string, n: string)
    requires '/' !in o && '/' !in n
    ensures ParseGitHubURL(HttpsPrefix + o + "/" + n + GitSuffix) == Parsed(o, n)
    ensures !HasSuffix(n, GitSuffix) ==> ParseGitHubURL(HttpsPrefix + o + "/" + n) == Parsed(o, n)
  {
    RecognisedForm(HttpsPrefix, o, n);
  }

  /** `.git` appended to a string is trimmed off again. */
  lemma TrimAppended(s: string)
    ensures TrimSuffix(s + GitSuffix, GitSuffix) == s
  {
    var t := s + GitSuffix;
    assert t[|t| - 4..] == GitSuffix;
    assert t[..|t| - 4] == s;
  }

  /** `prefix + o + "/"`, the part of a URL up to the name, ends in `/`. */
  lemma UpToName(prefix: string, o: string, tail: string)
    ensures (prefix + o + "/")[|prefix + o + "/"| - 1] == '/'
    ensures prefix + o + "/" + tail == (prefix + o + "/") + tail
    ensures (prefix + o + "/") + tail == prefix + (o + "/" + tail + [])
  {
  }

  lemma RecognisedForm(prefix: string, o: string, n: string)
    requires prefix == SshPrefix || prefix == HttpsPrefix
    requires '/' !in o && '/' !in n
    ensures ParseGitHubURL(prefix + o + "/" + n + GitSuffix) == Parsed(o, n)
    ensures !HasSuffix(n, GitSuffix) ==> ParseGitHubURL(prefix + o + "/" + n) == Parsed(o, n)
  {
    var a := prefix + o + "/";
    UpToName(prefix, o, n);
    UpToName(prefix, o, n + GitSuffix);
    assert prefix + o + "/" + n + GitSuffix == a + (n + GitSuffix);
    TrimAfter(a, n + GitSuffix);
    TrimAppended(n);
    RecognisedUrl(prefix, o, n, [], a + (n + GitSuffix));
    if !HasSuffix(n, GitSuffix) {
      TrimAfter(a, n);
      RecognisedUrl(prefix, o, n, [], a + n);
    }
  }

  /** Segments after the name are ignored, for both URL forms. */
  lemma ExtraSegmentsIgnored(o: string, n: string, extra: string)
    requires '/' !in o && '/' !in n
    ensures ParseGitHubURL(SshPrefix + o + "/" + n + "/" + extra) == Parsed(o, n)
    ensures ParseGitHubURL(HttpsPrefix + o + "/" + n + "/" + extra) == Parsed(o, n)
  {
    ExtraSegments(SshPrefix, o, n, extra);
    ExtraSegments(HttpsPrefix, o, n, extra);
  }

  lemma ExtraSegments(prefix: string, o: string, n: string, extra: string)
    requires prefix == SshPrefix || prefix == HttpsPrefix
    requires '/' !in o && '/' !in n
    ensures ParseGitHubURL(prefix + o + "/" + n + "/" + extra) == Parsed(o, n)
  {
    var a := prefix + o + "/" + n + "/";
    var t := TrimSuffix(extra, GitSuffix);
    UpToName(prefix + o + "/", n, extra);
    UpToName(prefix + o + "/", n, t);
    TrimAfter(a, extra);
    assert prefix + o + "/" + n + "/" + t == prefix + (o + "/" + n + ("/" + t));
    RecognisedUrl(prefix, o, n, "/" + t, a + extra);
  }

  /** With or without one trailing `.git`, a URL parses the same. */
  lemma GitSuffixOptional(url: string)
    requires !HasSuffix(url, GitSuffix)
    ensures ParseGitHubURL(url + GitSuffix) == ParseGitHubURL(url)
  {
    var s := url + GitSuffix;
    assert s[|s| - 4..] == GitSuffix;
    assert s[..|s| - 4] == url;
  }

  /** Only one `.git` is removed: the second stays on the name. */
  lemma OnlyOneGitSuffixRemoved(prefix: string, o: string, n: string)
    requires prefix == SshPrefix || prefix == HttpsPrefix
    requires '/' !in o && '/' !in n
    ensures ParseGitHubURL(prefix + o + "/" + n + GitSuffix + GitSuffix) == Parsed(o, n + GitSuffix)
  {
    RecognisedForm(prefix, o, n + GitSuffix);
    assert prefix + o + "/" + n + GitSuffix + GitSuffix == prefix + o + "/" + (n + GitSuffix) + GitSuffix;
  }

  /** Neither `git@` nor `https://`: the result is two empty strings. */
  lemma UnknownScheme(url: string)
    requires !HasPrefix(url, SshScheme) && !HasPrefix(url, HttpsScheme)
    ensures ParseGitHubURL(url) == Parsed("", "")
  {
    var u := TrimSuffix(url, GitSuffix);
    if HasPrefix(u, SshScheme) { PrefixOfTrimmed(url, SshScheme); }
    if HasPrefix(u, HttpsScheme) { PrefixOfTrimmed(url, HttpsScheme); }
  }

  /**
   * A GitHub URL panics exactly when what follows the host, once `.git` is
   * trimmed, has no `/`.
   */
  lemma PanicsWithoutSlash(prefix: string, rest: string)
    requires prefix == SshPrefix || prefix == HttpsPrefix
    ensures ParseGitHubURL(prefix + rest).OutOfRange? <==> '/' !in TrimSuffix(rest, GitSuffix)
  {
    var t := TrimSuffix(rest, GitSuffix);
    TrimAfter(prefix, rest);
    TrimHost(prefix, t);
    if prefix == HttpsPrefix {
      HttpsBranch(t);
    } else {
      SshBranch(t);
    }
    PiecesOfRemainder(t);
  }

  /** The remainder has a second piece exactly when it has a `/`. */
  lemma PiecesOfRemainder(t: string)
    ensures FirstTwo(Split(t, '/')).OutOfRange? <==> '/' !in t
  {
  }

  /**
   * The scheme test is on `git@` but the strip is of `git@github.com:`: for
   * another SSH host nothing is stripped, so the owner keeps `git@host:`.
   */
  lemma ForeignSshHost(url: string)
    requires HasPrefix(url, SshScheme) && !HasPrefix(url, SshPrefix)
    requires ParseGitHubURL(url).Parsed?
    ensures HasPrefix(ParseGitHubURL(url).owner, SshScheme)
  {
    var u := TrimSuffix(url, GitSuffix);
    assert url == SshScheme + url[4..];
    TrimAfter(SshScheme, url[4..]);
    assert u[..4] == SshScheme;
    if HasPrefix(u, SshPrefix) { PrefixOfTrimmed(url, SshPrefix); }
    SplitHeadKeepsPrefix(u, SshScheme, '/');
  }

  /**
   * A `git@` URL of another host panics exactly when it has no `/` once
   * `.git` is trimmed: nothing is stripped before the split.
   */
  lemma ForeignSshPanics(url: string)
    requires HasPrefix(url, SshScheme) && !HasPrefix(url, SshPrefix)
    ensures ParseGitHubURL(url).OutOfRange? <==> '/' !in TrimSuffix(url, GitSuffix)
  {
    var u := TrimSuffix(url, GitSuffix);
    assert url == SshScheme + url[4..];
    TrimAfter(SshScheme, url[4..]);
    assert u[..4] == SshScheme;
    if HasPrefix(u, SshPrefix) { PrefixOfTrimmed(url, SshPrefix); }
    PiecesOfRemainder(u);
  }

  /** Exactly: `git@host:O/N` of another host parses to `(git@host:O, N)`. */
  lemma ForeignSshForm(a: string, n: string, rest: string, url: string)
    requires HasPrefix(a, SshScheme) && '/' !in a && '/' !in n
    requires rest == [] || rest[0] == '/'
    requires !HasPrefix(url, SshPrefix)
    requires TrimSuffix(url, GitSuffix) == a + "/" + n + rest
    ensures ParseGitHubURL(url) == Parsed(a, n)
  {
    var u := a + "/" + n + rest;
    assert u[..|SshScheme|] == a[..|SshScheme|];
    if HasPrefix(u, SshPrefix) { PrefixOfTrimmed(url, SshPrefix); }
    OwnerNamePieces(a, n, rest);
  }

  /**
   * Likewise every `https://` URL of another host parses to `("https:", "")`:
   * the scheme's own slashes are split on.
   */
  lemma ForeignHttpsHost(url: string)
    requires HasPrefix(url, HttpsScheme) && !HasPrefix(url, HttpsPrefix)
    ensures ParseGitHubURL(url) == Parsed("https:", "")
  {
    var w := url[|HttpsScheme|..];
    var t := TrimSuffix(w, GitSuffix);
    var u := TrimSuffix(url, GitSuffix);
    assert url == HttpsScheme + w;
    TrimAfter(HttpsScheme, w);
    HttpsSchemeBranch(t);
    if HasPrefix(u, HttpsPrefix) { PrefixOfTrimmed(url, HttpsPrefix); }
    SchemePieces(t);
  }

  /** A URL starting with `https://` takes the HTTPS branch. */
  lemma HttpsSchemeBranch(t: string)
    ensures !HasPrefix(HttpsScheme + t, SshScheme)
    ensures HasPrefix(HttpsScheme + t, HttpsScheme)
  {
    assert (HttpsScheme + t)[0] == 'h';
    assert (HttpsScheme + t)[..|HttpsScheme|] == HttpsScheme;
  }

  /** `https://...` splits into `https:`, an empty piece, then the rest. */
  lemma SchemePieces(t: string)
    ensures FirstTwo(Split(HttpsScheme + t, '/')) == Parsed("https:", "")
  {
    assert HttpsScheme + t == "https:" + ['/'] + ([] + ['/'] + t);
    SplitFirst("https:", [] + ['/'] + t, '/');
    SplitFirst([], t, '/');
  }

  /** A worked example of the SSH form, with `.git`. */
  lemma SshExample()
    ensures ParseGitHubURL("git@github.com:acme/widget.git") == Parsed("acme", "widget")
  {
    SshForm("acme", "widget");
    SshExampleSpelling();
  }

  /** The literal spelled as the concatenation the general lemma speaks of (kept apart: literals are costly to the solver). */
  lemma SshExampleSpelling()
    ensures SshPrefix + "acme" + "/" + "widget" + GitSuffix == "git@github.com:acme/widget.git"
  {
  }

  /** A worked example of the HTTPS form, without `.git`. */
  lemma HttpsExample()
    ensures ParseGitHubURL("https://github.com/acme/widget") == Parsed("acme", "widget")
  {
    HttpsForm("acme", "widget");
    HttpsExampleSpelling();
    WidgetHasNoGitSuffix();
  }

  lemma HttpsExampleSpelling()
    ensures HttpsPrefix + "acme" + "/" + "widget" == "https://github.com/acme/widget"
  {
  }

  lemma WidgetHasNoGitSuffix()
    ensures !HasSuffix("widget", GitSuffix)
  {
    var n := "widget";
    assert n[|n| - 4..][0] != GitSuffix[0];
  }

  /** A GitLab SSH URL keeps its host in the owner. */
  lemma GitLabSshExample()
    ensures ParseGitHubURL("git@gitlab.com:a/b") == Parsed("git@gitlab.com:a", "b")
  {
    var a := "git@gitlab.com:a";
    GitLabSpelling();
    assert a[..|SshScheme|] == SshScheme;
    assert TrimSuffix(a + "/" + "b" + [], GitSuffix) == a + "/" + "b" + [];
    ForeignSshForm(a, "b", [], a + "/" + "b" + []);
  }

  lemma GitLabSpelling()
    ensures "git@gitlab.com:a" + "/" + "b" + [] == "git@gitlab.com:a/b"
    ensures !HasPrefix("git@gitlab.com:a/b", SshPrefix)
  {
    var g := "git@gitlab.com:a/b";
    assert g[..|SshPrefix|][7] != SshPrefix[7];
  }

  /** A GitHub SSH URL without a name panics. */
  lemma MissingNameExample()
    ensures ParseGitHubURL("git@github.com:acme") == OutOfRange
  {
    PanicsWithoutSlash(SshPrefix, "acme");
    assert SshPrefix + "acme" == "git@github.com:acme";
  }
}
