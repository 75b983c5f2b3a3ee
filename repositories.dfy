/**
  Recognising an Alpine repository URL and reading its release from it
  (parseAlpineVersion, which matches `^http[s]?://.+\/alpine\/([^\/]+)\/[^\/]+$`).
*/
module Repositories {
  import opened Wrappers

  predicate NoSlash(s: string)
  {
    forall i :: 0 <= i < |s| ==> s[i] != '/'
  }

  /** Go's `.` does not match a line feed; `[^\/]` does. */
  predicate NoNewline(s: string)
  {
    forall i :: 0 <= i < |s| ==> s[i] != '\n'
  }

  /**
    The language of the regular expression, with `version` the first capture group.
    `$` without the multi-line flag matches only at the end of the text.
  */
  ghost predicate MatchesRepo(repo: string, version: string)
  {
    exists scheme: string, host: string, tail: string ::
      && (scheme == "http://" || scheme == "https://")
      && |host| > 0 && NoNewline(host)
      && |version| > 0 && NoSlash(version)
      && |tail| > 0 && NoSlash(tail)
      && repo == scheme + host + "/alpine/" + version + "/" + tail
  }

  /** Index of the last '/' in `s`, if any. */
  function LastSlash(s: string): (r: Option<nat>)
    ensures r.Some? ==> r.value < |s| && s[r.value] == '/' && NoSlash(s[r.value + 1..])
    ensures r.None? ==> NoSlash(s)
  {
    if s == [] then None
    else if s[|s| - 1] == '/' then Some(|s| - 1)
    else match LastSlash(s[..|s| - 1])
      case Some(k) =>
        assert forall i :: k + 1 <= i < |s| - 1 ==> s[..|s| - 1][i] == s[i];
        Some(k)
      case None =>
        assert forall i :: 0 <= i < |s| - 1 ==> s[..|s| - 1][i] == s[i];
        None
  }

  /** The text after the "http://" or "https://" scheme, if the URL has one. */
  function AfterScheme(repo: string): (r: Option<string>)
  {
    if "https://" <= repo then Some(repo[8..])
    else if "http://" <= repo then Some(repo[7..])
    else None
  }

  /**
    parseAlpineVersion: after the scheme, the last three path segments must be
    "alpine", the release and one more non-empty segment; what precedes
    "/alpine" is the non-empty, single-line host part.
  */
  function ParseAlpineVersion(repo: string): (r: (string, bool))
    ensures !r.1 ==> r.0 == ""
  {
    match AfterScheme(repo)
    case None => ("", false)
    case Some(t) => ParseSegments(t)
  }

  function ParseSegments(t: string): (r: (string, bool))
    ensures !r.1 ==> r.0 == ""
  {
    match LastSlash(t)
    case None => ("", false)
    case Some(i) =>
      var before := t[..i];
      match LastSlash(before)
      case None => ("", false)
      case Some(j) =>
        var version, front := before[j + 1..], before[..j];
        if |t| - (i + 1) > 0 && |version| > 0 && |front| > 7
           && front[|front| - 7..] == "/alpine" && NoNewline(front[..|front| - 7])
        then (version, true)
        else ("", false)
  }

  /** The last '/' of `a + "/" + b` is the one between them when `b` has none. */
  lemma {:induction false} LastSlashOfJoin(a: string, b: string)
    requires NoSlash(b)
    ensures LastSlash(a + "/" + b) == Some(|a|)
    decreases |b|
  {
    var s := a + "/" + b;
    if b == [] {
      assert s[|s| - 1] == '/';
    } else {
      var b' := b[..|b| - 1];
      assert s[|s| - 1] == b[|b| - 1];
      assert s[..|s| - 1] == a + "/" + b';
      LastSlashOfJoin(a, b');
    }
  }

  lemma AfterSchemeOf(scheme: string, t: string)
    requires scheme == "http://" || scheme == "https://"
    ensures AfterScheme(scheme + t) == Some(t)
  {
    var repo := scheme + t;
    assert scheme <= repo;
    if scheme == "http://" {
      assert repo[4] == ':';
    }
    assert repo[|scheme|..] == t;
  }

  /** The match's concatenation, grouped as the parser takes it apart. */
  lemma Regroup(scheme: string, host: string, version: string, tail: string)
    ensures scheme + host + "/alpine/" + version + "/" + tail
         == scheme + (((host + "/alpine") + "/" + version) + "/" + tail)
  {
    assert "/alpine/" == "/alpine" + "/";
  }

  lemma SegmentsOfMatch(host: string, version: string, tail: string)
    requires |host| > 0 && NoNewline(host)
    requires |version| > 0 && NoSlash(version)
    requires |tail| > 0 && NoSlash(tail)
    ensures ParseSegments(((host + "/alpine") + "/" + version) + "/" + tail) == (version, true)
  {
    var front := host + "/alpine";
    var before := front + "/" + version;
    var t := before + "/" + tail;
    LastSlashOfJoin(before, tail);
    assert t[..|before|] == before;
    LastSlashOfJoin(front, version);
    assert before[..|front|] == front && before[|front| + 1..] == version;
    assert front[|front| - 7..] == "/alpine" && front[..|front| - 7] == host;
  }

  /** A match of the expression is found, with its capture group. */
  lemma MatchIsParsed(repo: string, version: string)
    requires MatchesRepo(repo, version)
    ensures ParseAlpineVersion(repo) == (version, true)
  {
    var scheme: string, host: string, tail: string :|
      && (scheme == "http://" || scheme == "https://")
      && |host| > 0 && NoNewline(host)
      && |version| > 0 && NoSlash(version)
      && |tail| > 0 && NoSlash(tail)
      && repo == scheme + host + "/alpine/" + version + "/" + tail;
    Regroup(scheme, host, version, tail);
    AfterSchemeOf(scheme, ((host + "/alpine") + "/" + version) + "/" + tail);
    SegmentsOfMatch(host, version, tail);
  }

  lemma ParsedSegments(t: string) returns (host: string, tail: string)
    requires ParseSegments(t).1
    ensures var version := ParseSegments(t).0;
      && |host| > 0 && NoNewline(host)
      && |version| > 0 && NoSlash(version)
      && |tail| > 0 && NoSlash(tail)
      && t == ((host + "/alpine") + "/" + version) + "/" + tail
  {
    var i := LastSlash(t).value;
    var before := t[..i];
    var j := LastSlash(before).value;
    var version, front := before[j + 1..], before[..j];
    host, tail := front[..|front| - 7], t[i + 1..];
    assert front == host + "/alpine";
    assert before == front + "/" + version;
    assert t == before + "/" + tail;
  }

  /** Whatever is parsed is a match of the expression. */
  lemma ParsedIsMatch(repo: string)
    requires ParseAlpineVersion(repo).1
    ensures MatchesRepo(repo, ParseAlpineVersion(repo).0)
  {
    var scheme := if "https://" <= repo then "https://" else "http://";
    var t := AfterScheme(repo).value;
    assert repo == scheme + t by {
      assert repo[..|scheme|] == scheme;
    }
    var host, tail := ParsedSegments(t);
    Regroup(scheme, host, ParseSegments(t).0, tail);
  }

  /** parseAlpineVersion succeeds exactly on the expression's matches. */
  lemma ParseAlpineVersionCorrect(repo: string, version: string)
    ensures ParseAlpineVersion(repo) == (version, true) <==> MatchesRepo(repo, version)
  {
    if MatchesRepo(repo, version) {
      MatchIsParsed(repo, version);
    }
    if ParseAlpineVersion(repo) == (version, true) {
      ParsedIsMatch(repo);
    }
  }
}
