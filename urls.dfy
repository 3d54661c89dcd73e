/**
 * The part of Python's `urllib.parse.urlparse` that the scraper uses: the
 * network location (`netloc`), found the way `urlsplit` finds it.
 */
module Urls {
  import opened PyStr

  predicate IsAsciiAlpha(c: char)
  {
    ('a' <= c <= 'z') || ('A' <= c <= 'Z')
  }

  /** The characters `urlsplit` accepts in a scheme. */
  predicate IsSchemeChar(c: char)
  {
    IsAsciiAlpha(c) || ('0' <= c <= '9') || c == '+' || c == '-' || c == '.'
  }

  /** `s.find(c)`, with `|s|` standing for "not found". */
  function Find(s: string, c: char): (i: nat)
    ensures i <= |s|
    ensures i < |s| ==> s[i] == c
    ensures c !in s[..i]
  {
    if s == [] then 0
    else if s[0] == c then 0
    else
      var k := Find(s[1..], c);
      assert s[..k + 1] == [s[0]] + s[1..][..k];
      1 + k
  }

  predicate IsNetlocDelimiter(c: char)
  {
    c == '/' || c == '?' || c == '#'
  }

  /** The first index at or after `from` holding `/`, `?` or `#`, else `|s|`. */
  function NetlocEnd(s: string, from: nat): (e: nat)
    requires from <= |s|
    ensures from <= e <= |s|
    ensures e < |s| ==> IsNetlocDelimiter(s[e])
    ensures forall k :: from <= k < e ==> !IsNetlocDelimiter(s[k])
    decreases |s| - from
  {
    if from == |s| || IsNetlocDelimiter(s[from]) then from else NetlocEnd(s, from + 1)
  }

  /**
   * What is left once `urlsplit` has taken the scheme off: the scheme is the
   * text before the first `:` when that text is non-empty, starts with an
   * ASCII letter and holds only scheme characters.
   */
  function AfterScheme(url: string): (rest: string)
    ensures rest == url || |rest| < |url|
  {
    var i := Find(url, ':');
    if 0 < i < |url| && IsAsciiAlpha(url[0]) && (forall k :: 0 <= k < i ==> IsSchemeChar(url[k]))
    then url[i + 1..]
    else url
  }

  /** `urlparse(url).netloc`: after the scheme, `//` and then up to `/`, `?` or `#`. */
  function Netloc(url: string): (n: string)
    ensures forall k :: 0 <= k < |n| ==> !IsNetlocDelimiter(n[k])
  {
    var rest := AfterScheme(url);
    if |rest| >= 2 && rest[..2] == "//" then rest[2..NetlocEnd(rest, 2)] else ""
  }

  /**
   * For an absolute URL `scheme://host` followed by a path, query or fragment
   * (or nothing), the netloc is exactly `host`, port and user info included.
   */
  lemma NetlocOfAbsolute(scheme: string, host: string, tail: string)
    requires scheme != [] && IsAsciiAlpha(scheme[0])
    requires forall k :: 0 <= k < |scheme| ==> IsSchemeChar(scheme[k])
    requires forall k :: 0 <= k < |host| ==> !IsNetlocDelimiter(host[k])
    requires tail == [] || IsNetlocDelimiter(tail[0])
    ensures Netloc(scheme + "://" + host + tail) == host
  {
    var url := scheme + "://" + host + tail;
    assert url[|scheme|] == ':';
    assert ':' !in scheme by {
      forall k | 0 <= k < |scheme| ensures scheme[k] != ':' {
        assert IsSchemeChar(scheme[k]);
      }
    }
    assert url[..|scheme|] == scheme;
    FindAt(url, ':', |scheme|);
    var rest := url[|scheme| + 1..];
    assert AfterScheme(url) == rest;
    assert rest == "//" + host + tail;
    NetlocEndAt(rest, 2, 2 + |host|);
  }

  lemma FindAt(s: string, c: char, i: nat)
    requires i < |s| && s[i] == c && c !in s[..i]
    ensures Find(s, c) == i
  {
  }

  lemma {:induction false} NetlocEndAt(s: string, from: nat, e: nat)
    requires from <= e <= |s|
    requires e == |s| || IsNetlocDelimiter(s[e])
    requires forall k :: from <= k < e ==> !IsNetlocDelimiter(s[k])
    ensures NetlocEnd(s, from) == e
    decreases e - from
  {
    if from < e {
      NetlocEndAt(s, from + 1, e);
    }
  }
}
