/**
 * Addresses of the `l2l://<session>/<path>` scheme (index.js:52-74, 96-100,
 * 143-144): the match of `^l2l:\/\/([^\/]+)\/(.*)`, the escaping of the
 * first colon of a session id as `__COLON__`, its reversal, URL parsing
 * and the rewrite of local module addresses into l2l addresses.
 */
module L2lAddress {
  import opened Wrappers
  import opened Strings
  import opened JsValues

  const Scheme: string := "l2l://"
  const ColonToken: string := "__COLON__"

  /** The two capture groups of `^l2l:\/\/([^\/]+)\/(.*)`. */
  datatype Captures = Captures(sessionId: string, path: string)

  /**
   * The regular expression matches `url` with these captures: a
   * non-empty, slash-free session id, then `/`, then a path that `.*`
   * can span (no line terminator), which runs up to the first line
   * terminator or the end of the string.
   */
  predicate RegexMatches(url: string, sessionId: string, path: string) {
    var whole := Scheme + sessionId + "/" + path;
    && sessionId != []
    && '/' !in sessionId
    && NoLineTerminator(path)
    && StartsWith(url, whole)
    && (|url| == |whole| || IsLineTerminator(url[|whole|]))
  }

  /** Matching the l2l pattern against `url`: the captures, or no match. */
  function MatchL2l(url: string): (r: Option<Captures>)
    ensures r.Some? ==> RegexMatches(url, r.value.sessionId, r.value.path)
  {
    if !StartsWith(url, Scheme) then None
    else
      var rest := url[|Scheme|..];
      match IndexOf(rest, "/")
      case None => None
      case Some(i) =>
        if i == 0 then None
        else
          CapturesMatch(url, i);
          Some(Captures(rest[..i], TakeLine(rest[i + 1..])))
  }

  /** The captures taken at the first slash after the scheme satisfy the regular expression. */
  lemma CapturesMatch(url: string, i: nat)
    requires StartsWith(url, Scheme)
    requires IndexOf(url[|Scheme|..], "/") == Some(i) && i > 0
    ensures RegexMatches(url, url[|Scheme|..][..i], TakeLine(url[|Scheme|..][i + 1..]))
  {
    var rest := url[|Scheme|..];
    var sid, path := rest[..i], TakeLine(rest[i + 1..]);
    assert '/' !in sid by {
      forall j | 0 <= j < i ensures sid[j] != '/' { OccursAtChar(rest, '/', j); }
    }
    OccursAtChar(rest, '/', i);
    var whole := Scheme + sid + "/" + path;
    assert url[..|whole|] == whole by {
      assert rest[i + 1..][..|path|] == path;
      assert rest[..i + 1 + |path|] == sid + "/" + path;
      assert url[..|Scheme|] == Scheme;
    }
  }

  /** The match is determined by the regular expression: any captures it admits are the ones found. */
  lemma MatchL2lComplete(url: string, sessionId: string, path: string)
    requires RegexMatches(url, sessionId, path)
    ensures MatchL2l(url) == Some(Captures(sessionId, path))
  {
    var whole := Scheme + sessionId + "/" + path;
    var n := |sessionId|;
    PrefixAt(url, whole);
    assert StartsWith(url, Scheme) by {
      forall i | 0 <= i < |Scheme| ensures url[i] == Scheme[i] { assert whole[i] == Scheme[i]; }
    }
    var rest := url[|Scheme|..];
    forall j | 0 <= j < n ensures !OccursAt(rest, "/", j) {
      OccursAtChar(rest, '/', j);
      assert rest[j] == whole[|Scheme| + j] == sessionId[j];
    }
    OccursAtChar(rest, '/', n);
    assert rest[n] == whole[|Scheme| + n];
    IndexOfIs(rest, "/", n);
    assert rest[..n] == sessionId by {
      forall j | 0 <= j < n ensures rest[..n][j] == sessionId[j] { assert rest[j] == whole[|Scheme| + j]; }
    }
    var tail := rest[n + 1..];
    assert StartsWith(tail, path) by {
      forall i | 0 <= i < |path| ensures tail[i] == path[i] {
        assert tail[i] == whole[|Scheme| + n + 1 + i];
      }
      assert tail[..|path|] == path;
    }
    assert |tail| == |path| || IsLineTerminator(tail[|path|]) by {
      if |tail| != |path| { assert tail[|path|] == url[|whole|]; }
    }
    TakeLineUnique(tail, path);
  }

  /** No match means no captures satisfy the regular expression. */
  lemma MatchL2lNone(url: string, sessionId: string, path: string)
    requires MatchL2l(url).None?
    ensures !RegexMatches(url, sessionId, path)
  {
    if RegexMatches(url, sessionId, path) { MatchL2lComplete(url, sessionId, path); }
  }

  /**
   * The escaping of index.js:56 and 67: the first colon of a session id
   * becomes the token; an id without a colon is left as it is.
   */
  function EscapeSession(sessionId: string): (r: string)
    ensures ':' !in sessionId ==> r == sessionId
    ensures forall i :: 0 <= i < |sessionId| && sessionId[i] == ':' && ':' !in sessionId[..i] ==>
      r == sessionId[..i] + ColonToken + sessionId[i + 1..]
  {
    assert ':' !in sessionId ==> ReplaceFirst(sessionId, ":", ColonToken) == sessionId by {
      if ':' !in sessionId { IndexOfAbsentChar(sessionId, ':'); }
    }
    assert forall i :: 0 <= i < |sessionId| && sessionId[i] == ':' && ':' !in sessionId[..i] ==>
      ReplaceFirst(sessionId, ":", ColonToken) == sessionId[..i] + ColonToken + sessionId[i + 1..] by {
      forall i | 0 <= i < |sessionId| && sessionId[i] == ':' && ':' !in sessionId[..i]
        ensures ReplaceFirst(sessionId, ":", ColonToken) == sessionId[..i] + ColonToken + sessionId[i + 1..]
      {
        FirstColonOccurs(sessionId, i);
      }
    }
    ReplaceFirst(sessionId, ":", ColonToken)
  }

  /** A colon with none before it is the first occurrence of ":". */
  lemma FirstColonOccurs(s: string, i: nat)
    requires i < |s| && s[i] == ':' && ':' !in s[..i]
    ensures OccursAt(s, ":", i) && forall j :: 0 <= j < i ==> !OccursAt(s, ":", j)
  {
    OccursAtChar(s, ':', i);
    forall j | 0 <= j < i ensures !OccursAt(s, ":", j) {
      OccursAtChar(s, ':', j);
      assert s[..i][j] == s[j];
    }
  }

  /**
   * The un-escaping of index.js:144: the first occurrence of the token
   * becomes a colon; an id without the token is left as it is.
   */
  function UnescapeSession(sessionId: string): (r: string)
    ensures !Contains(sessionId, ColonToken) ==> r == sessionId
    ensures forall i :: OccursAt(sessionId, ColonToken, i) && (forall j :: 0 <= j < i ==> !OccursAt(sessionId, ColonToken, j)) ==>
      r == sessionId[..i] + ":" + sessionId[i + |ColonToken|..]
  {
    ReplaceFirst(sessionId, ColonToken, ":")
  }

  /** The number of colons in a string. */
  function Colons(s: string): nat {
    multiset(s)[':']
  }

  /** Escaping replaces exactly the first colon, so one colon fewer remains. */
  lemma EscapeSessionSplit(before: string, after: string)
    requires ':' !in before
    ensures EscapeSession(before + ":" + after) == before + ColonToken + after
    ensures Colons(EscapeSession(before + ":" + after)) == Colons(before) + Colons(after)
  {
    ReplaceFirstCharAt(before, ':', after, ColonToken);
    assert multiset(before + ColonToken + after) == multiset(before) + multiset(ColonToken) + multiset(after);
    assert ':' !in ColonToken;
    assert multiset(before + ":" + after) == multiset(before) + multiset(":") + multiset(after);
  }

  /** A session id without a colon is left as it is. */
  lemma EscapeSessionColonFree(sessionId: string)
    requires ':' !in sessionId
    ensures EscapeSession(sessionId) == sessionId
  {
    IndexOfAbsentChar(sessionId, ':');
  }

  /** Escaping keeps a session id non-empty and slash-free, and removes its only colon. */
  lemma EscapeSessionShape(sessionId: string)
    requires sessionId != [] && '/' !in sessionId
    ensures EscapeSession(sessionId) != [] && '/' !in EscapeSession(sessionId)
    ensures Colons(sessionId) <= 1 ==> ':' !in EscapeSession(sessionId)
  {
    if ':' in sessionId {
      IndexOfCharSplit(sessionId, ':');
      var i := IndexOf(sessionId, ":").value;
      var before, after := sessionId[..i], sessionId[i + 1..];
      assert sessionId == before + ":" + after;
      EscapeSessionSplit(before, after);
      assert Colons(sessionId) == Colons(before) + 1 + Colons(after) by {
        assert multiset(sessionId) == multiset(before) + multiset(":") + multiset(after);
      }
      NoCharInParts(before, ColonToken, after, '/');
      if Colons(sessionId) <= 1 {
        NoCharInParts(before, ColonToken, after, ':');
      }
    } else {
      EscapeSessionColonFree(sessionId);
    }
  }

  /** A character absent from three strings is absent from their concatenation. */
  lemma NoCharInParts(a: string, b: string, c: string, x: char)
    requires multiset(a)[x] == 0 && multiset(b)[x] == 0 && multiset(c)[x] == 0
    ensures x !in a + b + c
  {
    assert multiset(a + b + c) == multiset(a) + multiset(b) + multiset(c);
    assert x !in multiset(a + b + c);
  }

  /**
   * fixL2lURL (index.js:52-59): escape the first colon of the session id
   * of a matching address; leave every other string alone.
   */
  function FixL2lURL(url: string): (r: string)
    ensures MatchL2l(url).None? ==> r == url
    ensures MatchL2l(url).Some? ==>
      MatchL2l(r) == Some(Captures(EscapeSession(MatchL2l(url).value.sessionId), MatchL2l(url).value.path))
  {
    match MatchL2l(url)
    case None => url
    case Some(Captures(sid, path)) =>
      var r := Scheme + EscapeSession(sid) + "/" + path;
      EscapeSessionShape(sid);
      MatchL2lComplete(r, EscapeSession(sid), path);
      r
  }

  /** For a matching address the result is the address rebuilt from the escaped session id and the captured path. */
  lemma FixL2lURLOfMatching(url: string, sessionId: string, path: string)
    requires RegexMatches(url, sessionId, path)
    ensures FixL2lURL(url) == Scheme + EscapeSession(sessionId) + "/" + path
  {
    MatchL2lComplete(url, sessionId, path);
  }

  /** fixL2lURL is idempotent whenever the session id holds at most one colon. */
  lemma FixL2lURLIdempotent(url: string)
    requires MatchL2l(url).Some? ==> Colons(MatchL2l(url).value.sessionId) <= 1
    ensures FixL2lURL(FixL2lURL(url)) == FixL2lURL(url)
  {
    if MatchL2l(url).Some? {
      var Captures(sid, path) := MatchL2l(url).value;
      EscapeSessionShape(sid);
      EscapeSessionColonFree(EscapeSession(sid));
    }
  }

  /** With two colons in the session id a second application escapes the second colon too. */
  lemma FixL2lURLNotIdempotentForTwoColons(a: string, b: string, c: string, path: string)
    requires ':' !in a && ':' !in b
    requires '/' !in a && '/' !in b && '/' !in c && NoLineTerminator(path)
    ensures var once := Scheme + (a + ColonToken + (b + ":" + c)) + "/" + path;
      && FixL2lURL(Scheme + (a + ":" + (b + ":" + c)) + "/" + path) == once
      && FixL2lURL(once) == Scheme + ((a + ColonToken + b) + ColonToken + c) + "/" + path
      && FixL2lURL(once) != once
  {
    var sid := a + ":" + (b + ":" + c);
    NoCharInParts(a, ":", b + ":" + c, '/');
    FixL2lURLOfBuilt(sid, path);
    EscapeSessionSplit(a, b + ":" + c);
    var e1 := a + ColonToken + (b + ":" + c);
    EscapeSessionShape(sid);
    FixL2lURLOfBuilt(e1, path);
    AppendAssoc(a + ColonToken, b, ":");
    AppendAssoc(a + ColonToken, b + ":", c);
    AppendAssoc(b, ":", c);
    NoCharInParts(a, ColonToken, b, ':');
    EscapeSessionSplit(a + ColonToken + b, c);
  }

  /** fixL2lURL on an address built from a valid session id and a single-line path. */
  lemma FixL2lURLOfBuilt(sessionId: string, path: string)
    requires sessionId != [] && '/' !in sessionId && NoLineTerminator(path)
    ensures FixL2lURL(Scheme + sessionId + "/" + path) == Scheme + EscapeSession(sessionId) + "/" + path
  {
    MatchOfBuilt(sessionId, path);
  }

  /** An address built from a valid session id and a single-line path matches with exactly those captures. */
  lemma MatchOfBuilt(sessionId: string, path: string)
    requires sessionId != [] && '/' !in sessionId && NoLineTerminator(path)
    ensures MatchL2l(Scheme + sessionId + "/" + path) == Some(Captures(sessionId, path))
  {
    var url := Scheme + sessionId + "/" + path;
    assert url[..|url|] == url;
    MatchL2lComplete(url, sessionId, path);
  }

  /** Un-escaping recovers a session id whose part before its first colon holds no `__COLON`. */
  lemma UnescapeEscapeSession(before: string, after: string)
    requires ':' !in before && !Contains(before, "__COLON")
    ensures UnescapeSession(EscapeSession(before + ":" + after)) == before + ":" + after
  {
    EscapeSessionSplit(before, after);
    var s := before + ColonToken + after;
    var n := |before|;
    assert s[n..n + 9] == ColonToken;
    forall j | 0 <= j < n ensures !OccursAt(s, ColonToken, j) {
      NoTokenStartsInside(before, after, j);
    }
    IndexOfIs(s, ColonToken, n);
    assert s[..n] == before && s[n + 9..] == after;
  }

  /** No `__COLON__` of `before + "__COLON__" + after` starts inside `before`. */
  lemma NoTokenStartsInside(before: string, after: string, j: int)
    requires !Contains(before, "__COLON") && 0 <= j < |before|
    ensures !OccursAt(before + ColonToken + after, ColonToken, j)
  {
    var s := before + ColonToken + after;
    var n := |before|;
    if j + 7 <= n {
      assert !OccursAt(before, "__COLON", j);
      assert s[j..j + 7] == before[j..j + 7];
      assert ColonToken[..7] == "__COLON";
      assert j + 9 <= |s| ==> s[j..j + 9][..7] == s[j..j + 7];
    } else if j + 9 <= |s| {
      // The token would overlap its own copy at n, shifted by n - j in 1..6:
      // some position t then reads a character of the copy other than ColonToken[t].
      var t := if n - j <= 2 then 2 else n - j;
      assert s[n..n + 9] == ColonToken;
      assert s[j + t] == ColonToken[t - (n - j)];
      assert ColonToken[t - (n - j)] != ColonToken[t];
      assert s[j..j + 9][t] == s[j + t];
    }
  }

  /** A colon-free session id that never contains the token round-trips too. */
  lemma UnescapeEscapeColonFree(sessionId: string)
    requires ':' !in sessionId && !Contains(sessionId, ColonToken)
    ensures UnescapeSession(EscapeSession(sessionId)) == sessionId
  {
    EscapeSessionColonFree(sessionId);
  }

  /**
   * One colon and no literal `__COLON__` is not enough: the escaped form of
   * `__COLON:` + rest is `__COLON__COLON__` + rest, whose first token starts
   * at index 0, so un-escaping moves the colon to the front.
   */
  lemma UnescapeMisreadsEmbeddedToken(after: string)
    ensures UnescapeSession(EscapeSession("__COLON" + ":" + after)) == ":" + "COLON__" + after
  {
    assert ':' !in "__COLON";
    EscapeSessionSplit("__COLON", after);
    var x := "__COLON" + ColonToken;
    var e := x + after;
    TokenAfterPrefix();
    SliceAppend(x, after, 9);
    IndexOfIs(e, ColonToken, 0);
    ReplaceFirstAt(e, ColonToken, ":", 0);
    assert EscapeSession("__COLON" + ":" + after) == e;
    EmptyAppend(e[..0], ":");
    assert UnescapeSession(e) == ":" + e[9..];
    AppendAssoc(":", "COLON__", after);
  }

  lemma TokenAfterPrefix()
    ensures ("__COLON" + ColonToken)[..9] == ColonToken
    ensures ("__COLON" + ColonToken)[9..] == "COLON__"
  {
  }

  /** `__COLON:b` is such a session id: exactly one colon and no `__COLON__`. */
  lemma EmbeddedTokenExample()
    ensures Colons("__COLON:b") == 1 && !Contains("__COLON:b", ColonToken)
    ensures UnescapeSession(EscapeSession("__COLON:b")) == ":COLON__b"
  {
    ExampleParts();
    ExampleHasOneColon();
    ExampleHasNoToken();
    UnescapeMisreadsEmbeddedToken("b");
  }

  lemma ExampleHasOneColon()
    ensures Colons("__COLON:b") == 1
  {
    ExampleParts();
    assert multiset("__COLON:b") == multiset("__COLON") + multiset(":") + multiset("b");
  }

  lemma ExampleHasNoToken()
    ensures !Contains("__COLON:b", ColonToken)
  {
    assert "__COLON:b"[7] != ColonToken[7];
    ShortStringLacksToken("__COLON:b");
  }

  /** A string as long as the token contains it only by being it. */
  lemma ShortStringLacksToken(s: string)
    requires |s| == |ColonToken| && s != ColonToken
    ensures !Contains(s, ColonToken)
  {
    assert s[0..|ColonToken|] == s;
  }

  lemma ExampleParts()
    ensures "__COLON:b" == "__COLON" + ":" + "b"
    ensures ":" + "COLON__" + "b" == ":COLON__b"
  {
  }

  /** A parsed address: the escaped URL string, the session id and the path. */
  datatype ParsedUrl = ParsedUrl(url: string, sessionId: string, path: string)

  /**
   * parseURL (index.js:61-74). When the match fails, `sessionId.replace`
   * runs on undefined and throws a TypeError. The session id is escaped
   * a second time, so it comes back ESCAPED, not restored.
   */
  function ParseURL(url: string): (r: Result<ParsedUrl, Error>)
    ensures r.Err? <==> MatchL2l(url).None?
    ensures r.Err? ==> r.error == TypeError
    ensures r.Ok? ==> r.value.url == FixL2lURL(url) && r.value.path == MatchL2l(url).value.path
  {
    var fixed := FixL2lURL(url);
    match MatchL2l(fixed)
    case None => Err(TypeError)
    case Some(Captures(sid, path)) => Ok(ParsedUrl(fixed, EscapeSession(sid), path))
  }

  /** For a session id with at most one colon, parsing yields the escaped id and the captured path. */
  lemma ParseURLOfMatching(url: string, sessionId: string, path: string)
    requires RegexMatches(url, sessionId, path) && Colons(sessionId) <= 1
    ensures ParseURL(url) == Ok(ParsedUrl(FixL2lURL(url), EscapeSession(sessionId), path))
  {
    MatchL2lComplete(url, sessionId, path);
    EscapeSessionShape(sessionId);
    EscapeSessionColonFree(EscapeSession(sessionId));
  }

  /** The path without its leading slash, if it has one. */
  function StripLeadingSlash(s: string): string {
    if StartsWith(s, "/") then s[1..] else s
  }

  /**
   * _localToL2lAddress (index.js:96-100): an address that begins with the
   * base URL becomes `l2l://<session>/<rest>` with one leading slash of
   * the rest dropped; any other address is returned as it is.
   */
  function LocalToL2lAddress(baseURL: string, sessionId: string, address: string): (r: string)
    ensures !StartsWith(address, baseURL) ==> r == address
    ensures StartsWith(address, baseURL) ==> StartsWith(r, Scheme + sessionId + "/")
  {
    if !StartsWith(address, baseURL) then address
    else
      var r := Scheme + sessionId + "/" + StripLeadingSlash(address[|baseURL|..]);
      assert r[..|Scheme + sessionId + "/"|] == Scheme + sessionId + "/";
      r
  }

  /** A base-prefixed address is rewritten relative to the base. */
  lemma LocalToL2lOfBased(baseURL: string, sessionId: string, rest: string)
    ensures LocalToL2lAddress(baseURL, sessionId, baseURL + rest)
         == Scheme + sessionId + "/" + StripLeadingSlash(rest)
  {
    assert (baseURL + rest)[..|baseURL|] == baseURL;
    assert (baseURL + rest)[|baseURL|..] == rest;
  }

  /**
   * A rewritten address is an l2l address of the sending session: the
   * routing match recovers that session and the relative path.
   */
  lemma LocalToL2lRoutesBack(baseURL: string, sessionId: string, rest: string)
    requires sessionId != [] && '/' !in sessionId && NoLineTerminator(rest)
    ensures MatchL2l(LocalToL2lAddress(baseURL, sessionId, baseURL + rest))
         == Some(Captures(sessionId, StripLeadingSlash(rest)))
  {
    LocalToL2lOfBased(baseURL, sessionId, rest);
    var path := StripLeadingSlash(rest);
    assert NoLineTerminator(path) by {
      if StartsWith(rest, "/") {
        forall i | 0 <= i < |path| ensures !IsLineTerminator(path[i]) { assert path[i] == rest[i + 1]; }
      }
    }
    MatchL2lComplete(Scheme + sessionId + "/" + path, sessionId, path);
  }
}
