/** `validateYouTubeUrl` from src/components/VideoForm.tsx: the test
    `/^(https?:\/\/)?(www\.)?(youtube\.com|youtu\.be)\/.+$/`, as the
    backtracking matcher runs it, against a declarative reading of the
    pattern. */
module VideoForm {

  /** The characters `.` does not match without the `s` flag. */
  predicate IsLineTerminator(c: char)
  {
    c == '\n' || c == '\r' || c == '\U{2028}' || c == '\U{2029}'
  }

  predicate StartsWith(s: string, prefix: string)
  {
    |prefix| <= |s| && s[..|prefix|] == prefix
  }

  /** `\/.+$`: a slash, then one or more characters other than line
      terminators, up to the end of the input. */
  predicate IsPath(rest: string)
  {
    |rest| >= 2 && rest[0] == '/' && forall i :: 1 <= i < |rest| ==> !IsLineTerminator(rest[i])
  }

  /** `(youtube\.com|youtu\.be)\/.+$`, alternatives in order. */
  predicate MatchHost(s: string)
  {
    (StartsWith(s, "youtube.com") && IsPath(s[11..]))
    || (StartsWith(s, "youtu.be") && IsPath(s[8..]))
  }

  /** `(www\.)?` is greedy: it first takes `www.`, and on failure the matcher
      backtracks to the empty choice. */
  predicate MatchSubdomain(s: string)
  {
    (StartsWith(s, "www.") && MatchHost(s[4..])) || MatchHost(s)
  }

  /** `(https?:\/\/)?` tries `https://`, then `http://` (the `s?` backtracked),
      then the empty choice. */
  predicate MatchScheme(s: string)
  {
    (StartsWith(s, "https://") && MatchSubdomain(s[8..]))
    || (StartsWith(s, "http://") && MatchSubdomain(s[7..]))
    || MatchSubdomain(s)
  }

  /** `pattern.test(url)`; the `^` anchor means matching starts only at 0. */
  function ValidateYouTubeUrl(url: string): (ok: bool)
    ensures ok <==> MatchesPattern(url)
  {
    ValidateMeansPattern(url);
    MatchScheme(url)
  }

  /** The choices each optional group or alternation allows. */
  const Schemes: seq<string> := ["", "http://", "https://"]
  const Subdomains: seq<string> := ["", "www."]
  const Hosts: seq<string> := ["youtube.com", "youtu.be"]

  /** `url` is `scheme + subdomain + host` followed by a path. */
  predicate Decomposes(url: string, scheme: string, subdomain: string, host: string)
  {
    StartsWith(url, scheme + subdomain + host) && IsPath(url[|scheme + subdomain + host|..])
  }

  /** The language of the pattern: some choice of scheme, subdomain and host
      followed by a path makes up the whole URL. */
  predicate MatchesPattern(url: string)
  {
    exists i, j, h :: 0 <= i < |Schemes| && 0 <= j < |Subdomains| && 0 <= h < |Hosts|
      && Decomposes(url, Schemes[i], Subdomains[j], Hosts[h])
  }

  /** Stripping a prefix and matching the rest is matching the whole. */
  lemma StartsWithAppend(url: string, a: string, b: string)
    requires StartsWith(url, a)
    ensures StartsWith(url, a + b) <==> StartsWith(url[|a|..], b)
  {
    if StartsWith(url[|a|..], b) {
      assert url[..|a + b|] == url[..|a|] + url[|a|..][..|b|];
    }
    if StartsWith(url, a + b) {
      assert url[|a|..][..|b|] == url[..|a + b|][|a|..];
    }
  }

  lemma HostChoice(s: string)
    ensures MatchHost(s) <==> exists h :: 0 <= h < |Hosts| && StartsWith(s, Hosts[h]) && IsPath(s[|Hosts[h]|..])
  {
    if MatchHost(s) {
      if StartsWith(s, "youtube.com") && IsPath(s[11..]) {
        assert StartsWith(s, Hosts[0]) && IsPath(s[|Hosts[0]|..]);
      } else {
        assert StartsWith(s, Hosts[1]) && IsPath(s[|Hosts[1]|..]);
      }
    }
  }

  /** The matcher with host fixed after a chosen prefix: `Decomposes` for a
      given prefix and host is `StartsWith` the prefix and the host match on
      the rest. */
  lemma DecomposesSplit(url: string, prefix: string, host: string)
    requires StartsWith(url, prefix)
    ensures StartsWith(url, prefix + host) && IsPath(url[|prefix + host|..])
            <==> StartsWith(url[|prefix|..], host) && IsPath(url[|prefix|..][|host|..])
  {
    StartsWithAppend(url, prefix, host);
    if StartsWith(url, prefix + host) {
      assert url[|prefix + host|..] == url[|prefix|..][|host|..];
    }
  }

  /** The host part of the matcher, after a prefix, agrees with `Decomposes`. */
  lemma HostAfter(url: string, scheme: string, subdomain: string)
    requires StartsWith(url, scheme + subdomain)
    ensures MatchHost(url[|scheme + subdomain|..]) <==>
              exists h :: 0 <= h < |Hosts| && Decomposes(url, scheme, subdomain, Hosts[h])
  {
    var prefix := scheme + subdomain;
    var rest := url[|prefix|..];
    HostChoice(rest);
    forall h | 0 <= h < |Hosts|
      ensures Decomposes(url, scheme, subdomain, Hosts[h]) <==>
                StartsWith(rest, Hosts[h]) && IsPath(rest[|Hosts[h]|..])
    {
      assert scheme + subdomain + Hosts[h] == prefix + Hosts[h];
      DecomposesSplit(url, prefix, Hosts[h]);
    }
  }

  /** The subdomain part of the matcher, after a scheme, agrees with
      `Decomposes`. */
  lemma SubdomainAfter(url: string, scheme: string)
    requires StartsWith(url, scheme)
    ensures MatchSubdomain(url[|scheme|..]) <==>
              exists j, h :: 0 <= j < |Subdomains| && 0 <= h < |Hosts|
                && Decomposes(url, scheme, Subdomains[j], Hosts[h])
  {
    var rest := url[|scheme|..];
    assert scheme + Subdomains[0] == scheme;
    HostAfter(url, scheme, Subdomains[0]);
    StartsWithAppend(url, scheme, "www.");
    if StartsWith(rest, "www.") {
      assert rest[4..] == url[|scheme + Subdomains[1]|..];
      HostAfter(url, scheme, Subdomains[1]);
    } else {
      forall h | 0 <= h < |Hosts| ensures !Decomposes(url, scheme, Subdomains[1], Hosts[h]) {
        if Decomposes(url, scheme, Subdomains[1], Hosts[h]) {
          StartsWithAppend(url, scheme + Subdomains[1], Hosts[h]);
        }
      }
    }
  }

  /** A URL that does not start with the scheme has no decomposition
      through it. */
  lemma NotThroughScheme(url: string, scheme: string, subdomain: string, host: string)
    requires !StartsWith(url, scheme)
    ensures !Decomposes(url, scheme, subdomain, host)
  {
  }

  /** Through one scheme choice, the rest of the matcher agrees with
      `Decomposes`. */
  lemma ThroughScheme(url: string, i: nat)
    requires i < |Schemes|
    ensures StartsWith(url, Schemes[i]) && MatchSubdomain(url[|Schemes[i]|..]) <==>
              exists j, h :: 0 <= j < |Subdomains| && 0 <= h < |Hosts|
                && Decomposes(url, Schemes[i], Subdomains[j], Hosts[h])
  {
    if StartsWith(url, Schemes[i]) {
      SubdomainAfter(url, Schemes[i]);
    } else {
      forall j, h | 0 <= j < |Subdomains| && 0 <= h < |Hosts|
        ensures !Decomposes(url, Schemes[i], Subdomains[j], Hosts[h])
      {
        NotThroughScheme(url, Schemes[i], Subdomains[j], Hosts[h]);
      }
    }
  }

  /** The backtracking matcher accepts exactly the URLs in the pattern's
      language. */
  lemma ValidateMeansPattern(url: string)
    ensures MatchScheme(url) <==> MatchesPattern(url)
  {
    assert url[|Schemes[0]|..] == url;
    ThroughScheme(url, 0);
    ThroughScheme(url, 1);
    ThroughScheme(url, 2);
    if MatchesPattern(url) {
      var i, j, h :| 0 <= i < |Schemes| && 0 <= j < |Subdomains| && 0 <= h < |Hosts|
        && Decomposes(url, Schemes[i], Subdomains[j], Hosts[h]);
      assert i == 0 || i == 1 || i == 2;
    }
  }

  /** Every scheme, subdomain and host choice followed by a slash and a
      one-line, non-empty tail is accepted. */
  lemma AcceptsEveryChoice(i: nat, j: nat, h: nat, tail: string)
    requires i < |Schemes| && j < |Subdomains| && h < |Hosts|
    requires tail != [] && forall k :: 0 <= k < |tail| ==> !IsLineTerminator(tail[k])
    ensures ValidateYouTubeUrl(Schemes[i] + Subdomains[j] + Hosts[h] + "/" + tail)
  {
    var prefix := Schemes[i] + Subdomains[j] + Hosts[h];
    var url := prefix + "/" + tail;
    assert url[..|prefix|] == prefix;
    assert url[|prefix|..] == "/" + tail;
    assert Decomposes(url, Schemes[i], Subdomains[j], Hosts[h]);
  }

  predicate OneLine(s: string)
  {
    forall k :: 0 <= k < |s| ==> !IsLineTerminator(s[k])
  }

  lemma OneLineAppend(a: string, b: string)
    requires OneLine(a) && OneLine(b)
    ensures OneLine(a + b)
  {
    forall k | 0 <= k < |a + b| ensures !IsLineTerminator((a + b)[k]) {
      if k >= |a| { assert (a + b)[k] == b[k - |a|]; }
    }
  }

  /** A URL made of the pattern's literals and a path is a single line. */
  lemma DecomposedIsOneLine(url: string, i: nat, j: nat, h: nat)
    requires i < |Schemes| && j < |Subdomains| && h < |Hosts|
    requires Decomposes(url, Schemes[i], Subdomains[j], Hosts[h])
    ensures OneLine(url)
  {
    var prefix := Schemes[i] + Subdomains[j] + Hosts[h];
    assert OneLine(Schemes[i]) && OneLine(Subdomains[j]) && OneLine(Hosts[h]);
    OneLineAppend(Schemes[i], Subdomains[j]);
    OneLineAppend(Schemes[i] + Subdomains[j], Hosts[h]);
    var path := url[|prefix|..];
    assert OneLine(path[1..]);
    assert OneLine(path[..1]);
    assert path == path[..1] + path[1..];
    OneLineAppend(path[..1], path[1..]);
    assert url == prefix + path;
    OneLineAppend(prefix, path);
  }

  /** An accepted URL is a single line: the pattern's literals have no line
      terminator and `.` matches none. */
  lemma AcceptedIsOneLine(url: string)
    requires ValidateYouTubeUrl(url)
    ensures OneLine(url)
  {
    var i, j, h :| 0 <= i < |Schemes| && 0 <= j < |Subdomains| && 0 <= h < |Hosts|
      && Decomposes(url, Schemes[i], Subdomains[j], Hosts[h]);
    DecomposedIsOneLine(url, i, j, h);
  }

  /** A slash with nothing after it is not a path. */
  lemma RejectsBareSlash()
    ensures !ValidateYouTubeUrl("youtube.com/")
  {
  }

  /** The host alone, with no path, is refused. */
  lemma RejectsMissingPath()
    ensures !ValidateYouTubeUrl("youtu.be")
  {
  }

  /** Only http and https schemes are allowed. */
  lemma RejectsOtherScheme()
    ensures !ValidateYouTubeUrl("ftp://youtube.com/x")
  {
    var url := "ftp://youtube.com/x";
    assert url[..8][0] != "https://"[0] && url[..7][0] != "http://"[0];
    assert url[..4][0] != "www."[0];
    assert url[..11][0] != "youtube.com"[0] && url[..8][0] != "youtu.be"[0];
  }

  /** Only the `www.` subdomain is allowed. */
  lemma RejectsOtherSubdomain()
    ensures !ValidateYouTubeUrl("m.youtube.com/x")
  {
    var url := "m.youtube.com/x";
    assert url[..8][0] != "https://"[0] && url[..7][0] != "http://"[0];
    assert url[..4][0] != "www."[0];
    assert url[..11][0] != "youtube.com"[0] && url[..8][0] != "youtu.be"[0];
  }

  /** The test is case-sensitive. */
  lemma RejectsUpperCase()
    ensures !ValidateYouTubeUrl("YouTube.com/x")
  {
    var url := "YouTube.com/x";
    assert url[..11][0] != "youtube.com"[0];
    assert url[..8][0] != "youtu.be"[0];
  }

  /** A line break anywhere in the tail makes `.+$` fail. */
  lemma RejectsLineBreak(id: string, more: string)
    ensures !ValidateYouTubeUrl("youtu.be/" + id + "\n" + more)
  {
    var url := "youtu.be/" + id + "\n" + more;
    assert IsLineTerminator(url[9 + |id|]);
    if ValidateYouTubeUrl(url) {
      AcceptedIsOneLine(url);
    }
  }
}
