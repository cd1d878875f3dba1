/** `getYouTubeVideoId` from src/utils/youtube.ts: two regular expressions,
    tried in order, each searched leftmost-first; the first capture wins. */
module YouTube {
  import opened Wrappers

  /** The characters `[^&\n?#]` excludes. */
  predicate IsDelimiter(c: char)
  {
    c == '&' || c == '\n' || c == '?' || c == '#'
  }

  /** `[^&\n?#]+` matched greedily at the start of `s`: the longest
      delimiter-free prefix (empty when the match fails). */
  function IdRun(s: string): (run: string)
    ensures |run| <= |s| && run == s[..|run|]
    ensures forall i :: 0 <= i < |run| ==> !IsDelimiter(run[i])
    ensures |run| == |s| || IsDelimiter(s[|run|])
  {
    if s != [] && !IsDelimiter(s[0]) then [s[0]] + IdRun(s[1..]) else []
  }

  /** The alternation of the first pattern, in its order. */
  const WatchOrShort: seq<string> := ["youtube.com/watch?v=", "youtu.be/"]

  /** The literal part of the second pattern. */
  const Embed: seq<string> := ["youtube.com/embed/"]

  /** An id follows `prefix` at position `k` of `s`: `prefix` occurs there and
      is followed by `id`, a non-empty delimiter-free run that ends at a
      delimiter or at the end of `s`. */
  predicate IdAt(s: string, prefix: string, k: nat, id: string)
  {
    k + |prefix| + |id| <= |s| && s[k..k + |prefix|] == prefix
    && s[k + |prefix|..k + |prefix| + |id|] == id && id != []
    && (forall i :: 0 <= i < |id| ==> !IsDelimiter(id[i]))
    && (k + |prefix| + |id| == |s| || IsDelimiter(s[k + |prefix| + |id|]))
  }

  /** The delimiter-free run that follows a prefix is exactly what `IdRun` takes. */
  lemma {:induction false} IdRunOf(s: string, id: string)
    requires |id| <= |s| && s[..|id|] == id
    requires forall i :: 0 <= i < |id| ==> !IsDelimiter(id[i])
    requires |id| == |s| || IsDelimiter(s[|id|])
    ensures IdRun(s) == id
  {
    if id != [] {
      assert s[0] == id[0];
      IdRunOf(s[1..], id[1..]);
      assert [id[0]] + id[1..] == id;
    }
  }

  /** An id at a position is the run `IdRun` takes after the prefix, so there
      is at most one. */
  lemma IdAtIsRun(s: string, prefix: string, k: nat, id: string)
    requires k + |prefix| <= |s|
    ensures IdAt(s, prefix, k, id) <==>
              s[k..k + |prefix|] == prefix && id != [] && id == IdRun(s[k + |prefix|..])
  {
    var t := s[k + |prefix|..];
    if IdAt(s, prefix, k, id) {
      assert t[..|id|] == id;
      IdRunOf(t, id);
    }
    if s[k..k + |prefix|] == prefix && id != [] && id == IdRun(t) {
      assert s[k + |prefix|..k + |prefix| + |id|] == t[..|id|];
    }
  }

  /** The capture of `(?:a|b|...)([^&\n?#]+)` when matching starts at `k`:
      the alternatives are tried in order and the first one that is followed
      by at least one id character gives the capture. */
  function MatchAt(s: string, alternatives: seq<string>, k: nat): (r: Option<string>)
    requires k <= |s|
    ensures r.Some? ==> r.value != [] && forall i :: 0 <= i < |r.value| ==> !IsDelimiter(r.value[i])
  {
    if alternatives == [] then None
    else
      var p := alternatives[0];
      if k + |p| <= |s| && s[k..k + |p|] == p && IdRun(s[k + |p|..]) != [] then Some(IdRun(s[k + |p|..]))
      else MatchAt(s, alternatives[1..], k)
  }

  /** In IdAt terms: a match at `k` returns the id that follows the first
      alternative followed by one, and fails when no alternative is. */
  lemma {:induction false} MatchAtIdAt(s: string, alternatives: seq<string>, k: nat)
    requires k <= |s|
    ensures MatchAt(s, alternatives, k).Some? ==>
              exists a :: 0 <= a < |alternatives| && IdAt(s, alternatives[a], k, MatchAt(s, alternatives, k).value)
                           && forall b, id :: 0 <= b < a ==> !IdAt(s, alternatives[b], k, id)
    ensures MatchAt(s, alternatives, k).None? ==>
              forall a, id :: 0 <= a < |alternatives| ==> !IdAt(s, alternatives[a], k, id)
  {
    if alternatives != [] {
      var p := alternatives[0];
      if k + |p| <= |s| && s[k..k + |p|] == p && IdRun(s[k + |p|..]) != [] {
        IdAtIsRun(s, p, k, IdRun(s[k + |p|..]));
      } else {
        assert forall id :: !IdAt(s, p, k, id) by {
          if k + |p| <= |s| {
            forall id ensures !IdAt(s, p, k, id) { IdAtIsRun(s, p, k, id); }
          }
        }
        MatchAtIdAt(s, alternatives[1..], k);
        var rest := MatchAt(s, alternatives[1..], k);
        assert forall a :: 1 <= a < |alternatives| ==> alternatives[a] == alternatives[1..][a - 1];
        if rest.Some? {
          var a :| 0 <= a < |alternatives[1..]| && IdAt(s, alternatives[1..][a], k, rest.value)
                   && forall b, id :: 0 <= b < a ==> !IdAt(s, alternatives[1..][b], k, id);
          assert alternatives[a + 1] == alternatives[1..][a];
          forall b, id | 0 <= b < a + 1 ensures !IdAt(s, alternatives[b], k, id) {
            if b > 0 { assert alternatives[b] == alternatives[1..][b - 1]; }
          }
        }
      }
    }
  }

  /** `s.match(pattern)` for an unanchored pattern without the `g` flag:
      starting positions are tried from the left, and the first one at
      which the pattern matches gives the capture. */
  function Search(s: string, alternatives: seq<string>, from: nat): (r: Option<string>)
    requires from <= |s|
    decreases |s| - from
    ensures r.Some? ==> r.value != [] && forall i :: 0 <= i < |r.value| ==> !IsDelimiter(r.value[i])
  {
    var here := MatchAt(s, alternatives, from);
    if here.Some? then here
    else if from == |s| then None
    else Search(s, alternatives, from + 1)
  }

  /** `k` is the leftmost position from `from` on where the pattern matches,
      and `r` is its match. */
  predicate LeftmostMatch(s: string, alternatives: seq<string>, from: nat, k: nat, r: Option<string>)
  {
    from <= k <= |s| && r.Some? && r == MatchAt(s, alternatives, k)
    && forall j :: from <= j < k ==> MatchAt(s, alternatives, j).None?
  }

  /** A search fails exactly when no position from `from` on matches, and a
      successful one returns the match at the leftmost matching position. */
  lemma {:induction false} SearchIsLeftmost(s: string, alternatives: seq<string>, from: nat)
    requires from <= |s|
    decreases |s| - from
    ensures Search(s, alternatives, from).None? ==>
              forall k :: from <= k <= |s| ==> MatchAt(s, alternatives, k).None?
    ensures Search(s, alternatives, from).Some? ==>
              exists k :: LeftmostMatch(s, alternatives, from, k, Search(s, alternatives, from))
  {
    if MatchAt(s, alternatives, from).Some? {
      assert LeftmostMatch(s, alternatives, from, from, Search(s, alternatives, from));
    } else if from < |s| {
      SearchIsLeftmost(s, alternatives, from + 1);
      if Search(s, alternatives, from).Some? {
        var k: nat :| LeftmostMatch(s, alternatives, from + 1, k, Search(s, alternatives, from + 1));
        assert LeftmostMatch(s, alternatives, from, k, Search(s, alternatives, from));
      } else {
        forall k | from <= k <= |s| ensures MatchAt(s, alternatives, k).None? {
          if k == from { assert MatchAt(s, alternatives, from).None?; }
        }
      }
    }
  }

  /** `id` follows alternative `a` at position `k`, no alternative is
      followed by an id at an earlier position, and no earlier alternative is
      followed by one at `k`: the capture of a leftmost-first search. */
  ghost predicate LeftmostId(s: string, alternatives: seq<string>, k: nat, a: nat, id: string)
  {
    k <= |s| && a < |alternatives| && IdAt(s, alternatives[a], k, id)
    && (forall j, b, other :: 0 <= j < k && 0 <= b < |alternatives| ==> !IdAt(s, alternatives[b], j, other))
    && (forall b, other :: 0 <= b < a ==> !IdAt(s, alternatives[b], k, other))
  }

  /** In IdAt terms: a successful search returns the leftmost capture. */
  lemma SearchLeftmost(s: string, alternatives: seq<string>)
    requires Search(s, alternatives, 0).Some?
    ensures exists k: nat, a: nat :: LeftmostId(s, alternatives, k, a, Search(s, alternatives, 0).value)
  {
    SearchIsLeftmost(s, alternatives, 0);
    var k: nat :| LeftmostMatch(s, alternatives, 0, k, Search(s, alternatives, 0));
    forall j, b, id | 0 <= j < k && 0 <= b < |alternatives| ensures !IdAt(s, alternatives[b], j, id) {
      MatchAtIdAt(s, alternatives, j);
    }
    MatchAtIdAt(s, alternatives, k);
    var a: nat :| a < |alternatives| && IdAt(s, alternatives[a], k, Search(s, alternatives, 0).value)
                  && forall b, id :: 0 <= b < a ==> !IdAt(s, alternatives[b], k, id);
    assert LeftmostId(s, alternatives, k, a, Search(s, alternatives, 0).value);
  }

  /** A search fails exactly when no alternative is followed by an id anywhere. */
  lemma SearchFails(s: string, alternatives: seq<string>)
    ensures Search(s, alternatives, 0).None? <==>
              forall k, a, id :: 0 <= k <= |s| && 0 <= a < |alternatives| ==> !IdAt(s, alternatives[a], k, id)
  {
    if Search(s, alternatives, 0).Some? {
      SearchLeftmost(s, alternatives);
    } else {
      SearchIsLeftmost(s, alternatives, 0);
      forall k, a, id | 0 <= k <= |s| && 0 <= a < |alternatives| ensures !IdAt(s, alternatives[a], k, id) {
        MatchAtIdAt(s, alternatives, k);
      }
    }
  }

  /** Some alternative is followed by an id somewhere in `s`. */
  ghost predicate Occurs(s: string, alternatives: seq<string>)
  {
    exists k, a, id :: 0 <= k <= |s| && 0 <= a < |alternatives| && IdAt(s, alternatives[a], k, id)
  }

  /** `getYouTubeVideoId(url)`: the first pattern's capture if it matches
      anywhere, else the embed pattern's, else null (`None`). */
  function GetYouTubeVideoId(url: string): (r: Option<string>)
    ensures r.Some? ==> r.value != [] && forall i :: 0 <= i < |r.value| ==> !IsDelimiter(r.value[i])
  {
    var first := Search(url, WatchOrShort, 0);
    if first.Some? then first else Search(url, Embed, 0)
  }

  /** A watch or short-link occurrence anywhere wins over any embed link:
      the result is the leftmost watch or short-link capture. */
  lemma WatchOrShortFirst(url: string)
    requires Occurs(url, WatchOrShort)
    ensures GetYouTubeVideoId(url).Some?
    ensures exists k: nat, a: nat :: LeftmostId(url, WatchOrShort, k, a, GetYouTubeVideoId(url).value)
  {
    SearchFails(url, WatchOrShort);
    SearchLeftmost(url, WatchOrShort);
  }

  /** Without a watch or short-link occurrence, the leftmost embed capture. */
  lemma EmbedFallback(url: string)
    requires !Occurs(url, WatchOrShort) && Occurs(url, Embed)
    ensures GetYouTubeVideoId(url).Some?
    ensures exists k: nat, a: nat :: LeftmostId(url, Embed, k, a, GetYouTubeVideoId(url).value)
  {
    SearchFails(url, WatchOrShort);
    SearchFails(url, Embed);
    SearchLeftmost(url, Embed);
  }

  /** Null exactly when neither pattern occurs anywhere in the URL. */
  lemma NullWhenNoMatch(url: string)
    ensures GetYouTubeVideoId(url).None? <==> !Occurs(url, WatchOrShort) && !Occurs(url, Embed)
  {
    SearchFails(url, WatchOrShort);
    SearchFails(url, Embed);
  }

  /** When one alternative is followed by an id at position 0 and no other
      alternative occurs there, the search returns that id. */
  lemma SearchAtStart(s: string, alternatives: seq<string>, a: nat, id: string)
    requires a < |alternatives| && IdAt(s, alternatives[a], 0, id)
    requires forall b :: 0 <= b < |alternatives| && b != a ==>
               |s| < |alternatives[b]| || s[..|alternatives[b]|] != alternatives[b]
    ensures Search(s, alternatives, 0) == Some(id)
  {
    MatchAtIdAt(s, alternatives, 0);
    assert MatchAt(s, alternatives, 0).Some?;
    var got := MatchAt(s, alternatives, 0).value;
    var b :| 0 <= b < |alternatives| && IdAt(s, alternatives[b], 0, got);
    assert s[0..|alternatives[b]|] == s[..|alternatives[b]|];
    assert b == a;
    IdAtIsRun(s, alternatives[a], 0, id);
    IdAtIsRun(s, alternatives[a], 0, got);
  }

  /** A URL that begins with a watch or short-link prefix followed by an id
      gives that id, whatever comes after the delimiter. */
  lemma LeadingPrefix(a: nat, id: string, tail: string)
    requires a < |WatchOrShort|
    requires id != [] && forall i :: 0 <= i < |id| ==> !IsDelimiter(id[i])
    requires tail == [] || IsDelimiter(tail[0])
    ensures GetYouTubeVideoId(WatchOrShort[a] + id + tail) == Some(id)
  {
    var prefix := WatchOrShort[a];
    var url := prefix + id + tail;
    assert url[0..|prefix|] == prefix;
    assert url[|prefix|..|prefix| + |id|] == id;
    assert IdAt(url, prefix, 0, id);
    forall b | 0 <= b < |WatchOrShort| && b != a
      ensures |url| < |WatchOrShort[b]| || url[..|WatchOrShort[b]|] != WatchOrShort[b]
    {
      assert url[5] == prefix[5] != WatchOrShort[b][5];
    }
    SearchAtStart(url, WatchOrShort, a, id);
  }
}
