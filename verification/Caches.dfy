/**
 Named caches as the worker sees them (web/sw.js): ordered entries, the newest write of a URL last,
 lookups exact or ignoring the query, and the test for a versioned script or style.
 */
module Caches {
  import opened Results

  type Url = string

  datatype Response = Response(ok: bool, redirected: bool, body: nat)

  datatype Entry = Entry(url: Url, response: Response)

  type Cache = seq<Entry>

  // ---------------------------------------------------------------- versioned assets (233)

  predicate Alnum(c: char) {
    'a' <= c <= 'z' || 'A' <= c <= 'Z' || '0' <= c <= '9'
  }

  function TagLength(u: Url): (n: nat)
    ensures n <= |u|
    ensures forall i | |u| - n <= i < |u| :: Alnum(u[i])
    ensures n < |u| ==> !Alnum(u[|u| - n - 1])
  {
    if |u| > 0 && Alnum(u[|u| - 1]) then 1 + TagLength(u[..|u| - 1]) else 0
  }

  predicate EndsWith(u: Url, suffix: string) {
    |suffix| <= |u| && u[|u| - |suffix|..] == suffix
  }

  /** The worker's test: a .mjs, .js or .css file followed by `?v=` and an alphanumeric tag. */
  predicate Versioned(u: Url) {
    var n := TagLength(u);
    var stem := u[..|u| - n];
    n > 0 && (EndsWith(stem, ".mjs?v=") || EndsWith(stem, ".js?v=") || EndsWith(stem, ".css?v="))
  }

  const EXTENSIONS := {".mjs?v=", ".js?v=", ".css?v="}

  /** A digit, a capital or a small letter of ASCII, by code point. */
  predicate TagCharacter(c: char) {
    48 <= c as int <= 57 || 65 <= c as int <= 90 || 97 <= c as int <= 122
  }

  /** The regular expression the test stands for: anything, an extension, and a tag to the end. */
  ghost predicate MatchesPattern(u: Url) {
    exists stem, extension, tag :: HasPattern(u, stem, extension, tag)
  }

  ghost predicate HasPattern(u: Url, stem: string, extension: string, tag: string) {
    u == stem + extension + tag && extension in EXTENSIONS && |tag| > 0 && forall c | c in tag :: TagCharacter(c)
  }

  lemma AlnumIsTagCharacter(c: char)
    ensures Alnum(c) <==> TagCharacter(c)
  {
  }

  /** The worker's test is that expression. */
  lemma VersionedIsThePattern(u: Url)
    ensures Versioned(u) <==> MatchesPattern(u)
  {
    hide Alnum, TagCharacter;
    if Versioned(u) {
      var i := |u| - TagLength(u);
      var e := if EndsWith(u[..i], ".mjs?v=") then ".mjs?v="
               else if EndsWith(u[..i], ".js?v=") then ".js?v="
               else ".css?v=";
      forall c | c in u[i..]
        ensures TagCharacter(c)
      {
        var k :| i <= k < |u| && u[k] == c;
        AlnumIsTagCharacter(c);
      }
      assert u == u[..i - |e|] + e + u[i..];
      assert HasPattern(u, u[..i - |e|], e, u[i..]);
    }
    if MatchesPattern(u) {
      var stem, e, tag :| HasPattern(u, stem, e, tag);
      PatternIsVersioned(u, stem, e, tag);
    }
  }

  lemma PatternIsVersioned(u: Url, stem: string, e: string, tag: string)
    requires HasPattern(u, stem, e, tag)
    ensures Versioned(u)
  {
    hide Alnum, TagCharacter;
    var i := |stem| + |e|;
    assert u[..i] == stem + e && u[..i][|stem|..] == e;
    forall k | i <= k < |u|
      ensures Alnum(u[k])
    {
      assert u[k] == tag[k - i];
      AlnumIsTagCharacter(u[k]);
    }
    assert u[i - 1] == e[|e| - 1] == '=';
    EqualsIsNoTag();
    TagStartsAt(u, i);
  }

  lemma EqualsIsNoTag()
    ensures !Alnum('=')
  {
  }

  lemma TagStartsAt(u: Url, i: nat)
    requires 0 < i < |u| && !Alnum(u[i - 1]) && forall j | i <= j < |u| :: Alnum(u[j])
    ensures TagLength(u) == |u| - i
  {
  }

  // ---------------------------------------------------------------- entries

  function Without(c: Cache, u: Url): Cache {
    if |c| == 0 then [] else (if c[0].url == u then [] else [c[0]]) + Without(c[1..], u)
  }

  /** Storing replaces: the old entry goes and the new one is the youngest. */
  function Put(c: Cache, u: Url, r: Response): Cache {
    Without(c, u) + [Entry(u, r)]
  }

  predicate Holds(c: Cache, u: Url) {
    exists i | 0 <= i < |c| :: c[i].url == u
  }

  function PathOf(u: Url): Url {
    if |u| == 0 || u[0] == '?' then [] else [u[0]] + PathOf(u[1..])
  }

  predicate Answers(e: Entry, u: Url, ignoreSearch: bool) {
    if ignoreSearch then PathOf(e.url) == PathOf(u) else e.url == u
  }

  /** A URL is a path and a query: nothing, or what the first question mark begins. */
  predicate Splits(u: Url, path: string, query: string) {
    u == path + query && '?' !in path && (query == "" || query[0] == '?')
  }

  /** Two URLs that differ at most in their queries. */
  ghost predicate SamePage(a: Url, b: Url) {
    exists path, p, q :: Splits(a, path, p) && Splits(b, path, q)
  }

  lemma {:induction false} PathSplits(u: Url)
    ensures PathOf(u) <= u && Splits(u, PathOf(u), u[|PathOf(u)|..])
  {
    if |u| > 0 && u[0] != '?' {
      PathSplits(u[1..]);
      var p := PathOf(u[1..]);
      assert PathOf(u) == [u[0]] + p && u[1 + |p|..] == u[1..][|p|..];
      assert u == [u[0]] + u[1..];
    }
  }

  lemma {:induction false} PathIsBeforeQuery(path: string, query: string)
    requires '?' !in path && (query == "" || query[0] == '?')
    ensures PathOf(path + query) == path
  {
    var u := path + query;
    if |path| == 0 {
      assert u == query;
    } else {
      assert u[1..] == path[1..] + query && path == [path[0]] + path[1..];
      PathIsBeforeQuery(path[1..], query);
    }
  }

  /** A lookup that ignores the query finds exactly the entries of the same page. */
  lemma IgnoringQueryIsSamePage(e: Entry, u: Url)
    ensures Answers(e, u, true) <==> SamePage(e.url, u)
  {
    PathSplits(e.url);
    PathSplits(u);
    if SamePage(e.url, u) {
      var path, p, q :| Splits(e.url, path, p) && Splits(u, path, q);
      PathIsBeforeQuery(path, p);
      PathIsBeforeQuery(path, q);
    }
  }

  /** The first entry that answers the request. */
  function Match(c: Cache, u: Url, ignoreSearch: bool): (r: Option<Response>)
    ensures r.Some? <==> exists i | 0 <= i < |c| :: Answers(c[i], u, ignoreSearch)
    ensures r.Some? ==> exists i | 0 <= i < |c| :: Answers(c[i], u, ignoreSearch) && c[i].response == r.value &&
                                                  forall j | 0 <= j < i :: !Answers(c[j], u, ignoreSearch)
  {
    if |c| == 0 then None
    else if Answers(c[0], u, ignoreSearch) then
      assert c[0].response == c[0].response;
      Some(c[0].response)
    else
      var r := Match(c[1..], u, ignoreSearch);
      assert forall i | 0 < i < |c| :: c[i] == c[1..][i - 1];
      assert r.Some? ==> exists i | 0 <= i < |c| :: Answers(c[i], u, ignoreSearch) && c[i].response == r.value &&
                                                    forall j | 0 <= j < i :: !Answers(c[j], u, ignoreSearch) by {
        if r.Some? {
          var k :| 0 <= k < |c[1..]| && Answers(c[1..][k], u, ignoreSearch) && c[1..][k].response == r.value &&
                   forall j | 0 <= j < k :: !Answers(c[1..][j], u, ignoreSearch);
          assert c[k + 1] == c[1..][k];
          assert forall j | 1 <= j < k + 1 :: c[j] == c[1..][j - 1];
        }
      }
      r
  }

  lemma {:induction false} WithoutHolds(c: Cache, u: Url, x: Url)
    ensures Holds(Without(c, u), x) <==> Holds(c, x) && x != u
    ensures x != u ==> Match(Without(c, u), x, false) == Match(c, x, false)
  {
    if |c| == 0 {
    } else {
      WithoutHolds(c[1..], u, x);
      HoldsSplit(c, x);
      if c[0].url != u {
        var d := [c[0]] + Without(c[1..], u);
        assert d[1..] == Without(c[1..], u);
        HoldsSplit(d, x);
      } else {
        assert Without(c, u) == Without(c[1..], u);
      }
    }
  }

  lemma HoldsSplit(c: Cache, x: Url)
    requires |c| > 0
    ensures Holds(c, x) <==> c[0].url == x || Holds(c[1..], x)
  {
    assert forall i | 0 < i < |c| :: c[i] == c[1..][i - 1];
    if Holds(c[1..], x) {
      var i :| 0 <= i < |c[1..]| && c[1..][i].url == x;
      assert c[i + 1].url == x;
    }
  }

  lemma {:induction false} MatchAppend(c: Cache, e: Entry, x: Url)
    ensures Match(c + [e], x, false) ==
            (if Holds(c, x) then Match(c, x, false) else if e.url == x then Some(e.response) else None)
  {
    if |c| == 0 {
    } else {
      assert (c + [e])[1..] == c[1..] + [e];
      HoldsSplit(c, x);
      MatchAppend(c[1..], e, x);
    }
  }

  /** A store is seen by exactly the lookups of its own URL. */
  lemma PutMatch(c: Cache, u: Url, r: Response, x: Url)
    ensures Match(Put(c, u, r), x, false) == (if x == u then Some(r) else Match(c, x, false))
    ensures Holds(Put(c, u, r), x) <==> x == u || Holds(c, x)
  {
    WithoutHolds(c, u, x);
    MatchAppend(Without(c, u), Entry(u, r), x);
    MatchHolds(Put(c, u, r), x);
    MatchHolds(c, x);
  }

  lemma MatchHolds(c: Cache, x: Url)
    ensures Match(c, x, false).Some? <==> Holds(c, x)
  {
    assert forall i | 0 <= i < |c| :: Answers(c[i], x, false) <==> c[i].url == x;
    if Holds(c, x) {
      var i :| 0 <= i < |c| && c[i].url == x;
      assert Answers(c[i], x, false);
    }
  }
}
