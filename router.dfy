/** The routing decision of the tunnel server's request callback in
    tunnel.js: split the URL on '/', take segment 1 as the token, reload the
    registry, pick the first entry with that token and rebuild the target
    URL on 127.0.0.1 from the segments after the token. */
module Router {
  import opened Segments
  import opened Registry

  /** A 404, or a GET to be forwarded to `targetUrl` on the chosen port. */
  datatype RouteResult = NotFound | Forward(port: int, targetUrl: string)

  function DigitChar(d: nat): (c: char)
    requires d < 10
    ensures '0' <= c <= '9' && c as int - '0' as int == d
  {
    ('0' as int + d) as char
  }

  predicate IsDigit(c: char)
  {
    '0' <= c <= '9'
  }

  /** The decimal digits of a natural number, most significant first. */
  function Digits(n: nat): string
    decreases n
  {
    if n < 10 then [DigitChar(n)] else Digits(n / 10) + [DigitChar(n % 10)]
  }

  /** The digits of a number are never empty, are all decimal digits, and
      have no leading zero. */
  lemma {:induction false} DigitsShape(n: nat)
    ensures Digits(n) != [] && forall i :: 0 <= i < |Digits(n)| ==> IsDigit(Digits(n)[i])
    ensures n > 0 ==> Digits(n)[0] != '0'
    decreases n
  {
    if n >= 10 {
      DigitsShape(n / 10);
      assert Digits(n)[0] == Digits(n / 10)[0];
    }
  }

  /** The number a string of decimal digits denotes. */
  function Value(s: string): int
  {
    if s == [] then 0 else Value(s[..|s| - 1]) * 10 + (s[|s| - 1] as int - '0' as int)
  }

  /** The digits of a number read back as that number. */
  lemma {:induction false} DigitsValue(n: nat)
    ensures Value(Digits(n)) == n
    decreases n
  {
    if n >= 10 {
      var r := Digits(n);
      assert r[..|r| - 1] == Digits(n / 10);
      DigitsValue(n / 10);
    }
  }

  /** The decimal text `${port}` gives for an integer port: a '-' for a
      negative port, then the digits of its magnitude. */
  function Decimal(n: int): string
  {
    if n < 0 then "-" + Digits(-n) else Digits(n)
  }

  /** The text of a port is its digits, after a '-' when it is negative, and
      reads back as the port. */
  lemma DecimalValue(n: int)
    ensures n >= 0 ==> Decimal(n) == Digits(n) && Value(Decimal(n)) == n
    ensures n < 0 ==> Decimal(n) == "-" + Digits(-n) && Value(Decimal(n)[1..]) == -n
  {
    if n >= 0 {
      DigitsValue(n);
    } else {
      assert Decimal(n)[1..] == Digits(-n);
      DigitsValue(-n);
    }
  }

  /** `http://127.0.0.1:${port}/` followed by the rebuilt path. */
  function TargetUrl(port: int, path: string): string
  {
    "http://127.0.0.1:" + Decimal(port) + "/" + path
  }

  /** The target URL names the local host, then the port's decimal text, then
      '/' and the rebuilt path, each readable back at its place. */
  lemma TargetUrlParts(port: int, path: string)
    ensures var url := TargetUrl(port, path);
            var p := Decimal(port);
            && |url| == 17 + |p| + 1 + |path|
            && url[..17] == "http://127.0.0.1:"
            && url[17..17 + |p|] == p
            && url[17 + |p|] == '/'
            && url[17 + |p| + 1..] == path
  {
    var p := Decimal(port);
    var url := TargetUrl(port, path);
    assert url == "http://127.0.0.1:" + (p + ("/" + path));
  }

  /** The segments the target-building loop visits: those from index 2 on,
      after one trailing empty segment has been popped. */
  function Remainder(subpaths: seq<string>): seq<string>
  {
    var kept := PopEmpty(subpaths);
    if |kept| <= 2 then [] else kept[2..]
  }

  /** The segments the loop visits are those after the token, up to a
      trailing empty segment, which is dropped; with at most two segments it
      visits none. */
  lemma RemainderIsSuffix(subpaths: seq<string>)
    ensures |subpaths| <= 2 ==> Remainder(subpaths) == []
    ensures |subpaths| > 2 && subpaths[|subpaths| - 1] == "" ==> subpaths == subpaths[..2] + Remainder(subpaths) + [""]
    ensures |subpaths| > 2 && subpaths[|subpaths| - 1] != "" ==> subpaths == subpaths[..2] + Remainder(subpaths)
  {
    var n := |subpaths|;
    if n > 2 {
      if subpaths[n - 1] == "" {
        assert subpaths == subpaths[..n - 1] + [""];
        assert subpaths[..n - 1] == subpaths[..2] + Remainder(subpaths);
      } else {
        assert subpaths == subpaths[..2] + subpaths[2..];
      }
    }
  }

  /** The routing decision against a given registry. */
  function Resolve(url: string, reg: seq<Entry>): RouteResult
  {
    var subpaths := Split(url);
    if |subpaths| < 2 then NotFound
    else
      var tunnel := Matching(reg, subpaths[1]);
      if tunnel == [] then NotFound
      else Forward(tunnel[0].port, TargetUrl(tunnel[0].port, Joined(Remainder(subpaths))))
  }

  /** A forwarded request goes to the port of an entry of the registry whose
      token is segment 1 of the URL, and the URL has a '/'. */
  lemma ForwardTargetsAnEntry(url: string, reg: seq<Entry>)
    ensures var r := Resolve(url, reg);
            r.Forward? ==> '/' in url && Entry(Split(url)[1], r.port) in reg
  {
    var subpaths := Split(url);
    if |subpaths| >= 2 && Matching(reg, subpaths[1]) != [] {
      var m := Matching(reg, subpaths[1]);
      assert m[0] in m;
    }
  }

  /** The callback's decision step by step: the token filter, the guarded
      `pop()` and the loop appending `subpaths[i] + "/"`. */
  method Route(url: string, reg: seq<Entry>) returns (r: RouteResult)
    ensures r == Resolve(url, reg)
  {
    var subpaths := Split(url);
    if |subpaths| < 2 {
      return NotFound;
    }
    var subpath := subpaths[1];
    var tunnel := Matching(reg, subpath);
    if |tunnel| == 0 {
      return NotFound;
    }
    var port := tunnel[0].port;
    ghost var segs := subpaths;
    if subpaths[|subpaths| - 1] == "" {
      subpaths := subpaths[..|subpaths| - 1];
    }
    assert subpaths == PopEmpty(segs);
    var targetUrl := "";
    var i := 2;
    while i < |subpaths|
      invariant 2 <= i
      invariant i <= |subpaths| ==> targetUrl == Joined(subpaths[2..i])
      invariant i > |subpaths| ==> i == 2 && targetUrl == ""
    {
      assert subpaths[2..i + 1] == subpaths[2..i] + [subpaths[i]];
      JoinedSnoc(subpaths[2..i], subpaths[i]);
      targetUrl := targetUrl + subpaths[i] + "/";
      i := i + 1;
    }
    assert targetUrl == Joined(Remainder(segs)) by {
      if |subpaths| >= 2 {
        assert subpaths[2..i] == subpaths[2..];
      }
    }
    r := Forward(port, TargetUrl(port, targetUrl));
  }

  /** The request callback: a URL without '/' is a 404 before anything is
      read; otherwise the registry is reloaded from the file and the request
      is routed against what was loaded. */
  method HandleRequest(store: Tunnels, url: string) returns (r: RouteResult)
    modifies store
    ensures r == Resolve(url, store.tunnels)
    ensures '/' !in url ==> r == NotFound && store.config == old(store.config) && store.tunnels == old(store.tunnels)
    ensures '/' in url ==> store.config == GetTunnels(old(store.config)).after
    ensures '/' in url ==> store.tunnels == Cached(GetTunnels(old(store.config)).result)
  {
    var subpaths := Split(url);
    if |subpaths| < 2 {
      return NotFound;
    }
    store.Reload();
    r := Route(url, store.tunnels);
  }

  /** No route means 404: a URL without '/', or whose segment 1 is no
      entry's token, is not forwarded; every other URL is. */
  lemma NotFoundExactly(url: string, reg: seq<Entry>)
    ensures Resolve(url, reg) == NotFound <==>
            '/' !in url || forall e :: e in reg ==> e.token != Split(url)[1]
  {
  }

  /** First match wins: the forwarded port is that of the earliest entry
      whose token is segment 1 of the URL. */
  lemma FirstMatchWins(url: string, reg: seq<Entry>, i: int)
    requires '/' in url
    requires 0 <= i < |reg| && reg[i].token == Split(url)[1]
    requires forall j :: 0 <= j < i ==> reg[j].token != Split(url)[1]
    ensures Resolve(url, reg).Forward? && Resolve(url, reg).port == reg[i].port
  {
    FirstMatchIsEarliest(reg, Split(url)[1], i);
  }

  /** The remainder after `/<token>/` is forwarded unchanged, query string
      and repeated slashes included, except that a '/' is added when it is
      not empty and does not already end in one. */
  lemma ForwardedPath(head: string, token: string, rest: string, reg: seq<Entry>)
    requires '/' !in head && '/' !in token && Matching(reg, token) != []
    ensures var port := Matching(reg, token)[0].port;
            Resolve(head + "/" + token + "/" + rest, reg) == Forward(port, TargetUrl(port, WithTrailingSlash(rest)))
  {
    var url := head + "/" + token + "/" + rest;
    SplitAfterToken(head, token, rest);
    RemainderAfterToken(head, token, Split(rest));
    Rejoined(rest);
  }

  lemma SplitAfterToken(head: string, token: string, rest: string)
    requires '/' !in head && '/' !in token
    ensures Split(head + "/" + token + "/" + rest) == [head, token] + Split(rest)
  {
    SplitAtFirstSlash(token, rest);
    SplitAtFirstSlash(head, token + "/" + rest);
    Regroup(head + "/", token, "/", rest);
  }

  /** Re-bracketing a concatenation of four texts. */
  lemma Regroup(w: string, x: string, y: string, z: string)
    ensures w + x + y + z == w + (x + y + z)
  {
    assert w + x + y + z == w + (x + (y + z));
  }

  lemma RemainderAfterToken(head: string, token: string, segs: seq<string>)
    requires segs != []
    ensures Remainder([head, token] + segs) == PopEmpty(segs)
  {
    var all := [head, token] + segs;
    assert all[|all| - 1] == segs[|segs| - 1];
    if segs[|segs| - 1] == "" {
      assert PopEmpty(all) == [head, token] + PopEmpty(segs);
    } else {
      assert PopEmpty(all) == all;
    }
    assert PopEmpty(all)[2..] == PopEmpty(segs);
  }

  /** A URL that ends with the token, `/<token>`, goes to the root path. */
  lemma BareTokenPath(head: string, token: string, reg: seq<Entry>)
    requires '/' !in head && '/' !in token && Matching(reg, token) != []
    ensures var port := Matching(reg, token)[0].port;
            Resolve(head + "/" + token, reg) == Forward(port, TargetUrl(port, ""))
  {
    SplitWithoutSlash(token);
    SplitAtFirstSlash(head, token);
  }

  /** `/` names the empty token, which no generated token is. */
  lemma RootIsNotFound(reg: seq<Entry>)
    requires forall e :: e in reg ==> e.token != ""
    ensures Resolve("/", reg) == NotFound
  {
    SplitWithoutSlash("");
    SplitAtFirstSlash("", "");
    assert "/" == "" + "/" + "";
  }

  /** `/T` and `/T/` both go to the root path of T's port. */
  lemma TrailingSlashOptional(token: string, reg: seq<Entry>)
    requires '/' !in token && Matching(reg, token) != []
    ensures var port := Matching(reg, token)[0].port;
            && Resolve("/" + token, reg) == Forward(port, TargetUrl(port, ""))
            && Resolve("/" + token + "/", reg) == Forward(port, TargetUrl(port, ""))
  {
    BareTokenPath("", token, reg);
    assert "/" + token == "" + "/" + token;
    ForwardedPath("", token, "", reg);
    assert "/" + token + "/" == "" + "/" + token + "/" + "";
  }

  /** `/T/a/b` goes to `a/b/`: every segment, a query string in `b`
      included, is followed by '/'. */
  lemma SegmentsGetSlashes(token: string, a: string, b: string, reg: seq<Entry>)
    requires '/' !in token && Matching(reg, token) != []
    requires b != [] && '/' !in b
    ensures var port := Matching(reg, token)[0].port;
            Resolve("/" + token + "/" + (a + "/" + b), reg) == Forward(port, TargetUrl(port, a + "/" + b + "/"))
  {
    var rest := a + "/" + b;
    assert WithTrailingSlash(rest) == rest + "/" by {
      assert rest[|rest| - 1] == b[|b| - 1];
      assert b[|b| - 1] in b;
    }
    assert "" + "/" == "/";
    ForwardedPath("", token, rest, reg);
  }

  /** `/T//` keeps its empty segment and goes to `//`: a URL
      `<head>/<token>//`, whose head is empty for every request path, is
      forwarded to the path `/`. */
  lemma DoubleSlashKept(head: string, token: string, reg: seq<Entry>)
    requires '/' !in head && '/' !in token && Matching(reg, token) != []
    ensures var port := Matching(reg, token)[0].port;
            Resolve(head + "/" + token + "//", reg) == Forward(port, TargetUrl(port, "/"))
  {
    var url := head + "/" + token + "//";
    var port := Matching(reg, token)[0].port;
    assert url == head + "/" + token + "/" + "/" by {
      assert "//" == "/" + "/";
    }
    assert Resolve(url, reg) == Forward(port, TargetUrl(port, WithTrailingSlash("/"))) by {
      ForwardedPath(head, token, "/", reg);
    }
    assert WithTrailingSlash("/") == "/";
  }
}
