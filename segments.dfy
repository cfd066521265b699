/** Splitting a request URL on '/' and joining segments back, as the router of
    tunnel.js does with `req.url.split("/")` and its `targetUrl` loop. */
module Segments {

  /** The pieces of `s` between its '/' characters, as JavaScript's
      `String.prototype.split("/")` returns them: empty pieces are kept, so a
      string with n slashes always has n + 1 pieces, and no piece holds a '/'. */
  function Split(s: string): (r: seq<string>)
    ensures |r| == multiset(s)['/'] + 1
    ensures forall i :: 0 <= i < |r| ==> '/' !in r[i]
    decreases |s|
  {
    if |s| == 0 then [""]
    else
      assert s == [s[0]] + s[1..];
      var rest := Split(s[1..]);
      if s[0] == '/' then [""] + rest
      else [[s[0]] + rest[0]] + rest[1..]
  }

  /** Every segment followed by '/', all concatenated: what the router's loop
      `targetUrl += subpaths[i] + "/"` builds from the segments it visits. */
  function Joined(segs: seq<string>): string
  {
    if segs == [] then "" else segs[0] + "/" + Joined(segs[1..])
  }

  /** `subpaths.pop()` guarded by an empty last segment: exactly one trailing
      empty segment is dropped, and only when the last segment is empty. */
  function PopEmpty(segs: seq<string>): seq<string>
  {
    if |segs| > 0 && segs[|segs| - 1] == "" then segs[..|segs| - 1] else segs
  }

  /** The guarded pop keeps a prefix of the segments and is one shorter
      exactly when the last segment is empty. */
  lemma PopEmptyDropsOne(segs: seq<string>)
    ensures |PopEmpty(segs)| <= |segs| && PopEmpty(segs) == segs[..|PopEmpty(segs)|]
    ensures |PopEmpty(segs)| < |segs| <==> |segs| > 0 && segs[|segs| - 1] == ""
    ensures |segs| - 1 <= |PopEmpty(segs)|
  {
  }

  /** What the rebuilt remainder is meant to be: the text itself when it is
      empty or already ends in '/', and otherwise the text with one '/' added. */
  function WithTrailingSlash(s: string): string
  {
    if s == [] || s[|s| - 1] == '/' then s else s + "/"
  }

  /** Joining the pieces of a split gives the text back, with one '/' after it. */
  lemma {:induction false} JoinedSplit(s: string)
    ensures Joined(Split(s)) == s + "/"
    decreases |s|
  {
    if |s| > 0 {
      var rest := Split(s[1..]);
      JoinedSplit(s[1..]);
      assert s == [s[0]] + s[1..];
      if s[0] != '/' {
        var r := Split(s);
        assert r[0] == [s[0]] + rest[0] && r[1..] == rest[1..];
        calc {
          Joined(r);
          r[0] + "/" + Joined(r[1..]);
          [s[0]] + (rest[0] + "/" + Joined(rest[1..]));
          [s[0]] + Joined(rest);
        }
      }
    }
  }

  /** Appending a segment appends that segment and one '/' to the join. */
  lemma {:induction false} JoinedSnoc(segs: seq<string>, last: string)
    ensures Joined(segs + [last]) == Joined(segs) + last + "/"
  {
    if segs != [] {
      assert (segs + [last])[1..] == segs[1..] + [last];
      JoinedSnoc(segs[1..], last);
    }
  }

  /** A text without '/' is a single segment. */
  lemma SplitWithoutSlash(a: string)
    requires '/' !in a
    ensures Split(a) == [a]
  {
    JoinedSplit(a);
    var r := Split(a);
    assert Joined(r) == r[0] + "/";
    assert (r[0] + "/")[..|r[0]|] == r[0];
    assert (a + "/")[..|a|] == a;
  }

  /** The first slash of a text ends its first segment. */
  lemma {:induction false} SplitAtFirstSlash(a: string, b: string)
    requires '/' !in a
    ensures Split(a + "/" + b) == [a] + Split(b)
    decreases |a|
  {
    var s := a + "/" + b;
    assert s == [s[0]] + s[1..];
    if a == [] {
      assert s[1..] == b;
    } else {
      assert s[1..] == a[1..] + "/" + b;
      assert '/' !in a[1..] by {
        assert a == [a[0]] + a[1..];
      }
      SplitAtFirstSlash(a[1..], b);
      assert a == [a[0]] + a[1..];
    }
  }

  /** The join of a non-empty list of segments ends in '/'. */
  lemma JoinedEndsInSlash(segs: seq<string>)
    requires segs != []
    ensures |Joined(segs)| > 0 && Joined(segs)[|Joined(segs)| - 1] == '/'
  {
    var n := |segs|;
    assert segs == segs[..n - 1] + [segs[n - 1]];
    JoinedSnoc(segs[..n - 1], segs[n - 1]);
  }

  /** A text is the join of all its segments but the last, followed by the
      last segment. */
  lemma SplitLast(s: string)
    ensures var segs := Split(s);
            s == Joined(segs[..|segs| - 1]) + segs[|segs| - 1]
  {
    var segs := Split(s);
    var n := |segs|;
    assert segs == segs[..n - 1] + [segs[n - 1]];
    JoinedSplit(s);
    JoinedSnoc(segs[..n - 1], segs[n - 1]);
    DropSlash(Joined(segs[..n - 1]) + segs[n - 1], s);
  }

  /** Splitting a text, dropping one trailing empty segment and joining again
      with a '/' after every segment gives the text back, plus one '/' unless
      it was empty or already ended in '/'. Nothing else of the text (a query
      string, repeated slashes) is changed. */
  lemma Rejoined(s: string)
    ensures Joined(PopEmpty(Split(s))) == WithTrailingSlash(s)
  {
    var segs := Split(s);
    if segs[|segs| - 1] == "" {
      RejoinedEmptyLast(s);
    } else {
      RejoinedLastSegment(s);
    }
  }

  /** Rejoined, when the text is empty or ends in '/'. */
  lemma RejoinedEmptyLast(s: string)
    requires Split(s)[|Split(s)| - 1] == ""
    ensures Joined(PopEmpty(Split(s))) == s == WithTrailingSlash(s)
  {
    var segs := Split(s);
    var init := segs[..|segs| - 1];
    SplitLast(s);
    assert PopEmpty(segs) == init;
    assert Joined(init) == s;
    if init != [] {
      JoinedEndsInSlash(init);
    }
  }

  /** Rejoined, when the text ends in a non-empty segment. */
  lemma RejoinedLastSegment(s: string)
    requires Split(s)[|Split(s)| - 1] != ""
    ensures Joined(PopEmpty(Split(s))) == s + "/" == WithTrailingSlash(s)
  {
    var segs := Split(s);
    var n := |segs|;
    var last := segs[n - 1];
    SplitLast(s);
    JoinedSplit(s);
    assert PopEmpty(segs) == segs;
    assert '/' !in last;
    LastOfConcat(Joined(segs[..n - 1]), last);
    assert last[|last| - 1] in last;
  }

  /** The last character of a concatenation with a non-empty right part. */
  lemma LastOfConcat(x: string, y: string)
    requires y != []
    ensures (x + y)[|x + y| - 1] == y[|y| - 1]
  {
  }

  /** One '/' appended to two texts can be cancelled. */
  lemma DropSlash(x: string, y: string)
    requires x + "/" == y + "/"
    ensures x == y
  {
    assert (x + "/")[..|x|] == x;
    assert (y + "/")[..|y|] == y;
  }
}
