/** Python's `sep in s`, `s.split(sep)` and `sep.join(pieces)` on strings. */
module Text {

  /** `t in s`: some position of `s` starts with `t`. */
  predicate Contains(s: string, t: string)
    decreases |s|
  {
    t <= s || (|s| > 0 && Contains(s[1..], t))
  }

  /** `Contains` agrees with its plain definition: `t` is a prefix of some suffix of `s`. */
  lemma {:induction false} ContainsAt(s: string, t: string)
    ensures Contains(s, t) <==> exists i :: 0 <= i <= |s| && t <= s[i..]
    decreases |s|
  {
    assert s[0..] == s;
    if |s| > 0 {
      ContainsAt(s[1..], t);
      forall i | 1 <= i <= |s|
        ensures s[1..][i - 1..] == s[i..]
      {
      }
      if !(t <= s) && exists i :: 0 <= i <= |s| && t <= s[i..] {
        var i :| 0 <= i <= |s| && t <= s[i..];
        assert i != 0;
        assert t <= s[1..][i - 1..];
      }
    }
  }

  /** The scan behind `s.split(sep)`: left to right, a match of `sep` closes the piece `cur`
      and the scan resumes after the match, so matches never overlap. */
  function SplitFrom(s: string, sep: string, cur: string): (pieces: seq<string>)
    requires |sep| > 0
    ensures |pieces| >= 1
    decreases |s|
  {
    if |s| == 0 then [cur]
    else if sep <= s then [cur] + SplitFrom(s[|sep|..], sep, [])
    else SplitFrom(s[1..], sep, cur + [s[0]])
  }

  /** `s.split(sep)` for a non-empty separator (Python raises on an empty one). */
  function Split(s: string, sep: string): (pieces: seq<string>)
    requires |sep| > 0
    ensures |pieces| >= 1
  {
    SplitFrom(s, sep, [])
  }

  /** `sep.join(pieces)` for a non-empty list. */
  function Join(pieces: seq<string>, sep: string): (s: string)
    requires |pieces| >= 1
    decreases |pieces|
  {
    if |pieces| == 1 then pieces[0] else pieces[0] + sep + Join(pieces[1..], sep)
  }

  /** `s.split(sep)[-1]`: the last piece. */
  function LastPiece(s: string, sep: string): string
    requires |sep| > 0
  {
    var pieces := Split(s, sep);
    pieces[|pieces| - 1]
  }

  /** Joining a list that starts with `x`. */
  lemma JoinCons(x: string, xs: seq<string>, sep: string)
    requires |xs| >= 1
    ensures Join([x] + xs, sep) == x + sep + Join(xs, sep)
  {
    assert ([x] + xs)[1..] == xs;
  }

  lemma AppendAssoc<T>(a: seq<T>, b: seq<T>, c: seq<T>)
    ensures a + b + c == a + (b + c)
  {
  }

  /** A string that starts with `p` is `p` followed by the rest. */
  lemma PrefixThenRest<T>(s: seq<T>, p: seq<T>)
    requires p <= s
    ensures s == p + s[|p|..]
  {
    assert s == s[..|p|] + s[|p|..];
  }

  /** A match of the separator: the piece so far, the separator, then the rest rejoined. */
  lemma JoinSplitMatch(s: string, sep: string, cur: string)
    requires |sep| > 0 && |s| > 0 && sep <= s
    requires Join(SplitFrom(s[|sep|..], sep, []), sep) == s[|sep|..]
    ensures Join(SplitFrom(s, sep, cur), sep) == cur + s
  {
    var tail := s[|sep|..];
    var rest := SplitFrom(tail, sep, []);
    assert SplitFrom(s, sep, cur) == [cur] + rest;
    JoinCons(cur, rest, sep);
    PrefixThenRest(s, sep);
    AppendAssoc(cur, sep, tail);
  }

  lemma {:induction false} JoinSplitFrom(s: string, sep: string, cur: string)
    requires |sep| > 0
    ensures Join(SplitFrom(s, sep, cur), sep) == cur + s
    decreases |s|
  {
    if |s| == 0 {
      assert cur + s == cur;
    } else if sep <= s {
      JoinSplitFrom(s[|sep|..], sep, []);
      assert [] + s[|sep|..] == s[|sep|..];
      JoinSplitMatch(s, sep, cur);
    } else {
      var cur' := cur + [s[0]];
      JoinSplitFrom(s[1..], sep, cur');
      assert cur' + s[1..] == cur + s;
    }
  }

  /** Joining the pieces of a split with the same separator gives back the string. */
  lemma JoinSplit(s: string, sep: string)
    requires |sep| > 0
    ensures Join(Split(s, sep), sep) == s
  {
    JoinSplitFrom(s, sep, []);
  }

  /** A piece that does not hold the separator's first character is consumed whole. */
  lemma {:induction false} SplitFromSkips(x: string, t: string, sep: string, cur: string)
    requires |sep| > 0 && sep[0] !in x
    ensures SplitFrom(x + t, sep, cur) == SplitFrom(t, sep, cur + x)
    decreases |x|
  {
    if |x| == 0 {
      assert x + t == t;
      assert cur + x == cur;
    } else {
      assert (x + t)[0] == x[0] != sep[0];
      assert !(sep <= x + t);
      assert (x + t)[1..] == x[1..] + t;
      SplitFromSkips(x[1..], t, sep, cur + [x[0]]);
      assert cur + [x[0]] + x[1..] == cur + x;
    }
  }

  lemma {:induction false} SplitFromJoin(xs: seq<string>, sep: string, cur: string)
    requires |sep| > 0 && |xs| >= 1
    requires forall i :: 0 <= i < |xs| ==> sep[0] !in xs[i]
    ensures SplitFrom(Join(xs, sep), sep, cur) == [cur + xs[0]] + xs[1..]
    decreases |xs|
  {
    if |xs| == 1 {
      SplitFromSkips(xs[0], [], sep, cur);
      assert xs[0] + [] == xs[0];
    } else {
      var rest := Join(xs[1..], sep);
      assert Join(xs, sep) == xs[0] + (sep + rest);
      SplitFromSkips(xs[0], sep + rest, sep, cur);
      assert (sep + rest)[|sep|..] == rest;
      SplitFromJoin(xs[1..], sep, []);
      assert [] + xs[1..][0] == xs[1];
      assert [xs[1]] + xs[1..][1..] == xs[1..];
    }
  }

  /** Splitting a join gives back the pieces when no piece holds the separator's first
      character, so no match can start inside a piece. */
  lemma SplitJoin(xs: seq<string>, sep: string)
    requires |sep| > 0 && |xs| >= 1
    requires forall i :: 0 <= i < |xs| ==> sep[0] !in xs[i]
    ensures Split(Join(xs, sep), sep) == xs
  {
    SplitFromJoin(xs, sep, []);
    assert [] + xs[0] == xs[0];
  }

  lemma {:induction false} SplitFromCount(s: string, sep: string, cur: string)
    requires |sep| > 0
    ensures |SplitFrom(s, sep, cur)| >= 2 <==> Contains(s, sep)
    decreases |s|
  {
    if |s| == 0 {
    } else if sep <= s {
    } else {
      SplitFromCount(s[1..], sep, cur + [s[0]]);
    }
  }

  /** `s.split(sep)` has more than one piece exactly when `sep in s`. */
  lemma SplitCount(s: string, sep: string)
    requires |sep| > 0
    ensures |Split(s, sep)| >= 2 <==> Contains(s, sep)
  {
    SplitFromCount(s, sep, []);
  }

  /** The last piece of a join follows the last separator. */
  lemma {:induction false} JoinLast(xs: seq<string>, sep: string)
    requires |xs| >= 2
    ensures Join(xs, sep) == Join(xs[..|xs| - 1], sep) + sep + xs[|xs| - 1]
    decreases |xs|
  {
    if |xs| > 2 {
      JoinLast(xs[1..], sep);
      assert xs[1..][..|xs| - 2] == xs[..|xs| - 1][1..];
    } else {
      assert xs[..1] == [xs[0]];
    }
  }

  lemma {:induction false} NoMatchNotContains(w: string, sep: string)
    requires |sep| > 0
    requires forall j :: 0 <= j < |w| ==> !(sep <= w[j..])
    ensures !Contains(w, sep)
    decreases |w|
  {
    if |w| > 0 {
      assert w[0..] == w;
      forall j | 0 <= j < |w| - 1 ensures !(sep <= w[1..][j..]) {
        assert w[1..][j..] == w[j + 1..];
      }
      NoMatchNotContains(w[1..], sep);
    }
  }

  lemma {:induction false} SplitFromLastFree(s: string, sep: string, cur: string)
    requires |sep| > 0
    requires forall j :: 0 <= j < |cur| ==> !(sep <= (cur + s)[j..])
    ensures var pieces := SplitFrom(s, sep, cur); !Contains(pieces[|pieces| - 1], sep)
    decreases |s|
  {
    if |s| == 0 {
      assert cur + s == cur;
      NoMatchNotContains(cur, sep);
    } else if sep <= s {
      SplitFromLastFree(s[|sep|..], sep, []);
    } else {
      var cur' := cur + [s[0]];
      assert cur' + s[1..] == cur + s;
      forall j | 0 <= j < |cur'| ensures !(sep <= (cur' + s[1..])[j..]) {
        if j == |cur| {
          assert (cur + s)[j..] == s;
        }
      }
      SplitFromLastFree(s[1..], sep, cur');
    }
  }

  /** The last piece of `s.split(sep)` holds no match of `sep`, and when `sep in s` it is the
      suffix of `s` that directly follows a match of `sep`. */
  lemma LastPieceFollowsSeparator(s: string, sep: string)
    requires |sep| > 0
    ensures !Contains(LastPiece(s, sep), sep)
    ensures Contains(s, sep) ==>
      var id := LastPiece(s, sep);
      |id| + |sep| <= |s| && s[|s| - |id|..] == id && s[|s| - |id| - |sep|..|s| - |id|] == sep
  {
    SplitFromLastFree(s, sep, []);
    if Contains(s, sep) {
      var pieces := Split(s, sep);
      SplitCount(s, sep);
      JoinSplit(s, sep);
      JoinLast(pieces, sep);
      var head := Join(pieces[..|pieces| - 1], sep);
      var id := pieces[|pieces| - 1];
      assert s == head + sep + id;
      assert s[|s| - |id|..] == id;
      assert s[|s| - |id| - |sep|..|s| - |id|] == sep;
    }
  }
}
