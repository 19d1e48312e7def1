/** Slash-separated paths as strings, and the component lists they denote. */
module Paths {

  predicate IsComponent(c: string) { c != "" && '/' !in c }

  predicate AllComponents(cs: seq<string>) { forall i | 0 <= i < |cs| :: IsComponent(cs[i]) }

  /** The text of `s` before its first slash. */
  function Head(s: string): (h: string)
    ensures '/' !in h && h <= s && (|h| < |s| ==> s[|h|] == '/')
  {
    if s == "" || s[0] == '/' then "" else [s[0]] + Head(s[1..])
  }

  /** path.split('/').filter(Boolean) */
  function Components(s: string): (cs: seq<string>)
    ensures AllComponents(cs)
    decreases |s|
  {
    var h := Head(s);
    var rest := if |h| < |s| then Components(s[|h| + 1..]) else [];
    if h == "" then rest else [h] + rest
  }

  function Join(cs: seq<string>): string {
    if cs == [] then "" else if |cs| == 1 then cs[0] else cs[0] + "/" + Join(cs[1..])
  }

  /** path.split('/'), never empty. */
  function Split(s: string): (r: seq<string>)
    ensures r != []
    decreases |s|
  {
    var h := Head(s);
    if |h| < |s| then [h] + Split(s[|h| + 1..]) else [h]
  }

  /** Every component with a slash before it. */
  function Rooted(cs: seq<string>): string {
    if cs == [] then "" else "/" + cs[0] + Rooted(cs[1..])
  }

  lemma {:induction false} RootedIsJoin(cs: seq<string>)
    requires cs != []
    ensures Rooted(cs) == "/" + Join(cs)
  {
    if |cs| > 1 {
      RootedIsJoin(cs[1..]);
      assert "/" + (cs[0] + "/" + Join(cs[1..])) == "/" + cs[0] + ("/" + Join(cs[1..]));
    }
  }

  lemma HeadOf(c: string, rest: string)
    requires '/' !in c && (rest == "" || rest[0] == '/')
    ensures Head(c + rest) == c
  {
    if c == "" {
      assert c + rest == rest;
    } else {
      assert (c + rest)[1..] == c[1..] + rest;
      HeadOf(c[1..], rest);
    }
  }

  lemma ComponentsOfSlash(s: string)
    ensures Components("/" + s) == Components(s)
  {
    assert ("/" + s)[1..] == s;
    assert Head("/" + s) == "";
  }

  lemma ComponentsOfHead(c: string, rest: string)
    requires IsComponent(c) && (rest == "" || rest[0] == '/')
    ensures Components(c + rest) == [c] + Components(rest)
  {
    HeadOf(c, rest);
    var s := c + rest;
    if rest == "" {
      assert s == c;
      assert [c] + [] == [c];
    } else {
      assert rest == "/" + rest[1..];
      ComponentsOfSlash(rest[1..]);
      assert s[|c| + 1..] == rest[1..];
    }
  }

  lemma HeadSlash(cs: seq<string>)
    ensures Rooted(cs) == "" || Rooted(cs)[0] == '/'
  {
  }

  /** Parsing the text of a component list gives the list back. */
  lemma {:induction false} ComponentsOfRooted(cs: seq<string>)
    requires AllComponents(cs)
    ensures Components(Rooted(cs)) == cs
  {
    if cs != [] {
      var c, rest := cs[0], Rooted(cs[1..]);
      ComponentsOfRooted(cs[1..]);
      assert "/" + c + rest == "/" + (c + rest);
      ComponentsOfSlash(c + rest);
      HeadSlash(cs[1..]);
      ComponentsOfHead(c, rest);
      assert [c] + cs[1..] == cs;
    }
  }

  lemma RootedInjective(x: seq<string>, y: seq<string>)
    requires AllComponents(x) && AllComponents(y)
    ensures Rooted(x) == Rooted(y) <==> x == y
  {
    ComponentsOfRooted(x);
    ComponentsOfRooted(y);
  }

  lemma {:induction false} NoTrailingSlash(cs: seq<string>)
    requires AllComponents(cs) && cs != []
    ensures var s := Rooted(cs); s[|s| - 1] != '/'
  {
    assert IsComponent(cs[0]);
    if |cs| > 1 {
      assert AllComponents(cs[1..]);
      NoTrailingSlash(cs[1..]);
    } else {
      assert Rooted(cs) == "/" + cs[0];
    }
  }

  /** Splitting the joined text of components gives them back. */
  lemma {:induction false} SplitOfJoin(cs: seq<string>)
    requires AllComponents(cs) && cs != []
    ensures Split(Join(cs)) == cs
  {
    if |cs| == 1 {
      HeadOf(cs[0], "");
      assert cs[0] + "" == cs[0];
    } else {
      var rest := Join(cs[1..]);
      HeadOf(cs[0], "/" + rest);
      assert Join(cs) == cs[0] + ("/" + rest);
      assert Join(cs)[|cs[0]| + 1..] == rest;
      SplitOfJoin(cs[1..]);
    }
  }

  /** `x` is a prefix of `y` that ends where a component of `y` ends. */
  predicate WholePrefix(x: string, y: string) {
    x <= y && (|x| < |y| ==> y[|x|] == '/')
  }

  /** Whole-component prefixes of the text are prefixes of the component list. */
  lemma {:induction false} RootedPrefix(x: seq<string>, y: seq<string>)
    requires AllComponents(x) && AllComponents(y)
    ensures WholePrefix(Rooted(x), Rooted(y)) <==> x <= y
  {
    if x != [] && y != [] {
      var a, b, xs, ys := x[0], y[0], Rooted(x[1..]), Rooted(y[1..]);
      assert xs == "" || xs[0] == '/';
      assert ys == "" || ys[0] == '/';
      if a == b {
        RootedPrefix(x[1..], y[1..]);
        SamePrefix("/" + a, xs, ys);
        assert x <= y <==> x[1..] <= y[1..] by {
          assert x == [a] + x[1..] && y == [a] + y[1..];
        }
      } else {
        FirstComponent(a, xs, b, ys);
      }
    }
  }

  lemma SamePrefix(p: string, x: string, y: string)
    ensures WholePrefix(p + x, p + y) <==> WholePrefix(x, y)
  {
    if p + x <= p + y {
      assert (p + x)[|p|..] == x && (p + y)[|p|..] == y && (p + y)[..|p + x|][|p|..] == y[..|x|];
    }
    if x <= y { assert (p + y)[..|p| + |x|] == p + y[..|x|]; }
  }

  lemma FirstComponent(a: string, xs: string, b: string, ys: string)
    requires IsComponent(a) && IsComponent(b)
    requires xs == "" || xs[0] == '/'
    requires ys == "" || ys[0] == '/'
    ensures WholePrefix("/" + a + xs, "/" + b + ys) ==> a == b
  {
    var s, t := "/" + a + xs, "/" + b + ys;
    assert |a| < |b| ==> t[1 + |a|] == b[|a|];
    assert |b| < |a| ==> s[1 + |b|] == a[|b|];
    assert xs != "" ==> s[1 + |a|] == '/';
    assert ys != "" ==> t[1 + |b|] == '/';
    assert a == s[1..1 + |a|] && b == t[1..1 + |b|];
  }
}
