/** Strings as JavaScript measures and compares them: by UTF-16 code units. */
module Utf16 {

  /** One code unit, or a surrogate pair (section 3.9 of the Unicode Standard). */
  function CodeUnits(c: char): seq<nat> {
    var n := c as int;
    if n < 0x10000 then [n] else [0xD800 + (n - 0x10000) / 0x400, 0xDC00 + (n - 0x10000) % 0x400]
  }

  /** A pair is a high and a low surrogate, which together hold the scalar value. */
  lemma SurrogatePair(c: char)
    ensures var u, n := CodeUnits(c), c as int;
            if n <= 0xFFFF then u == [n]
            else |u| == 2 && 0xD800 <= u[0] <= 0xDBFF && 0xDC00 <= u[1] <= 0xDFFF
                 && n == (u[0] - 0xD800) * 1024 + (u[1] - 0xDC00) + 65536
  {
  }

  function Units(s: string): seq<nat> { if s == "" then [] else CodeUnits(s[0]) + Units(s[1..]) }

  /** s.length */
  function Length(s: string): nat { |Units(s)| }

  /** A character that takes two code units. */
  predicate Wide(c: char) { c as int >= 0x10000 }

  predicate Narrow(s: string) { forall i | 0 <= i < |s| :: !Wide(s[i]) }

  /** The length counts the characters exactly when no character is wide. */
  lemma {:induction false} LengthCountsNarrow(s: string)
    ensures Length(s) >= |s| && (Length(s) == |s| <==> Narrow(s))
  {
    if s != "" {
      LengthCountsNarrow(s[1..]);
      assert Narrow(s) <==> !Wide(s[0]) && Narrow(s[1..]);
    }
  }

  // --- Order -----------------------------------------------------------------------

  /** Where a character stands in code unit order: those above the surrogates but of
      one unit come after all pairs. */
  function Rank(c: char): nat { if 0xE000 <= c as int < 0x10000 then c as int + 0x110000 else c as int }

  lemma RankIsCodeUnitOrder(c: char, d: char)
    ensures var x, y := CodeUnits(c), CodeUnits(d);
            Rank(c) < Rank(d) <==> x[0] < y[0] || (x[0] == y[0] && |x| == |y| == 2 && x[1] < y[1])
    ensures Rank(c) == Rank(d) ==> c == d
  {
    if c as int >= 0x10000 && d as int >= 0x10000 {
      var m, n := c as int - 0x10000, d as int - 0x10000;
      assert m == 0x400 * (m / 0x400) + m % 0x400 && n == 0x400 * (n / 0x400) + n % 0x400;
    }
  }

  predicate Less(a: string, b: string) {
    b != "" && (a == "" || Rank(a[0]) < Rank(b[0]) || (a[0] == b[0] && Less(a[1..], b[1..])))
  }

  /** Lexicographic order of code unit sequences. */
  predicate Before(x: seq<nat>, y: seq<nat>) {
    y != [] && (x == [] || x[0] < y[0] || (x[0] == y[0] && Before(x[1..], y[1..])))
  }

  /** The order is that of the whole strings' code units: `a < b` in JavaScript. */
  lemma {:induction false} LessIsCodeUnitOrder(a: string, b: string)
    ensures Less(a, b) <==> Before(Units(a), Units(b))
  {
    if a != "" && b != "" {
      var c, d, x, y := a[0], b[0], Units(a[1..]), Units(b[1..]);
      RankIsCodeUnitOrder(c, d);
      if c == d {
        LessIsCodeUnitOrder(a[1..], b[1..]);
        BeforeSame(CodeUnits(c), x, y);
      } else {
        RankIsCodeUnitOrder(d, c);
        BeforeDiffers(c, d, x, y);
      }
    }
  }

  lemma {:induction false} BeforeSame(p: seq<nat>, x: seq<nat>, y: seq<nat>)
    ensures Before(p + x, p + y) <==> Before(x, y)
  {
    if p == [] {
      assert p + x == x && p + y == y;
    } else {
      assert (p + x)[1..] == p[1..] + x && (p + y)[1..] == p[1..] + y;
      BeforeSame(p[1..], x, y);
    }
  }

  lemma BeforeDiffers(c: char, d: char, x: seq<nat>, y: seq<nat>)
    requires c != d
    ensures Before(CodeUnits(c) + x, CodeUnits(d) + y) <==> Rank(c) < Rank(d)
  {
    var u, v := CodeUnits(c), CodeUnits(d);
    RankIsCodeUnitOrder(c, d);
    RankIsCodeUnitOrder(d, c);
    if u[0] == v[0] {
      assert (u + x)[1..] == u[1..] + x && (v + y)[1..] == v[1..] + y;
      assert |u| == |v| == 2 && u[1] != v[1];
    }
  }

  lemma {:induction false} LessTotal(a: string, b: string)
    ensures Less(a, b) || Less(b, a) || a == b
    ensures !(Less(a, b) && Less(b, a)) && (Less(a, b) ==> a != b)
  {
    if a != "" && b != "" {
      LessTotal(a[1..], b[1..]);
      RankIsCodeUnitOrder(a[0], b[0]);
      assert a == [a[0]] + a[1..] && b == [b[0]] + b[1..];
    }
  }

  lemma {:induction false} LessTransitive(a: string, b: string, c: string)
    requires Less(a, b) && Less(b, c)
    ensures Less(a, c)
  {
    if a != "" && a[0] == b[0] == c[0] { LessTransitive(a[1..], b[1..], c[1..]); }
  }
}
