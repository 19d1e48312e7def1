/** Reading the fields of a cron expression, from the numbers between their commas,
    dashes and slashes on. */
module CronFields {
  import opened Wrappers
  import opened Cron

  /** One item between commas: a star, or a range, which a single number is too, with its
      step. None stands for text that is no integer. */
  datatype Item = Item(star: bool, first: Option<int>, last: Option<int>, step: Option<int>)

  // --- What an item means ----------------------------------------------------------

  function First(item: Item, low: int): Option<int> { if item.star then Some(low) else item.first }

  function Last(item: Item, high: int): Option<int> { if item.star then Some(high) else item.last }

  /** Up to where a range goes: for weekdays 7 is Sunday again, like 0. */
  function Until(last: int, weekday: bool): int { if weekday && last == 7 then 6 else last }

  /** The item is accepted. */
  predicate Fine(item: Item, low: int, high: int, weekday: bool) {
    && item.step.Some? && item.step.value > 0 && First(item, low).Some? && Last(item, high).Some?
    && var a, b := First(item, low).value, Last(item, high).value;
       (weekday && a == 7 && b == 7) || (low <= a <= Until(b, weekday) <= high)
  }

  /** The item contains the value: every step-th from its first on, and Sunday. */
  ghost predicate Picks(item: Item, low: int, high: int, weekday: bool, v: int)
    requires Fine(item, low, high, weekday)
  {
    var a, b := First(item, low).value, Last(item, high).value;
    || (weekday && b == 7 && v == 0)
    || (a <= v <= Until(b, weekday) && Hits(a, item.step.value, v))
  }

  /** A whole number of steps from `a`. */
  predicate Hits(a: int, step: int, v: int)
    requires step > 0
  {
    (v - a) % step == 0
  }

  // --- Sets of values, kept in order --------------------------------------------------

  function Inserted(s: seq<int>, v: int): seq<int> {
    if s == [] then [v]
    else if v == s[0] then s
    else if v < s[0] then [v] + s
    else [s[0]] + Inserted(s[1..], v)
  }

  lemma {:induction false} InsertedSorted(s: seq<int>, v: int)
    requires Sorted(s)
    ensures Sorted(Inserted(s, v)) && forall x :: x in Inserted(s, v) <==> x in s || x == v
  {
    if s != [] && v > s[0] {
      var rest := s[1..];
      assert s == [s[0]] + rest;
      assert Sorted(rest) by { assert forall i | 0 <= i < |rest| :: rest[i] == s[i + 1]; }
      InsertedSorted(rest, v);
      forall x | x in rest ensures x > s[0] {
        var i :| 0 <= i < |rest| && rest[i] == x;
        assert s[i + 1] == x;
      }
      SortedCons(s[0], Inserted(rest, v));
    }
  }

  lemma SortedCons(x: int, s: seq<int>)
    requires Sorted(s) && forall y | y in s :: x < y
    ensures Sorted([x] + s)
  {
    forall i, j | 0 <= i < j < |[x] + s| ensures ([x] + s)[i] < ([x] + s)[j] {
      assert ([x] + s)[j] == s[j - 1] && s[j - 1] in s;
    }
  }

  // --- Reading a field ------------------------------------------------------------------

  /** The values of one item are added; None is the error INVALID_CRON. */
  method AddItem(values: seq<int>, item: Item, low: int, high: int, weekday: bool) returns (r: Option<seq<int>>)
    requires Sorted(values)
    ensures r.Some? <==> Fine(item, low, high, weekday)
    ensures r.Some? ==>
              Sorted(r.value) && forall v :: v in r.value <==> v in values || Picks(item, low, high, weekday, v)
  {
    if item.step.None? || item.step.value <= 0 { return None; }
    var step := item.step.value;
    var start, end := First(item, low), Last(item, high);
    if start.None? || end.None? { return None; }
    var sofar := values;
    if weekday && start.value == 7 && end.value == 7 {
      InsertedSorted(sofar, 0);
      return Some(Inserted(sofar, 0));
    }
    var until := end.value;
    if weekday && until == 7 {
      InsertedSorted(sofar, 0);
      sofar := Inserted(sofar, 0);
      until := 6;
    }
    if start.value < low || until > high || start.value > until { return None; }
    sofar := AddRange(sofar, start.value, until, step);
    return Some(sofar);
  }

  method AddRange(values: seq<int>, start: int, until: int, step: int) returns (r: seq<int>)
    requires Sorted(values) && step > 0 && start <= until
    ensures Sorted(r) && forall v :: v in r <==> v in values || (start <= v <= until && Hits(start, step, v))
  {
    r := values;
    var value := start;
    while value <= until
      invariant Sorted(r) && value >= start && Hits(start, step, value)
      invariant forall v :: v in r <==> v in values || (start <= v < value && v <= until && Hits(start, step, v))
      decreases until - value
    {
      InsertedSorted(r, value);
      r := Inserted(r, value);
      OneStep(start, value, step);
      value := value + step;
    }
  }

  /** Between one value and the next there is none. */
  lemma OneStep(a: int, value: int, step: int)
    requires step > 0 && Hits(a, step, value)
    ensures Hits(a, step, value + step)
    ensures forall v | value < v < value + step :: !Hits(a, step, v)
  {
    Remainder(value - a, step, 0);
    assert value + step - a == step * ((value - a) / step + 1);
    QuotientUnique(step, (value + step - a) / step, (value + step - a) % step, (value - a) / step + 1, 0);
    forall v | value < v < value + step ensures !Hits(a, step, v) {
      Remainder(value - a, step, v - value);
    }
  }

  lemma Remainder(x: int, n: int, r: int)
    requires n > 0 && x % n == 0 && 0 <= r < n
    ensures (x + r) % n == r && x == n * (x / n)
  {
    QuotientUnique(n, (x + r) / n, (x + r) % n, x / n, r);
  }

  lemma QuotientUnique(n: int, q: int, r: int, p: int, t: int)
    requires n > 0 && 0 <= r < n && 0 <= t < n && n * q + r == n * p + t
    ensures q == p && r == t
  {
    if q < p { Monotone(n, q + 1, p); }
    if p < q { Monotone(n, p + 1, q); }
  }

  lemma {:induction false} Monotone(n: int, a: int, b: int)
    requires n > 0 && a <= b
    ensures n * a <= n * b
    decreases b - a
  {
    if a < b {
      Monotone(n, a, b - 1);
      assert n * b == n * (b - 1) + n;
    }
  }

  ghost predicate AllFine(items: seq<Item>, low: int, high: int, weekday: bool) {
    forall i | 0 <= i < |items| :: Fine(items[i], low, high, weekday)
  }

  /** A field holds exactly what its items contain, in increasing order, and within its
      bounds, weekdays from 0 to 6. It is refused exactly when an item is. */
  method ParseField(items: seq<Item>, wildcard: bool, low: int, high: int, weekday: bool) returns (f: Option<Field>)
    requires items != [] && (weekday ==> low == 0 && high == 7)
    ensures f.Some? <==> AllFine(items, low, high, weekday)
    ensures f.Some? ==>
              && f.value.wildcard == wildcard && Parsed(f.value, low, if weekday then 6 else high)
              && forall v :: v in f.value.values <==>
                   exists i :: 0 <= i < |items| && Picks(items[i], low, high, weekday, v)
  {
    var values := [];
    for n := 0 to |items|
      invariant Sorted(values) && AllFine(items[..n], low, high, weekday)
      invariant forall v :: v in values <==> exists i :: 0 <= i < n && Picks(items[i], low, high, weekday, v)
    {
      var more := AddItem(values, items[n], low, high, weekday);
      if more.None? { return None; }
      values := more.value;
      assert items[..n + 1] == items[..n] + [items[n]];
    }
    assert items[..|items|] == items;
    // No field ends up empty, so nothing else is to be refused.
    ghost var v := if weekday && Last(items[0], high) == Some(7) then 0 else First(items[0], low).value;
    FirstPicked(items[0], low, high, weekday);
    assert Picks(items[0], low, high, weekday, v);
    assert v in values;
    forall k | 0 <= k < |values| ensures low <= values[k] <= if weekday then 6 else high {
      assert values[k] in values;
    }
    return Some(Field(values, wildcard));
  }

  /** An item that is accepted contains something. */
  lemma FirstPicked(item: Item, low: int, high: int, weekday: bool)
    requires Fine(item, low, high, weekday)
    ensures Picks(item, low, high, weekday,
                  if weekday && Last(item, high) == Some(7) then 0 else First(item, low).value)
  {
  }

  /** The five fields. Whatever is accepted is what the search relies on. */
  method ParseCron(minute: (seq<Item>, bool), hour: (seq<Item>, bool), day: (seq<Item>, bool),
                   month: (seq<Item>, bool), weekday: (seq<Item>, bool)) returns (spec: Option<Spec>)
    requires minute.0 != [] && hour.0 != [] && day.0 != [] && month.0 != [] && weekday.0 != []
    ensures spec.Some? <==>
            && AllFine(minute.0, 0, 59, false) && AllFine(hour.0, 0, 23, false) && AllFine(day.0, 1, 31, false)
            && AllFine(month.0, 1, 12, false) && AllFine(weekday.0, 0, 7, true)
    ensures spec.Some? ==>
              && WellFormed(spec.value) && spec.value.day.wildcard == day.1 && spec.value.weekday.wildcard == weekday.1
              && forall v :: v in spec.value.weekday.values <==>
                   exists i :: 0 <= i < |weekday.0| && Picks(weekday.0[i], 0, 7, true, v)
  {
    var f1 := ParseField(minute.0, minute.1, 0, 59, false);
    if f1.None? { return None; }
    var f2 := ParseField(hour.0, hour.1, 0, 23, false);
    if f2.None? { return None; }
    var f3 := ParseField(day.0, day.1, 1, 31, false);
    if f3.None? { return None; }
    var f4 := ParseField(month.0, month.1, 1, 12, false);
    if f4.None? { return None; }
    var f5 := ParseField(weekday.0, weekday.1, 0, 7, true);
    if f5.None? { return None; }
    return Some(Spec(f1.value, f2.value, f3.value, f4.value, f5.value));
  }
}
