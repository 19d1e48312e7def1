/** The change feed as its readers see it: numbered rows with bounded retention, and
    pages that a poller follows by cursor. */
module FeedPoll {
  import opened Wrappers
  import opened Paths
  import opened Utf16

  datatype Kind = Create | Remove | Rename | Modify

  datatype Event = Event(kind: Kind, path: string, oldPath: Option<string>, ino: int)

  const RETENTION := 10000
  const MAX_LIMIT := 1000
  const DEFAULT_LIMIT := 100

  function Max(a: int, b: int): int { if a < b then b else a }

  // --- The filter -------------------------------------------------------------

  /** substr(text, 1, n): the database counts characters. */
  function Substr(text: string, n: nat): string { if n < |text| then text[..n] else text }

  /** path = prefix, or as many characters of path as prefix and a slash have code
      units are prefix and a slash. */
  predicate Under(prefix: string, path: string) {
    path == prefix || Substr(path, Length(prefix + "/")) == prefix + "/"
  }

  const TRASH := "/.airyfs-trash"

  predicate Shown(e: Event) {
    !Under(TRASH, e.path) && (e.oldPath.Some? ==> !Under(TRASH, e.oldPath.value))
  }

  /** `prefix` is normalized: "/" matches everything. */
  predicate Selected(e: Event, prefix: string) {
    && Shown(e)
    && (prefix != "/" ==> Under(prefix, e.path) || (e.oldPath.Some? && Under(prefix, e.oldPath.value)))
  }

  /** What the test comes to, for any two texts. */
  lemma UnderText(x: string, y: string)
    ensures Under(x, y) <==> x == y || y == x + "/" || (Narrow(x) && x + "/" <= y)
  {
    var z := x + "/";
    LengthCountsNarrow(z);
    assert Narrow(z) <==> Narrow(x) by {
      assert (forall i | 0 <= i < |x| :: z[i] == x[i]) && z[|x|] == '/';
    }
    if Narrow(x) { assert Substr(y, |z|) == z <==> z <= y; }
  }

  /** Without wide characters the test passes exactly the subtree, and with one nothing
      but the directory itself. */
  lemma UnderExactly(prefix: seq<string>, path: seq<string>)
    requires AllComponents(prefix) && AllComponents(path) && prefix != []
    ensures Under(Rooted(prefix), Rooted(path)) <==> if Narrow(Rooted(prefix)) then prefix <= path else prefix == path
  {
    var x, y := Rooted(prefix), Rooted(path);
    UnderText(x, y);
    RootedInjective(prefix, path);
    if path != [] { NoTrailingSlash(path); }
    if Narrow(x) { Below(prefix, path); }
  }

  lemma Below(prefix: seq<string>, path: seq<string>)
    requires AllComponents(prefix) && AllComponents(path)
    ensures var x, y := Rooted(prefix), Rooted(path); x == y || x + "/" <= y <==> prefix <= path
  {
    RootedPrefix(prefix, path);
    var x, y := Rooted(prefix), Rooted(path);
    if x < y { assert y[..|x| + 1] == x + [y[|x|]]; }
  }

  /** normalizePrefix: dot segments resolved against the root. */
  function Dotless(cs: seq<string>): (r: seq<string>)
    requires AllComponents(cs)
    ensures AllComponents(r) && |r| <= |cs|
    decreases |cs|
  {
    if cs == [] then []
    else
      var before, c := Dotless(cs[..|cs| - 1]), cs[|cs| - 1];
      if c == "." then before
      else if c == ".." then if before == [] then [] else before[..|before| - 1]
      else before + [c]
  }

  function NormalizePrefix(prefix: string): string { "/" + Join(Dotless(Components(prefix))) }

  const IN_TRASH := [".airyfs-trash"]

  /** The event is about this path, and was about the old one. */
  ghost predicate About(e: Event, path: seq<string>, oldPath: Option<seq<string>>) {
    && AllComponents(path) && e.path == Rooted(path)
    && (oldPath.Some? ==> AllComponents(oldPath.value) && e.oldPath == Some(Rooted(oldPath.value)))
    && (oldPath.None? ==> e.oldPath.None?)
  }

  predicate OutsideTrash(path: seq<string>, oldPath: Option<seq<string>>) {
    !(IN_TRASH <= path) && (oldPath.Some? ==> !(IN_TRASH <= oldPath.value))
  }

  /** What a reader of a directory's changes asks for: the events that concern its
      subtree, now or before, and nothing of the trash. */
  predicate Concerns(dir: seq<string>, path: seq<string>, oldPath: Option<seq<string>>) {
    OutsideTrash(path, oldPath) && (dir <= path || (oldPath.Some? && dir <= oldPath.value))
  }

  /** What the filter passes, whatever prefix is asked for. */
  lemma FilterSelects(prefix: string, e: Event, path: seq<string>, oldPath: Option<seq<string>>)
    requires About(e, path, oldPath)
    ensures var dir := Dotless(Components(prefix));
            Selected(e, NormalizePrefix(prefix)) <==>
              if Narrow(NormalizePrefix(prefix)) then Concerns(dir, path, oldPath)
              else OutsideTrash(path, oldPath) && (path == dir || oldPath == Some(dir))
  {
    var dir := Dotless(Components(prefix));
    TrashIsRooted();
    UnderExactly(IN_TRASH, path);
    if oldPath.Some? { UnderExactly(IN_TRASH, oldPath.value); }
    if dir == [] {
      assert NormalizePrefix(prefix) == "/";
    } else {
      RootedIsJoin(dir);
      assert IsComponent(dir[0]);
      assert |Rooted(dir)| > 1;
      UnderExactly(dir, path);
      if oldPath.Some? { UnderExactly(dir, oldPath.value); }
    }
  }

  /** The filter passes exactly the subtree's events. */
  ghost predicate FiltersSubtree(prefix: string) {
    forall e, path, oldPath | About(e, path, oldPath) ::
      Selected(e, NormalizePrefix(prefix)) <==> Concerns(Dotless(Components(prefix)), path, oldPath)
  }

  /** It does so for exactly the prefixes without wide characters, and for those in the
      trash, of which nothing is passed anyway. */
  lemma FilterIsSubtree(prefix: string)
    ensures FiltersSubtree(prefix)
            <==> Narrow(NormalizePrefix(prefix)) || IN_TRASH <= Dotless(Components(prefix))
  {
    var dir := Dotless(Components(prefix));
    forall e, path, oldPath | About(e, path, oldPath)
      ensures Narrow(NormalizePrefix(prefix)) || IN_TRASH <= dir ==>
                (Selected(e, NormalizePrefix(prefix)) <==> Concerns(dir, path, oldPath))
    {
      FilterSelects(prefix, e, path, oldPath);
    }
    if !Narrow(NormalizePrefix(prefix)) && !(IN_TRASH <= dir) { var e := Dropped(prefix); }
  }

  /** Otherwise a file made in the directory is not reported. */
  lemma Dropped(prefix: string) returns (e: Event)
    requires !Narrow(NormalizePrefix(prefix)) && !(IN_TRASH <= Dotless(Components(prefix)))
    ensures var dir := Dotless(Components(prefix));
            && About(e, dir + ["a"], None) && Concerns(dir, dir + ["a"], None)
            && !Selected(e, NormalizePrefix(prefix))
  {
    var dir := Dotless(Components(prefix));
    e := Event(Create, Rooted(dir + ["a"]), None, 2);
    assert Narrow("/");
    assert dir != [];
    assert (dir + ["a"])[0] == dir[0];
    FilterSelects(prefix, e, dir + ["a"], None);
  }

  /** The text of such an event, for a directory at the root. */
  lemma WideChildDropped(name: string)
    requires IsComponent(name) && !Narrow(name)
    ensures NormalizePrefix("/" + name) == "/" + name
    ensures Concerns([name], [name, "a"], None)
    ensures !Selected(Event(Create, "/" + name + "/a", None, 2), "/" + name)
  {
    var e, z := Event(Create, "/" + name + "/a", None, 2), "/" + name;
    OneComponent(name);
    WideBelowRoot(name);
    assert Rooted([name, "a"]) == z + Rooted(["a"]) && Rooted(["a"]) == "/a";
    FilterSelects(z, e, [name, "a"], None);
  }

  lemma WideBelowRoot(name: string)
    requires !Narrow(name)
    ensures !Narrow("/" + name) && name != ".airyfs-trash"
  {
    var k :| 0 <= k < |name| && Wide(name[k]);
    assert ("/" + name)[k + 1] == name[k];
    assert forall i | 0 <= i < |TRASH| :: !Wide(TRASH[i]);
    assert TRASH[1..] == ".airyfs-trash" && forall i | 0 <= i < |TRASH[1..]| :: TRASH[1..][i] == TRASH[i + 1];
  }

  lemma OneComponent(name: string)
    requires IsComponent(name) && !Narrow(name)
    ensures Components("/" + name) == [name] && Dotless([name]) == [name] && NormalizePrefix("/" + name) == "/" + name
  {
    ComponentsOfRooted([name]);
    assert Rooted([name]) == "/" + name;
    assert name != "." && name != "..";
    assert [name][..0] == [] && Dotless([]) == [];
  }

  /** The directory's text and slash are three characters, but four code units. */
  lemma EmojiDropped()
    ensures !Selected(Event(Create, "/\U{1F600}/a", None, 2), NormalizePrefix("/\U{1F600}"))
    ensures Length("/\U{1F600}/") == 4 && |"/\U{1F600}/"| == 3
  {
    var name := "\U{1F600}";
    assert Wide(name[0]);
    WideChildDropped(name);
    assert "/" + name == "/\U{1F600}" && "/" + name + "/a" == "/\U{1F600}/a";
    var z := "/\U{1F600}/";
    assert z[1] == name[0] && z[1..][1..] == z[2..] && z[2..][0] == '/' && z[2..][1..] == "";
    assert Units(z[2..]) == CodeUnits('/') + Units("");
    assert Units(z[1..]) == CodeUnits(name[0]) + Units(z[2..]);
  }

  lemma TrashIsRooted()
    ensures AllComponents(IN_TRASH) && Rooted(IN_TRASH) == TRASH && Narrow(TRASH)
  {
    RootedIsJoin(IN_TRASH);
  }

  // --- The tables -------------------------------------------------------------------

  /** fs_change_feed by seq, and fs_change_sequence. */
  datatype Feed = Feed(rows: map<int, Event>, nextSeq: int)

  const EMPTY := Feed(map[], 1)

  function Latest(f: Feed): int { f.nextSeq - 1 }

  /** INSERT with the retention trigger. */
  function Insert(rows: map<int, Event>, n: int, e: Event): map<int, Event> {
    var all := rows[n := e];
    map k | k in all && k > n - RETENTION :: all[k]
  }

  /** One trigger's rows: one for a create, remove or rename, one for each live link
      for a modify, numbered from next_seq on. */
  function InsertAll(f: Feed, es: seq<Event>): Feed
    decreases |es|
  {
    if es == [] then f else InsertAll(Feed(Insert(f.rows, f.nextSeq, es[0]), f.nextSeq + 1), es[1..])
  }

  function First(latest: int): int { Max(1, latest - RETENTION + 1) }

  /** Of the whole history, exactly the last RETENTION events are retained, under
      their own numbers. */
  ghost predicate Retains(f: Feed, history: seq<Event>) {
    && f.nextSeq == |history| + 1
    && (forall k :: k in f.rows <==> First(|history|) <= k <= |history|)
    && (forall k | k in f.rows :: 1 <= k <= |history| && f.rows[k] == history[k - 1])
  }

  lemma {:induction false} InsertAllRetains(f: Feed, history: seq<Event>, es: seq<Event>)
    requires Retains(f, history)
    ensures Retains(InsertAll(f, es), history + es)
    decreases |es|
  {
    if es == [] {
      assert history + es == history;
    } else {
      var f' := Feed(Insert(f.rows, f.nextSeq, es[0]), f.nextSeq + 1);
      assert Retains(f', history + [es[0]]);
      InsertAllRetains(f', history + [es[0]], es[1..]);
      assert history + [es[0]] + es[1..] == history + es;
    }
  }

  // --- Pages --------------------------------------------------------------------------

  datatype Page = Page(events: seq<(int, Event)>, cursor: int, latest: int, oldest: int, gap: bool)

  /** SELECT min(seq), or latest + 1 of an empty feed. */
  ghost function Oldest(f: Feed): int {
    if f.rows == map[] then f.nextSeq else Least(f.rows.Keys)
  }

  ghost function Least(s: set<int>): (m: int)
    requires s != {}
    ensures m in s && forall k | k in s :: m <= k
    decreases s
  {
    var x := Pick(s);
    var rest := s - {x};
    assert s == rest + {x};
    if rest == {} then x
    else
      var m := Least(rest);
      if x < m then x else m
  }

  function ClampLimit(limit: Option<int>): int {
    match limit
    case None => DEFAULT_LIMIT
    case Some(n) => if n < 1 then 1 else if n > MAX_LIMIT then MAX_LIMIT else n
  }

  /** The rows after `since` up to `last` that `p` selects, in order. */
  function Select(rows: map<int, Event>, since: int, last: int, p: Event -> bool): seq<(int, Event)>
    decreases last - since
  {
    if last <= since then []
    else Select(rows, since, last - 1, p) + if last in rows && p(rows[last]) then [(last, rows[last])] else []
  }

  function Take<T>(s: seq<T>, n: int): seq<T> { if n <= 0 then [] else if |s| <= n then s else s[..n] }

  /** getChanges. None as `since` is 'latest'; a negative one is refused. */
  ghost function GetChanges(f: Feed, since: Option<int>, limit: Option<int>, p: Event -> bool): Option<Page> {
    var latest := Latest(f);
    if since.Some? && since.value < 0 then None
    else
      var from := if since.None? then latest else since.value;
      var events := Take(Select(f.rows, from, latest, p), ClampLimit(limit));
      Some(Page(events, if events == [] then latest else events[|events| - 1].0, latest, Oldest(f),
                since.Some? && from < Oldest(f) - 1))
  }

  /** What a reader may ask for and how much it gets: a negative cursor is refused, without
      a cursor nothing old is told, and a page is as long as the limit allows, 100 without
      one, at least 1 and at most 1000. */
  lemma PageLimits(f: Feed, since: Option<int>, limit: Option<int>, p: Event -> bool)
    ensures GetChanges(f, since, limit, p) == None <==> since.Some? && since.value <= -1
    ensures since == None ==>
              var page := GetChanges(f, since, limit, p).value;
              page.events == [] && page.cursor == f.nextSeq - 1 && page.latest == f.nextSeq - 1 && !page.gap
    ensures since.Some? && since.value >= 0 ==>
              var all := Select(f.rows, since.value, f.nextSeq - 1, p);
              var n := if limit == None then 100 else if limit.value <= 1 then 1
                       else if limit.value >= 1000 then 1000 else limit.value;
              GetChanges(f, since, limit, p).value.events == if |all| <= n then all else all[..n]
  {
  }

  lemma OldestIs(f: Feed, history: seq<Event>)
    requires Retains(f, history)
    ensures Oldest(f) == First(|history|)
  {
    if f.rows == map[] {
      assert |history| !in f.rows;
    } else {
      assert Least(f.rows.Keys) in f.rows;
      assert First(|history|) in f.rows.Keys;
    }
  }

  /** The numbers retained are one block that ends at the latest, also after events
      with several rows and after pruning. */
  lemma OneBlock(f: Feed, history: seq<Event>)
    requires Retains(f, history)
    ensures forall k :: k in f.rows <==> Oldest(f) <= k <= Latest(f)
    ensures Latest(f) - Oldest(f) + 1 == if |history| < RETENTION then |history| else RETENTION
  {
    OldestIs(f, history);
  }

  /** A gap is reported exactly when an event after the cursor has been pruned. */
  lemma GapMeansLoss(f: Feed, history: seq<Event>, since: int, limit: Option<int>, p: Event -> bool)
    requires Retains(f, history) && since >= 0
    ensures GetChanges(f, Some(since), limit, p).value.gap <==> exists k :: since < k <= |history| && k !in f.rows
  {
    OldestIs(f, history);
    if since < Oldest(f) - 1 { assert since + 1 !in f.rows; }
  }

  // --- Following the cursor --------------------------------------------------------------

  /** The events of the history after number `since` up to `last` that `p` selects. */
  function Matching(history: seq<Event>, since: int, last: int, p: Event -> bool): seq<(int, Event)>
    requires 0 <= since && last <= |history|
    decreases last - since
  {
    if last <= since then []
    else Matching(history, since, last - 1, p) + if p(history[last - 1]) then [(last, history[last - 1])] else []
  }

  lemma {:induction false} SelectIsMatching(f: Feed, history: seq<Event>, since: int, last: int, p: Event -> bool)
    requires Retains(f, history) && 0 <= First(|history|) - 1 <= since && last <= |history|
    ensures Select(f.rows, since, last, p) == Matching(history, since, last, p)
    decreases last - since
  {
    if since < last { SelectIsMatching(f, history, since, last - 1, p); }
  }

  predicate Entry(history: seq<Event>, since: int, last: int, p: Event -> bool, x: (int, Event)) {
    0 <= since < x.0 <= last <= |history| && x.1 == history[x.0 - 1] && p(x.1)
  }

  predicate Ordered(m: seq<(int, Event)>) { forall i, j | 0 <= i < j < |m| :: m[i].0 < m[j].0 }

  /** Each number at most once, in increasing order, and selected. */
  lemma {:induction false} MatchingOrdered(history: seq<Event>, since: int, last: int, p: Event -> bool)
    requires 0 <= since && last <= |history|
    ensures Ordered(Matching(history, since, last, p))
    ensures forall x | x in Matching(history, since, last, p) :: Entry(history, since, last, p, x)
    decreases last - since
  {
    if since < last {
      MatchingOrdered(history, since, last - 1, p);
      var m, before := Matching(history, since, last, p), Matching(history, since, last - 1, p);
      forall i | 0 <= i < |before| ensures m[i] == before[i] && m[i].0 < last {
        assert Entry(history, since, last - 1, p, before[i]);
      }
    }
  }

  /** Every selected event is there. */
  lemma {:induction false} MatchingComplete(history: seq<Event>, since: int, last: int, p: Event -> bool, k: int)
    requires 0 <= since < k <= last <= |history| && p(history[k - 1])
    ensures (k, history[k - 1]) in Matching(history, since, last, p)
    decreases last - since
  {
    if k < last { MatchingComplete(history, since, last - 1, p, k); }
  }

  lemma {:induction false} MatchingSplit(history: seq<Event>, since: int, mid: int, last: int, p: Event -> bool)
    requires 0 <= since <= mid <= last <= |history|
    ensures Matching(history, since, last, p) == Matching(history, since, mid, p) + Matching(history, mid, last, p)
    decreases last - mid
  {
    if mid < last {
      MatchingSplit(history, since, mid, last - 1, p);
      var tail := if p(history[last - 1]) then [(last, history[last - 1])] else [];
      assert Matching(history, since, mid, p) + (Matching(history, mid, last - 1, p) + tail)
          == Matching(history, since, mid, p) + Matching(history, mid, last - 1, p) + tail;
    }
  }

  lemma {:induction false} MatchingGrows(history: seq<Event>, more: seq<Event>, since: int, last: int, p: Event -> bool)
    requires 0 <= since && last <= |history|
    ensures Matching(history + more, since, last, p) == Matching(history, since, last, p)
    decreases last - since
  {
    if since < last { MatchingGrows(history, more, since, last - 1, p); }
  }

  /** A page cut off after `n` events ends where the last of them stands. */
  lemma {:induction false} CutPage(history: seq<Event>, since: int, last: int, p: Event -> bool, n: nat)
    requires 0 <= since && last <= |history| && 0 < n <= |Matching(history, since, last, p)|
    ensures var m := Matching(history, since, last, p);
            since < m[n - 1].0 <= last && m[..n] == Matching(history, since, m[n - 1].0, p)
    decreases last - since
  {
    var m, before := Matching(history, since, last, p), Matching(history, since, last - 1, p);
    if n <= |before| {
      CutPage(history, since, last - 1, p, n);
      assert m[..n] == before[..n];
    } else {
      assert m == before + [(last, history[last - 1])];
      assert m[..n] == m;
    }
  }

  /** A poller: where it started, its cursor, what it has seen, whether it was told of
      a gap. */
  datatype Poller = Poller(start: int, cursor: int, seen: seq<(int, Event)>, gap: bool)

  datatype Step = Mutate(es: seq<Event>) | Poll(limit: Option<int>)

  ghost predicate Following(f: Feed, history: seq<Event>, r: Poller, p: Event -> bool) {
    && Retains(f, history) && 0 <= r.start && r.cursor <= |history|
    && (!r.gap ==> r.start <= r.cursor && r.seen == Matching(history, r.start, r.cursor, p))
  }

  ghost function Apply(f: Feed, r: Poller, step: Step, p: Event -> bool): (Feed, Poller) {
    match step
    case Mutate(es) => (InsertAll(f, es), r)
    case Poll(limit) =>
      match GetChanges(f, Some(r.cursor), limit, p)
      case None => (f, r.(gap := true))
      case Some(page) => (f, r.(cursor := page.cursor, seen := r.seen + page.events, gap := r.gap || page.gap))
  }

  ghost function Emitted(step: Step): seq<Event> { if step.Mutate? then step.es else [] }

  lemma PollFollows(f: Feed, history: seq<Event>, r: Poller, limit: Option<int>, p: Event -> bool)
    requires Following(f, history, r, p)
    ensures Following(f, history, Apply(f, r, Poll(limit), p).1, p)
  {
    var r' := Apply(f, r, Poll(limit), p).1;
    if r.cursor >= 0 {
      PageBounds(f, history, r.cursor, limit, p);
      if !r'.gap {
        PageIs(f, history, r.cursor, limit, p);
        MatchingSplit(history, r.start, r.cursor, r'.cursor, p);
      }
    }
  }

  lemma PageBounds(f: Feed, history: seq<Event>, since: int, limit: Option<int>, p: Event -> bool)
    requires Retains(f, history) && 0 <= since
    ensures GetChanges(f, Some(since), limit, p).value.cursor <= |history|
  {
    SelectBounds(f.rows, since, |history|, p);
  }

  /** A page without a gap is the next part of the history. */
  lemma PageIs(f: Feed, history: seq<Event>, since: int, limit: Option<int>, p: Event -> bool)
    requires Retains(f, history) && 0 <= since <= |history| && !GetChanges(f, Some(since), limit, p).value.gap
    ensures var page := GetChanges(f, Some(since), limit, p).value;
            since <= page.cursor <= |history| && page.events == Matching(history, since, page.cursor, p)
  {
    PageParts(f, history, since, limit, p);
    TakeIs(history, since, p, ClampLimit(limit));
  }

  lemma PageParts(f: Feed, history: seq<Event>, since: int, limit: Option<int>, p: Event -> bool)
    requires Retains(f, history) && 0 <= since <= |history| && !GetChanges(f, Some(since), limit, p).value.gap
    ensures var page := GetChanges(f, Some(since), limit, p).value;
            && page.events == Take(Matching(history, since, |history|, p), ClampLimit(limit))
            && page.cursor == if page.events == [] then |history| else page.events[|page.events| - 1].0
  {
    OldestIs(f, history);
    SelectIsMatching(f, history, since, |history|, p);
  }

  lemma TakeIs(history: seq<Event>, since: int, p: Event -> bool, n: int)
    requires 0 <= since <= |history| && 0 < n
    ensures var events := Take(Matching(history, since, |history|, p), n);
            events != [] ==> var cursor := events[|events| - 1].0;
                             since <= cursor <= |history| && events == Matching(history, since, cursor, p)
    ensures Take(Matching(history, since, |history|, p), n) == [] ==> Matching(history, since, |history|, p) == []
  {
    var all := Matching(history, since, |history|, p);
    if all != [] {
      CutPage(history, since, |history|, p, if |all| <= n then |all| else n);
      assert all[..|all|] == all;
    }
  }

  lemma {:induction false} SelectBounds(rows: map<int, Event>, since: int, last: int, p: Event -> bool)
    ensures forall i | 0 <= i < |Select(rows, since, last, p)| :: since < Select(rows, since, last, p)[i].0 <= last
    decreases last - since
  {
    if since < last { SelectBounds(rows, since, last - 1, p); }
  }

  ghost function Run(f: Feed, r: Poller, steps: seq<Step>, p: Event -> bool): (Feed, Poller)
    decreases |steps|
  {
    if steps == [] then (f, r)
    else var (f', r') := Apply(f, r, steps[0], p); Run(f', r', steps[1..], p)
  }

  ghost function History(history: seq<Event>, steps: seq<Step>): seq<Event>
    decreases |steps|
  {
    if steps == [] then history else History(history + Emitted(steps[0]), steps[1..])
  }

  lemma {:induction false} RunFollows(f: Feed, history: seq<Event>, r: Poller, steps: seq<Step>, p: Event -> bool)
    requires Following(f, history, r, p)
    ensures var (f', r') := Run(f, r, steps, p); Following(f', History(history, steps), r', p) && r'.start == r.start
    decreases |steps|
  {
    if steps != [] {
      var (f', r') := Apply(f, r, steps[0], p);
      if steps[0].Mutate? {
        InsertAllRetains(f, history, steps[0].es);
        if !r.gap { MatchingGrows(history, steps[0].es, r.start, r.cursor, p); }
      } else {
        PollFollows(f, history, r, steps[0].limit, p);
        assert history + [] == history;
      }
      RunFollows(f', history + Emitted(steps[0]), r', steps[1..], p);
    }
  }

  /** Whoever follows the cursor from any point of a feed's life, with any mutations
      between its polls, any page sizes and any filter, has seen each selected event
      between its start and its cursor exactly once and in order, unless some page
      told it of a gap. */
  lemma FollowerSeesAll(f: Feed, history: seq<Event>, start: int, steps: seq<Step>, p: Event -> bool)
    requires Retains(f, history) && 0 <= start <= |history|
    ensures var (f', r) := Run(f, Poller(start, start, [], false), steps, p);
            var now := History(history, steps);
            && Retains(f', now)
            && (!r.gap ==> start <= r.cursor <= |now| && r.seen == Matching(now, start, r.cursor, p))
  {
    RunFollows(f, history, Poller(start, start, [], false), steps, p);
  }

  /** An empty page leaves nothing unseen, and any other moves the cursor on. */
  lemma PollProgress(f: Feed, history: seq<Event>, r: Poller, limit: Option<int>, p: Event -> bool)
    requires Following(f, history, r, p) && r.cursor >= 0
    ensures var r' := Apply(f, r, Poll(limit), p).1;
            if r'.seen == r.seen then r'.cursor == |history| else r'.cursor > r.cursor
  {
    SelectBounds(f.rows, r.cursor, |history|, p);
    var all := Select(f.rows, r.cursor, |history|, p);
    var page := Take(all, ClampLimit(limit));
    assert r.seen + page == r.seen <==> page == [] by {
      assert |r.seen + page| == |r.seen| + |page|;
    }
  }

  // --- The feed as the triggers and the query run it ------------------------------------------

  class ChangeFeed {
    var rows: map<int, Event>
    var nextSeq: int

    function View(): Feed
      reads this
    {
      Feed(rows, nextSeq)
    }

    constructor ()
      ensures View() == EMPTY
    {
      rows, nextSeq := map[], 1;
    }

    /** The body of one trigger. */
    method Emit(es: seq<Event>)
      modifies this
      ensures View() == InsertAll(old(View()), es)
    {
      assert es[0..] == es;
      for i := 0 to |es|
        invariant InsertAll(View(), es[i..]) == InsertAll(old(View()), es)
      {
        assert es[i..][1..] == es[i + 1..];
        rows := rows[nextSeq := es[i]];
        rows := map k | k in rows && k > nextSeq - RETENTION :: rows[k];
        nextSeq := nextSeq + 1;
      }
    }

    /** The rows after `since` in order, up to the limit. */
    method Query(since: int, limit: int, p: Event -> bool) returns (events: seq<(int, Event)>)
      requires limit > 0
      ensures events == Take(Select(rows, since, Latest(View()), p), limit)
    {
      events := [];
      var last := since;
      while last < nextSeq - 1 && |events| < limit
        invariant last <= Max(since, nextSeq - 1) && since <= last
        invariant events == Select(rows, since, last, p) && |events| <= limit
        decreases nextSeq - last
      {
        last := last + 1;
        if last in rows && p(rows[last]) { events := events + [(last, rows[last])]; }
      }
      if last <= nextSeq - 1 { SelectPrefix(rows, since, last, nextSeq - 1, p); }
    }
  }

  lemma {:induction false} SelectPrefix(rows: map<int, Event>, since: int, mid: int, last: int, p: Event -> bool)
    requires since <= mid <= last
    ensures Select(rows, since, mid, p) <= Select(rows, since, last, p)
    decreases last - mid
  {
    if mid < last { SelectPrefix(rows, since, mid, last - 1, p); }
  }
}
