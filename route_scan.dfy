/**
 * The route scan of `generateControllerTree` (extension/CartridgeOverridesProvider.js):
 * the six `server.<verb>(...)` patterns matched over a controller's text,
 * and the line each route is reported at.
 */
module RouteScan {
  import opened Strings
  import opened Wrappers
  import opened Dicts
  import opened OverrideIndex

  /** The route-registering calls of the SFRA `server` module. */
  datatype Verb = Get | Post | Use | Append | Prepend | Replace

  function VerbName(v: Verb): string {
    match v
    case Get => "get"
    case Post => "post"
    case Use => "use"
    case Append => "append"
    case Prepend => "prepend"
    case Replace => "replace"
  }

  lemma VerbNamesDistinct(v: Verb, w: Verb)
    ensures VerbName(v) == VerbName(w) <==> v == w
  {
  }

  /** The literal start of a pattern, `server\.<verb>\(`. */
  function RoutePrefix(v: Verb): string {
    "server." + VerbName(v) + "("
  }

  /** The text `line.includes(...)` looks for, `server.<verb>` without the parenthesis. */
  function RouteCall(v: Verb): string {
    "server." + VerbName(v)
  }

  predicate IsQuote(c: char) {
    c == '\'' || c == '"'
  }

  /** No quote among `t[a..b]`: the class `[^'"]`, which matches line breaks too. */
  predicate NoQuoteIn(t: string, a: nat, b: nat)
    requires a <= b <= |t|
  {
    forall j :: a <= j < b ==> !IsQuote(t[j])
  }

  /** The first quote at or after `from`, or -1. */
  function QuoteFrom(t: string, from: nat): (r: int)
    requires from <= |t|
    ensures r == -1 || (from <= r < |t| && IsQuote(t[r]))
    ensures r == -1 ==> NoQuoteIn(t, from, |t|)
    ensures r >= 0 ==> NoQuoteIn(t, from, r)
    decreases |t| - from
  {
    if from == |t| then -1
    else if IsQuote(t[from]) then from
    else QuoteFrom(t, from + 1)
  }

  /**
   * The regular expression `server\.<verb>\(([^'"]+)?['"]([^'"]+)['"]`
   * matches at `i` with its quotes at `q1` and `q2`: group 1 is
   * `t[i + |prefix|..q1]` (maybe empty), group 2 is `t[q1 + 1..q2]`.
   */
  predicate RouteAt(t: string, v: Verb, i: nat, q1: nat, q2: nat) {
    && OccursAt(t, RoutePrefix(v), i)
    && i + |RoutePrefix(v)| <= q1 && q1 + 1 < q2 < |t|
    && IsQuote(t[q1]) && IsQuote(t[q2])
    && NoQuoteIn(t, i + |RoutePrefix(v)|, q1) && NoQuoteIn(t, q1 + 1, q2)
  }

  /**
   * The match starting at `i`, as its group 2 and the index right after it.
   * Greedy `[^'"]+` can only stop at a quote, so the first two quotes after
   * the prefix decide the match.
   */
  function MatchRouteAt(t: string, v: Verb, i: nat): (r: Option<(string, nat)>)
    requires i <= |t|
    ensures r.Some? ==> i < r.value.1 <= |t|
  {
    var p := RoutePrefix(v);
    if !OccursAt(t, p, i) then None
    else
      var q1 := QuoteFrom(t, i + |p|);
      if q1 < 0 then None
      else
        var q2 := QuoteFrom(t, q1 + 1);
        if q2 < 0 || q2 == q1 + 1 then None
        else Some((t[q1 + 1..q2], q2 + 1))
  }

  /** What MatchRouteAt finds is a match of the pattern, and the pattern matches at `i` only so. */
  lemma MatchRouteAtIsRegex(t: string, v: Verb, i: nat)
    requires i <= |t|
    ensures var r := MatchRouteAt(t, v, i);
      r.Some? ==> RouteAt(t, v, i, QuoteFrom(t, i + |RoutePrefix(v)|), r.value.1 - 1)
                  && r.value.0 == t[QuoteFrom(t, i + |RoutePrefix(v)|) + 1..r.value.1 - 1]
    ensures forall q1: nat, q2: nat :: RouteAt(t, v, i, q1, q2) ==> MatchRouteAt(t, v, i) == Some((t[q1 + 1..q2], q2 + 1))
  {
    var p := RoutePrefix(v);
    forall q1: nat, q2: nat | RouteAt(t, v, i, q1, q2) ensures MatchRouteAt(t, v, i) == Some((t[q1 + 1..q2], q2 + 1)) {
      var f1 := QuoteFrom(t, i + |p|);
      assert f1 == q1;
      var f2 := QuoteFrom(t, q1 + 1);
      assert f2 == q2;
    }
  }

  /**
   * `[...text.matchAll(pattern)]` from `from` on, as the route names
   * (group 2); the scan resumes right after each match.
   */
  function FindRoutes(t: string, v: Verb, from: nat): seq<string>
    requires from <= |t|
    decreases |t| - from
  {
    match MatchRouteAt(t, v, from)
    case Some((name, end)) => [name] + FindRoutes(t, v, end)
    case None => if from < |t| then FindRoutes(t, v, from + 1) else []
  }

  /** A name is non-empty and free of quotes. */
  predicate CleanName(name: string) {
    |name| > 0 && forall c :: c in name ==> !IsQuote(c)
  }

  /** The name of a match is the text between its two quotes. */
  lemma MatchNameClean(t: string, v: Verb, i: nat)
    requires i <= |t|
    requires MatchRouteAt(t, v, i).Some?
    ensures CleanName(MatchRouteAt(t, v, i).value.0)
  {
    var q1 := QuoteFrom(t, i + |RoutePrefix(v)|);
    var q2 := QuoteFrom(t, q1 + 1);
    var name := t[q1 + 1..q2];
    assert MatchRouteAt(t, v, i).value.0 == name;
    forall c | c in name ensures !IsQuote(c) {
      var j :| 0 <= j < |name| && name[j] == c;
      assert name[j] == t[q1 + 1 + j];
    }
  }

  /** Every name found is the non-empty, quote-free text between two quotes after a `server.<verb>(`. */
  lemma {:induction false} FindRoutesNames(t: string, v: Verb, from: nat)
    requires from <= |t|
    ensures forall k :: 0 <= k < |FindRoutes(t, v, from)| ==> CleanName(FindRoutes(t, v, from)[k])
    decreases |t| - from
  {
    var m := MatchRouteAt(t, v, from);
    if m.Some? {
      var end := m.value.1;
      FindRoutesNames(t, v, end);
      MatchNameClean(t, v, from);
      var r := FindRoutes(t, v, from);
      var rest := FindRoutes(t, v, end);
      assert r == [m.value.0] + rest;
      assert forall k :: 1 <= k < |r| ==> r[k] == rest[k - 1];
    } else if from < |t| {
      FindRoutesNames(t, v, from + 1);
    }
  }

  /** A text without the prefix anywhere has no routes of that verb. */
  lemma {:induction false} FindRoutesNeedPrefix(t: string, v: Verb, from: nat)
    requires from <= |t|
    requires forall i :: from <= i ==> !OccursAt(t, RoutePrefix(v), i)
    ensures FindRoutes(t, v, from) == []
    decreases |t| - from
  {
    if from < |t| {
      FindRoutesNeedPrefix(t, v, from + 1);
    }
  }

  // ---------------------------------------------------------------------
  // Line numbers

  /**
   * Line `i` reports the route: it holds `server.<verb>` and the name is on
   * it or on the line after (a missing next line holds nothing).
   */
  predicate Qualifies(lines: seq<string>, v: Verb, name: string, i: nat)
    requires i < |lines|
  {
    Contains(lines[i], RouteCall(v))
    && (Contains(lines[i], name) || (i + 1 < |lines| && Contains(lines[i + 1], name)))
  }

  /** The 1-based number of the first line from `i` on that reports the route. */
  function LineNumberFrom(lines: seq<string>, v: Verb, name: string, i: nat): (r: Option<nat>)
    requires i <= |lines|
    ensures r.Some? ==> i < r.value <= |lines|
    decreases |lines| - i
  {
    if i == |lines| then None
    else if Qualifies(lines, v, name, i) then Some(i + 1)
    else LineNumberFrom(lines, v, name, i + 1)
  }

  /** The line number of a route, `null` when no line reports it. */
  function LineNumber(lines: seq<string>, v: Verb, name: string): Option<nat> {
    LineNumberFrom(lines, v, name, 0)
  }

  /** A line number found is that of a reporting line ... */
  lemma {:induction false} LineNumberReports(lines: seq<string>, v: Verb, name: string, i: nat, k: nat)
    requires i <= |lines|
    requires LineNumberFrom(lines, v, name, i) == Some(k + 1)
    ensures k < |lines| && Qualifies(lines, v, name, k)
    decreases |lines| - i
  {
    if !Qualifies(lines, v, name, i) {
      LineNumberReports(lines, v, name, i + 1, k);
    }
  }

  /** ... and no line between `i` and it reports the route. */
  lemma {:induction false} LineNumberFirst(lines: seq<string>, v: Verb, name: string, i: nat, k: nat)
    requires i <= |lines|
    requires LineNumberFrom(lines, v, name, i) == Some(k + 1)
    ensures forall j :: i <= j < k ==> !Qualifies(lines, v, name, j)
    decreases |lines| - i
  {
    if !Qualifies(lines, v, name, i) {
      LineNumberFirst(lines, v, name, i + 1, k);
      forall j | i <= j < k
        ensures !Qualifies(lines, v, name, j)
      {
        if j > i {
          assert i + 1 <= j < k;
        }
      }
    } else {
      assert k == i;
    }
  }

  /** There is no line number exactly when no line from `i` on reports the route. */
  lemma {:induction false} LineNumberNone(lines: seq<string>, v: Verb, name: string, i: nat)
    requires i <= |lines|
    ensures LineNumberFrom(lines, v, name, i).None? <==> forall j :: i <= j < |lines| ==> !Qualifies(lines, v, name, j)
    decreases |lines| - i
  {
    if i < |lines| {
      LineNumberNone(lines, v, name, i + 1);
    }
  }

  /**
   * The loop of the code AS WRITTEN: `nextLine.includes(routeName)` is
   * evaluated whenever the line holds `server.<verb>` but not the name, and
   * on the last line `nextLine` is `undefined`, so that throws (outer None).
   */
  function LineNumberAsWrittenFrom(lines: seq<string>, v: Verb, name: string, i: nat): Option<Option<nat>>
    requires i <= |lines|
    decreases |lines| - i
  {
    if i == |lines| then Some(None)
    else
      var call := Contains(lines[i], RouteCall(v));
      if call && Contains(lines[i], name) then Some(Some(i + 1))
      else if call && i + 1 == |lines| then None
      else if call && Contains(lines[i + 1], name) then Some(Some(i + 1))
      else LineNumberAsWrittenFrom(lines, v, name, i + 1)
  }

  /**
   * The code as written throws exactly when no line reports the route and
   * the last line holds `server.<verb>`; otherwise it finds the corrected
   * line number.
   */
  lemma {:induction false} LineNumberCorrects(lines: seq<string>, v: Verb, name: string, i: nat)
    requires i < |lines|
    ensures var w := LineNumberAsWrittenFrom(lines, v, name, i);
      && (w.None? <==> LineNumberFrom(lines, v, name, i).None? && Contains(lines[|lines| - 1], RouteCall(v)))
      && (w.Some? ==> w.value == LineNumberFrom(lines, v, name, i))
    decreases |lines| - i
  {
    if i + 1 < |lines| {
      LineNumberCorrects(lines, v, name, i + 1);
    }
  }

  /**
   * A controller `server.get(`, a blank line, `'Show')`, `server.get`: the
   * pattern matches across the line breaks and finds the route `Show`, no
   * line reports it, and the last line holds `server.get`, so the loop as
   * written throws while the corrected search reports no line.
   */
  lemma LastLineThrows()
    ensures |RouteNames(LastLineText(), Get)| > 0 && RouteNames(LastLineText(), Get)[0] == "Show"
    ensures LineNumberAsWrittenFrom(Lines(LastLineText()), Get, "Show", 0).None?
    ensures LineNumber(Lines(LastLineText()), Get, "Show").None?
  {
    LastLineMatch();
    LastLineLines();
    LastLineSearch(LastLineParts());
  }

  function LastLineText(): string {
    "server.get(\n\n'Show')\nserver.get"
  }

  function LastLineParts(): seq<string> {
    ["server.get(", "", "'Show')", "server.get"]
  }

  lemma LastLineLines()
    ensures Lines(LastLineText()) == LastLineParts()
  {
    assert Join(LastLineParts(), "\n") == LastLineText();
    SplitJoin(LastLineParts(), '\n');
  }

  /** The pattern matches at the start, its quotes at 13 and 18. */
  lemma LastLineMatch()
    ensures MatchRouteAt(LastLineText(), Get, 0) == Some(("Show", 19))
  {
    var t := LastLineText();
    assert t[..11] == RoutePrefix(Get);
    assert t[11] == '\n' && t[12] == '\n' && t[13] == '\'';
    assert t[14] == 'S' && t[15] == 'h' && t[16] == 'o' && t[17] == 'w' && t[18] == '\'';
    assert t[14..18] == "Show";
    LastLineQuotes(t);
  }

  lemma LastLineQuotes(t: string)
    requires |t| == 31
    requires t[11] == '\n' && t[12] == '\n' && t[13] == '\''
    requires t[14] == 'S' && t[15] == 'h' && t[16] == 'o' && t[17] == 'w' && t[18] == '\''
    ensures QuoteFrom(t, 11) == 13 && QuoteFrom(t, 14) == 18
  {
    QuoteSkip(t, 11);
    QuoteSkip(t, 12);
    QuoteSkip(t, 14);
    QuoteSkip(t, 15);
    QuoteSkip(t, 16);
    QuoteSkip(t, 17);
  }

  /** A character that is not a quote is passed over. */
  lemma QuoteSkip(t: string, from: nat)
    requires from < |t| && !IsQuote(t[from])
    ensures QuoteFrom(t, from) == QuoteFrom(t, from + 1)
  {
  }

  /** No line of the four reports `Show`, and the last holds `server.get`. */
  lemma LastLineSearch(lines: seq<string>)
    requires lines == LastLineParts()
    ensures LineNumberAsWrittenFrom(lines, Get, "Show", 0).None?
    ensures LineNumber(lines, Get, "Show").None?
  {
    NotContained(lines[0], "Show");
    NotContained(lines[3], "Show");
    NotContained(lines[2], RouteCall(Get));
    assert !Contains(lines[1], "Show");
    assert OccursAt(lines[3], RouteCall(Get), 0);
    ContainsIff(lines[3], RouteCall(Get));
    LineNumberNone(lines, Get, "Show", 0);
    LineNumberCorrects(lines, Get, "Show", 0);
  }

  /** A string without the first character of `s` does not contain `s`. */
  lemma NotContained(t: string, s: string)
    requires |s| > 0 && s[0] !in t
    ensures !Contains(t, s)
  {
    ContainsIff(t, s);
  }

  /** The test of one line, with a missing next line read as holding nothing. */
  method TestLine(lines: seq<string>, v: Verb, name: string, i: nat) returns (found: bool)
    requires i < |lines|
    ensures found == Qualifies(lines, v, name, i)
  {
    var line := lines[i];
    found := Contains(line, RouteCall(v)) && Contains(line, name);
    if !found && i + 1 < |lines| {
      found := Contains(line, RouteCall(v)) && Contains(lines[i + 1], name);
    }
  }

  /** The `for` loop with its `break`. */
  method SearchLineNumber(lines: seq<string>, v: Verb, name: string) returns (n: Option<nat>)
    ensures n == LineNumber(lines, v, name)
  {
    n := None;
    var i := 0;
    while i < |lines|
      invariant 0 <= i <= |lines|
      invariant LineNumberFrom(lines, v, name, i) == LineNumber(lines, v, name)
    {
      var found := TestLine(lines, v, name, i);
      if found {
        n := Some(i + 1);
        return;
      }
      i := i + 1;
    }
  }

  // ---------------------------------------------------------------------
  // The routes table

  /** `text.split('\n')`. */
  function Lines(text: string): seq<string> {
    Split(text, '\n')
  }

  /** The names of the routes of verb `v` in the text, in text order. */
  function RouteNames(text: string, v: Verb): seq<string> {
    FindRoutes(text, v, 0)
  }

  /** One found route: `{name, resourceUri, position, type, lineNumber, tooltip}`. */
  datatype Route = Route(name: string, resource: Option<string>, position: int, verb: Verb,
                         lineNumber: Option<nat>, tooltip: string)

  /** `server.<verb>('<name>')`. */
  function RouteTooltip(v: Verb, name: string): string {
    "server." + VerbName(v) + "('" + name + "')"
  }

  /** `routes[verb][cartridge]`: lists of routes by verb name, then by cartridge. */
  type Routes = Dict<Dict<seq<Route>>>

  /** The record pushed for a route of `o`'s file whose text has these lines. */
  function RouteRecord(o: Occurrence, lines: seq<string>, v: Verb, name: string): Route {
    Route(name, o.resource, o.position, v, LineNumber(lines, v, name), RouteTooltip(v, name))
  }

  /** The records for the names, in order. */
  function Records(o: Occurrence, lines: seq<string>, v: Verb, names: seq<string>): seq<Route> {
    seq(|names|, k requires 0 <= k < |names| => RouteRecord(o, lines, v, names[k]))
  }

  /**
   * `foundX.forEach(...)`: every name's record pushed onto
   * `routes[verb][o.cartridge]`, which exists only once something was pushed.
   */
  function AddRoutes(routes: Routes, o: Occurrence, lines: seq<string>, v: Verb, names: seq<string>): Routes {
    PushAll(routes, VerbName(v), o.cartridge, Records(o, lines, v, names))
  }

  /** The verbs in the order the code scans them: the three standard ones, then the three override ones. */
  function VerbAt(k: nat): Verb
    requires k < 6
  {
    if k == 0 then Get else if k == 1 then Post else if k == 2 then Use
    else if k == 3 then Append else if k == 4 then Prepend else Replace
  }

  /** The place of a verb in that order. */
  function VerbIndex(v: Verb): (k: nat)
    ensures k < 6 && VerbAt(k) == v
  {
    match v
    case Get => 0
    case Post => 1
    case Use => 2
    case Append => 3
    case Prepend => 4
    case Replace => 5
  }

  lemma VerbAtIndex(j: nat)
    requires j < 6
    ensures VerbIndex(VerbAt(j)) == j
  {
    if j == 0 {
    } else if j == 1 {
    } else if j == 2 {
    } else if j == 3 {
    } else if j == 4 {
    } else {
    }
  }

  /** The first `k` of the six scans of one file. */
  function ScanVerbs(routes: Routes, o: Occurrence, text: string, k: nat): Routes
    requires k <= 6
  {
    if k == 0 then routes
    else AddRoutes(ScanVerbs(routes, o, text, k - 1), o, Lines(text), VerbAt(k - 1), RouteNames(text, VerbAt(k - 1)))
  }

  /** The six scans of one file, in the order the code runs them. */
  function ScanFile(routes: Routes, o: Occurrence, text: string): Routes {
    ScanVerbs(routes, o, text, 6)
  }

  /**
   * The walk over a reversed copy of the occurrences: the files from the last
   * override to the first; `texts[i]` is the text of `os[i]`'s document,
   * and the files `os[..n]` are left to scan.
   */
  function ScanAll(routes: Routes, os: seq<Occurrence>, texts: seq<string>, n: nat): Routes
    requires n <= |os| == |texts|
    decreases n
  {
    if n == 0 then routes
    else ScanAll(ScanFile(routes, os[n - 1], texts[n - 1]), os, texts, n - 1)
  }

  /** `ScanAll` at `n` is the scan of file `m` followed by `ScanAll` at `m`, for `n == m + 1`. */
  lemma ScanAllUnfold(routes: Routes, os: seq<Occurrence>, texts: seq<string>, n: nat, m: nat)
    requires n == m + 1 && n <= |os| == |texts|
    ensures ScanAll(routes, os, texts, n) == ScanAll(ScanFile(routes, os[m], texts[m]), os, texts, m)
  {
  }

  /** What one file contributes under verb `v` and cartridge `c`: its routes of that verb, if it belongs to `c`. */
  function FileRecords(o: Occurrence, text: string, v: Verb, c: string): seq<Route> {
    if c == o.cartridge then Records(o, Lines(text), v, RouteNames(text, v)) else []
  }

  /** What the files `os[..n]` contribute under `v` and `c`, last file first. */
  function AllRecords(os: seq<Occurrence>, texts: seq<string>, n: nat, v: Verb, c: string): seq<Route>
    requires n <= |os| == |texts|
  {
    if n == 0 then []
    else FileRecords(os[n - 1], texts[n - 1], v, c) + AllRecords(os, texts, n - 1, v, c)
  }

  /** The scan of verb `w` only adds to `routes[w][o.cartridge]`. */
  lemma AddRoutesContents(routes: Routes, o: Occurrence, lines: seq<string>, w: Verb, names: seq<string>, v: Verb, c: string)
    ensures Get2(AddRoutes(routes, o, lines, w, names), VerbName(v), c) ==
      Get2(routes, VerbName(v), c) + (if w == v && c == o.cartridge then Records(o, lines, w, names) else [])
  {
    VerbNamesDistinct(v, w);
    PushAllGet(routes, VerbName(w), o.cartridge, Records(o, lines, w, names), VerbName(v), c);
  }

  /** The first `k` scans add to `routes[v][c]` only when `v` is among them. */
  lemma {:induction false} ScanVerbsContents(routes: Routes, o: Occurrence, text: string, k: nat, v: Verb, c: string)
    requires k <= 6
    ensures Get2(ScanVerbs(routes, o, text, k), VerbName(v), c)
      == Get2(routes, VerbName(v), c) + (if VerbIndex(v) < k then FileRecords(o, text, v, c) else [])
    decreases k, 1
  {
    if k > 0 {
      ScanVerbsContentsStep(routes, o, text, k - 1, v, c);
    } else {
      assert Get2(routes, VerbName(v), c) + [] == Get2(routes, VerbName(v), c);
    }
  }

  lemma {:induction false} ScanVerbsContentsStep(routes: Routes, o: Occurrence, text: string, j: nat, v: Verb, c: string)
    requires j < 6
    ensures Get2(ScanVerbs(routes, o, text, j + 1), VerbName(v), c)
      == Get2(routes, VerbName(v), c) + (if VerbIndex(v) < j + 1 then FileRecords(o, text, v, c) else [])
    decreases j + 1, 0
  {
    var prev := ScanVerbs(routes, o, text, j);
    var w := VerbAt(j);
    assert Get2(prev, VerbName(v), c) == Get2(routes, VerbName(v), c) + (if VerbIndex(v) < j then FileRecords(o, text, v, c) else []) by {
      ScanVerbsContents(routes, o, text, j, v, c);
    }
    AddRoutesContents(prev, o, Lines(text), w, RouteNames(text, w), v, c);
    VerbAtIndex(j);
    if VerbIndex(v) == j {
      assert Get2(routes, VerbName(v), c) + [] == Get2(routes, VerbName(v), c);
    } else {
      assert Get2(routes, VerbName(v), c) + (if VerbIndex(v) < j then FileRecords(o, text, v, c) else []) + [] ==
        Get2(routes, VerbName(v), c) + (if VerbIndex(v) < j then FileRecords(o, text, v, c) else []);
    }
  }

  /** The scans of one file add its routes of each verb under its cartridge, and nothing else. */
  lemma ScanFileContents(routes: Routes, o: Occurrence, text: string, v: Verb, c: string)
    ensures Get2(ScanFile(routes, o, text), VerbName(v), c) == Get2(routes, VerbName(v), c) + FileRecords(o, text, v, c)
  {
    ScanVerbsContents(routes, o, text, 6, v, c);
  }

  /** One step of the scan, with the scanned table named but not unfolded. */
  lemma ScanAllStep(routes: Routes, os: seq<Occurrence>, texts: seq<string>, m: nat, v: Verb, c: string) returns (mid: Routes)
    requires m < |os| == |texts|
    ensures Get2(ScanAll(routes, os, texts, m + 1), VerbName(v), c) == Get2(ScanAll(mid, os, texts, m), VerbName(v), c)
    ensures Get2(mid, VerbName(v), c) == Get2(routes, VerbName(v), c) + FileRecords(os[m], texts[m], v, c)
  {
    mid := ScanFile(routes, os[m], texts[m]);
    ScanFileContents(routes, os[m], texts[m], v, c);
  }

  /**
   * What the scan collects: under every verb and cartridge, the routes of
   * that verb in every file of that cartridge, files from the last override
   * to the first, routes in text order.
   */
  lemma {:induction false} ScanAllContents(routes: Routes, os: seq<Occurrence>, texts: seq<string>, n: nat, v: Verb, c: string)
    requires n <= |os| == |texts|
    ensures Get2(ScanAll(routes, os, texts, n), VerbName(v), c) == Get2(routes, VerbName(v), c) + AllRecords(os, texts, n, v, c)
    decreases n, 1
  {
    if n > 0 {
      ScanAllContentsStep(routes, os, texts, n - 1, v, c);
    } else {
      assert Get2(routes, VerbName(v), c) + [] == Get2(routes, VerbName(v), c);
    }
  }

  /** The induction step of `ScanAllContents`: the scan of file `m`, then of the files before it. */
  lemma {:induction false} ScanAllContentsStep(routes: Routes, os: seq<Occurrence>, texts: seq<string>, m: nat, v: Verb, c: string)
    requires m < |os| == |texts|
    ensures Get2(ScanAll(routes, os, texts, m + 1), VerbName(v), c) == Get2(routes, VerbName(v), c) + AllRecords(os, texts, m + 1, v, c)
    decreases m + 1, 0
  {
    var mid := ScanAllStep(routes, os, texts, m, v, c);
    assert Get2(ScanAll(mid, os, texts, m), VerbName(v), c) == Get2(mid, VerbName(v), c) + AllRecords(os, texts, m, v, c) by {
      ScanAllContents(mid, os, texts, m, v, c);
    }
    AppendChain(Get2(ScanAll(routes, os, texts, m + 1), VerbName(v), c), Get2(ScanAll(mid, os, texts, m), VerbName(v), c),
      Get2(mid, VerbName(v), c), Get2(routes, VerbName(v), c), FileRecords(os[m], texts[m], v, c), AllRecords(os, texts, m, v, c));
  }

  /** The table is well formed: valid on both levels, no empty list, and keyed by verb names only. */
  ghost predicate WellFormed(routes: Routes) {
    && NestedValid(routes) && NoEmptyList(routes)
    && forall k :: k in routes.values ==> exists v: Verb :: k == VerbName(v)
  }

  lemma AddRoutesWellFormed(routes: Routes, o: Occurrence, lines: seq<string>, v: Verb, names: seq<string>)
    requires WellFormed(routes)
    ensures WellFormed(AddRoutes(routes, o, lines, v, names))
  {
    var recs := Records(o, lines, v, names);
    PushAllValid(routes, VerbName(v), o.cartridge, recs);
    PushAllNoEmptyList(routes, VerbName(v), o.cartridge, recs);
    if |names| > 0 {
      PushAllKeys(routes, VerbName(v), o.cartridge, recs);
    }
  }

  lemma {:induction false} ScanVerbsWellFormed(routes: Routes, o: Occurrence, text: string, k: nat)
    requires k <= 6
    requires WellFormed(routes)
    ensures WellFormed(ScanVerbs(routes, o, text, k))
    decreases k, 1
  {
    if k > 0 {
      ScanVerbsWellFormedStep(routes, o, text, k - 1);
    }
  }

  lemma {:induction false} ScanVerbsWellFormedStep(routes: Routes, o: Occurrence, text: string, j: nat)
    requires j < 6
    requires WellFormed(routes)
    ensures WellFormed(ScanVerbs(routes, o, text, j + 1))
    decreases j + 1, 0
  {
    ScanVerbsWellFormed(routes, o, text, j);
    AddRoutesWellFormed(ScanVerbs(routes, o, text, j), o, Lines(text), VerbAt(j), RouteNames(text, VerbAt(j)));
  }

  lemma ScanFileWellFormed(routes: Routes, o: Occurrence, text: string)
    requires WellFormed(routes)
    ensures WellFormed(ScanFile(routes, o, text))
  {
    ScanVerbsWellFormed(routes, o, text, 6);
  }

  /** The scan keeps the table well formed, starting from the empty one. */
  lemma {:induction false} ScanAllWellFormed(routes: Routes, os: seq<Occurrence>, texts: seq<string>, n: nat)
    requires n <= |os| == |texts|
    requires WellFormed(routes)
    ensures WellFormed(ScanAll(routes, os, texts, n))
    decreases n, 1
  {
    if n > 0 {
      ScanAllWellFormedStep(routes, os, texts, n - 1);
    }
  }

  /** The induction step of `ScanAllWellFormed`. */
  lemma {:induction false} ScanAllWellFormedStep(routes: Routes, os: seq<Occurrence>, texts: seq<string>, m: nat)
    requires m < |os| == |texts|
    requires WellFormed(routes)
    ensures WellFormed(ScanAll(routes, os, texts, m + 1))
    decreases m + 1, 0
  {
    ScanFileWellFormed(routes, os[m], texts[m]);
    ScanAllWellFormed(ScanFile(routes, os[m], texts[m]), os, texts, m);
  }

  /**
   * A cartridge with a single file among the overrides (the usual case) ends
   * up with exactly that file's routes of each verb, in text order.
   */
  lemma {:induction false} SingleFileRoutes(os: seq<Occurrence>, texts: seq<string>, n: nat, j: nat, v: Verb)
    requires n <= |os| == |texts| && j < n
    requires forall i :: 0 <= i < n && i != j ==> os[i].cartridge != os[j].cartridge
    ensures AllRecords(os, texts, n, v, os[j].cartridge)
      == Records(os[j], Lines(texts[j]), v, RouteNames(texts[j], v))
  {
    if j == n - 1 {
      NoOtherFile(os, texts, n - 1, os[j].cartridge, v);
    } else {
      SingleFileRoutes(os, texts, n - 1, j, v);
    }
  }

  lemma {:induction false} NoOtherFile(os: seq<Occurrence>, texts: seq<string>, n: nat, c: string, v: Verb)
    requires n <= |os| == |texts|
    requires forall i :: 0 <= i < n ==> os[i].cartridge != c
    ensures AllRecords(os, texts, n, v, c) == []
  {
    if n > 0 {
      NoOtherFile(os, texts, n - 1, c, v);
    }
  }

  // ---------------------------------------------------------------------
  // The scan, as loops

  /** Adding the routes of one more name is one more push. */
  lemma AddRoutesSnoc(routes: Routes, o: Occurrence, lines: seq<string>, v: Verb, names: seq<string>, k: nat)
    requires k < |names|
    ensures AddRoutes(routes, o, lines, v, names[..k + 1])
      == Push(AddRoutes(routes, o, lines, v, names[..k]), VerbName(v), o.cartridge, RouteRecord(o, lines, v, names[k]))
  {
    var x := RouteRecord(o, lines, v, names[k]);
    assert Records(o, lines, v, names[..k + 1]) == Records(o, lines, v, names[..k]) + [x];
    PushAllSnoc(routes, VerbName(v), o.cartridge, Records(o, lines, v, names[..k]), x);
  }

  /** `foundX.forEach(...)` for one verb, each route's line found by `SearchLineNumber`. */
  method PushRoutes(routes: Routes, o: Occurrence, lines: seq<string>, v: Verb, names: seq<string>) returns (r: Routes)
    ensures r == AddRoutes(routes, o, lines, v, names)
  {
    r := routes;
    var k := 0;
    while k < |names|
      invariant k <= |names|
      invariant r == AddRoutes(routes, o, lines, v, names[..k])
    {
      var n := SearchLineNumber(lines, v, names[k]);
      var x := Route(names[k], o.resource, o.position, v, n, RouteTooltip(v, names[k]));
      AddRoutesSnoc(routes, o, lines, v, names, k);
      r := Push(r, VerbName(v), o.cartridge, x);
      k := k + 1;
    }
    assert names[..k] == names;
  }

  /** The body of the `forEach` over one override: the six scans in order. */
  method ScanDocument(routes: Routes, o: Occurrence, text: string) returns (r: Routes)
    ensures r == ScanFile(routes, o, text)
  {
    var lines := Split(text, '\n');
    r := PushRoutes(routes, o, lines, Get, FindRoutes(text, Get, 0));
    assert r == ScanVerbs(routes, o, text, 1);
    r := PushRoutes(r, o, lines, Post, FindRoutes(text, Post, 0));
    assert r == ScanVerbs(routes, o, text, 2);
    r := PushRoutes(r, o, lines, Use, FindRoutes(text, Use, 0));
    assert r == ScanVerbs(routes, o, text, 3);
    r := PushRoutes(r, o, lines, Append, FindRoutes(text, Append, 0));
    assert r == ScanVerbs(routes, o, text, 4);
    r := PushRoutes(r, o, lines, Prepend, FindRoutes(text, Prepend, 0));
    assert r == ScanVerbs(routes, o, text, 5);
    r := PushRoutes(r, o, lines, Replace, FindRoutes(text, Replace, 0));
  }

  /** `checkControllers()`: the documents scanned from the last override to the first. */
  method CheckControllers(os: seq<Occurrence>, texts: seq<string>) returns (routes: Routes)
    requires |os| == |texts|
    ensures routes == ScanAll(Empty(), os, texts, |os|)
  {
    routes := Empty();
    var i := |os|;
    while i > 0
      invariant 0 <= i <= |os|
      invariant ScanAll(routes, os, texts, i) == ScanAll(Empty(), os, texts, |os|)
    {
      ghost var n := i;
      i := i - 1;
      ScanAllUnfold(routes, os, texts, n, i);
      routes := ScanDocument(routes, os[i], texts[i]);
    }
  }
}
