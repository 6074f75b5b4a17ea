/**
 * The `.properties` scan of the overrides panel in
 * extension/CartridgeOverridesProvider.js (`checkProperties` and the cleanup
 * after it): which keys each cartridge's resource bundle defines and on which
 * line, and which keys are defined by more than one cartridge.
 */
module PropertiesScan {
  import opened Strings
  import opened Wrappers
  import opened Dicts
  import opened OverrideIndex

  /** `line.split('=')`: with more than one part, the key is the first part trimmed. */
  function PropKey(line: string): Option<string> {
    var parts := Split(line, '=');
    if |parts| > 1 then Some(Trim(parts[0])) else None
  }

  /**
   * A line yields a key exactly when it holds a `=`; the key is the trimmed
   * text before the first `=`, so it holds no `=` itself.
   */
  lemma PropKeyBeforeFirstEquals(line: string)
    ensures PropKey(line).Some? <==> '=' in line
    ensures PropKey(line).Some? ==> PropKey(line).value == Trim(line[..FirstIndex(line, '=')])
    ensures PropKey(line).Some? ==> '=' !in PropKey(line).value
  {
    FirstIndexFirst(line, '=');
    var i := FirstIndex(line, '=');
    if i >= 0 {
      SplitStep(line, '=');
      TrimInfix(line[..i], '=');
    }
  }

  /** Trimming only removes characters. */
  lemma TrimInfix(s: string, c: char)
    requires c !in s
    ensures c !in Trim(s)
  {
    var t := TrimStart(s);
    var r := TrimEnd(t);
    forall i | 0 <= i < |r| ensures r[i] != c {
      assert r[i] == t[i] == s[|s| - |t| + i];
    }
  }

  /** One pushed record: `{name, resourceUri, lineNumber: i + 1, position}`. */
  datatype Property = Property(name: string, resource: Option<string>, lineNumber: nat, position: int)

  /** `properties[key][cartridge]`: lists of records by key, then by cartridge. */
  type Props = Dict<Dict<seq<Property>>>

  function PropRecord(o: Occurrence, key: string, i: nat): Property {
    Property(key, o.resource, i + 1, o.position)
  }

  /** The key of every line, `null` for a line without `=`. */
  function LineKeys(lines: seq<string>): (keys: seq<Option<string>>)
    ensures |keys| == |lines| && forall i :: 0 <= i < |lines| ==> keys[i] == PropKey(lines[i])
  {
    seq(|lines|, i requires 0 <= i < |lines| => PropKey(lines[i]))
  }

  /** The body of the line loop for line `i`, whose key is `keys[i]`. */
  function LineStep(props: Props, o: Occurrence, keys: seq<Option<string>>, i: nat): Props
    requires i < |keys|
  {
    match keys[i]
    case None => props
    case Some(k) => Push(props, k, o.cartridge, PropRecord(o, k, i))
  }

  /** The line loop over the first `n` lines. */
  function ScanLines(props: Props, o: Occurrence, keys: seq<Option<string>>, n: nat): Props
    requires n <= |keys|
  {
    if n == 0 then props else LineStep(ScanLines(props, o, keys, n - 1), o, keys, n - 1)
  }

  lemma ScanLinesSnoc(props: Props, o: Occurrence, keys: seq<Option<string>>, i: nat)
    requires i < |keys|
    ensures ScanLines(props, o, keys, i + 1) == LineStep(ScanLines(props, o, keys, i), o, keys, i)
  {
  }

  /** Reference definition: the records of the first `n` lines whose key is `k`, in line order. */
  function KeyRecords(o: Occurrence, keys: seq<Option<string>>, k: string, n: nat): seq<Property>
    requires n <= |keys|
  {
    if n == 0 then []
    else KeyRecords(o, keys, k, n - 1) + (if keys[n - 1] == Some(k) then [PropRecord(o, k, n - 1)] else [])
  }

  lemma KeyRecordsSnoc(o: Occurrence, keys: seq<Option<string>>, k: string, i: nat)
    requires i < |keys|
    ensures KeyRecords(o, keys, k, i + 1)
         == KeyRecords(o, keys, k, i) + (if keys[i] == Some(k) then [PropRecord(o, k, i)] else [])
  {
  }

  /** Every record of key `k` comes from a line that defines `k`, with its 1-based line number. */
  lemma {:induction false} KeyRecordsSound(o: Occurrence, keys: seq<Option<string>>, k: string, n: nat)
    requires n <= |keys|
    ensures forall r :: r in KeyRecords(o, keys, k, n) ==>
      r.name == k && r.resource == o.resource && r.position == o.position
      && 1 <= r.lineNumber <= n && keys[r.lineNumber - 1] == Some(k)
    decreases n, 1
  {
    if n > 0 {
      KeyRecordsSoundStep(o, keys, k, n - 1);
    }
  }

  lemma {:induction false} KeyRecordsSoundStep(o: Occurrence, keys: seq<Option<string>>, k: string, m: nat)
    requires m < |keys|
    ensures forall r :: r in KeyRecords(o, keys, k, m + 1) ==>
      r.name == k && r.resource == o.resource && r.position == o.position
      && 1 <= r.lineNumber <= m + 1 && keys[r.lineNumber - 1] == Some(k)
    decreases m + 1, 0
  {
    KeyRecordsSound(o, keys, k, m);
    KeyRecordsSnoc(o, keys, k, m);
  }

  /** Every line of the first `n` that defines `k` has its record. */
  lemma {:induction false} KeyRecordsComplete(o: Occurrence, keys: seq<Option<string>>, k: string, n: nat)
    requires n <= |keys|
    ensures forall i :: 0 <= i < n && keys[i] == Some(k) ==> PropRecord(o, k, i) in KeyRecords(o, keys, k, n)
    decreases n, 1
  {
    if n > 0 {
      KeyRecordsCompleteStep(o, keys, k, n - 1);
    }
  }

  lemma {:induction false} KeyRecordsCompleteStep(o: Occurrence, keys: seq<Option<string>>, k: string, m: nat)
    requires m < |keys|
    ensures forall i :: 0 <= i < m + 1 && keys[i] == Some(k) ==> PropRecord(o, k, i) in KeyRecords(o, keys, k, m + 1)
    decreases m + 1, 0
  {
    KeyRecordsComplete(o, keys, k, m);
    KeyRecordsSnoc(o, keys, k, m);
  }

  predicate Increasing(rs: seq<Property>) {
    forall a, b :: 0 <= a < b < |rs| ==> rs[a].lineNumber < rs[b].lineNumber
  }

  lemma IncreasingSnoc(rs: seq<Property>, x: Property)
    requires Increasing(rs) && forall r :: r in rs ==> r.lineNumber < x.lineNumber
    ensures Increasing(rs + [x])
  {
    var t := rs + [x];
    forall a, b | 0 <= a < b < |t| ensures t[a].lineNumber < t[b].lineNumber {
      assert t[a] == rs[a];
      if b < |rs| {
        assert t[b] == rs[b];
      } else {
        assert rs[a] in rs;
      }
    }
  }

  /** The records of a key are in increasing line order. */
  lemma {:induction false} KeyRecordsIncreasing(o: Occurrence, keys: seq<Option<string>>, k: string, n: nat)
    requires n <= |keys|
    ensures Increasing(KeyRecords(o, keys, k, n))
    decreases n, 1
  {
    if n > 0 {
      KeyRecordsIncreasingStep(o, keys, k, n - 1);
    }
  }

  lemma {:induction false} KeyRecordsIncreasingStep(o: Occurrence, keys: seq<Option<string>>, k: string, m: nat)
    requires m < |keys|
    ensures Increasing(KeyRecords(o, keys, k, m + 1))
    decreases m + 1, 0
  {
    KeyRecordsIncreasing(o, keys, k, m);
    KeyRecordsSound(o, keys, k, m);
    KeyRecordsSnoc(o, keys, k, m);
    if keys[m] == Some(k) {
      IncreasingSnoc(KeyRecords(o, keys, k, m), PropRecord(o, k, m));
    } else {
      assert KeyRecords(o, keys, k, m) + [] == KeyRecords(o, keys, k, m);
    }
  }

  /** The first record of a key is on a line that defines it... */
  lemma KeyRecordsFirstDefines(o: Occurrence, keys: seq<Option<string>>, k: string, n: nat, first: Property)
    requires n <= |keys| && |KeyRecords(o, keys, k, n)| > 0 && first == KeyRecords(o, keys, k, n)[0]
    ensures 1 <= first.lineNumber <= n && keys[first.lineNumber - 1] == Some(k)
  {
    KeyRecordsSound(o, keys, k, n);
    assert first in KeyRecords(o, keys, k, n);
  }

  /** ...and no earlier line defines it. */
  lemma KeyRecordsFirstLine(o: Occurrence, keys: seq<Option<string>>, k: string, n: nat, first: Property)
    requires n <= |keys| && |KeyRecords(o, keys, k, n)| > 0 && first == KeyRecords(o, keys, k, n)[0]
    ensures forall i :: 0 <= i < n && keys[i] == Some(k) ==> first.lineNumber <= i + 1
  {
    var rs := KeyRecords(o, keys, k, n);
    KeyRecordsComplete(o, keys, k, n);
    KeyRecordsIncreasing(o, keys, k, n);
    forall i | 0 <= i < n && keys[i] == Some(k) ensures first.lineNumber <= i + 1 {
      var j :| 0 <= j < |rs| && rs[j] == PropRecord(o, k, i);
      if j > 0 {
        assert rs[0].lineNumber < rs[j].lineNumber;
      }
    }
  }

  /** The equational step of the inductions below, on plain sequences. */
  lemma AppendStep<T>(all: seq<T>, before: seq<T>, extra: seq<T>, g: seq<T>, r: seq<T>)
    requires all == before + extra && before == g + r
    ensures all == g + (r + extra)
  {
  }

  /** One line adds to `properties[k][c]` only for its own key and its own cartridge. */
  lemma LineStepGet(props: Props, o: Occurrence, lines: seq<Option<string>>, i: nat, k: string, c: string)
    requires i < |lines|
    ensures Get2(LineStep(props, o, lines, i), k, c)
         == Get2(props, k, c) + (if c == o.cartridge && lines[i] == Some(k) then [PropRecord(o, k, i)] else [])
  {
    match lines[i] {
      case None =>
        assert Get2(props, k, c) + [] == Get2(props, k, c);
      case Some(key) =>
        PushAllGet(props, key, o.cartridge, [PropRecord(o, key, i)], k, c);
        if !(c == o.cartridge && key == k) {
          assert Get2(props, k, c) + [] == Get2(props, k, c);
        }
    }
  }

  /** The line loop appends to `properties[k][c]` the records of key `k`, for the document's own cartridge only. */
  lemma {:induction false} ScanLinesContents(props: Props, o: Occurrence, lines: seq<Option<string>>, n: nat, k: string, c: string)
    requires n <= |lines|
    ensures Get2(ScanLines(props, o, lines, n), k, c)
         == Get2(props, k, c) + (if c == o.cartridge then KeyRecords(o, lines, k, n) else [])
    decreases n, 1
  {
    if n > 0 {
      ScanLinesContentsStep(props, o, lines, n - 1, k, c);
    } else {
      assert Get2(props, k, c) + [] == Get2(props, k, c);
    }
  }

  lemma {:induction false} ScanLinesContentsStep(props: Props, o: Occurrence, lines: seq<Option<string>>, m: nat, k: string, c: string)
    requires m < |lines|
    ensures Get2(ScanLines(props, o, lines, m + 1), k, c)
         == Get2(props, k, c) + (if c == o.cartridge then KeyRecords(o, lines, k, m + 1) else [])
    decreases m + 1, 0
  {
    var before := ScanLines(props, o, lines, m);
    ScanLinesSnoc(props, o, lines, m);
    LineStepGet(before, o, lines, m, k, c);
    assert Get2(before, k, c) == Get2(props, k, c) + (if c == o.cartridge then KeyRecords(o, lines, k, m) else []) by {
      ScanLinesContents(props, o, lines, m, k, c);
    }
    var extra := if c == o.cartridge && lines[m] == Some(k) then [PropRecord(o, k, m)] else [];
    AppendStep(Get2(ScanLines(props, o, lines, m + 1), k, c), Get2(before, k, c), extra,
               Get2(props, k, c), if c == o.cartridge then KeyRecords(o, lines, k, m) else []);
    if c != o.cartridge {
      assert [] + extra == [];
    }
  }

  /** `document.getText().split('\n')`. */
  function Lines(text: string): seq<string> {
    Split(text, '\n')
  }

  /** The loop over one document. */
  function ScanFileProps(props: Props, o: Occurrence, text: string): Props {
    ScanLines(props, o, LineKeys(Lines(text)), |Lines(text)|)
  }

  /**
   * `checkProperties()` read as a fold: the documents `texts[..n]` of
   * `os[..n]`, scanned from the last override to the first.
   */
  function ScanProps(props: Props, os: seq<Occurrence>, texts: seq<string>, n: nat): Props
    requires n <= |os| == |texts|
    decreases n
  {
    if n == 0 then props
    else ScanProps(ScanFileProps(props, os[n - 1], texts[n - 1]), os, texts, n - 1)
  }

  lemma ScanPropsUnfold(props: Props, os: seq<Occurrence>, texts: seq<string>, m: nat)
    requires m < |os| == |texts|
    ensures ScanProps(props, os, texts, m + 1) == ScanProps(ScanFileProps(props, os[m], texts[m]), os, texts, m)
  {
  }

  /** What one document contributes under key `k` and cartridge `c`. */
  function FileProps(o: Occurrence, text: string, k: string, c: string): seq<Property> {
    if c == o.cartridge then KeyRecords(o, LineKeys(Lines(text)), k, |Lines(text)|) else []
  }

  /** What the documents of `os[..n]` contribute under `k` and `c`, last document first. */
  function AllProps(os: seq<Occurrence>, texts: seq<string>, n: nat, k: string, c: string): seq<Property>
    requires n <= |os| == |texts|
  {
    if n == 0 then [] else FileProps(os[n - 1], texts[n - 1], k, c) + AllProps(os, texts, n - 1, k, c)
  }

  lemma ScanFilePropsContents(props: Props, o: Occurrence, text: string, k: string, c: string)
    ensures Get2(ScanFileProps(props, o, text), k, c) == Get2(props, k, c) + FileProps(o, text, k, c)
  {
    ScanLinesContents(props, o, LineKeys(Lines(text)), |Lines(text)|, k, c);
  }

  lemma ScanPropsStep(props: Props, os: seq<Occurrence>, texts: seq<string>, m: nat, k: string, c: string) returns (mid: Props)
    requires m < |os| == |texts|
    ensures Get2(ScanProps(props, os, texts, m + 1), k, c) == Get2(ScanProps(mid, os, texts, m), k, c)
    ensures Get2(mid, k, c) == Get2(props, k, c) + FileProps(os[m], texts[m], k, c)
  {
    mid := ScanFileProps(props, os[m], texts[m]);
    ScanFilePropsContents(props, os[m], texts[m], k, c);
  }

  /** `properties[k][c]` ends up holding the records of every document of cartridge `c`, last document first. */
  lemma {:induction false} ScanPropsContents(props: Props, os: seq<Occurrence>, texts: seq<string>, n: nat, k: string, c: string)
    requires n <= |os| == |texts|
    ensures Get2(ScanProps(props, os, texts, n), k, c) == Get2(props, k, c) + AllProps(os, texts, n, k, c)
    decreases n, 1
  {
    if n > 0 {
      ScanPropsContentsStep(props, os, texts, n - 1, k, c);
    } else {
      assert Get2(props, k, c) + [] == Get2(props, k, c);
    }
  }

  lemma {:induction false} ScanPropsContentsStep(props: Props, os: seq<Occurrence>, texts: seq<string>, m: nat, k: string, c: string)
    requires m < |os| == |texts|
    ensures Get2(ScanProps(props, os, texts, m + 1), k, c) == Get2(props, k, c) + AllProps(os, texts, m + 1, k, c)
    decreases m + 1, 0
  {
    var mid := ScanPropsStep(props, os, texts, m, k, c);
    assert Get2(ScanProps(mid, os, texts, m), k, c) == Get2(mid, k, c) + AllProps(os, texts, m, k, c) by {
      ScanPropsContents(mid, os, texts, m, k, c);
    }
    AppendChain(Get2(ScanProps(props, os, texts, m + 1), k, c), Get2(ScanProps(mid, os, texts, m), k, c),
      Get2(mid, k, c), Get2(props, k, c), FileProps(os[m], texts[m], k, c), AllProps(os, texts, m, k, c));
  }

  /** Both levels valid and every list non-empty. */
  ghost predicate WellFormed(props: Props) {
    NestedValid(props) && NoEmptyList(props)
  }

  lemma LineStepWellFormed(props: Props, o: Occurrence, lines: seq<Option<string>>, i: nat)
    requires i < |lines| && WellFormed(props)
    ensures WellFormed(LineStep(props, o, lines, i))
  {
    if lines[i].Some? {
      var k := lines[i].value;
      PushAllValid(props, k, o.cartridge, [PropRecord(o, k, i)]);
      PushAllNoEmptyList(props, k, o.cartridge, [PropRecord(o, k, i)]);
    }
  }

  lemma {:induction false} ScanLinesWellFormed(props: Props, o: Occurrence, lines: seq<Option<string>>, n: nat)
    requires n <= |lines| && WellFormed(props)
    ensures WellFormed(ScanLines(props, o, lines, n))
    decreases n, 1
  {
    if n > 0 {
      ScanLinesWellFormedStep(props, o, lines, n - 1);
    }
  }

  lemma {:induction false} ScanLinesWellFormedStep(props: Props, o: Occurrence, lines: seq<Option<string>>, m: nat)
    requires m < |lines| && WellFormed(props)
    ensures WellFormed(ScanLines(props, o, lines, m + 1))
    decreases m + 1, 0
  {
    ScanLinesWellFormed(props, o, lines, m);
    ScanLinesSnoc(props, o, lines, m);
    LineStepWellFormed(ScanLines(props, o, lines, m), o, lines, m);
  }

  lemma {:induction false} ScanPropsWellFormed(props: Props, os: seq<Occurrence>, texts: seq<string>, n: nat)
    requires n <= |os| == |texts| && WellFormed(props)
    ensures WellFormed(ScanProps(props, os, texts, n))
    decreases n, 1
  {
    if n > 0 {
      ScanPropsWellFormedStep(props, os, texts, n - 1);
    }
  }

  lemma {:induction false} ScanPropsWellFormedStep(props: Props, os: seq<Occurrence>, texts: seq<string>, m: nat)
    requires m < |os| == |texts| && WellFormed(props)
    ensures WellFormed(ScanProps(props, os, texts, m + 1))
    decreases m + 1, 0
  {
    var lines := Lines(texts[m]);
    ScanLinesWellFormed(props, os[m], LineKeys(lines), |lines|);
    ScanPropsWellFormed(ScanFileProps(props, os[m], texts[m]), os, texts, m);
  }

  /**
   * After the whole scan, cartridge `c` has an entry under key `k` exactly
   * when one of its documents defines `k`; the entry's first record is the
   * first definition in the document of `c` scanned first.
   */
  lemma ScanPresence(os: seq<Occurrence>, texts: seq<string>, k: string, c: string)
    requires |os| == |texts|
    ensures var props := ScanProps(Empty(), os, texts, |os|);
      && (k in props.values && c in props.values[k].values <==> |AllProps(os, texts, |os|, k, c)| > 0)
      && (k in props.values && c in props.values[k].values ==> props.values[k].values[c] == AllProps(os, texts, |os|, k, c))
  {
    ScanPropsContents(Empty(), os, texts, |os|, k, c);
    ScanPropsWellFormed(Empty(), os, texts, |os|);
    assert [] + AllProps(os, texts, |os|, k, c) == AllProps(os, texts, |os|, k, c);
  }

  // ---------------------------------------------------------------------
  // The cleanup: keys seen in fewer than two cartridges are deleted

  /** The keys among `among` that fewer than two cartridges define. */
  function Sparse(d: Props, among: seq<string>): set<string> {
    set k | k in among && k in d.values && |d.values[k].keys| < 2
  }

  /** Reference definition of the cleanup: the keys of at least two cartridges, with their entries, in order. */
  function Pruned(d: Props): Props {
    Dict(FilterOut(d.keys, Sparse(d, d.keys)), map k | k in d.values && |d.values[k].keys| >= 2 :: d.values[k])
  }

  /** The cleanup keeps a valid table valid and well formed, and keeps exactly the keys of two or more cartridges. */
  lemma PrunedKeeps(d: Props)
    requires d.Valid()
    ensures Pruned(d).Valid()
    ensures forall k :: k in Pruned(d).values <==> k in d.values && |d.values[k].keys| >= 2
    ensures forall k :: k in Pruned(d).values ==> Pruned(d).values[k] == d.values[k]
  {
    FilterOutDistinct(d.keys, Sparse(d, d.keys));
  }

  lemma PrunedWellFormed(d: Props)
    requires WellFormed(d)
    ensures WellFormed(Pruned(d))
  {
    PrunedKeeps(d);
  }

  /** The keys with the ones in `s` left out, in order. */
  function FilterOut(keys: seq<string>, s: set<string>): (r: seq<string>)
    ensures forall x :: x in r <==> x in keys && x !in s
  {
    if |keys| == 0 then []
    else (if keys[0] in s then [] else [keys[0]]) + FilterOut(keys[1..], s)
  }

  lemma {:induction false} FilterOutDistinct(keys: seq<string>, s: set<string>)
    requires Distinct(keys)
    ensures Distinct(FilterOut(keys, s))
  {
    if |keys| > 0 {
      DistinctTail(keys);
      FilterOutDistinct(keys[1..], s);
      if keys[0] !in s {
        DistinctCons(keys[0], FilterOut(keys[1..], s));
      }
    }
  }

  lemma DistinctTail(keys: seq<string>)
    requires |keys| > 0 && Distinct(keys)
    ensures Distinct(keys[1..]) && keys[0] !in keys[1..]
  {
    forall i, j | 0 <= i < j < |keys[1..]| ensures keys[1..][i] != keys[1..][j] {
      assert keys[1..][i] == keys[i + 1] && keys[1..][j] == keys[j + 1];
    }
    forall i | 0 <= i < |keys[1..]| ensures keys[1..][i] != keys[0] {
      assert keys[1..][i] == keys[i + 1];
    }
  }

  lemma {:induction false} FilterOutNothing(keys: seq<string>)
    ensures FilterOut(keys, {}) == keys
  {
    if |keys| > 0 {
      FilterOutNothing(keys[1..]);
      assert keys == [keys[0]] + keys[1..];
    }
  }

  /** On distinct keys `delete` of one key is filtering it out. */
  lemma {:induction false} RemoveKeyIsFilterOut(keys: seq<string>, k: string)
    requires Distinct(keys)
    ensures RemoveKey(keys, k) == FilterOut(keys, {k})
  {
    if |keys| > 0 {
      DistinctTail(keys);
      RemoveKeyIsFilterOut(keys[1..], k);
    }
  }

  lemma {:induction false} FilterOutTwice(keys: seq<string>, s: set<string>, t: set<string>)
    ensures FilterOut(FilterOut(keys, s), t) == FilterOut(keys, s + t)
  {
    if |keys| > 0 {
      var x := keys[0];
      var rest := FilterOut(keys[1..], s);
      FilterOutTwice(keys[1..], s, t);
      assert FilterOut(keys, s + t) == (if x in s + t then [] else [x]) + FilterOut(keys[1..], s + t);
      if x in s {
        assert FilterOut(keys, s) == rest;
      } else {
        var l := [x] + rest;
        assert FilterOut(keys, s) == l;
        assert l[0] == x && l[1..] == rest;
        assert FilterOut(l, t) == (if x in t then [] else [x]) + FilterOut(rest, t);
      }
    }
  }

  /** Deleting one more key from a filtered list is filtering it out too. */
  lemma RemoveKeyFilterOut(keys: seq<string>, s: set<string>, k: string)
    requires Distinct(keys)
    ensures Distinct(FilterOut(keys, s))
    ensures RemoveKey(FilterOut(keys, s), k) == FilterOut(keys, s + {k})
  {
    FilterOutDistinct(keys, s);
    RemoveKeyIsFilterOut(FilterOut(keys, s), k);
    FilterOutTwice(keys, s, {k});
  }

  lemma SparseSnoc(d: Props, ks: seq<string>, i: nat)
    requires i < |ks|
    ensures Sparse(d, ks[..i + 1])
         == Sparse(d, ks[..i]) + (if ks[i] in d.values && |d.values[ks[i]].keys| < 2 then {ks[i]} else {})
  {
    assert forall x :: x in ks[..i + 1] <==> x in ks[..i] || x == ks[i];
  }

  lemma NotInPrefix(ks: seq<string>, i: nat)
    requires i < |ks| && Distinct(ks)
    ensures ks[i] !in ks[..i]
  {
    forall j | 0 <= j < i ensures ks[..i][j] != ks[i] {
      assert ks[..i][j] == ks[j];
    }
  }

  lemma MapMinusSnoc(a: map<string, Dict<seq<Property>>>, s: set<string>, k: string)
    ensures (a - s) - {k} == a - (s + {k})
  {
  }

  /** After the whole loop: what is left is the keys of at least two cartridges, unchanged. */
  lemma PruneDone(d: Props, r: Props, ks: seq<string>)
    requires d.Valid() && ks == d.keys
    requires PrunedUpTo(d, r, |ks|)
    ensures r.Valid()
    ensures forall k :: k in r.values <==> k in d.values && |d.values[k].keys| >= 2
    ensures forall k :: k in r.values ==> r.values[k] == d.values[k]
    ensures r.keys == FilterOut(d.keys, Sparse(d, d.keys))
  {
    assert ks[..|ks|] == ks;
  }

  /** Before the loop nothing is deleted. */
  lemma PruneStart(d: Props)
    requires d.Valid()
    ensures PrunedUpTo(d, d, 0)
  {
    var ks := d.keys;
    FilterOutNothing(d.keys);
    assert Sparse(d, ks[..0]) == {};
  }

  /** The state of the cleanup loop after the first `i` keys of `d`. */
  ghost predicate PrunedUpTo(d: Props, r: Props, i: nat)
    requires i <= |d.keys|
  {
    r.Valid() && r.values == d.values - Sparse(d, d.keys[..i]) && r.keys == FilterOut(d.keys, Sparse(d, d.keys[..i]))
  }

  /** One step of the cleanup loop. */
  method PruneStep(d: Props, ks: seq<string>, i: nat, r: Props) returns (r': Props)
    requires d.Valid() && ks == d.keys && i < |ks|
    requires PrunedUpTo(d, r, i)
    ensures PrunedUpTo(d, r', i + 1)
  {
    var k := ks[i];
    ghost var before := Sparse(d, ks[..i]);
    NotInPrefix(ks, i);
    SparseSnoc(d, ks, i);
    assert k !in before;
    assert k in r.values && r.values[k] == d.values[k];
    r' := r;
    if |r.values[k].keys| < 2 {
      assert Sparse(d, ks[..i + 1]) == before + {k};
      RemoveKeyFilterOut(d.keys, before, k);
      MapMinusSnoc(d.values, before, k);
      r' := r.Remove(k);
      assert r'.keys == RemoveKey(r.keys, k);
    } else {
      assert Sparse(d, ks[..i + 1]) == before;
    }
  }

  /**
   * The cleanup after the scan, which deletes every key that fewer than
   * two cartridges define: exactly the keys defined by at least two cartridges stay, with their
   * entries and their order.
   */
  method PruneProperties(d: Props) returns (r: Props)
    requires d.Valid()
    ensures r.Valid()
    ensures forall k :: k in r.values <==> k in d.values && |d.values[k].keys| >= 2
    ensures forall k :: k in r.values ==> r.values[k] == d.values[k]
    ensures r.keys == FilterOut(d.keys, Sparse(d, d.keys))
    ensures r == Pruned(d)
  {
    r := d;
    var ks := d.keys;
    PruneStart(d);
    var i := 0;
    while i < |ks|
      invariant 0 <= i <= |ks|
      invariant PrunedUpTo(d, r, i)
    {
      r := PruneStep(d, ks, i, r);
      i := i + 1;
    }
    PruneDone(d, r, ks);
    assert r.values == Pruned(d).values;
  }

  // ---------------------------------------------------------------------
  // The scan, as loops

  /** The `for` loop over the lines of one document. */
  method ScanDocumentProps(props: Props, o: Occurrence, text: string) returns (r: Props)
    ensures r == ScanFileProps(props, o, text)
  {
    var lines := Split(text, '\n');
    ghost var keys := LineKeys(lines);
    r := props;
    var i := 0;
    while i < |lines|
      invariant 0 <= i <= |lines|
      invariant r == ScanLines(props, o, keys, i)
    {
      ScanLinesSnoc(props, o, keys, i);
      var parts := Split(lines[i], '=');
      if |parts| > 1 {
        var key := Trim(parts[0]);
        r := Push(r, key, o.cartridge, Property(key, o.resource, i + 1, o.position));
      }
      i := i + 1;
    }
  }

  /** `checkProperties()`: the documents scanned from the last override to the first. */
  method CheckProperties(os: seq<Occurrence>, texts: seq<string>) returns (props: Props)
    requires |os| == |texts|
    ensures props == ScanProps(Empty(), os, texts, |os|)
  {
    props := Empty();
    var i := |os|;
    while i > 0
      invariant 0 <= i <= |os|
      invariant ScanProps(props, os, texts, i) == ScanProps(Empty(), os, texts, |os|)
    {
      i := i - 1;
      ScanPropsUnfold(props, os, texts, i);
      props := ScanDocumentProps(props, os[i], texts[i]);
    }
  }
}
