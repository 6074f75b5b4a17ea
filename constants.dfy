/**
 * The two regular expressions of extension/constants.js, with the path
 * separator fixed to '/':
 *   REGEXP_CARTRIDGE  ^(.+)/cartridges/([^/]+)/cartridge/(.+)$
 *   REGEXP_PATH       [/.]  (global), used with `replace(REGEXP_PATH, '-')`
 */
module Constants {
  import opened Strings
  import opened Wrappers

  const SEP: char := '/'
  const CARTRIDGES_DIR: string := "/cartridges/"
  const CARTRIDGE_DIR: string := "/cartridge/"

  /** The three capture groups of REGEXP_CARTRIDGE. */
  datatype CartridgeParts = CartridgeParts(base: string, cartridge: string, relativePath: string)

  /** The characters JavaScript's `.` does not match. */
  predicate IsLineTerminator(c: char) {
    c == '\n' || c == '\r' || c == '\U{2028}' || c == '\U{2029}'
  }

  /** `s` is a possible match of `.+`. */
  predicate DotPlus(s: string) {
    |s| > 0 && forall i :: 0 <= i < |s| ==> !IsLineTerminator(s[i])
  }

  /** `s` is a possible match of `[^/]+`. */
  predicate NameChars(s: string) {
    |s| > 0 && SEP !in s
  }

  /** The three groups reassembled with the literal parts of the pattern. */
  function Assemble(p: CartridgeParts): string {
    p.base + CARTRIDGES_DIR + p.cartridge + CARTRIDGE_DIR + p.relativePath
  }

  /** `p` is one way for the whole of `s` to match REGEXP_CARTRIDGE. */
  predicate Decomposes(s: string, p: CartridgeParts) {
    s == Assemble(p) && DotPlus(p.base) && NameChars(p.cartridge) && DotPlus(p.relativePath)
  }

  /**
   * The match whose first group is exactly `s[..b]`, if there is one. Once the
   * base is fixed the rest is forced: `[^/]+` must stop at the next '/'.
   */
  function MatchWithBase(s: string, b: nat): Option<CartridgeParts>
    requires b <= |s|
  {
    var n0 := b + |CARTRIDGES_DIR|;
    if !OccursAt(s, CARTRIDGES_DIR, b) then None
    else
      var j := FirstIndex(s[n0..], SEP);
      if j <= 0 || !OccursAt(s, CARTRIDGE_DIR, n0 + j) then None
      else
        var p := CartridgeParts(s[..b], s[n0..n0 + j], s[n0 + j + |CARTRIDGE_DIR|..]);
        if !DotPlus(p.base) || !DotPlus(p.relativePath) then None else Some(p)
  }

  /** What MatchWithBase finds is a decomposition with a base of length `b`. */
  lemma MatchWithBaseSound(s: string, b: nat)
    requires b <= |s|
    ensures MatchWithBase(s, b).Some? ==>
      Decomposes(s, MatchWithBase(s, b).value) && |MatchWithBase(s, b).value.base| == b
  {
    var r := MatchWithBase(s, b);
    if r.Some? {
      var n0 := b + |CARTRIDGES_DIR|;
      var j := FirstIndex(s[n0..], SEP);
      PartsDecompose(s, b, j, s[n0..], r.value);
    }
  }

  lemma PartsDecompose(s: string, b: nat, j: int, t: string, p: CartridgeParts)
    requires OccursAt(s, CARTRIDGES_DIR, b) && t == s[b + |CARTRIDGES_DIR|..]
    requires FirstIndex(t, SEP) == j
    requires j > 0 && OccursAt(s, CARTRIDGE_DIR, b + |CARTRIDGES_DIR| + j)
    requires p.base == s[..b] && p.cartridge == s[b + |CARTRIDGES_DIR|..b + |CARTRIDGES_DIR| + j]
    requires p.relativePath == s[b + |CARTRIDGES_DIR| + j + |CARTRIDGE_DIR|..]
    requires DotPlus(p.base) && DotPlus(p.relativePath)
    ensures Decomposes(s, p)
  {
    FirstIndexFirst(t, SEP);
    assert t[..j] == p.cartridge;
    Reassemble(s, b, j);
  }

  /** A string whose literal parts sit where the pattern wants them is their concatenation. */
  lemma Reassemble(s: string, b: nat, j: nat)
    requires OccursAt(s, CARTRIDGES_DIR, b) && OccursAt(s, CARTRIDGE_DIR, b + |CARTRIDGES_DIR| + j)
    ensures var n0 := b + |CARTRIDGES_DIR|; var e := n0 + j + |CARTRIDGE_DIR|;
      s == Assemble(CartridgeParts(s[..b], s[n0..n0 + j], s[e..]))
  {
    var n0 := b + |CARTRIDGES_DIR|;
    var e := n0 + j + |CARTRIDGE_DIR|;
    CutFive(s, b, n0, n0 + j, e);
    assert s[b..n0] == CARTRIDGES_DIR;
    assert s[n0 + j..e] == CARTRIDGE_DIR;
  }

  /** A string is the concatenation of its five slices between four cut points. */
  lemma CutFive(s: string, i1: nat, i2: nat, i3: nat, i4: nat)
    requires i1 <= i2 <= i3 <= i4 <= |s|
    ensures s == s[..i1] + s[i1..i2] + s[i2..i3] + s[i3..i4] + s[i4..]
  {
    assert s[..i2] == s[..i1] + s[i1..i2];
    assert s[..i3] == s[..i2] + s[i2..i3];
    assert s[..i4] == s[..i3] + s[i3..i4];
    assert s == s[..i4] + s[i4..];
  }

  /** Where the five pieces of an assembled path sit. */
  lemma Pieces(a: string, d1: string, c: string, d2: string, r: string)
    ensures var s := a + d1 + c + d2 + r;
      && s[..|a|] == a
      && OccursAt(s, d1, |a|)
      && s[|a| + |d1|..] == c + d2 + r
      && OccursAt(s, d2, |a| + |d1| + |c|)
      && s[|a| + |d1|..|a| + |d1| + |c|] == c
      && s[|a| + |d1| + |c| + |d2|..] == r
  {
    var s := a + d1 + c + d2 + r;
    assert s == a + (d1 + (c + (d2 + r)));
  }

  /** The text after a cartridge name starts with the separator. */
  lemma CartridgeDirTail(c: string, r: string)
    ensures c + CARTRIDGE_DIR + r == c + [SEP] + ("cartridge/" + r)
  {
    assert CARTRIDGE_DIR == [SEP] + "cartridge/";
  }

  /** Every decomposition is found by MatchWithBase at the length of its base. */
  lemma MatchWithBaseComplete(s: string, p: CartridgeParts)
    requires Decomposes(s, p)
    ensures MatchWithBase(s, |p.base|) == Some(p)
  {
    var b := |p.base|;
    var n0 := b + |CARTRIDGES_DIR|;
    var j := |p.cartridge|;
    Pieces(p.base, CARTRIDGES_DIR, p.cartridge, CARTRIDGE_DIR, p.relativePath);
    CartridgeDirTail(p.cartridge, p.relativePath);
    assert s[n0..] == p.cartridge + [SEP] + ("cartridge/" + p.relativePath);
    FirstIndexAfter(p.cartridge, SEP, "cartridge/" + p.relativePath);
    MatchWithBaseAt(s, b, j, p);
  }

  /** The conditions MatchWithBase tests, all met, give its match. */
  lemma MatchWithBaseAt(s: string, b: nat, j: int, p: CartridgeParts)
    requires b <= |s|
    requires OccursAt(s, CARTRIDGES_DIR, b)
    requires FirstIndex(s[b + |CARTRIDGES_DIR|..], SEP) == j
    requires j > 0 && OccursAt(s, CARTRIDGE_DIR, b + |CARTRIDGES_DIR| + j)
    requires p.base == s[..b] && p.cartridge == s[b + |CARTRIDGES_DIR|..b + |CARTRIDGES_DIR| + j]
    requires p.relativePath == s[b + |CARTRIDGES_DIR| + j + |CARTRIDGE_DIR|..]
    requires DotPlus(p.base) && DotPlus(p.relativePath)
    ensures MatchWithBase(s, b) == Some(p)
  {
  }

  /** The backtracking search: bases of length b, b-1, ..., 1 are tried in turn. */
  function MatchFrom(s: string, b: nat): (r: Option<CartridgeParts>)
    requires b <= |s|
    ensures r.Some? ==> Decomposes(s, r.value) && |r.value.base| <= b
    ensures forall p :: Decomposes(s, p) && |p.base| <= b ==> r.Some? && |p.base| <= |r.value.base|
  {
    if b == 0 then None
    else
      var here := MatchWithBase(s, b);
      MatchWithBaseSound(s, b);
      if here.Some? then
        here
      else
        var r := MatchFrom(s, b - 1);
        assert forall p :: Decomposes(s, p) ==> |p.base| != b by {
          forall p | Decomposes(s, p) ensures |p.base| != b {
            MatchWithBaseComplete(s, p);
          }
        }
        r
  }

  /**
   * `path.match(REGEXP_CARTRIDGE)`: the greedy `(.+)` makes the longest base
   * that still lets the rest of the pattern match win.
   */
  function MatchCartridge(s: string): (r: Option<CartridgeParts>)
    ensures r.Some? ==> Decomposes(s, r.value)
    ensures r.None? <==> forall p :: !Decomposes(s, p)
    ensures r.Some? ==> forall p :: Decomposes(s, p) ==> |p.base| <= |r.value.base|
  {
    assert forall p :: Decomposes(s, p) ==> |p.base| <= |s|;
    MatchFrom(s, |s|)
  }

  /** No path that short can match: the pattern needs 26 characters at least. */
  lemma ShortPathUnmatched(s: string)
    requires |s| <= 25
    ensures MatchCartridge(s).None?
  {
    assert forall p :: !Decomposes(s, p);
  }

  /** `s.replace(REGEXP_PATH, '-')`: every separator and every dot becomes a dash. */
  function ReplaceSeparators(s: string): (r: string)
    ensures |r| == |s|
    ensures forall i :: 0 <= i < |s| ==> r[i] == if s[i] == SEP || s[i] == '.' then '-' else s[i]
  {
    if |s| == 0 then ""
    else [if s[0] == SEP || s[0] == '.' then '-' else s[0]] + ReplaceSeparators(s[1..])
  }

  /** Neither a separator nor a dot survives the replacement. */
  lemma ReplaceSeparatorsClean(s: string)
    ensures SEP !in ReplaceSeparators(s) && '.' !in ReplaceSeparators(s)
  {
    var r := ReplaceSeparators(s);
    forall i | 0 <= i < |r| ensures r[i] != SEP && r[i] != '.' { }
  }
}
