/**
 * lib/gdb_find_source.py: find the full path of a source file that GDB
 * reports by a partial path. GDB lists every known source with each path
 * written backwards; the candidates kept are those sharing the longest
 * common suffix with the target path, provided that suffix covers at least
 * the target's base name.
 */
module FindSource {
  import opened Common

  /** The length of the longest common prefix of a and b. */
  function Lcp(a: string, b: string): (n: nat)
    ensures n <= |a| && n <= |b| && a[..n] == b[..n]
    ensures n < |a| && n < |b| ==> a[n] != b[n]
  {
    if a == [] || b == [] || a[0] != b[0] then 0
    else
      var k := Lcp(a[1..], b[1..]);
      assert a[..k + 1] == [a[0]] + a[1..][..k] && b[..k + 1] == [b[0]] + b[1..][..k];
      k + 1
  }

  /** `_LongestCommonPrefix(a, b)`: the index loop with its early return. */
  method LongestCommonPrefix(a: string, b: string) returns (n: nat)
    ensures n == Lcp(a, b)
  {
    n := if |a| < |b| then |a| else |b|;
    for i := 0 to n
      invariant a[..i] == b[..i]
    {
      if a[i] != b[i] {
        LcpUnique(a, b, i);
        return i;
      }
      assert a[..i + 1] == a[..i] + [a[i]] && b[..i + 1] == b[..i] + [b[i]];
    }
    LcpUnique(a, b, n);
  }

  /** The common prefix is determined by its two properties: any length
      with an equal prefix that cannot be extended is the Lcp. */
  lemma LcpUnique(a: string, b: string, n: nat)
    requires n <= |a| && n <= |b| && a[..n] == b[..n]
    requires n < |a| && n < |b| ==> a[n] != b[n]
    ensures n == Lcp(a, b)
  {
  }

  /** A common prefix of two strings read backwards is a common suffix of
      the strings. */
  lemma BackwardsPrefix(a: string, b: string, ra: string, rb: string, n: nat)
    requires |ra| == |a| && forall i :: 0 <= i < |a| ==> ra[i] == a[|a| - 1 - i]
    requires |rb| == |b| && forall i :: 0 <= i < |b| ==> rb[i] == b[|b| - 1 - i]
    requires n <= |a| && n <= |b| && ra[..n] == rb[..n]
    ensures a[|a| - n..] == b[|b| - n..]
  {
    var sa, sb := a[|a| - n..], b[|b| - n..];
    forall x | 0 <= x < n ensures sa[x] == sb[x] {
      var y := n - 1 - x;
      assert ra[..n][y] == rb[..n][y];
    }
  }

  /** Read backwards, the common prefix is the common suffix of the two
      paths: the last n characters agree and the ones before them do not. */
  lemma ReversedPrefixIsSuffix(a: string, b: string)
    ensures var n := Lcp(Reverse(a), Reverse(b));
      && n <= |a| && n <= |b| && a[|a| - n..] == b[|b| - n..]
      && (n < |a| && n < |b| ==> a[|a| - 1 - n] != b[|b| - 1 - n])
  {
    var ra, rb := Reverse(a), Reverse(b);
    var n := Lcp(ra, rb);
    BackwardsPrefix(a, b, ra, rb, n);
  }

  /** `len(os.path.basename(target))`: what follows the last `/`. */
  function BaseNameLength(target: string): (n: nat)
    ensures n <= |target| && forall x :: |target| - n <= x < |target| ==> target[x] != '/'
    ensures n < |target| ==> target[|target| - 1 - n] == '/'
  {
    |target| - 1 - RFind(target, '/')
  }

  function Max(a: nat, b: nat): nat { if a < b then b else a }

  /** The best common-prefix length over the candidates, starting from
      `floor`. */
  function Best(target: string, lines: seq<string>, floor: nat): (m: nat)
    ensures floor <= m
    ensures forall i :: 0 <= i < |lines| ==> Lcp(target, lines[i]) <= m
    ensures m == floor || exists i :: 0 <= i < |lines| && Lcp(target, lines[i]) == m
  {
    if lines == [] then floor
    else Max(Best(target, lines[..|lines| - 1], floor), Lcp(target, lines[|lines| - 1]))
  }

  /** The candidates whose common-prefix length is exactly m, turned the
      right way round, in input order. */
  function Matching(target: string, lines: seq<string>, m: nat): (r: seq<string>)
    ensures |r| <= |lines|
  {
    if lines == [] then []
    else
      var l := lines[|lines| - 1];
      Matching(target, lines[..|lines| - 1], m) + (if Lcp(target, l) == m then [Reverse(l)] else [])
  }

  /** No candidate reaches m: none is kept. */
  lemma {:induction false} MatchingNone(target: string, lines: seq<string>, m: nat)
    requires forall i :: 0 <= i < |lines| ==> Lcp(target, lines[i]) < m
    ensures Matching(target, lines, m) == []
  {
    if lines != [] {
      MatchingNone(target, lines[..|lines| - 1], m);
    }
  }

  /** A path is kept exactly when it is, read backwards, a candidate that
      reaches m. */
  lemma {:induction false} MatchingMembers(target: string, lines: seq<string>, m: nat, path: string)
    ensures path in Matching(target, lines, m) <==>
              exists i :: 0 <= i < |lines| && Lcp(target, lines[i]) == m && path == Reverse(lines[i])
  {
    if lines != [] {
      var n := |lines| - 1;
      var init, last := lines[..n], lines[n];
      MatchingMembers(target, init, m, path);
      var here := Lcp(target, last) == m && path == Reverse(last);
      assert path in Matching(target, lines, m) <==> path in Matching(target, init, m) || here;
      if path in Matching(target, init, m) {
        var i :| 0 <= i < |init| && Lcp(target, init[i]) == m && path == Reverse(init[i]);
        assert lines[i] == init[i];
      }
      if exists i :: 0 <= i < |lines| && Lcp(target, lines[i]) == m && path == Reverse(lines[i]) {
        var i :| 0 <= i < |lines| && Lcp(target, lines[i]) == m && path == Reverse(lines[i]);
        if i < n {
          assert init[i] == lines[i];
        }
      }
    }
  }

  /** One more candidate: how the best length and the kept paths grow. */
  lemma Extend(target: string, lines: seq<string>, i: nat, floor: nat, m: nat)
    requires i < |lines|
    ensures Best(target, lines[..i + 1], floor) == Max(Best(target, lines[..i], floor), Lcp(target, lines[i]))
    ensures Matching(target, lines[..i + 1], m) ==
              Matching(target, lines[..i], m) + (if Lcp(target, lines[i]) == m then [Reverse(lines[i])] else [])
  {
    assert lines[..i + 1][..i] == lines[..i];
  }

  /** The selection loop over the candidates: `m` and `result` are
      updated as in the source. The target comes normalised. */
  method Select(target: string, lines: seq<string>) returns (result: seq<string>)
    ensures var rev := Reverse(target);
      result == Matching(rev, lines, Best(rev, lines, BaseNameLength(target)))
  {
    var rev := Reverse(target);
    var floor := BaseNameLength(target);
    var m := floor;
    result := [];
    for i := 0 to |lines|
      invariant m == Best(rev, lines[..i], floor)
      invariant result == Matching(rev, lines[..i], m)
    {
      var x := LongestCommonPrefix(rev, lines[i]);
      SelectStep(rev, lines, i, floor, m, result);
      if x > m {
        m := x;
        result := [Reverse(lines[i])];
      } else if x == m {
        result := result + [Reverse(lines[i])];
      }
    }
    assert lines[..|lines|] == lines;
  }

  /** One turn of the selection loop keeps `m` the best length so far and
      `result` the candidates so far that reach it. */
  lemma SelectStep(rev: string, lines: seq<string>, i: nat, floor: nat, m: nat, result: seq<string>)
    requires i < |lines| && m == Best(rev, lines[..i], floor) && result == Matching(rev, lines[..i], m)
    ensures var x := Lcp(rev, lines[i]);
      var m' := if x > m then x else m;
      && m' == Best(rev, lines[..i + 1], floor)
      && (x > m ==> Matching(rev, lines[..i + 1], m') == [Reverse(lines[i])])
      && (x == m ==> Matching(rev, lines[..i + 1], m') == result + [Reverse(lines[i])])
      && (x < m ==> Matching(rev, lines[..i + 1], m') == result)
  {
    var x := Lcp(rev, lines[i]);
    Extend(rev, lines, i, floor, m);
    Extend(rev, lines, i, floor, x);
    if x > m {
      MatchingNone(rev, lines[..i], x);
    }
  }

  /** What the search returns: the candidates with the longest common suffix
      with the target, when that suffix is at least the base name; nothing
      when no candidate shares the whole base name. */
  lemma SelectSpec(target: string, lines: seq<string>, path: string)
    ensures var rev := Reverse(target);
      var floor := BaseNameLength(target);
      var best := Best(rev, lines, floor);
      && ((forall i :: 0 <= i < |lines| ==> Lcp(rev, lines[i]) < floor) ==> Matching(rev, lines, best) == [])
      && (path in Matching(rev, lines, best) <==>
            exists i :: 0 <= i < |lines| && path == Reverse(lines[i]) && Lcp(rev, lines[i]) == best
                        && forall j :: 0 <= j < |lines| ==> Lcp(rev, lines[j]) <= Lcp(rev, lines[i]))
  {
    var rev := Reverse(target);
    var floor := BaseNameLength(target);
    var best := Best(rev, lines, floor);
    if forall i :: 0 <= i < |lines| ==> Lcp(rev, lines[i]) < floor {
      MatchingNone(rev, lines, best);
    }
    MatchingMembers(rev, lines, best, path);
  }
}
