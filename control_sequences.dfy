/**
 * The two control-sequence recognisers of the proxies, written out as
 * scanners instead of regular expressions:
 *
 *   `\[[^a-zA-Z]*[a-zA-Z]`  (lib/proxy/stream_filter.py, lib/cseq.py)
 *   `\[[^m]*m`              (lib/gdb_proxy.py, lib/bashdbproxy.py)
 *
 * Both start at a literal `[` and run to the first terminating character
 * after it (any ASCII letter, or `m`). Since `[` is not a terminator, a
 * match starts at the first `[` that has a terminator somewhere after it;
 * if the first `[` has none, no later `[` has one either.
 */
module ControlSequences {
  import opened Common

  datatype Kind = AnyLetter | LetterM

  /** The character that ends a control sequence of the given kind. */
  predicate Final(kind: Kind, c: char)
  {
    match kind
    case AnyLetter => 'a' <= c <= 'z' || 'A' <= c <= 'Z'
    case LetterM => c == 'm'
  }

  /** The first index at or after k holding a terminator, or |s|. */
  function NextFinal(kind: Kind, s: string, k: nat): (i: nat)
    requires k <= |s|
    ensures k <= i <= |s|
    ensures forall x :: k <= x < i ==> !Final(kind, s[x])
    ensures i < |s| ==> Final(kind, s[i])
    decreases |s| - k
  {
    if k == |s| || Final(kind, s[k]) then k else NextFinal(kind, s, k + 1)
  }

  /** No control sequence occurs in s[pos..]: no `[` has a terminator after it. */
  ghost predicate CleanFrom(kind: Kind, s: string, pos: nat)
  {
    forall i, j :: pos <= i < j < |s| && s[i] == '[' ==> !Final(kind, s[j])
  }

  ghost predicate Clean(kind: Kind, s: string) { CleanFrom(kind, s, 0) }

  /** The span of the leftmost control sequence at or after pos, as
      `re.search` (or the next step of `re.finditer`) from pos reports it. */
  function Next(kind: Kind, s: string, pos: nat): (r: Option<(nat, nat)>)
    requires pos <= |s|
    ensures r.Some? ==> pos <= r.value.0 < r.value.1 <= |s|
    ensures r.Some? ==> s[r.value.0] == '[' && Final(kind, s[r.value.1 - 1])
    ensures r.Some? ==> forall x :: r.value.0 < x < r.value.1 - 1 ==> !Final(kind, s[x])
    ensures r.Some? ==> forall x :: pos <= x < r.value.0 ==> s[x] != '['
  {
    var i := NextChar(s, pos, '[');
    if i == |s| then None
    else
      var j := NextFinal(kind, s, i + 1);
      if j == |s| then None else Some((i, j + 1))
  }

  /** No control sequence is found exactly when none occurs. */
  lemma NextNone(kind: Kind, s: string, pos: nat)
    requires pos <= |s|
    ensures Next(kind, s, pos).None? <==> CleanFrom(kind, s, pos)
  {
  }

  /** `re.sub(pattern, b'', s[pos:])`: s from pos with every control
      sequence removed, scanning left to right. */
  function RemoveFrom(kind: Kind, s: string, pos: nat): (r: string)
    requires pos <= |s|
    ensures |r| <= |s| - pos
    decreases |s| - pos
  {
    match Next(kind, s, pos)
    case None => s[pos..]
    case Some((a, b)) => s[pos..a] + RemoveFrom(kind, s, b)
  }

  /** `CSEQ.sub(b'', s)`. */
  function Remove(kind: Kind, s: string): (r: string)
    ensures |r| <= |s|
  {
    RemoveFrom(kind, s, 0)
  }

  /** Removing control sequences leaves none behind. */
  lemma {:induction false} RemoveFromClean(kind: Kind, s: string, pos: nat)
    requires pos <= |s|
    ensures Clean(kind, RemoveFrom(kind, s, pos))
    decreases |s| - pos
  {
    match Next(kind, s, pos)
    case None =>
      var r := s[pos..];
      forall i, j | 0 <= i < j < |r| && r[i] == '[' ensures !Final(kind, r[j]) {
        assert s[pos + i] == '[' && r[j] == s[pos + j];
      }
    case Some((a, b)) =>
      RemoveFromClean(kind, s, b);
      var head, tail := s[pos..a], RemoveFrom(kind, s, b);
      var r := head + tail;
      forall i, j | 0 <= i < j < |r| && r[i] == '[' ensures !Final(kind, r[j]) {
        if i < |head| {
          assert false;
        } else {
          assert tail[i - |head|] == '[' && r[j] == tail[j - |head|];
        }
      }
  }

  /** A string without control sequences is left as it is. */
  lemma RemoveClean(kind: Kind, s: string)
    requires Clean(kind, s)
    ensures Remove(kind, s) == s
  {
    assert Next(kind, s, 0).None?;
  }

  /** Removing control sequences twice is the same as removing them once. */
  lemma RemoveIdempotent(kind: Kind, s: string)
    ensures Remove(kind, Remove(kind, s)) == Remove(kind, s)
  {
    RemoveFromClean(kind, s, 0);
    RemoveClean(kind, Remove(kind, s));
  }

  /** The answer to a side command with its colour sequences removed: the
      text between the echoed command and the prompt line, stripped, then
      without `[`...`m` sequences. */
  function CleanAnswer(cmd: string, response: string): (r: string)
    ensures Clean(LetterM, r)
    ensures |r| <= |HandleCommandAnswer(cmd, response)|
  {
    RemoveFromClean(LetterM, HandleCommandAnswer(cmd, response), 0);
    Remove(LetterM, HandleCommandAnswer(cmd, response))
  }
}
