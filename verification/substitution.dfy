/**
 * `re.sub(pattern, repl, text)` for a pattern whose matches are never
 * empty, independent of what the pattern is. The pattern and the
 * replacement function are given together as `at`: `at(p)` is the match
 * tried at position `p` (where it ends, and what `repl` returns for it),
 * or `None` when the pattern does not match there.
 */
module Substitution {
  import opened Wrappers

  /** A match, reduced to what substitution needs: where it ends and the
      text that replaces it. */
  datatype Hit = Hit(end: nat, text: string)

  /** Every match inside `s` is non-empty and stays inside `s`. */
  ghost predicate Advances(s: string, at: nat -> Option<Hit>) {
    forall p: nat :: p < |s| && at(p).Some? ==> p < at(p).value.end <= |s|
  }

  /** The substituted text from position `i` on: at each position the
      pattern is tried; a match is replaced and scanning resumes where it
      ended, otherwise one character is copied. */
  function Sub(s: string, i: nat, at: nat -> Option<Hit>): string
    requires i <= |s|
    requires Advances(s, at)
    decreases |s| - i
  {
    if i == |s| then ""
    else match at(i)
      case None => [s[i]] + Sub(s, i + 1, at)
      case Some(h) => h.text + Sub(s, h.end, at)
  }

  /** The pattern matches nowhere in `[i, j)`. */
  ghost predicate NoHitIn(at: nat -> Option<Hit>, i: nat, j: nat) {
    forall p: nat :: i <= p < j ==> at(p).None?
  }

  /** The first position in `[i, |s|)` where the pattern matches: the
      search `re.sub` performs before each replacement. */
  function NextHit(s: string, i: nat, at: nat -> Option<Hit>): (r: Option<nat>)
    requires i <= |s|
    ensures r.None? ==> NoHitIn(at, i, |s|)
    ensures r.Some? ==> i <= r.value < |s| && at(r.value).Some? && NoHitIn(at, i, r.value)
    decreases |s| - i
  {
    if i == |s| then None
    else if at(i).Some? then Some(i)
    else NextHit(s, i + 1, at)
  }

  /** Text in which the pattern does not match is copied as it is. */
  lemma {:induction false} SubCopies(s: string, i: nat, j: nat, at: nat -> Option<Hit>)
    requires i <= j <= |s|
    requires Advances(s, at)
    requires NoHitIn(at, i, j)
    ensures Sub(s, i, at) == s[i..j] + Sub(s, j, at)
    decreases j - i
  {
    if i < j {
      SubCopiesOne(s, i, at);
      SubCopies(s, i + 1, j, at);
      ConsSlice(s, i, j, Sub(s, j, at));
    }
  }

  /** Where the pattern does not match, one character is copied. */
  lemma SubCopiesOne(s: string, i: nat, at: nat -> Option<Hit>)
    requires i < |s| && Advances(s, at) && at(i).None?
    ensures Sub(s, i, at) == [s[i]] + Sub(s, i + 1, at)
  {
  }

  lemma ConsSlice(s: string, i: nat, j: nat, rest: string)
    requires i < j <= |s|
    ensures [s[i]] + (s[i + 1..j] + rest) == s[i..j] + rest
  {
    assert s[i..j] == [s[i]] + s[i + 1..j];
  }

  /** Substitution splits at the first match: the text before it is kept,
      the match is replaced, and substitution goes on after the match. */
  lemma SubAtFirstHit(s: string, i: nat, p: nat, at: nat -> Option<Hit>)
    requires i <= p < |s|
    requires Advances(s, at)
    requires NoHitIn(at, i, p)
    requires at(p).Some?
    ensures Sub(s, i, at) == s[i..p] + at(p).value.text + Sub(s, at(p).value.end, at)
  {
    SubCopies(s, i, p, at);
  }

  /** When every replacement begins with a character different from the
      one its match begins with, substitution leaves the text unchanged
      exactly when the pattern matches nowhere. */
  lemma SubUnchangedIff(s: string, at: nat -> Option<Hit>)
    requires Advances(s, at)
    requires forall p: nat :: p < |s| && at(p).Some? ==>
      |at(p).value.text| > 0 && at(p).value.text[0] != s[p]
    ensures Sub(s, 0, at) == s <==> NoHitIn(at, 0, |s|)
  {
    if NoHitIn(at, 0, |s|) {
      SubCopies(s, 0, |s|, at);
    } else {
      var p := NextHit(s, 0, at).value;
      SubChangedAt(s, p, at);
    }
  }

  /** A first match whose replacement begins with a different character
      changes the text. */
  lemma SubChangedAt(s: string, p: nat, at: nat -> Option<Hit>)
    requires p < |s|
    requires Advances(s, at)
    requires NoHitIn(at, 0, p)
    requires at(p).Some? && |at(p).value.text| > 0 && at(p).value.text[0] != s[p]
    ensures Sub(s, 0, at) != s
  {
    SubAtFirstHit(s, 0, p, at);
    var out := Sub(s, 0, at);
    assert out[p] == at(p).value.text[0];
  }
}
