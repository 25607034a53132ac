/**
 * `extract_accessions`: every SRX or ERX experiment accession in a message,
 * as `re.findall(r"(?:SRX|ERX)[0-9]{4,}+", message)` finds them, each once.
 */
module Accessions {
  import opened Reducers

  /** The character class `[0-9]`: ASCII decimal digits only. */
  predicate IsDigit(c: char) {
    '0' <= c <= '9'
  }

  /** `SRX` or `ERX` starts at position `i`. */
  predicate HasPrefixAt(msg: string, i: nat) {
    i + 3 <= |msg| && (msg[i] == 'S' || msg[i] == 'E') && msg[i + 1] == 'R' && msg[i + 2] == 'X'
  }

  /**
   * `msg[i..i + n]` is a match of the pattern: the prefix, at least four
   * digits, and no digit right after them (the possessive quantifier takes
   * the whole run).
   */
  predicate IsAccessionAt(msg: string, i: nat, n: nat) {
    && i + n <= |msg|
    && n >= 7
    && HasPrefixAt(msg, i)
    && (forall k :: i + 3 <= k < i + n ==> IsDigit(msg[k]))
    && (i + n == |msg| || !IsDigit(msg[i + n]))
  }

  /** The length of the run of digits starting at `j`. */
  function {:induction false} DigitRun(msg: string, j: nat): (n: nat)
    requires j <= |msg|
    ensures j + n <= |msg|
    ensures forall k :: j <= k < j + n ==> IsDigit(msg[k])
    ensures j + n == |msg| || !IsDigit(msg[j + n])
    decreases |msg| - j
  {
    if j < |msg| && IsDigit(msg[j]) then 1 + DigitRun(msg, j + 1) else 0
  }

  /** The length of the match starting at `i`, or 0 when the pattern does not match there. */
  function MatchLen(msg: string, i: nat): (n: nat)
    requires i <= |msg|
    ensures n != 0 ==> IsAccessionAt(msg, i, n)
  {
    if HasPrefixAt(msg, i) then
      var d := DigitRun(msg, i + 3);
      if d >= 4 then 3 + d else 0
    else 0
  }

  /** The match starting at `i`, if any, is the one `MatchLen` measures: the digit run cannot stop early. */
  lemma MatchLenExact(msg: string, i: nat, n: nat)
    requires IsAccessionAt(msg, i, n)
    ensures MatchLen(msg, i) == n
  {
    var d := DigitRun(msg, i + 3);
    assert d == n - 3;
  }

  /** No match can start strictly inside another: its first three characters are letters, the rest digits. */
  lemma NoMatchInsideMatch(msg: string, i: nat, n: nat, j: nat)
    requires IsAccessionAt(msg, i, n)
    requires i < j < i + n
    ensures !HasPrefixAt(msg, j)
  {
  }

  /** `re.findall` from position `i`: take a match and skip past it, or move one character on. */
  function FindAll(msg: string, i: nat): seq<string>
    requires i <= |msg|
    decreases |msg| - i
  {
    if i == |msg| then []
    else
      var n := MatchLen(msg, i);
      if n != 0 then [msg[i..i + n]] + FindAll(msg, i + n)
      else FindAll(msg, i + 1)
  }

  /** `a` is the text of some match starting at or after `i`. */
  ghost predicate MatchFrom(msg: string, i: nat, a: string) {
    exists j: nat, n: nat :: i <= j && IsAccessionAt(msg, j, n) && a == msg[j..j + n]
  }

  /** A match at `i` is a match from `i`. */
  lemma MatchFromHere(msg: string, i: nat, n: nat)
    requires IsAccessionAt(msg, i, n)
    ensures MatchFrom(msg, i, msg[i..i + n])
  {
  }

  /** A match from `k` is a match from any earlier position. */
  lemma MatchFromEarlier(msg: string, i: nat, k: nat, a: string)
    requires i <= k && MatchFrom(msg, k, a)
    ensures MatchFrom(msg, i, a)
  {
    var j: nat, n: nat :| k <= j && IsAccessionAt(msg, j, n) && a == msg[j..j + n];
  }

  /** Every element of `found` is a match from `i`. */
  ghost predicate AllMatchFrom(msg: string, i: nat, found: seq<string>) {
    forall a :: a in found ==> MatchFrom(msg, i, a)
  }

  /** Matches from a later position are matches from `i`, and so is a match at `i` put in front. */
  lemma AllMatchFromStep(msg: string, i: nat, k: nat, found: seq<string>)
    requires i <= k && AllMatchFrom(msg, k, found)
    ensures AllMatchFrom(msg, i, found)
    ensures i <= |msg| && MatchLen(msg, i) != 0 ==> AllMatchFrom(msg, i, [msg[i..i + MatchLen(msg, i)]] + found)
  {
    forall a | a in found
      ensures MatchFrom(msg, i, a)
    {
      MatchFromEarlier(msg, i, k, a);
    }
    if i <= |msg| && MatchLen(msg, i) != 0 {
      MatchFromHere(msg, i, MatchLen(msg, i));
    }
  }

  /** Everything the scan from `i` finds is a match starting at or after `i`. */
  lemma {:induction false} FindAllSound(msg: string, i: nat)
    requires i <= |msg|
    ensures AllMatchFrom(msg, i, FindAll(msg, i))
    decreases |msg| - i
  {
    if i < |msg| {
      FindAllStep(msg, i);
      var m := MatchLen(msg, i);
      var next := if m != 0 then i + m else i + 1;
      FindAllSound(msg, next);
      AllMatchFromStep(msg, i, next, FindAll(msg, next));
    }
  }

  /** The scan at a match records it and skips past it; elsewhere it moves one character on. */
  lemma FindAllStep(msg: string, i: nat)
    requires i < |msg|
    ensures MatchLen(msg, i) != 0 ==>
      FindAll(msg, i) == [msg[i..i + MatchLen(msg, i)]] + FindAll(msg, i + MatchLen(msg, i))
    ensures MatchLen(msg, i) == 0 ==> FindAll(msg, i) == FindAll(msg, i + 1)
  {
  }

  /** A scan that reaches the start of a match records it. */
  lemma FindAllAtMatch(msg: string, j: nat, n: nat)
    requires IsAccessionAt(msg, j, n)
    ensures msg[j..j + n] in FindAll(msg, j)
  {
    MatchLenExact(msg, j, n);
    FindAllStep(msg, j);
  }

  /** A match found before `j` ends at or before any match starting at `j`. */
  lemma SkipStopsBefore(msg: string, i: nat, j: nat, n: nat)
    requires i < j && IsAccessionAt(msg, j, n) && MatchLen(msg, i) != 0
    ensures i + MatchLen(msg, i) <= j
  {
    var m := MatchLen(msg, i);
    if j < i + m {
      NoMatchInsideMatch(msg, i, m, j);
    }
  }

  /** The scan from `i` finds every match that starts at or after `i`. */
  lemma {:induction false} FindAllComplete(msg: string, i: nat, j: nat, n: nat)
    requires i <= j && IsAccessionAt(msg, j, n)
    ensures msg[j..j + n] in FindAll(msg, i)
    decreases |msg| - i
  {
    if i == j {
      FindAllAtMatch(msg, j, n);
    } else {
      FindAllStep(msg, i);
      var m := MatchLen(msg, i);
      if m == 0 {
        FindAllComplete(msg, i + 1, j, n);
      } else {
        SkipStopsBefore(msg, i, j, n);
        FindAllComplete(msg, i + m, j, n);
      }
    }
  }

  /** `extract_accessions`: `list(set(re.findall(...)))`; the order of the result is not promised. */
  function ExtractAccessions(msg: string): (r: seq<string>)
    ensures NoDup(r)
    ensures forall a :: a in r <==> exists j: nat, n: nat :: IsAccessionAt(msg, j, n) && a == msg[j..j + n]
  {
    var all := FindAll(msg, 0);
    DedupElements(all);
    FindAllSound(msg, 0);
    forall a | (exists j: nat, n: nat :: IsAccessionAt(msg, j, n) && a == msg[j..j + n])
      ensures a in all
    {
      var j: nat, n: nat :| IsAccessionAt(msg, j, n) && a == msg[j..j + n];
      FindAllComplete(msg, 0, j, n);
    }
    Dedup(all)
  }

  /** Every accession found begins with SRX or ERX and continues with at least four digits and nothing else. */
  lemma AccessionShape(msg: string, a: string)
    requires a in ExtractAccessions(msg)
    ensures |a| >= 7
    ensures a[..3] == "SRX" || a[..3] == "ERX"
    ensures forall k :: 3 <= k < |a| ==> IsDigit(a[k])
  {
    var j: nat, n: nat :| IsAccessionAt(msg, j, n) && a == msg[j..j + n];
    assert a[0] == msg[j] && a[1] == msg[j + 1] && a[2] == msg[j + 2];
    assert forall k :: 3 <= k < |a| ==> a[k] == msg[j + k];
  }

  /** A worked example: an accession mentioned twice is reported (and, by `NoDup`, once). */
  lemma ExtractAccessionsRepeated()
    ensures "SRX1234" in ExtractAccessions("SRX1234 SRX1234")
  {
    var msg := "SRX1234 SRX1234";
    assert msg[0..7] == "SRX1234";
    assert IsAccessionAt(msg, 0, 7);
  }

  /** A worked example: three digits after the prefix are not an accession. */
  lemma ExtractAccessionsTooShort()
    ensures ExtractAccessions("SRX123") == []
  {
  }
}
