/**
 * The handful of Python string operations the core relies on: `lower`,
 * `strip`, `split`, `in` on strings, `isdigit`, `int` and `str` on decimal
 * numbers, and `join`.
 */
module Text {

  /** Python's `str.isspace` (the whitespace that `strip`, `split()` and
      regular-expression `\s` recognise). */
  predicate IsSpace(c: char) {
    ('\t' <= c <= '\r') || ('\U{1C}' <= c <= '\U{1F}') || c == ' ' || c == '\U{85}' ||
    c == '\U{A0}' || c == '\U{1680}' || ('\U{2000}' <= c <= '\U{200A}') ||
    c == '\U{2028}' || c == '\U{2029}' || c == '\U{202F}' || c == '\U{205F}' || c == '\U{3000}'
  }

  predicate IsDigit(c: char) {
    '0' <= c <= '9'
  }

  predicate AllDigits(s: string) {
    forall i :: 0 <= i < |s| ==> IsDigit(s[i])
  }

  function LowerChar(c: char): char {
    if 'A' <= c <= 'Z' then (c as int - 'A' as int + 'a' as int) as char else c
  }

  /** `str.lower`, on the ASCII letters. */
  function Lower(s: string): (r: string)
    ensures |r| == |s|
    ensures forall i :: 0 <= i < |s| ==> r[i] == LowerChar(s[i])
  {
    seq(|s|, i requires 0 <= i < |s| => LowerChar(s[i]))
  }

  /** Drops leading whitespace: the result is the suffix of `s` after its
      whitespace prefix. */
  function LStrip(s: string): (r: string)
    ensures |r| <= |s| && r == s[|s| - |r|..]
    ensures forall i :: 0 <= i < |s| - |r| ==> IsSpace(s[i])
    ensures r != [] ==> !IsSpace(r[0])
  {
    if s != [] && IsSpace(s[0]) then LStrip(s[1..]) else s
  }

  /** Drops trailing whitespace: the result is the prefix of `s` before its
      whitespace suffix. */
  function RStrip(s: string): (r: string)
    ensures |r| <= |s| && r == s[..|r|]
    ensures forall i :: |r| <= i < |s| ==> IsSpace(s[i])
    ensures r != [] ==> !IsSpace(r[|r| - 1])
  {
    if s != [] && IsSpace(s[|s| - 1]) then RStrip(s[..|s| - 1]) else s
  }

  /** `str.strip()` with no argument. */
  function Strip(s: string): string {
    RStrip(LStrip(s))
  }

  /** `s.lower().strip()`, the normalisation both the resolver and the router
      apply to their input. */
  function Normalize(s: string): string {
    Strip(Lower(s))
  }

  /** No upper-case ASCII letter. */
  predicate IsLowered(s: string) {
    forall i :: 0 <= i < |s| ==> LowerChar(s[i]) == s[i]
  }

  /** No whitespace at either end. */
  predicate IsTrimmed(s: string) {
    s == [] || (!IsSpace(s[0]) && !IsSpace(s[|s| - 1]))
  }

  /** Text already lower-case and stripped is its own normal form. */
  lemma NormalizeKeepsNormal(s: string)
    requires IsLowered(s) && IsTrimmed(s)
    ensures Normalize(s) == s
  {
    LowerKeepsLowered(s);
    StripKeepsTrimmed(s);
  }

  lemma {:induction false} StripKeepsTrimmed(t: string)
    requires IsTrimmed(t)
    ensures Strip(t) == t
  {
    assert LStrip(t) == t;
  }

  lemma {:induction false} LowerKeepsLowered(t: string)
    requires IsLowered(t)
    ensures Lower(t) == t
  {
  }

  /** Normalising twice is normalising once: the resolver, which normalises
      again, sees exactly what the router produced from normalised text. */
  lemma NormalizeIdempotent(s: string)
    ensures Normalize(Normalize(s)) == Normalize(s)
  {
    NormalFormLowered(s);
    NormalFormTrimmed(s);
    NormalizeKeepsNormal(Normalize(s));
  }

  lemma NormalFormLowered(s: string)
    ensures IsLowered(Normalize(s))
  {
    var low := Lower(s);
    forall k | 0 <= k < |low| ensures LowerChar(low[k]) == low[k] {
      LowerCharIdempotent(s[k]);
    }
    SuffixLowered(low, LStrip(low));
    PrefixLowered(LStrip(low), Strip(low));
  }

  /** Stripping keeps a contiguous part of its input, so lower-case text
      stays lower-case. */
  lemma SuffixLowered(u: string, r: string)
    requires IsLowered(u) && |r| <= |u| && r == u[|u| - |r|..]
    ensures IsLowered(r)
  {
    forall i | 0 <= i < |r| ensures LowerChar(r[i]) == r[i] {
      assert r[i] == u[|u| - |r| + i];
    }
  }

  lemma PrefixLowered(u: string, r: string)
    requires IsLowered(u) && |r| <= |u| && r == u[..|r|]
    ensures IsLowered(r)
  {
    forall i | 0 <= i < |r| ensures LowerChar(r[i]) == r[i] {
      assert r[i] == u[i];
    }
  }

  lemma NormalFormTrimmed(s: string)
    ensures IsTrimmed(Normalize(s))
  {
    var l := LStrip(Lower(s));
    var t := RStrip(l);
    if t != [] {
      assert t[0] == l[0];
    }
  }

  lemma LowerCharIdempotent(c: char)
    ensures LowerChar(LowerChar(c)) == LowerChar(c)
  {
    if 'A' <= c <= 'Z' {
      assert 'a' <= LowerChar(c) <= 'z';
    }
  }

  /** Length of the run of digits starting at `i` (a greedy `\d+`). */
  function DigitRun(s: string, i: nat): (k: nat)
    requires i <= |s|
    ensures i + k <= |s|
    ensures forall j :: i <= j < i + k ==> IsDigit(s[j])
    ensures i + k < |s| ==> !IsDigit(s[i + k])
    decreases |s| - i
  {
    if i < |s| && IsDigit(s[i]) then 1 + DigitRun(s, i + 1) else 0
  }

  /** Length of the run of whitespace starting at `i` (a greedy `\s+`). */
  function SpaceRun(s: string, i: nat): (k: nat)
    requires i <= |s|
    ensures i + k <= |s|
    ensures forall j :: i <= j < i + k ==> IsSpace(s[j])
    ensures i + k < |s| ==> !IsSpace(s[i + k])
    decreases |s| - i
  {
    if i < |s| && IsSpace(s[i]) then 1 + SpaceRun(s, i + 1) else 0
  }

  /** A run of a class of characters is unique once it is followed by a
      character outside the class: the greedy match is the only match. */
  lemma {:induction false} DigitRunUnique(s: string, i: nat, k: nat)
    requires i + k <= |s|
    requires forall j :: i <= j < i + k ==> IsDigit(s[j])
    requires i + k < |s| ==> !IsDigit(s[i + k])
    ensures DigitRun(s, i) == k
    decreases k
  {
    if k > 0 {
      DigitRunUnique(s, i + 1, k - 1);
    }
  }

  lemma {:induction false} SpaceRunUnique(s: string, i: nat, k: nat)
    requires i + k <= |s|
    requires forall j :: i <= j < i + k ==> IsSpace(s[j])
    requires i + k < |s| ==> !IsSpace(s[i + k])
    ensures SpaceRun(s, i) == k
    decreases k
  {
    if k > 0 {
      SpaceRunUnique(s, i + 1, k - 1);
    }
  }

  function DigitValue(c: char): nat
    requires IsDigit(c)
  {
    c as int - '0' as int
  }

  function DigitChar(k: nat): (c: char)
    requires k < 10
    ensures IsDigit(c) && DigitValue(c) == k
  {
    ('0' as int + k) as char
  }

  /** `int(s)` for a string of decimal digits. */
  function DecimalValue(s: string): nat
    requires AllDigits(s)
  {
    if s == [] then 0 else 10 * DecimalValue(s[..|s| - 1]) + DigitValue(s[|s| - 1])
  }

  /** `str(n)` for a natural number. */
  function NatToDecimal(n: nat): (r: string)
    ensures |r| >= 1 && AllDigits(r)
  {
    if n < 10 then [DigitChar(n)] else NatToDecimal(n / 10) + [DigitChar(n % 10)]
  }

  lemma {:induction false} DecimalRoundTrip(n: nat)
    ensures DecimalValue(NatToDecimal(n)) == n
  {
    if n >= 10 {
      var r := NatToDecimal(n);
      assert r[..|r| - 1] == NatToDecimal(n / 10);
      DecimalRoundTrip(n / 10);
    }
  }

  function StartsWith(s: string, p: string): bool {
    |p| <= |s| && s[..|p|] == p
  }

  /** `sub` occurs in `s` starting at position `i`. */
  predicate OccursAt(s: string, sub: string, i: nat) {
    i + |sub| <= |s| && s[i..i + |sub|] == sub
  }

  /** Python's `sub in s` on strings. */
  function Contains(s: string, sub: string): (r: bool)
    ensures r <==> exists i: nat :: OccursAt(s, sub, i)
  {
    if |sub| > |s| then false
    else if s[..|sub|] == sub then assert OccursAt(s, sub, 0); true
    else
      var rest := Contains(s[1..], sub);
      assert rest ==> exists i: nat :: OccursAt(s, sub, i) by {
        if rest {
          var i: nat :| OccursAt(s[1..], sub, i);
          assert OccursAt(s, sub, i + 1);
        }
      }
      assert (exists i: nat :: OccursAt(s, sub, i)) ==> rest by {
        if exists i: nat :: OccursAt(s, sub, i) {
          var i: nat :| OccursAt(s, sub, i);
          assert i != 0;
          assert OccursAt(s[1..], sub, i - 1);
        }
      }
      rest
  }

  /** Length of the run of non-whitespace characters starting at `i`. */
  function WordRun(s: string, i: nat): (k: nat)
    requires i <= |s|
    ensures i + k <= |s|
    ensures forall j :: i <= j < i + k ==> !IsSpace(s[j])
    ensures i + k < |s| ==> IsSpace(s[i + k])
    decreases |s| - i
  {
    if i < |s| && !IsSpace(s[i]) then 1 + WordRun(s, i + 1) else 0
  }

  /** A token of `split()`: non-empty, without whitespace. */
  predicate IsWord(w: string) {
    w != [] && forall i :: 0 <= i < |w| ==> !IsSpace(w[i])
  }

  /** `str.split()` with no argument: the maximal runs of non-whitespace. */
  function Words(s: string): (r: seq<string>)
    ensures forall j :: 0 <= j < |r| ==> IsWord(r[j])
    decreases |s|
  {
    var t := LStrip(s);
    if t == [] then []
    else
      var k := WordRun(t, 0);
      FirstWord(t, k);
      var rest := Words(t[k..]);
      WordsCons(t[..k], rest);
      [t[..k]] + rest
  }

  lemma WordsCons(w: string, rest: seq<string>)
    requires IsWord(w) && forall j :: 0 <= j < |rest| ==> IsWord(rest[j])
    ensures forall j :: 0 <= j < |[w] + rest| ==> IsWord(([w] + rest)[j])
  {
  }

  /** A text that does not start with whitespace starts with a word. */
  lemma FirstWord(t: string, k: nat)
    requires t != [] && !IsSpace(t[0])
    requires k <= |t| && forall j :: 0 <= j < k ==> !IsSpace(t[j])
    requires k < |t| ==> IsSpace(t[k])
    ensures 1 <= k && IsWord(t[..k])
  {
  }

  /** `split()` gives no word exactly when the text is all whitespace. */
  lemma WordsEmpty(s: string)
    ensures Words(s) == [] <==> forall i :: 0 <= i < |s| ==> IsSpace(s[i])
  {
    var t := LStrip(s);
    if t != [] {
      assert t[0] == s[|s| - |t|];
    }
  }

  /** Words joined by single spaces split back into the same words. */
  lemma {:induction false} WordsOfJoin(ws: seq<string>)
    requires forall j :: 0 <= j < |ws| ==> IsWord(ws[j])
    ensures Words(Join(ws, " ")) == ws
  {
    if |ws| == 1 {
      WordsOfWord(ws[0]);
    } else if |ws| > 1 {
      var tail := Join(ws[1..], " ");
      assert Join(ws, " ") == ws[0] + " " + tail;
      WordsAfterWord(ws[0], tail);
      WordsOfJoin(ws[1..]);
      assert ws == [ws[0]] + ws[1..];
    }
  }

  /** A single word splits into itself. */
  lemma WordsOfWord(w: string)
    requires IsWord(w)
    ensures Words(w) == [w]
  {
    WholeWordRun(w, w);
    assert w[..|w|] == w && w[|w|..] == [];
  }

  /** A word followed by a space is the first of the words. */
  lemma WordsAfterWord(w: string, x: string)
    requires IsWord(w)
    ensures Words(w + " " + x) == [w] + Words(x)
  {
    var t := w + " " + x;
    assert t[..|w|] == w;
    WholeWordRun(t, w);
    assert t[|w|..] == " " + x;
    LeadingSpaceSplit(x);
  }

  /** A word at the start of a text, ended by whitespace or by the text's
      end, is the first word `split()` reads. */
  lemma WholeWordRun(t: string, w: string)
    requires IsWord(w) && |w| <= |t| && t[..|w|] == w
    requires |w| < |t| ==> IsSpace(t[|w|])
    ensures LStrip(t) == t && WordRun(t, 0) == |w|
  {
    assert t[0] == w[0];
    assert forall j :: 0 <= j < |w| ==> t[j] == w[j];
    RunUpTo(t, 0, |w|);
  }

  /** Non-whitespace from `i` up to whitespace or the end at `n` is the run from `i`. */
  lemma {:induction false} RunUpTo(t: string, i: nat, n: nat)
    requires i <= n <= |t| && forall j :: i <= j < n ==> !IsSpace(t[j])
    requires n < |t| ==> IsSpace(t[n])
    ensures WordRun(t, i) == n - i
    decreases n - i
  {
    if i < n {
      RunUpTo(t, i + 1, n);
    }
  }

  /** A leading space does not change the words. */
  lemma LeadingSpaceSplit(x: string)
    ensures Words(" " + x) == Words(x)
  {
    assert (" " + x)[1..] == x;
    assert LStrip(" " + x) == LStrip(x);
  }

  /** `sep.join(parts)`. */
  function Join(parts: seq<string>, sep: string): string {
    if |parts| == 0 then ""
    else if |parts| == 1 then parts[0]
    else parts[0] + sep + Join(parts[1..], sep)
  }

  function IndexOfChar(s: string, c: char): (i: nat)
    requires c in s
    ensures i < |s| && s[i] == c
    ensures forall j :: 0 <= j < i ==> s[j] != c
  {
    if s[0] == c then 0 else 1 + IndexOfChar(s[1..], c)
  }

  /** `s.split(c)` for a one-character separator: every occurrence splits,
      so empty pieces are kept. */
  function SplitOn(s: string, c: char): (r: seq<string>)
    ensures |r| >= 1
    ensures forall p :: p in r ==> c !in p
    decreases |s|
  {
    if c !in s then [s]
    else
      var i := IndexOfChar(s, c);
      assert c !in s[..i];
      [s[..i]] + SplitOn(s[i + 1..], c)
  }

  /** Splitting and joining again with the same separator gives the input. */
  lemma {:induction false} SplitThenJoin(s: string, c: char)
    ensures Join(SplitOn(s, c), [c]) == s
    decreases |s|
  {
    if c in s {
      var i := IndexOfChar(s, c);
      var rest := SplitOn(s[i + 1..], c);
      SplitThenJoin(s[i + 1..], c);
      assert SplitOn(s, c) == [s[..i]] + rest;
      assert (([s[..i]] + rest)[1..]) == rest;
      assert s == s[..i] + [c] + s[i + 1..];
    }
  }
}
