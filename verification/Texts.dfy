/** Key and event-name normalisation shared by redaction and sampling: ASCII only. */
module Texts {
  predicate IsSpace(c: char) { c == ' ' || '\t' <= c <= '\r' }

  function Trim(s: string): string
    decreases |s|
  {
    if s == [] then s
    else if IsSpace(s[0]) then Trim(s[1..])
    else if IsSpace(s[|s| - 1]) then Trim(s[..|s| - 1])
    else s
  }

  function Lower(s: string): string {
    seq(|s|, i requires 0 <= i < |s| => if 'A' <= s[i] <= 'Z' then s[i] + ' ' else s[i])
  }

  predicate StartsWith(s: string, prefix: string) { prefix <= s }

  predicate At(s: string, i: nat, sub: string) { i + |sub| <= |s| && s[i..i + |sub|] == sub }

  predicate Contains(s: string, sub: string) { exists i: nat :: i <= |s| && At(s, i, sub) }

  // ---- what these come to, without them ----

  predicate White(c: char) { c in {' ', '\t', '\n', 11 as char, 12 as char, '\r'} }

  /** The same letter but for ASCII case. */
  predicate SameLetter(a: char, b: char) {
    a == b || ('A' <= a <= 'Z' && b as int == a as int + 32) || ('A' <= b <= 'Z' && a as int == b as int + 32)
  }

  predicate AllWhite(k: string, i: nat, j: nat)
    requires j <= |k|
  {
    forall p | i <= p < j :: White(k[p])
  }

  /** The letters of s stand in k from i on. */
  predicate LettersAt(k: string, i: nat, s: string) {
    i + |s| <= |k| && forall p | 0 <= p < |s| :: SameLetter(k[i + p], s[p])
  }

  /** k is s in any case, with white space around. */
  ghost predicate SameKey(k: string, s: string) {
    exists i: nat :: LettersAt(k, i, s) && AllWhite(k, 0, i) && AllWhite(k, i + |s|, |k|)
  }

  /** k has s in it, in any case. */
  ghost predicate HasAlike(k: string, s: string) { exists i: nat :: LettersAt(k, i, s) }

  /** Behind white space k starts with s, in any case. */
  ghost predicate StartsAlike(k: string, s: string) { exists i: nat :: LettersAt(k, i, s) && AllWhite(k, 0, i) }

  /** In lower case and without white space around. */
  predicate Plain(s: string) {
    && (forall p | 0 <= p < |s| :: !('A' <= s[p] <= 'Z'))
    && (s != [] ==> !White(s[0]) && !White(s[|s| - 1]))
  }

  /** t is k from i on, and around it k is white. */
  predicate Span(k: string, t: string, i: nat) {
    i + |t| <= |k| && t == k[i..i + |t|] && AllWhite(k, 0, i) && AllWhite(k, i + |t|, |k|)
  }

  lemma SpanBehind(k: string, t: string, i: nat)
    requires k != [] && White(k[0]) && Span(k[1..], t, i)
    ensures Span(k, t, i + 1)
  {
    assert forall p | 1 <= p < |k| :: k[p] == k[1..][p - 1];
  }

  lemma SpanBefore(k: string, t: string, i: nat)
    requires k != [] && White(k[|k| - 1]) && Span(k[..|k| - 1], t, i)
    ensures Span(k, t, i)
  {
    assert forall p | 0 <= p < |k| - 1 :: k[p] == k[..|k| - 1][p];
  }

  lemma {:induction false} TrimSpan(k: string) returns (i: nat)
    ensures Span(k, Trim(k), i)
    ensures Trim(k) != [] ==> !White(Trim(k)[0]) && !White(Trim(k)[|Trim(k)| - 1])
    decreases |k|
  {
    i := 0;
    if k != [] && IsSpace(k[0]) {
      var j := TrimSpan(k[1..]);
      SpanBehind(k, Trim(k[1..]), j);
      i := j + 1;
    } else if k != [] && IsSpace(k[|k| - 1]) {
      i := TrimSpan(k[..|k| - 1]);
      SpanBefore(k, Trim(k[..|k| - 1]), i);
    } else {
      assert k[0..|k|] == k;
    }
  }

  /** Trim takes off white space and nothing else. */
  lemma TrimIs(k: string, i: nat, n: nat)
    requires i + n <= |k| && AllWhite(k, 0, i) && AllWhite(k, i + n, |k|)
    requires n > 0 ==> !White(k[i]) && !White(k[i + n - 1])
    ensures Trim(k) == k[i..i + n]
  {
    var j := TrimSpan(k);
    SameSpan(k, i, n, j, |Trim(k)|);
  }

  /** There is one such span, but for where an empty one stands. */
  lemma SameSpan(k: string, i: nat, n: nat, j: nat, m: nat)
    requires i + n <= |k| && j + m <= |k|
    requires AllWhite(k, 0, i) && AllWhite(k, i + n, |k|) && AllWhite(k, 0, j) && AllWhite(k, j + m, |k|)
    requires n > 0 ==> !White(k[i]) && !White(k[i + n - 1])
    requires m > 0 ==> !White(k[j]) && !White(k[j + m - 1])
    ensures n == m && (n > 0 ==> i == j)
  {
    if n > 0 { Within(k, i, n, j, m); }
    if m > 0 { Within(k, j, m, i, n); }
  }

  lemma Within(k: string, i: nat, n: nat, j: nat, m: nat)
    requires i + n <= |k| && j + m <= |k| && n > 0 && !White(k[i]) && !White(k[i + n - 1])
    requires AllWhite(k, 0, j) && AllWhite(k, j + m, |k|)
    ensures j <= i && i + n <= j + m
  {
  }

  lemma LowerLetter(a: char, b: char)
    requires !('A' <= b <= 'Z')
    ensures (if 'A' <= a <= 'Z' then a + ' ' else a) == b <==> SameLetter(a, b)
    ensures SameLetter(a, b) ==> (White(a) <==> White(b))
  {
  }

  lemma LowerAt(k: string, i: nat, s: string)
    requires i + |s| <= |k| && forall p | 0 <= p < |s| :: !('A' <= s[p] <= 'Z')
    ensures Lower(k)[i..i + |s|] == s <==> LettersAt(k, i, s)
  {
    forall p | 0 <= p < |s| ensures Lower(k)[i..i + |s|][p] == s[p] <==> SameLetter(k[i + p], s[p]) {
      LowerLetter(k[i + p], s[p]);
    }
    if LettersAt(k, i, s) { assert forall p | 0 <= p < |s| :: Lower(k)[i..i + |s|][p] == s[p]; }
    if Lower(k)[i..i + |s|] == s { assert forall p | 0 <= p < |s| :: SameLetter(k[i + p], s[p]); }
  }

  lemma FoundIsSpelt(k: string, s: string)
    requires Plain(s) && Lower(Trim(k)) == s
    ensures SameKey(k, s)
  {
    var i := TrimSpan(k);
    LowerAt(Trim(k), 0, s);
    assert Lower(Trim(k))[0..0 + |s|] == s;
    ShiftLetters(k, i, Trim(k), 0, s);
  }

  lemma SpeltIsFound(k: string, s: string)
    requires Plain(s) && SameKey(k, s)
    ensures Lower(Trim(k)) == s
  {
    var j: nat :| LettersAt(k, j, s) && AllWhite(k, 0, j) && AllWhite(k, j + |s|, |k|);
    if s != [] {
      LowerLetter(k[j], s[0]);
      LowerLetter(k[j + |s| - 1], s[|s| - 1]);
    }
    TrimIs(k, j, |s|);
    SpeltLowers(k, j, s);
  }

  lemma SpeltLowers(k: string, j: nat, s: string)
    requires Plain(s) && LettersAt(k, j, s)
    ensures Lower(k[j..j + |s|]) == s
  {
    var t := k[j..j + |s|];
    assert LettersAt(t, 0, s) by { assert forall p | 0 <= p < |s| :: t[p] == k[j + p]; }
    LowerAt(t, 0, s);
    assert Lower(t)[0..|s|] == Lower(t);
  }

  /** A key is looked up, trimmed and in lower case, as exactly those plain keys it spells. */
  lemma KeyIs(k: string, s: string)
    requires Plain(s)
    ensures Lower(Trim(k)) == s <==> SameKey(k, s)
  {
    if Lower(Trim(k)) == s { FoundIsSpelt(k, s); }
    if SameKey(k, s) { SpeltIsFound(k, s); }
  }

  lemma LowerTrimIsPlain(k: string)
    ensures Plain(Lower(Trim(k)))
  {
    var i := TrimSpan(k);
    var t := Trim(k);
    if t != [] {
      LowerLetter(t[0], Lower(t)[0]);
      LowerLetter(t[|t| - 1], Lower(t)[|t| - 1]);
    }
  }

  predicate NoWhite(s: string) { s != [] && forall p | 0 <= p < |s| :: !White(s[p]) && !('A' <= s[p] <= 'Z') }

  lemma ShiftLetters(k: string, i: nat, t: string, j: nat, s: string)
    requires i + |t| <= |k| && t == k[i..i + |t|] && LettersAt(t, j, s)
    ensures LettersAt(k, i + j, s)
  {
    forall p | 0 <= p < |s| ensures SameLetter(k[i + j + p], s[p]) {
      assert k[i + j + p] == t[j + p];
    }
  }

  /** A word without white space is in the trimmed lower-case text exactly where the text has it
      in any case. */
  lemma ContainsIs(k: string, s: string)
    requires NoWhite(s)
    ensures Contains(Lower(Trim(k)), s) <==> HasAlike(k, s)
  {
    if Contains(Lower(Trim(k)), s) { ContainsHas(k, s); }
    if HasAlike(k, s) { HasContains(k, s); }
  }

  lemma ContainsHas(k: string, s: string)
    requires NoWhite(s) && Contains(Lower(Trim(k)), s)
    ensures HasAlike(k, s)
  {
    var i := TrimSpan(k);
    var j: nat :| j <= |Lower(Trim(k))| && At(Lower(Trim(k)), j, s);
    LowerAt(Trim(k), j, s);
    ShiftLetters(k, i, Trim(k), j, s);
  }

  lemma HasContains(k: string, s: string)
    requires NoWhite(s) && HasAlike(k, s)
    ensures Contains(Lower(Trim(k)), s)
  {
    var i := TrimSpan(k);
    var j: nat :| LettersAt(k, j, s);
    InsideTrim(k, i, j, s);
    LowerAt(Trim(k), j - i, s);
    assert At(Lower(Trim(k)), j - i, s);
  }

  lemma InsideTrim(k: string, i: nat, j: nat, s: string)
    requires NoWhite(s) && LettersAt(k, j, s)
    requires i + |Trim(k)| <= |k| && Trim(k) == k[i..i + |Trim(k)|]
    requires AllWhite(k, 0, i) && AllWhite(k, i + |Trim(k)|, |k|)
    ensures i <= j && LettersAt(Trim(k), j - i, s)
  {
    LowerLetter(k[j], s[0]);
    LowerLetter(k[j + |s| - 1], s[|s| - 1]);
    assert forall p | 0 <= p < |s| :: SameLetter(k[j + p], s[p]);
    forall p | 0 <= p < |s| ensures SameLetter(Trim(k)[j - i + p], s[p]) {
      assert Trim(k)[j - i + p] == k[j + p];
    }
  }

  lemma StartsIs(k: string, s: string)
    requires NoWhite(s)
    ensures StartsWith(Lower(Trim(k)), s) <==> StartsAlike(k, s)
  {
    var i := TrimSpan(k);
    var t := Trim(k);
    if StartsWith(Lower(t), s) {
      LowerAt(t, 0, s);
      assert Lower(t)[0..0 + |s|] == s;
      ShiftLetters(k, i, t, 0, s);
    }
    if j: nat :| LettersAt(k, j, s) && AllWhite(k, 0, j) {
      InsideTrim(k, i, j, s);
      LowerLetter(k[j], s[0]);
      LowerAt(t, 0, s);
    }
  }
}
