/**
 What the text functions mean, place by place: runs of characters, stripping, slicing and numerals.
 */
module TextMeaning {
  import opened Text

  // ---------------------------------------------------------------------------
  // Kinds of characters, written out
  // ---------------------------------------------------------------------------

  /** The ASCII whitespace of Python's `\s`. */
  predicate White(c: char) {
    c in {' ', '\t', '\n', '\U{b}', '\U{c}', '\r', '\U{1c}', '\U{1d}', '\U{1e}', '\U{1f}'}
  }

  lemma SpaceIsWhite(c: char)
    ensures IsSpace(c) <==> White(c)
  {
  }

  lemma DigitIsOneOfTen(c: char)
    ensures IsDigit(c) <==> c in "0123456789"
  {
    if IsDigit(c) {
      assert c == "0123456789"[c as int - '0' as int];
    }
  }

  /** Lower case takes A, B, ..., Z to a, b, ..., z and leaves everything else alone. */
  lemma LowersLetters(c: char)
    ensures LowerChar('A') == 'a' && LowerChar('Z') == 'z'
    ensures 'A' <= c < 'Z' ==> LowerChar((c as int + 1) as char) as int == LowerChar(c) as int + 1
    ensures !('A' <= c <= 'Z') ==> LowerChar(c) == c
  {
  }

  // ---------------------------------------------------------------------------
  // Runs
  // ---------------------------------------------------------------------------

  /** Places i to j hold characters of one kind, and it goes no further on either side. */
  ghost predicate MaximalRun(kind: char -> bool, s: string, i: nat, j: nat) {
    && i < j <= |s|
    && (forall k | i <= k < j :: kind(s[k]))
    && (i > 0 ==> !kind(s[i - 1]))
    && (j < |s| ==> !kind(s[j]))
  }

  /** The run of word characters from q is still open at p. */
  ghost predicate OpenRun(kind: char -> bool, s: string, q: nat, p: nat) {
    && q <= p <= |s|
    && (forall k | q <= k < p :: kind(s[k]))
    && (q > 0 ==> !kind(s[q - 1]))
  }

  lemma RunGoesOn(s: string, q: nat, p: nat)
    requires q <= p < |s|
    ensures s[q..p] + [s[p]] == s[q..p + 1] && s[p..][0] == s[p] && s[p..][1..] == s[p + 1..] && s[p + 1..p + 1] == ""
  {
  }

  /** A run that starts inside an open one is that one. */
  lemma SameRun(kind: char -> bool, s: string, q: nat, p: nat, i: nat, j: nat)
    requires OpenRun(kind, s, q, p) && (p < |s| ==> !kind(s[p])) && MaximalRun(kind, s, i, j) && q <= i <= p
    ensures i == q && j == p
  {
  }

  lemma {:induction false} WordAt(s: string, q: nat, p: nat, i: nat, j: nat)
    requires OpenRun(IsWord, s, q, p) && q <= i && MaximalRun(IsWord, s, i, j) && j - i >= 3
    ensures s[i..j] in WordsAfter(s[q..p], s[p..])
    decreases |s| - p
  {
    if p < |s| {
      RunGoesOn(s, q, p);
    }
    if p < |s| && IsWord(s[p]) {
      WordAt(s, q, p + 1, i, j);
    } else if i <= p {
      SameRun(IsWord, s, q, p, i, j);
    } else {
      WordAt(s, p + 1, p + 1, i, j);
    }
  }

  lemma {:induction false} WordWhere(s: string, q: nat, p: nat, w: string) returns (i: nat, j: nat)
    requires OpenRun(IsWord, s, q, p) && w in WordsAfter(s[q..p], s[p..])
    ensures MaximalRun(IsWord, s, i, j) && j - i >= 3 && s[i..j] == w
    decreases |s| - p
  {
    if p < |s| {
      RunGoesOn(s, q, p);
    }
    if p < |s| && IsWord(s[p]) {
      i, j := WordWhere(s, q, p + 1, w);
    } else if p - q >= 3 && w == s[q..p] {
      i, j := q, p;
    } else {
      i, j := WordWhere(s, p + 1, p + 1, w);
    }
  }

  /** Places i to j hold the word `w`: three word characters or more, and no more on either side. */
  ghost predicate WordPlace(s: string, w: string, i: nat, j: nat) {
    MaximalRun(IsWord, s, i, j) && j - i >= 3 && s[i..j] == w
  }

  /** The words of a text are its runs of three or more letters, digits and underscores. */
  lemma WordsAreRuns(s: string, w: string)
    ensures w in Words(s) <==> exists i: nat, j: nat :: WordPlace(s, w, i, j)
  {
    assert s[0..0] == "" && s[0..] == s;
    if w in Words(s) {
      var i, j := WordWhere(s, 0, 0, w);
      assert WordPlace(s, w, i, j);
    }
    forall i: nat, j: nat | WordPlace(s, w, i, j) ensures w in Words(s) {
      WordAt(s, 0, 0, i, j);
    }
  }

  // ---------------------------------------------------------------------------
  // Ends
  // ---------------------------------------------------------------------------

  lemma {:induction false} LeftStripped(s: string) returns (i: nat)
    ensures i <= |s| && StripLeft(s) == s[i..]
    ensures (forall k | 0 <= k < i :: White(s[k])) && (i < |s| ==> !White(s[i]))
  {
    i := 0;
    if s != "" && IsSpace(s[0]) {
      i := LeftStripped(s[1..]);
      forall k | 0 <= k < i + 1 ensures White(s[k]) {
        assert k > 0 ==> s[k] == s[1..][k - 1];
      }
      i := i + 1;
    }
  }

  lemma {:induction false} RightStripped(s: string) returns (j: nat)
    ensures j <= |s| && StripRight(s) == s[..j]
    ensures (forall k | j <= k < |s| :: White(s[k])) && (j > 0 ==> !White(s[j - 1]))
  {
    j := |s|;
    if s != "" && IsSpace(s[|s| - 1]) {
      j := RightStripped(s[..|s| - 1]);
    }
  }

  /** Stripping takes the whitespace off both ends and nothing else. */
  lemma StripsWhitespace(s: string) returns (i: nat, j: nat)
    ensures i <= j <= |s| && Strip(s) == s[i..j]
    ensures forall k | 0 <= k < |s| && !(i <= k < j) :: White(s[k])
    ensures i < j ==> !White(s[i]) && !White(s[j - 1])
  {
    i := LeftStripped(s);
    var n := RightStripped(s[i..]);
    j := i + n;
    assert s[i..][..n] == s[i..j];
    assert forall k | j <= k < |s| :: s[k] == s[i..][k - i];
    assert i < j ==> s[j - 1] == s[i..][n - 1];
  }

  /** `s[:n]` as Python has it: a negative end counts from the back. */
  lemma UptoIsASlice(s: string, n: int)
    ensures n >= 0 ==> Upto(s, n) == (if n <= |s| then s[..n] else s)
    ensures n < 0 ==> Upto(s, n) == (if |s| + n >= 0 then s[..|s| + n] else "")
  {
  }

  // ---------------------------------------------------------------------------
  // Blank lines
  // ---------------------------------------------------------------------------

  predicate BreakAt(s: string, k: int) {
    0 <= k && k + 2 <= |s| && s[k] == '\n' && s[k + 1] == '\n'
  }

  lemma BreakIsAt(s: string, k: int)
    ensures BreakAt(s, k) <==> 0 <= k && k + 2 <= |s| && s[k..k + 2] == BREAK
  {
    if BreakAt(s, k) {
      assert s[k..k + 2] == BREAK;
    } else if 0 <= k && k + 2 <= |s| {
      assert s[k..k + 2][0] == s[k] && s[k..k + 2][1] == s[k + 1];
    }
  }

  /** No blank line begins before the first break. */
  lemma {:induction false} FirstBreakIsFirst(s: string)
    ensures FirstBreak(s) < |s| ==> BreakAt(s, FirstBreak(s))
    ensures forall k | BreakAt(s, k) :: FirstBreak(s) <= k
  {
    BreakIsAt(s, FirstBreak(s));
    if s != "" && !(BREAK <= s) {
      FirstBreakIsFirst(s[1..]);
      forall k | BreakAt(s, k) ensures FirstBreak(s) <= k {
        assert k > 0 ==> BreakAt(s[1..], k - 1);
      }
    }
  }

  /** And none after the last. */
  lemma {:induction false} LastBreakIsLast(s: string)
    ensures LastBreak(s) >= 0 ==> BreakAt(s, LastBreak(s))
    ensures forall k | BreakAt(s, k) :: k <= LastBreak(s)
  {
    if |s| >= 2 {
      assert s[|s| - 2..] == [s[|s| - 2], s[|s| - 1]];
      var t := s[..|s| - 1];
      LastBreakIsLast(t);
      forall k | BreakAt(s, k) ensures k <= LastBreak(s) {
        assert k + 2 < |s| ==> BreakAt(t, k);
      }
    }
  }

  // ---------------------------------------------------------------------------
  // Numerals
  // ---------------------------------------------------------------------------

  /** The number a decimal numeral stands for. */
  function Value(s: string): int
    requires forall i | 0 <= i < |s| :: IsDigit(s[i])
  {
    if s == "" then 0 else 10 * Value(s[..|s| - 1]) + (s[|s| - 1] as int - '0' as int)
  }

  /** A numeral stands for its number, and has no leading zero. */
  lemma {:induction false} DecimalReadsBack(n: nat)
    ensures Value(Decimal(n)) == n && (n > 0 ==> Decimal(n)[0] != '0')
  {
    var s := Decimal(n);
    if n >= 10 {
      DecimalReadsBack(n / 10);
      assert s[..|s| - 1] == Decimal(n / 10);
    } else {
      assert s[..|s| - 1] == "";
    }
  }
}
