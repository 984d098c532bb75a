/**
 * The Python string built-ins the city-code resolver and the pipeline rely on:
 * `str.lower`, `str.title`, the regular-expression substitution that deletes
 * every character that is neither a word character nor a CJK ideograph,
 * `endswith`, slicing off a suffix, substring `in`, `str(int)` and
 * `sep.join` / `split`.
 *
 * Characters: ASCII letters are the only cased characters; CJK ideographs
 * (U+4E00..U+9FFF) are uncased word characters; digits and `_` are word
 * characters; everything else is an uncased non-word character.
 */
module PyText {

  predicate IsUpper(c: char) { 'A' <= c <= 'Z' }

  predicate IsLower(c: char) { 'a' <= c <= 'z' }

  /** Python's "cased" character: one that has an upper and a lower form. */
  predicate IsCased(c: char) { IsUpper(c) || IsLower(c) }

  predicate IsDigit(c: char) { '0' <= c <= '9' }

  predicate IsCjk(c: char) { '一' <= c <= '鿿' }

  /** A character the name cleaning keeps: a word character or a CJK ideograph. */
  predicate IsWordChar(c: char) { IsCased(c) || IsDigit(c) || c == '_' || IsCjk(c) }

  function LowerChar(c: char): char
  {
    if IsUpper(c) then (c as int + 32) as char else c
  }

  function UpperChar(c: char): char
  {
    if IsLower(c) then (c as int - 32) as char else c
  }

  /** `s.lower()` */
  function Lower(s: string): string
  {
    seq(|s|, i requires 0 <= i < |s| => LowerChar(s[i]))
  }

  /**
   * `s.title()`: a cased character is upper-cased when the character before it
   * is not cased (or it is the first), and lower-cased otherwise; uncased
   * characters are left alone.
   */
  function Title(s: string): string
  {
    seq(|s|, i requires 0 <= i < |s| =>
      if i > 0 && IsCased(s[i - 1]) then LowerChar(s[i]) else UpperChar(s[i]))
  }

  /** The name cleaning: drop every character that is not a word character. */
  function Clean(s: string): string
  {
    if s == [] then []
    else (if IsWordChar(s[0]) then [s[0]] else []) + Clean(s[1..])
  }

  /** `s.endswith(suffix)` */
  predicate EndsWith(s: string, suffix: string)
  {
    |suffix| <= |s| && s[|s| - |suffix|..] == suffix
  }

  /** `needle in hay` for two strings: `needle` occurs as a contiguous slice of `hay`. */
  predicate Contains(hay: string, needle: string)
  {
    exists i :: 0 <= i <= |hay| && needle <= hay[i..]
  }

  // ---------------------------------------------------------------------------
  // Case mapping

  lemma LowerCharKeepsCasedness(c: char)
    ensures IsCased(LowerChar(c)) == IsCased(c)
    ensures IsCased(UpperChar(c)) == IsCased(c)
    ensures UpperChar(LowerChar(c)) == UpperChar(c)
    ensures LowerChar(LowerChar(c)) == LowerChar(c)
  {
  }

  /** `s.lower().title() == s.title()`: title-casing looks only at letters, not at their case. */
  lemma TitleIgnoresCase(s: string)
    ensures Title(Lower(s)) == Title(s)
  {
    var l := Lower(s);
    forall i | 0 <= i < |s| ensures Title(l)[i] == Title(s)[i] {
      LowerCharKeepsCasedness(s[i]);
      if i > 0 { LowerCharKeepsCasedness(s[i - 1]); }
    }
  }

  /** A string without cased characters (digits, `_`, CJK, punctuation) is its own title form. */
  lemma TitleOfUncased(s: string)
    requires forall i :: 0 <= i < |s| ==> !IsCased(s[i])
    ensures Title(s) == s
  {
  }

  // ---------------------------------------------------------------------------
  // Cleaning

  /**
   * Cleaning keeps only word characters, leaves a string of word characters
   * alone and empties a string without any. `CleanChar` and `CleanAppend`
   * below pin down mixed strings: every word character is kept, in order.
   */
  lemma {:induction false} CleanKeepsWordChars(s: string)
    ensures forall i :: 0 <= i < |Clean(s)| ==> IsWordChar(Clean(s)[i])
    ensures (forall i :: 0 <= i < |s| ==> IsWordChar(s[i])) ==> Clean(s) == s
    ensures (forall i :: 0 <= i < |s| ==> !IsWordChar(s[i])) ==> Clean(s) == []
  {
    if s != [] {
      CleanKeepsWordChars(s[1..]);
      var head: string := if IsWordChar(s[0]) then [s[0]] else [];
      assert Clean(s) == head + Clean(s[1..]);
      forall i | 0 <= i < |Clean(s)| ensures IsWordChar(Clean(s)[i]) {
        if i >= |head| { assert Clean(s)[i] == Clean(s[1..])[i - |head|]; }
      }
      if forall i :: 0 <= i < |s| ==> IsWordChar(s[i]) {
        assert forall i :: 0 <= i < |s[1..]| ==> IsWordChar(s[1..][i]);
        assert s == [s[0]] + s[1..];
      }
      if forall i :: 0 <= i < |s| ==> !IsWordChar(s[i]) {
        assert forall i :: 0 <= i < |s[1..]| ==> !IsWordChar(s[1..][i]);
      }
    }
  }

  /** One character is kept exactly when it is a word character. */
  lemma CleanChar(c: char)
    ensures Clean([c]) == if IsWordChar(c) then [c] else []
  {
    assert [c][1..] == [];
  }

  /** Cleaning a concatenation cleans each part: nothing is dropped, added or moved across the seam. */
  lemma {:induction false} CleanAppend(a: string, b: string)
    ensures Clean(a + b) == Clean(a) + Clean(b)
    decreases |a|
  {
    if a == [] {
      assert a + b == b;
    } else {
      assert (a + b)[0] == a[0];
      assert (a + b)[1..] == a[1..] + b;
      CleanAppend(a[1..], b);
    }
  }

  /** Cleaning twice is cleaning once. */
  lemma CleanIdempotent(s: string)
    ensures Clean(Clean(s)) == Clean(s)
  {
    CleanKeepsWordChars(s);
    CleanKeepsWordChars(Clean(s));
  }

  /** Between two runs of word characters, one other character is dropped and the runs are joined. */
  lemma CleanDropsSeparator(a: string, c: char, b: string)
    requires forall i :: 0 <= i < |a| ==> IsWordChar(a[i])
    requires forall i :: 0 <= i < |b| ==> IsWordChar(b[i])
    requires !IsWordChar(c)
    ensures Clean(a + [c] + b) == a + b
  {
    var ac := a + [c];
    assert Clean(ac) == a by {
      CleanAppend(a, [c]);
      CleanChar(c);
      CleanKeepsWordChars(a);
    }
    assert Clean(b) == b by {
      CleanKeepsWordChars(b);
    }
    CleanAppend(ac, b);
  }

  /** "Kun-ming" cleans to "Kunming". */
  lemma CleanHyphenatedName()
    ensures Clean("Kun-ming") == "Kunming"
  {
    assert "Kun-ming" == "Kun" + ['-'] + "ming";
    CleanDropsSeparator("Kun", '-', "ming");
    assert "Kun" + "ming" == "Kunming";
  }

  // ---------------------------------------------------------------------------
  // str(n) for a non-negative int

  function DigitChar(d: nat): char
    requires d < 10
  {
    ('0' as int + d) as char
  }

  function DigitValue(c: char): nat
    requires IsDigit(c)
  {
    c as int - '0' as int
  }

  /** `str(n)`: the decimal digits of `n`, most significant first, without leading zeros. */
  function DecimalString(n: nat): (s: string)
    ensures |s| > 0 && forall i :: 0 <= i < |s| ==> IsDigit(s[i])
    ensures s[0] == '0' ==> n == 0
  {
    if n < 10 then [DigitChar(n)] else DecimalString(n / 10) + [DigitChar(n % 10)]
  }

  /** `int(s)` for a string of decimal digits. */
  function ParseDecimal(s: string): nat
    requires forall i :: 0 <= i < |s| ==> IsDigit(s[i])
  {
    if s == [] then 0 else 10 * ParseDecimal(s[..|s| - 1]) + DigitValue(s[|s| - 1])
  }

  lemma {:induction false} DecimalRoundTrip(n: nat)
    ensures ParseDecimal(DecimalString(n)) == n
  {
    var s := DecimalString(n);
    if n >= 10 {
      DecimalRoundTrip(n / 10);
      assert s[..|s| - 1] == DecimalString(n / 10);
    }
  }

  /** Distinct numbers print differently. */
  lemma DecimalInjective(m: nat, n: nat)
    requires DecimalString(m) == DecimalString(n)
    ensures m == n
  {
    DecimalRoundTrip(m);
    DecimalRoundTrip(n);
  }

  // ---------------------------------------------------------------------------
  // sep.join(parts) and s.split(sep) for a one-character separator

  /** `sep.join(parts)` */
  function Join(parts: seq<string>, sep: char): string
  {
    if parts == [] then []
    else if |parts| == 1 then parts[0]
    else parts[0] + [sep] + Join(parts[1..], sep)
  }

  /** `s.split(sep)`: the maximal sep-free fields; `""` splits into `[""]`. */
  function Split(s: string, sep: char): (fields: seq<string>)
    ensures |fields| >= 1
  {
    if s == [] then [[]]
    else
      var rest := Split(s[1..], sep);
      if s[0] == sep then [[]] + rest else [[s[0]] + rest[0]] + rest[1..]
  }

  lemma {:induction false} SplitSepFree(p: string, sep: char, tail: seq<string>, t: string)
    requires sep !in p
    requires Split(t, sep) == tail
    ensures Split(p, sep) == [p]
    ensures Split(p + [sep] + t, sep) == [p] + tail
  {
    if p != [] {
      SplitSepFree(p[1..], sep, tail, t);
      assert (p + [sep] + t)[1..] == p[1..] + [sep] + t;
      assert [p[0]] + p[1..] == p;
    } else {
      assert p + [sep] + t == [sep] + t;
    }
  }

  /** Joining sep-free fields and splitting again gives the fields back. */
  lemma {:induction false} SplitJoin(parts: seq<string>, sep: char)
    requires |parts| >= 1
    requires forall i :: 0 <= i < |parts| ==> sep !in parts[i]
    ensures Split(Join(parts, sep), sep) == parts
  {
    if |parts| == 1 {
      SplitSepFree(parts[0], sep, [[]], []);
    } else {
      SplitJoin(parts[1..], sep);
      SplitSepFree(parts[0], sep, parts[1..], Join(parts[1..], sep));
      assert [parts[0]] + parts[1..] == parts;
    }
  }
}
