/** String helpers the core relies on: decimal rendering of ids, the
    zero-padded clock text "HH:MM", JavaScript's string ordering, and the
    trimming and lower-casing used when comparing species names. */
module Text {

  import opened Seqs

  function DigitChar(d: nat): (c: char)
    requires d < 10
    ensures '0' <= c <= '9'
  {
    (48 + d) as char
  }

  /** `${n}` for a non-negative integer: its decimal digits, most significant first. */
  function NatText(n: nat): (r: string)
    ensures |r| >= 1
    ensures forall i :: 0 <= i < |r| ==> '0' <= r[i] <= '9'
    ensures n < 10 <==> |r| == 1
    decreases n
  {
    if n < 10 then [DigitChar(n)] else NatText(n / 10) + [DigitChar(n % 10)]
  }

  /** Different numbers render differently, so an id built from a number
      names that number alone. */
  lemma {:induction false} NatTextInjective(a: nat, b: nat)
    requires NatText(a) == NatText(b)
    ensures a == b
    decreases a
  {
    var ta, tb := NatText(a), NatText(b);
    if a >= 10 && b >= 10 {
      assert ta[..|ta| - 1] == NatText(a / 10);
      assert tb[..|tb| - 1] == NatText(b / 10);
      assert ta[|ta| - 1] == DigitChar(a % 10);
      assert tb[|tb| - 1] == DigitChar(b % 10);
      NatTextInjective(a / 10, b / 10);
    } else {
      assert ta[0] == DigitChar(a) && tb[0] == DigitChar(b);
    }
  }

  /** String(n).padStart(2, '0') */
  function Pad2(n: nat): (r: string)
    ensures n < 100 ==> |r| == 2
  {
    var t := NatText(n);
    if |t| < 2 then "0" + t else t
  }

  /** A padded number starts with '0' exactly when it has one digit. */
  lemma Pad2Leading(n: nat)
    requires n < 100
    ensures Pad2(n)[0] == '0' <==> n < 10
    ensures n < 10 ==> Pad2(n)[1] == DigitChar(n)
  {
    if n >= 10 {
      assert NatText(n) == [DigitChar(n / 10)] + [DigitChar(n % 10)];
    }
  }

  lemma Pad2Injective(a: nat, b: nat)
    requires a < 100 && b < 100
    requires Pad2(a) == Pad2(b)
    ensures a == b
  {
    Pad2Leading(a);
    Pad2Leading(b);
    if a >= 10 && b >= 10 {
      NatTextInjective(a, b);
    }
  }

  /** The wall-clock text `${HH}:${MM}` built from the hour and the minute. */
  function ClockText(hour: nat, minute: nat): (r: string)
    ensures hour < 100 && minute < 100 ==> |r| == 5 && r[2] == ':'
  {
    Pad2(hour) + ":" + Pad2(minute)
  }

  /** Two different minutes of the day never share a clock text. */
  lemma ClockTextInjective(h1: nat, m1: nat, h2: nat, m2: nat)
    requires h1 < 24 && m1 < 60 && h2 < 24 && m2 < 60
    requires ClockText(h1, m1) == ClockText(h2, m2)
    ensures h1 == h2 && m1 == m2
  {
    var c1, c2 := ClockText(h1, m1), ClockText(h2, m2);
    assert c1[..2] == Pad2(h1) && c2[..2] == Pad2(h2);
    assert c1[3..] == Pad2(m1) && c2[3..] == Pad2(m2);
    Pad2Injective(h1, h2);
    Pad2Injective(m1, m2);
  }

  // ---------------------------------------------------------------------
  // Ordering of strings

  /** a <= b in JavaScript's string comparison: lexicographic by character,
      a proper prefix coming first. */
  predicate StrLe(a: string, b: string) {
    if a == [] then true
    else if b == [] then false
    else if a[0] != b[0] then a[0] < b[0]
    else StrLe(a[1..], b[1..])
  }

  lemma {:induction false} StrLeTotal(a: string, b: string)
    ensures StrLe(a, b) || StrLe(b, a)
  {
    if a != [] && b != [] && a[0] == b[0] {
      StrLeTotal(a[1..], b[1..]);
    }
  }

  lemma {:induction false} StrLeTransitive(a: string, b: string, c: string)
    requires StrLe(a, b) && StrLe(b, c)
    ensures StrLe(a, c)
  {
    if a != [] && b != [] && c != [] && a[0] == b[0] && b[0] == c[0] {
      StrLeTransitive(a[1..], b[1..], c[1..]);
    }
  }

  lemma {:induction false} StrLeAntisymmetric(a: string, b: string)
    requires StrLe(a, b) && StrLe(b, a)
    ensures a == b
  {
    if a != [] && b != [] {
      StrLeAntisymmetric(a[1..], b[1..]);
      assert a == [a[0]] + a[1..];
      assert b == [b[0]] + b[1..];
    }
  }

  lemma StrLeTotalPreorder()
    ensures TotalPreorder(StrLe)
  {
    forall a, b ensures StrLe(a, b) || StrLe(b, a) {
      StrLeTotal(a, b);
    }
    forall a, b, c | StrLe(a, b) && StrLe(b, c) ensures StrLe(a, c) {
      StrLeTransitive(a, b, c);
    }
  }

  // ---------------------------------------------------------------------
  // Trimming and case

  /** The white-space and line-terminator characters that String.prototype.trim removes
      (the Unicode space separators beyond U+00A0 are not listed). */
  predicate IsSpace(c: char) {
    c == ' ' || c == '\t' || c == '\n' || c == '\r' || c == '\U{0B}' || c == '\U{0C}'
    || c == '\U{A0}' || c == '\U{FEFF}' || c == '\U{2028}' || c == '\U{2029}'
  }

  function TrimStart(s: string): (r: string)
    ensures |r| <= |s| && r == s[|s| - |r|..]
    ensures r != [] ==> !IsSpace(r[0])
    ensures forall i :: 0 <= i < |s| - |r| ==> IsSpace(s[i])
  {
    if s != [] && IsSpace(s[0]) then TrimStart(s[1..]) else s
  }

  function TrimEnd(s: string): (r: string)
    ensures |r| <= |s| && r == s[..|r|]
    ensures r != [] ==> !IsSpace(r[|r| - 1])
    ensures forall i :: |r| <= i < |s| ==> IsSpace(s[i])
  {
    if s != [] && IsSpace(s[|s| - 1]) then TrimEnd(s[..|s| - 1]) else s
  }

  /** Trimming: the input without its leading and trailing white space. */
  function Trim(s: string): (r: string)
    ensures exists i, j :: 0 <= i <= j <= |s| && r == s[i..j]
                           && (forall k :: 0 <= k < i ==> IsSpace(s[k]))
                           && (forall k :: j <= k < |s| ==> IsSpace(s[k]))
    ensures r != [] ==> !IsSpace(r[0]) && !IsSpace(r[|r| - 1])
    ensures r == [] <==> forall i :: 0 <= i < |s| ==> IsSpace(s[i])
  {
    var t := TrimStart(s);
    var r := TrimEnd(t);
    assert r != [] ==> r[0] == t[0];
    var i := |s| - |t|;
    assert r == s[i..i + |r|];
    r
  }

  /** An upper-case ASCII letter becomes its lower-case letter; every other
      character is kept. */
  function LowerChar(c: char): (d: char)
    ensures !('A' <= d <= 'Z')
    ensures 'A' <= c <= 'Z' ==> d as int == c as int + 32
    ensures !('A' <= c <= 'Z') ==> d == c
  {
    if 'A' <= c <= 'Z' then (c as int + 32) as char else c
  }

  /** String.prototype.toLowerCase on the ASCII letters. */
  function Lower(s: string): (r: string)
    ensures |r| == |s|
    ensures forall i :: 0 <= i < |r| ==> r[i] == LowerChar(s[i]) && !('A' <= r[i] <= 'Z')
  {
    seq(|s|, i requires 0 <= i < |s| => LowerChar(s[i]))
  }

  /** The two strings are equal once both are lower-cased. */
  predicate SameIgnoringCase(a: string, b: string) {
    Lower(a) == Lower(b)
  }

  /** Two characters are one character, or the upper- and lower-case forms of
      one ASCII letter. */
  predicate SameLetter(c: char, d: char) {
    || c == d
    || ('A' <= c <= 'Z' && d as int == c as int + 32)
    || ('A' <= d <= 'Z' && c as int == d as int + 32)
  }

  /** Equality ignoring case, position by position: equal lengths, and at each
      index the same character or the two cases of one letter. */
  lemma SameIgnoringCaseIff(a: string, b: string)
    ensures SameIgnoringCase(a, b) <==> |a| == |b| && forall i :: 0 <= i < |a| ==> SameLetter(a[i], b[i])
  {
    if SameIgnoringCase(a, b) {
      forall i | 0 <= i < |a| ensures SameLetter(a[i], b[i]) {
        assert Lower(a)[i] == Lower(b)[i];
      }
    }
    if |a| == |b| && forall i :: 0 <= i < |a| ==> SameLetter(a[i], b[i]) {
      forall i | 0 <= i < |a| ensures Lower(a)[i] == Lower(b)[i] {
        assert SameLetter(a[i], b[i]);
      }
    }
  }

  /** Lower-casing twice is lower-casing once. */
  lemma LowerIdempotent(s: string)
    ensures Lower(Lower(s)) == Lower(s)
  {
  }

  /** A string without upper-case letters is its own lower-case form. */
  lemma LowerKeepsLowerCase(s: string)
    requires forall i :: 0 <= i < |s| ==> !('A' <= s[i] <= 'Z')
    ensures Lower(s) == s
  {
  }
}
