/** The string primitives the code takes from Python: `str.strip` and `str.split`. */
module Text {
  import opened Wrappers

  /** The characters Python's `str.strip()` removes. */
  predicate IsSpace(c: char) {
    '\t' <= c <= '\r' || '\U{1C}' <= c <= ' ' || c == '\U{85}' || c == '\U{A0}' || c == '\U{1680}' ||
    '\U{2000}' <= c <= '\U{200A}' || c == '\U{2028}' || c == '\U{2029}' || c == '\U{202F}' ||
    c == '\U{205F}' || c == '\U{3000}'
  }

  function Strip(s: string): (r: string)
    ensures |r| <= |s|
    ensures r != [] ==> !IsSpace(r[0]) && !IsSpace(r[|r| - 1])
    ensures s == [] || IsSpace(s[0]) || IsSpace(s[|s| - 1]) || r == s
  {
    if s == [] then s
    else if IsSpace(s[0]) then Strip(s[1..])
    else if IsSpace(s[|s| - 1]) then Strip(s[..|s| - 1])
    else s
  }

  predicate AllSpace(s: string) {
    forall i :: 0 <= i < |s| ==> IsSpace(s[i])
  }

  /** Nothing to strip at either end. */
  predicate Trimmed(s: string) {
    s == [] || (!IsSpace(s[0]) && !IsSpace(s[|s| - 1]))
  }

  /** Of any text, `strip` leaves what stands between the white space around it. */
  lemma {:induction false} PaddedStrips(a: string, t: string, b: string)
    requires AllSpace(a) && Trimmed(t) && AllSpace(b)
    ensures Strip(a + t + b) == t
    decreases |a| + |b|
  {
    hide IsSpace;
    var s := a + t + b;
    if a != [] {
      assert s[0] == a[0] && s[1..] == a[1..] + t + b;
      PaddedStrips(a[1..], t, b);
    } else if t == [] {
      SpaceStrips(s);
    } else if b != [] {
      assert s[0] == t[0] && s[|s| - 1] == b[|b| - 1] && s[..|s| - 1] == a + t + b[..|b| - 1];
      PaddedStrips(a, t, b[..|b| - 1]);
    } else {
      assert s == t;
    }
  }

  lemma {:induction false} SpaceStrips(s: string)
    requires AllSpace(s)
    ensures Strip(s) == []
  {
    hide IsSpace;
    if s != [] {
      SpaceStrips(s[1..]);
    }
  }

  lemma StripCases(s: string)
    ensures Strip(s) == if s == [] then s
                        else if IsSpace(s[0]) then Strip(s[1..])
                        else if IsSpace(s[|s| - 1]) then Strip(s[..|s| - 1])
                        else s
    ensures Trimmed(Strip(s))
  {
  }

  lemma PadFront(s: string, a: string, t: string, b: string)
    requires s != [] && IsSpace(s[0]) && s[1..] == a + t + b && AllSpace(a)
    ensures s == ([s[0]] + a) + t + b && AllSpace([s[0]] + a)
  {
    hide IsSpace;
    assert s == [s[0]] + s[1..];
  }

  lemma PadBack(s: string, a: string, t: string, b: string)
    requires s != [] && IsSpace(s[|s| - 1]) && s[..|s| - 1] == a + t + b && AllSpace(b)
    ensures s == a + t + (b + [s[|s| - 1]]) && AllSpace(b + [s[|s| - 1]])
  {
    hide IsSpace;
    assert s == s[..|s| - 1] + [s[|s| - 1]];
  }

  lemma NoPad(s: string)
    ensures s == [] + s + [] && AllSpace([])
  {
  }

  /** Every text is what `strip` leaves of it, between white space. */
  lemma {:induction false} StripPads(s: string) returns (a: string, b: string)
    ensures s == a + Strip(s) + b && AllSpace(a) && AllSpace(b) && Trimmed(Strip(s))
  {
    hide *;
    StripCases(s);
    NoPad(s);
    a, b := [], [];
    if s != [] && IsSpace(s[0]) {
      a, b := StripPads(s[1..]);
      PadFront(s, a, Strip(s), b);
      a := [s[0]] + a;
    } else if s != [] && IsSpace(s[|s| - 1]) {
      a, b := StripPads(s[..|s| - 1]);
      PadBack(s, a, Strip(s), b);
      b := b + [s[|s| - 1]];
    }
  }

  /** `str.split(sep)`: the pieces between occurrences of one separator character. */
  function Split(s: string, sep: char): (parts: seq<string>)
    ensures parts != []
    ensures forall i :: 0 <= i < |parts| ==> |parts[i]| <= |s| && sep !in parts[i]
  {
    if s == [] then [[]]
    else
      var rest := Split(s[1..], sep);
      if s[0] == sep then [[]] + rest else [[s[0]] + rest[0]] + rest[1..]
  }

  /** `str.split()`: the maximal runs of characters that are not white space. */
  function Words(s: string): (words: seq<string>)
    ensures forall w :: w in words ==> w != [] && forall c :: c in w ==> !IsSpace(c)
  {
    if s == [] then []
    else if IsSpace(s[0]) then Words(s[1..])
    else [s[..WordLength(s)]] + Words(s[WordLength(s)..])
  }

  function WordLength(s: string): (n: nat)
    ensures n <= |s| && (n < |s| ==> IsSpace(s[n]))
    ensures forall i :: 0 <= i < n ==> !IsSpace(s[i])
    ensures s != [] && !IsSpace(s[0]) ==> n > 0
  {
    if s == [] || IsSpace(s[0]) then 0 else 1 + WordLength(s[1..])
  }

  predicate IsWord(w: string) {
    w != [] && forall i :: 0 <= i < |w| ==> !IsSpace(w[i])
  }

  /** Words in order with blanks around and between them: one more blank than words. */
  function Spaced(words: seq<string>, blanks: seq<string>): string
    requires |blanks| == |words| + 1
  {
    if words == [] then blanks[0] else blanks[0] + words[0] + Spaced(words[1..], blanks[1..])
  }

  /** The outer blanks may be empty, the others may not. */
  predicate Separates(words: seq<string>, blanks: seq<string>) {
    && |blanks| == |words| + 1
    && (forall i :: 0 <= i < |words| ==> IsWord(words[i]))
    && (forall i :: 0 <= i < |blanks| ==> AllSpace(blanks[i]) && (0 < i < |words| ==> blanks[i] != []))
  }

  lemma {:induction false} SkipBlank(a: string, rest: string)
    requires AllSpace(a)
    ensures Words(a + rest) == Words(rest)
  {
    hide IsSpace;
    if a == [] {
      assert a + rest == rest;
    } else {
      assert (a + rest)[0] == a[0] && (a + rest)[1..] == a[1..] + rest;
      SkipBlank(a[1..], rest);
    }
  }

  lemma {:induction false} WordEnds(w: string, rest: string)
    requires (forall i :: 0 <= i < |w| ==> !IsSpace(w[i])) && (rest == [] || IsSpace(rest[0]))
    ensures WordLength(w + rest) == |w|
  {
    hide IsSpace;
    if w == [] {
      assert w + rest == rest;
    } else {
      assert (w + rest)[0] == w[0] && (w + rest)[1..] == w[1..] + rest;
      WordEnds(w[1..], rest);
    }
  }

  /** `split()` finds exactly the words, in order, however they are spaced. */
  lemma {:induction false} SpacedWords(words: seq<string>, blanks: seq<string>)
    requires Separates(words, blanks)
    ensures Words(Spaced(words, blanks)) == words
  {
    hide IsSpace;
    if words == [] {
      SkipBlank(blanks[0], []);
      assert blanks[0] + [] == blanks[0];
    } else {
      var w, rest := words[0], Spaced(words[1..], blanks[1..]);
      assert Separates(words[1..], blanks[1..]);
      assert rest == [] || IsSpace(rest[0]) by {
        assert blanks[1] != [] || |words| == 1;
      }
      SpacedWords(words[1..], blanks[1..]);
      assert blanks[0] + w + rest == blanks[0] + (w + rest);
      SkipBlank(blanks[0], w + rest);
      WordEnds(w, rest);
      assert (w + rest)[..|w|] == w && (w + rest)[|w|..] == rest && (w + rest)[0] == w[0];
      assert [w] + words[1..] == words;
    }
  }

  /** The first position of a character, or the length when it is absent. */
  function IndexOf(s: string, c: char): (i: nat)
    ensures i <= |s| && c !in s[..i] && (i < |s| ==> s[i] == c)
  {
    if s == [] || s[0] == c then 0 else 1 + IndexOf(s[1..], c)
  }

  // ----- int(text) -----

  predicate IsDigit(c: char) {
    '0' <= c <= '9'
  }

  /** Digits, with single underscores allowed between two digits. */
  predicate IsNumeral(s: string) {
    s != [] && IsDigit(s[0]) && IsDigit(s[|s| - 1]) &&
    forall i :: 0 <= i < |s| ==> IsDigit(s[i]) || (s[i] == '_' && 0 < i && s[i - 1] != '_')
  }

  function NumeralValue(s: string): nat {
    if s == [] then 0
    else
      var front, last := NumeralValue(s[..|s| - 1]), s[|s| - 1];
      if IsDigit(last) then 10 * front + (last - '0') as int else front
  }

  function ParseInt(s: string): Option<int> {
    var t := Strip(s);
    var signed := t != [] && (t[0] == '-' || t[0] == '+');
    var digits := if signed then t[1..] else t;
    if !IsNumeral(digits) then None
    else if signed && t[0] == '-' then Some(0 - NumeralValue(digits))
    else Some(NumeralValue(digits))
  }

  // ----- Printing and reading back -----

  /** `str(n)`. */
  function Decimal(n: nat): (s: string)
    ensures s != [] && forall i :: 0 <= i < |s| ==> IsDigit(s[i])
  {
    var digit := '0' + (n % 10) as char;
    if n < 10 then [digit] else Decimal(n / 10) + [digit]
  }

  lemma {:induction false} NumeralValueOfDecimal(n: nat)
    ensures NumeralValue(Decimal(n)) == n
  {
    var s := Decimal(n);
    if n < 10 {
      assert s[..0] == [];
    } else {
      NumeralValueOfDecimal(n / 10);
      assert s[..|s| - 1] == Decimal(n / 10);
    }
  }

  lemma DigitsAreStripped(s: string)
    requires s != [] && IsDigit(s[0]) && IsDigit(s[|s| - 1])
    ensures Strip(s) == s
  {
  }

  lemma DecimalParses(n: nat)
    ensures ParseInt(Decimal(n)) == Some(n)
  {
    hide NumeralValue, Decimal, Strip, IsSpace;
    NumeralValueOfDecimal(n);
    var s := Decimal(n);
    assert IsDigit(s[0]) && IsDigit(s[|s| - 1]);
    DigitsAreStripped(s);
  }

  lemma SignedParses(n: nat)
    ensures ParseInt("+" + Decimal(n)) == Some(n)
    ensures ParseInt("-" + Decimal(n)) == Some(0 - n)
  {
    hide NumeralValue, Decimal, Strip, IsNumeral;
    NumeralValueOfDecimal(n);
    var s := Decimal(n);
    SignIsStripped('+', s);
    SignIsStripped('-', s);
    DigitsAreNumeral(s);
    assert ("+" + s)[1..] == s && ("-" + s)[1..] == s;
  }

  lemma SignIsStripped(sign: char, s: string)
    requires sign in "+-" && s != [] && IsDigit(s[|s| - 1])
    ensures Strip([sign] + s) == [sign] + s
  {
  }

  lemma DigitsAreNumeral(s: string)
    requires s != [] && forall i :: 0 <= i < |s| ==> IsDigit(s[i])
    ensures IsNumeral(s)
  {
  }

  /** White space around a number is not read. */
  lemma PaddedParses(a: string, t: string, b: string)
    requires AllSpace(a) && AllSpace(b) && Trimmed(t)
    ensures ParseInt(a + t + b) == ParseInt(t)
  {
    hide Strip, IsNumeral, NumeralValue, IsSpace;
    PaddedStrips(a, t, b);
    PaddedStrips([], t, []);
    assert [] + t + [] == t;
  }

  lemma {:induction false} IndexOfFirst(a: string, c: char, rest: string)
    requires c !in a
    ensures IndexOf(a + [c] + rest, c) == |a|
    ensures (a + [c] + rest)[..|a|] == a && (a + [c] + rest)[|a| + 1..] == rest
  {
    if a != [] {
      IndexOfFirst(a[1..], c, rest);
      assert (a + [c] + rest)[1..] == a[1..] + [c] + rest;
    }
  }

  /** `sep.join(parts)`. */
  function Join(parts: seq<string>, sep: char): string {
    if parts == [] then [] else if |parts| == 1 then parts[0] else parts[0] + [sep] + Join(parts[1..], sep)
  }

  lemma {:induction false} SplitFirst(a: string, rest: string, sep: char)
    requires sep !in a
    ensures Split(a + [sep] + rest, sep) == [a] + Split(rest, sep)
  {
    if a == [] {
      assert a + [sep] + rest == [sep] + rest && ([sep] + rest)[1..] == rest;
    } else {
      SplitFirst(a[1..], rest, sep);
      assert (a + [sep] + rest)[1..] == a[1..] + [sep] + rest;
      assert [a[0]] + a[1..] == a;
    }
  }

  lemma {:induction false} SplitWhole(a: string, sep: char)
    requires sep !in a
    ensures Split(a, sep) == [a]
  {
    if a != [] {
      SplitWhole(a[1..], sep);
      assert [a[0]] + a[1..] == a;
    }
  }

  lemma {:induction false} SplitJoin(parts: seq<string>, sep: char)
    requires parts != [] && forall i :: 0 <= i < |parts| ==> sep !in parts[i]
    ensures Split(Join(parts, sep), sep) == parts
  {
    if |parts| == 1 {
      SplitWhole(parts[0], sep);
    } else {
      SplitJoin(parts[1..], sep);
      SplitFirst(parts[0], Join(parts[1..], sep), sep);
    }
  }
}
