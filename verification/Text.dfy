/** C strings and the text conventions the library relies on: splitting and joining,
    `%d`-style decimals, and `strcasecmp`. */
module Text {

  datatype Option<+T> = None | Some(value: T)

  /** Text that a `char *` can hold: no NUL before the terminator. */
  type CText = s: string | '\0' !in s witness ""

  type uint64 = x: int | 0 <= x < 0x1_0000_0000_0000_0000
  type int32 = x: int | -0x8000_0000 <= x < 0x8000_0000

  /** A `char *`: object identity is the pointer, `text` is what it points at. */
  class CString {
    const text: CText

    constructor (text: CText)
      ensures this.text == text
    {
      this.text := text;
    }
  }

  // ---------------------------------------------------------------- splitting and joining

  function Join(parts: seq<string>, sep: string): string {
    if |parts| == 0 then ""
    else if |parts| == 1 then parts[0]
    else parts[0] + sep + Join(parts[1..], sep)
  }

  function Split(s: string, sep: char): (parts: seq<string>)
    ensures |parts| > 0
  {
    if s == "" then [""]
    else
      var rest := Split(s[1..], sep);
      if s[0] == sep then [""] + rest else [[s[0]] + rest[0]] + rest[1..]
  }

  lemma {:induction false} SplitAtSeparator(part: string, rest: string, sep: char)
    requires sep !in part
    ensures Split(part + [sep] + rest, sep) == [part] + Split(rest, sep)
    ensures Split(part, sep) == [part]
  {
    var s := part + [sep] + rest;
    if part == "" {
      assert s[1..] == rest;
    } else {
      SplitAtSeparator(part[1..], rest, sep);
      assert s[1..] == part[1..] + [sep] + rest;
      assert [part[0]] + part[1..] == part;
      assert Split(s, sep) == [[part[0]] + part[1..]] + Split(rest, sep);
      assert Split(part, sep) == [[part[0]] + part[1..]];
    }
  }

  lemma {:induction false} SplitCons(c: char, s: string, sep: char)
    ensures Split([c] + s, sep) ==
            if c == sep then [""] + Split(s, sep) else [[c] + Split(s, sep)[0]] + Split(s, sep)[1..]
  {
    assert ([c] + s)[1..] == s;
  }

  lemma {:induction false} HeadConcat(c: char, a: seq<string>, b: seq<string>)
    requires |a| > 0
    ensures [[c] + (a + b)[0]] + (a + b)[1..] == ([[c] + a[0]] + a[1..]) + b
    ensures [""] + (a + b) == ([""] + a) + b
  {
  }

  lemma {:induction false} SplitConcat(a: string, b: string, sep: char)
    ensures Split(a + [sep] + b, sep) == Split(a, sep) + Split(b, sep)
  {
    if a == "" {
      assert [sep] + b == a + [sep] + b;
      SplitCons(sep, b, sep);
    } else {
      hide Split;
      var tail := a[1..] + [sep] + b;
      SplitConcat(a[1..], b, sep);
      SplitCons(a[0], tail, sep);
      SplitCons(a[0], a[1..], sep);
      HeadConcat(a[0], Split(a[1..], sep), Split(b, sep));
      assert [a[0]] + a[1..] == a && [a[0]] + tail == a + [sep] + b;
    }
  }

  /** No part holds the separator, nor any character the text does not hold. */
  lemma {:induction false} SplitParts(s: string, sep: char)
    ensures forall p, c :: p in Split(s, sep) && c in p ==> c in s && c != sep
  {
    if s == "" {
    } else {
      SplitParts(s[1..], sep);
      var rest := Split(s[1..], sep);
      forall p, c | p in Split(s, sep) && c in p ensures c in s && c != sep {
        if p in rest {
          assert c in s[1..];
        } else {
          assert p == [s[0]] + rest[0];
          assert rest[0] in rest;
        }
      }
    }
  }

  /** A text is a single part exactly when it does not hold the separator. */
  lemma {:induction false} SplitSingle(s: string, sep: char)
    ensures |Split(s, sep)| == 1 <==> sep !in s
    ensures sep !in s ==> Split(s, sep) == [s]
  {
    if sep !in s {
      SplitAtSeparator(s, "", sep);
    } else {
      var i := IndexOf(s, sep);
      assert s == s[..i] + [sep] + s[i + 1..] by {
        IndexOfPresent(s, sep);
      }
      SplitConcat(s[..i], s[i + 1..], sep);
    }
  }

  /** Splitting undoes joining when no part holds the separator. */
  lemma {:induction false} SplitJoin(parts: seq<string>, sep: char)
    requires |parts| > 0
    requires forall p :: p in parts ==> sep !in p
    ensures Split(Join(parts, [sep]), sep) == parts
  {
    if |parts| == 1 {
      SplitAtSeparator(parts[0], "", sep);
    } else {
      SplitJoin(parts[1..], sep);
      SplitAtSeparator(parts[0], Join(parts[1..], [sep]), sep);
    }
  }

  lemma {:induction false} JoinAppend(a: seq<string>, b: seq<string>, sep: string)
    requires |a| > 0 && |b| > 0
    ensures Join(a + b, sep) == Join(a, sep) + sep + Join(b, sep)
  {
    if |a| == 1 {
      assert (a + b)[1..] == b;
    } else {
      assert (a + b)[1..] == a[1..] + b;
      JoinAppend(a[1..], b, sep);
    }
  }

  lemma {:induction false} ConcatAssoc(a: string, b: string, c: string)
    ensures (a + b) + c == a + (b + c)
  {
  }

  lemma {:induction false} JoinCons(part: string, rest: seq<string>, sep: string)
    requires |rest| > 0
    ensures Join([part] + rest, sep) == part + sep + Join(rest, sep)
  {
    assert ([part] + rest)[1..] == rest;
  }

  lemma {:induction false} JoinKeepsOut(parts: seq<string>, sep: string, c: char)
    requires c !in sep
    requires forall p :: p in parts ==> c !in p
    ensures c !in Join(parts, sep)
  {
    if |parts| <= 1 {
    } else {
      JoinKeepsOut(parts[1..], sep, c);
    }
  }

  /** The offset of the first `c`, or the length when there is none. */
  function IndexOf(s: string, c: char): (i: nat)
    ensures i <= |s| && c !in s[..i]
    ensures i < |s| ==> s[i] == c
  {
    if s == "" || s[0] == c then 0 else
      var i := 1 + IndexOf(s[1..], c);
      assert s[..i] == [s[0]] + s[1..][..i - 1];
      i
  }

  lemma {:induction false} IndexOfPresent(s: string, c: char)
    requires c in s
    ensures IndexOf(s, c) < |s|
  {
    var i := IndexOf(s, c);
    assert c in s[..i] + s[i..] by {
      assert s[..i] + s[i..] == s;
    }
  }

  lemma {:induction false} IndexOfAfter(a: string, c: char, b: string)
    requires c !in a
    ensures IndexOf(a + [c] + b, c) == |a|
  {
    var s := a + [c] + b;
    if a == "" {
    } else {
      assert s[1..] == a[1..] + [c] + b;
      IndexOfAfter(a[1..], c, b);
    }
  }

  /** The text before the last `c`, and the text after it. */
  function SplitLast(s: string, c: char): Option<(string, string)> {
    if s == "" then None
    else if s[|s| - 1] == c then Some((s[..|s| - 1], ""))
    else
      match SplitLast(s[..|s| - 1], c)
      case None => None
      case Some((a, b)) => Some((a, b + [s[|s| - 1]]))
  }

  lemma {:induction false} SplitLastRoundTrip(a: string, c: char, b: string)
    requires c !in b
    ensures SplitLast(a + [c] + b, c) == Some((a, b))
  {
    var s := a + [c] + b;
    if b == "" {
      assert s[..|s| - 1] == a;
    } else {
      assert s[..|s| - 1] == a + [c] + b[..|b| - 1];
      SplitLastRoundTrip(a, c, b[..|b| - 1]);
      assert b[..|b| - 1] + [b[|b| - 1]] == b;
    }
  }

  lemma {:induction false} SplitLastUnique(a: string, c: char, b: string, a': string, b': string)
    requires c !in b && c !in b'
    ensures a + [c] + b == a' + [c] + b' <==> a == a' && b == b'
  {
    SplitLastRoundTrip(a, c, b);
    SplitLastRoundTrip(a', c, b');
  }

  // ---------------------------------------------------------------- decimals

  function Digits(n: nat): (s: string)
    ensures |s| > 0
    ensures forall c :: c in s ==> '0' <= c <= '9'
  {
    if n < 10 then ["0123456789"[n]] else Digits(n / 10) + ["0123456789"[n % 10]]
  }

  function ParseDigits(s: string): Option<int> {
    if s == "" then None
    else
      var last := s[|s| - 1];
      if !('0' <= last <= '9') then None
      else
        var d := last as int - '0' as int;
        if |s| == 1 then Some(d)
        else
          match ParseDigits(s[..|s| - 1])
          case None => None
          case Some(n) => Some(10 * n + d)
  }

  /** What `%d`, `%ld` and `%lld` print. */
  function Decimal(n: int): string {
    if n < 0 then "-" + Digits(-n) else Digits(n)
  }

  function ParseDecimal(s: string): Option<int> {
    if s != "" && s[0] == '-' then
      match ParseDigits(s[1..])
      case None => None
      case Some(n) => Some(-n)
    else ParseDigits(s)
  }

  lemma {:induction false} DigitsRoundTrip(n: nat)
    ensures ParseDigits(Digits(n)) == Some(n)
  {
    if n < 10 {
    } else {
      DigitsRoundTrip(n / 10);
      var s := Digits(n);
      assert s[..|s| - 1] == Digits(n / 10);
    }
  }

  lemma {:induction false} DecimalChars(n: int)
    ensures forall c :: c in Decimal(n) ==> c == '-' || '0' <= c <= '9'
  {
    var d := Digits(if n < 0 then -n else n);
    assert Decimal(n) == if n < 0 then "-" + d else d;
  }

  lemma {:induction false} DecimalRoundTrip(n: int)
    ensures ParseDecimal(Decimal(n)) == Some(n)
  {
    var m := if n < 0 then -n else n;
    var d := Digits(m);
    DigitsRoundTrip(m);
    assert d[0] in d;
    SignedRoundTrip(d, m, n < 0);
  }

  lemma {:induction false} SignedRoundTrip(d: string, m: int, negative: bool)
    requires d != "" && '0' <= d[0] <= '9' && ParseDigits(d) == Some(m)
    ensures ParseDecimal(if negative then "-" + d else d) == Some(if negative then -m else m)
  {
    assert ("-" + d)[1..] == d;
  }

  function Pow10(k: nat): (p: nat)
    ensures p > 0
  {
    if k == 0 then 1 else 10 * Pow10(k - 1)
  }

  lemma {:induction false} DigitsLength(n: nat, k: nat)
    requires k > 0 && n < Pow10(k)
    ensures |Digits(n)| <= k
  {
    if n < 10 {
    } else {
      DigitsLength(n / 10, k - 1);
    }
  }

  /** Any 64-bit number prints in at most 20 characters. */
  lemma {:induction false} DecimalLength(n: int)
    requires -0x8000_0000_0000_0000 <= n < 0x8000_0000_0000_0000
    ensures |Decimal(n)| <= 20
  {
    assert Pow10(5) == 100_000;
    assert Pow10(10) == 100_000 * Pow10(5);
    assert Pow10(15) == 100_000 * Pow10(10);
    assert Pow10(19) == 10_000 * Pow10(15);
    DigitsLength(if n < 0 then -n else n, 19);
  }

  // ---------------------------------------------------------------- strcasecmp

  function FoldChar(c: char): char {
    if 'A' <= c <= 'Z' then (c as int + 32) as char else c
  }

  function Fold(s: string): (f: string)
    ensures |f| == |s|
  {
    seq(|s|, i requires 0 <= i < |s| => FoldChar(s[i]))
  }

  /** `strcasecmp(a, b) == 0` in the C locale. */
  predicate EqualFold(a: string, b: string) {
    Fold(a) == Fold(b)
  }

  /** Letter by letter: equal, or one letter in its two cases. */
  lemma {:induction false} FoldMeaning(a: string, b: string)
    ensures EqualFold(a, b) <==>
            && |a| == |b|
            && forall i :: 0 <= i < |a| ==>
                 || a[i] == b[i]
                 || ('A' <= a[i] <= 'Z' && b[i] as int == a[i] as int + 32)
                 || ('A' <= b[i] <= 'Z' && a[i] as int == b[i] as int + 32)
  {
    if EqualFold(a, b) {
      forall i | 0 <= i < |a| ensures FoldChar(a[i]) == FoldChar(b[i]) {
        assert Fold(a)[i] == Fold(b)[i];
      }
    }
  }

  lemma {:induction false} FoldConcat(a: string, b: string)
    ensures Fold(a + b) == Fold(a) + Fold(b)
  {
  }

  /** What two texts share at one end does not matter to `strcasecmp`. */
  lemma {:induction false} FoldCommon(p: string, a: string, b: string, s: string)
    ensures EqualFold(p + a, p + b) <==> EqualFold(a, b)
    ensures EqualFold(a + s, b + s) <==> EqualFold(a, b)
  {
    FoldConcat(p, a);
    FoldConcat(p, b);
    FoldConcat(a, s);
    FoldConcat(b, s);
    hide Fold;
    SameEnds(Fold(p), Fold(a), Fold(b), Fold(s));
  }

  lemma {:induction false} SameEnds(p: string, a: string, b: string, s: string)
    ensures p + a == p + b <==> a == b
    ensures a + s == b + s <==> a == b
  {
    assert (p + a)[|p|..] == a && (p + b)[|p|..] == b;
    if a + s == b + s {
      assert (a + s)[..|a|] == a && (b + s)[..|b|] == b;
    }
  }

  lemma {:induction false} FoldDigits(n: nat)
    ensures Fold(Digits(n)) == Digits(n) && '-' !in Digits(n)
  {
    var s := Digits(n);
    forall i | 0 <= i < |s| ensures Fold(s)[i] == s[i] {
      assert s[i] in s;
    }
  }

  /** Texts that end in a dash and a number are equal up to case exactly when what is before the
      dash is, and the numbers are equal. */
  lemma {:induction false} FoldNumbered(a: string, n: nat, b: string, m: nat)
    ensures EqualFold(a + ['-'] + Digits(n), b + ['-'] + Digits(m)) <==> EqualFold(a, b) && n == m
  {
    FoldDash(a, Digits(n));
    FoldDash(b, Digits(m));
    FoldDigits(n);
    FoldDigits(m);
    DigitsRoundTrip(n);
    DigitsRoundTrip(m);
    hide Fold, Digits, ParseDigits;
    SplitLastUnique(Fold(a), '-', Digits(n), Fold(b), Digits(m));
  }

  lemma {:induction false} FoldDash(a: string, b: string)
    ensures Fold(a + ['-'] + b) == Fold(a) + ['-'] + Fold(b)
  {
    FoldConcat(a + ['-'], b);
    FoldConcat(a, ['-']);
    assert Fold(['-']) == ['-'];
  }

  lemma {:induction false} FoldDecimal(n: int)
    ensures Fold(Decimal(n)) == Decimal(n)
  {
    DecimalChars(n);
    var s := Decimal(n);
    forall i | 0 <= i < |s| ensures Fold(s)[i] == s[i] {
      assert s[i] in s;
    }
  }
}
