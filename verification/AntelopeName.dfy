/** Encoding of an Antelope account name as a number, the form in which the contract's name
    is kept in the genesis nonce. */
module AntelopeName {
  import opened Types
  import opened Seqs

  const LETTERS := 32
  const TWO_TO_THE_64 := 0x1_0000_0000_0000_0000

  function ValueOfChar(c: char): Option<nat> {
    if 'a' <= c <= 'z' then Some(c as int - 'a' as int + 6)
    else if '1' <= c <= '5' then Some(c as int - '1' as int + 1)
    else if c == '.' then Some(0)
    else None
  }

  /** The bitwise or of two numbers. */
  function Or(a: nat, b: nat): nat {
    if a == 0 && b == 0 then 0
    else 2 * Or(a / 2, b / 2) + (if a % 2 == 1 || b % 2 == 1 then 1 else 0)
  }

  /** Over bits the first number leaves free, or is addition. */
  lemma {:induction false} OrIsPlus(a: nat, b: nat, n: nat)
    requires b < Pow2(n)
    ensures Or(a * Pow2(n), b) == a * Pow2(n) + b
    decreases n
  {
    if n == 0 {
      OrZero(a);
    } else {
      var p := Pow2(n - 1);
      assert a * Pow2(n) == 2 * (a * p);
      assert (2 * (a * p)) / 2 == a * p && (2 * (a * p)) % 2 == 0;
      OrIsPlus(a, b / 2, n - 1);
    }
  }

  lemma {:induction false} OrZero(a: nat)
    ensures Or(a, 0) == a
    decreases a
  {
    if a > 0 { OrZero(a / 2); }
  }

  function Pow2(n: nat): nat {
    if n == 0 then 1 else 2 * Pow2(n - 1)
  }

  // ----- the encoder -----

  function Digits(s: string): Option<seq<nat>> {
    if s == "" then Some([])
    else match (Digits(Init(s)), ValueOfChar(Last(s)))
      case (Some(ds), Some(d)) => Some(ds + [d])
      case _ => None
  }

  /** The number with these base-32 digits. */
  function Value(ds: seq<nat>): nat {
    if ds == [] then 0 else Value(Init(ds)) * LETTERS + Last(ds)
  }

  function Dots(n: nat): (s: string)
    ensures |s| == n
  {
    if n == 0 then "" else Dots(n - 1) + "."
  }

  /** The name cut or filled with dots to `n` characters. */
  function Fill(name: string, n: nat): (s: string)
    ensures |s| == n
  {
    if |name| >= n then name[..n] else name + Dots(n - |name|)
  }

  /** Accepted names: at most 13 characters, all of the alphabet, the last of 13 worth at
      most 15. */
  predicate Accepted(name: string) {
    && |name| <= 13
    && Digits(name).Some?
    && (|name| == 13 ==> Last(Digits(name).value) <= 15)
  }

  /** The thirteen digits of a name: twelve of five bits, one of four. */
  function NameDigits(name: string): seq<nat>
    requires Accepted(name)
  {
    Values(Fill(name, 13))
  }

  /** The digits of a string, with 0 for what is not in the alphabet. */
  function Values(s: string): (ds: seq<nat>)
    ensures |ds| == |s|
  {
    seq(|s|, i requires 0 <= i < |s| => match ValueOfChar(s[i]) case Some(d) => d case None => 0)
  }

  function Encode(name: string): nat
    requires Accepted(name)
  {
    var ds := NameDigits(name);
    Value(ds[..12]) * 16 + ds[12]
  }

  method ConvertToValue(s: string) returns (r: Option<nat>)
    ensures Digits(s).None? ==> r.None?
    ensures Digits(s).Some? ==> r == Some(Value(Values(s)))
  {
    var value := 0;
    var i := 0;
    while i < |s|
      invariant 0 <= i <= |s| && Digits(s[..i]).Some? && value == Value(Values(s[..i]))
    {
      assert Init(s[..i + 1]) == s[..i];
      assert Init(Values(s[..i + 1])) == Values(s[..i]);
      var d := ValueOfChar(s[i]);
      if d.None? {
        DigitsFail(s, i);
        return None;
      }
      assert Pow2(5) == LETTERS;
      OrIsPlus(value, d.value, 5);
      value := value * LETTERS;
      value := Or(value, d.value);
      i := i + 1;
    }
    assert s[..i] == s;
    r := Some(value);
  }

  /** Encodes an accepted name and refuses every other. */
  method ConvertNameToValue(name: string) returns (r: Option<nat>)
    ensures Accepted(name) ==> r == Some(Encode(name))
    ensures !Accepted(name) ==> r.None?
  {
    if |name| > 13 {
      return None;
    }
    var last := 0;
    if |name| == 13 {
      var d := ValueOfChar(name[12]);
      if d.None? || d.value > 15 {
        return None;
      }
      last := d.value;
    }
    hide Pow2, Digits, Or, Value, ValueOfChar, Dots, Fill;
    var front := if |name| >= 12 then name[..12] else name + Dots(12 - |name|);
    FillFront(name);
    var v := ConvertToValue(front);
    if v.None? {
      return None;
    }
    Sixteen();
    DotIsZero();
    OrIsPlus(v.value, last, 4);
    r := Some(Or(v.value * 16, last));
  }

  // ----- digits -----

  lemma Sixteen()
    ensures Pow2(4) == 16
  {
  }

  lemma DotIsZero()
    ensures ValueOfChar('.') == Some(0)
  {
  }

  lemma {:induction false} DigitsFail(s: string, i: nat)
    requires i < |s| && ValueOfChar(s[i]).None?
    ensures Digits(s).None?
    decreases |s|
  {
    if i < |s| - 1 { DigitsFail(Init(s), i); }
  }

  lemma {:induction false} DigitsAre(s: string)
    ensures Digits(s).Some? <==> forall i :: 0 <= i < |s| ==> ValueOfChar(s[i]).Some?
    ensures Digits(s).Some? ==> Digits(s).value == Values(s)
    decreases |s|
  {
    if s != "" {
      DigitsAre(Init(s));
      assert s == Init(s) + [Last(s)];
      assert forall i :: 0 <= i < |Init(s)| ==> Init(s)[i] == s[i];
      if forall i :: 0 <= i < |s| ==> ValueOfChar(s[i]).Some? {
        assert Values(s) == Values(Init(s)) + [ValueOfChar(s[|s| - 1]).value];
      }
    }
  }

  lemma {:induction false} DotsAre(n: nat)
    ensures |Dots(n)| == n && forall i :: 0 <= i < n ==> Dots(n)[i] == '.'
  {
    if n > 0 { DotsAre(n - 1); }
  }

  /** The first twelve filled characters and the thirteenth, as the encoder takes them. */
  lemma {:induction false} FillFront(name: string)
    requires |name| <= 13
    ensures var front := if |name| >= 12 then name[..12] else name + Dots(12 - |name|);
      && |front| == 12 && |Fill(name, 13)| == 13 && Fill(name, 13)[..12] == front
      && Values(Fill(name, 13))[..12] == Values(front)
      && Fill(name, 13)[12] == (if |name| == 13 then name[12] else '.')
      && (Digits(name).Some? <==> Digits(front).Some? && (|name| == 13 ==> ValueOfChar(name[12]).Some?))
      && (|name| == 13 && Digits(name).Some? ==> Some(Last(Digits(name).value)) == ValueOfChar(name[12]))
  {
    var front := if |name| >= 12 then name[..12] else name + Dots(12 - |name|);
    if |name| < 13 { DotsAre(13 - |name|); }
    if |name| < 12 { DotsAre(12 - |name|); }
    assert Fill(name, 13)[..12] == front;
    DigitsAre(name);
    DigitsAre(front);
    assert forall i :: 0 <= i < 12 ==> Fill(name, 13)[i] == front[i];
    assert forall i :: 0 <= i < |name| && i < 12 ==> front[i] == name[i];
  }

  // ----- size and order -----

  ghost predicate Less(a: seq<nat>, b: seq<nat>) {
    exists k :: 0 <= k < |a| && k < |b| && FirstDifference(a, b, k)
  }

  predicate FirstDifference(a: seq<nat>, b: seq<nat>, k: nat)
    requires k < |a| && k < |b|
  {
    a[..k] == b[..k] && a[k] < b[k]
  }

  predicate AllBelow(ds: seq<nat>, n: nat) {
    forall i :: 0 <= i < |ds| ==> ds[i] < n
  }

  lemma {:induction false} LessSnoc(a: seq<nat>, b: seq<nat>)
    requires |a| == |b| > 0
    ensures Less(a, b) <==> Less(Init(a), Init(b)) || (Init(a) == Init(b) && Last(a) < Last(b))
  {
    var p, q := Init(a), Init(b);
    if Less(a, b) {
      var k :| 0 <= k < |a| && k < |b| && FirstDifference(a, b, k);
      if k < |p| {
        assert p[..k] == a[..k] && q[..k] == b[..k];
        assert FirstDifference(p, q, k);
      }
    }
    if Less(p, q) {
      var k :| 0 <= k < |p| && k < |q| && FirstDifference(p, q, k);
      assert p[..k] == a[..k] && q[..k] == b[..k];
      assert FirstDifference(a, b, k);
    } else if p == q && Last(a) < Last(b) {
      assert FirstDifference(a, b, |p|);
    }
  }

  /** Numbers of equally many digits compare as their digits do. */
  lemma {:induction false} ValueOrder(a: seq<nat>, b: seq<nat>)
    requires |a| == |b| && AllBelow(a, LETTERS) && AllBelow(b, LETTERS)
    ensures Value(a) < Value(b) <==> Less(a, b)
    ensures Value(a) == Value(b) <==> a == b
    decreases |a|
  {
    if a != [] {
      ValueOrder(Init(a), Init(b));
      LessSnoc(a, b);
      assert a == Init(a) + [Last(a)] && b == Init(b) + [Last(b)];
    }
  }

  lemma {:induction false} ValueBound(ds: seq<nat>)
    requires AllBelow(ds, LETTERS)
    ensures Value(ds) < Pow2(5 * |ds|)
    decreases |ds|
  {
    if ds != [] {
      ValueBound(Init(ds));
      var n := 5 * |Init(ds)|;
      assert Pow2(n + 5) == 32 * Pow2(n) by {
        assert Pow2(n + 5) == 2 * Pow2(n + 4) && Pow2(n + 4) == 2 * Pow2(n + 3);
        assert Pow2(n + 3) == 2 * Pow2(n + 2) && Pow2(n + 2) == 2 * Pow2(n + 1);
      }
      assert 5 * |ds| == n + 5;
    }
  }

  lemma {:induction false} NameDigitsShape(name: string)
    requires Accepted(name)
    ensures var ds := NameDigits(name);
      |ds| == 13 && AllBelow(ds, LETTERS) && ds[12] <= 15
  {
    FillFront(name);
  }

  /** Every accepted name fits into 64 bits. */
  lemma {:induction false} EncodeFits(name: string)
    requires Accepted(name)
    ensures Encode(name) < TWO_TO_THE_64
  {
    hide Pow2, NameDigits, Value;
    NameDigitsShape(name);
    ValueBound(NameDigits(name)[..12]);
    PowersOfTwo();
  }

  lemma PowersOfTwo()
    ensures Pow2(60) == 0x1000_0000_0000_0000
  {
    assert Pow2(10) == 0x400;
    Pow2Sum(10, 10);
    assert Pow2(20) == 0x10_0000;
    Pow2Sum(20, 20);
    assert Pow2(40) == 0x100_0000_0000;
    Pow2Sum(40, 20);
  }

  lemma {:induction false} Pow2Sum(a: nat, b: nat)
    ensures Pow2(a + b) == Pow2(a) * Pow2(b)
    decreases b
  {
    if b == 0 {
      assert a + b == a && Pow2(b) == 1;
    } else {
      Pow2Sum(a, b - 1);
      var p, q := Pow2(a), Pow2(b - 1);
      assert Pow2(a + b) == 2 * Pow2(a + b - 1) && Pow2(b) == 2 * q;
      assert 2 * (p * q) == p * (2 * q);
    }
  }

  /** Codes compare as the thirteen digits do, and are equal only for equal digits. */
  lemma {:induction false} EncodeOrder(a: string, b: string)
    requires Accepted(a) && Accepted(b)
    ensures Encode(a) < Encode(b) <==> Less(NameDigits(a), NameDigits(b))
    ensures Encode(a) == Encode(b) <==> NameDigits(a) == NameDigits(b)
  {
    var p, q := NameDigits(a), NameDigits(b);
    NameDigitsShape(a);
    NameDigitsShape(b);
    assert Init(p) == p[..12] && Init(q) == q[..12];
    ValueOrder(p[..12], q[..12]);
    LessSnoc(p, q);
    assert p == p[..12] + [p[12]] && q == q[..12] + [q[12]];
  }

  // ----- which names share a code -----

  /** The name without its trailing dots. */
  function Strip(name: string): string {
    if name != "" && Last(name) == '.' then Strip(Init(name)) else name
  }

  predicate InAlphabet(c: char) {
    c == '.' || '1' <= c <= '5' || 'a' <= c <= 'z'
  }

  /** The character of a digit: the dot, five numerals, and the letters. */
  function CharOfValue(v: nat): char
    requires v < LETTERS
  {
    if v == 0 then '.' else if v <= 5 then '1' + (v - 1) as char else 'a' + (v - 6) as char
  }

  /** Digits and characters of the alphabet correspond one to one. */
  lemma ValueRoundTrip(c: char, v: nat)
    ensures ValueOfChar(c).Some? <==> InAlphabet(c)
    ensures InAlphabet(c) ==> ValueOfChar(c).value < LETTERS && CharOfValue(ValueOfChar(c).value) == c
    ensures v < LETTERS ==> ValueOfChar(CharOfValue(v)) == Some(v)
  {
  }

  lemma CharOrder(c: char, d: char)
    requires ValueOfChar(c).Some? && ValueOfChar(d).Some?
    ensures ValueOfChar(c).value < ValueOfChar(d).value <==> c < d
  {
  }

  /** The first difference of two strings is in favour of `a`. */
  ghost predicate Before(a: string, b: string) {
    exists k :: 0 <= k < |a| && k < |b| && CharDifference(a, b, k)
  }

  predicate CharDifference(a: string, b: string, k: nat)
    requires k < |a| && k < |b|
  {
    a[..k] == b[..k] && a[k] < b[k]
  }

  /** Codes compare as the names do, filled with dots to thirteen characters. */
  lemma {:induction false} EncodeAlphabetic(a: string, b: string)
    requires Accepted(a) && Accepted(b)
    ensures Encode(a) < Encode(b) <==> Before(Fill(a, 13), Fill(b, 13))
  {
    hide Encode, Fill, NameDigits, ValueOfChar, Digits;
    EncodeOrder(a, b);
    NameDigitsShape(a);
    NameDigitsShape(b);
    var p, q, f, g := NameDigits(a), NameDigits(b), Fill(a, 13), Fill(b, 13);
    FillValid(a, 0);
    FillValid(b, 0);
    forall k: nat | k < 13
      ensures FirstDifference(p, q, k) <==> CharDifference(f, g, k)
    {
      DifferenceAt(a, b, k);
    }
  }

  lemma {:induction false} DifferenceAt(a: string, b: string, k: nat)
    requires Accepted(a) && Accepted(b) && k < 13
    ensures |NameDigits(a)| == 13 && |NameDigits(b)| == 13 && |Fill(a, 13)| == 13 && |Fill(b, 13)| == 13
    ensures FirstDifference(NameDigits(a), NameDigits(b), k) <==> CharDifference(Fill(a, 13), Fill(b, 13), k)
  {
    hide Fill, NameDigits, ValueOfChar, Digits;
    NameDigitsShape(a);
    NameDigitsShape(b);
    var p, q, f, g := NameDigits(a), NameDigits(b), Fill(a, 13), Fill(b, 13);
    forall i: nat | i < 13
      ensures p[i] == q[i] <==> f[i] == g[i]
      ensures p[i] < q[i] <==> f[i] < g[i]
    {
      FillValid(a, i);
      FillValid(b, i);
      CharOrder(f[i], g[i]);
      CharOrder(g[i], f[i]);
    }
    assert p[..k] == q[..k] <==> f[..k] == g[..k] by {
      if f[..k] == g[..k] {
        forall i | 0 <= i < k ensures p[i] == q[i] { assert f[..k][i] == g[..k][i]; }
      }
      if p[..k] == q[..k] {
        forall i | 0 <= i < k ensures f[i] == g[i] { assert p[..k][i] == q[..k][i]; }
      }
    }
  }

  /** Accepted names, on their characters. */
  lemma {:induction false} AcceptedMeans(name: string)
    ensures Accepted(name) <==>
      && |name| <= 13 && (forall i :: 0 <= i < |name| ==> InAlphabet(name[i]))
      && (|name| == 13 ==> name[12] <= 'j')
  {
    hide ValueOfChar, Digits;
    DigitsAre(name);
    forall i | 0 <= i < |name|
      ensures ValueOfChar(name[i]).Some? <==> InAlphabet(name[i])
    {
      ValueRoundTrip(name[i], 0);
    }
    if |name| == 13 && InAlphabet(name[12]) { UpToJ(name[12]); }
  }

  lemma UpToJ(c: char)
    requires InAlphabet(c)
    ensures ValueOfChar(c).Some? && (ValueOfChar(c).value <= 15 <==> c <= 'j')
  {
  }

  lemma {:induction false} StripShape(name: string)
    ensures var s := Strip(name);
      && |s| <= |name| && s == name[..|s|]
      && (forall i :: |s| <= i < |name| ==> name[i] == '.')
      && (s != "" ==> Last(s) != '.')
    decreases |name|
  {
    if name != "" && Last(name) == '.' {
      StripShape(Init(name));
      assert name == Init(name) + ".";
    }
  }

  lemma {:induction false} FillAt(name: string, i: nat)
    requires |name| <= 13 && i < 13
    ensures |Fill(name, 13)| == 13 && Fill(name, 13)[i] == if i < |Strip(name)| then Strip(name)[i] else '.'
  {
    StripShape(name);
    if |name| < 13 { DotsAre(13 - |name|); }
  }

  lemma {:induction false} FillValid(name: string, i: nat)
    requires Accepted(name) && i < 13
    ensures |Fill(name, 13)| == 13 && ValueOfChar(Fill(name, 13)[i]) == Some(NameDigits(name)[i])
  {
    DigitsAre(name);
    if |name| < 13 { DotsAre(13 - |name|); }
  }

  /** The alphabet has no two characters of the same value. */
  lemma FillFromDigits(a: string, b: string)
    requires Accepted(a) && Accepted(b)
    ensures NameDigits(a) == NameDigits(b) <==> Fill(a, 13) == Fill(b, 13)
  {
    hide NameDigits, Fill;
    assert |Fill(a, 13)| == 13 && |Fill(b, 13)| == 13 by { FillValid(a, 0); FillValid(b, 0); }
    NameDigitsShape(a);
    NameDigitsShape(b);
    forall i | 0 <= i < 13
      ensures NameDigits(a)[i] == NameDigits(b)[i] <==> Fill(a, 13)[i] == Fill(b, 13)[i]
    {
      FillValid(a, i);
      FillValid(b, i);
    }
  }

  /** Two accepted names have the same code exactly when they are equal up to trailing dots. */
  lemma {:induction false} EncodeInjective(a: string, b: string)
    requires Accepted(a) && Accepted(b)
    ensures Encode(a) == Encode(b) <==> Strip(a) == Strip(b)
  {
    hide Encode, Fill, NameDigits, Strip;
    EncodeOrder(a, b);
    FillFromDigits(a, b);
    if Fill(a, 13) == Fill(b, 13) {
      SameStripped(a, b);
    } else if Strip(a) == Strip(b) {
      SameFilled(a, b);
    }
  }

  lemma {:induction false} SameFilled(a: string, b: string)
    requires |a| <= 13 && |b| <= 13 && Strip(a) == Strip(b)
    ensures Fill(a, 13) == Fill(b, 13)
  {
    hide Strip;
    FillAt(a, 0);
    FillAt(b, 0);
    forall i | 0 <= i < 13
      ensures Fill(a, 13)[i] == Fill(b, 13)[i]
    {
      FillAt(a, i);
      FillAt(b, i);
    }
  }

  lemma {:induction false} SameStripped(a: string, b: string)
    requires |a| <= 13 && |b| <= 13 && Fill(a, 13) == Fill(b, 13)
    ensures Strip(a) == Strip(b)
  {
    var p, q := Strip(a), Strip(b);
    StripShape(a);
    StripShape(b);
    forall i | 0 <= i < 13
      ensures (if i < |p| then p[i] else '.') == (if i < |q| then q[i] else '.')
    {
      FillAt(a, i);
      FillAt(b, i);
    }
    assert p == q;
  }
}
