/** String building blocks: joining with a separator, and decimal numerals. */
module Text {
  /** strings.Join. */
  function Join(parts: seq<string>, sep: string): string {
    if parts == [] then ""
    else if |parts| == 1 then parts[0]
    else parts[0] + sep + Join(parts[1..], sep)
  }

  ghost predicate FreeOf(part: string, c: char) {
    c !in part
  }

  /** Two splits of one string at its first separator are the same split. */
  lemma FirstSeparatorUnique(a: string, b: string, s: string, t: string, c: char)
    requires FreeOf(a, c) && FreeOf(b, c)
    requires a + [c] + s == b + [c] + t
    ensures a == b && s == t
  {
    var whole := a + [c] + s;
    assert whole == b + [c] + t;
    assert forall k :: 0 <= k < |a| ==> whole[k] == a[k] && whole[k] in a;
    assert forall k :: 0 <= k < |b| ==> whole[k] == b[k] && whole[k] in b;
    assert whole[|a|] == c && whole[|b|] == c;
    assert a == whole[..|a|] && b == (b + [c] + t)[..|b|];
    assert s == whole[|a| + 1..] && t == (b + [c] + t)[|b| + 1..];
  }

  /** Joining with a character that occurs in no part is injective on equally long lists. */
  lemma {:induction false} JoinInjective(a: seq<string>, b: seq<string>, c: char)
    requires |a| == |b|
    requires forall j :: 0 <= j < |a| ==> FreeOf(a[j], c) && FreeOf(b[j], c)
    requires Join(a, [c]) == Join(b, [c])
    ensures a == b
  {
    if |a| == 1 {
      assert a == [a[0]] && b == [b[0]];
    } else if |a| > 1 {
      FirstSeparatorUnique(a[0], b[0], Join(a[1..], [c]), Join(b[1..], [c]), c);
      JoinInjective(a[1..], b[1..], c);
      assert a == [a[0]] + a[1..] && b == [b[0]] + b[1..];
    }
  }

  /** The parts of a text between the occurrences of sep, read from the left. */
  function Split(s: string, sep: string): (parts: seq<string>)
    requires sep != ""
    ensures parts != []
  {
    if s == "" then [""]
    else if sep <= s then [""] + Split(s[|sep|..], sep)
    else
      var parts := Split(s[1..], sep);
      [[s[0]] + parts[0]] + parts[1..]
  }

  lemma {:induction false} SplitLast(part: string, sep: string)
    requires sep != "" && FreeOf(part, sep[0])
    ensures Split(part, sep) == [part]
  {
    if part != "" {
      SplitLast(part[1..], sep);
      assert [part[0]] + part[1..] == part;
    }
  }

  lemma {:induction false} SplitFirst(part: string, sep: string, rest: string)
    requires sep != "" && FreeOf(part, sep[0])
    ensures Split(part + (sep + rest), sep) == [part] + Split(rest, sep)
  {
    var s := part + (sep + rest);
    if part == "" {
      assert s == sep + rest && s[|sep|..] == rest;
    } else {
      SplitFirst(part[1..], sep, rest);
      assert s[1..] == part[1..] + (sep + rest);
      assert s[0] == part[0] && [part[0]] + part[1..] == part;
    }
  }

  /** Splitting what was joined gives the parts back, if the separator begins inside none of them. */
  lemma {:induction false} SplitJoined(parts: seq<string>, sep: string)
    requires parts != [] && sep != ""
    requires forall j :: 0 <= j < |parts| ==> FreeOf(parts[j], sep[0])
    ensures Split(Join(parts, sep), sep) == parts
  {
    if |parts| == 1 {
      SplitLast(parts[0], sep);
      assert parts == [parts[0]];
    } else {
      SplitJoined(parts[1..], sep);
      SplitFirst(parts[0], sep, Join(parts[1..], sep));
      assert Join(parts, sep) == parts[0] + (sep + Join(parts[1..], sep));
      assert parts == [parts[0]] + parts[1..];
    }
  }

  predicate IsDigit(c: char) {
    '0' <= c <= '9'
  }

  function DigitValue(c: char): nat
    requires IsDigit(c)
  {
    c as int - '0' as int
  }

  function DigitChar(d: nat): (c: char)
    requires d < 10
    ensures IsDigit(c) && DigitValue(c) == d
  {
    ('0' as int + d) as char
  }

  lemma DigitsAreDecimal(d: nat)
    requires d < 10
    ensures DigitChar(d) == "0123456789"[d] && DigitValue("0123456789"[d]) == d
  {
  }

  ghost predicate AllDigits(s: string) {
    forall i :: 0 <= i < |s| ==> IsDigit(s[i])
  }

  /** The number a digit string denotes. */
  function Number(s: string): nat
    requires AllDigits(s)
  {
    if s == "" then 0 else 10 * Number(s[..|s| - 1]) + DigitValue(s[|s| - 1])
  }

  /** %d on a non-negative number. */
  function Decimal(n: nat): (s: string)
    ensures s != "" && AllDigits(s)
    ensures Number(s) == n
  {
    if n < 10 then [DigitChar(n)]
    else
      var s := Decimal(n / 10) + [DigitChar(n % 10)];
      assert s[..|s| - 1] == Decimal(n / 10);
      s
  }

  /** n in exactly width digits, zero padded; n must fit. */
  function Padded(n: nat, width: nat): (s: string)
    requires n < Power10(width)
    ensures |s| == width && AllDigits(s)
    ensures Number(s) == n
  {
    if width == 0 then ""
    else
      var s := Padded(n / 10, width - 1) + [DigitChar(n % 10)];
      assert s[..|s| - 1] == Padded(n / 10, width - 1);
      s
  }

  /** A digit string is the padded numeral of its number. */
  lemma {:induction false} PaddedNumber(s: string)
    requires AllDigits(s)
    ensures Number(s) < Power10(|s|) && Padded(Number(s), |s|) == s
  {
    if s != "" {
      var n, d := Number(s[..|s| - 1]), DigitValue(s[|s| - 1]);
      PaddedNumber(s[..|s| - 1]);
      LastDigit(n, d);
      assert s == s[..|s| - 1] + [DigitChar(d)];
    }
  }

  lemma LastDigit(n: nat, d: nat)
    requires d < 10
    ensures (10 * n + d) / 10 == n && (10 * n + d) % 10 == d
  {
  }

  function Power10(k: nat): (p: nat)
    ensures p > 0
  {
    if k == 0 then 1 else 10 * Power10(k - 1)
  }

  /** The first digit weighs most: as many powers of ten as there are digits after it. */
  lemma {:induction false} FirstDigitWeighsMost(s: string)
    requires AllDigits(s) && s != ""
    ensures Number(s) == (s[0] as int - 48) * Power10(|s| - 1) + Number(s[1..])
  {
    var last := |s| - 1;
    if last > 0 {
      FirstDigitWeighsMost(s[..last]);
      assert s[..last][1..] == s[1..][..last - 1] && s[1..][last - 1] == s[last];
      assert Power10(last) == 10 * Power10(last - 1);
      TenTimes(s[0] as int - 48, Power10(last - 1));
    }
  }

  lemma TenTimes(d: int, p: nat)
    ensures 10 * (d * p) == d * (10 * p)
  {
  }

  lemma PowersOfTen()
    ensures Power10(0) == 1 && Power10(1) == 10 && Power10(2) == 100 && Power10(3) == 1000
    ensures Power10(4) == 10_000 && Power10(5) == 100_000 && Power10(6) == 1_000_000
  {
  }
}
