/** The nullable timestamp of models/v1/helper_types.go and its text form
    2006-01-02T15:04:05.000000Z. Times are broken-down UTC times. */
module Dairytimes {
  import opened Wrappers
  import opened Text

  datatype Clock = Clock(year: nat, month: nat, day: nat, hour: nat, minute: nat, second: nat, nano: nat)

  /** The zero time.Time. */
  const ZERO: Clock := Clock(1, 1, 1, 0, 0, 0, 0)

  predicate LeapYear(y: nat) {
    y % 4 == 0 && (y % 100 != 0 || y % 400 == 0)
  }

  function DaysIn(month: nat, year: nat): nat {
    if month == 2 then (if LeapYear(year) then 29 else 28)
    else if month == 4 || month == 6 || month == 9 || month == 11 then 30
    else 31
  }

  predicate ValidClock(t: Clock) {
    && t.year <= 9999 && 1 <= t.month <= 12 && 1 <= t.day <= DaysIn(t.month, t.year)
    && t.hour < 24 && t.minute < 60 && t.second < 60 && t.nano < 1_000_000_000
  }

  /** t cut to whole microseconds. */
  function Truncated(t: Clock): Clock {
    t.(nano := t.nano / 1000 * 1000)
  }

  /** Time order of broken-down times. */
  predicate Earlier(a: Clock, b: Clock) {
    NumbersLess(Fields(a), Fields(b)) || (Fields(a) == Fields(b) && a.nano < b.nano)
  }

  // ----- the layout -----

  /** One number of the layout: at least min and at most max digits, and the character after it.
      A signed number may be read with a sign in place of its first digit. */
  datatype Slot = Slot(min: nat, max: nat, sep: char, signed: bool)

  /** The hour may be read from a single digit; everything is printed in max digits. */
  const LAYOUT: seq<Slot> := [
    Slot(4, 4, '-', false), Slot(2, 2, '-', false), Slot(2, 2, 'T', false),
    Slot(1, 2, ':', false), Slot(2, 2, ':', false), Slot(2, 2, '.', false), Slot(6, 6, 'Z', true)]

  function Fields(t: Clock): (fs: seq<nat>)
    ensures |fs| == 7
  {
    [t.year, t.month, t.day, t.hour, t.minute, t.second, t.nano / 1000]
  }

  function FromFields(fs: seq<nat>): Clock
    requires |fs| == 7
  {
    Clock(fs[0], fs[1], fs[2], fs[3], fs[4], fs[5], fs[6] * 1000)
  }

  ghost predicate Fits(fs: seq<nat>, layout: seq<Slot>) {
    |fs| == |layout| && forall i :: 0 <= i < |fs| ==> fs[i] < Power10(layout[i].max)
  }

  function Print(fs: seq<nat>, layout: seq<Slot>): string
    requires Fits(fs, layout)
  {
    if fs == [] then ""
    else Padded(fs[0], layout[0].max) + ([layout[0].sep] + Print(fs[1..], layout[1..]))
  }

  lemma FieldsFit(t: Clock)
    requires ValidClock(t)
    ensures Fits(Fields(t), LAYOUT)
  {
  }

  /** Time.Format(timeLayout). */
  function Format(t: Clock): string
    requires ValidClock(t)
  {
    FieldsFit(t);
    Print(Fields(t), LAYOUT)
  }

  // ----- parsing -----

  /** The longest digit prefix of at most max digits, and what follows it. */
  function TakeUpTo(s: string, max: nat): (r: (string, string))
    ensures AllDigits(r.0) && |r.0| <= max && r.0 + r.1 == s
  {
    if max > 0 && s != "" && IsDigit(s[0]) then
      var (d, rest) := TakeUpTo(s[1..], max - 1);
      assert [s[0]] + (d + rest) == s;
      ([s[0]] + d, rest)
    else ("", s)
  }

  /** A number of the layout and what follows it. A minus sign goes with zero only. */
  function TakeNumber(s: string, slot: Slot): Option<(nat, string)> {
    if slot.signed && slot.max > 0 && s != "" && (s[0] == '+' || s[0] == '-') then
      var (d, rest) := TakeUpTo(s[1..], slot.max - 1);
      if |d| + 1 < slot.min || (s[0] == '-' && Number(d) != 0) then None else Some((Number(d), rest))
    else
      var (d, rest) := TakeUpTo(s, slot.max);
      if |d| < slot.min then None else Some((Number(d), rest))
  }

  function ReadFields(s: string, layout: seq<Slot>): (r: Option<seq<nat>>)
    ensures r.Some? ==> |r.value| == |layout|
    decreases layout
  {
    if layout == [] then (if s == "" then Some([]) else None)
    else
      match TakeNumber(s, layout[0])
      case None => None
      case Some((n, rest)) =>
        if rest == "" || rest[0] != layout[0].sep then None
        else match ReadFields(rest[1..], layout[1..])
             case None => None
             case Some(fs) => Some([n] + fs)
  }

  /** time.Parse(timeLayout, s). */
  function Parse(s: string): Option<Clock> {
    match ReadFields(s, LAYOUT)
    case None => None
    case Some(fs) => if ValidClock(FromFields(fs)) then Some(FromFields(fs)) else None
  }

  // ----- round trip -----

  lemma {:induction false} TakeAll(d: string, rest: string)
    requires AllDigits(d)
    ensures TakeUpTo(d + rest, |d|) == (d, rest)
  {
    if d == "" {
      assert d + rest == rest;
    } else {
      assert (d + rest)[1..] == d[1..] + rest;
      TakeAll(d[1..], rest);
      assert d == [d[0]] + d[1..];
    }
  }

  lemma TakePrinted(n: nat, slot: Slot, rest: string)
    requires n < Power10(slot.max) && 0 < slot.max && slot.min <= slot.max
    ensures TakeNumber(Padded(n, slot.max) + rest, slot) == Some((n, rest))
  {
    var d := Padded(n, slot.max);
    TakeAll(d, rest);
    assert (d + rest)[0] == d[0] && IsDigit(d[0]);
  }

  lemma {:induction false} ReadPrinted(fs: seq<nat>, layout: seq<Slot>)
    requires Fits(fs, layout)
    requires forall i :: 0 <= i < |layout| ==> 0 < layout[i].max && layout[i].min <= layout[i].max
    ensures ReadFields(Print(fs, layout), layout) == Some(fs)
  {
    if fs != [] {
      var d, rest := Padded(fs[0], layout[0].max), [layout[0].sep] + Print(fs[1..], layout[1..]);
      TakePrinted(fs[0], layout[0], rest);
      assert rest[1..] == Print(fs[1..], layout[1..]);
      ReadPrinted(fs[1..], layout[1..]);
      assert fs == [fs[0]] + fs[1..];
    }
  }

  /** Parsing the printed form of a UTC time of the years 0 to 9999 gives the time cut to microseconds. */
  lemma ParseOfFormat(t: Clock)
    requires ValidClock(t)
    ensures Parse(Format(t)) == Some(Truncated(t))
  {
    FieldsFit(t);
    ReadPrinted(Fields(t), LAYOUT);
    assert FromFields(Fields(t)) == Truncated(t);
  }

  // ----- order -----

  /** Lexicographic order of equally long character strings, as the text is compared. */
  ghost predicate TextLess(a: string, b: string)
    requires |a| == |b|
  {
    a != "" && (a[0] < b[0] || (a[0] == b[0] && TextLess(a[1..], b[1..])))
  }

  predicate NumbersLess(a: seq<nat>, b: seq<nat>)
    requires |a| == |b|
  {
    a != [] && (a[0] < b[0] || (a[0] == b[0] && NumbersLess(a[1..], b[1..])))
  }

  /** The first character in which the texts differ decides. */
  lemma {:induction false} TextLessIff(a: string, b: string)
    requires |a| == |b|
    ensures TextLess(a, b) <==> exists k :: 0 <= k < |a| && a[..k] == b[..k] && a[k] < b[k]
  {
    if a != "" {
      TextLessIff(a[1..], b[1..]);
      if TextLess(a, b) {
        if a[0] < b[0] {
          assert a[..0] == b[..0];
        } else {
          var k :| 0 <= k < |a| - 1 && a[1..][..k] == b[1..][..k] && a[1..][k] < b[1..][k];
          assert a[..k + 1] == [a[0]] + a[1..][..k] && b[..k + 1] == [b[0]] + b[1..][..k];
          assert a[k + 1] < b[k + 1];
        }
      }
      if k :| 0 <= k < |a| && a[..k] == b[..k] && a[k] < b[k] {
        if k > 0 {
          assert a[0] == a[..k][0] == b[..k][0] == b[0];
          assert a[1..][..k - 1] == a[..k][1..] == b[..k][1..] == b[1..][..k - 1];
          assert a[1..][k - 1] < b[1..][k - 1];
        }
      }
    }
  }

  /** The year decides first, then the month, and so on down to the nanosecond. */
  lemma EarlierIff(a: Clock, b: Clock)
    ensures Earlier(a, b) <==>
      || a.year < b.year
      || (a.year == b.year && a.month < b.month)
      || (a.year == b.year && a.month == b.month && a.day < b.day)
      || (a.year == b.year && a.month == b.month && a.day == b.day && a.hour < b.hour)
      || (a.year == b.year && a.month == b.month && a.day == b.day && a.hour == b.hour && a.minute < b.minute)
      || (a.year == b.year && a.month == b.month && a.day == b.day && a.hour == b.hour && a.minute == b.minute
          && a.second < b.second)
      || (a.year == b.year && a.month == b.month && a.day == b.day && a.hour == b.hour && a.minute == b.minute
          && a.second == b.second && a.nano < b.nano)
  {
    var u, v := Fields(a), Fields(b);
    SevenLess(u, v);
    assert u == v <==> u[0] == v[0] && u[1] == v[1] && u[2] == v[2] && u[3] == v[3] && u[4] == v[4] && u[5] == v[5]
                       && u[6] == v[6];
    assert a.nano < b.nano <==> u[6] < v[6] || (u[6] == v[6] && a.nano < b.nano);
  }

  lemma SevenLess(u: seq<nat>, v: seq<nat>)
    requires |u| == |v| == 7
    ensures NumbersLess(u, v) <==>
      || u[0] < v[0]
      || (u[0] == v[0] && (u[1] < v[1]
      || (u[1] == v[1] && (u[2] < v[2]
      || (u[2] == v[2] && (u[3] < v[3]
      || (u[3] == v[3] && (u[4] < v[4]
      || (u[4] == v[4] && (u[5] < v[5]
      || (u[5] == v[5] && u[6] < v[6])))))))))))
  {
    assert u[0..] == u && v[0..] == v;
    NumbersLessAt(u, v, 0);
    NumbersLessAt(u, v, 1);
    NumbersLessAt(u, v, 2);
    NumbersLessAt(u, v, 3);
    NumbersLessAt(u, v, 4);
    NumbersLessAt(u, v, 5);
    NumbersLessAt(u, v, 6);
    assert u[7..] == v[7..] == [];
  }

  lemma NumbersLessAt(a: seq<nat>, b: seq<nat>, k: nat)
    requires k < |a| == |b|
    ensures NumbersLess(a[k..], b[k..]) <==> a[k] < b[k] || (a[k] == b[k] && NumbersLess(a[k + 1..], b[k + 1..]))
  {
    assert a[k..][1..] == a[k + 1..] && b[k..][1..] == b[k + 1..];
  }

  lemma {:induction false} TextLessConcat(a: string, b: string, s: string, t: string)
    requires |a| == |b| && |s| == |t|
    ensures TextLess(a + s, b + t) <==> TextLess(a, b) || (a == b && TextLess(s, t))
  {
    if a == "" {
      assert a + s == s && b + t == t;
    } else {
      assert (a + s)[1..] == a[1..] + s && (b + t)[1..] == b[1..] + t;
      TextLessConcat(a[1..], b[1..], s, t);
      assert a == [a[0]] + a[1..] && b == [b[0]] + b[1..];
    }
  }

  lemma DigitOrder(m: nat, n: nat)
    requires m < 10 && n < 10
    ensures TextLess([DigitChar(m)], [DigitChar(n)]) <==> m < n
  {
  }

  lemma {:induction false} PaddedOrder(m: nat, n: nat, width: nat)
    requires m < Power10(width) && n < Power10(width)
    ensures TextLess(Padded(m, width), Padded(n, width)) <==> m < n
    ensures Padded(m, width) == Padded(n, width) <==> m == n
  {
    assert Number(Padded(m, width)) == m && Number(Padded(n, width)) == n;
    if width > 0 {
      PaddedOrder(m / 10, n / 10, width - 1);
      DigitOrder(m % 10, n % 10);
      TextLessConcat(Padded(m / 10, width - 1), Padded(n / 10, width - 1), [DigitChar(m % 10)], [DigitChar(n % 10)]);
    }
  }

  function Width(layout: seq<Slot>): nat {
    if layout == [] then 0 else layout[0].max + 1 + Width(layout[1..])
  }

  lemma {:induction false} PrintedLength(fs: seq<nat>, layout: seq<Slot>)
    requires Fits(fs, layout)
    ensures |Print(fs, layout)| == Width(layout)
  {
    if fs != [] {
      PrintedLength(fs[1..], layout[1..]);
    }
  }

  lemma LayoutWidth()
    ensures Width(LAYOUT) == 27
  {
  }

  lemma {:induction false} PrintOrder(a: seq<nat>, b: seq<nat>, layout: seq<Slot>)
    requires Fits(a, layout) && Fits(b, layout)
    ensures |Print(a, layout)| == |Print(b, layout)|
    ensures TextLess(Print(a, layout), Print(b, layout)) <==> NumbersLess(a, b)
  {
    PrintedLength(a, layout);
    PrintedLength(b, layout);
    if a != [] {
      var p, q := Print(a[1..], layout[1..]), Print(b[1..], layout[1..]);
      var sep := [layout[0].sep];
      PrintOrder(a[1..], b[1..], layout[1..]);
      PaddedOrder(a[0], b[0], layout[0].max);
      TextLessConcat(sep, sep, p, q);
      TextLessConcat(Padded(a[0], layout[0].max), Padded(b[0], layout[0].max), sep + p, sep + q);
    }
  }

  lemma EarlierInMicroseconds(a: Clock, b: Clock)
    ensures Earlier(Truncated(a), Truncated(b)) <==> NumbersLess(Fields(a), Fields(b))
  {
  }

  /** The texts of two times compare as the times cut to microseconds do. */
  lemma TextOrderIsTimeOrder(a: Clock, b: Clock)
    requires ValidClock(a) && ValidClock(b)
    ensures |Format(a)| == |Format(b)|
    ensures TextLess(Format(a), Format(b)) <==> Earlier(Truncated(a), Truncated(b))
  {
    FieldsFit(a);
    FieldsFit(b);
    PrintOrder(Fields(a), Fields(b), LAYOUT);
    EarlierInMicroseconds(a, b);
  }

  lemma FormatWidth(t: Clock)
    requires ValidClock(t)
    ensures |Format(t)| == 27
  {
    FieldsFit(t);
    PrintedLength(Fields(t), LAYOUT);
    LayoutWidth();
  }

  // ----- the text -----

  /** The characters i..j of the text are a numeral of n. */
  ghost predicate Shows(s: string, i: nat, j: nat, n: nat) {
    i <= j <= |s| && AllDigits(s[i..j]) && Number(s[i..j]) == n
  }

  /** Where number k of a layout begins. */
  function Offset(layout: seq<Slot>, k: nat): nat
    requires k <= |layout|
  {
    if k == 0 then 0 else Offset(layout, k - 1) + layout[k - 1].max + 1
  }

  /** The padded numeral of n and the separator stand at place i of the text. */
  ghost predicate StandsAt(s: string, i: nat, n: nat, slot: Slot) {
    i + slot.max < |s| && n < Power10(slot.max) && s[i..i + slot.max] == Padded(n, slot.max)
    && s[i + slot.max] == slot.sep
  }

  lemma PrintedFirst(fs: seq<nat>, layout: seq<Slot>)
    requires Fits(fs, layout) && fs != []
    ensures StandsAt(Print(fs, layout), 0, fs[0], layout[0])
  {
  }

  lemma RestFollows(fs: seq<nat>, layout: seq<Slot>)
    requires Fits(fs, layout) && fs != []
    ensures layout[0].max + 1 <= |Print(fs, layout)|
    ensures Print(fs, layout)[layout[0].max + 1..] == Print(fs[1..], layout[1..])
  {
    AfterSeparator(Padded(fs[0], layout[0].max), layout[0].sep, Print(fs[1..], layout[1..]));
  }

  lemma AfterSeparator(d: string, sep: char, rest: string)
    ensures (d + ([sep] + rest))[|d| + 1..] == rest
  {
  }

  lemma StandsInTail(s: string, i: nat, tail: string, n: nat, slot: Slot)
    requires i <= |s| && s[i..] == tail && StandsAt(tail, 0, n, slot)
    ensures StandsAt(s, i, n, slot)
  {
    assert s[i..i + slot.max] == tail[0..slot.max] && s[i + slot.max] == tail[slot.max];
  }

  lemma Tails(s: string, i: nat, m: nat)
    requires i + m <= |s|
    ensures s[i..][m..] == s[i + m..]
  {
  }

  /** From the place of number k on the text is that of the numbers from k on. */
  lemma {:induction false} PrintedFrom(fs: seq<nat>, layout: seq<Slot>, k: nat)
    requires Fits(fs, layout) && k <= |fs|
    ensures Offset(layout, k) <= |Print(fs, layout)|
    ensures Print(fs, layout)[Offset(layout, k)..] == Print(fs[k..], layout[k..])
  {
    if k == 0 {
      assert fs[0..] == fs && layout[0..] == layout;
    } else {
      PrintedFrom(fs, layout, k - 1);
      RestFollows(fs[k - 1..], layout[k - 1..]);
      assert fs[k - 1..][1..] == fs[k..] && layout[k - 1..][1..] == layout[k..];
      Tails(Print(fs, layout), Offset(layout, k - 1), layout[k - 1].max + 1);
    }
  }

  lemma PrintedAt(s: string, fs: seq<nat>, layout: seq<Slot>, k: nat, i: nat, n: nat, slot: Slot)
    requires Fits(fs, layout) && s == Print(fs, layout) && k < |fs|
    requires Offset(layout, k) == i && fs[k] == n && layout[k] == slot
    ensures StandsAt(s, i, n, slot)
  {
    PrintedFrom(fs, layout, k);
    PrintedFirst(fs[k..], layout[k..]);
    StandsInTail(s, i, Print(fs[k..], layout[k..]), n, slot);
  }

  lemma LayoutOffsets()
    ensures Offset(LAYOUT, 0) == 0 && Offset(LAYOUT, 1) == 5 && Offset(LAYOUT, 2) == 8 && Offset(LAYOUT, 3) == 11
    ensures Offset(LAYOUT, 4) == 14 && Offset(LAYOUT, 5) == 17 && Offset(LAYOUT, 6) == 20
  {
    assert Offset(LAYOUT, 2) == 8;
    assert Offset(LAYOUT, 4) == 14;
  }

  lemma StandsShows(s: string, i: nat, n: nat, slot: Slot)
    requires StandsAt(s, i, n, slot)
    ensures i + slot.max < |s| && Shows(s, i, i + slot.max, n) && s[i + slot.max] == slot.sep
  {
  }

  lemma SlotShown(s: string, fs: seq<nat>, layout: seq<Slot>, k: nat, i: nat, n: nat, slot: Slot)
    requires Fits(fs, layout) && s == Print(fs, layout) && k < |fs|
    requires Offset(layout, k) == i && fs[k] == n && layout[k] == slot
    ensures i + slot.max < |s| && Shows(s, i, i + slot.max, n) && s[i + slot.max] == slot.sep
  {
    PrintedAt(s, fs, layout, k, i, n, slot);
    StandsShows(s, i, n, slot);
  }

  /** The text of a time has its numbers at fixed places, with fixed separators between them. */
  lemma FormatShows(t: Clock)
    requires ValidClock(t)
    ensures var s := Format(t);
      && |s| == 27
      && s[4] == '-' && s[7] == '-' && s[10] == 'T' && s[13] == ':' && s[16] == ':' && s[19] == '.' && s[26] == 'Z'
      && Shows(s, 0, 4, t.year) && Shows(s, 5, 7, t.month) && Shows(s, 8, 10, t.day)
      && Shows(s, 11, 13, t.hour) && Shows(s, 14, 16, t.minute) && Shows(s, 17, 19, t.second)
      && Shows(s, 20, 26, t.nano / 1000)
  {
    FormatWidth(t);
    LayoutOffsets();
    FieldsFit(t);
    var s, fs := Format(t), Fields(t);
    SlotShown(s, fs, LAYOUT, 0, 0, t.year, Slot(4, 4, '-', false));
    SlotShown(s, fs, LAYOUT, 1, 5, t.month, Slot(2, 2, '-', false));
    SlotShown(s, fs, LAYOUT, 2, 8, t.day, Slot(2, 2, 'T', false));
    SlotShown(s, fs, LAYOUT, 3, 11, t.hour, Slot(1, 2, ':', false));
    SlotShown(s, fs, LAYOUT, 4, 14, t.minute, Slot(2, 2, ':', false));
    SlotShown(s, fs, LAYOUT, 5, 17, t.second, Slot(2, 2, '.', false));
    SlotShown(s, fs, LAYOUT, 6, 20, t.nano / 1000, Slot(6, 6, 'Z', true));
  }

  lemma ShowsPadded(s: string, i: nat, j: nat, n: nat)
    requires Shows(s, i, j, n)
    ensures n < Power10(j - i) && s[i..j] == Padded(n, j - i)
  {
    PaddedNumber(s[i..j]);
  }

  lemma ShownTwice(s: string, f: string, i: nat, j: nat, n: nat)
    requires Shows(s, i, j, n) && Shows(f, i, j, n)
    ensures s[i..j] == f[i..j]
  {
    ShowsPadded(s, i, j, n);
    ShowsPadded(f, i, j, n);
  }

  lemma SameParts(s: string, f: string)
    requires |s| == 27 == |f|
    requires s[0..4] == f[0..4] && s[5..7] == f[5..7] && s[8..10] == f[8..10] && s[11..13] == f[11..13]
    requires s[14..16] == f[14..16] && s[17..19] == f[17..19] && s[20..26] == f[20..26]
    requires s[4] == f[4] && s[7] == f[7] && s[10] == f[10] && s[13] == f[13] && s[16] == f[16] && s[19] == f[19]
    requires s[26] == f[26]
    ensures s == f
  {
    forall k | 0 <= k < 27
      ensures s[k] == f[k]
    {
      if k < 4 {
        assert s[k] == s[0..4][k] && f[k] == f[0..4][k];
      } else if 5 <= k < 7 {
        assert s[k] == s[5..7][k - 5] && f[k] == f[5..7][k - 5];
      } else if 8 <= k < 10 {
        assert s[k] == s[8..10][k - 8] && f[k] == f[8..10][k - 8];
      } else if 11 <= k < 13 {
        assert s[k] == s[11..13][k - 11] && f[k] == f[11..13][k - 11];
      } else if 14 <= k < 16 {
        assert s[k] == s[14..16][k - 14] && f[k] == f[14..16][k - 14];
      } else if 17 <= k < 19 {
        assert s[k] == s[17..19][k - 17] && f[k] == f[17..19][k - 17];
      } else if 20 <= k < 26 {
        assert s[k] == s[20..26][k - 20] && f[k] == f[20..26][k - 20];
      }
    }
  }

  lemma SameTime(s: string, f: string, t: Clock)
    requires |s| == 27 == |f|
    requires s[4] == f[4] && s[7] == f[7] && s[10] == f[10] && s[13] == f[13] && s[16] == f[16] && s[19] == f[19]
    requires s[26] == f[26]
    requires Shows(s, 0, 4, t.year) && Shows(s, 5, 7, t.month) && Shows(s, 8, 10, t.day)
    requires Shows(s, 11, 13, t.hour) && Shows(s, 14, 16, t.minute) && Shows(s, 17, 19, t.second)
    requires Shows(s, 20, 26, t.nano / 1000)
    requires Shows(f, 0, 4, t.year) && Shows(f, 5, 7, t.month) && Shows(f, 8, 10, t.day)
    requires Shows(f, 11, 13, t.hour) && Shows(f, 14, 16, t.minute) && Shows(f, 17, 19, t.second)
    requires Shows(f, 20, 26, t.nano / 1000)
    ensures s == f
  {
    ShownTwice(s, f, 0, 4, t.year);
    ShownTwice(s, f, 5, 7, t.month);
    ShownTwice(s, f, 8, 10, t.day);
    ShownTwice(s, f, 11, 13, t.hour);
    ShownTwice(s, f, 14, 16, t.minute);
    ShownTwice(s, f, 17, 19, t.second);
    ShownTwice(s, f, 20, 26, t.nano / 1000);
    SameParts(s, f);
  }

  lemma ExactRoundTrip(t: Clock)
    requires ValidClock(t) && t.nano % 1000 == 0
    ensures Parse(Format(t)) == Some(t)
  {
    WholeMicros(t);
    ParseOfFormat(t);
  }

  lemma WholeMicros(t: Clock)
    requires t.nano % 1000 == 0
    ensures Truncated(t) == t
  {
  }

  lemma ShownIsFormat(s: string, t: Clock)
    requires ValidClock(t) && |s| == 27
    requires s[4] == '-' && s[7] == '-' && s[10] == 'T' && s[13] == ':' && s[16] == ':' && s[19] == '.' && s[26] == 'Z'
    requires Shows(s, 0, 4, t.year) && Shows(s, 5, 7, t.month) && Shows(s, 8, 10, t.day)
    requires Shows(s, 11, 13, t.hour) && Shows(s, 14, 16, t.minute) && Shows(s, 17, 19, t.second)
    requires Shows(s, 20, 26, t.nano / 1000)
    ensures s == Format(t)
  {
    FormatShows(t);
    SameTime(s, Format(t), t);
  }

  /** And every such text of a valid time parses as that time. */
  lemma ShownParses(s: string, t: Clock)
    requires ValidClock(t) && t.nano % 1000 == 0 && |s| == 27
    requires s[4] == '-' && s[7] == '-' && s[10] == 'T' && s[13] == ':' && s[16] == ':' && s[19] == '.' && s[26] == 'Z'
    requires Shows(s, 0, 4, t.year) && Shows(s, 5, 7, t.month) && Shows(s, 8, 10, t.day)
    requires Shows(s, 11, 13, t.hour) && Shows(s, 14, 16, t.minute) && Shows(s, 17, 19, t.second)
    requires Shows(s, 20, 26, t.nano / 1000)
    ensures Parse(s) == Some(t)
  {
    ShownIsFormat(s, t);
    ExactRoundTrip(t);
  }

  /** February, the number of days of a year, and every time of a leap day. */
  lemma CalendarExamples()
    ensures DaysIn(2, 2016) == 29 && DaysIn(2, 2017) == 28 && DaysIn(2, 1900) == 28 && DaysIn(2, 2000) == 29
    ensures forall y: nat ::
      DaysIn(1, y) + DaysIn(2, y) + DaysIn(3, y) + DaysIn(4, y) + DaysIn(5, y) + DaysIn(6, y) + DaysIn(7, y)
      + DaysIn(8, y) + DaysIn(9, y) + DaysIn(10, y) + DaysIn(11, y) + DaysIn(12, y) == 337 + DaysIn(2, y)
    ensures forall y: nat :: DaysIn(4, y) == DaysIn(6, y) == DaysIn(9, y) == DaysIn(11, y) == 30
    ensures forall h: nat, m: nat, s: nat, n: nat ::
      ValidClock(Clock(2016, 2, 29, h, m, s, n)) <==> h <= 23 && m <= 59 && s <= 59 && n <= 999_999_999
    ensures !ValidClock(Clock(2017, 2, 29, 0, 0, 0, 0)) && !ValidClock(Clock(2017, 13, 1, 0, 0, 0, 0))
    ensures ValidClock(Clock(9999, 12, 31, 0, 0, 0, 0)) && !ValidClock(Clock(2017, 1, 0, 0, 0, 0, 0))
    ensures ValidClock(Clock(0, 1, 1, 0, 0, 0, 0)) && !ValidClock(Clock(2017, 0, 1, 0, 0, 0, 0))
  {
  }

  // ----- the type -----

  class Dairytime {
    var time: Clock

    constructor (t: Clock)
      ensures time == t
    {
      time := t;
    }

    /** The zero time, and no other, marshals to nothing at all; the text of any other one has 27
        characters and parses back to it, cut to microseconds. */
    method MarshalText() returns (text: Option<string>)
      requires ValidClock(time)
      ensures text == if time == ZERO then None else Some(Format(time))
      ensures text.None? <==> time == Clock(1, 1, 1, 0, 0, 0, 0)
      ensures text.Some? ==> |text.value| == 27 && Parse(text.value) == Some(Truncated(time))
      ensures text.Some? ==>
        var s := text.value;
        && s[4] == '-' && s[7] == '-' && s[10] == 'T' && s[13] == ':' && s[16] == ':' && s[19] == '.' && s[26] == 'Z'
        && Shows(s, 0, 4, time.year) && Shows(s, 5, 7, time.month) && Shows(s, 8, 10, time.day)
        && Shows(s, 11, 13, time.hour) && Shows(s, 14, 16, time.minute) && Shows(s, 17, 19, time.second)
        && Shows(s, 20, 26, time.nano / 1000)
    {
      FormatShows(time);
      ParseOfFormat(time);
      if time == ZERO {
        return None;
      }
      return Some(Format(time));
    }

    /** No text leaves the receiver alone; text that does not parse silently makes it the zero time. The
        text of a valid time sets exactly that time. */
    method UnmarshalText(text: Option<string>)
      modifies this
      ensures text.None? || text == Some("") ==> time == old(time)
      ensures text.Some? && text.value != "" && Parse(text.value).Some? ==> Some(time) == Parse(text.value)
      ensures text.Some? && text.value != "" && Parse(text.value).None? ==> time == ZERO
      ensures forall t: Clock :: ValidClock(t) && t.nano % 1000 == 0 && text.Some? && |text.value| == 27 ==>
        var s := text.value;
        (&& s[4] == '-' && s[7] == '-' && s[10] == 'T' && s[13] == ':' && s[16] == ':' && s[19] == '.' && s[26] == 'Z'
         && Shows(s, 0, 4, t.year) && Shows(s, 5, 7, t.month) && Shows(s, 8, 10, t.day)
         && Shows(s, 11, 13, t.hour) && Shows(s, 14, 16, t.minute) && Shows(s, 17, 19, t.second)
         && Shows(s, 20, 26, t.nano / 1000))
        ==> time == t
    {
      forall t: Clock | ValidClock(t) && t.nano % 1000 == 0 && text.Some? && |text.value| == 27
        && var s := text.value;
        && s[4] == '-' && s[7] == '-' && s[10] == 'T' && s[13] == ':' && s[16] == ':' && s[19] == '.' && s[26] == 'Z'
        && Shows(s, 0, 4, t.year) && Shows(s, 5, 7, t.month) && Shows(s, 8, 10, t.day)
        && Shows(s, 11, 13, t.hour) && Shows(s, 14, 16, t.minute) && Shows(s, 17, 19, t.second)
        && Shows(s, 20, 26, t.nano / 1000)
        ensures Parse(text.value) == Some(t)
      {
        ShownParses(text.value, t);
      }
      if text.None? || text.value == "" {
        return;
      }
      var parsed := Parse(text.value);
      time := if parsed.Some? then parsed.value else ZERO;
    }
  }

  /** Marshalling one value and unmarshalling the text into another carries the time over, cut to
      microseconds, exactly unless the time is zero and the receiver is not. */
  method Transfer(source: Dairytime, target: Dairytime)
    requires source != target && ValidClock(source.time)
    modifies target
    ensures source.time == old(source.time)
    ensures target.time == Truncated(source.time) <==> source.time != ZERO || old(target.time) == ZERO
    ensures source.time == ZERO ==> target.time == old(target.time)
  {
    var text := source.MarshalText();
    target.UnmarshalText(text);
  }
}
