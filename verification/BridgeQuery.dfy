/** The bulk insert of variant bridges: the text printed by buildMultiProductVariantBridgeCreationQuery
    and an independent reading of it as the rows it inserts. */
module BridgeQuery {
  import opened Wrappers
  import opened Text

  const NEWLINE: string := "\n                "

  // ----- printing -----

  function Group(i: nat): string {
    "($1, $" + Decimal(i + 2) + ")"
  }

  /** The text of groups i..n, as the loop prints them. */
  function Groups(i: nat, n: nat): string
    requires i < n
    decreases n - i
  {
    if i + 1 == n then Group(i) else Group(i) + "," + NEWLINE + Groups(i + 1, n)
  }

  /** The text still to be printed before turn i of the loop. */
  function Remaining(i: nat, n: nat): string
    requires i <= n
  {
    if i == n then "" else (if i == 0 then "" else NEWLINE) + Groups(i, n)
  }

  /** What the query prints between the parentheses that follow VALUES. */
  function ValueText(n: nat): string {
    if n == 0 then "" else if n == 1 then "$1, $2" else Groups(0, n)
  }

  method BuildMultiBridgeValues(productID: nat, optionValueIDs: seq<nat>)
    returns (valueString: string, values: seq<nat>)
    ensures valueString == ValueText(|optionValueIDs|)
    ensures values == [productID] + optionValueIDs
  {
    values := [productID];
    valueString := "";
    var n := |optionValueIDs|;
    if n == 1 {
      valueString := "$1, $2";
      values := values + [optionValueIDs[0]];
    } else {
      for ix := 0 to n
        invariant values == [productID] + optionValueIDs[..ix]
        invariant valueString + Remaining(ix, n) == Remaining(0, n)
      {
        ghost var before := valueString;
        if ix == 0 {
          valueString := "($1, $" + Decimal(ix + 2) + ")";
        } else {
          valueString := valueString + NEWLINE + "($1, $" + Decimal(ix + 2) + ")";
        }
        values := values + [optionValueIDs[ix]];
        if n - 1 != ix {
          valueString := valueString + ",";
        }
        TurnPrints(before, ix, n, valueString);
      }
      assert valueString + Remaining(n, n) == valueString;
    }
  }

  lemma TurnPrints(before: string, ix: nat, n: nat, after: string)
    requires ix < n
    requires ix == 0 ==> before == ""
    requires after == before + (if ix == 0 then "" else NEWLINE) + Group(ix) + (if n - 1 != ix then "," else "")
    ensures after + Remaining(ix + 1, n) == before + Remaining(ix, n)
  {
    var lead, comma := if ix == 0 then "" else NEWLINE, if n - 1 != ix then "," else "";
    if ix + 1 == n {
      Reassociate(before, lead, Group(ix), "", "");
      assert Group(ix) + ("" + "") == Group(ix);
    } else {
      GroupsSplit(ix, n);
      Reassociate(before, lead, Group(ix), comma, Remaining(ix + 1, n));
    }
  }

  lemma Reassociate(a: string, b: string, c: string, d: string, e: string)
    ensures (a + b + c + d) + e == a + (b + (c + (d + e)))
  {
  }

  lemma GroupsSplit(i: nat, n: nat)
    requires i + 1 < n
    ensures Groups(i, n) == Group(i) + ("," + (NEWLINE + Groups(i + 1, n)))
    ensures Groups(i + 1, n)[0] == '('
  {
  }

  lemma GroupText(i: nat)
    requires i < 8
    ensures Group(i) == "($1, $" + ["0123456789"[i + 2]] + ")"
  {
    DigitsAreDecimal(i + 2);
  }

  /** The texts for one and for two values. */
  lemma PrintedTexts()
    ensures ValueText(1) == "$1, $2"
    ensures ValueText(2) == "($1, $2)" + ",\n                " + "($1, $3)"
  {
    GroupText(0);
    GroupText(1);
    assert Groups(1, 2) == Group(1) && Groups(0, 2) == Group(0) + "," + NEWLINE + Groups(1, 2);
  }

  // ----- reading -----

  function SkipSpace(s: string): (r: string)
    ensures |r| <= |s|
  {
    if s != "" && (s[0] == ' ' || s[0] == '\n') then SkipSpace(s[1..]) else s
  }

  /** The longest digit prefix and what follows it. */
  function TakeDigits(s: string): (r: (string, string))
    ensures AllDigits(r.0) && r.0 + r.1 == s
  {
    if s != "" && IsDigit(s[0]) then
      var (d, rest) := TakeDigits(s[1..]);
      ([s[0]] + d, rest)
    else ("", s)
  }

  /** Consumes one expected character. */
  function Expect(s: string, c: char): (r: Option<string>)
    ensures r.Some? ==> |r.value| < |s|
  {
    if s != "" && s[0] == c then Some(s[1..]) else None
  }

  /** $k */
  function ReadPlaceholder(s: string): (r: Option<(nat, string)>)
    ensures r.Some? ==> |r.value.1| < |s|
  {
    match Expect(s, '$')
    case None => None
    case Some(t) =>
      var (d, rest) := TakeDigits(t);
      if d == "" then None else Some((Number(d), rest))
  }

  /** $a, $b */
  function ReadPair(s: string): (r: Option<((nat, nat), string)>)
    ensures r.Some? ==> |r.value.1| < |s|
  {
    match ReadPlaceholder(s)
    case None => None
    case Some((a, t)) =>
      match Expect(t, ',')
      case None => None
      case Some(u) =>
        match ReadPlaceholder(SkipSpace(u))
        case None => None
        case Some((b, rest)) => Some(((a, b), rest))
  }

  /** ($a, $b) */
  function ReadGroup(s: string): (r: Option<((nat, nat), string)>)
    ensures r.Some? ==> |r.value.1| < |s|
  {
    match Expect(SkipSpace(s), '(')
    case None => None
    case Some(t) =>
      match ReadPair(t)
      case None => None
      case Some((p, u)) =>
        match Expect(u, ')')
        case None => None
        case Some(v) => Some((p, v))
  }

  /** ($a, $b), ($c, $d), ... */
  function ReadGroups(s: string): Option<seq<(nat, nat)>>
    decreases |s|
  {
    match ReadGroup(s)
    case None => None
    case Some((p, v)) =>
      if SkipSpace(v) == "" then Some([p])
      else match Expect(SkipSpace(v), ',')
           case None => None
           case Some(w) =>
             match ReadGroups(w)
             case None => None
             case Some(ps) => Some([p] + ps)
  }

  /** A row list is one bare row (the parentheses around it are the query's own) or a list of groups. */
  function ReadValues(s: string): Option<seq<(nat, nat)>> {
    match ReadPair(s)
    case Some((p, "")) => Some([p])
    case Some(_) => None
    case None => ReadGroups(s)
  }

  /** Placeholder k stands for argument k, counted from 1. */
  predicate Bound(p: (nat, nat), args: seq<nat>) {
    1 <= p.0 <= |args| && 1 <= p.1 <= |args|
  }

  /** The rows a text inserts under an argument list, if it reads and binds. */
  function InsertedRows(s: string, args: seq<nat>): Option<seq<(nat, nat)>> {
    match ReadValues(s)
    case None => None
    case Some(ps) =>
      if forall i :: 0 <= i < |ps| ==> Bound(ps[i], args)
      then Some(seq(|ps|, i requires 0 <= i < |ps| && Bound(ps[i], args) => (args[ps[i].0 - 1], args[ps[i].1 - 1])))
      else None
  }

  // ----- round trip -----

  lemma {:induction false} TakeDigitsStops(d: string, rest: string)
    requires AllDigits(d) && (rest != "" ==> !IsDigit(rest[0]))
    ensures TakeDigits(d + rest) == (d, rest)
  {
    if d == "" {
      assert d + rest == rest;
    } else {
      assert (d + rest)[1..] == d[1..] + rest;
      TakeDigitsStops(d[1..], rest);
      assert d == [d[0]] + d[1..];
    }
  }

  lemma ExpectFirst(c: char, rest: string)
    ensures Expect([c] + rest, c) == Some(rest)
  {
  }

  lemma ReadPlaceholderForm(d: string, rest: string)
    requires d != "" && AllDigits(d) && (rest != "" ==> !IsDigit(rest[0]))
    ensures ReadPlaceholder(['$'] + (d + rest)) == Some((Number(d), rest))
  {
    ExpectFirst('$', d + rest);
    TakeDigitsStops(d, rest);
  }

  /** $a, $b followed by rest, nested to the right so that it can be read off from the left. */
  function PairForm(a: string, b: string, rest: string): string {
    ['$'] + (a + ([','] + ([' '] + (['$'] + (b + rest)))))
  }

  lemma ReadPairForm(a: string, b: string, rest: string)
    requires a != "" && AllDigits(a) && b != "" && AllDigits(b)
    requires rest != "" ==> !IsDigit(rest[0])
    ensures ReadPair(PairForm(a, b, rest)) == Some(((Number(a), Number(b)), rest))
  {
    var second := ['$'] + (b + rest);
    ReadPlaceholderForm(a, [','] + ([' '] + second));
    ExpectFirst(',', [' '] + second);
    assert ([' '] + second)[1..] == second;
    assert SkipSpace(second) == second;
    ReadPlaceholderForm(b, rest);
  }

  lemma GroupIsPairForm(b: string, rest: string)
    ensures "($1, $" + b + ")" + rest == ['('] + PairForm("1", b, [')'] + rest)
  {
  }

  function PlaceholderPairs(i: nat, n: nat): (ps: seq<(nat, nat)>)
    requires i <= n
    ensures |ps| == n - i && forall k :: 0 <= k < n - i ==> ps[k] == (1, i + k + 2)
  {
    seq(n - i, k => (1, i + k + 2))
  }

  lemma SkipNewline(s: string)
    requires s != "" && s[0] == '('
    ensures SkipSpace(NEWLINE + s) == s
  {
    SkipBlanks(16, s);
    var blanks := seq(16, _ => ' ');
    assert NEWLINE == "\n" + blanks;
    assert (NEWLINE + s)[1..] == blanks + s;
  }

  lemma {:induction false} SkipBlanks(k: nat, s: string)
    requires s != "" && s[0] == '('
    ensures SkipSpace(seq(k, _ => ' ') + s) == s
  {
    if k == 0 {
      assert seq(k, _ => ' ') + s == s;
    } else {
      SkipBlanks(k - 1, s);
      assert (seq(k, _ => ' ') + s)[1..] == seq(k - 1, _ => ' ') + s;
    }
  }

  lemma NumberOne()
    ensures Number("1") == 1
  {
  }

  /** Reading one printed group consumes exactly the group. */
  lemma ReadPrintedGroup(i: nat, rest: string)
    ensures ReadGroup(Group(i) + rest) == Some(((1, i + 2), rest))
  {
    var form := PairForm("1", Decimal(i + 2), [')'] + rest);
    NumberOne();
    GroupIsPairForm(Decimal(i + 2), rest);
    assert SkipSpace(['('] + form) == ['('] + form;
    ExpectFirst('(', form);
    ReadPairForm("1", Decimal(i + 2), [')'] + rest);
    ExpectFirst(')', rest);
  }

  lemma ReadLastGroup(i: nat)
    ensures ReadGroups(Group(i)) == Some([(1, i + 2)])
  {
    ReadPrintedGroup(i, "");
    assert Group(i) + "" == Group(i);
  }

  lemma ReadFirstGroup(i: nat, rest: string)
    ensures ReadGroups(Group(i) + ([','] + rest)) ==
      match ReadGroups(rest) case None => None case Some(ps) => Some([(1, i + 2)] + ps)
  {
    ReadPrintedGroup(i, [','] + rest);
    ReadGroupThenMore(Group(i) + ([','] + rest), (1, i + 2), rest);
  }

  lemma ReadGroupThenMore(s: string, p: (nat, nat), rest: string)
    requires ReadGroup(s) == Some((p, [','] + rest))
    ensures ReadGroups(s) == match ReadGroups(rest) case None => None case Some(ps) => Some([p] + ps)
  {
    ExpectFirst(',', rest);
    assert SkipSpace([','] + rest) == [','] + rest;
  }

  lemma ReadAfterNewline(s: string)
    requires s != "" && s[0] == '('
    ensures ReadGroups(NEWLINE + s) == ReadGroups(s)
  {
    SkipNewline(s);
    assert SkipSpace(s) == s;
  }

  lemma ReadOneMoreGroup(i: nat, n: nat)
    requires i + 1 < n
    ensures ReadGroups(Groups(i, n)) ==
      match ReadGroups(Groups(i + 1, n)) case None => None case Some(ps) => Some([(1, i + 2)] + ps)
  {
    var rest := Groups(i + 1, n);
    GroupsSplit(i, n);
    ReadFirstGroup(i, NEWLINE + rest);
    ReadAfterNewline(rest);
  }

  lemma PairsSplit(i: nat, n: nat)
    requires i < n
    ensures PlaceholderPairs(i, n) == [(1, i + 2)] + PlaceholderPairs(i + 1, n)
    ensures i + 1 == n ==> PlaceholderPairs(i, n) == [(1, i + 2)]
  {
  }

  lemma ReadStep(i: nat, n: nat, rest: seq<(nat, nat)>)
    requires i + 1 < n && ReadGroups(Groups(i + 1, n)) == Some(rest)
    ensures ReadGroups(Groups(i, n)) == Some([(1, i + 2)] + rest)
  {
    ReadOneMoreGroup(i, n);
  }

  lemma {:induction false} ReadPrintedGroups(i: nat, n: nat)
    requires i < n
    ensures ReadGroups(Groups(i, n)) == Some(PlaceholderPairs(i, n))
    decreases n - i
  {
    PairsSplit(i, n);
    if i + 1 == n {
      ReadLastGroup(i);
    } else {
      ReadPrintedGroups(i + 1, n);
      ReadStep(i, n, PlaceholderPairs(i + 1, n));
    }
  }

  /** The bare row printed for a single value. */
  lemma ReadSingleRow()
    ensures ReadValues(ValueText(1)) == Some([(1, 2)])
  {
    NumberOne();
    assert "2"[..0] == "";
    assert "$1, $2" == PairForm("1", "2", "");
    ReadPairForm("1", "2", "");
  }

  lemma ReadPrintedRows(n: nat)
    requires n > 1
    ensures ReadValues(Groups(0, n)) == Some(PlaceholderPairs(0, n))
  {
    ReadPrintedGroups(0, n);
    GroupsSplit(0, n);
    assert Groups(0, n)[0] == '(';
  }

  lemma ReadPrintedValues(n: nat)
    requires n > 0
    ensures ReadValues(ValueText(n)) == Some(PlaceholderPairs(0, n))
  {
    if n == 1 {
      ReadSingleRow();
      assert PlaceholderPairs(0, 1) == [(1, 2)];
    } else {
      ReadPrintedRows(n);
    }
  }

  ghost predicate Uses(ps: seq<(nat, nat)>, k: nat) {
    exists i :: 0 <= i < |ps| && (ps[i].0 == k || ps[i].1 == k)
  }

  /** For one or more values, the printed text reads back under its argument list as exactly the
      rows (productID, id) in order; every placeholder is bound and every argument is used. */
  lemma BridgeTextRoundTrip(productID: nat, ids: seq<nat>)
    requires ids != []
    ensures var args := [productID] + ids;
      && InsertedRows(ValueText(|ids|), args) == Some(seq(|ids|, i requires 0 <= i < |ids| => (productID, ids[i])))
      && ReadValues(ValueText(|ids|)).Some?
      && (var ps := ReadValues(ValueText(|ids|)).value;
          && (forall i :: 0 <= i < |ps| ==> Bound(ps[i], args))
          && (forall k: nat :: 1 <= k <= |args| ==> Uses(ps, k)))
  {
    var n, args := |ids|, [productID] + ids;
    var ps := PlaceholderPairs(0, n);
    ReadPrintedValues(n);
    assert InsertedRows(ValueText(n), args).value == seq(n, i requires 0 <= i < n => (productID, ids[i]));
    forall k: nat | 1 <= k <= |args|
      ensures Uses(ps, k)
    {
      var i := if k == 1 then 0 else k - 2;
      assert ps[i].0 == k || ps[i].1 == k;
    }
  }
}
