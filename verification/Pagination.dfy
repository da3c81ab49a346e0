/** List requests: parsing page and limit (api/v1/helpers.go), turning them into a query
    (storage/v1/database/postgres/main.go), and what the pages of one list add up to. */
module Pagination {
  import opened Wrappers
  import opened Text
  import opened Arithmetic

  const U64: nat := 0x1_0000_0000_0000_0000
  const TWO53: nat := 0x20_0000_0000_0000
  const TWO52: nat := 0x10_0000_0000_0000

  // ----- float64 rounding of the page -----

  /** The spacing of float64 values around i. */
  function Ulp(i: nat): (u: nat)
    ensures u > 0
    ensures i < TWO53 * u
    ensures u > 1 ==> TWO52 * u <= i
  {
    if i < TWO53 then 1 else 2 * Ulp(i / 2)
  }

  /** Of q * u and (q + 1) * u the one nearest to q * u + r, ties to the even multiple. */
  function Nearest(q: nat, r: nat, u: nat): (n: nat)
    ensures q * u <= n <= q * u + u
  {
    MulSucc(q, u);
    if 2 * r < u || (2 * r == u && q % 2 == 0) then q * u else (q + 1) * u
  }

  /** float64(i). */
  function RoundToFloat(i: nat): nat {
    Nearest(i / Ulp(i), i % Ulp(i), Ulp(i))
  }

  lemma {:induction false} UlpSteps(i: nat, j: nat)
    requires i <= j
    ensures Ulp(i) == Ulp(j) || 2 * Ulp(i) <= Ulp(j)
  {
    if i >= TWO53 {
      UlpSteps(i / 2, j / 2);
    }
  }

  lemma NearestMonotone(q: nat, r: nat, q': nat, r': nat, u: nat)
    requires r < u && r' < u && q * u + r <= q' * u + r'
    ensures Nearest(q, r, u) <= Nearest(q', r', u)
  {
    if q < q' {
      MulSucc(q, u);
      MulMonotone(q + 1, q', u);
    } else if q' < q {
      HigherPlaceDecides(q', q, u, r', r);
    }
  }

  /** Rounding does not leave the range in which the spacing is the same. */
  lemma RoundStaysInBinade(i: nat)
    ensures RoundToFloat(i) <= TWO53 * Ulp(i)
    ensures Ulp(i) > 1 ==> TWO52 * Ulp(i) <= RoundToFloat(i)
  {
    var u := Ulp(i);
    var q := i / u;
    Quotient(i, u);
    if q >= TWO53 {
      MulMonotone(TWO53, q, u);
    } else {
      MulSucc(q, u);
      MulMonotone(q + 1, TWO53, u);
    }
    if u > 1 {
      QuotientAtLeast(i, u, TWO52);
      MulMonotone(TWO52, q, u);
    }
  }

  lemma RoundMonotoneAtSpacing(i: nat, j: nat, u: nat)
    requires i <= j && u > 0
    ensures Nearest(i / u, i % u, u) <= Nearest(j / u, j % u, u)
  {
    var q, r, q', r' := i / u, i % u, j / u, j % u;
    Quotient(i, u);
    Quotient(j, u);
    NearestMonotone(q, r, q', r', u);
  }

  lemma RoundMonotoneAcrossSpacings(i: nat, j: nat)
    requires 2 * Ulp(i) <= Ulp(j)
    ensures RoundToFloat(i) <= RoundToFloat(j)
  {
    RoundStaysInBinade(i);
    RoundStaysInBinade(j);
  }

  lemma RoundMonotone(i: nat, j: nat)
    requires i <= j
    ensures RoundToFloat(i) <= RoundToFloat(j)
  {
    UlpSteps(i, j);
    if Ulp(i) == Ulp(j) {
      RoundMonotoneAtSpacing(i, j, Ulp(i));
    } else {
      RoundMonotoneAcrossSpacings(i, j);
    }
  }

  lemma RoundExactUpTo53Bits(i: nat)
    requires i <= TWO53
    ensures RoundToFloat(i) == i
  {
  }

  /** The top of the uint64 range: spacing 2048, and the last 1024 integers round up to 2^64. */
  lemma RoundAtTheTop(i: nat)
    requires i < U64
    ensures RoundToFloat(i) >= U64 <==> i >= U64 - 1024
    ensures RoundToFloat(i) < U64 ==> RoundToFloat(i) <= U64 - 2048
    ensures i >= U64 - 1024 ==> RoundToFloat(i) == U64
    ensures RoundToFloat(U64 - 2048) == U64 - 2048
  {
    TopUlp(U64 - 2048);
    if i >= U64 - 2048 {
      TopUlp(i);
      assert i / 2048 == U64 / 2048 - 1;
    } else {
      RoundMonotone(i, U64 - 2048);
    }
  }

  lemma TopUlp(i: nat)
    requires U64 / 2 <= i < U64
    ensures Ulp(i) == 2048
  {
    var a := i / 2 / 2 / 2;
    var b := a / 2 / 2 / 2;
    var c := b / 2 / 2 / 2;
    assert Ulp(c / 2 / 2) == 1;
    assert Ulp(c) == 4;
    assert Ulp(b / 2) == 16;
    assert Ulp(b) == 32;
    assert Ulp(a / 2) == 128;
    assert Ulp(a) == 256;
    assert Ulp(i / 2) == 1024;
  }

  /** qf.Page for a parsed page number. The conversion of a float of 2^64 or more to uint64 is
      left to the implementation by the Go specification; overflow is what it yields. */
  function PageOf(i: nat, overflow: nat): nat {
    var f := if RoundToFloat(i) > 1 then RoundToFloat(i) else 1;
    if f < U64 then f else overflow
  }

  /** Below 2^64 - 1024 the page is at least 1, grows with the request, is a uint64, and is
      exact up to 2^53. */
  lemma PageArithmetic(i: nat, j: nat, overflow: nat)
    requires i <= j < U64 - 1024
    ensures 1 <= PageOf(i, overflow) <= PageOf(j, overflow) < U64
    ensures 1 <= i <= TWO53 ==> PageOf(i, overflow) == i
  {
    RoundAtTheTop(i);
    RoundAtTheTop(j);
    RoundMonotone(i, j);
    if i <= TWO53 {
      RoundExactUpTo53Bits(i);
    }
  }

  lemma PageExact(i: nat, overflow: nat)
    requires 1 <= i <= TWO53
    ensures PageOf(i, overflow) == i
  {
    RoundExactUpTo53Bits(i);
  }

  /** Above 2^53 the even multiple wins a tie. */
  lemma RoundTies()
    ensures RoundToFloat(9_007_199_254_740_993) == 9_007_199_254_740_992
    ensures RoundToFloat(9_007_199_254_740_995) == 9_007_199_254_740_996
    ensures RoundToFloat(9_007_199_254_740_997) == 9_007_199_254_740_996
  {
    assert Ulp(4_503_599_627_370_496) == Ulp(4_503_599_627_370_497) == Ulp(4_503_599_627_370_498) == 1;
    assert Ulp(9_007_199_254_740_993) == Ulp(9_007_199_254_740_995) == Ulp(9_007_199_254_740_997) == 2;
  }

  /** Over all of uint64 the page never decreases exactly when the out-of-range conversion
      yields at least the largest float64 below 2^64. */
  lemma PageMonotoneIff(overflow: nat)
    ensures (forall i, j :: 0 <= i <= j < U64 ==> PageOf(i, overflow) <= PageOf(j, overflow))
       <==> overflow >= U64 - 2048
  {
    RoundAtTheTop(U64 - 2048);
    RoundAtTheTop(U64 - 1);
    assert PageOf(U64 - 2048, overflow) == U64 - 2048 && PageOf(U64 - 1, overflow) == overflow;
    if overflow >= U64 - 2048 {
      forall i, j | 0 <= i <= j < U64
        ensures PageOf(i, overflow) <= PageOf(j, overflow)
      {
        RoundAtTheTop(i);
        RoundAtTheTop(j);
        RoundMonotone(i, j);
      }
    }
  }

  /** On a machine where that conversion yields 2^63, asking for a later page can give an earlier one. */
  lemma PageCanDecrease()
    ensures PageOf(U64 - 1, U64 / 2) < PageOf(U64 - 2048, U64 / 2)
  {
    RoundAtTheTop(U64 - 2048);
    RoundAtTheTop(U64 - 1);
  }

  // ----- parsing -----

  datatype Float = Finite(r: real) | PosInf | NegInf | NaN

  /** uint8(math.Max(math.Min(f, 50), 0)); the conversion of NaN is implementation-specific. */
  function LimitOf(f: Float, nanByte: nat): (l: nat)
    ensures f != NaN ==> l <= 50
    ensures f.Finite? && 0.0 <= f.r <= 50.0 ==> l as real <= f.r < l as real + 1.0
    ensures f == PosInf || (f.Finite? && f.r >= 50.0) ==> l == 50
    ensures f == NegInf || (f.Finite? && f.r <= 0.0) ==> l == 0
    ensures f == NaN ==> l == nanByte
  {
    match f
    case Finite(r) => if r > 50.0 then 50 else if r < 0.0 then 0 else r.Floor
    case PosInf => 50
    case NegInf => 0
    case NaN => nanByte
  }

  /** The zero time.Time, which the query builder reads as "not set". */
  const ZERO_TIME: Time := -62135596800 * 1_000_000

  datatype QueryFilter = QueryFilter(page: nat, limit: nat,
                                     createdAfter: Time, createdBefore: Time,
                                     updatedAfter: Time, updatedBefore: Time, includeArchived: bool)

  /** The parts of the Go runtime the parser leans on. */
  datatype Runtime = Runtime(parseFloat: string -> Option<Float>, overflow: nat, nanByte: nat)

  type Params = map<string, seq<string>>

  function First(params: Params, key: string): Option<string> {
    if key in params && params[key] != [] then Some(params[key][0]) else None
  }

  /** strconv.ParseUint(s, 10, 64), None on an error. */
  function ParseUint(s: string): (r: Option<nat>)
    ensures r.Some? <==> s != "" && AllDigits(s) && Number(s) < U64
    ensures r.Some? ==> r.value == Number(s)
  {
    if s != "" && (forall i :: 0 <= i < |s| ==> IsDigit(s[i])) && Number(s) < U64 then Some(Number(s)) else None
  }

  function UintParam(params: Params, key: string): Option<nat> {
    match First(params, key)
    case Some(s) => ParseUint(s)
    case None => None
  }

  /** time.Unix(int64(i), 0). */
  function FromUnix(i: nat): Time {
    (if i < U64 / 2 then i else i - U64) * 1_000_000
  }

  function TimeParam(params: Params, key: string): Time {
    match UintParam(params, key)
    case Some(i) => FromUnix(i)
    case None => ZERO_TIME
  }

  function FloatParam(rt: Runtime, params: Params, key: string): Option<Float> {
    match First(params, key)
    case Some(s) => rt.parseFloat(s)
    case None => None
  }

  /** A time bound is the number of seconds that the parameter's first value denotes, as a signed 64-bit
      one, and the zero time when there is none. */
  lemma TimeInSeconds(params: Params, key: string)
    ensures key !in params || params[key] == [] ==> TimeParam(params, key) == -62135596800_000_000
    ensures key in params && params[key] != [] ==>
      var s, time := params[key][0], TimeParam(params, key);
      && (s == "" || !AllDigits(s) ==> time == -62135596800_000_000)
      && (s != "" && AllDigits(s) && Number(s) < 9_223_372_036_854_775_808 ==> time == Number(s) * 1_000_000)
      && (s != "" && AllDigits(s) && 9_223_372_036_854_775_808 <= Number(s) < 18_446_744_073_709_551_616 ==>
            time == (Number(s) - 18_446_744_073_709_551_616) * 1_000_000)
      && (s != "" && AllDigits(s) && 18_446_744_073_709_551_616 <= Number(s) ==> time == -62135596800_000_000)
  {
  }

  /** A page from 1 to 2^53 is taken as it is. */
  lemma PageInRange(rt: Runtime, params: Params)
    requires "page" in params && params["page"] != []
    requires params["page"][0] != "" && AllDigits(params["page"][0])
    requires 1 <= Number(params["page"][0]) <= 9_007_199_254_740_992
    ensures UintParam(params, "page") == Some(Number(params["page"][0]))
    ensures PageOf(Number(params["page"][0]), rt.overflow) == Number(params["page"][0])
  {
    PageExact(Number(params["page"][0]), rt.overflow);
  }

  method ParseRawFilterParams(rt: Runtime, params: Params) returns (qf: QueryFilter)
    ensures qf.page == match UintParam(params, "page") case Some(i) => PageOf(i, rt.overflow) case None => 1
    ensures qf.limit == match FloatParam(rt, params, "limit") case Some(f) => LimitOf(f, rt.nanByte) case None => 25
    ensures qf.createdAfter == TimeParam(params, "created_after")
    ensures qf.createdBefore == TimeParam(params, "created_before")
    ensures qf.updatedAfter == TimeParam(params, "updated_after")
    ensures qf.updatedBefore == TimeParam(params, "updated_before")
    ensures !qf.includeArchived
    ensures rt.nanByte <= 50 ==> qf.limit <= 50
  {
    qf := QueryFilter(1, 25, ZERO_TIME, ZERO_TIME, ZERO_TIME, ZERO_TIME, false);
    var page := UintParam(params, "page");
    if page.Some? {
      qf := qf.(page := PageOf(page.value, rt.overflow));
    }
    var limit := FloatParam(rt, params, "limit");
    if limit.Some? {
      qf := qf.(limit := LimitOf(limit.value, rt.nanByte));
    }
    var updatedAfter := UintParam(params, "updated_after");
    if updatedAfter.Some? {
      qf := qf.(updatedAfter := FromUnix(updatedAfter.value));
    }
    var updatedBefore := UintParam(params, "updated_before");
    if updatedBefore.Some? {
      qf := qf.(updatedBefore := FromUnix(updatedBefore.value));
    }
    var createdAfter := UintParam(params, "created_after");
    if createdAfter.Some? {
      qf := qf.(createdAfter := FromUnix(createdAfter.value));
    }
    var createdBefore := UintParam(params, "created_before");
    if createdBefore.Some? {
      qf := qf.(createdBefore := FromUnix(createdBefore.value));
    }
  }

  // ----- the query and its meaning -----

  datatype Column = CreatedOn | UpdatedOn | ArchivedOn

  datatype Condition = Gt(column: Column, t: Time) | Lt(column: Column, t: Time) | IsNull(column: Column)

  datatype Select = Select(limit: Option<nat>, offset: nat, conditions: seq<Condition>)

  /** NULL is None; payload stands for the columns that are not filtered on. */
  datatype Row = Row(payload: nat, createdOn: Time, updatedOn: Option<Time>, archivedOn: Option<Time>)

  function Cell(row: Row, c: Column): Option<Time> {
    match c
    case CreatedOn => Some(row.createdOn)
    case UpdatedOn => row.updatedOn
    case ArchivedOn => row.archivedOn
  }

  /** A comparison with NULL is not true. */
  predicate Holds(row: Row, c: Condition) {
    match c
    case Gt(col, t) => Cell(row, col).Some? && Cell(row, col).value > t
    case Lt(col, t) => Cell(row, col).Some? && Cell(row, col).value < t
    case IsNull(col) => Cell(row, col).None?
  }

  predicate Selected(row: Row, cs: seq<Condition>) {
    forall i :: 0 <= i < |cs| ==> Holds(row, cs[i])
  }

  function Where(rows: seq<Row>, cs: seq<Condition>): seq<Row> {
    if rows == [] then []
    else (if Selected(rows[0], cs) then [rows[0]] else []) + Where(rows[1..], cs)
  }

  /** LIMIT and OFFSET. */
  function Window<T>(xs: seq<T>, offset: nat, limit: Option<nat>): seq<T> {
    var rest := if offset <= |xs| then xs[offset..] else [];
    if limit.Some? && limit.value < |rest| then rest[..limit.value] else rest
  }

  function RunSelect(q: Select, rows: seq<Row>): seq<Row> {
    Window(Where(rows, q.conditions), q.offset, q.limit)
  }

  /** The count query has one result row, to which LIMIT and OFFSET apply. */
  function RunCount(q: Select, rows: seq<Row>): seq<nat> {
    Window([|Where(rows, q.conditions)|], q.offset, q.limit)
  }

  /** The rows a filter lets through, said about the row itself. */
  predicate Visible(qf: QueryFilter, row: Row) {
    && (qf.createdAfter != ZERO_TIME ==> row.createdOn > qf.createdAfter)
    && (qf.createdBefore != ZERO_TIME ==> row.createdOn < qf.createdBefore)
    && (qf.updatedAfter != ZERO_TIME ==> row.updatedOn.Some? && row.updatedOn.value > qf.updatedAfter)
    && (qf.updatedBefore != ZERO_TIME ==> row.updatedOn.Some? && row.updatedOn.value < qf.updatedBefore)
    && (!qf.includeArchived ==> row.archivedOn.None?)
  }

  function Filtered(qf: QueryFilter, rows: seq<Row>): seq<Row> {
    if rows == [] then []
    else (if Visible(qf, rows[0]) then [rows[0]] else []) + Filtered(qf, rows[1..])
  }

  function Offset(qf: QueryFilter): nat {
    if qf.page > 1 then ((qf.page - 1) * qf.limit) % U64 else 0
  }

  /** applyQueryFilterToQueryBuilder, where no filter at all is None. */
  method ApplyQueryFilter(builder: Select, filter: Option<QueryFilter>, includeOffset: bool) returns (q: Select)
    requires builder.conditions == [] && builder.offset == 0
    ensures filter.None? ==> q == builder
    ensures filter.Some? ==>
      && q.limit == Some(if filter.value.limit > 0 then filter.value.limit else 25)
      && q.offset == (if includeOffset && filter.value.page > 1
                      then ((filter.value.page - 1) * filter.value.limit) % 0x1_0000_0000_0000_0000 else 0)
      && forall row :: Selected(row, q.conditions) <==> Visible(filter.value, row)
  {
    q := builder;
    if filter.None? {
      return;
    }
    var qf := filter.value;
    if qf.limit > 0 {
      q := q.(limit := Some(qf.limit));
    } else {
      q := q.(limit := Some(25));
    }
    if qf.page > 1 && includeOffset {
      q := q.(offset := ((qf.page - 1) * qf.limit) % U64);
    }
    q := AddWhere(q, qf.createdAfter != ZERO_TIME, Gt(CreatedOn, qf.createdAfter));
    q := AddWhere(q, qf.createdBefore != ZERO_TIME, Lt(CreatedOn, qf.createdBefore));
    q := AddWhere(q, qf.updatedAfter != ZERO_TIME, Gt(UpdatedOn, qf.updatedAfter));
    q := AddWhere(q, qf.updatedBefore != ZERO_TIME, Lt(UpdatedOn, qf.updatedBefore));
    q := AddWhere(q, !qf.includeArchived, IsNull(ArchivedOn));
  }

  method AddWhere(q: Select, wanted: bool, c: Condition) returns (q': Select)
    ensures q'.limit == q.limit && q'.offset == q.offset
    ensures forall row :: Selected(row, q'.conditions) <==> Selected(row, q.conditions) && (wanted ==> Holds(row, c))
  {
    q' := if wanted then q.(conditions := q.conditions + [c]) else q;
    if wanted {
      forall row
        ensures Selected(row, q'.conditions) <==> Selected(row, q.conditions) && Holds(row, c)
      {
        assert q'.conditions[|q.conditions|] == c;
        assert forall i :: 0 <= i < |q.conditions| ==> q'.conditions[i] == q.conditions[i];
      }
    }
  }

  /** What a filter lets through, and how often: not archived rows, unless they are asked for, on the inner
      side of every bound that is set; a row that was never updated is inside no bound on updates. */
  lemma {:induction false} FilteredExactly(qf: QueryFilter, rows: seq<Row>, row: Row)
    ensures multiset(Filtered(qf, rows))[row] ==
      if && (!qf.includeArchived ==> row.archivedOn.None?)
         && (qf.createdAfter != -62135596800_000_000 ==> qf.createdAfter < row.createdOn)
         && (qf.createdBefore != -62135596800_000_000 ==> row.createdOn < qf.createdBefore)
         && (qf.updatedAfter != -62135596800_000_000 ==>
               row.updatedOn.Some? && qf.updatedAfter < row.updatedOn.value)
         && (qf.updatedBefore != -62135596800_000_000 ==>
               row.updatedOn.Some? && row.updatedOn.value < qf.updatedBefore)
      then multiset(rows)[row] else 0
  {
    if rows != [] {
      FilteredExactly(qf, rows[1..], row);
      assert rows == [rows[0]] + rows[1..];
      assert multiset(rows)[row] == multiset([rows[0]])[row] + multiset(rows[1..])[row];
    }
  }

  /** And in which order: that of the rows. */
  lemma {:induction false} FilteredInOrder(qf: QueryFilter, rows: seq<Row>, more: seq<Row>)
    ensures Filtered(qf, rows + more) == Filtered(qf, rows) + Filtered(qf, more)
  {
    if rows == [] {
      assert rows + more == more;
    } else {
      var head := if Visible(qf, rows[0]) then [rows[0]] else [];
      calc {
        Filtered(qf, rows + more);
      ==  { assert (rows + more)[1..] == rows[1..] + more && (rows + more)[0] == rows[0]; }
        head + Filtered(qf, rows[1..] + more);
      ==  { FilteredInOrder(qf, rows[1..], more); }
        head + (Filtered(qf, rows[1..]) + Filtered(qf, more));
      ==
        (head + Filtered(qf, rows[1..])) + Filtered(qf, more);
      }
    }
  }

  // ----- pages -----

  /** The list query's answer for a filter, by the contract of ApplyQueryFilter. */
  function ListPage(qf: QueryFilter, rows: seq<Row>): seq<Row> {
    Window(Filtered(qf, rows), Offset(qf), Some(if qf.limit > 0 then qf.limit else 25))
  }

  function Count(qf: QueryFilter, rows: seq<Row>): nat {
    |Filtered(qf, rows)|
  }

  lemma {:induction false} WhereIsFiltered(qf: QueryFilter, rows: seq<Row>, cs: seq<Condition>)
    requires forall row :: Selected(row, cs) <==> Visible(qf, row)
    ensures Where(rows, cs) == Filtered(qf, rows)
  {
    if rows != [] {
      WhereIsFiltered(qf, rows[1..], cs);
    }
  }

  /** A list request end to end: the list query yields the page, and the count query, whose LIMIT
      meets a one-row result, yields the size of the whole filtered list on every page. */
  method List(qf: QueryFilter, rows: seq<Row>) returns (count: seq<nat>, data: seq<Row>)
    ensures data == ListPage(qf, rows)
    ensures count == [Count(qf, rows)]
  {
    var countQuery := ApplyQueryFilter(Select(None, 0, []), Some(qf), false);
    var listQuery := ApplyQueryFilter(Select(None, 0, []), Some(qf), true);
    WhereIsFiltered(qf, rows, countQuery.conditions);
    WhereIsFiltered(qf, rows, listQuery.conditions);
    count := RunCount(countQuery, rows);
    data := RunSelect(listQuery, rows);
  }

  /** The offset is the mathematical one exactly when it fits in 64 bits. */
  lemma OffsetExactIff(qf: QueryFilter)
    requires qf.page >= 1
    ensures Offset(qf) == (qf.page - 1) * qf.limit <==> (qf.page - 1) * qf.limit < U64
  {
  }

  /** Up to page 2^53 and a limit of 50 it fits. */
  lemma OffsetFits(qf: QueryFilter)
    requires 1 <= qf.page <= TWO53 && qf.limit <= 50
    ensures Offset(qf) == (qf.page - 1) * qf.limit
  {
    MulMonotone(qf.page - 1, TWO53 - 1, qf.limit);
    OffsetExactIff(qf);
  }

  /** Pages 1..m of one list, one after the other. */
  function Pages(qf: QueryFilter, rows: seq<Row>, m: nat): seq<Row> {
    if m == 0 then [] else Pages(qf, rows, m - 1) + ListPage(qf.(page := m), rows)
  }

  function Min(a: nat, b: nat): nat {
    if a <= b then a else b
  }

  lemma {:induction false} FilteredIgnoresPage(qf: QueryFilter, rows: seq<Row>, p: nat)
    ensures Filtered(qf.(page := p), rows) == Filtered(qf, rows)
  {
    if rows != [] {
      FilteredIgnoresPage(qf, rows[1..], p);
    }
  }

  lemma WindowExtendsPrefix<T>(xs: seq<T>, a: nat, l: nat)
    ensures xs[..Min(a, |xs|)] + Window(xs, a, Some(l)) == xs[..Min(a + l, |xs|)]
  {
  }

  /** The first m pages are a prefix of the filtered list, Limit rows a page until it runs out. */
  lemma {:induction false} PagesArePrefix(qf: QueryFilter, rows: seq<Row>, m: nat)
    requires qf.limit > 0 && m * qf.limit < U64
    ensures Pages(qf, rows, m) == Filtered(qf, rows)[..Min(m * qf.limit, Count(qf, rows))]
  {
    if m > 0 {
      MulSucc(m - 1, qf.limit);
      PagesArePrefix(qf, rows, m - 1);
      FilteredIgnoresPage(qf, rows, m);
      OffsetExactIff(qf.(page := m));
      WindowExtendsPrefix(Filtered(qf, rows), (m - 1) * qf.limit, qf.limit);
    }
  }

  /** ceil(n / limit). */
  function PageCount(n: nat, limit: nat): (m: nat)
    requires limit > 0
    ensures n <= m * limit < n + limit
  {
    Quotient(n + limit - 1, limit);
    (n + limit - 1) / limit
  }

  /** A page has no rows exactly when its offset, as the query builder computes it, is past the end. */
  lemma PageEmptyIff(qf: QueryFilter, rows: seq<Row>)
    ensures ListPage(qf, rows) == [] <==> Offset(qf) >= Count(qf, rows)
  {
  }

  lemma PastTheEnd(qf: QueryFilter, rows: seq<Row>, p: nat)
    requires 0 < qf.limit && PageCount(Count(qf, rows), qf.limit) < p && (p - 1) * qf.limit < U64
    ensures ListPage(qf.(page := p), rows) == []
  {
    FilteredIgnoresPage(qf, rows, p);
    MulMonotone(PageCount(Count(qf, rows), qf.limit), p - 1, qf.limit);
    OffsetExactIff(qf.(page := p));
    PageEmptyIff(qf.(page := p), rows);
  }

  /** With a positive limit the pages 1..ceil(n / Limit) concatenate to the whole filtered list, so
      their lengths sum to the count every page reports. A page after them is empty if its true
      offset fits in 64 bits; beyond that PageEmptyIff decides. */
  lemma PagesTile(qf: QueryFilter, rows: seq<Row>)
    requires 0 < qf.limit <= 50
    requires |rows| < U64 - 100
    ensures var n := Count(qf, rows);
      var m := PageCount(n, qf.limit);
      && Pages(qf, rows, m) == Filtered(qf, rows)
      && |Pages(qf, rows, m)| == n
      && (forall p :: 1 <= p <= m ==> Count(qf.(page := p), rows) == n)
      && (forall p :: m < p && (p - 1) * qf.limit < U64 ==> ListPage(qf.(page := p), rows) == [])
  {
    var m := PageCount(Count(qf, rows), qf.limit);
    FilteredAtMost(qf, rows);
    PagesArePrefix(qf, rows, m);
    forall p: nat
      ensures Count(qf.(page := p), rows) == Count(qf, rows)
    {
      FilteredIgnoresPage(qf, rows, p);
    }
    forall p: nat | m < p && (p - 1) * qf.limit < U64
      ensures ListPage(qf.(page := p), rows) == []
    {
      PastTheEnd(qf, rows, p);
    }
  }

  const FAR_PAGE: nat := 576460752303423616

  lemma FarPageUlp()
    ensures Ulp(FAR_PAGE) == 128
  {
  }

  lemma FarPageSurvivesParsing(overflow: nat)
    ensures PageOf(FAR_PAGE, overflow) == FAR_PAGE
  {
    FarPageUlp();
    assert RoundToFloat(FAR_PAGE) == Nearest(FAR_PAGE / 128, 0, 128);
  }

  /** Not every page after the last one is empty: this one is a request number that survives parsing,
      and at limit 32 its offset wraps around to 4064. */
  lemma FarPageReturnsRows(qf: QueryFilter, rows: seq<Row>, overflow: nat)
    requires qf.page == PageOf(FAR_PAGE, overflow) && qf.limit == 32
    ensures qf.page == FAR_PAGE && Offset(qf) == 4064
    ensures ListPage(qf, rows) == [] <==> Count(qf, rows) <= 4064
  {
    FarPageSurvivesParsing(overflow);
    PageEmptyIff(qf, rows);
  }

  lemma {:induction false} FilteredAtMost(qf: QueryFilter, rows: seq<Row>)
    ensures Count(qf, rows) <= |rows|
  {
    if rows != [] {
      FilteredAtMost(qf, rows[1..]);
    }
  }

  /** With limit 0 the SQL limit is 25 but the offset stays 0: every page is the first 25 rows, so
      the pages tile exactly the lists of at most 25 rows. */
  lemma LimitZeroRepeatsFirstPage(qf: QueryFilter, rows: seq<Row>, p: nat)
    requires qf.limit == 0
    ensures ListPage(qf.(page := p), rows) == Filtered(qf, rows)[..Min(25, Count(qf, rows))]
    ensures Pages(qf, rows, 1) == Filtered(qf, rows) <==> Count(qf, rows) <= 25
  {
    FilteredIgnoresPage(qf, rows, p);
    FilteredIgnoresPage(qf, rows, 1);
    assert Pages(qf, rows, 0) == [];
    assert Pages(qf, rows, 1) == Filtered(qf, rows)[..Min(25, Count(qf, rows))];
  }
}
