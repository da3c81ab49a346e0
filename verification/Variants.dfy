/** The variant generator of api/v1/product_options.go: an index array is stepped in
    place like an odometer, and each reading of it becomes one product. */
module Variants {
  import opened Arithmetic
  import opened MixedRadix
  import opened Text

  datatype OptionValue = OptionValue(id: nat, value: string)

  datatype ProductOption = ProductOption(id: nat, name: string, values: seq<OptionValue>)

  datatype Placeholder = Placeholder(id: nat, summary: string, value: string, original: OptionValue)

  /** The input fields that end up in a generated product; name stands for the
      columns that are copied verbatim and have no constraint of their own. */
  datatype Template = Template(name: string, sku: string, upc: string, quantityPerPackage: nat)

  datatype Variant = Variant(template: Template, sku: string, optionSummary: string, values: seq<OptionValue>)

  /** IndexPanic: the Go code indexes a slice out of range. */
  datatype Outcome = Built(variants: seq<Variant>) | IndexPanic

  function Sizes(options: seq<ProductOption>): (lens: seq<nat>)
    ensures |lens| == |options|
    ensures forall j :: 0 <= j < |options| ==> lens[j] == |options[j].values|
  {
    seq(|options|, j requires 0 <= j < |options| => |options[j].values|)
  }

  /** The values picked by an index vector, one per option. */
  function Chosen(options: seq<ProductOption>, ix: seq<nat>): (vs: seq<OptionValue>)
    requires InRange(ix, Sizes(options))
    ensures |vs| == |options|
    ensures forall j :: 0 <= j < |options| ==> vs[j] == options[j].values[ix[j]]
  {
    seq(|options|, j requires 0 <= j < |options| => options[j].values[ix[j]])
  }

  function Labels(options: seq<ProductOption>, vs: seq<OptionValue>): (ls: seq<string>)
    requires |vs| == |options|
    ensures |ls| == |vs|
    ensures forall j :: 0 <= j < |ls| ==> ls[j] == options[j].name + ": " + vs[j].value
  {
    seq(|vs|, j requires 0 <= j < |vs| => options[j].name + ": " + vs[j].value)
  }

  function SkuParts(lower: string -> string, vs: seq<OptionValue>): (ps: seq<string>)
    ensures |ps| == |vs|
    ensures forall j :: 0 <= j < |ps| ==> ps[j] == lower(vs[j].value)
  {
    seq(|vs|, j requires 0 <= j < |vs| => lower(vs[j].value))
  }

  /** The product printed for one index vector. */
  function VariantAt(t: Template, lower: string -> string, options: seq<ProductOption>, ix: seq<nat>): Variant
    requires InRange(ix, Sizes(options))
  {
    var vs := Chosen(options, ix);
    Variant(t, t.sku + "_" + Join(SkuParts(lower, vs), "_"), Join(Labels(options, vs), ", "), vs)
  }

  function VariantNumber(t: Template, lower: string -> string, options: seq<ProductOption>, i: nat): Variant
    requires i < Combinations(Sizes(options))
  {
    VariantAt(t, lower, options, Digits(Sizes(options), i))
  }

  /** What the generator builds when it does not panic, in the order it builds it. */
  function AllVariants(t: Template, lower: string -> string, options: seq<ProductOption>): (r: seq<Variant>)
    ensures |r| == Combinations(Sizes(options))
    ensures forall i :: 0 <= i < |r| ==> r[i] == VariantNumber(t, lower, options, i)
  {
    seq(Combinations(Sizes(options)),
        i requires 0 <= i < Combinations(Sizes(options)) => VariantNumber(t, lower, options, i))
  }

  /** The guard of the out-of-range branches: no option at all, or an option list that
      begins with a non-empty option and has an empty one later. */
  ghost predicate Panics(options: seq<ProductOption>) {
    || options == []
    || (options[0].values != [] && exists j :: 0 < j < |options| && options[j].values == [])
  }

  /** One turn of the odometer; the first digit is never wrapped. */
  method Next(ix: array<nat>, lens: seq<nat>)
    requires ix.Length == |lens| > 0
    requires TailInRange(ix[..], lens)
    modifies ix
    ensures TailInRange(ix[..], lens)
    ensures Value(ix[..], lens) == Value(old(ix[..]), lens) + 1
    ensures ix[0] <= old(ix[0]) + 1
  {
    var j := ix.Length - 1;
    assert lens[j + 1..] == [];
    while j >= 0
      invariant 0 <= j < ix.Length
      invariant forall k :: 0 < k < |lens| ==> ix[k] < lens[k]
      invariant ix[0] == old(ix[0])
      invariant Value(ix[..], lens) + Combinations(lens[j + 1..]) == Value(old(ix[..]), lens) + 1
    {
      ghost var before := ix[..];
      RaiseDigit(before, lens, j);
      ix[j] := ix[j] + 1;
      assert ix[..] == before[j := before[j] + 1];
      if j == 0 || ix[j] < lens[j] {
        return;
      }
      WrapDigit(before, lens, j);
      ix[j] := 0;
      assert ix[..] == before[j := 0];
      j := j - 1;
    }
  }

  /** One placeholder per option value, in order, labelled with the name of its option. */
  ghost predicate Placed(optionData: seq<seq<Placeholder>>, options: seq<ProductOption>) {
    && |optionData| == |options|
    && (forall j :: 0 <= j < |options| ==> |optionData[j]| == |options[j].values|)
    && (forall j, k :: 0 <= j < |options| && 0 <= k < |options[j].values| ==>
          var v := options[j].values[k];
          optionData[j][k] == Placeholder(v.id, options[j].name + ": " + v.value, v.value, v))
  }

  method PlaceholdersFor(options: seq<ProductOption>) returns (optionData: seq<seq<Placeholder>>)
    ensures Placed(optionData, options)
  {
    optionData := [];
    for i := 0 to |options|
      invariant |optionData| == i
      invariant forall j :: 0 <= j < i ==> |optionData[j]| == |options[j].values|
      invariant forall j, k :: 0 <= j < i && 0 <= k < |options[j].values| ==>
        var v := options[j].values[k];
        optionData[j][k] == Placeholder(v.id, options[j].name + ": " + v.value, v.value, v)
    {
      var o := options[i];
      var newOptions := [];
      for m := 0 to |o.values|
        invariant |newOptions| == m
        invariant forall k :: 0 <= k < m ==>
          var v := o.values[k];
          newOptions[k] == Placeholder(v.id, o.name + ": " + v.value, v.value, v)
      {
        var v := o.values[m];
        newOptions := newOptions + [Placeholder(v.id, o.name + ": " + v.value, v.value, v)];
      }
      optionData := optionData + [newOptions];
    }
  }

  /** The body of the generator's loop: reads one product off the index array, or runs out of range. */
  method ReadOdometer(t: Template, lower: string -> string, options: seq<ProductOption>,
                      optionData: seq<seq<Placeholder>>, ix: array<nat>) returns (ok: bool, product: Variant)
    requires Placed(optionData, options) && ix.Length == |options|
    ensures ok <==> InRange(ix[..], Sizes(options))
    ensures ok ==> product == VariantAt(t, lower, options, ix[..])
  {
    var skuPrefixParts, optionSummaryParts: seq<string>, originalValues: seq<OptionValue> := [], [], [];
    for j := 0 to ix.Length
      invariant |skuPrefixParts| == |optionSummaryParts| == |originalValues| == j
      invariant forall m :: 0 <= m < j ==> ix[m] < |options[m].values|
      invariant forall m :: 0 <= m < j ==> originalValues[m] == options[m].values[ix[m]]
      invariant forall m :: 0 <= m < j ==> skuPrefixParts[m] == lower(originalValues[m].value)
      invariant forall m :: 0 <= m < j ==> optionSummaryParts[m] == options[m].name + ": " + originalValues[m].value
    {
      var k: nat := ix[j];
      if k >= |optionData[j]| {
        return false, Variant(t, "", "", []);
      }
      optionSummaryParts := optionSummaryParts + [optionData[j][k].summary];
      skuPrefixParts := skuPrefixParts + [lower(optionData[j][k].value)];
      originalValues := originalValues + [optionData[j][k].original];
    }
    assert originalValues == Chosen(options, ix[..]);
    assert skuPrefixParts == SkuParts(lower, originalValues);
    assert optionSummaryParts == Labels(options, originalValues);
    return true, Variant(t, t.sku + "_" + Join(skuPrefixParts, "_"), Join(optionSummaryParts, ", "), originalValues);
  }

  /** Where the generator's loop stands after done turns. */
  ghost predicate Reading(ix: seq<nat>, lens: seq<nat>, done: nat) {
    && |ix| == |lens| > 0
    && done == Value(ix, lens) <= Combinations(lens)
    && (Combinations(lens) > 0 ==> TailInRange(ix, lens))
    && (Combinations(lens) == 0 ==> ix[0] == 0)
  }

  ghost predicate TailInRange(ix: seq<nat>, lens: seq<nat>)
    requires |ix| == |lens|
  {
    forall j :: 0 < j < |ix| ==> ix[j] < lens[j]
  }

  lemma StartReading(ix: seq<nat>, lens: seq<nat>)
    requires |ix| == |lens| > 0 && forall j :: 0 <= j < |ix| ==> ix[j] == 0
    ensures Reading(ix, lens, 0)
  {
    ZerosHaveValueZero(ix, lens);
    CombinationsZero(lens);
  }

  /** The loop reads index vector number done. */
  lemma VectorRead(ix: seq<nat>, lens: seq<nat>, done: nat)
    requires Reading(ix, lens, done) && InRange(ix, lens)
    ensures done < Combinations(lens) && Digits(lens, done) == ix
  {
    DigitsOfValue(ix, lens);
  }

  /** So it reads the product that is due. */
  lemma ProductRead(t: Template, lower: string -> string, options: seq<ProductOption>, ix: seq<nat>, done: nat)
    requires Reading(ix, Sizes(options), done) && InRange(ix, Sizes(options))
    ensures done < |AllVariants(t, lower, options)|
    ensures AllVariants(t, lower, options)[done] == VariantAt(t, lower, options, ix)
  {
    VectorRead(ix, Sizes(options), done);
  }

  /** One turn of the odometer later the next vector is due. */
  lemma NextIsDue(before: seq<nat>, after: seq<nat>, lens: seq<nat>, done: nat)
    requires Reading(before, lens, done) && InRange(before, lens)
    requires |after| == |lens| && TailInRange(after, lens) && Value(after, lens) == Value(before, lens) + 1
    ensures Reading(after, lens, done + 1)
  {
    VectorRead(before, lens, done);
  }

  lemma PrefixGrows<T>(xs: seq<T>, k: nat)
    requires k < |xs|
    ensures xs[..k] + [xs[k]] == xs[..k + 1]
  {
  }

  /** Once the first digit has run out, every vector has been read. */
  lemma StopReading(ix: seq<nat>, lens: seq<nat>, done: nat)
    requires Reading(ix, lens, done) && ix[0] >= lens[0]
    ensures done == Combinations(lens)
  {
    MulMonotone(lens[0], ix[0], Combinations(lens[1..]));
  }

  /** A vector that the loop tests successfully but cannot read exhibits an empty later option. */
  lemma ReadingPanics(ix: seq<nat>, lens: seq<nat>, done: nat)
    requires Reading(ix, lens, done) && ix[0] < lens[0] && !InRange(ix, lens)
    ensures exists j :: 0 < j < |lens| && lens[j] == 0
  {
    CombinationsZero(lens);
  }

  /** buildProductsFromOptions. It is total: the panics are one of its outcomes. */
  method BuildProductsFromOptions(t: Template, lower: string -> string, options: seq<ProductOption>)
    returns (r: Outcome)
    ensures r.IndexPanic? <==>
      options == [] || (options[0].values != [] && exists j :: 0 < j < |options| && options[j].values == [])
    ensures r.IndexPanic? <==> Panics(options)
    ensures r.Built? ==> r.variants == AllVariants(t, lower, options)
  {
    var optionData := PlaceholdersFor(options);
    var lens := Sizes(options);
    var ix := new nat[|options|](_ => 0);
    if ix.Length == 0 {
      return IndexPanic;
    }
    var toCreate: seq<Variant> := [];
    ghost var all := AllVariants(t, lower, options);
    StartReading(ix[..], lens);
    while ix[0] < |optionData[0]|
      invariant Reading(ix[..], lens, |toCreate|)
      invariant toCreate == all[..|toCreate|]
      decreases |all| - |toCreate|
    {
      var ok, product := ReadOdometer(t, lower, options, optionData, ix);
      if !ok {
        ReadingPanics(ix[..], lens, |toCreate|);
        return IndexPanic;
      }
      ProductRead(t, lower, options, ix[..], |toCreate|);
      PrefixGrows(all, |toCreate|);
      toCreate := toCreate + [product];
      ghost var before := ix[..];
      Next(ix, lens);
      NextIsDue(before, ix[..], lens, |toCreate| - 1);
    }
    StopReading(ix[..], lens, |toCreate|);
    CombinationsZero(lens);
    return Built(toCreate);
  }

  /** Every choice of one value per option is built exactly once, in lexicographic order of the choices. */
  lemma GeneratorEnumeratesChoices(t: Template, lower: string -> string, options: seq<ProductOption>)
    ensures var lens := Sizes(options);
      var r := AllVariants(t, lower, options);
      && |r| == Combinations(lens)
      && (forall ix :: InRange(ix, lens) ==>
            Value(ix, lens) < |r| && r[Value(ix, lens)] == VariantAt(t, lower, options, ix))
      && (forall i :: 0 <= i < |r| ==>
            var ix := Digits(lens, i);
            InRange(ix, lens) && Value(ix, lens) == i && r[i] == VariantAt(t, lower, options, ix))
      && (forall a, b :: InRange(a, lens) && InRange(b, lens) && LexLess(a, b) ==> Value(a, lens) < Value(b, lens))
  {
    var lens := Sizes(options);
    CountingEnumerates(lens);
    forall a, b | InRange(a, lens) && InRange(b, lens) && LexLess(a, b)
      ensures Value(a, lens) < Value(b, lens)
    {
      LexIsValueOrder(a, b, lens);
    }
  }

  // ----- what the texts of a product say -----

  /** The SKU of a product is the requested one, an underscore and, split at the underscores, the
      lower-cased values that the index vector picks, if none of them has an underscore. */
  lemma SkuReads(t: Template, lower: string -> string, options: seq<ProductOption>, ix: seq<nat>)
    requires options != [] && InRange(ix, Sizes(options))
    ensures var sku := VariantAt(t, lower, options, ix).sku;
      && t.sku + "_" <= sku
      && ((forall j :: 0 <= j < |options| ==> '_' !in lower(options[j].values[ix[j]].value)) ==>
            var parts := Split(sku[|t.sku| + 1..], "_");
            && |parts| == |options|
            && forall j :: 0 <= j < |options| ==> parts[j] == lower(options[j].values[ix[j]].value))
  {
    var parts := SkuParts(lower, Chosen(options, ix));
    assert VariantAt(t, lower, options, ix).sku[|t.sku| + 1..] == Join(parts, "_");
    if forall j :: 0 <= j < |options| ==> '_' !in lower(options[j].values[ix[j]].value) {
      SplitJoined(parts, "_");
    }
  }

  /** Its summary, split at the commas, names option and value in turn, if neither has a comma. */
  lemma SummaryReads(t: Template, lower: string -> string, options: seq<ProductOption>, ix: seq<nat>)
    requires options != [] && InRange(ix, Sizes(options))
    requires forall j :: 0 <= j < |options| ==>
      ',' !in options[j].name && ',' !in options[j].values[ix[j]].value
    ensures var parts := Split(VariantAt(t, lower, options, ix).optionSummary, ", ");
      && |parts| == |options|
      && forall j :: 0 <= j < |options| ==> parts[j] == options[j].name + ": " + options[j].values[ix[j]].value
  {
    var labels := Labels(options, Chosen(options, ix));
    forall j | 0 <= j < |labels|
      ensures FreeOf(labels[j], ',')
    {
      LabelFree(options[j].name, options[j].values[ix[j]].value);
    }
    SplitJoined(labels, ", ");
  }

  lemma LabelFree(name: string, value: string)
    requires ',' !in name && ',' !in value
    ensures FreeOf(name + ": " + value, ',')
  {
  }

  /** Of the products built, the i-th is printed from the i-th index vector and carries its values. */
  lemma BuiltProductReads(t: Template, lower: string -> string, options: seq<ProductOption>, i: nat)
    requires options != [] && i < Combinations(Sizes(options))
    ensures var v, ix := AllVariants(t, lower, options)[i], Digits(Sizes(options), i);
      && v.template == t
      && |v.values| == |options|
      && (forall j :: 0 <= j < |options| ==> v.values[j] == options[j].values[ix[j]])
      && t.sku + "_" <= v.sku
      && ((forall j :: 0 <= j < |options| ==> '_' !in lower(options[j].values[ix[j]].value)) ==>
            var parts := Split(v.sku[|t.sku| + 1..], "_");
            && |parts| == |options|
            && forall j :: 0 <= j < |options| ==> parts[j] == lower(options[j].values[ix[j]].value))
      && ((forall j :: 0 <= j < |options| ==> ',' !in options[j].name && ',' !in options[j].values[ix[j]].value) ==>
            var parts := Split(v.optionSummary, ", ");
            && |parts| == |options|
            && forall j :: 0 <= j < |options| ==>
                 parts[j] == options[j].name + ": " + options[j].values[ix[j]].value)
  {
    var ix := Digits(Sizes(options), i);
    SkuReads(t, lower, options, ix);
    if forall j :: 0 <= j < |options| ==> ',' !in options[j].name && ',' !in options[j].values[ix[j]].value {
      SummaryReads(t, lower, options, ix);
    }
  }

  ghost predicate SkusDistinct(r: seq<Variant>) {
    forall i, j :: 0 <= i < j < |r| ==> r[i].sku != r[j].sku
  }

  function Texts(o: ProductOption): (ts: seq<string>)
    ensures |ts| == |o.values| && forall a :: 0 <= a < |ts| ==> ts[a] == o.values[a].value
  {
    seq(|o.values|, a requires 0 <= a < |o.values| => o.values[a].value)
  }

  ghost predicate LoweredDistinct(lower: string -> string, texts: seq<string>) {
    forall a, b :: 0 <= a < b < |texts| ==> lower(texts[a]) != lower(texts[b])
  }

  ghost predicate NoUnderscore(lower: string -> string, texts: seq<string>) {
    forall a :: 0 <= a < |texts| ==> FreeOf(lower(texts[a]), '_')
  }

  /** Without underscores in the values, two generated SKUs collide exactly when the two
      choices agree after lower-casing. */
  lemma SkuCollision(t: Template, lower: string -> string, options: seq<ProductOption>, a: seq<nat>, b: seq<nat>)
    requires InRange(a, Sizes(options)) && InRange(b, Sizes(options))
    requires forall o :: o in options ==> NoUnderscore(lower, Texts(o))
    ensures VariantAt(t, lower, options, a).sku == VariantAt(t, lower, options, b).sku <==>
      forall j :: 0 <= j < |options| ==>
        lower(options[j].values[a[j]].value) == lower(options[j].values[b[j]].value)
  {
    var p, q := SkuParts(lower, Chosen(options, a)), SkuParts(lower, Chosen(options, b));
    forall j | 0 <= j < |options|
      ensures FreeOf(p[j], '_') && FreeOf(q[j], '_')
    {
      assert NoUnderscore(lower, Texts(options[j]));
    }
    var prefix := t.sku + "_";
    assert VariantAt(t, lower, options, a).sku[|prefix|..] == Join(p, "_");
    assert VariantAt(t, lower, options, b).sku[|prefix|..] == Join(q, "_");
    if VariantAt(t, lower, options, a).sku == VariantAt(t, lower, options, b).sku {
      JoinInjective(p, q, '_');
    }
    assert (forall j :: 0 <= j < |options| ==> p[j] == q[j]) ==> p == q;
  }

  /** Different index vectors pick values that differ after lower-casing somewhere. */
  lemma DistinctChoicesPrintDistinctSkus(t: Template, lower: string -> string, options: seq<ProductOption>,
                                         a: seq<nat>, b: seq<nat>)
    requires InRange(a, Sizes(options)) && InRange(b, Sizes(options)) && a != b
    requires forall o :: o in options ==> NoUnderscore(lower, Texts(o)) && LoweredDistinct(lower, Texts(o))
    ensures VariantAt(t, lower, options, a).sku != VariantAt(t, lower, options, b).sku
  {
    SkuCollision(t, lower, options, a, b);
    var m :| 0 <= m < |a| && a[m] != b[m];
    assert LoweredDistinct(lower, Texts(options[m]));
  }

  /** The index vector that picks value x of option m and the first value of every other option. */
  function Only(n: nat, m: nat, x: nat): (ix: seq<nat>)
    ensures |ix| == n && forall j :: 0 <= j < n ==> ix[j] == if j == m then x else 0
  {
    seq(n, j => if j == m then x else 0)
  }

  /** Two values of one option give two products that agree everywhere else. */
  lemma OneDigitApart(t: Template, lower: string -> string, options: seq<ProductOption>, m: nat, x: nat, y: nat)
    requires forall o :: o in options ==> NoUnderscore(lower, Texts(o)) && o.values != []
    requires m < |options| && x < y < |options[m].values|
    ensures var a, b := Only(|options|, m, x), Only(|options|, m, y);
      && InRange(a, Sizes(options)) && InRange(b, Sizes(options))
      && (lower(options[m].values[x].value) == lower(options[m].values[y].value)
          ==> VariantAt(t, lower, options, a).sku == VariantAt(t, lower, options, b).sku)
  {
    var a, b := Only(|options|, m, x), Only(|options|, m, y);
    assert forall j :: 0 <= j < |options| ==> options[j] in options;
    assert InRange(a, Sizes(options)) && InRange(b, Sizes(options));
    SkuCollision(t, lower, options, a, b);
  }

  lemma DistinctSkusSeparateValues(t: Template, lower: string -> string, options: seq<ProductOption>,
                                   m: nat, x: nat, y: nat)
    requires forall o :: o in options ==> NoUnderscore(lower, Texts(o)) && o.values != []
    requires m < |options| && x < y < |options[m].values|
    requires SkusDistinct(AllVariants(t, lower, options))
    ensures lower(options[m].values[x].value) != lower(options[m].values[y].value)
  {
    OneDigitApart(t, lower, options, m, x, y);
    var a, b := Only(|options|, m, x), Only(|options|, m, y);
    assert a[m] != b[m];
    SkusOfDistinctVectors(t, lower, options, a, b);
  }

  lemma SkusOfDistinctVectors(t: Template, lower: string -> string, options: seq<ProductOption>,
                              a: seq<nat>, b: seq<nat>)
    requires InRange(a, Sizes(options)) && InRange(b, Sizes(options)) && a != b
    requires SkusDistinct(AllVariants(t, lower, options))
    ensures VariantAt(t, lower, options, a).sku != VariantAt(t, lower, options, b).sku
  {
    SkuAtItsNumber(t, lower, options, a);
    SkuAtItsNumber(t, lower, options, b);
    LexIsValueOrder(a, b, Sizes(options));
    var r := AllVariants(t, lower, options);
    var i, j := Value(a, Sizes(options)), Value(b, Sizes(options));
    assert i != j && r[i].sku != r[j].sku;
  }

  lemma SkuAtItsNumber(t: Template, lower: string -> string, options: seq<ProductOption>, a: seq<nat>)
    requires InRange(a, Sizes(options))
    ensures Value(a, Sizes(options)) < |AllVariants(t, lower, options)|
    ensures AllVariants(t, lower, options)[Value(a, Sizes(options))] == VariantAt(t, lower, options, a)
  {
    DigitsOfValue(a, Sizes(options));
  }

  /** Without underscores in the values, the SKUs of a non-panicking generation are pairwise
      distinct exactly when each option's lower-cased values are. */
  lemma SkusDistinctIff(t: Template, lower: string -> string, options: seq<ProductOption>)
    requires forall o :: o in options ==> NoUnderscore(lower, Texts(o)) && o.values != []
    ensures SkusDistinct(AllVariants(t, lower, options)) <==>
      forall o :: o in options ==> LoweredDistinct(lower, Texts(o))
  {
    var lens := Sizes(options);
    var r := AllVariants(t, lower, options);
    if forall o :: o in options ==> LoweredDistinct(lower, Texts(o)) {
      forall i, j | 0 <= i < j < |r|
        ensures r[i].sku != r[j].sku
      {
        DistinctChoicesPrintDistinctSkus(t, lower, options, Digits(lens, i), Digits(lens, j));
      }
    }
    if SkusDistinct(r) {
      forall m, x, y | 0 <= m < |options| && 0 <= x < y < |options[m].values|
        ensures lower(options[m].values[x].value) != lower(options[m].values[y].value)
      {
        DistinctSkusSeparateValues(t, lower, options, m, x, y);
      }
    }
  }

  /** The hypothesis is needed: with an underscore in a value, distinct values can print one SKU twice. */
  lemma UnderscoreCollision()
    ensures var lower := (s: string) => s;
      var options := [
        ProductOption(1, "x", [OptionValue(1, "a"), OptionValue(2, "a_b")]),
        ProductOption(2, "y", [OptionValue(3, "b_c"), OptionValue(4, "c")])];
      && (forall o :: o in options ==> LoweredDistinct(lower, Texts(o)))
      && forall t :: VariantAt(t, lower, options, [0, 0]).sku == VariantAt(t, lower, options, [1, 1]).sku
  {
    var lower := (s: string) => s;
    var options := [
      ProductOption(1, "x", [OptionValue(1, "a"), OptionValue(2, "a_b")]),
      ProductOption(2, "y", [OptionValue(3, "b_c"), OptionValue(4, "c")])];
    var p, q := SkuParts(lower, Chosen(options, [0, 0])), SkuParts(lower, Chosen(options, [1, 1]));
    assert p == ["a", "b_c"] && q == ["a_b", "c"];
    assert p[1..] == ["b_c"] && q[1..] == ["c"];
    assert Join(p, "_") == "a_b_c" == Join(q, "_");
  }
}
