/** What the UNIQUE constraints of the schema make of each insert, update and archive statement, in
    terms of the tables before it. */
module Constraints {
  import opened Wrappers
  import opened MixedRadix
  import opened Variants
  import opened ProductImages
  import opened Catalogue
  import opened Creation
  import opened Lifecycle

  // ----- more rows, fewer choices -----

  /** t' has every keyed row of t, and perhaps more of them. */
  ghost predicate Grows(t: Tables, t': Tables) {
    t.roots <= t'.roots && t.products <= t'.products && t.options <= t'.options && t.values <= t'.values
  }

  lemma KeysOfPrefix(t: Tables, t': Tables)
    requires Grows(t, t') && UniqueKeys(t')
    ensures UniqueKeys(t)
  {
  }

  /** Columns without a constraint do not matter. */
  lemma SameProductColumns(a: seq<Product>, b: seq<Product>)
    requires |a| == |b|
    requires forall i :: 0 <= i < |a| ==>
      a[i].sku == b[i].sku && a[i].upc == b[i].upc && a[i].archivedOn == b[i].archivedOn
    ensures ProductKeys(a) <==> ProductKeys(b)
  {
  }

  // ----- inserts -----

  ghost predicate Distinct(texts: seq<string>) {
    forall a, b :: 0 <= a < b < |texts| ==> texts[a] != texts[b]
  }

  /** Some option row of the root, live or archived, has the name. */
  ghost predicate OptionNameUsed(t: Tables, r: nat, name: string) {
    exists i :: 0 <= i < |t.options| && t.options[i].rootID == r && t.options[i].name == name
  }

  /** Some value row of the option, live or archived, has the text. */
  ghost predicate ValueTextUsed(t: Tables, o: nat, text: string) {
    exists i :: 0 <= i < |t.values| && t.values[i].optionID == o && t.values[i].value == text
  }

  /** Some product row, live or archived, has the UPC. */
  ghost predicate UpcUsed(t: Tables, upc: string) {
    exists i :: 0 <= i < |t.products| && t.products[i].upc == upc
  }

  lemma LiveOptionKeysIff(rows: seq<OptionRow>, r: nat, name: string)
    requires OptionKeys(rows)
    ensures OptionKeys(rows + [OptionRow(r, name, None)]) <==>
      forall i :: 0 <= i < |rows| ==> !(rows[i].rootID == r && rows[i].name == name)
  {
    var all := rows + [OptionRow(r, name, None)];
    if OptionKeys(all) {
      forall i | 0 <= i < |rows|
        ensures !(rows[i].rootID == r && rows[i].name == name)
      {
        assert !OptionsClash(all[i], all[|rows|]);
      }
    }
  }

  lemma DistinctValuesKeys(rows: seq<ValueRow>, o: nat, texts: seq<string>)
    requires ValueKeys(rows) && forall i :: 0 <= i < |rows| ==> rows[i].optionID != o
    requires Distinct(texts)
    ensures ValueKeys(rows + ValueRows(o, texts))
  {
  }

  lemma ValuesKeysDistinct(rows: seq<ValueRow>, o: nat, texts: seq<string>)
    requires ValueKeys(rows + ValueRows(o, texts))
    ensures Distinct(texts)
  {
    var all, n := rows + ValueRows(o, texts), |rows|;
    forall a, b | 0 <= a < b < |texts|
      ensures texts[a] != texts[b]
    {
      assert !ValuesClash(all[n + a], all[n + b]);
    }
  }

  lemma LiveValuesKeysIff(rows: seq<ValueRow>, o: nat, texts: seq<string>)
    requires ValueKeys(rows) && forall i :: 0 <= i < |rows| ==> rows[i].optionID != o
    ensures ValueKeys(rows + ValueRows(o, texts)) <==> Distinct(texts)
  {
    if Distinct(texts) {
      DistinctValuesKeys(rows, o, texts);
    } else if ValueKeys(rows + ValueRows(o, texts)) {
      ValuesKeysDistinct(rows, o, texts);
    }
  }

  /** An option with its values can be inserted exactly when no option row of the root, live or
      archived, has its name and the values are pairwise distinct. */
  lemma AddOptionUniqueIff(t: Tables, r: nat, o: OptionInput)
    requires References(t) && UniqueKeys(t)
    ensures UniqueKeys(AddOption(t, r, o)) <==> !OptionNameUsed(t, r, o.name) && Distinct(o.values)
  {
    LiveOptionKeysIff(t.options, r, o.name);
    LiveValuesKeysIff(t.values, |t.options|, o.values);
  }

  /** A value can be inserted exactly when no value row of the option, live or archived, has its text. */
  lemma InsertValueUniqueIff(t: Tables, o: nat, text: string)
    requires UniqueKeys(t)
    ensures UniqueKeys(InsertValue(t, ValueRow(o, text, None))) <==> !ValueTextUsed(t, o, text)
  {
    var rows := t.values + [ValueRow(o, text, None)];
    if ValueKeys(rows) {
      forall i | 0 <= i < |t.values|
        ensures !(t.values[i].optionID == o && t.values[i].value == text)
      {
        assert !ValuesClash(rows[i], rows[|t.values|]);
      }
    }
  }

  /** A live product can be inserted exactly when it has no UPC or one that no product row has. */
  lemma InsertProductUniqueIff(t: Tables, row: Product)
    requires UniqueKeys(t) && row.archivedOn.None?
    ensures UniqueKeys(InsertProduct(t, row)) <==> row.upc == "" || !UpcUsed(t, row.upc)
  {
    var rows := t.products + [row];
    if ProductKeys(rows) && row.upc != "" {
      forall i | 0 <= i < |t.products|
        ensures t.products[i].upc != row.upc
      {
        assert !ProductsClash(rows[i], rows[|t.products|]);
      }
    }
  }

  // ----- a whole creation -----

  /** The option names are pairwise distinct, and so are the values of each option. */
  ghost predicate OptionsWellKeyed(os: seq<OptionInput>) {
    && (forall i, j :: 0 <= i < j < |os| ==> os[i].name != os[j].name)
    && (forall i :: 0 <= i < |os| ==> Distinct(os[i].values))
  }

  ghost predicate NoOptionsYet(t: Tables, r: nat) {
    forall i :: 0 <= i < |t.options| ==> t.options[i].rootID != r
  }

  lemma NewNamesUsed(t: Tables, r: nat, os: seq<OptionInput>, name: string)
    requires NoOptionsYet(t, r)
    ensures OptionNameUsed(AddOptions(t, r, os), r, name) <==> exists j :: 0 <= j < |os| && os[j].name == name
  {
    OptionsAppend(t, r, os);
    NamesAppended(t, AddOptions(t, r, os), r, os, name);
  }

  lemma NamesAppended(t: Tables, t': Tables, r: nat, os: seq<OptionInput>, name: string)
    requires NoOptionsYet(t, r) && t.options <= t'.options && |t'.options| == |t.options| + |os|
    requires forall j :: 0 <= j < |os| ==> t'.options[|t.options| + j] == OptionRow(r, os[j].name, None)
    ensures OptionNameUsed(t', r, name) <==> exists j :: 0 <= j < |os| && os[j].name == name
  {
    NamesOfRoot(t', |t.options|, r, os, name);
  }

  lemma NamesOfRoot(t: Tables, n: nat, r: nat, os: seq<OptionInput>, name: string)
    requires |t.options| == n + |os|
    requires forall i :: 0 <= i < n ==> t.options[i].rootID != r
    requires forall j :: 0 <= j < |os| ==> t.options[n + j] == OptionRow(r, os[j].name, None)
    ensures OptionNameUsed(t, r, name) <==> exists j :: 0 <= j < |os| && os[j].name == name
  {
    if OptionNameUsed(t, r, name) {
      var i :| 0 <= i < |t.options| && t.options[i].rootID == r && t.options[i].name == name;
      assert t.options[n + (i - n)].name == os[i - n].name;
    }
    if j :| 0 <= j < |os| && os[j].name == name {
      assert t.options[n + j] == OptionRow(r, name, None);
    }
  }

  lemma OptionGrows(t: Tables, r: nat, o: OptionInput)
    ensures Grows(t, AddOption(t, r, o))
  {
  }

  lemma WellKeyedPrefix(os: seq<OptionInput>)
    requires os != []
    ensures var n := |os| - 1;
      OptionsWellKeyed(os) <==>
        && OptionsWellKeyed(os[..n])
        && Distinct(os[n].values)
        && !(exists j :: 0 <= j < n && os[..n][j].name == os[n].name)
  {
  }

  /** The options of a new root can be inserted exactly when they are well keyed. */
  lemma {:induction false} AddOptionsUniqueIff(t: Tables, r: nat, os: seq<OptionInput>)
    requires References(t) && UniqueKeys(t) && r < |t.roots| && NoOptionsYet(t, r)
    ensures UniqueKeys(AddOptions(t, r, os)) <==> OptionsWellKeyed(os)
  {
    if os != [] {
      var n := |os| - 1;
      var t1 := AddOptions(t, r, os[..n]);
      AddOptionsUniqueIff(t, r, os[..n]);
      WellKeyedPrefix(os);
      if UniqueKeys(t1) {
        AddOptionsKeep(t, r, os[..n]);
        AddOptionUniqueIff(t1, r, os[n]);
        NewNamesUsed(t, r, os[..n], os[n].name);
      } else if UniqueKeys(AddOption(t1, r, os[n])) {
        OptionGrows(t1, r, os[n]);
        KeysOfPrefix(t1, AddOption(t1, r, os[n]));
      }
    }
  }

  lemma {:induction false} OptionsGrow(t: Tables, r: nat, os: seq<OptionInput>, i: nat)
    requires i <= |os|
    ensures Grows(AddOptions(t, r, os[..i]), AddOptions(t, r, os))
  {
    var n := |os| - 1;
    if i == |os| {
      assert os[..i] == os;
    } else {
      assert os[..n][..i] == os[..i];
      OptionsGrow(t, r, os[..n], i);
      OptionGrows(AddOptions(t, r, os[..n]), r, os[n]);
    }
  }

  /** n new products may carry the UPC. */
  ghost predicate UpcAllows(t: Tables, upc: string, n: nat) {
    upc == "" || n == 0 || (n == 1 && !UpcUsed(t, upc))
  }

  lemma AddVariantUniqueIff(t: Tables, r: nat, v: Variant)
    requires UniqueKeys(t)
    ensures UniqueKeys(AddVariant(t, r, v)) <==> v.template.upc == "" || !UpcUsed(t, v.template.upc)
  {
    InsertProductUniqueIff(t, VariantRow(v, r));
  }

  lemma VariantGrows(t: Tables, r: nat, v: Variant)
    ensures Grows(t, AddVariant(t, r, v))
    ensures UpcUsed(AddVariant(t, r, v), v.template.upc)
  {
    var products := AddVariant(t, r, v).products;
    assert products[|t.products|].upc == v.template.upc;
  }

  lemma {:induction false} VariantsGrow(t: Tables, r: nat, vs: seq<Variant>, i: nat)
    requires i <= |vs|
    ensures Grows(AddVariants(t, r, vs[..i]), AddVariants(t, r, vs))
  {
    var n := |vs| - 1;
    if i == |vs| {
      assert vs[..i] == vs;
    } else {
      assert vs[..n][..i] == vs[..i];
      VariantsGrow(t, r, vs[..n], i);
      VariantGrows(AddVariants(t, r, vs[..n]), r, vs[n]);
    }
  }

  lemma {:induction false} AddVariantsUniqueIff(t: Tables, r: nat, vs: seq<Variant>, upc: string)
    requires UniqueKeys(t) && forall k :: 0 <= k < |vs| ==> vs[k].template.upc == upc
    ensures UniqueKeys(AddVariants(t, r, vs)) <==> UpcAllows(t, upc, |vs|)
  {
    if vs != [] {
      var n := |vs| - 1;
      var t1 := AddVariants(t, r, vs[..n]);
      AddVariantsUniqueIff(t, r, vs[..n], upc);
      if UniqueKeys(t1) {
        AddVariantUniqueIff(t1, r, vs[n]);
        if n > 0 {
          assert vs[..n][n - 1] == vs[n - 1];
          VariantGrows(AddVariants(t, r, vs[..n][..n - 1]), r, vs[n - 1]);
        }
      } else if UniqueKeys(AddVariant(t1, r, vs[n])) {
        VariantGrows(t1, r, vs[n]);
        KeysOfPrefix(t1, AddVariant(t1, r, vs[n]));
      }
    }
  }

  lemma RootAndImagesUnique(t: Tables, env: Environment, input: CreationInput, kept: seq<ImageInput>)
    requires References(t) && UniqueKeys(t)
    ensures UniqueKeys(WithRootAndImages(t, env, input, kept))
    ensures NoOptionsYet(WithRootAndImages(t, env, input, kept), |t.roots|)
    ensures WithRootAndImages(t, env, input, kept).products == t.products
  {
  }

  lemma OptionsThenVariantsUniqueIff(t: Tables, r: nat, os: seq<OptionInput>, vs: seq<Variant>, upc: string)
    requires References(t) && UniqueKeys(t) && r < |t.roots| && NoOptionsYet(t, r)
    requires forall k :: 0 <= k < |vs| ==> vs[k].template.upc == upc
    ensures UniqueKeys(AddOptions(t, r, os)) <==> OptionsWellKeyed(os)
    ensures UniqueKeys(AddVariants(AddOptions(t, r, os), r, vs)) <==> OptionsWellKeyed(os) && UpcAllows(t, upc, |vs|)
  {
    var t1 := AddOptions(t, r, os);
    AddOptionsUniqueIff(t, r, os);
    OptionsAppend(t, r, os);
    if UniqueKeys(t1) {
      AddVariantsUniqueIff(t1, r, vs, upc);
    } else if UniqueKeys(AddVariants(t1, r, vs)) {
      VariantsAppend(t1, r, vs);
      KeysOfPrefix(t1, AddVariants(t1, r, vs));
    }
  }

  lemma NewVariantsUpc(t: Tables, env: Environment, input: CreationInput, kept: seq<ImageInput>)
    ensures |NewVariants(t, env, input, kept)| == Combinations(InputSizes(input.options))
    ensures forall k :: 0 <= k < |NewVariants(t, env, input, kept)| ==>
      NewVariants(t, env, input, kept)[k].template == input.template
  {
    CreatedSizes(WithRootAndImages(t, env, input, kept), |t.roots|, input.options);
  }

  /** The options of a creation can be inserted exactly when they are well keyed. */
  lemma CreationOptionsUniqueIff(t: Tables, env: Environment, input: CreationInput, kept: seq<ImageInput>)
    requires References(t) && UniqueKeys(t)
    ensures UniqueKeys(WithOptions(t, env, input, kept)) <==> OptionsWellKeyed(input.options)
  {
    RootAndImagesUnique(t, env, input, kept);
    WithRootAndImagesKeeps(t, env, input, kept);
    AddOptionsUniqueIff(WithRootAndImages(t, env, input, kept), |t.roots|, input.options);
  }

  lemma OptionsCreationUniqueIff(t: Tables, env: Environment, input: CreationInput, kept: seq<ImageInput>)
    requires References(t) && UniqueKeys(t) && input.options != []
    ensures UniqueKeys(AfterCreation(t, env, input, kept)) <==>
      OptionsWellKeyed(input.options) && UpcAllows(t, input.template.upc, Combinations(InputSizes(input.options)))
  {
    RootAndImagesUnique(t, env, input, kept);
    WithRootAndImagesKeeps(t, env, input, kept);
    NewVariantsUpc(t, env, input, kept);
    OptionsThenVariantsUniqueIff(WithRootAndImages(t, env, input, kept), |t.roots|, input.options,
                                 NewVariants(t, env, input, kept), input.template.upc);
  }

  lemma PlainCreationUniqueIff(t: Tables, env: Environment, input: CreationInput, kept: seq<ImageInput>)
    requires References(t) && UniqueKeys(t) && input.options == []
    ensures UniqueKeys(AfterCreation(t, env, input, kept)) <==> UpcAllows(t, input.template.upc, 1)
  {
    RootAndImagesUnique(t, env, input, kept);
    InsertProductUniqueIff(WithRootAndImages(t, env, input, kept), NewProduct(t, env, input, kept));
  }

  /** The database lets a product be created exactly when its options are well keyed and it has no
      UPC, or makes no product, or makes a single one whose UPC no product row, live or archived, has. */
  lemma AfterCreationUniqueIff(t: Tables, env: Environment, input: CreationInput, kept: seq<ImageInput>)
    requires References(t) && UniqueKeys(t)
    ensures UniqueKeys(AfterCreation(t, env, input, kept)) <==>
      OptionsWellKeyed(input.options) && UpcAllows(t, input.template.upc, Combinations(InputSizes(input.options)))
  {
    if input.options == [] {
      PlainCreationUniqueIff(t, env, input, kept);
    } else {
      OptionsCreationUniqueIff(t, env, input, kept);
    }
  }

  // ----- updates -----

  /** Another option row of the root, live or archived, has the name. */
  ghost predicate NameUsedElsewhere(t: Tables, o: nat, r: nat, name: string) {
    exists i :: 0 <= i < |t.options| && i != o && t.options[i].rootID == r && t.options[i].name == name
  }

  ghost predicate TextUsedElsewhere(t: Tables, v: nat, o: nat, text: string) {
    exists i :: 0 <= i < |t.values| && i != v && t.values[i].optionID == o && t.values[i].value == text
  }

  ghost predicate ClashesElsewhere(t: Tables, p: nat, row: Product) {
    exists i :: 0 <= i < |t.products| && i != p && ProductsClash(t.products[i], row)
  }

  lemma OptionPatchedUniqueIff(t: Tables, o: nat, patch: OptionPatch)
    requires UniqueKeys(t) && LiveOption(t, o) && OptionPatchAccepted(t, o, patch)
    ensures UniqueKeys(OptionPatched(t, o, patch)) <==>
      !NameUsedElsewhere(t, o, Or(patch.rootID, t.options[o].rootID), OrText(patch.name, t.options[o].name))
  {
    var rows := OptionPatched(t, o, patch).options;
    if OptionKeys(rows) {
      forall i | 0 <= i < |rows| && i != o
        ensures !(t.options[i].rootID == rows[o].rootID && t.options[i].name == rows[o].name)
      {
        assert rows[i] == t.options[i];
        assert if i < o then !OptionsClash(rows[i], rows[o]) else !OptionsClash(rows[o], rows[i]);
      }
    }
  }

  lemma ValuePatchedUniqueIff(t: Tables, v: nat, text: string)
    requires UniqueKeys(t) && LiveValue(t, v)
    ensures UniqueKeys(ValuePatched(t, v, text)) <==> !TextUsedElsewhere(t, v, t.values[v].optionID, text)
  {
    var rows := ValuePatched(t, v, text).values;
    if ValueKeys(rows) {
      forall i | 0 <= i < |rows| && i != v
        ensures !(t.values[i].optionID == rows[v].optionID && t.values[i].value == text)
      {
        assert rows[i] == t.values[i];
        assert if i < v then !ValuesClash(rows[i], rows[v]) else !ValuesClash(rows[v], rows[i]);
      }
    }
  }

  /** The row that a product update writes. */
  function PatchedRow(t: Tables, p: nat, patch: ProductPatch): Product
    requires p < |t.products| && PatchTarget(p, patch) < |t.products|
  {
    Merged(t.products[p], patch).(archivedOn := t.products[PatchTarget(p, patch)].archivedOn)
  }

  lemma ProductPatchedUniqueIff(t: Tables, p: nat, patch: ProductPatch)
    requires UniqueKeys(t) && PatchAccepted(t, p, patch)
    ensures UniqueKeys(ProductPatched(t, p, patch)) <==>
      !ClashesElsewhere(t, PatchTarget(p, patch), PatchedRow(t, p, patch))
  {
    var id, rows := PatchTarget(p, patch), ProductPatched(t, p, patch).products;
    if ProductKeys(rows) {
      forall i | 0 <= i < |rows| && i != id
        ensures !ProductsClash(t.products[i], rows[id])
      {
        assert rows[i] == t.products[i];
        assert if i < id then !ProductsClash(rows[i], rows[id]) else !ProductsClash(rows[id], rows[i]);
      }
    }
  }

  // ----- deletions -----

  /** No row carries the stamp now yet. */
  ghost predicate FreshStamp(t: Tables, now: Time) {
    && (forall i :: 0 <= i < |t.roots| ==> t.roots[i].archivedOn != Some(now))
    && (forall i :: 0 <= i < |t.products| ==> t.products[i].archivedOn != Some(now))
    && (forall i :: 0 <= i < |t.options| ==> t.options[i].archivedOn != Some(now))
    && (forall i :: 0 <= i < |t.values| ==> t.values[i].archivedOn != Some(now))
  }

  lemma StampsBeforeAreFresh(t: Tables, now: Time)
    requires StampsBefore(t, now)
    ensures FreshStamp(t, now)
  {
  }

  /** Two values of the root's options, archived ones included, read the same. */
  ghost predicate SharedValueText(t: Tables, r: nat) {
    exists i: nat, j: nat :: i < j && ValueOfRoot(t, i, r) && ValueOfRoot(t, j, r)
      && t.values[i].value == t.values[j].value
  }

  ghost predicate SharedSku(t: Tables, r: nat) {
    exists i, j :: 0 <= i < j < |t.products| && t.products[i].rootID == r && t.products[j].rootID == r
      && t.products[i].sku == t.products[j].sku
  }

  lemma RootValuesKeysIff(t: Tables, r: nat, now: Time)
    requires ValueKeys(t.values) && FreshStamp(t, now)
    ensures ValueKeys(ArchiveValuesOfRoot(t, r, now).values) <==> !SharedValueText(t, r)
  {
    var t' := ArchiveValuesOfRoot(t, r, now);
    assert forall i :: 0 <= i < |t.values| ==>
      (ValueOfRoot(t, i, r) <==> t'.values[i].archivedOn == Some(now));
    if SharedValueText(t, r) {
      var i: nat, j: nat :| i < j && ValueOfRoot(t, i, r) && ValueOfRoot(t, j, r)
        && t.values[i].value == t.values[j].value;
      assert ValuesClash(t'.values[i], t'.values[j]);
    }
  }

  lemma RootProductsKeysIff(t: Tables, r: nat, now: Time)
    requires ProductKeys(t.products) && FreshStamp(t, now)
    ensures ProductKeys(ArchiveProductsOfRoot(t, r, now).products) <==> !SharedSku(t, r)
  {
    var t' := ArchiveProductsOfRoot(t, r, now);
    assert forall i :: 0 <= i < |t.products| ==>
      (t.products[i].rootID == r <==> t'.products[i].archivedOn == Some(now));
    if SharedSku(t, r) {
      var i, j :| 0 <= i < j < |t.products| && t.products[i].rootID == r && t.products[j].rootID == r
        && t.products[i].sku == t.products[j].sku;
      assert ProductsClash(t'.products[i], t'.products[j]);
    }
  }

  lemma RootOptionsKeys(t: Tables, r: nat, now: Time)
    requires OptionKeys(t.options) && FreshStamp(t, now)
    ensures OptionKeys(ArchiveOptionsOfRoot(t, r, now).options)
  {
  }

  lemma RootRowKeys(t: Tables, r: nat, now: Time)
    requires RootKeys(t.roots) && FreshStamp(t, now)
    ensures RootKeys(ArchiveRoot(t, r, now).roots)
  {
  }

  /** Of the five archive updates of a root deletion only the one of the values and the one of the
      products can be refused. */
  lemma MaskedUniqueIff(t: Tables, done: set<ArchiveOp>, r: nat, now: Time)
    requires UniqueKeys(t) && FreshStamp(t, now)
    ensures UniqueKeys(Masked(t, done, r, now)) <==>
      (ValuesOp in done ==> !SharedValueText(t, r)) && (ProductsOp in done ==> !SharedSku(t, r))
  {
    RootValuesKeysIff(t, r, now);
    RootProductsKeysIff(t, r, now);
    RootOptionsKeys(t, r, now);
    RootRowKeys(t, r, now);
  }

  /** The database lets a root be deleted exactly when no two values under the root read the same and
      no two of its products have the same SKU: the handler stamps all of them at one instant. */
  lemma RootDeletionUniqueIff(t: Tables, r: nat, now: Time)
    requires UniqueKeys(t) && FreshStamp(t, now)
    ensures UniqueKeys(RootDeleted(t, r, now)) <==> !SharedValueText(t, r) && !SharedSku(t, r)
  {
    RootDeletedIsMasked(t, r, now);
    MaskedUniqueIff(t, AllOps(), r, now);
  }

  /** Deleting one product, one option or one value never runs into the constraints. */
  lemma SmallDeletionsKeepUnique(t: Tables, id: nat, now: Time)
    requires UniqueKeys(t) && FreshStamp(t, now)
    ensures UniqueKeys(ProductDeleted(t, id, now))
    ensures UniqueKeys(ArchiveValuesOfOption(t, id, now)) && UniqueKeys(OptionDeleted(t, id, now))
    ensures UniqueKeys(ArchiveValue(t, id, now))
  {
  }

  // ----- what the schema refuses -----

  /** Which two rows each table refuses: roots of one prefix and products of one SKU that were archived at
      one instant, products of one UPC, options of one name and values of one text under one parent or
      archived at one instant. */
  lemma TwoRowsRefusedIff(a: Root, b: Root, p: Product, q: Product,
                          o: OptionRow, n: OptionRow, v: ValueRow, w: ValueRow)
    ensures RootKeys([a, b]) <==> !(a.skuPrefix == b.skuPrefix && a.archivedOn.Some? && a.archivedOn == b.archivedOn)
    ensures ProductKeys([p, q]) <==>
      && !(p.sku == q.sku && p.archivedOn.Some? && p.archivedOn == q.archivedOn)
      && !(p.upc == q.upc && p.upc != "")
    ensures OptionKeys([o, n]) <==>
      && !(o.name == n.name && o.rootID == n.rootID)
      && !(o.name == n.name && o.archivedOn.Some? && o.archivedOn == n.archivedOn)
    ensures ValueKeys([v, w]) <==>
      && !(v.value == w.value && v.optionID == w.optionID)
      && !(v.value == w.value && v.archivedOn.Some? && v.archivedOn == w.archivedOn)
  {
    assert RootKeys([a, b]) ==> !RootsClash([a, b][0], [a, b][1]);
    assert ProductKeys([p, q]) ==> !ProductsClash([p, q][0], [p, q][1]);
    assert OptionKeys([o, n]) ==> !OptionsClash([o, n][0], [o, n][1]);
    assert ValueKeys([v, w]) ==> !ValuesClash([v, w][0], [v, w][1]);
  }

  // ----- requests that run into the constraints -----

  /** A deleted option keeps its name: the existence check no longer sees it, the constraint does. */
  lemma DeletedNameStaysUsed(t: Tables, o: nat, now: Time)
    requires UniqueKeys(t) && LiveOption(t, o)
    ensures var t', row := OptionDeleted(t, o, now), t.options[o];
      !OptionNameTaken(t', row.rootID, row.name) && OptionNameUsed(t', row.rootID, row.name)
  {
    var t', row := OptionDeleted(t, o, now), t.options[o];
    assert t'.options[o].rootID == row.rootID && t'.options[o].name == row.name;
    forall i | 0 <= i < |t.options| && i != o
      ensures !(t.options[i].rootID == row.rootID && t.options[i].name == row.name)
    {
      assert if i < o then !OptionsClash(t.options[i], row) else !OptionsClash(row, t.options[i]);
    }
  }

  /** A deleted root gives its prefix free. */
  lemma DeletedPrefixIsFree(t: Tables, r: nat, now: Time)
    requires PrefixesDistinct(t) && LiveRoot(t, r)
    ensures PrefixTaken(t, t.roots[r].skuPrefix)
    ensures !PrefixTaken(RootDeleted(t, r, now), t.roots[r].skuPrefix)
  {
    CascadeIsExact(t, r, now);
  }

  /** A deleted value keeps its text. */
  lemma DeletedTextStaysUsed(t: Tables, v: nat, now: Time)
    requires UniqueKeys(t) && LiveValue(t, v)
    ensures var t', row := ArchiveValue(t, v, now), t.values[v];
      !ValueTaken(t', row.optionID, row.value) && ValueTextUsed(t', row.optionID, row.value)
  {
    var t', row := ArchiveValue(t, v, now), t.values[v];
    assert t'.values[v].optionID == row.optionID && t'.values[v].value == row.value;
    forall i | 0 <= i < |t.values| && i != v
      ensures !(t.values[i].optionID == row.optionID && t.values[i].value == row.value)
    {
      assert if i < v then !ValuesClash(t.values[i], row) else !ValuesClash(row, t.values[i]);
    }
  }

  lemma StoredUnderRoot(t: Tables, id: nat, o: nat, value: string, r: nat)
    requires StoredValue(t, id, o, value) && o < |t.options| && t.options[o].rootID == r
    ensures ValueOfRoot(t, id, r)
  {
  }

  lemma NewValueOfRoot(t: Tables, env: Environment, input: CreationInput, kept: seq<ImageInput>, j: nat, d: nat)
    requires j < |input.options| && d < |input.options[j].values|
    ensures ValueOfRoot(AfterCreation(t, env, input, kept), NewOptions(t, env, input, kept)[j].values[d].id, |t.roots|)
  {
    NewValueRow(t, env, input, kept, j, d);
    OptionColumns(t, env, input, kept, j);
    StoredUnderRoot(AfterCreation(t, env, input, kept), NewOptions(t, env, input, kept)[j].values[d].id,
                    |t.options| + j, input.options[j].values[d], |t.roots|);
  }

  lemma ReadTheSame(t: Tables, u: nat, v: nat, r: nat)
    requires ValueOfRoot(t, u, r) && ValueOfRoot(t, v, r) && u != v && t.values[u].value == t.values[v].value
    ensures SharedValueText(t, r)
  {
  }

  /** When two requested options share a value text, the created root has two values that read the same. */
  lemma CreatedSharedText(t: Tables, env: Environment, input: CreationInput, kept: seq<ImageInput>,
                          i: nat, a: nat, j: nat, b: nat)
    requires i < j < |input.options| && a < |input.options[i].values| && b < |input.options[j].values|
    requires input.options[i].values[a] == input.options[j].values[b]
    ensures SharedValueText(AfterCreation(t, env, input, kept), |t.roots|)
  {
    var created := NewOptions(t, env, input, kept);
    NewValueOfRoot(t, env, input, kept, i, a);
    NewValueOfRoot(t, env, input, kept, j, b);
    NewValueRow(t, env, input, kept, i, a);
    NewValueRow(t, env, input, kept, j, b);
    ReadTheSame(AfterCreation(t, env, input, kept), created[i].values[a].id, created[j].values[b].id, |t.roots|);
  }

  lemma NewRootIsLive(t: Tables, env: Environment, input: CreationInput, kept: seq<ImageInput>)
    requires input.options != []
    ensures LiveRoot(AfterCreation(t, env, input, kept), |t.roots|)
  {
    RootsThroughOptions(WithRootAndImages(t, env, input, kept), |t.roots|, input.options,
                        NewVariants(t, env, input, kept));
  }

  /** So the database refuses to delete that root in the state right after its creation. */
  lemma CreatedRootRefused(t: Tables, env: Environment, input: CreationInput, kept: seq<ImageInput>,
                           i: nat, a: nat, j: nat, b: nat, now: Time)
    requires i < j < |input.options| && a < |input.options[i].values| && b < |input.options[j].values|
    requires input.options[i].values[a] == input.options[j].values[b]
    requires UniqueKeys(AfterCreation(t, env, input, kept)) && FreshStamp(AfterCreation(t, env, input, kept), now)
    ensures LiveRoot(AfterCreation(t, env, input, kept), |t.roots|)
    ensures !UniqueKeys(RootDeleted(AfterCreation(t, env, input, kept), |t.roots|, now))
  {
    NewRootIsLive(t, env, input, kept);
    CreatedSharedText(t, env, input, kept, i, a, j, b);
    RootDeletionUniqueIff(AfterCreation(t, env, input, kept), |t.roots|, now);
  }

  /** The requests that the creation handler accepts and the database as well. */
  lemma CreationEffect(t: Tables, env: Environment, input: CreationInput, now: Time)
    requires References(t) && UniqueKeys(t)
    requires RestrictedStringIsValid(input.template.sku) && !PrefixTaken(t, input.template.sku)
    requires OptionsWellKeyed(input.options)
    requires UpcAllows(t, input.template.upc, Combinations(InputSizes(input.options)))
    ensures UniqueKeys(AfterCreation(t, env, input, Kept(input.images)))
    ensures Effect(t, Request.CreateProduct(env, input), now, AfterCreation(t, env, input, Kept(input.images)))
  {
    AfterCreationUniqueIff(t, env, input, Kept(input.images));
  }

  lemma EmptyIsFine()
    ensures Consistent(Empty()) && UniqueKeys(Empty()) && forall prefix :: !PrefixTaken(Empty(), prefix)
  {
  }

  function SmallAndLarge(): CreationInput {
    CreationInput(Template("shirt", "shirt", "1234567890", 1), [], [OptionInput("size", ["small", "large"])])
  }

  lemma SmallAndLargeMakeTwo()
    ensures Combinations(InputSizes(SmallAndLarge().options)) == 2
  {
  }

  /** Two variants cannot share the UPC of the request. */
  lemma UpcBlocksVariants(env: Environment)
    ensures !UniqueKeys(AfterCreation(Empty(), env, SmallAndLarge(), Kept([])))
  {
    AfterCreationUniqueIff(Empty(), env, SmallAndLarge(), Kept([]));
    SmallAndLargeMakeTwo();
  }
}
