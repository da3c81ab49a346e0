/** The effect of each catalogue handler on the committed tables, and what every sequential run of
    handlers keeps. */
module Lifecycle {
  import opened Wrappers
  import opened Variants
  import opened ProductImages
  import opened Catalogue
  import opened Creation

  // ----- deleting a product root -----

  datatype ArchiveOp = BridgesOp | ValuesOp | OptionsOp | ProductsOp | RootOp

  function Apply(t: Tables, op: ArchiveOp, r: nat, now: Time): Tables {
    match op
    case BridgesOp => ArchiveBridgesOfRoot(t, r, now)
    case ValuesOp => ArchiveValuesOfRoot(t, r, now)
    case OptionsOp => ArchiveOptionsOfRoot(t, r, now)
    case ProductsOp => ArchiveProductsOfRoot(t, r, now)
    case RootOp => ArchiveRoot(t, r, now)
  }

  function ApplyAll(t: Tables, ops: seq<ArchiveOp>, r: nat, now: Time): Tables {
    if ops == [] then t
    else Apply(ApplyAll(t, ops[..|ops| - 1], r, now), ops[|ops| - 1], r, now)
  }

  /** The five updates of the root deletion handler, in its order. */
  function RootDeleted(t: Tables, r: nat, now: Time): Tables {
    ArchiveRoot(ArchiveProductsOfRoot(ArchiveOptionsOfRoot(
      ArchiveValuesOfRoot(ArchiveBridgesOfRoot(t, r, now), r, now), r, now), r, now), r, now)
  }

  predicate ValueOfRoot(t: Tables, i: nat, r: nat) {
    i < |t.values| && t.values[i].optionID < |t.options| && t.options[t.values[i].optionID].rootID == r
  }

  predicate BridgeOfRoot(t: Tables, i: nat, r: nat) {
    i < |t.bridges| && t.bridges[i].productID < |t.products| && t.products[t.bridges[i].productID].rootID == r
  }

  /** t with exactly the tables in done archived for root r, judged by t's own key columns. */
  function Masked(t: Tables, done: set<ArchiveOp>, r: nat, now: Time): Tables {
    Tables(
      if RootOp in done then ArchiveRoot(t, r, now).roots else t.roots,
      if ProductsOp in done then ArchiveProductsOfRoot(t, r, now).products else t.products,
      if OptionsOp in done then ArchiveOptionsOfRoot(t, r, now).options else t.options,
      if ValuesOp in done then ArchiveValuesOfRoot(t, r, now).values else t.values,
      if BridgesOp in done then ArchiveBridgesOfRoot(t, r, now).bridges else t.bridges,
      t.images)
  }

  /** No update changes what another one selects. */
  lemma ApplyMasked(t: Tables, done: set<ArchiveOp>, op: ArchiveOp, r: nat, now: Time)
    ensures Apply(Masked(t, done, r, now), op, r, now) == Masked(t, done + {op}, r, now)
  {
    var m := Masked(t, done, r, now);
    match op
    case BridgesOp => assert ArchiveBridgesOfRoot(m, r, now).bridges == ArchiveBridgesOfRoot(t, r, now).bridges;
    case ValuesOp => assert ArchiveValuesOfRoot(m, r, now).values == ArchiveValuesOfRoot(t, r, now).values;
    case OptionsOp => assert ArchiveOptionsOfRoot(m, r, now).options == ArchiveOptionsOfRoot(t, r, now).options;
    case ProductsOp => assert ArchiveProductsOfRoot(m, r, now).products == ArchiveProductsOfRoot(t, r, now).products;
    case RootOp => assert ArchiveRoot(m, r, now).roots == ArchiveRoot(t, r, now).roots;
  }

  function Ops(ops: seq<ArchiveOp>): set<ArchiveOp> {
    set op | op in ops
  }

  lemma {:induction false} ApplyAllMasked(t: Tables, ops: seq<ArchiveOp>, r: nat, now: Time)
    ensures ApplyAll(t, ops, r, now) == Masked(t, Ops(ops), r, now)
  {
    if ops == [] {
      assert Ops(ops) == {};
    } else {
      var n := |ops| - 1;
      ApplyAllMasked(t, ops[..n], r, now);
      ApplyMasked(t, Ops(ops[..n]), ops[n], r, now);
      assert Ops(ops) == Ops(ops[..n]) + {ops[n]};
    }
  }

  /** The five archive updates give the same tables in every order, and repeating one changes nothing. */
  lemma ArchiveOrderIrrelevant(t: Tables, ops: seq<ArchiveOp>, r: nat, now: Time)
    requires forall op: ArchiveOp :: op in ops
    ensures ApplyAll(t, ops, r, now) == RootDeleted(t, r, now)
  {
    ApplyAllMasked(t, ops, r, now);
    RootDeletedIsMasked(t, r, now);
    forall op: ArchiveOp
      ensures op in AllOps()
    {
      AllOpsComplete(op);
    }
    assert Ops(ops) == AllOps();
  }

  function AllOps(): set<ArchiveOp> {
    {BridgesOp, ValuesOp, OptionsOp, ProductsOp, RootOp}
  }

  lemma AllOpsComplete(op: ArchiveOp)
    ensures op in AllOps()
  {
  }

  lemma RootDeletedIsMasked(t: Tables, r: nat, now: Time)
    ensures RootDeleted(t, r, now) == Masked(t, AllOps(), r, now)
  {
  }

  /** Same rows up to archived_on. */
  ghost predicate SameKeys(t: Tables, t': Tables) {
    && |t.roots| == |t'.roots| && |t.products| == |t'.products| && |t.options| == |t'.options|
    && |t.values| == |t'.values| && |t.bridges| == |t'.bridges| && t.images == t'.images
    && (forall i :: 0 <= i < |t.roots| ==> t'.roots[i] == t.roots[i].(archivedOn := t'.roots[i].archivedOn))
    && (forall i :: 0 <= i < |t.products| ==> t'.products[i] == t.products[i].(archivedOn := t'.products[i].archivedOn))
    && (forall i :: 0 <= i < |t.options| ==> t'.options[i] == t.options[i].(archivedOn := t'.options[i].archivedOn))
    && (forall i :: 0 <= i < |t.values| ==> t'.values[i] == t.values[i].(archivedOn := t'.values[i].archivedOn))
    && (forall i :: 0 <= i < |t.bridges| ==> t'.bridges[i] == t.bridges[i].(archivedOn := t'.bridges[i].archivedOn))
  }

  /** From t to t' ends the life of exactly the root, its products, its options, the values of those
      options and the bridges of those products, and nothing changes but archive stamps. */
  ghost predicate Cascaded(t: Tables, r: nat, t': Tables) {
    && SameKeys(t, t')
    && (forall i: nat :: LiveRoot(t', i) <==> LiveRoot(t, i) && i != r)
    && (forall i: nat :: LiveProduct(t', i) <==> LiveProduct(t, i) && t.products[i].rootID != r)
    && (forall i: nat :: LiveOption(t', i) <==> LiveOption(t, i) && t.options[i].rootID != r)
    && (forall i: nat :: LiveValue(t', i) <==> LiveValue(t, i) && !ValueOfRoot(t, i, r))
    && (forall i: nat :: LiveBridge(t', i) <==> LiveBridge(t, i) && !BridgeOfRoot(t, i, r))
  }

  /** Root deletion does that. */
  lemma CascadeIsExact(t: Tables, r: nat, now: Time)
    ensures Cascaded(t, r, RootDeleted(t, r, now))
  {
  }

  /** It stamps with now the root, every product and value of it, archived ones included, every bridge of
      its products, and its options that are live. */
  lemma CascadeStampsExact(t: Tables, r: nat, now: Time)
    ensures var roots := RootDeleted(t, r, now).roots;
      forall i :: 0 <= i < |t.roots| ==>
        roots[i] == if i == r then t.roots[i].(archivedOn := Some(now)) else t.roots[i]
    ensures var products := RootDeleted(t, r, now).products;
      forall i :: 0 <= i < |t.products| ==>
        products[i] == if t.products[i].rootID == r then t.products[i].(archivedOn := Some(now)) else t.products[i]
    ensures var options := RootDeleted(t, r, now).options;
      forall i :: 0 <= i < |t.options| ==>
        options[i] == if t.options[i].rootID == r && t.options[i].archivedOn.None?
                      then t.options[i].(archivedOn := Some(now)) else t.options[i]
    ensures var values := RootDeleted(t, r, now).values;
      forall i :: 0 <= i < |t.values| ==>
        values[i] == if t.values[i].optionID < |t.options| && t.options[t.values[i].optionID].rootID == r
                     then t.values[i].(archivedOn := Some(now)) else t.values[i]
    ensures var bridges := RootDeleted(t, r, now).bridges;
      forall i :: 0 <= i < |t.bridges| ==>
        bridges[i] == if t.bridges[i].productID < |t.products| && t.products[t.bridges[i].productID].rootID == r
                      then t.bridges[i].(archivedOn := Some(now)) else t.bridges[i]
  {
  }

  lemma CascadedIsConsistent(t: Tables, r: nat, t': Tables)
    requires Consistent(t) && Cascaded(t, r, t')
    ensures Consistent(t')
  {
    SameKeysReferences(t, t');
  }

  /** The foreign keys do not look at the archive stamps. */
  lemma SameKeysReferences(t: Tables, t': Tables)
    requires References(t) && SameKeys(t, t')
    ensures References(t')
  {
  }

  lemma RootDeletionKeeps(t: Tables, r: nat, now: Time)
    requires Consistent(t)
    ensures Consistent(RootDeleted(t, r, now))
  {
    CascadeIsExact(t, r, now);
    CascadedIsConsistent(t, r, RootDeleted(t, r, now));
  }

  // ----- the other deletions -----

  function ProductDeleted(t: Tables, p: nat, now: Time): Tables {
    ArchiveProduct(ArchiveBridgesOfProduct(t, p, now), p, now)
  }

  function OptionDeleted(t: Tables, o: nat, now: Time): Tables {
    ArchiveOption(ArchiveValuesOfOption(t, o, now), o, now)
  }

  /** Deleting a product ends the life of exactly the product and its bridges; deleting an option, of
      exactly the option and its values, and no bridge. */
  lemma SmallDeletionsAreExact(t: Tables, id: nat, now: Time)
    ensures var p := ProductDeleted(t, id, now);
      && SameKeys(t, p) && p.roots == t.roots && p.options == t.options && p.values == t.values
      && (forall i: nat :: LiveProduct(p, i) <==> LiveProduct(t, i) && i != id)
      && (forall i: nat :: LiveBridge(p, i) <==> LiveBridge(t, i) && t.bridges[i].productID != id)
    ensures var o := OptionDeleted(t, id, now);
      && SameKeys(t, o) && o.roots == t.roots && o.products == t.products && o.bridges == t.bridges
      && (forall i: nat :: LiveOption(o, i) <==> LiveOption(t, i) && i != id)
      && (forall i: nat :: LiveValue(o, i) <==> LiveValue(t, i) && t.values[i].optionID != id)
  {
  }

  /** The stamps that these two deletions write. */
  lemma SmallDeletionStampsExact(t: Tables, id: nat, now: Time)
    ensures var p := ProductDeleted(t, id, now);
      && (forall i :: 0 <= i < |t.products| ==>
            p.products[i] == if i == id then t.products[i].(archivedOn := Some(now)) else t.products[i])
      && (forall i :: 0 <= i < |t.bridges| ==>
            p.bridges[i] == if t.bridges[i].productID == id && t.bridges[i].archivedOn.None?
                            then t.bridges[i].(archivedOn := Some(now)) else t.bridges[i])
    ensures var o := OptionDeleted(t, id, now);
      && (forall i :: 0 <= i < |t.options| ==>
            o.options[i] == if i == id then t.options[i].(archivedOn := Some(now)) else t.options[i])
      && (forall i :: 0 <= i < |t.values| ==>
            o.values[i] == if t.values[i].optionID == id
                           then t.values[i].(archivedOn := Some(now)) else t.values[i])
  {
  }

  lemma ProductDeletionKeeps(t: Tables, p: nat, now: Time)
    requires Consistent(t)
    ensures Consistent(ProductDeleted(t, p, now))
  {
  }

  lemma OptionDeletionKeeps(t: Tables, o: nat, now: Time)
    requires Consistent(t)
    ensures Consistent(OptionDeleted(t, o, now))
  {
  }

  lemma ValueDeletionKeeps(t: Tables, v: nat, now: Time)
    requires Consistent(t)
    ensures Consistent(ArchiveValue(t, v, now))
  {
  }

  // ----- updates -----

  /** The body of a product update; None and the empty or zero value mean not given. */
  datatype ProductPatch = ProductPatch(id: Option<nat>, rootID: Option<nat>, primaryImageID: Option<nat>,
                                       name: string, sku: string, upc: string, optionSummary: string,
                                       quantityPerPackage: nat)

  datatype OptionPatch = OptionPatch(name: string, rootID: Option<nat>)

  function Or<T>(given: Option<T>, existing: T): T {
    match given case Some(x) => x case None => existing
  }

  function OrText(given: string, existing: string): string {
    if given == "" then existing else given
  }

  /** The row that the update statement addresses: a body may carry an id of its own. */
  function PatchTarget(p: nat, patch: ProductPatch): nat {
    Or(patch.id, p)
  }

  /** mergo.Merge(update, existing): what the body leaves unset comes from the existing product. */
  function Merged(existing: Product, patch: ProductPatch): Product {
    Product(Or(patch.rootID, existing.rootID),
            if patch.primaryImageID.Some? then patch.primaryImageID else existing.primaryImageID,
            OrText(patch.name, existing.name), OrText(patch.sku, existing.sku), OrText(patch.upc, existing.upc),
            OrText(patch.optionSummary, existing.optionSummary),
            if patch.quantityPerPackage == 0 then existing.quantityPerPackage else patch.quantityPerPackage,
            existing.archivedOn)
  }

  /** The row exists and the foreign keys of the update point at rows. */
  predicate PatchAccepted(t: Tables, p: nat, patch: ProductPatch) {
    && p < |t.products|
    && PatchTarget(p, patch) < |t.products|
    && var m := Merged(t.products[p], patch);
    && RestrictedStringIsValid(m.sku)
    && m.rootID < |t.roots|
    && (m.primaryImageID.Some? ==> m.primaryImageID.value < |t.images|)
  }

  /** The update statement overwrites every column but archived_on. */
  function ProductPatched(t: Tables, p: nat, patch: ProductPatch): Tables
    requires PatchAccepted(t, p, patch)
  {
    var id := PatchTarget(p, patch);
    t.(products := t.products[id := Merged(t.products[p], patch).(archivedOn := t.products[id].archivedOn)])
  }

  predicate OptionPatchAccepted(t: Tables, o: nat, patch: OptionPatch) {
    o < |t.options| && Or(patch.rootID, t.options[o].rootID) < |t.roots|
  }

  function OptionPatched(t: Tables, o: nat, patch: OptionPatch): Tables
    requires OptionPatchAccepted(t, o, patch)
  {
    var row := t.options[o];
    t.(options := t.options[o := OptionRow(Or(patch.rootID, row.rootID), OrText(patch.name, row.name), row.archivedOn)])
  }

  /** A product update keeps the tables consistent exactly when the body names no root or a live
      one, or the row it addresses is archived. */
  lemma ProductPatchKeepsIff(t: Tables, p: nat, patch: ProductPatch)
    requires Consistent(t) && LiveProduct(t, p) && PatchAccepted(t, p, patch)
    ensures Consistent(ProductPatched(t, p, patch)) <==>
      || patch.rootID.None?
      || LiveRoot(t, patch.rootID.value)
      || !LiveProduct(t, PatchTarget(p, patch))
  {
    var t', id := ProductPatched(t, p, patch), PatchTarget(p, patch);
    assert forall i: nat :: LiveProduct(t', i) == LiveProduct(t, i);
    assert References(t') && PrefixesDistinct(t');
    if LiveProduct(t', id) && !LiveRoot(t', t'.products[id].rootID) {
      assert !Liveness(t');
    } else {
      assert Liveness(t');
    }
  }

  lemma OptionPatchKeepsIff(t: Tables, o: nat, patch: OptionPatch)
    requires Consistent(t) && LiveOption(t, o) && OptionPatchAccepted(t, o, patch)
    ensures Consistent(OptionPatched(t, o, patch)) <==> patch.rootID.None? || LiveRoot(t, patch.rootID.value)
  {
    var t' := OptionPatched(t, o, patch);
    assert forall i: nat :: LiveOption(t', i) == LiveOption(t, i);
    assert References(t') && PrefixesDistinct(t');
    if !LiveRoot(t', t'.options[o].rootID) {
      assert LiveOption(t', o);
      assert !Liveness(t');
    } else {
      assert Liveness(t');
    }
  }

  /** An update body that names an archived root leaves a live product under it. */
  lemma PatchCanOrphanProduct() returns (t: Tables, patch: ProductPatch)
    ensures Consistent(t) && LiveProduct(t, 0) && PatchAccepted(t, 0, patch)
    ensures !Consistent(ProductPatched(t, 0, patch))
  {
    t := Tables([Root("a", "a", 1, None), Root("b", "b", 1, Some(0))],
                [Product(0, None, "a", "a", "", "", 1, None)], [], [], [], []);
    patch := ProductPatch(None, Some(1), None, "", "", "", "", 0);
    assert LiveRoot(t, 0) && !LiveRoot(t, 1);
    ProductPatchKeepsIff(t, 0, patch);
  }

  // ----- creations -----

  /** Consistent tables in which root r is live. */
  ghost predicate ConsistentUnder(t: Tables, r: nat) {
    Consistent(t) && LiveRoot(t, r)
  }

  lemma AddOptionKeeps(t: Tables, r: nat, o: OptionInput)
    requires References(t) && r < |t.roots|
    ensures References(AddOption(t, r, o)) && AddOption(t, r, o).roots == t.roots
    ensures ConsistentUnder(t, r) ==> ConsistentUnder(AddOption(t, r, o), r)
  {
  }

  lemma {:induction false} AddOptionsKeep(t: Tables, r: nat, os: seq<OptionInput>)
    requires References(t) && r < |t.roots|
    ensures References(AddOptions(t, r, os)) && AddOptions(t, r, os).roots == t.roots
    ensures ConsistentUnder(t, r) ==> ConsistentUnder(AddOptions(t, r, os), r)
  {
    if os != [] {
      var n := |os| - 1;
      AddOptionsKeep(t, r, os[..n]);
      AddOptionKeeps(AddOptions(t, r, os[..n]), r, os[n]);
    }
  }

  lemma AddVariantKeeps(t: Tables, r: nat, v: Variant)
    requires References(t) && r < |t.roots|
    requires forall i :: 0 <= i < |v.values| ==> v.values[i].id < |t.values|
    ensures References(AddVariant(t, r, v)) && AddVariant(t, r, v).roots == t.roots
    ensures ConsistentUnder(t, r) ==> ConsistentUnder(AddVariant(t, r, v), r)
    ensures AddVariant(t, r, v).values == t.values
  {
  }

  /** Every value the variants carry has an id below n. */
  ghost predicate ValuesBelow(vs: seq<Variant>, n: nat) {
    forall k, i :: 0 <= k < |vs| && 0 <= i < |vs[k].values| ==> vs[k].values[i].id < n
  }

  lemma {:induction false} AddVariantsKeep(t: Tables, r: nat, vs: seq<Variant>)
    requires References(t) && r < |t.roots|
    requires ValuesBelow(vs, |t.values|)
    ensures References(AddVariants(t, r, vs)) && AddVariants(t, r, vs).roots == t.roots
    ensures ConsistentUnder(t, r) ==> ConsistentUnder(AddVariants(t, r, vs), r)
    ensures AddVariants(t, r, vs).values == t.values
  {
    if vs != [] {
      var n := |vs| - 1;
      AddVariantsKeep(t, r, vs[..n]);
      AddVariantKeeps(AddVariants(t, r, vs[..n]), r, vs[n]);
    }
  }

  lemma WithRootAndImagesKeeps(t: Tables, env: Environment, input: CreationInput, kept: seq<ImageInput>)
    requires References(t)
    ensures References(WithRootAndImages(t, env, input, kept))
    ensures |t.roots| < |WithRootAndImages(t, env, input, kept).roots|
    ensures Consistent(t) && !PrefixTaken(t, input.template.sku) ==>
      ConsistentUnder(WithRootAndImages(t, env, input, kept), |t.roots|)
  {
  }

  /** The values a variant carries are stored. */
  lemma VariantValuesStored(t: Tables, r: nat, os: seq<OptionInput>, tp: Template, lower: string -> string)
    ensures ValuesBelow(AllVariants(tp, lower, CreatedOptions(t, r, os)), |AddOptions(t, r, os).values|)
  {
    var created := CreatedOptions(t, r, os);
    var vs := AllVariants(tp, lower, created);
    forall k, i | 0 <= k < |vs| && 0 <= i < |vs[k].values|
      ensures vs[k].values[i].id < |AddOptions(t, r, os).values|
    {
      ValueStored(t, r, os, tp, lower, k, i);
    }
  }

  lemma ValueStored(t: Tables, r: nat, os: seq<OptionInput>, tp: Template, lower: string -> string, k: nat, i: nat)
    requires k < |AllVariants(tp, lower, CreatedOptions(t, r, os))|
    requires i < |AllVariants(tp, lower, CreatedOptions(t, r, os))[k].values|
    ensures AllVariants(tp, lower, CreatedOptions(t, r, os))[k].values[i].id < |AddOptions(t, r, os).values|
  {
    var created := CreatedOptions(t, r, os);
    var d := MixedRadix.Digits(Sizes(created), k);
    assert AllVariants(tp, lower, created)[k].values == Chosen(created, d);
    CreatedValuesStored(t, r, os, i, d[i]);
  }

  lemma PlainCreationKeeps(t: Tables, env: Environment, input: CreationInput, kept: seq<ImageInput>)
    requires References(t) && input.options == []
    ensures References(AfterCreation(t, env, input, kept))
    ensures Consistent(t) && !PrefixTaken(t, input.template.sku) ==> Consistent(AfterCreation(t, env, input, kept))
  {
    WithRootAndImagesKeeps(t, env, input, kept);
  }

  lemma OptionsAndVariantsKeep(t: Tables, r: nat, os: seq<OptionInput>, tp: Template, lower: string -> string)
    requires References(t) && r < |t.roots|
    ensures var t' := AddVariants(AddOptions(t, r, os), r, AllVariants(tp, lower, CreatedOptions(t, r, os)));
      References(t') && (ConsistentUnder(t, r) ==> Consistent(t'))
  {
    VariantValuesStored(t, r, os, tp, lower);
    VariantsKeepAfterOptions(t, r, os, AllVariants(tp, lower, CreatedOptions(t, r, os)));
  }

  lemma VariantsKeepAfterOptions(t: Tables, r: nat, os: seq<OptionInput>, vs: seq<Variant>)
    requires References(t) && r < |t.roots| && ValuesBelow(vs, |AddOptions(t, r, os).values|)
    ensures var t' := AddVariants(AddOptions(t, r, os), r, vs);
      References(t') && (ConsistentUnder(t, r) ==> Consistent(t'))
  {
    AddOptionsKeep(t, r, os);
    AddVariantsKeep(AddOptions(t, r, os), r, vs);
  }

  lemma OptionsCreationKeeps(t: Tables, env: Environment, input: CreationInput, kept: seq<ImageInput>)
    requires References(t) && input.options != []
    ensures References(AfterCreation(t, env, input, kept))
    ensures Consistent(t) && !PrefixTaken(t, input.template.sku) ==> Consistent(AfterCreation(t, env, input, kept))
  {
    WithRootAndImagesKeeps(t, env, input, kept);
    OptionsAndVariantsKeep(WithRootAndImages(t, env, input, kept), |t.roots|, input.options, input.template, env.lower);
  }

  lemma CreationKeeps(t: Tables, env: Environment, input: CreationInput, kept: seq<ImageInput>)
    requires References(t)
    ensures References(AfterCreation(t, env, input, kept))
    ensures Consistent(t) && !PrefixTaken(t, input.template.sku) ==> Consistent(AfterCreation(t, env, input, kept))
  {
    if input.options == [] {
      PlainCreationKeeps(t, env, input, kept);
    } else {
      OptionsCreationKeeps(t, env, input, kept);
    }
  }

  // ----- runs -----

  datatype Request =
    | CreateProduct(env: Environment, input: CreationInput)
    | DeleteProduct(sku: string)
    | PatchProduct(sku: string, productPatch: ProductPatch)
    | DeleteRoot(rootID: nat)
    | CreateOption(ofRoot: nat, option: OptionInput)
    | PatchOption(optionID: nat, optionPatch: OptionPatch)
    | DeleteOption(optionID: nat)
    | CreateValue(ofOption: nat, value: string)
    | PatchValue(valueID: nat, value: string)
    | DeleteValue(valueID: nat)

  function ValuePatched(t: Tables, v: nat, value: string): Tables
    requires v < |t.values|
  {
    t.(values := t.values[v := t.values[v].(value := value)])
  }

  /** What one handler may do to the committed tables: nothing, or all of its work if the UNIQUE
      constraints allow it. */
  ghost predicate Effect(t: Tables, q: Request, now: Time, t': Tables) {
    t' == t || (UniqueKeys(t') && Work(t, q, now, t'))
  }

  ghost predicate Work(t: Tables, q: Request, now: Time, t': Tables) {
    match q
    case CreateProduct(env, input) =>
      && RestrictedStringIsValid(input.template.sku)
      && !PrefixTaken(t, input.template.sku)
      && t' == AfterCreation(t, env, input, Kept(input.images))
    case DeleteProduct(sku) =>
      exists p: nat :: LiveSku(t, p, sku) && t' == ProductDeleted(t, p, now)
    case PatchProduct(sku, patch) =>
      exists p: nat :: LiveSku(t, p, sku) && PatchAccepted(t, p, patch)
        && t' == ProductPatched(t, p, patch)
    case DeleteRoot(r) => LiveRoot(t, r) && t' == RootDeleted(t, r, now)
    case CreateOption(r, o) => LiveRoot(t, r) && !OptionNameTaken(t, r, o.name) && t' == AddOption(t, r, o)
    case PatchOption(o, patch) =>
      LiveOption(t, o) && OptionPatchAccepted(t, o, patch) && t' == OptionPatched(t, o, patch)
    case DeleteOption(o) => LiveOption(t, o) && HasValues(t, o) && t' == OptionDeleted(t, o, now)
    case CreateValue(o, v) =>
      LiveOption(t, o) && !ValueTaken(t, o, v) && t' == InsertValue(t, ValueRow(o, v, None))
    case PatchValue(id, v) => LiveValue(t, id) && t' == ValuePatched(t, id, v)
    case DeleteValue(id) => LiveValue(t, id) && t' == ArchiveValue(t, id, now)
  }

  /** The bodies that are let through in the run theorem: a root named by an update is a live one. */
  ghost predicate NamesLiveRoot(t: Tables, q: Request) {
    match q
    case PatchProduct(_, patch) => patch.rootID.Some? ==> LiveRoot(t, patch.rootID.value)
    case PatchOption(_, patch) => patch.rootID.Some? ==> LiveRoot(t, patch.rootID.value)
    case _ => true
  }

  lemma ValueStepsKeep(t: Tables, o: nat, id: nat, value: string)
    ensures Consistent(t) && LiveOption(t, o) ==> Consistent(InsertValue(t, ValueRow(o, value, None)))
    ensures Consistent(t) && LiveValue(t, id) ==> Consistent(ValuePatched(t, id, value))
  {
  }

  lemma StepKeepsConsistent(t: Tables, q: Request, now: Time, t': Tables)
    requires Consistent(t) && UniqueKeys(t) && Effect(t, q, now, t') && NamesLiveRoot(t, q)
    ensures Consistent(t') && UniqueKeys(t')
  {
    if t' != t {
      match q
      case CreateProduct(env, input) => CreationKeeps(t, env, input, Kept(input.images));
      case DeleteProduct(sku) =>
        var p: nat :| LiveSku(t, p, sku) && t' == ProductDeleted(t, p, now);
        ProductDeletionKeeps(t, p, now);
      case PatchProduct(sku, patch) =>
        var p: nat :| LiveSku(t, p, sku) && PatchAccepted(t, p, patch)
          && t' == ProductPatched(t, p, patch);
        ProductPatchKeepsIff(t, p, patch);
      case DeleteRoot(r) => RootDeletionKeeps(t, r, now);
      case CreateOption(r, o) => AddOptionKeeps(t, r, o);
      case PatchOption(o, patch) => OptionPatchKeepsIff(t, o, patch);
      case DeleteOption(o) => OptionDeletionKeeps(t, o, now);
      case CreateValue(o, v) => ValueStepsKeep(t, o, 0, v);
      case PatchValue(id, v) => ValueStepsKeep(t, 0, id, v);
      case DeleteValue(id) => ValueDeletionKeeps(t, id, now);
    }
  }

  /** ts are the committed tables before and after each of the requests qs, served at the times clock. */
  ghost predicate IsRun(ts: seq<Tables>, qs: seq<Request>, clock: seq<Time>) {
    && |ts| == |qs| + 1 && |qs| <= |clock|
    && forall i :: 0 <= i < |qs| ==> Effect(ts[i], qs[i], clock[i], ts[i + 1])
  }

  /** A property that every step keeps holds in every state of a run. */
  lemma {:induction false} KeptAlongRun(ts: seq<Tables>, kept: Tables -> bool, n: nat)
    requires n < |ts| && kept(ts[0])
    requires forall i :: 0 <= i < |ts| - 1 && kept(ts[i]) ==> kept(ts[i + 1])
    ensures kept(ts[n])
  {
    if n > 0 {
      KeptAlongRun(ts, kept, n - 1);
      assert kept(ts[n - 1 + 1]);
    }
  }

  /** In every state of every sequential run from consistent tables (the empty ones, say), as long as
      update bodies name no root or a live one: live products, options and their values and bridges
      hang off live rows, live roots have pairwise distinct SKU prefixes, and the UNIQUE constraints hold. */
  lemma RunsStayConsistent(ts: seq<Tables>, qs: seq<Request>, clock: seq<Time>, n: nat)
    requires IsRun(ts, qs, clock) && n < |ts|
    requires Consistent(ts[0]) && UniqueKeys(ts[0])
    requires forall i :: 0 <= i < |qs| ==> NamesLiveRoot(ts[i], qs[i])
    ensures Consistent(ts[n]) && UniqueKeys(ts[n])
  {
    var kept := (t: Tables) => Consistent(t) && UniqueKeys(t);
    forall i | 0 <= i < |ts| - 1 && kept(ts[i])
      ensures kept(ts[i + 1])
    {
      StepKeepsConsistent(ts[i], qs[i], clock[i], ts[i + 1]);
    }
    KeptAlongRun(ts, kept, n);
  }

  // ----- what holds in every run, whatever the update bodies name -----

  lemma RootDeletionKeepsReferences(t: Tables, r: nat, now: Time)
    requires References(t)
    ensures References(RootDeleted(t, r, now))
  {
    CascadeIsExact(t, r, now);
    SameKeysReferences(t, RootDeleted(t, r, now));
  }

  lemma SmallDeletionsKeepReferences(t: Tables, id: nat, now: Time)
    requires References(t)
    ensures References(ProductDeleted(t, id, now))
    ensures References(OptionDeleted(t, id, now))
    ensures References(ArchiveValue(t, id, now))
  {
    SmallDeletionsAreExact(t, id, now);
    SameKeysReferences(t, ProductDeleted(t, id, now));
    SameKeysReferences(t, OptionDeleted(t, id, now));
  }

  lemma UpdatesKeepReferences(t: Tables, q: Request, now: Time, t': Tables)
    requires References(t) && Work(t, q, now, t')
    requires q.PatchProduct? || q.PatchOption? || q.CreateValue? || q.PatchValue?
    ensures References(t')
  {
    if q.PatchProduct? {
      PatchKeepsReferences(t, q, now, t');
    }
  }

  lemma PatchKeepsReferences(t: Tables, q: Request, now: Time, t': Tables)
    requires References(t) && Work(t, q, now, t') && q.PatchProduct?
    ensures References(t')
  {
  }

  lemma StepKeepsReferences(t: Tables, q: Request, now: Time, t': Tables)
    requires References(t) && Effect(t, q, now, t')
    ensures References(t')
  {
    if t' != t {
      match q
      case CreateProduct(env, input) => CreationKeeps(t, env, input, Kept(input.images));
      case DeleteProduct(sku) =>
        var p: nat :| LiveSku(t, p, sku) && t' == ProductDeleted(t, p, now);
        SmallDeletionsKeepReferences(t, p, now);
      case DeleteRoot(r) => RootDeletionKeepsReferences(t, r, now);
      case CreateOption(r, o) => AddOptionKeeps(t, r, o);
      case DeleteOption(o) => SmallDeletionsKeepReferences(t, o, now);
      case DeleteValue(id) => SmallDeletionsKeepReferences(t, id, now);
      case _ => UpdatesKeepReferences(t, q, now, t');
    }
  }

  lemma OptionStamps(t: Tables, r: nat, o: OptionInput, now: Time)
    requires StampsBefore(t, now)
    ensures StampsBefore(AddOption(t, r, o), now)
  {
  }

  lemma {:induction false} OptionsStamps(t: Tables, r: nat, os: seq<OptionInput>, now: Time)
    requires StampsBefore(t, now)
    ensures StampsBefore(AddOptions(t, r, os), now)
  {
    if os != [] {
      OptionsStamps(t, r, os[..|os| - 1], now);
      OptionStamps(AddOptions(t, r, os[..|os| - 1]), r, os[|os| - 1], now);
    }
  }

  lemma VariantStamps(t: Tables, r: nat, v: Variant, now: Time)
    requires StampsBefore(t, now)
    ensures StampsBefore(AddVariant(t, r, v), now)
  {
  }

  lemma {:induction false} VariantsStamps(t: Tables, r: nat, vs: seq<Variant>, now: Time)
    requires StampsBefore(t, now)
    ensures StampsBefore(AddVariants(t, r, vs), now)
  {
    if vs != [] {
      VariantsStamps(t, r, vs[..|vs| - 1], now);
      VariantStamps(AddVariants(t, r, vs[..|vs| - 1]), r, vs[|vs| - 1], now);
    }
  }

  /** The rows a creation adds are live. */
  lemma CreationStamps(t: Tables, env: Environment, input: CreationInput, kept: seq<ImageInput>, now: Time)
    requires StampsBefore(t, now)
    ensures StampsBefore(AfterCreation(t, env, input, kept), now)
  {
    RootStamps(t, env, input, kept, now);
    if input.options != [] {
      OptionsAndVariantsStamps(WithRootAndImages(t, env, input, kept), |t.roots|, input.options,
                               NewVariants(t, env, input, kept), now);
    }
  }

  lemma RootStamps(t: Tables, env: Environment, input: CreationInput, kept: seq<ImageInput>, now: Time)
    requires StampsBefore(t, now)
    ensures StampsBefore(WithRootAndImages(t, env, input, kept), now)
  {
  }

  lemma OptionsAndVariantsStamps(t: Tables, r: nat, os: seq<OptionInput>, vs: seq<Variant>, now: Time)
    requires StampsBefore(t, now)
    ensures StampsBefore(AddVariants(AddOptions(t, r, os), r, vs), now)
  {
    OptionsStamps(t, r, os, now);
    VariantsStamps(AddOptions(t, r, os), r, vs, now);
  }

  lemma RootDeletionStamps(t: Tables, r: nat, now: Time, later: Time)
    requires StampsBefore(t, later) && now < later
    ensures StampsBefore(RootDeleted(t, r, now), later)
  {
    RootDeletedIsMasked(t, r, now);
  }

  lemma SmallDeletionStamps(t: Tables, id: nat, now: Time, later: Time)
    requires StampsBefore(t, later) && now < later
    ensures StampsBefore(ProductDeleted(t, id, now), later)
    ensures StampsBefore(OptionDeleted(t, id, now), later)
    ensures StampsBefore(ArchiveValue(t, id, now), later)
  {
  }

  lemma UpdateStamps(t: Tables, q: Request, now: Time, t': Tables, later: Time)
    requires StampsBefore(t, later) && Work(t, q, now, t')
    requires q.PatchProduct? || q.PatchOption? || q.CreateValue? || q.PatchValue?
    ensures StampsBefore(t', later)
  {
  }

  lemma LaterStamps(t: Tables, now: Time, later: Time)
    requires StampsBefore(t, now) && now < later
    ensures StampsBefore(t, later)
  {
  }

  lemma StepStamps(t: Tables, q: Request, now: Time, t': Tables, later: Time)
    requires StampsBefore(t, now) && Effect(t, q, now, t') && now < later
    ensures StampsBefore(t', later)
  {
    LaterStamps(t, now, later);
    if t' != t {
      match q
      case CreateProduct(env, input) => CreationStamps(t, env, input, Kept(input.images), later);
      case DeleteProduct(sku) =>
        var p: nat :| LiveSku(t, p, sku) && t' == ProductDeleted(t, p, now);
        SmallDeletionStamps(t, p, now, later);
      case DeleteRoot(r) => RootDeletionStamps(t, r, now, later);
      case DeleteOption(o) => SmallDeletionStamps(t, o, now, later);
      case DeleteValue(id) => SmallDeletionStamps(t, id, now, later);
      case CreateOption(r, o) => OptionStamps(t, r, o, later);
      case _ => UpdateStamps(t, q, now, t', later);
    }
  }

  ghost predicate Rising(clock: seq<Time>) {
    forall i, j :: 0 <= i < j < |clock| ==> clock[i] < clock[j]
  }

  /** Whatever the update bodies name, every sequential run that starts with no row stamped at or after
      its first request, on a rising clock, keeps the foreign keys and the UNIQUE constraints, and the
      stamp of a request that comes next is a new one. */
  lemma {:induction false} RunsKeepSchema(ts: seq<Tables>, qs: seq<Request>, clock: seq<Time>, n: nat)
    requires IsRun(ts, qs, clock) && n < |ts| == |clock| && Rising(clock)
    requires References(ts[0]) && UniqueKeys(ts[0]) && StampsBefore(ts[0], clock[0])
    ensures References(ts[n]) && UniqueKeys(ts[n]) && StampsBefore(ts[n], clock[n])
  {
    if n > 0 {
      RunsKeepSchema(ts, qs, clock, n - 1);
      StepKeepsReferences(ts[n - 1], qs[n - 1], clock[n - 1], ts[n]);
      StepStamps(ts[n - 1], qs[n - 1], clock[n - 1], ts[n], clock[n]);
    }
  }
}
