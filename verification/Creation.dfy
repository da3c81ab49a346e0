/** What a product creation writes (api/v1/products.go, api/v1/product_options.go), as functions of the
    tables before it, and what that adds up to. */
module Creation {
  import opened Wrappers
  import opened Arithmetic
  import opened MixedRadix
  import opened Text
  import opened Variants
  import opened ProductImages
  import opened Catalogue

  datatype OptionInput = OptionInput(name: string, values: seq<string>)

  datatype CreationInput = CreationInput(template: Template, images: seq<ImageInput>, options: seq<OptionInput>)

  /** The collaborators that are not modelled further. */
  datatype Environment = Environment(lower: string -> string, imager: Imager)

  function Max(a: nat, b: nat): nat {
    if a >= b then a else b
  }

  predicate SkuChar(c: char) {
    'a' <= c <= 'z' || 'A' <= c <= 'Z' || c == '-' || c == '_'
  }

  /** ^[a-zA-Z\-_]{1,50}$ */
  predicate RestrictedStringIsValid(s: string) {
    1 <= |s| <= 50 && forall i :: 0 <= i < |s| ==> SkuChar(s[i])
  }

  /** The valid SKUs are the texts of 1 to 50 letters, hyphens and underscores, by their ASCII codes. */
  lemma SkuIsValidIff(s: string)
    ensures RestrictedStringIsValid(s) <==>
      && 1 <= |s| <= 50
      && forall i :: 0 <= i < |s| ==>
           var c := s[i] as int;
           97 <= c <= 122 || 65 <= c <= 90 || c == 45 || c == 95
  {
    forall i | 0 <= i < |s|
      ensures SkuChar(s[i]) <==> var c := s[i] as int; 97 <= c <= 122 || 65 <= c <= 90 || c == 45 || c == 95
    {
      SkuCharIff(s[i]);
    }
  }

  lemma SkuCharIff(c: char)
    ensures SkuChar(c) <==> 97 <= c as int <= 122 || 65 <= c as int <= 90 || c as int == 45 || c as int == 95
  {
  }

  // ----- rows -----

  function RootRow(tp: Template): Root {
    Root(tp.name, tp.sku, Max(tp.quantityPerPackage, 1), None)
  }

  function PlainRow(tp: Template, rootID: nat, primary: Option<nat>): Product {
    Product(rootID, primary, tp.name, tp.sku, tp.upc, "", Max(tp.quantityPerPackage, 1), None)
  }

  /** Variants are copied afresh from the input, so their quantity per package is not raised to 1. */
  function VariantRow(v: Variant, rootID: nat): Product {
    Product(rootID, None, v.template.name, v.sku, v.template.upc, v.optionSummary, v.template.quantityPerPackage,
            None)
  }

  function ImageRow(env: Environment, sku: string, i: nat, img: ImageInput, rootID: nat): Image {
    var o := env.imager(sku, i, img);
    Image(rootID, if o.Stored? then o.location else "", if env.lower(img.kind) == "url" then img.data else "")
  }

  // ----- the parts of a creation -----

  /** The rows of the first m kept images, under the indices 0..m. */
  function ImageRows(env: Environment, sku: string, kept: seq<ImageInput>, rootID: nat, m: nat): (r: seq<Image>)
    requires m <= |kept|
    ensures |r| == m && forall i :: 0 <= i < m ==> r[i] == ImageRow(env, sku, i, kept[i], rootID)
  {
    seq(m, i requires 0 <= i < m => ImageRow(env, sku, i, kept[i], rootID))
  }

  function AddImages(t: Tables, env: Environment, sku: string, kept: seq<ImageInput>, rootID: nat, m: nat): Tables
    requires m <= |kept|
  {
    t.(images := t.images + ImageRows(env, sku, kept, rootID, m))
  }

  function ValueRows(optionID: nat, values: seq<string>): (r: seq<ValueRow>)
    ensures |r| == |values| && forall i :: 0 <= i < |r| ==> r[i] == ValueRow(optionID, values[i], None)
  {
    seq(|values|, i requires 0 <= i < |values| => ValueRow(optionID, values[i], None))
  }

  function AddOption(t: Tables, rootID: nat, o: OptionInput): Tables {
    t.(options := t.options + [OptionRow(rootID, o.name, None)], values := t.values + ValueRows(|t.options|, o.values))
  }

  function CreatedOption(t: Tables, o: OptionInput): ProductOption {
    ProductOption(|t.options|, o.name,
                  seq(|o.values|, i requires 0 <= i < |o.values| => OptionValue(|t.values| + i, o.values[i])))
  }

  function AddOptions(t: Tables, rootID: nat, os: seq<OptionInput>): Tables {
    if os == [] then t else
      var n := |os| - 1;
      AddOption(AddOptions(t, rootID, os[..n]), rootID, os[n])
  }

  /** The created option carries the requested name and values, in order. */
  predicate Mirrors(created: ProductOption, o: OptionInput) {
    && created.name == o.name
    && |created.values| == |o.values|
    && forall d :: 0 <= d < |o.values| ==> created.values[d].value == o.values[d]
  }

  function CreatedOptions(t: Tables, rootID: nat, os: seq<OptionInput>): (r: seq<ProductOption>)
    ensures |r| == |os|
    ensures forall j :: 0 <= j < |os| ==> Mirrors(r[j], os[j])
  {
    if os == [] then [] else
      var n := |os| - 1;
      CreatedOptions(t, rootID, os[..n]) + [CreatedOption(AddOptions(t, rootID, os[..n]), os[n])]
  }

  /** The option lists on which the generator indexes out of range. */
  ghost predicate GeneratorPanics(os: seq<OptionInput>) {
    os != [] && os[0].values != [] && exists j :: 0 < j < |os| && os[j].values == []
  }

  lemma PanicsOnInput(t: Tables, rootID: nat, os: seq<OptionInput>)
    requires os != []
    ensures Panics(CreatedOptions(t, rootID, os)) <==> GeneratorPanics(os)
  {
  }

  function BridgePairs(productID: nat, vs: seq<OptionValue>): (r: seq<(nat, nat)>)
    ensures |r| == |vs| && forall i :: 0 <= i < |r| ==> r[i] == (productID, vs[i].id)
  {
    seq(|vs|, i requires 0 <= i < |vs| => (productID, vs[i].id))
  }

  function AddVariant(t: Tables, rootID: nat, v: Variant): Tables {
    InsertBridges(InsertProduct(t, VariantRow(v, rootID)), BridgePairs(|t.products|, v.values))
  }

  function AddVariants(t: Tables, rootID: nat, vs: seq<Variant>): Tables {
    if vs == [] then t else
      var n := |vs| - 1;
      AddVariant(AddVariants(t, rootID, vs[..n]), rootID, vs[n])
  }

  // ----- images -----

  /** How the image step of a creation ends when no store call fails. */
  datatype ImagesEnd = AllStored | NoLocations | BadImage | Panic

  function EndOfImages(env: Environment, sku: string, kept: seq<ImageInput>): (r: ImagesEnd)
    ensures r.AllStored? <==> StoredCount(sku, kept, env.imager) == |kept|
  {
    var m := StoredCount(sku, kept, env.imager);
    if m == |kept| then AllStored
    else match env.imager(sku, m, kept[m])
         case Rejected => BadImage
         case ImagePanic => Panic
         case _ => NoLocations
  }

  function ImageIDs(firstID: nat, n: nat): (ids: seq<nat>)
    ensures |ids| == n && forall k :: 0 <= k < n ==> ids[k] == firstID + k
  {
    seq(n, k => firstID + k)
  }

  /** The id of the first image marked primary. */
  function MarkedPrimary(firstID: nat, kept: seq<ImageInput>): Option<nat> {
    match FirstPrimary(kept)
    case Some(k) => Some(firstID + k)
    case None => None
  }

  /** The image a plain product gets from the ids and the marked image of the image step. */
  function ChoosePrimary(ids: seq<nat>, marked: Option<nat>): Option<nat> {
    if ids == [] then None else if marked.Some? then marked else Some(ids[0])
  }

  /** The image a plain product ends up with: the first one marked primary, else the first one. */
  function PrimaryImage(firstID: nat, kept: seq<ImageInput>): Option<nat> {
    ChoosePrimary(ImageIDs(firstID, |kept|), MarkedPrimary(firstID, kept))
  }

  /** The image loop after i turns, starting from base. */
  ghost predicate ImagesSoFar(base: Tables, t: Tables, env: Environment, sku: string, kept: seq<ImageInput>,
                              rootID: nat, i: nat, ids: seq<nat>, marked: Option<nat>)
  {
    && i <= |kept|
    && t == AddImages(base, env, sku, kept, rootID, i)
    && (forall k :: 0 <= k < i ==> env.imager(sku, k, kept[k]).Stored?)
    && ids == ImageIDs(|base.images|, i)
    && marked == MarkedPrimary(|base.images|, kept[..i])
  }

  /** What the image step hands on when it does not fail. */
  ghost predicate ImagesDone(base: Tables, t: Tables, env: Environment, sku: string, kept: seq<ImageInput>,
                             rootID: nat, ids: seq<nat>, marked: Option<nat>)
  {
    && t == AddImages(base, env, sku, kept, rootID, StoredCount(sku, kept, env.imager))
    && match EndOfImages(env, sku, kept)
       case AllStored => ids == ImageIDs(|base.images|, |kept|) && marked == MarkedPrimary(|base.images|, kept)
       case NoLocations => ids == [] && marked == None
       case _ => false
  }

  lemma ImagesStart(t: Tables, env: Environment, sku: string, kept: seq<ImageInput>, rootID: nat)
    ensures ImagesSoFar(t, t, env, sku, kept, rootID, 0, [], None)
  {
  }

  lemma ImageRowsNext(env: Environment, sku: string, kept: seq<ImageInput>, rootID: nat, i: nat)
    requires i < |kept|
    ensures ImageRows(env, sku, kept, rootID, i + 1)
         == ImageRows(env, sku, kept, rootID, i) + [ImageRow(env, sku, i, kept[i], rootID)]
  {
  }

  lemma MarkedPrimaryNext(firstID: nat, kept: seq<ImageInput>, i: nat)
    requires i < |kept|
    ensures MarkedPrimary(firstID, kept[..i + 1]) ==
      var marked := MarkedPrimary(firstID, kept[..i]);
      if kept[i].isPrimary && marked.None? then Some(firstID + i) else marked
  {
    assert kept[..i + 1][..i] == kept[..i];
  }

  lemma ImagesNext(base: Tables, t: Tables, env: Environment, sku: string, kept: seq<ImageInput>,
                   rootID: nat, i: nat, ids: seq<nat>, marked: Option<nat>)
    requires ImagesSoFar(base, t, env, sku, kept, rootID, i, ids, marked)
    requires i < |kept| && env.imager(sku, i, kept[i]).Stored?
    ensures ImagesSoFar(base, InsertImage(t, ImageRow(env, sku, i, kept[i], rootID)), env, sku, kept, rootID, i + 1,
                        ids + [|base.images| + i],
                        if kept[i].isPrimary && marked.None? then Some(|base.images| + i) else marked)
  {
    ImageRowsNext(env, sku, kept, rootID, i);
    MarkedPrimaryNext(|base.images|, kept, i);
    assert t.images + [ImageRow(env, sku, i, kept[i], rootID)]
        == base.images + ImageRows(env, sku, kept, rootID, i + 1);
  }

  lemma ImagesEndAt(base: Tables, t: Tables, env: Environment, sku: string, kept: seq<ImageInput>,
                    rootID: nat, i: nat, ids: seq<nat>, marked: Option<nat>)
    requires ImagesSoFar(base, t, env, sku, kept, rootID, i, ids, marked)
    requires i < |kept| ==> !env.imager(sku, i, kept[i]).Stored?
    ensures StoredCount(sku, kept, env.imager) == i
    ensures i == |kept| ==> ImagesDone(base, t, env, sku, kept, rootID, ids, marked)
    ensures i < |kept| && env.imager(sku, i, kept[i]).Unlocated? ==>
      ImagesDone(base, t, env, sku, kept, rootID, [], None)
  {
  }

  // ----- the whole -----

  function WithRootAndImages(t: Tables, env: Environment, input: CreationInput, kept: seq<ImageInput>): Tables {
    AddImages(InsertRoot(t, RootRow(input.template)), env, input.template.sku, kept, |t.roots|,
              StoredCount(input.template.sku, kept, env.imager))
  }

  function WithOptions(t: Tables, env: Environment, input: CreationInput, kept: seq<ImageInput>): Tables {
    AddOptions(WithRootAndImages(t, env, input, kept), |t.roots|, input.options)
  }

  function NewOptions(t: Tables, env: Environment, input: CreationInput, kept: seq<ImageInput>): seq<ProductOption> {
    CreatedOptions(WithRootAndImages(t, env, input, kept), |t.roots|, input.options)
  }

  function NewVariants(t: Tables, env: Environment, input: CreationInput, kept: seq<ImageInput>): seq<Variant> {
    AllVariants(input.template, env.lower, NewOptions(t, env, input, kept))
  }

  /** The product row of a creation without options. */
  function NewProduct(t: Tables, env: Environment, input: CreationInput, kept: seq<ImageInput>): Product {
    PlainRow(input.template, |t.roots|,
             if StoredCount(input.template.sku, kept, env.imager) == |kept|
             then PrimaryImage(|t.images|, kept) else None)
  }

  /** The tables after a successful creation, with kept the de-duplicated images of the request. An
      image storer that gives no locations ends the image step early without failing the request. */
  function AfterCreation(t: Tables, env: Environment, input: CreationInput, kept: seq<ImageInput>): Tables {
    if input.options == [] then
      InsertProduct(WithRootAndImages(t, env, input, kept), NewProduct(t, env, input, kept))
    else
      AddVariants(WithOptions(t, env, input, kept), |t.roots|, NewVariants(t, env, input, kept))
  }

  // ----- shape of the new rows -----

  function InputSizes(os: seq<OptionInput>): (lens: seq<nat>)
    ensures |lens| == |os| && forall j :: 0 <= j < |os| ==> lens[j] == |os[j].values|
  {
    seq(|os|, j requires 0 <= j < |os| => |os[j].values|)
  }

  function Sum(xs: seq<nat>): nat {
    if xs == [] then 0 else Sum(xs[..|xs| - 1]) + xs[|xs| - 1]
  }

  lemma CreatedSizes(t: Tables, rootID: nat, os: seq<OptionInput>)
    ensures Sizes(CreatedOptions(t, rootID, os)) == InputSizes(os)
  {
  }

  /** Adding options appends to options and values only: n option rows and the sum of the sizes in value rows. */
  lemma {:induction false} OptionsAppend(t: Tables, rootID: nat, os: seq<OptionInput>)
    ensures var t' := AddOptions(t, rootID, os);
      && t' == t.(options := t'.options, values := t'.values)
      && t.options <= t'.options && |t'.options| == |t.options| + |os|
      && t.values <= t'.values && |t'.values| == |t.values| + Sum(InputSizes(os))
      && (forall j :: 0 <= j < |os| ==> t'.options[|t.options| + j] == OptionRow(rootID, os[j].name, None))
      && (forall i :: |t.values| <= i < |t'.values| ==>
            t'.values[i].archivedOn.None? && t'.values[i].optionID >= |t.options|)
  {
    if os != [] {
      var n := |os| - 1;
      OptionsAppend(t, rootID, os[..n]);
      assert InputSizes(os)[..n] == InputSizes(os[..n]);
    }
  }

  lemma LastOptionStored(t: Tables, rootID: nat, o: OptionInput, d: nat)
    requires d < |o.values|
    ensures CreatedOption(t, o).values[d].id == |t.values| + d < |AddOption(t, rootID, o).values|
    ensures AddOption(t, rootID, o).values[|t.values| + d] == ValueRow(|t.options|, o.values[d], None)
  {
  }

  /** Value id of tables t is the row (option, value). */
  ghost predicate StoredValue(t: Tables, id: nat, optionID: nat, value: string) {
    id < |t.values| && t.values[id] == ValueRow(optionID, value, None)
  }

  /** An option more leaves the values of the earlier ones where they are. */
  lemma StoredStays(t: Tables, rootID: nat, o: OptionInput, id: nat, optionID: nat, value: string)
    requires StoredValue(t, id, optionID, value)
    ensures StoredValue(AddOption(t, rootID, o), id, optionID, value)
  {
  }

  /** The d-th value of the j-th created option sits where the values of the earlier options end. */
  ghost predicate ValuePlaced(t: Tables, rootID: nat, os: seq<OptionInput>, j: nat, d: nat)
    requires j < |os| && d < |os[j].values|
  {
    var id := CreatedOptions(t, rootID, os)[j].values[d].id;
    && id == |AddOptions(t, rootID, os[..j]).values| + d
    && StoredValue(AddOptions(t, rootID, os), id, |t.options| + j, os[j].values[d])
  }

  lemma EarlierOption(t: Tables, rootID: nat, os: seq<OptionInput>, j: nat, d: nat)
    requires j < |os| - 1 && d < |os[j].values| && ValuePlaced(t, rootID, os[..|os| - 1], j, d)
    ensures ValuePlaced(t, rootID, os, j, d)
  {
    var n := |os| - 1;
    assert os[..n][..j] == os[..j];
    StoredStays(AddOptions(t, rootID, os[..n]), rootID, os[n],
                CreatedOptions(t, rootID, os[..n])[j].values[d].id, |t.options| + j, os[j].values[d]);
  }

  lemma NewestOption(t: Tables, rootID: nat, os: seq<OptionInput>, d: nat)
    requires os != [] && d < |os[|os| - 1].values|
    ensures ValuePlaced(t, rootID, os, |os| - 1, d)
  {
    var n := |os| - 1;
    OptionsAppend(t, rootID, os[..n]);
    LastOptionStored(AddOptions(t, rootID, os[..n]), rootID, os[n], d);
  }

  lemma {:induction false} ValuesPlaced(t: Tables, rootID: nat, os: seq<OptionInput>, j: nat, d: nat)
    requires j < |os| && d < |os[j].values|
    ensures ValuePlaced(t, rootID, os, j, d)
  {
    if j < |os| - 1 {
      ValuesPlaced(t, rootID, os[..|os| - 1], j, d);
      EarlierOption(t, rootID, os, j, d);
    } else {
      NewestOption(t, rootID, os, d);
    }
  }

  /** Where the d-th value of the j-th created option sits, and that it belongs to that option. */
  lemma CreatedValuesStored(t: Tables, rootID: nat, os: seq<OptionInput>, j: nat, d: nat)
    requires j < |os| && d < |os[j].values|
    ensures var id := CreatedOptions(t, rootID, os)[j].values[d].id;
      && id == |AddOptions(t, rootID, os[..j]).values| + d
      && StoredValue(AddOptions(t, rootID, os), id, |t.options| + j, os[j].values[d])
  {
    ValuesPlaced(t, rootID, os, j, d);
  }

  /** Adding variants appends to products and bridges only. */
  lemma {:induction false} VariantsAppend(t: Tables, rootID: nat, vs: seq<Variant>)
    ensures var t' := AddVariants(t, rootID, vs);
      && t' == t.(products := t'.products, bridges := t'.bridges)
      && t.products <= t'.products && |t'.products| == |t.products| + |vs|
      && t.bridges <= t'.bridges
      && (forall k :: 0 <= k < |vs| ==> t'.products[|t.products| + k] == VariantRow(vs[k], rootID))
  {
    if vs != [] {
      VariantsAppend(t, rootID, vs[..|vs| - 1]);
    }
  }

  lemma {:induction false} VariantsBridgeCount(t: Tables, rootID: nat, vs: seq<Variant>, n: nat)
    requires forall k :: 0 <= k < |vs| ==> |vs[k].values| == n
    ensures |AddVariants(t, rootID, vs).bridges| == |t.bridges| + |vs| * n
  {
    if vs != [] {
      var m := |vs| - 1;
      VariantsBridgeCount(t, rootID, vs[..m], n);
      MulSucc(m, n);
    }
  }

  /** A bridge row of the tables that joins product p to value v. */
  ghost predicate Bridged(t: Tables, p: nat, v: nat) {
    exists b :: 0 <= b < |t.bridges| && t.bridges[b] == Bridge(p, v, None)
  }

  ghost predicate Picks(vs: seq<OptionValue>, v: nat) {
    exists i :: 0 <= i < |vs| && vs[i].id == v
  }

  ghost predicate BridgesKnown(t: Tables) {
    forall b :: 0 <= b < |t.bridges| ==> t.bridges[b].productID < |t.products|
  }

  /** One more variant bridges its own product to its values and leaves every other product's bridges alone. */
  lemma VariantBridges(t: Tables, rootID: nat, v: Variant, p: nat, id: nat)
    requires BridgesKnown(t)
    ensures BridgesKnown(AddVariant(t, rootID, v))
    ensures Bridged(AddVariant(t, rootID, v), p, id) <==>
      if p == |t.products| then Picks(v.values, id) else Bridged(t, p, id)
  {
    var t', n := AddVariant(t, rootID, v), |t.bridges|;
    assert forall b :: 0 <= b < n ==> t'.bridges[b] == t.bridges[b];
    assert forall i :: 0 <= i < |v.values| ==> t'.bridges[n + i] == Bridge(|t.products|, v.values[i].id, None);
    if Bridged(t', p, id) {
      var b :| 0 <= b < |t'.bridges| && t'.bridges[b] == Bridge(p, id, None);
      assert b >= n ==> v.values[b - n].id == id;
    }
  }

  /** The new bridges join the k-th new product to exactly the values of the k-th variant. */
  lemma {:induction false} VariantsBridges(t: Tables, rootID: nat, vs: seq<Variant>, k: nat, id: nat)
    requires k < |vs| && BridgesKnown(t)
    ensures Bridged(AddVariants(t, rootID, vs), |t.products| + k, id) <==> Picks(vs[k].values, id)
  {
    var n := |vs| - 1;
    VariantsKnown(t, rootID, vs[..n]);
    VariantBridges(AddVariants(t, rootID, vs[..n]), rootID, vs[n], |t.products| + k, id);
    if k < n {
      VariantsBridges(t, rootID, vs[..n], k, id);
    }
  }

  lemma {:induction false} VariantsKnown(t: Tables, rootID: nat, vs: seq<Variant>)
    requires BridgesKnown(t)
    ensures BridgesKnown(AddVariants(t, rootID, vs))
    ensures |AddVariants(t, rootID, vs).products| == |t.products| + |vs|
  {
    if vs != [] {
      var n := |vs| - 1;
      VariantsKnown(t, rootID, vs[..n]);
      VariantBridges(AddVariants(t, rootID, vs[..n]), rootID, vs[n], 0, 0);
    }
  }

  // ----- the whole creation -----

  lemma OptionsPart(t: Tables, env: Environment, input: CreationInput, kept: seq<ImageInput>)
    ensures var t2 := WithOptions(t, env, input, kept);
      && Sizes(NewOptions(t, env, input, kept)) == InputSizes(input.options)
      && t2 == WithRootAndImages(t, env, input, kept).(options := t2.options, values := t2.values)
      && t.options <= t2.options && |t2.options| == |t.options| + |input.options|
      && t.values <= t2.values && |t2.values| == |t.values| + Sum(InputSizes(input.options))
  {
    CreatedSizes(WithRootAndImages(t, env, input, kept), |t.roots|, input.options);
    OptionsAppend(WithRootAndImages(t, env, input, kept), |t.roots|, input.options);
  }

  /** A successful creation with n options adds one root, n options, the sum of the sizes in
      values, the product of the sizes in products and n times that many bridges, and touches no
      row that was there before. Without options that is one root, one product and no bridge. */
  lemma CreationCounts(t: Tables, env: Environment, input: CreationInput, kept: seq<ImageInput>)
    ensures var t', lens := AfterCreation(t, env, input, kept), InputSizes(input.options);
      && t.roots <= t'.roots && |t'.roots| == |t.roots| + 1
      && t.images <= t'.images && |t'.images| == |t.images| + StoredCount(input.template.sku, kept, env.imager)
      && t.options <= t'.options && |t'.options| == |t.options| + |input.options|
      && t.values <= t'.values && |t'.values| == |t.values| + Sum(lens)
      && t.products <= t'.products && |t'.products| == |t.products| + Combinations(lens)
      && t.bridges <= t'.bridges && |t'.bridges| == |t.bridges| + Combinations(lens) * |input.options|
  {
    if input.options != [] {
      OptionsPart(t, env, input, kept);
      VariantsAppend(WithOptions(t, env, input, kept), |t.roots|, NewVariants(t, env, input, kept));
      VariantsBridgeCount(WithOptions(t, env, input, kept), |t.roots|, NewVariants(t, env, input, kept),
                          |input.options|);
    }
  }

  /** The products from row n on have pairwise distinct SKUs. */
  ghost predicate NewSkusDistinct(n: nat, products: seq<Product>) {
    forall k, l :: n <= k < l < |products| ==> products[k].sku != products[l].sku
  }

  /** Variants are stored under the root and with the SKUs they were generated with. */
  lemma SkusStored(t: Tables, rootID: nat, os: seq<OptionInput>, vs: seq<Variant>)
    ensures var products := AddVariants(AddOptions(t, rootID, os), rootID, vs).products;
      && |products| == |t.products| + |vs|
      && (forall k: nat :: k < |vs| ==> products[|t.products| + k] == VariantRow(vs[k], rootID))
      && (NewSkusDistinct(|t.products|, products) <==> SkusDistinct(vs))
  {
    OptionsAppend(t, rootID, os);
    VariantsAppend(AddOptions(t, rootID, os), rootID, vs);
    SkusCorrespond(|t.products|, AddVariants(AddOptions(t, rootID, os), rootID, vs).products, vs);
  }

  lemma SkusCorrespond(n: nat, products: seq<Product>, vs: seq<Variant>)
    requires |products| == n + |vs| && forall k: nat :: k < |vs| ==> products[n + k].sku == vs[k].sku
    ensures NewSkusDistinct(n, products) <==> SkusDistinct(vs)
  {
    assert forall k :: n <= k < |products| ==> products[k].sku == vs[k - n].sku by {
      assert forall k :: n <= k < |products| ==> products[n + (k - n)] == products[k];
    }
  }

  /** A printable option: it has values, and none of them lower-cases to something with an underscore. */
  ghost predicate Printable(lower: string -> string, o: OptionInput) {
    o.values != [] && NoUnderscore(lower, o.values)
  }

  lemma MirrorsCarryOver(created: ProductOption, o: OptionInput)
    requires Mirrors(created, o)
    ensures Texts(created) == o.values
  {
  }

  lemma MirroredOptions(lower: string -> string, created: seq<ProductOption>, os: seq<OptionInput>)
    requires |created| == |os| && forall j :: 0 <= j < |os| ==> Mirrors(created[j], os[j])
    requires forall o :: o in os ==> Printable(lower, o)
    ensures forall o :: o in created ==> NoUnderscore(lower, Texts(o)) && o.values != []
    ensures (forall o :: o in created ==> LoweredDistinct(lower, Texts(o)))
       <==> (forall o :: o in os ==> LoweredDistinct(lower, o.values))
  {
    forall j | 0 <= j < |os|
      ensures Texts(created[j]) == os[j].values && Printable(lower, os[j])
    {
      assert os[j] in os;
      MirrorsCarryOver(created[j], os[j]);
    }
    assert forall j :: 0 <= j < |os| ==> created[j] in created && os[j] in os;
  }

  /** The SKUs stored by a creation are pairwise distinct exactly when, within each requested option,
      the lower-cased values are. */
  lemma StoredSkusDistinctIff(t: Tables, env: Environment, input: CreationInput, kept: seq<ImageInput>)
    requires input.options != [] && forall o :: o in input.options ==> Printable(env.lower, o)
    ensures NewSkusDistinct(|t.products|, AfterCreation(t, env, input, kept).products) <==>
      forall o :: o in input.options ==> LoweredDistinct(env.lower, o.values)
  {
    SkusStored(WithRootAndImages(t, env, input, kept), |t.roots|, input.options, NewVariants(t, env, input, kept));
    GeneratedSkusDistinctIff(WithRootAndImages(t, env, input, kept), |t.roots|, env.lower, input.template,
                             input.options);
  }

  lemma GeneratedSkusDistinctIff(t: Tables, rootID: nat, lower: string -> string, tp: Template, os: seq<OptionInput>)
    requires forall o :: o in os ==> Printable(lower, o)
    ensures SkusDistinct(AllVariants(tp, lower, CreatedOptions(t, rootID, os))) <==>
      forall o :: o in os ==> LoweredDistinct(lower, o.values)
  {
    var created := CreatedOptions(t, rootID, os);
    MirroredOptions(lower, created, os);
    SkusDistinctIff(tp, lower, created);
  }

  lemma VariantsOfOptions(t: Tables, rootID: nat, tp: Template, lower: string -> string,
                          options: seq<ProductOption>, lens: seq<nat>, k: nat, v: nat)
    requires BridgesKnown(t) && Sizes(options) == lens && k < Combinations(lens)
    ensures Bridged(AddVariants(t, rootID, AllVariants(tp, lower, options)), |t.products| + k, v) <==>
      Picks(Chosen(options, Digits(lens, k)), v)
  {
    VariantsBridges(t, rootID, AllVariants(tp, lower, options), k, v);
  }

  /** The k-th new product is bridged to v exactly when v is one of the values the k-th index vector picks. */
  lemma NewProductBridges(t: Tables, env: Environment, input: CreationInput, kept: seq<ImageInput>, k: nat, v: nat)
    requires References(t) && input.options != [] && k < Combinations(InputSizes(input.options))
    ensures Sizes(NewOptions(t, env, input, kept)) == InputSizes(input.options)
    ensures Bridged(AfterCreation(t, env, input, kept), |t.products| + k, v) <==>
      Picks(Chosen(NewOptions(t, env, input, kept), Digits(InputSizes(input.options), k)), v)
  {
    OptionsPart(t, env, input, kept);
    VariantsOfOptions(WithOptions(t, env, input, kept), |t.roots|, input.template, env.lower,
                      NewOptions(t, env, input, kept), InputSizes(input.options), k, v);
  }

  /** The new value rows of option j are where the created options say they are. */
  lemma NewValueRow(t: Tables, env: Environment, input: CreationInput, kept: seq<ImageInput>, j: nat, d: nat)
    requires j < |input.options| && d < |input.options[j].values|
    ensures var t', v := AfterCreation(t, env, input, kept), NewOptions(t, env, input, kept)[j].values[d].id;
      && StoredValue(t', v, |t.options| + j, input.options[j].values[d])
      && v == |AddOptions(WithRootAndImages(t, env, input, kept), |t.roots|, input.options[..j]).values| + d
  {
    CreatedValuesStored(WithRootAndImages(t, env, input, kept), |t.roots|, input.options, j, d);
    VariantsAppend(WithOptions(t, env, input, kept), |t.roots|, NewVariants(t, env, input, kept));
  }

  /** The id of the value that new product k takes from option j. */
  function PickedID(t: Tables, env: Environment, input: CreationInput, kept: seq<ImageInput>, k: nat, j: nat): nat
    requires j < |input.options| && k < Combinations(InputSizes(input.options))
  {
    NewOptions(t, env, input, kept)[j].values[Digits(InputSizes(input.options), k)[j]].id
  }

  /** Product p is bridged to v, a value of option o. */
  ghost predicate BridgedWithin(t: Tables, p: nat, o: nat, v: nat) {
    Bridged(t, p, v) && v < |t.values| && t.values[v].optionID == o
  }

  lemma PickedIsBridged(t: Tables, env: Environment, input: CreationInput, kept: seq<ImageInput>, k: nat, j: nat)
    requires References(t) && j < |input.options| && k < Combinations(InputSizes(input.options))
    ensures BridgedWithin(AfterCreation(t, env, input, kept), |t.products| + k, |t.options| + j,
                          PickedID(t, env, input, kept, k, j))
  {
    var d, v := Digits(InputSizes(input.options), k), PickedID(t, env, input, kept, k, j);
    NewProductBridges(t, env, input, kept, k, v);
    NewValueRow(t, env, input, kept, j, d[j]);
    assert Chosen(NewOptions(t, env, input, kept), d)[j].id == v;
  }

  lemma PickedFrom(options: seq<ProductOption>, d: seq<nat>, v: nat) returns (i: nat)
    requires InRange(d, Sizes(options)) && Picks(Chosen(options, d), v)
    ensures i < |options| && options[i].values[d[i]].id == v
  {
    i :| i < |options| && Chosen(options, d)[i].id == v;
  }

  lemma PickedOfOption(t: Tables, env: Environment, input: CreationInput, kept: seq<ImageInput>,
                       d: seq<nat>, j: nat, v: nat)
    requires Sizes(NewOptions(t, env, input, kept)) == InputSizes(input.options)
    requires InRange(d, InputSizes(input.options)) && j < |input.options|
    requires Picks(Chosen(NewOptions(t, env, input, kept), d), v)
    requires v < |AfterCreation(t, env, input, kept).values|
    requires AfterCreation(t, env, input, kept).values[v].optionID == |t.options| + j
    ensures v == NewOptions(t, env, input, kept)[j].values[d[j]].id
  {
    var i := PickedFrom(NewOptions(t, env, input, kept), d, v);
    NewValueRow(t, env, input, kept, i, d[i]);
  }

  lemma BridgedIsPicked(t: Tables, env: Environment, input: CreationInput, kept: seq<ImageInput>,
                        k: nat, j: nat, v: nat)
    requires References(t) && j < |input.options| && k < Combinations(InputSizes(input.options))
    requires BridgedWithin(AfterCreation(t, env, input, kept), |t.products| + k, |t.options| + j, v)
    ensures v == PickedID(t, env, input, kept, k, j)
  {
    NewProductBridges(t, env, input, kept, k, v);
    PickedOfOption(t, env, input, kept, Digits(InputSizes(input.options), k), j, v);
  }

  /** Each new product is bridged to exactly one value of each new option, the one its index vector picks. */
  lemma OneBridgePerOption(t: Tables, env: Environment, input: CreationInput, kept: seq<ImageInput>,
                           k: nat, j: nat, v: nat)
    requires References(t) && j < |input.options| && k < Combinations(InputSizes(input.options))
    ensures BridgedWithin(AfterCreation(t, env, input, kept), |t.products| + k, |t.options| + j, v)
       <==> v == PickedID(t, env, input, kept, k, j)
  {
    PickedIsBridged(t, env, input, kept, k, j);
    if BridgedWithin(AfterCreation(t, env, input, kept), |t.products| + k, |t.options| + j, v) {
      BridgedIsPicked(t, env, input, kept, k, j, v);
    }
  }

  lemma PickedIDsDiffer(t: Tables, env: Environment, input: CreationInput, kept: seq<ImageInput>,
                        k: nat, l: nat, j: nat)
    requires j < |input.options|
    requires k < Combinations(InputSizes(input.options)) && l < Combinations(InputSizes(input.options))
    requires Digits(InputSizes(input.options), k)[j] != Digits(InputSizes(input.options), l)[j]
    ensures PickedID(t, env, input, kept, k, j) != PickedID(t, env, input, kept, l, j)
  {
    NewValueRow(t, env, input, kept, j, Digits(InputSizes(input.options), k)[j]);
    NewValueRow(t, env, input, kept, j, Digits(InputSizes(input.options), l)[j]);
  }

  /** No two new products have the same set of bridged values: v is one that tells them apart. */
  lemma BridgedSetsDiffer(t: Tables, env: Environment, input: CreationInput, kept: seq<ImageInput>, k: nat, l: nat)
    returns (v: nat)
    requires References(t) && input.options != []
    requires k < Combinations(InputSizes(input.options)) && l < Combinations(InputSizes(input.options)) && k != l
    ensures var t' := AfterCreation(t, env, input, kept);
      Bridged(t', |t.products| + k, v) && !Bridged(t', |t.products| + l, v)
  {
    var j := DigitsDiffer(InputSizes(input.options), k, l);
    v := PickedID(t, env, input, kept, k, j);
    PickedIDsDiffer(t, env, input, kept, k, l, j);
    NewValueRow(t, env, input, kept, j, Digits(InputSizes(input.options), k)[j]);
    OneBridgePerOption(t, env, input, kept, k, j, v);
    OneBridgePerOption(t, env, input, kept, l, j, v);
  }

  lemma Pointwise(a: seq<nat>, b: seq<nat>)
    requires |a| == |b|
    ensures (forall j :: 0 <= j < |a| ==> a[j] == b[j]) ==> a == b
  {
  }

  lemma DigitsDiffer(lens: seq<nat>, k: nat, l: nat) returns (j: nat)
    requires k < Combinations(lens) && l < Combinations(lens) && k != l
    ensures j < |lens| && Digits(lens, k)[j] != Digits(lens, l)[j]
  {
    var a, b := Digits(lens, k), Digits(lens, l);
    assert Value(a, lens) == k && Value(b, lens) == l;
    Pointwise(a, b);
    j :| j < |a| && a[j] != b[j];
  }

  lemma OptionsAndVariantsLeaveImages(t: Tables, rootID: nat, os: seq<OptionInput>, vs: seq<Variant>)
    ensures AddVariants(AddOptions(t, rootID, os), rootID, vs).images == t.images
  {
    OptionsAppend(t, rootID, os);
    VariantsAppend(AddOptions(t, rootID, os), rootID, vs);
  }

  lemma OptionsCreationImages(t: Tables, env: Environment, input: CreationInput, kept: seq<ImageInput>)
    requires input.options != []
    ensures AfterCreation(t, env, input, kept).images == WithRootAndImages(t, env, input, kept).images
  {
    OptionsAndVariantsLeaveImages(WithRootAndImages(t, env, input, kept), |t.roots|, input.options,
                                  NewVariants(t, env, input, kept));
  }

  /** Only the image step writes images. */
  lemma ImageStepImages(t: Tables, env: Environment, input: CreationInput, kept: seq<ImageInput>)
    ensures AfterCreation(t, env, input, kept).images == WithRootAndImages(t, env, input, kept).images
  {
    if input.options != [] {
      OptionsCreationImages(t, env, input, kept);
    }
  }

  lemma ImageStepRows(t: Tables, env: Environment, input: CreationInput, kept: seq<ImageInput>)
    ensures var sku := input.template.sku;
      WithRootAndImages(t, env, input, kept).images
        == t.images + ImageRows(env, sku, kept, |t.roots|, StoredCount(sku, kept, env.imager))
  {
  }

  /** The new image rows are the kept images, one row each, in order, under the indices 0..m, all of
      the new root, whatever the options; m is all of them unless the storer gave no locations. */
  lemma CreationImages(t: Tables, env: Environment, input: CreationInput, kept: seq<ImageInput>)
    ensures var sku := input.template.sku;
      AfterCreation(t, env, input, kept).images
        == t.images + ImageRows(env, sku, kept, |t.roots|, StoredCount(sku, kept, env.imager))
  {
    ImageStepImages(t, env, input, kept);
    ImageStepRows(t, env, input, kept);
  }

  /** Image i of the kept ones is the first marked primary, or the first of all when none is marked. */
  ghost predicate PrimaryChoice(kept: seq<ImageInput>, i: nat) {
    && i < |kept|
    && (forall k :: 0 <= k < i ==> !kept[k].isPrimary)
    && (kept[i].isPrimary || (i == 0 && forall k :: 0 <= k < |kept| ==> !kept[k].isPrimary))
  }

  lemma PrimaryImageIsChoice(firstID: nat, kept: seq<ImageInput>)
    ensures PrimaryImage(firstID, kept).Some? <==> kept != []
    ensures kept != [] ==>
      PrimaryImage(firstID, kept).value >= firstID && PrimaryChoice(kept, PrimaryImage(firstID, kept).value - firstID)
  {
  }

  /** After a creation without options the product has an image exactly when there are images and all
      of them are stored. It is then the first kept one marked primary, else the first kept one, and
      an image of the product's own root. */
  lemma PlainCreationPrimary(t: Tables, env: Environment, input: CreationInput, kept: seq<ImageInput>)
    requires input.options == []
    ensures var primary := NewProduct(t, env, input, kept).primaryImageID;
      && (primary.Some? <==> kept != [] && EndOfImages(env, input.template.sku, kept).AllStored?)
      && (primary.Some? ==>
            && primary.value >= |t.images|
            && PrimaryChoice(kept, primary.value - |t.images|)
            && primary.value < |AfterCreation(t, env, input, kept).images|
            && AfterCreation(t, env, input, kept).images[primary.value].rootID
               == NewProduct(t, env, input, kept).rootID)
  {
    PrimaryImageIsChoice(|t.images|, kept);
    CreationImages(t, env, input, kept);
  }

  // ----- the stored columns -----

  /** The new root carries the requested name, its SKU as prefix and a quantity of at least 1. */
  lemma RootColumns(t: Tables, env: Environment, input: CreationInput, kept: seq<ImageInput>)
    ensures var roots, tp := AfterCreation(t, env, input, kept).roots, input.template;
      && |roots| == |t.roots| + 1
      && roots[|t.roots|].name == tp.name && roots[|t.roots|].skuPrefix == tp.sku
      && roots[|t.roots|].quantityPerPackage == (if tp.quantityPerPackage == 0 then 1 else tp.quantityPerPackage)
      && roots[|t.roots|].archivedOn.None?
  {
    if input.options != [] {
      RootsThroughOptions(WithRootAndImages(t, env, input, kept), |t.roots|, input.options,
                          NewVariants(t, env, input, kept));
    }
  }

  lemma RootsThroughOptions(t: Tables, r: nat, os: seq<OptionInput>, vs: seq<Variant>)
    ensures AddVariants(AddOptions(t, r, os), r, vs).roots == t.roots
  {
    OptionsAppend(t, r, os);
    VariantsAppend(AddOptions(t, r, os), r, vs);
  }

  /** The product of a creation without options is found under the requested SKU and carries the requested
      name and UPC, no summary and a quantity of at least 1. */
  lemma PlainColumns(t: Tables, env: Environment, input: CreationInput, kept: seq<ImageInput>)
    requires input.options == []
    ensures var products, tp := AfterCreation(t, env, input, kept).products, input.template;
      && |products| == |t.products| + 1
      && products[|t.products|].rootID == |t.roots|
      && products[|t.products|].name == tp.name && products[|t.products|].sku == tp.sku
      && products[|t.products|].upc == tp.upc && products[|t.products|].optionSummary == ""
      && products[|t.products|].quantityPerPackage
         == (if tp.quantityPerPackage == 0 then 1 else tp.quantityPerPackage)
      && products[|t.products|].archivedOn.None?
  {
  }

  /** Image i is stored under the new root, where the storer put it, with its address if it came from one. */
  lemma ImageColumns(t: Tables, env: Environment, input: CreationInput, kept: seq<ImageInput>, i: nat)
    requires i < |kept| && forall k :: 0 <= k <= i ==> env.imager(input.template.sku, k, kept[k]).Stored?
    ensures var images := AfterCreation(t, env, input, kept).images;
      && |t.images| + i < |images|
      && images[|t.images| + i].rootID == |t.roots|
      && images[|t.images| + i].location == env.imager(input.template.sku, i, kept[i]).location
      && images[|t.images| + i].sourceURL == if env.lower(kept[i].kind) == "url" then kept[i].data else ""
  {
    CreationImages(t, env, input, kept);
  }

  /** The new options carry the requested names, in order. */
  lemma OptionColumns(t: Tables, env: Environment, input: CreationInput, kept: seq<ImageInput>, j: nat)
    requires j < |input.options|
    ensures var options := AfterCreation(t, env, input, kept).options;
      && |options| == |t.options| + |input.options|
      && options[|t.options| + j].rootID == |t.roots|
      && options[|t.options| + j].name == input.options[j].name
      && options[|t.options| + j].archivedOn.None?
  {
    OptionsOfCreation(t, env, input, kept);
    WithOptionsRow(t, env, input, kept, j);
  }

  lemma WithOptionsRow(t: Tables, env: Environment, input: CreationInput, kept: seq<ImageInput>, j: nat)
    requires j < |input.options|
    ensures |WithOptions(t, env, input, kept).options| == |t.options| + |input.options|
    ensures WithOptions(t, env, input, kept).options[|t.options| + j]
         == OptionRow(|t.roots|, input.options[j].name, None)
  {
    OptionRowAt(WithRootAndImages(t, env, input, kept), |t.roots|, input.options, j);
  }

  lemma OptionRowAt(t: Tables, r: nat, os: seq<OptionInput>, j: nat)
    requires j < |os|
    ensures |AddOptions(t, r, os).options| == |t.options| + |os|
    ensures AddOptions(t, r, os).options[|t.options| + j] == OptionRow(r, os[j].name, None)
  {
    OptionsAppend(t, r, os);
  }

  lemma OptionsOfCreation(t: Tables, env: Environment, input: CreationInput, kept: seq<ImageInput>)
    requires input.options != []
    ensures AfterCreation(t, env, input, kept).options == WithOptions(t, env, input, kept).options
  {
    VariantsAppend(WithOptions(t, env, input, kept), |t.roots|, NewVariants(t, env, input, kept));
  }

  /** The value that new product k takes from the j-th requested option. */
  function RequestedValue(input: CreationInput, k: nat, j: nat): string
    requires k < Combinations(InputSizes(input.options)) && j < |input.options|
  {
    input.options[j].values[Digits(InputSizes(input.options), k)[j]]
  }

  lemma MirroredValue(t: Tables, env: Environment, input: CreationInput, kept: seq<ImageInput>, k: nat, j: nat)
    requires k < Combinations(InputSizes(input.options)) && j < |input.options|
    ensures Sizes(NewOptions(t, env, input, kept)) == InputSizes(input.options)
    ensures var o := NewOptions(t, env, input, kept)[j];
      && o.name == input.options[j].name
      && o.values[Digits(InputSizes(input.options), k)[j]].value == RequestedValue(input, k, j)
  {
    CreatedSizes(WithRootAndImages(t, env, input, kept), |t.roots|, input.options);
    assert Mirrors(NewOptions(t, env, input, kept)[j], input.options[j]);
  }

  lemma VariantStored(t: Tables, r: nat, os: seq<OptionInput>, vs: seq<Variant>, t': Tables, k: nat)
    requires t' == AddVariants(AddOptions(t, r, os), r, vs) && k < |vs|
    ensures |t.products| + k < |t'.products| && t'.products[|t.products| + k] == VariantRow(vs[k], r)
  {
    SkusStored(t, r, os, vs);
  }

  lemma CreationStoresVariants(t: Tables, env: Environment, input: CreationInput, kept: seq<ImageInput>)
    requires input.options != []
    ensures AfterCreation(t, env, input, kept) ==
      AddVariants(AddOptions(WithRootAndImages(t, env, input, kept), |t.roots|, input.options), |t.roots|,
                  NewVariants(t, env, input, kept))
    ensures WithRootAndImages(t, env, input, kept).products == t.products
    ensures WithRootAndImages(t, env, input, kept).options == t.options
  {
  }

  lemma VariantCount(t: Tables, env: Environment, input: CreationInput, kept: seq<ImageInput>)
    ensures |NewVariants(t, env, input, kept)| == Combinations(InputSizes(input.options))
  {
    CreatedSizes(WithRootAndImages(t, env, input, kept), |t.roots|, input.options);
  }

  lemma NewVariantStored(t: Tables, env: Environment, input: CreationInput, kept: seq<ImageInput>, k: nat)
    returns (v: Variant)
    requires input.options != [] && k < Combinations(InputSizes(input.options))
    ensures k < |NewVariants(t, env, input, kept)| && v == NewVariants(t, env, input, kept)[k]
    ensures |t.products| + k < |AfterCreation(t, env, input, kept).products|
    ensures AfterCreation(t, env, input, kept).products[|t.products| + k] == VariantRow(v, |t.roots|)
  {
    VariantCount(t, env, input, kept);
    v := NewVariants(t, env, input, kept)[k];
    CreationStoresVariants(t, env, input, kept);
    VariantStored(WithRootAndImages(t, env, input, kept), |t.roots|, input.options, NewVariants(t, env, input, kept),
                  AfterCreation(t, env, input, kept), k);
  }

  /** New product k carries the requested name, UPC and quantity. Its SKU is the requested one, an underscore
      and, split at the underscores, the lower-cased values of the request that index vector k picks, if none
      of them has an underscore. Its summary, split at the commas, names option and value in turn, if neither
      has a comma. */
  lemma VariantColumns(t: Tables, env: Environment, input: CreationInput, kept: seq<ImageInput>, k: nat)
    requires input.options != [] && k < Combinations(InputSizes(input.options))
    ensures |t.products| + k < |AfterCreation(t, env, input, kept).products|
    ensures var row, tp := AfterCreation(t, env, input, kept).products[|t.products| + k], input.template;
      && row.rootID == |t.roots| && row.primaryImageID.None? && row.archivedOn.None?
      && row.name == tp.name && row.upc == tp.upc && row.quantityPerPackage == tp.quantityPerPackage
      && tp.sku + "_" <= row.sku
    ensures var sku := AfterCreation(t, env, input, kept).products[|t.products| + k].sku;
      (forall j :: 0 <= j < |input.options| ==> '_' !in env.lower(RequestedValue(input, k, j))) ==>
        var parts := Split(sku[|input.template.sku| + 1..], "_");
        && |parts| == |input.options|
        && forall j :: 0 <= j < |input.options| ==> parts[j] == env.lower(RequestedValue(input, k, j))
    ensures var summary := AfterCreation(t, env, input, kept).products[|t.products| + k].optionSummary;
      (forall j :: 0 <= j < |input.options| ==>
         ',' !in input.options[j].name && ',' !in RequestedValue(input, k, j)) ==>
        var parts := Split(summary, ", ");
        && |parts| == |input.options|
        && forall j :: 0 <= j < |input.options| ==>
             parts[j] == input.options[j].name + ": " + RequestedValue(input, k, j)
  {
    var v := NewVariantStored(t, env, input, kept, k);
    SkuOfVariant(t, env, input, kept, k, v);
    SummaryOfVariant(t, env, input, kept, k, v);
  }

  lemma MirroredValues(t: Tables, env: Environment, input: CreationInput, kept: seq<ImageInput>, k: nat)
    requires input.options != [] && k < Combinations(InputSizes(input.options))
    ensures Sizes(NewOptions(t, env, input, kept)) == InputSizes(input.options)
    ensures forall j :: 0 <= j < |input.options| ==>
      var o := NewOptions(t, env, input, kept)[j];
      && o.name == input.options[j].name
      && o.values[Digits(InputSizes(input.options), k)[j]].value == RequestedValue(input, k, j)
  {
    MirroredValue(t, env, input, kept, k, 0);
    forall j | 0 <= j < |input.options|
      ensures NewOptions(t, env, input, kept)[j].name == input.options[j].name
      ensures NewOptions(t, env, input, kept)[j].values[Digits(InputSizes(input.options), k)[j]].value
           == RequestedValue(input, k, j)
    {
      MirroredValue(t, env, input, kept, k, j);
    }
  }

  lemma SkuOfVariant(t: Tables, env: Environment, input: CreationInput, kept: seq<ImageInput>, k: nat, v: Variant)
    requires input.options != [] && k < Combinations(InputSizes(input.options))
    requires k < |NewVariants(t, env, input, kept)| && v == NewVariants(t, env, input, kept)[k]
    ensures v.template == input.template && input.template.sku + "_" <= v.sku
    ensures (forall j :: 0 <= j < |input.options| ==> '_' !in env.lower(RequestedValue(input, k, j))) ==>
        var parts := Split(v.sku[|input.template.sku| + 1..], "_");
        && |parts| == |input.options|
        && forall j :: 0 <= j < |input.options| ==> parts[j] == env.lower(RequestedValue(input, k, j))
  {
    MirroredValues(t, env, input, kept, k);
    SkuReads(input.template, env.lower, NewOptions(t, env, input, kept), Digits(InputSizes(input.options), k));
  }

  lemma SummaryOfVariant(t: Tables, env: Environment, input: CreationInput, kept: seq<ImageInput>, k: nat, v: Variant)
    requires input.options != [] && k < Combinations(InputSizes(input.options))
    requires k < |NewVariants(t, env, input, kept)| && v == NewVariants(t, env, input, kept)[k]
    ensures (forall j :: 0 <= j < |input.options| ==>
               ',' !in input.options[j].name && ',' !in RequestedValue(input, k, j)) ==>
        var parts := Split(v.optionSummary, ", ");
        && |parts| == |input.options|
        && forall j :: 0 <= j < |input.options| ==>
             parts[j] == input.options[j].name + ": " + RequestedValue(input, k, j)
  {
    MirroredValues(t, env, input, kept, k);
    if forall j :: 0 <= j < |input.options| ==>
      ',' !in input.options[j].name && ',' !in RequestedValue(input, k, j)
    {
      SummaryReads(input.template, env.lower, NewOptions(t, env, input, kept), Digits(InputSizes(input.options), k));
    }
  }

  /** The one value of the j-th new option that new product k is bridged to has the requested text. */
  lemma BridgedText(t: Tables, env: Environment, input: CreationInput, kept: seq<ImageInput>, k: nat, j: nat, v: nat)
    requires References(t) && j < |input.options| && k < Combinations(InputSizes(input.options))
    requires BridgedWithin(AfterCreation(t, env, input, kept), |t.products| + k, |t.options| + j, v)
    ensures AfterCreation(t, env, input, kept).values[v].value == RequestedValue(input, k, j)
    ensures AfterCreation(t, env, input, kept).values[v].archivedOn.None?
  {
    BridgedIsPicked(t, env, input, kept, k, j, v);
    NewValueRow(t, env, input, kept, j, Digits(InputSizes(input.options), k)[j]);
  }
}
