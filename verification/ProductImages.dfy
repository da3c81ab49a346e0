/** Which images of a creation request are kept, and which of them is primary (api/v1/product_images.go). */
module ProductImages {
  import opened Wrappers

  datatype ImageInput = ImageInput(isPrimary: bool, kind: string, data: string)

  /** What fetching, decoding, thumbnailing and storing one image comes to. Unlocated is a storer
      that reports neither an error nor locations. */
  datatype ImageOutcome = Stored(location: string) | Rejected | Unlocated | ImagePanic

  type Imager = (string, nat, ImageInput) -> ImageOutcome

  ghost predicate SeenBefore(images: seq<ImageInput>, i: nat)
    requires i < |images|
  {
    exists j :: 0 <= j < i && images[j].data == images[i].data
  }

  /** The indices at which a data string occurs for the first time. */
  ghost function FirstIndices(images: seq<ImageInput>): (r: seq<nat>)
    ensures forall k :: 0 <= k < |r| ==> r[k] < |images| && !SeenBefore(images, r[k])
    ensures forall k, l :: 0 <= k < l < |r| ==> r[k] < r[l]
    ensures forall i :: 0 <= i < |images| && !SeenBefore(images, i) ==> i in r
  {
    if images == [] then [] else
      var n := |images| - 1;
      var r := FirstIndices(images[..n]);
      assert forall i :: 0 <= i < n ==> (SeenBefore(images, i) <==> SeenBefore(images[..n], i));
      r + if SeenBefore(images, n) then [] else [n]
  }

  /** The de-duplicated list: the first occurrence of each data string, in request order. */
  ghost function Kept(images: seq<ImageInput>): (r: seq<ImageInput>)
    ensures |r| == |FirstIndices(images)|
    ensures forall k :: 0 <= k < |r| ==> r[k] == images[FirstIndices(images)[k]]
  {
    var ix := FirstIndices(images);
    seq(|ix|, k requires 0 <= k < |ix| => images[ix[k]])
  }

  lemma KeptGrows(images: seq<ImageInput>, i: nat)
    requires i < |images|
    ensures Kept(images[..i + 1]) == Kept(images[..i]) + if SeenBefore(images, i) then [] else [images[i]]
  {
    assert images[..i + 1][..i] == images[..i];
    assert SeenBefore(images[..i + 1], i) <==> SeenBefore(images, i);
  }

  ghost function DataOf(images: seq<ImageInput>): set<string> {
    set img | img in images :: img.data
  }

  lemma DataGrows(images: seq<ImageInput>, i: nat)
    requires i < |images|
    ensures DataOf(images[..i + 1]) == DataOf(images[..i]) + {images[i].data}
    ensures images[i].data in DataOf(images[..i]) <==> SeenBefore(images, i)
  {
  }

  method Dedupe(images: seq<ImageInput>) returns (imagesToCreate: seq<ImageInput>)
    ensures imagesToCreate == Kept(images)
  {
    var createdImages: set<string> := {};
    imagesToCreate := [];
    for i := 0 to |images|
      invariant imagesToCreate == Kept(images[..i])
      invariant createdImages == DataOf(images[..i])
    {
      var img := images[i];
      KeptGrows(images, i);
      DataGrows(images, i);
      if img.data !in createdImages {
        createdImages := createdImages + {img.data};
        imagesToCreate := imagesToCreate + [img];
      }
    }
    assert images[..|images|] == images;
  }

  ghost predicate Keeps(kept: seq<ImageInput>, data: string) {
    exists k :: 0 <= k < |kept| && kept[k].data == data
  }

  /** Every data string of the request is kept exactly once. */
  lemma KeptOncePerData(images: seq<ImageInput>)
    ensures forall k, l :: 0 <= k < l < |Kept(images)| ==> Kept(images)[k].data != Kept(images)[l].data
    ensures forall i :: 0 <= i < |images| ==> Keeps(Kept(images), images[i].data)
  {
    var ix := FirstIndices(images);
    forall k, l | 0 <= k < l < |ix|
      ensures Kept(images)[k].data != Kept(images)[l].data
    {
      assert !SeenBefore(images, ix[l]);
    }
    forall i | 0 <= i < |images|
      ensures Keeps(Kept(images), images[i].data)
    {
      var f := FirstOccurrence(images, i);
      var k :| 0 <= k < |ix| && ix[k] == f;
      assert Kept(images)[k].data == images[i].data;
    }
  }

  lemma {:induction false} FirstOccurrence(images: seq<ImageInput>, i: nat) returns (f: nat)
    requires i < |images|
    ensures f <= i && images[f].data == images[i].data && !SeenBefore(images, f)
  {
    if j: nat :| j < i && images[j].data == images[i].data {
      f := FirstOccurrence(images, j);
    } else {
      f := i;
    }
  }

  /** The index of the first image marked primary. */
  function FirstPrimary(kept: seq<ImageInput>): (r: Option<nat>)
    ensures r.Some? ==>
      r.value < |kept| && kept[r.value].isPrimary && forall k :: 0 <= k < r.value ==> !kept[k].isPrimary
    ensures r.None? ==> forall k :: 0 <= k < |kept| ==> !kept[k].isPrimary
  {
    if kept == [] then None else
      var n := |kept| - 1;
      match FirstPrimary(kept[..n])
      case Some(k) => Some(k)
      case None => if kept[n].isPrimary then Some(n) else None
  }

  /** The number of leading images that are stored. */
  function StoredCount(sku: string, kept: seq<ImageInput>, imager: Imager): (m: nat)
    ensures m <= |kept|
    ensures forall k :: 0 <= k < m ==> imager(sku, k, kept[k]).Stored?
    ensures m < |kept| ==> !imager(sku, m, kept[m]).Stored?
  {
    if kept == [] then 0 else
      var n := |kept| - 1;
      var m := StoredCount(sku, kept[..n], imager);
      if m < n then m else if imager(sku, n, kept[n]).Stored? then n + 1 else n
  }
}
