/**
 * The texture atlas (src/gpu/texture/atlas.rs). A builder collects items
 * under string ids: an image file, an encoded image in memory, or raw
 * RGBA pixels. `build` loads every item, places each one with a rectangle
 * packer, sizes the atlas to the placed rectangles, copies every item's
 * pixels into one zeroed RGBA buffer and creates a sampled texture from it.
 *
 * The file system, image decoding and rect_packer are outside the model:
 * what they return is an input (`files`, `decode`, `positions`), and so is
 * the order in which the builder's HashMap is iterated (`ids`).
 */
module Atlas {
  import opened Wrappers
  import opened ShaderTypes
  import opened Layout
  import opened Geometry
  import opened TextureTypes
  import opened Textures

  /** The largest atlas side, and the packer's area. */
  const MAX_WIDTH_SIZE: int := 2048

  datatype ItemQueue =
    | File(path: Text)
    | Memory(bytes: seq<Byte>)
    | Raw(data: seq<Byte>, width: U32, height: U32)

  /**
   * `TextureAtlasBuilderError`. `PackFailed` is the source's InvalidData
   * carrying the message "Failed to pack texture with id: …";
   * `DataTooShort` is the slice panic of a blit from too little data.
   */
  datatype AtlasError =
    | EmptyAtlas
    | ExceedsMaxSize(width: int, height: int)
    | FileNotFound(file: Text)
    | InvalidData(what: Text)
    | PackFailed(id: Text)
    | DataTooShort(id: Text)
    | TextureCreationError(error: TextureError)

  /** What opening an image file gives: no such file, bytes that do not decode, or an image. */
  datatype FileLoad = NotFound | Undecodable | Loaded(image: Image)

  /** `Point2`: an i32 pair. */
  datatype Point2 = Point2(x: I32, y: I32)

  /** An item's RGBA bytes and its size in pixels. */
  datatype Pixels = Pixels(data: seq<Byte>, size: Point2)

  /** The top-left corner the packer chose for an item; the rectangle has the item's size. */
  datatype Pos = Pos(x: nat, y: nat)

  /** What the atlas records for an item: its place and its size. */
  datatype Coord = Coord(pos: Pos, size: Point2)

  datatype AtlasBuilder = AtlasBuilder(items: map<Text, ItemQueue>)

  datatype TextureAtlas = TextureAtlas(texture: Built, items: map<Text, Coord>)

  /**
   * `add_texture_file`, `add_texture_file_buf` and `add_texture_raw`: the
   * item is stored under its id, replacing an earlier item with that id.
   */
  function AddTexture(b: AtlasBuilder, id: Text, item: ItemQueue): (r: AtlasBuilder)
    ensures r.items.Keys == b.items.Keys + {id} && r.items[id] == item
    ensures forall k :: k in b.items && k != id ==> r.items[k] == b.items[k]
  {
    AtlasBuilder(b.items[id := item])
  }

  function ImagePixels(img: Image): Pixels
  {
    Pixels(img.rgba, Point2.Point2(ToI32(img.width), ToI32(img.height)))
  }

  /**
   * One item of the first loop of `build`: a missing file, an undecodable
   * image, or raw data whose length is not the u32 product w·h·4 fail.
   */
  function LoadItem(id: Text, item: ItemQueue, files: Text -> FileLoad, decode: seq<Byte> -> Option<Image>): (r: Result<Pixels, AtlasError>)
    ensures item.Raw? ==> (r.Ok? <==> |item.data| == Wrap32(item.width * item.height * 4))
    ensures item.Raw? && r.Err? ==> r.error == InvalidData(id)
    ensures item.File? && r.Err? ==> r.error in {FileNotFound(item.path), InvalidData(item.path)}
    ensures item.Memory? && r.Err? ==> r.error == InvalidData(id)
    ensures r.Ok? && item.Raw? ==> r.value.data == item.data
  {
    match item
    case File(path) =>
      (match files(path)
       case NotFound => Err(FileNotFound(path))
       case Undecodable => Err(InvalidData(path))
       case Loaded(img) => Ok(ImagePixels(img)))
    case Memory(bytes) =>
      (match decode(bytes)
       case None => Err(InvalidData(id))
       case Some(img) => Ok(ImagePixels(img)))
    case Raw(data, width, height) =>
      if |data| != Wrap32(width * height * 4) then Err(InvalidData(id))
      else Ok(Pixels(data, Point2.Point2(ToI32(width), ToI32(height))))
  }

  predicate AllKnown(items: map<Text, ItemQueue>, ids: seq<Text>)
  {
    forall i :: 0 <= i < |ids| ==> ids[i] in items
  }

  /** The first loop of `build` over the first n items in `ids` order: every item loaded, or the first failure. */
  function LoadAll(items: map<Text, ItemQueue>, ids: seq<Text>, n: nat, files: Text -> FileLoad, decode: seq<Byte> -> Option<Image>): (r: Result<seq<Pixels>, AtlasError>)
    requires AllKnown(items, ids) && n <= |ids|
    ensures r.Ok? ==> |r.value| == n
    decreases n
  {
    if n == 0 then Ok([])
    else
      var prev :- LoadAll(items, ids, n - 1, files, decode);
      var last :- LoadItem(ids[n - 1], items[ids[n - 1]], files, decode);
      Ok(prev + [last])
  }

  /**
   * Loading succeeds exactly when every item loads, and then holds each
   * item's pixels in order; otherwise it fails with the first failure.
   */
  lemma {:induction false} LoadAllSpec(items: map<Text, ItemQueue>, ids: seq<Text>, n: nat, files: Text -> FileLoad, decode: seq<Byte> -> Option<Image>)
    requires AllKnown(items, ids) && n <= |ids|
    ensures LoadAll(items, ids, n, files, decode).Ok? <==>
      forall k :: 0 <= k < n ==> LoadItem(ids[k], items[ids[k]], files, decode).Ok?
    ensures LoadAll(items, ids, n, files, decode).Ok? ==>
      forall k :: 0 <= k < n ==> LoadItem(ids[k], items[ids[k]], files, decode) == Ok(LoadAll(items, ids, n, files, decode).value[k])
    ensures LoadAll(items, ids, n, files, decode).Err? ==>
      exists k :: 0 <= k < n && LoadItem(ids[k], items[ids[k]], files, decode) == Err(LoadAll(items, ids, n, files, decode).error)
        && forall j :: 0 <= j < k ==> LoadItem(ids[j], items[ids[j]], files, decode).Ok?
    decreases n
  {
    if n > 0 {
      LoadAllSpec(items, ids, n - 1, files, decode);
    }
  }

  function Max(a: int, b: int): int
  {
    if a >= b then a else b
  }

  /** The placements of the second loop of `build` and the extent they span. */
  datatype Placement = Placement(w: int, h: int, at: seq<Pos>)

  /**
   * The second loop of `build` over the first n items: an item wider or
   * taller than 2048 fails, then the packer places it or fails; the
   * extent is the running maximum of the placed rectangles' right and
   * bottom edges.
   */
  function Place(px: seq<Pixels>, positions: seq<Option<Pos>>, ids: seq<Text>, n: nat): (r: Result<Placement, AtlasError>)
    requires n <= |px| == |positions| == |ids|
    ensures r.Ok? ==> |r.value.at| == n && r.value.w >= 0 && r.value.h >= 0
    decreases n
  {
    if n == 0 then Ok(Placement(0, 0, []))
    else
      var prev :- Place(px, positions, ids, n - 1);
      var size := px[n - 1].size;
      if size.x > MAX_WIDTH_SIZE || size.y > MAX_WIDTH_SIZE then Err(ExceedsMaxSize(size.x, size.y))
      else if positions[n - 1].None? then Err(PackFailed(ids[n - 1]))
      else
        var p := positions[n - 1].value;
        Ok(Placement(Max(prev.w, p.x + size.x), Max(prev.h, p.y + size.y), prev.at + [p]))
  }

  /**
   * A successful placement puts every item where the packer said, every
   * item is at most 2048 on a side, and the extent covers every placed
   * rectangle and is the edge of one of them (or 0).
   */
  lemma {:induction false} PlaceSpec(px: seq<Pixels>, positions: seq<Option<Pos>>, ids: seq<Text>, n: nat)
    requires n <= |px| == |positions| == |ids|
    requires Place(px, positions, ids, n).Ok?
    ensures var pl := Place(px, positions, ids, n).value;
      forall k :: 0 <= k < n ==>
        positions[k] == Some(pl.at[k]) && px[k].size.x <= MAX_WIDTH_SIZE && px[k].size.y <= MAX_WIDTH_SIZE
        && pl.at[k].x + px[k].size.x <= pl.w && pl.at[k].y + px[k].size.y <= pl.h
    ensures var pl := Place(px, positions, ids, n).value;
      (pl.w == 0 || exists k :: 0 <= k < n && pl.w == pl.at[k].x + px[k].size.x)
      && (pl.h == 0 || exists k :: 0 <= k < n && pl.h == pl.at[k].y + px[k].size.y)
    decreases n
  {
    if n > 0 {
      PlaceSpec(px, positions, ids, n - 1);
      var prev := Place(px, positions, ids, n - 1).value;
      var pl := Place(px, positions, ids, n).value;
      assert pl.at == prev.at + [positions[n - 1].value];
      if pl.w != 0 && pl.w != pl.at[n - 1].x + px[n - 1].size.x {
        var k :| 0 <= k < n - 1 && prev.w == prev.at[k].x + px[k].size.x;
        assert pl.w == pl.at[k].x + px[k].size.x;
      }
      if pl.h != 0 && pl.h != pl.at[n - 1].y + px[n - 1].size.y {
        var k :| 0 <= k < n - 1 && prev.h == prev.at[k].y + px[k].size.y;
        assert pl.h == pl.at[k].y + px[k].size.y;
      }
    }
  }

  /** An item's side as a loop count: `0..v` is empty when v is not positive. */
  function Clamp(v: int): (r: nat)
    ensures r <= v || v < 0
    ensures 0 < v ==> r == v
  {
    if v < 0 then 0 else v
  }

  /**
   * Byte `ch` of pixel (x, y) of a row-major RGBA image `w` pixels wide:
   * `dst_index` in the atlas and `src_index` in an item, plus the channel.
   */
  function ByteIndex(w: nat, x: nat, y: nat, ch: nat): nat
  {
    (y * w + x) * 4 + ch
  }

  /** The column, row and channel of byte k of such an image (column and row 0 when it has no width). */
  function PixelX(w: nat, k: nat): nat
  {
    if w == 0 then 0 else (k / 4) % w
  }

  function PixelY(w: nat, k: nat): nat
  {
    if w == 0 then 0 else (k / 4) / w
  }

  function Channel(k: nat): nat
  {
    k % 4
  }

  lemma MulLe(a: nat, b: nat, w: nat)
    requires a <= b
    ensures a * w <= b * w
  {
    assert b * w == a * w + (b - a) * w;
  }

  /** Quotient and remainder are the only ones: the step behind decoding a byte index. */
  lemma DivModUnique(n: nat, w: nat, q: nat, r: nat)
    requires r < w && n == q * w + r
    ensures n / w == q && n % w == r
  {
    var q', r' := n / w, n % w;
    if q' > q {
      MulLe(q + 1, q', w);
    } else if q' < q {
      MulLe(q' + 1, q, w);
    }
  }

  /** Decoding the index of a byte of pixel (x, y) gives back that pixel and channel. */
  lemma DecodeIndex(w: nat, x: nat, y: nat, ch: nat)
    requires x < w && ch < 4
    ensures PixelX(w, ByteIndex(w, x, y, ch)) == x && PixelY(w, ByteIndex(w, x, y, ch)) == y
    ensures Channel(ByteIndex(w, x, y, ch)) == ch
  {
    var n := y * w + x;
    assert ByteIndex(w, x, y, ch) / 4 == n;
    DivModUnique(n, w, y, x);
  }

  /** Every byte of an image with a width is a channel of the pixel its index decodes to. */
  lemma EncodeIndex(w: nat, k: nat)
    requires w > 0
    ensures PixelX(w, k) < w && Channel(k) < 4
    ensures ByteIndex(w, PixelX(w, k), PixelY(w, k), Channel(k)) == k
  {
  }

  lemma ScaleCommutes(w: int, h: int)
    ensures 4 * w * h == w * h * 4
  {
  }

  /** The bytes of the pixels of a w×h RGBA image lie within its w·h·4 bytes. */
  lemma IndexBound(w: nat, h: nat, x: nat, y: nat, ch: nat)
    requires x < w && y < h && ch < 4
    ensures ByteIndex(w, x, y, ch) < w * h * 4
  {
    MulLe(y + 1, h, w);
    assert (y + 1) * w == y * w + w;
    assert h * w * 4 == w * h * 4;
  }

  /** The item holds a byte for every pixel of its rectangle. */
  predicate HasAllPixels(px: Pixels)
  {
    Clamp(px.size.x) * Clamp(px.size.y) * 4 <= |px.data|
  }

  predicate AllPixelsPresent(pxs: seq<Pixels>, n: nat)
    requires n <= |pxs|
  {
    forall t :: 0 <= t < n ==> HasAllPixels(pxs[t])
  }

  /** Byte `ch` of pixel (i, j) of an item: the bytes the blit copies. */
  function ItemByte(px: Pixels, i: nat, j: nat, ch: nat): Byte
    requires HasAllPixels(px) && i < px.size.x && j < px.size.y && ch < 4
  {
    IndexBound(Clamp(px.size.x), Clamp(px.size.y), i, j, ch);
    px.data[ByteIndex(Clamp(px.size.x), i, j, ch)]
  }

  /** Pixel (x, y) lies in the rectangle of an item of the given size placed at p. */
  predicate Covers(p: Pos, size: Point2, x: nat, y: nat)
  {
    p.x <= x < p.x + size.x && p.y <= y < p.y + size.y
  }

  /**
   * Byte k of an atlas `w` pixels wide once the first n items have been
   * copied in: the last of them whose rectangle covers the byte's pixel
   * supplies it, and a pixel that none of them covers is still 0.
   */
  function AtlasByte(pxs: seq<Pixels>, at: seq<Pos>, w: nat, n: nat, k: nat): Byte
    requires n <= |pxs| == |at| && AllPixelsPresent(pxs, n)
    decreases n
  {
    if n == 0 then 0
    else
      var x, y := PixelX(w, k), PixelY(w, k);
      if Covers(at[n - 1], pxs[n - 1].size, x, y) then
        ItemByte(pxs[n - 1], x - at[n - 1].x, y - at[n - 1].y, Channel(k))
      else AtlasByte(pxs, at, w, n - 1, k)
  }

  /** The zeroed `w`×`h` buffer of `build` with every item copied in. */
  function AtlasBytes(pxs: seq<Pixels>, at: seq<Pos>, w: nat, h: nat): (r: seq<Byte>)
    requires |pxs| == |at| && AllPixelsPresent(pxs, |pxs|)
    ensures |r| == w * h * 4
  {
    seq(w * h * 4, k requires 0 <= k => AtlasByte(pxs, at, w, |pxs|, k))
  }

  /**
   * Pixel (i, j) of item t lands at pixel (at[t].x + i, at[t].y + j) of
   * the atlas, unless a later item's rectangle covers that pixel too.
   */
  lemma {:induction false} AtlasCopiesItem(pxs: seq<Pixels>, at: seq<Pos>, w: nat, n: nat, t: nat, i: nat, j: nat, ch: nat)
    requires n <= |pxs| == |at| && AllPixelsPresent(pxs, n)
    requires t < n && i < pxs[t].size.x && j < pxs[t].size.y && ch < 4 && at[t].x + i < w
    requires forall u :: t < u < n ==> !Covers(at[u], pxs[u].size, at[t].x + i, at[t].y + j)
    ensures AtlasByte(pxs, at, w, n, ByteIndex(w, at[t].x + i, at[t].y + j, ch)) == ItemByte(pxs[t], i, j, ch)
    decreases n
  {
    DecodeIndex(w, at[t].x + i, at[t].y + j, ch);
    if t < n - 1 {
      AtlasCopiesItem(pxs, at, w, n - 1, t, i, j, ch);
    }
  }

  /** A pixel that no item's rectangle covers stays 0 in every channel. */
  lemma {:induction false} AtlasOutsideIsZero(pxs: seq<Pixels>, at: seq<Pos>, w: nat, n: nat, x: nat, y: nat, ch: nat)
    requires n <= |pxs| == |at| && AllPixelsPresent(pxs, n)
    requires x < w && ch < 4
    requires forall u :: 0 <= u < n ==> !Covers(at[u], pxs[u].size, x, y)
    ensures AtlasByte(pxs, at, w, n, ByteIndex(w, x, y, ch)) == 0
    decreases n
  {
    if n > 0 {
      DecodeIndex(w, x, y, ch);
      AtlasOutsideIsZero(pxs, at, w, n - 1, x, y, ch);
    }
  }

  /**
   * Byte k while item t is copied: the rows of its rectangle before j and
   * the first i pixels of row j are done; everything else is as the first
   * t items left it.
   */
  function BlitByte(pxs: seq<Pixels>, at: seq<Pos>, w: nat, t: nat, j: nat, i: nat, k: nat): Byte
    requires t < |pxs| == |at| && AllPixelsPresent(pxs, t + 1)
    requires j <= Clamp(pxs[t].size.y) && i <= Clamp(pxs[t].size.x) && (i == 0 || j < pxs[t].size.y)
  {
    var x, y := PixelX(w, k), PixelY(w, k);
    var p := at[t];
    if p.x <= x < p.x + pxs[t].size.x && p.y <= y < p.y + j then ItemByte(pxs[t], x - p.x, y - p.y, Channel(k))
    else if p.x <= x < p.x + i && y == p.y + j then ItemByte(pxs[t], x - p.x, j, Channel(k))
    else AtlasByte(pxs, at, w, t, k)
  }

  /** Before item t is copied, the atlas is as the first t items left it. */
  lemma BlitStart(pxs: seq<Pixels>, at: seq<Pos>, w: nat, t: nat, k: nat)
    requires t < |pxs| == |at| && AllPixelsPresent(pxs, t + 1)
    ensures BlitByte(pxs, at, w, t, 0, 0, k) == AtlasByte(pxs, at, w, t, k)
  {
  }

  /** A finished row is the start of the next one. */
  lemma BlitNextRow(pxs: seq<Pixels>, at: seq<Pos>, w: nat, t: nat, j: nat, k: nat)
    requires t < |pxs| == |at| && AllPixelsPresent(pxs, t + 1)
    requires j < Clamp(pxs[t].size.y)
    ensures BlitByte(pxs, at, w, t, j, Clamp(pxs[t].size.x), k) == BlitByte(pxs, at, w, t, j + 1, 0, k)
  {
  }

  /** Once every row of item t is copied, the atlas is as the first t + 1 items leave it. */
  lemma BlitDone(pxs: seq<Pixels>, at: seq<Pos>, w: nat, t: nat, k: nat)
    requires t < |pxs| == |at| && AllPixelsPresent(pxs, t + 1)
    ensures BlitByte(pxs, at, w, t, Clamp(pxs[t].size.y), 0, k) == AtlasByte(pxs, at, w, t + 1, k)
  {
  }

  /**
   * Copying pixel (i, j) of item t: the four bytes at its `dst_index` take
   * the four bytes at its `src_index`, and no other byte changes.
   */
  lemma BlitPixel(pxs: seq<Pixels>, at: seq<Pos>, w: nat, t: nat, j: nat, i: nat, k: nat)
    requires t < |pxs| == |at| && AllPixelsPresent(pxs, t + 1)
    requires j < pxs[t].size.y && i < pxs[t].size.x && at[t].x + pxs[t].size.x <= w
    ensures var dst := ByteIndex(w, at[t].x + i, at[t].y + j, 0);
      BlitByte(pxs, at, w, t, j, i + 1, k) ==
        if dst <= k < dst + 4 then ItemByte(pxs[t], i, j, k - dst) else BlitByte(pxs, at, w, t, j, i, k)
  {
    var dst := ByteIndex(w, at[t].x + i, at[t].y + j, 0);
    EncodeIndex(w, k);
    if dst <= k < dst + 4 {
      DecodeIndex(w, at[t].x + i, at[t].y + j, k - dst);
    }
  }

  /** The first item, in copy order, that lacks a byte of its rectangle: the blit slices past its data there and panics. */
  function FirstShort(pxs: seq<Pixels>): (r: Option<nat>)
    ensures r.None? <==> AllPixelsPresent(pxs, |pxs|)
    ensures r.Some? ==> r.value < |pxs| && !HasAllPixels(pxs[r.value]) && AllPixelsPresent(pxs, r.value)
    decreases |pxs|
  {
    if |pxs| == 0 then None
    else
      var n := |pxs| - 1;
      assert forall t :: 0 <= t < n ==> pxs[..n][t] == pxs[t];
      match FirstShort(pxs[..n])
      case Some(t) => Some(t)
      case None => if HasAllPixels(pxs[n]) then None else Some(n)
  }

  /** The `items` map `build` fills while copying the first n items: each id's place and size. */
  function Coords(ids: seq<Text>, at: seq<Pos>, pxs: seq<Pixels>, n: nat): map<Text, Coord>
    requires n <= |ids| && n <= |at| && n <= |pxs|
    decreases n
  {
    if n == 0 then map[]
    else Coords(ids, at, pxs, n - 1)[ids[n - 1] := Coord(at[n - 1], pxs[n - 1].size)]
  }

  /** No id occurs twice: the ids of a map, in its iteration order. */
  predicate Distinct(ids: seq<Text>)
  {
    forall a, b :: 0 <= a < b < |ids| ==> ids[a] != ids[b]
  }

  /** The ids, all distinct, are exactly the builder's keys: the order in which its HashMap is iterated. */
  predicate IterationOrder(items: map<Text, ItemQueue>, ids: seq<Text>)
  {
    Distinct(ids) && AllKnown(items, ids) && forall id :: id in items ==> id in ids
  }

  /** Item t's id maps to item t's place and size. */
  lemma {:induction false} CoordsAt(ids: seq<Text>, at: seq<Pos>, pxs: seq<Pixels>, n: nat, t: nat)
    requires n <= |ids| && n <= |at| && n <= |pxs| && Distinct(ids) && t < n
    ensures ids[t] in Coords(ids, at, pxs, n) && Coords(ids, at, pxs, n)[ids[t]] == Coord(at[t], pxs[t].size)
    decreases n
  {
    if t < n - 1 {
      CoordsAt(ids, at, pxs, n - 1, t);
    }
  }

  /** Only the ids are keys. */
  lemma {:induction false} CoordsKeys(ids: seq<Text>, at: seq<Pos>, pxs: seq<Pixels>, n: nat, id: Text)
    requires n <= |ids| && n <= |at| && n <= |pxs| && id in Coords(ids, at, pxs, n)
    ensures id in ids
    decreases n
  {
    if id != ids[n - 1] {
      CoordsKeys(ids, at, pxs, n - 1, id);
    }
  }

  /** `get_id`: what the atlas recorded for the id, or None. */
  function GetId(a: TextureAtlas, id: Text): (r: Option<Coord>)
    ensures r.Some? <==> id in a.items
    ensures r.Some? ==> r.value == a.items[id]
  {
    if id in a.items then Some(a.items[id]) else None
  }

  function AtlasFormat(srgb: bool): TextureFormat
  {
    if srgb then Rgba8UnormSrgb else Rgba8Unorm
  }

  const SAMPLER := TextureUsage(true, false, false)

  /**
   * The builder chain of `build`: a new texture builder given the atlas
   * bytes as raw data of the atlas size, then Sampler usage. Neither step
   * can panic.
   */
  function AtlasTextureBuilder(data: seq<Byte>, w: I32, h: I32, srgb: bool): (r: Result<TextureBuilder, BuilderPanic>)
    ensures r.Ok? && r.value.usage == SAMPLER && r.value.data == BuilderData.Raw(Rect(0, 0, w, h), data, AtlasFormat(srgb))
  {
    var b0 := NewBuilder(true).value;
    WithUsage(WithRaw(b0, data, Rect(0, 0, w, h), AtlasFormat(srgb)).value, SAMPLER)
  }

  /**
   * `build` after loading and placing: an extent over 2048 fails; every
   * item is copied into a zeroed buffer of the extent; the texture is
   * created from the buffer, its failure mapped to TextureCreationError;
   * the atlas records each item's place and size.
   */
  function Assemble(pxs: seq<Pixels>, pl: Placement, ids: seq<Text>, srgb: bool): (r: Result<TextureAtlas, AtlasError>)
    requires |pxs| == |pl.at| == |ids| && pl.w >= 0 && pl.h >= 0
    ensures pl.w > MAX_WIDTH_SIZE || pl.h > MAX_WIDTH_SIZE ==> r == Err(ExceedsMaxSize(pl.w, pl.h))
    ensures r.Ok? ==> r.value.items == Coords(ids, pl.at, pxs, |ids|)
  {
    if pl.w > MAX_WIDTH_SIZE || pl.h > MAX_WIDTH_SIZE then Err(ExceedsMaxSize(pl.w, pl.h))
    else
      match FirstShort(pxs)
      case Some(t) => Err(DataTooShort(ids[t]))
      case None =>
        var data := AtlasBytes(pxs, pl.at, pl.w, pl.h);
        match BuildOutcome(AtlasTextureBuilder(data, pl.w, pl.h, srgb).value, true, None, None)
        case Err(e) => Err(TextureCreationError(e))
        case Ok(texture) => Ok(TextureAtlas(texture, Coords(ids, pl.at, pxs, |ids|)))
  }

  /** `build`: an empty builder fails; then every item is loaded and placed, and the atlas assembled. */
  function AtlasOutcome(b: AtlasBuilder, ids: seq<Text>, files: Text -> FileLoad, decode: seq<Byte> -> Option<Image>,
                        positions: seq<Option<Pos>>, srgb: bool): (r: Result<TextureAtlas, AtlasError>)
    requires AllKnown(b.items, ids) && |positions| == |ids|
    ensures |b.items| == 0 ==> r == Err(EmptyAtlas)
  {
    if |b.items| == 0 then Err(EmptyAtlas)
    else
      var pxs :- LoadAll(b.items, ids, |ids|, files, decode);
      var pl :- Place(pxs, positions, ids, |ids|);
      Assemble(pxs, pl, ids, srgb)
  }

  /** Once the first m items fail to load, the first n ≥ m fail the same way. */
  lemma {:induction false} LoadAllErrSticks(items: map<Text, ItemQueue>, ids: seq<Text>, m: nat, n: nat, files: Text -> FileLoad, decode: seq<Byte> -> Option<Image>)
    requires AllKnown(items, ids) && m <= n <= |ids|
    requires LoadAll(items, ids, m, files, decode).Err?
    ensures LoadAll(items, ids, n, files, decode) == LoadAll(items, ids, m, files, decode)
    decreases n
  {
    if m < n {
      LoadAllErrSticks(items, ids, m, n - 1, files, decode);
    }
  }

  /** Once the first m items fail to be placed, the first n ≥ m fail the same way. */
  lemma {:induction false} PlaceErrSticks(px: seq<Pixels>, positions: seq<Option<Pos>>, ids: seq<Text>, m: nat, n: nat)
    requires m <= n <= |px| == |positions| == |ids|
    requires Place(px, positions, ids, m).Err?
    ensures Place(px, positions, ids, n) == Place(px, positions, ids, m)
    decreases n
  {
    if m < n {
      PlaceErrSticks(px, positions, ids, m, n - 1);
    }
  }

  /**
   * An assembled atlas is a sampled texture of the extent, at most 2048
   * on a side, in the sRGB or linear RGBA8 format, whose texels are
   * exactly the buffer with every item copied in.
   */
  lemma AssembledHoldsBlit(pxs: seq<Pixels>, pl: Placement, ids: seq<Text>, srgb: bool)
    requires |pxs| == |pl.at| == |ids| && pl.w >= 0 && pl.h >= 0
    requires Assemble(pxs, pl, ids, srgb).Ok?
    ensures 0 < pl.w <= MAX_WIDTH_SIZE && 0 < pl.h <= MAX_WIDTH_SIZE && AllPixelsPresent(pxs, |pxs|)
    ensures Assemble(pxs, pl, ids, srgb).value.texture
      == Built(Rect(0, 0, pl.w, pl.h), AtlasFormat(srgb), SAMPLER, AtlasBytes(pxs, pl.at, pl.w, pl.h))
  {
    var data := AtlasBytes(pxs, pl.at, pl.w, pl.h);
    var size := Rect(0, 0, pl.w, pl.h);
    var tb := AtlasTextureBuilder(data, pl.w, pl.h, srgb).value;
    assert Positive(size);
    SpanIsProduct(4, pl.w);
    TexelBytesIsProduct(size, AtlasFormat(srgb));
    var fs := FormatSize(AtlasFormat(srgb));
    assert fs == 4;
    assert TexelBytes(size, AtlasFormat(srgb)) == fs * size.w * size.h;
    assert fs * size.w * size.h == 4 * pl.w * pl.h;
    ScaleCommutes(pl.w, pl.h);
    BuildRawStoresData(tb, None);
    assert data[..|data|] == data;
  }

  /**
   * `get_id` on an assembled atlas: an item's id gives the place the
   * packer chose for it and its size; any other id gives None.
   */
  lemma AssembledIds(pxs: seq<Pixels>, pl: Placement, ids: seq<Text>, srgb: bool, id: Text)
    requires |pxs| == |pl.at| == |ids| && pl.w >= 0 && pl.h >= 0 && Distinct(ids)
    requires Assemble(pxs, pl, ids, srgb).Ok?
    ensures id !in ids ==> GetId(Assemble(pxs, pl, ids, srgb).value, id) == None
    ensures forall t :: 0 <= t < |ids| && ids[t] == id ==>
      GetId(Assemble(pxs, pl, ids, srgb).value, id) == Some(Coord(pl.at[t], pxs[t].size))
  {
    var items := Assemble(pxs, pl, ids, srgb).value.items;
    assert items == Coords(ids, pl.at, pxs, |ids|);
    forall t | 0 <= t < |ids| && ids[t] == id
      ensures id in items && items[id] == Coord(pl.at[t], pxs[t].size)
    {
      CoordsAt(ids, pl.at, pxs, |ids|, t);
    }
    if id in items {
      CoordsKeys(ids, pl.at, pxs, |ids|, id);
    }
  }

  /**
   * The nested loops of `build` for item t: each pixel's four bytes are
   * copied from its `src_index` in the item to its `dst_index` in the
   * atlas, row by row.
   */
  method BlitItem(data: array<Byte>, pxs: seq<Pixels>, at: seq<Pos>, w: nat, h: nat, t: nat)
    requires t < |pxs| == |at| && AllPixelsPresent(pxs, t + 1)
    requires data.Length == w * h * 4
    requires at[t].x + pxs[t].size.x <= w && at[t].y + pxs[t].size.y <= h
    requires forall k :: 0 <= k < data.Length ==> data[k] == AtlasByte(pxs, at, w, t, k)
    modifies data
    ensures forall k :: 0 <= k < data.Length ==> data[k] == AtlasByte(pxs, at, w, t + 1, k)
  {
    var px, p := pxs[t], at[t];
    var cols, rows := Clamp(px.size.x), Clamp(px.size.y);
    forall k | 0 <= k < data.Length
      ensures data[k] == BlitByte(pxs, at, w, t, 0, 0, k)
    {
      BlitStart(pxs, at, w, t, k);
    }
    var j := 0;
    while j < rows
      invariant 0 <= j <= rows
      invariant forall k :: 0 <= k < data.Length ==> data[k] == BlitByte(pxs, at, w, t, j, 0, k)
    {
      var i := 0;
      while i < cols
        invariant 0 <= i <= cols
        invariant forall k :: 0 <= k < data.Length ==> data[k] == BlitByte(pxs, at, w, t, j, i, k)
      {
        var src := ByteIndex(cols, i, j, 0);
        var dst := ByteIndex(w, p.x + i, p.y + j, 0);
        IndexBound(cols, rows, i, j, 3);
        IndexBound(w, h, p.x + i, p.y + j, 3);
        forall c | 0 <= c < 4 {
          data[dst + c] := px.data[src + c];
        }
        forall k | 0 <= k < data.Length
          ensures data[k] == BlitByte(pxs, at, w, t, j, i + 1, k)
        {
          BlitPixel(pxs, at, w, t, j, i, k);
        }
        i := i + 1;
      }
      forall k | 0 <= k < data.Length
        ensures data[k] == BlitByte(pxs, at, w, t, j + 1, 0, k)
      {
        BlitNextRow(pxs, at, w, t, j, k);
      }
      j := j + 1;
    }
    forall k | 0 <= k < data.Length
      ensures data[k] == AtlasByte(pxs, at, w, t + 1, k)
    {
      BlitDone(pxs, at, w, t, k);
    }
  }

  /** The loading loop of `build`: every item loaded, in order, or the first failure. */
  method LoadItems(items: map<Text, ItemQueue>, ids: seq<Text>, files: Text -> FileLoad, decode: seq<Byte> -> Option<Image>)
    returns (r: Result<seq<Pixels>, AtlasError>)
    requires AllKnown(items, ids)
    ensures r == LoadAll(items, ids, |ids|, files, decode)
  {
    var pxs: seq<Pixels> := [];
    var t := 0;
    while t < |ids|
      invariant 0 <= t <= |ids|
      invariant LoadAll(items, ids, t, files, decode) == Ok(pxs)
    {
      var loaded := LoadItem(ids[t], items[ids[t]], files, decode);
      if loaded.Err? {
        LoadAllErrSticks(items, ids, t + 1, |ids|, files, decode);
        return Err(loaded.error);
      }
      pxs := pxs + [loaded.value];
      t := t + 1;
    }
    return Ok(pxs);
  }

  /**
   * The placing loop of `build`: each item's size is checked, the packer's
   * place taken, and the extent kept as the running maximum of the placed
   * rectangles' edges.
   */
  method PlaceItems(pxs: seq<Pixels>, positions: seq<Option<Pos>>, ids: seq<Text>) returns (r: Result<Placement, AtlasError>)
    requires |pxs| == |positions| == |ids|
    ensures r == Place(pxs, positions, ids, |pxs|)
  {
    var w, h, at := 0, 0, [];
    var t := 0;
    while t < |pxs|
      invariant 0 <= t <= |pxs|
      invariant Place(pxs, positions, ids, t) == Ok(Placement(w, h, at))
    {
      var size := pxs[t].size;
      if size.x > MAX_WIDTH_SIZE || size.y > MAX_WIDTH_SIZE {
        PlaceErrSticks(pxs, positions, ids, t + 1, |pxs|);
        return Err(ExceedsMaxSize(size.x, size.y));
      }
      if positions[t].None? {
        PlaceErrSticks(pxs, positions, ids, t + 1, |pxs|);
        return Err(PackFailed(ids[t]));
      }
      var p := positions[t].value;
      at := at + [p];
      w := Max(w, p.x + size.x);
      h := Max(h, p.y + size.y);
      t := t + 1;
    }
    return Ok(Placement(w, h, at));
  }

  /**
   * The copying loop of `build` over a zeroed buffer of the extent: each
   * item is copied in, unless it lacks pixels, and its place and size are
   * recorded.
   */
  method CopyItems(pxs: seq<Pixels>, pl: Placement, ids: seq<Text>) returns (r: Result<(seq<Byte>, map<Text, Coord>), AtlasError>)
    requires |pxs| == |pl.at| == |ids| && pl.w >= 0 && pl.h >= 0
    requires forall t :: 0 <= t < |pxs| ==> pl.at[t].x + pxs[t].size.x <= pl.w && pl.at[t].y + pxs[t].size.y <= pl.h
    ensures FirstShort(pxs).Some? ==> r == Err(DataTooShort(ids[FirstShort(pxs).value]))
    ensures FirstShort(pxs).None? ==> r == Ok((AtlasBytes(pxs, pl.at, pl.w, pl.h), Coords(ids, pl.at, pxs, |ids|)))
  {
    var w, h, at := pl.w, pl.h, pl.at;
    var data := new Byte[w * h * 4](_ => 0);
    var items: map<Text, Coord> := map[];
    var t := 0;
    while t < |ids|
      invariant 0 <= t <= |ids| && data.Length == w * h * 4
      invariant AllPixelsPresent(pxs, t)
      invariant forall k :: 0 <= k < data.Length ==> data[k] == AtlasByte(pxs, at, w, t, k)
      invariant items == Coords(ids, at, pxs, t)
    {
      if !HasAllPixels(pxs[t]) {
        return Err(DataTooShort(ids[t]));
      }
      BlitItem(data, pxs, at, w, h, t);
      items := items[ids[t] := Coord(at[t], pxs[t].size)];
      t := t + 1;
    }
    assert data[..] == AtlasBytes(pxs, at, w, h);
    return Ok((data[..], items));
  }

  /**
   * `TextureAtlasBuilder::build`: the loading loop, the placing loop, the
   * extent check, the copying loop, then the texture. It returns what
   * `AtlasOutcome` describes. The three loops iterate three different
   * HashMaps (the builder's items, the loaded images, the placements); each
   * is assumed to yield the ids in the one order `ids`.
   */
  method Build(b: AtlasBuilder, ids: seq<Text>, files: Text -> FileLoad, decode: seq<Byte> -> Option<Image>,
               positions: seq<Option<Pos>>, srgb: bool) returns (r: Result<TextureAtlas, AtlasError>)
    requires IterationOrder(b.items, ids) && |positions| == |ids|
    ensures r == AtlasOutcome(b, ids, files, decode, positions, srgb)
  {
    if |b.items| == 0 {
      return Err(EmptyAtlas);
    }
    var pxs :- LoadItems(b.items, ids, files, decode);
    var pl :- PlaceItems(pxs, positions, ids);
    if pl.w > MAX_WIDTH_SIZE || pl.h > MAX_WIDTH_SIZE {
      return Err(ExceedsMaxSize(pl.w, pl.h));
    }
    PlaceSpec(pxs, positions, ids, |pxs|);
    var copied :- CopyItems(pxs, pl, ids);
    var (data, items) := copied;
    var tb := AtlasTextureBuilder(data, pl.w, pl.h, srgb).value;
    var texture := BuildOutcome(tb, true, None, None);
    if texture.Err? {
      return Err(TextureCreationError(texture.error));
    }
    return Ok(TextureAtlas(texture.value, items));
  }
}
