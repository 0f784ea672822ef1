/**
 * Fonts and the font manager (src/font/mod.rs): the atlas-size rounding,
 * the grey-to-RGBA expansion of the glyph atlas and of baked text, glyph
 * lookup, the `eFONT` cache file written by `save_font_cache` and read by
 * `new_cached`, and the manager's cache of loaded fonts.
 *
 * f32 values travel through the cache file as their 32-bit patterns
 * (`write_f32` and `read_f32` copy the bits), so they are kept here as
 * those patterns. Rasterisation, zlib, the file system and the hash of the
 * cache key are outside the model: they are parameters.
 */
module Fonts {
  import opened Wrappers
  import opened ShaderTypes
  import opened Handles
  import BinaryShader
  import Wgpu

  /** The bit pattern of an f32. */
  type F32 = U32

  const TWO_32: int := 0x1_0000_0000

  /** `FONT_CACHE_MAGIC`, the ASCII bytes of `eFONT`. */
  const FONT_CACHE_MAGIC: seq<Byte> := [0x65, 0x46, 0x4F, 0x4E, 0x54]

  /** The largest atlas side a cache file may announce. */
  const MAX_ATLAS_SIZE: nat := 2048

  /** The u32 words of a glyph record: the codepoint and thirteen f32s. */
  const GLYPH_WORDS: nat := 14

  /** The f32 line metrics closing the payload. */
  const METRIC_WORDS: nat := 4

  const NEWLINE: U32 := 0x0A
  const SPACE: U32 := 0x20

  /** A font's name, file and style bits (BOLD = 1, ITALIC = 2). */
  datatype FontInfo = FontInfo(name: Text, path: Text, style: Byte)

  datatype Glyph = Glyph(
    codepoint: U32,
    advance: F32,
    startX: F32, startY: F32,
    endX: F32, endY: F32,
    width: F32, height: F32,
    bearingX: F32, bearingY: F32,
    advanceX: F32, advanceY: F32,
    ascender: F32, descender: F32)

  /** `FontInner`: the glyphs by codepoint, the grey atlas and the line metrics. */
  datatype FontData = FontData(
    info: FontInfo,
    glyphs: map<U32, Glyph>,
    texture: seq<Byte>,
    width: U32,
    height: U32,
    ascender: F32,
    descender: F32,
    lineHeight: F32,
    spaceWidth: F32)

  datatype FontError = GlyphNotFound(codepoint: U32) | NoGlyphsFound

  /** The `std::io::Error` kinds `new_cached` returns. */
  datatype CacheError =
    | ReadFailed        // the file could not be read
    | UnexpectedEof     // a read ran past the end of the data
    | InvalidData       // wrong magic, bad UTF-8, unknown style bits or an oversized atlas
    | DecompressFailed  // the zlib stream is corrupt

  datatype BakeFormat = GrayScale | Rgba

  // ---------------------------------------------------------------------
  // power_of_two
  // ---------------------------------------------------------------------

  predicate IsPowerOfTwo(x: nat)
    decreases x
  {
    x == 1 || (x >= 2 && x % 2 == 0 && IsPowerOfTwo(x / 2))
  }

  /** `power_of_two`: doubles from 1 until it reaches n, giving the least power of two not below n. */
  method PowerOfTwo(n: nat) returns (power: nat)
    ensures IsPowerOfTwo(power) && n <= power
    ensures power == 1 || power / 2 < n
  {
    power := 1;
    while power < n
      invariant IsPowerOfTwo(power)
      invariant power == 1 || power / 2 < n
      decreases n - power
    {
      assert (power * 2) / 2 == power;
      power := power * 2;
    }
  }

  /** Two powers of two below one another differ by a factor of two at least. */
  lemma {:induction false} PowerBelowIsHalf(p: nat, q: nat)
    requires IsPowerOfTwo(p) && IsPowerOfTwo(q) && q < p
    ensures q <= p / 2
    decreases p
  {
    if q >= 2 {
      PowerBelowIsHalf(p / 2, q / 2);
    }
  }

  /**
   * What `PowerOfTwo` returns is the least power of two not below n: any
   * power of two q at least n is at least it.
   */
  lemma LeastPowerOfTwo(n: nat, p: nat, q: nat)
    requires IsPowerOfTwo(p) && (p == 1 || p / 2 < n)
    requires IsPowerOfTwo(q) && n <= q
    ensures p <= q
  {
    if q < p {
      PowerBelowIsHalf(p, q);
    }
  }

  // ---------------------------------------------------------------------
  // Grey to RGBA
  // ---------------------------------------------------------------------

  /** The RGBA pixel of a grey value: grey in R, G and B, opaque unless the grey is 0. */
  function Texel(grey: Byte): (r: seq<Byte>)
    ensures |r| == 4 && r[0] == grey && r[1] == grey && r[2] == grey
    ensures r[3] == (if grey == 0 then 0 else 255)
  {
    [grey, grey, grey, if grey == 0 then 0 else 255]
  }

  /** The RGBA bytes of the first n grey values. */
  function RgbaOf(grey: seq<Byte>, n: nat): (r: seq<Byte>)
    requires n <= |grey|
    ensures |r| == 4 * n
  {
    if n == 0 then [] else RgbaOf(grey, n - 1) + Texel(grey[n - 1])
  }

  /** The i-th RGBA pixel of a byte string. */
  function PixelAt(rgba: seq<Byte>, i: nat): seq<Byte>
    requires 4 * i + 4 <= |rgba|
  {
    rgba[4 * i..4 * i + 4]
  }

  lemma {:induction false} RgbaPixels(grey: seq<Byte>, n: nat)
    requires n <= |grey|
    ensures forall i :: 0 <= i < n ==> PixelAt(RgbaOf(grey, n), i) == Texel(grey[i])
  {
    if n > 0 {
      RgbaPixels(grey, n - 1);
      var prev := RgbaOf(grey, n - 1);
      var r := RgbaOf(grey, n);
      forall i | 0 <= i < n
        ensures PixelAt(r, i) == Texel(grey[i])
      {
        if i < n - 1 {
          assert PixelAt(r, i) == PixelAt(prev, i);
        } else {
          assert PixelAt(r, i) == r[4 * (n - 1)..];
        }
      }
    }
  }

  /** The grey values back from RGBA pixels: each pixel's R. */
  function GreyOf(rgba: seq<Byte>): (r: seq<Byte>)
    ensures |r| == |rgba| / 4
  {
    seq(|rgba| / 4, i requires 0 <= i < |rgba| / 4 => rgba[4 * i])
  }

  /** The expansion loses nothing: the grey values are read back from it, and a pixel is transparent exactly where the grey is 0. */
  lemma RgbaRoundTrip(grey: seq<Byte>)
    ensures GreyOf(RgbaOf(grey, |grey|)) == grey
    ensures forall i :: 0 <= i < |grey| ==> (PixelAt(RgbaOf(grey, |grey|), i)[3] == 0 <==> grey[i] == 0)
  {
    var r := RgbaOf(grey, |grey|);
    RgbaPixels(grey, |grey|);
    assert |r| / 4 == |grey|;
    forall i | 0 <= i < |grey|
      ensures GreyOf(r)[i] == grey[i]
    {
      assert GreyOf(r)[i] == r[4 * i];
      assert PixelAt(r, i)[0] == r[4 * i];
      assert PixelAt(r, i) == Texel(grey[i]);
    }
  }

  /** The push loop of `create_texture_inner` and of `create_baked_text_raw`'s RGBA format. */
  method ExpandToRgba(grey: seq<Byte>) returns (rgba: seq<Byte>)
    ensures rgba == RgbaOf(grey, |grey|) && |rgba| == 4 * |grey|
    ensures forall i :: 0 <= i < |grey| ==> PixelAt(rgba, i) == Texel(grey[i])
  {
    rgba := [];
    for i := 0 to |grey|
      invariant rgba == RgbaOf(grey, i)
    {
      var pixel := grey[i];
      var alpha: Byte := if pixel == 0 then 0 else 255;
      rgba := rgba + [pixel, pixel, pixel, alpha];
    }
    RgbaPixels(grey, |grey|);
  }

  // ---------------------------------------------------------------------
  // Glyph lookup, the atlas texture and baked text
  // ---------------------------------------------------------------------

  /** `get_glyph`: the stored glyph, or GlyphNotFound with the codepoint. */
  function GetGlyph(f: FontData, codepoint: U32): (r: Result<Glyph, FontError>)
    ensures r.Ok? <==> codepoint in f.glyphs
    ensures r.Ok? ==> r.value == f.glyphs[codepoint]
    ensures r.Err? ==> r.error == GlyphNotFound(codepoint)
  {
    if codepoint in f.glyphs then Ok(f.glyphs[codepoint]) else Err(GlyphNotFound(codepoint))
  }

  /** The atlas format: BGRA, sRGB when the surface is. */
  function AtlasFormat(srgb: bool): (r: Wgpu.TextureFormat)
    ensures Wgpu.IsSrgb(r) <==> srgb
  {
    if srgb then Wgpu.Bgra8UnormSrgb else Wgpu.Bgra8Unorm
  }

  /** The image `create_texture_inner` uploads: the RGBA atlas, its size and format. */
  method AtlasImage(f: FontData, srgb: bool) returns (rgba: seq<Byte>, width: U32, height: U32, format: Wgpu.TextureFormat)
    ensures |rgba| == 4 * |f.texture| && GreyOf(rgba) == f.texture
    ensures forall i :: 0 <= i < |f.texture| ==> PixelAt(rgba, i) == Texel(f.texture[i])
    ensures width == f.width && height == f.height && format == AtlasFormat(srgb)
  {
    rgba := ExpandToRgba(f.texture);
    RgbaRoundTrip(f.texture);
    width, height := f.width, f.height;
    format := AtlasFormat(srgb);
  }

  /** The character places a glyph in baked text: not a newline, not a space, and in the font. */
  predicate Drawn(f: FontData, c: U32)
  {
    c != NEWLINE && c != SPACE && c in f.glyphs
  }

  /**
   * `create_baked_text_raw`: Err when no character of the text is a
   * glyph of the font; otherwise the composed grey image (`composed`, the
   * float layout pass) as it is, or expanded to RGBA.
   */
  method CreateBakedTextRaw(f: FontData, text: seq<U32>, format: BakeFormat, composed: (seq<Byte>, nat, nat))
    returns (r: Result<(seq<Byte>, nat, nat), FontError>)
    ensures r.Err? <==> forall k :: 0 <= k < |text| ==> !Drawn(f, text[k])
    ensures r.Err? ==> r.error == NoGlyphsFound
    ensures r.Ok? && format == GrayScale ==> r.value == composed
    ensures r.Ok? && format == Rgba ==> r.value == (RgbaOf(composed.0, |composed.0|), composed.1, composed.2)
  {
    var found := false;
    for k := 0 to |text|
      invariant found <==> exists j :: 0 <= j < k && Drawn(f, text[j])
    {
      var c := text[k];
      if c == NEWLINE || c == SPACE {
        continue;
      }
      if c in f.glyphs {
        found := true;
      }
    }
    if !found {
      return Err(NoGlyphsFound);
    }
    if format == GrayScale {
      return Ok(composed);
    }
    var rgba := ExpandToRgba(composed.0);
    return Ok((rgba, composed.1, composed.2));
  }

  // ---------------------------------------------------------------------
  // The cache file
  // ---------------------------------------------------------------------

  function EncU32(x: U32): (r: seq<Byte>)
    ensures |r| == 4
  {
    BinaryShader.EncU32(x)
  }

  /** A length written `as u32`: wraps modulo 2^32. */
  function LenU32(n: nat): U32
  {
    n % TWO_32
  }

  function ReadU32(s: seq<Byte>): (r: Result<(U32, seq<Byte>), CacheError>)
    ensures r.Ok? <==> |s| >= 4
    ensures r.Ok? ==> |r.value.1| == |s| - 4
  {
    match BinaryShader.ReadU32(s)
    case Ok(v) => Ok(v)
    case Err(_) => Err(UnexpectedEof)
  }

  /** `read_exact` into a buffer of `len` bytes. */
  function ReadBytes(s: seq<Byte>, len: nat): (r: Result<(seq<Byte>, seq<Byte>), CacheError>)
    ensures r.Ok? <==> len <= |s|
    ensures r.Ok? ==> r.value.0 + r.value.1 == s && |r.value.0| == len
  {
    if len <= |s| then
      assert s[..len] + s[len..] == s;
      Ok((s[..len], s[len..]))
    else Err(UnexpectedEof)
  }

  lemma ReadU32Enc(x: U32, rest: seq<Byte>)
    ensures ReadU32(EncU32(x) + rest) == Ok((x, rest))
  {
    BinaryShader.ReadU32Enc(x, rest);
  }

  lemma ReadBytesEnc(t: seq<Byte>, rest: seq<Byte>)
    ensures ReadBytes(t + rest, |t|) == Ok((t, rest))
  {
    assert (t + rest)[..|t|] == t;
    assert (t + rest)[|t|..] == rest;
  }

  lemma Regroup(a: seq<Byte>, b: seq<Byte>, c: seq<Byte>, d: seq<Byte>, e: seq<Byte>, rest: seq<Byte>)
    ensures a + (b + c + (d + e)) + rest == a + (b + (c + (d + (e + rest))))
  {
  }

  /** A run of little-endian u32 words. */
  function EncWords(ws: seq<U32>): (r: seq<Byte>)
    ensures |r| == 4 * |ws|
  {
    if ws == [] then [] else EncU32(ws[0]) + EncWords(ws[1..])
  }

  /** n consecutive u32 reads. */
  function ReadWords(s: seq<Byte>, n: nat): (r: Result<(seq<U32>, seq<Byte>), CacheError>)
    ensures r.Ok? <==> 4 * n <= |s|
    ensures r.Ok? ==> |r.value.0| == n && |r.value.1| == |s| - 4 * n
  {
    if n == 0 then Ok(([], s))
    else
      match ReadU32(s)
      case Err(e) => Err(e)
      case Ok(w) =>
        match ReadWords(w.1, n - 1)
        case Err(e) => Err(e)
        case Ok(more) => Ok(([w.0] + more.0, more.1))
  }

  lemma {:induction false} ReadWordsEnc(ws: seq<U32>, rest: seq<Byte>)
    ensures ReadWords(EncWords(ws) + rest, |ws|) == Ok((ws, rest))
  {
    if ws != [] {
      assert EncWords(ws) == EncU32(ws[0]) + EncWords(ws[1..]);
      assert EncWords(ws) + rest == EncU32(ws[0]) + (EncWords(ws[1..]) + rest);
      ReadU32Enc(ws[0], EncWords(ws[1..]) + rest);
      ReadWordsEnc(ws[1..], rest);
      assert [ws[0]] + ws[1..] == ws;
    } else {
      assert EncWords(ws) + rest == rest;
    }
  }

  /** The 14 words of a glyph record, in the order `save_font_cache` writes them. */
  function GlyphWords(g: Glyph): (r: seq<U32>)
    ensures |r| == GLYPH_WORDS
  {
    [g.codepoint, g.advance, g.startX, g.startY, g.endX, g.endY, g.width, g.height,
     g.bearingX, g.bearingY, g.advanceX, g.advanceY, g.ascender, g.descender]
  }

  /** The glyph `new_cached` builds from a record, in its read order. */
  function GlyphOf(ws: seq<U32>): (g: Glyph)
    requires |ws| == GLYPH_WORDS
    ensures g.codepoint == ws[0]
  {
    Glyph(ws[0], ws[1], ws[2], ws[3], ws[4], ws[5], ws[6], ws[7], ws[8], ws[9], ws[10], ws[11], ws[12], ws[13])
  }

  lemma GlyphRecordRoundTrip(g: Glyph)
    ensures GlyphOf(GlyphWords(g)) == g
  {
  }

  /** The glyph records for the keys in `order` (the map's iteration order). */
  function EncGlyphs(order: seq<U32>, glyphs: map<U32, Glyph>): (r: seq<Byte>)
    requires forall k :: k in order ==> k in glyphs
    ensures |r| == 56 * |order|
  {
    if order == [] then [] else EncWords(GlyphWords(glyphs[order[0]])) + EncGlyphs(order[1..], glyphs)
  }

  /** n glyph records, each inserted into `acc` under its codepoint (a later record replaces an earlier one). */
  function ReadGlyphs(s: seq<Byte>, n: nat, acc: map<U32, Glyph>): (r: Result<(map<U32, Glyph>, seq<Byte>), CacheError>)
    ensures r.Ok? <==> 56 * n <= |s|
    decreases n
  {
    if n == 0 then Ok((acc, s))
    else
      match ReadWords(s, GLYPH_WORDS)
      case Err(e) => Err(e)
      case Ok(rec) =>
        var g := GlyphOf(rec.0);
        ReadGlyphs(rec.1, n - 1, acc[g.codepoint := g])
  }

  /** The map after inserting the glyphs of `order`, in order, into `acc`. */
  function InsertAll(acc: map<U32, Glyph>, order: seq<U32>, glyphs: map<U32, Glyph>): map<U32, Glyph>
    requires forall k :: k in order ==> k in glyphs
    decreases |order|
  {
    if order == [] then acc
    else InsertAll(acc[glyphs[order[0]].codepoint := glyphs[order[0]]], order[1..], glyphs)
  }

  lemma {:induction false} ReadGlyphsEnc(order: seq<U32>, glyphs: map<U32, Glyph>, acc: map<U32, Glyph>, rest: seq<Byte>)
    requires forall k :: k in order ==> k in glyphs
    ensures ReadGlyphs(EncGlyphs(order, glyphs) + rest, |order|, acc) == Ok((InsertAll(acc, order, glyphs), rest))
  {
    if order != [] {
      var g := glyphs[order[0]];
      var tail := EncGlyphs(order[1..], glyphs) + rest;
      assert EncGlyphs(order, glyphs) + rest == EncWords(GlyphWords(g)) + tail;
      ReadWordsEnc(GlyphWords(g), tail);
      GlyphRecordRoundTrip(g);
      ReadGlyphsEnc(order[1..], glyphs, acc[g.codepoint := g], rest);
    } else {
      assert EncGlyphs(order, glyphs) + rest == rest;
    }
  }

  /** Every glyph is stored under its own codepoint. */
  predicate KeyedByCodepoint(glyphs: map<U32, Glyph>)
  {
    forall k :: k in glyphs ==> glyphs[k].codepoint == k
  }

  /**
   * Inserting glyphs keyed by their codepoints adds exactly their keys,
   * each with its own glyph, and keeps the rest of `acc`.
   */
  lemma {:induction false} InsertAllContents(acc: map<U32, Glyph>, order: seq<U32>, glyphs: map<U32, Glyph>)
    requires KeyedByCodepoint(glyphs) && forall k :: k in order ==> k in glyphs
    ensures InsertAll(acc, order, glyphs).Keys == acc.Keys + (set k | k in order)
    ensures forall k :: k in order ==> k in InsertAll(acc, order, glyphs) && InsertAll(acc, order, glyphs)[k] == glyphs[k]
    ensures forall k :: k in acc && k !in order ==> k in InsertAll(acc, order, glyphs) && InsertAll(acc, order, glyphs)[k] == acc[k]
    decreases |order|
  {
    if order != [] {
      var k0 := order[0];
      assert glyphs[k0].codepoint == k0;
      InsertAllContents(acc[k0 := glyphs[k0]], order[1..], glyphs);
      assert InsertAll(acc, order, glyphs) == InsertAll(acc[k0 := glyphs[k0]], order[1..], glyphs);
      assert forall k :: k in order ==> k == k0 || k in order[1..];
      assert forall k :: k in order[1..] ==> k in order;
    }
  }

  /** A font `save_font_cache` can write and `new_cached` reads back. */
  predicate WellFormedFont(f: FontData)
  {
    BinaryShader.ValidUtf8(f.info.name) && |f.info.name| < TWO_32 && f.info.style < 4 &&
    KeyedByCodepoint(f.glyphs) &&
    f.width <= MAX_ATLAS_SIZE && f.height <= MAX_ATLAS_SIZE && |f.texture| == f.width * f.height
  }

  /** `order` lists every glyph key once: one iteration order of the map. */
  predicate IterationOrder(order: seq<U32>, glyphs: map<U32, Glyph>)
  {
    (forall k :: k in order ==> k in glyphs) && (forall k :: k in glyphs ==> k in order) &&
    (forall i, j :: 0 <= i < j < |order| ==> order[i] != order[j])
  }

  /** The name section: its length, its bytes and the style byte. */
  function EncHeader(info: FontInfo): seq<Byte>
  {
    EncU32(LenU32(|info.name|)) + info.name + [info.style]
  }

  /** The atlas section: width, height and the grey bytes. */
  function EncAtlas(f: FontData): seq<Byte>
  {
    EncU32(f.width) + EncU32(f.height) + f.texture
  }

  /** The four line metrics. */
  function MetricWords(f: FontData): (r: seq<U32>)
    ensures |r| == METRIC_WORDS
  {
    [f.ascender, f.descender, f.lineHeight, f.spaceWidth]
  }

  /** The uncompressed payload `save_font_cache` builds, with the glyphs in `order`. */
  function EncPayload(f: FontData, order: seq<U32>): seq<Byte>
    requires IterationOrder(order, f.glyphs)
  {
    EncHeader(f.info) + (EncU32(LenU32(|order|)) + EncGlyphs(order, f.glyphs) + (EncAtlas(f) + EncWords(MetricWords(f))))
  }

  /** The whole file: magic, the compressed and uncompressed sizes, the compressed payload. */
  function SaveCache(f: FontData, order: seq<U32>, compress: seq<Byte> -> seq<Byte>): (r: seq<Byte>)
    requires IterationOrder(order, f.glyphs)
    ensures |r| >= 5 && r[..5] == FONT_CACHE_MAGIC
  {
    var payload := EncPayload(f, order);
    var packed := compress(payload);
    FONT_CACHE_MAGIC + (EncU32(LenU32(|packed|)) + EncU32(LenU32(|payload|)) + packed)
  }

  /** The name and style: the name must be UTF-8, the style only BOLD and ITALIC bits. */
  function ReadHeader(s: seq<Byte>, path: Text): (r: Result<(FontInfo, seq<Byte>), CacheError>)
    ensures r.Ok? ==> BinaryShader.ValidUtf8(r.value.0.name) && r.value.0.style < 4 && r.value.0.path == path
  {
    match ReadU32(s)
    case Err(e) => Err(e)
    case Ok(len) =>
      match ReadBytes(len.1, len.0)
      case Err(e) => Err(e)
      case Ok(name) =>
        if !BinaryShader.ValidUtf8(name.0) then Err(InvalidData)
        else if |name.1| == 0 then Err(UnexpectedEof)
        else if name.1[0] >= 4 then Err(InvalidData)
        else Ok((FontInfo(name.0, path, name.1[0]), name.1[1..]))
  }

  /** The atlas: width and height, each at most 2048, then width·height bytes. */
  function ReadAtlas(s: seq<Byte>): (r: Result<((U32, U32, seq<Byte>), seq<Byte>), CacheError>)
    ensures r.Ok? ==> r.value.0.0 <= MAX_ATLAS_SIZE && r.value.0.1 <= MAX_ATLAS_SIZE
    ensures r.Ok? ==> |r.value.0.2| == r.value.0.0 * r.value.0.1
  {
    match ReadU32(s)
    case Err(e) => Err(e)
    case Ok(w) =>
      match ReadU32(w.1)
      case Err(e) => Err(e)
      case Ok(h) =>
        if w.0 > MAX_ATLAS_SIZE || h.0 > MAX_ATLAS_SIZE then Err(InvalidData)
        else
          match ReadBytes(h.1, w.0 * h.0)
          case Err(e) => Err(e)
          case Ok(tex) => Ok(((w.0, h.0, tex.0), tex.1))
  }

  /** After the glyphs: the atlas and the four line metrics. */
  function ReadTail(s: seq<Byte>, info: FontInfo, glyphs: map<U32, Glyph>): (r: Result<FontData, CacheError>)
    ensures r.Ok? ==> r.value.info == info && r.value.glyphs == glyphs
  {
    match ReadAtlas(s)
    case Err(e) => Err(e)
    case Ok(atlas) =>
      match ReadWords(atlas.1, METRIC_WORDS)
      case Err(e) => Err(e)
      case Ok(m) => Ok(FontData(info, glyphs, atlas.0.2, atlas.0.0, atlas.0.1, m.0[0], m.0[1], m.0[2], m.0[3]))
  }

  /** After the name section: the glyph count, the glyph records, then the rest. */
  function ReadBody(s: seq<Byte>, info: FontInfo): (r: Result<FontData, CacheError>)
    ensures r.Ok? ==> r.value.info == info
  {
    match ReadU32(s)
    case Err(e) => Err(e)
    case Ok(count) =>
      match ReadGlyphs(count.1, count.0, map[])
      case Err(e) => Err(e)
      case Ok(glyphs) => ReadTail(glyphs.1, info, glyphs.0)
  }

  /** The payload, read front to back; bytes after the metrics are ignored. */
  function ReadPayload(s: seq<Byte>, path: Text): (r: Result<FontData, CacheError>)
    ensures r.Ok? ==> r.value.width <= MAX_ATLAS_SIZE && r.value.height <= MAX_ATLAS_SIZE
    ensures r.Ok? ==> |r.value.texture| == r.value.width * r.value.height && r.value.info.path == path
  {
    match ReadHeader(s, path)
    case Err(e) => Err(e)
    case Ok(header) => ReadBody(header.1, header.0)
  }

  /** `new_cached` on the file's bytes: magic, sizes, the compressed bytes, then the payload. */
  function LoadCache(file: seq<Byte>, path: Text, decompress: seq<Byte> -> Option<seq<Byte>>): (r: Result<FontData, CacheError>)
    ensures |file| < 5 ==> r == Err(UnexpectedEof)
    ensures |file| >= 5 && file[..5] != FONT_CACHE_MAGIC ==> r == Err(InvalidData)
  {
    if |file| < 5 then Err(UnexpectedEof)
    else if file[..5] != FONT_CACHE_MAGIC then Err(InvalidData)
    else
      match ReadU32(file[5..])
      case Err(e) => Err(e)
      case Ok(packedSize) =>
        match ReadU32(packedSize.1)
        case Err(e) => Err(e)
        case Ok(payloadSize) =>
          match ReadBytes(payloadSize.1, packedSize.0)
          case Err(e) => Err(e)
          case Ok(packed) =>
            match decompress(packed.0)
            case None => Err(DecompressFailed)
            case Some(payload) => ReadPayload(payload, path)
  }

  lemma ReadHeaderEnc(info: FontInfo, path: Text, rest: seq<Byte>)
    requires BinaryShader.ValidUtf8(info.name) && |info.name| < TWO_32 && info.style < 4
    ensures ReadHeader(EncHeader(info) + rest, path) == Ok((info.(path := path), rest))
  {
    var tail := [info.style] + rest;
    assert EncHeader(info) + rest == EncU32(|info.name|) + (info.name + tail);
    ReadU32Enc(|info.name|, info.name + tail);
    ReadBytesEnc(info.name, tail);
    assert tail[1..] == rest;
  }

  lemma ReadAtlasEnc(f: FontData, rest: seq<Byte>)
    requires f.width <= MAX_ATLAS_SIZE && f.height <= MAX_ATLAS_SIZE && |f.texture| == f.width * f.height
    ensures ReadAtlas(EncAtlas(f) + rest) == Ok(((f.width, f.height, f.texture), rest))
  {
    assert EncAtlas(f) + rest == EncU32(f.width) + (EncU32(f.height) + (f.texture + rest));
    ReadU32Enc(f.width, EncU32(f.height) + (f.texture + rest));
    ReadU32Enc(f.height, f.texture + rest);
    ReadBytesEnc(f.texture, rest);
  }

  lemma ReadTailEnc(f: FontData, info: FontInfo, glyphs: map<U32, Glyph>, rest: seq<Byte>)
    requires f.width <= MAX_ATLAS_SIZE && f.height <= MAX_ATLAS_SIZE && |f.texture| == f.width * f.height
    ensures ReadTail(EncAtlas(f) + (EncWords(MetricWords(f)) + rest), info, glyphs) == Ok(f.(info := info, glyphs := glyphs))
  {
    ReadAtlasEnc(f, EncWords(MetricWords(f)) + rest);
    ReadWordsEnc(MetricWords(f), rest);
  }

  lemma ReadBodyEnc(order: seq<U32>, glyphs: map<U32, Glyph>, info: FontInfo, tail: seq<Byte>)
    requires (forall k :: k in order ==> k in glyphs) && |order| < TWO_32
    ensures ReadBody(EncU32(|order|) + (EncGlyphs(order, glyphs) + tail), info) == ReadTail(tail, info, InsertAll(map[], order, glyphs))
  {
    ReadBodyOf(|order|, EncGlyphs(order, glyphs) + tail, info);
    ReadGlyphsEnc(order, glyphs, map[], tail);
  }

  lemma ReadBodyOf(count: U32, records: seq<Byte>, info: FontInfo)
    ensures ReadBody(EncU32(count) + records, info) ==
      match ReadGlyphs(records, count, map[])
      case Err(e) => Err(e)
      case Ok(glyphs) => ReadTail(glyphs.1, info, glyphs.0)
  {
    ReadU32Enc(count, records);
  }

  /** Inserting every glyph of a codepoint-keyed map, in any iteration order, rebuilds the map. */
  lemma InsertAllRebuilds(order: seq<U32>, glyphs: map<U32, Glyph>)
    requires KeyedByCodepoint(glyphs) && IterationOrder(order, glyphs)
    ensures InsertAll(map[], order, glyphs) == glyphs
  {
    InsertAllContents(map[], order, glyphs);
    var m := InsertAll(map[], order, glyphs);
    assert m.Keys == glyphs.Keys;
  }

  /**
   * Reading the payload a well-formed font writes gives the font back,
   * with the path it was read from, whatever order the glyph map was
   * written in and whatever follows the payload.
   */
  lemma PayloadRoundTrip(f: FontData, order: seq<U32>, path: Text, rest: seq<Byte>)
    requires WellFormedFont(f) && IterationOrder(order, f.glyphs) && |order| < TWO_32
    ensures ReadPayload(EncPayload(f, order) + rest, path) == Ok(f.(info := f.info.(path := path)))
  {
    PayloadHeaderSplit(f, order, path, rest);
    BodyRoundTrip(f, order, f.info.(path := path), rest);
  }

  /** Past the header, the payload reader continues with the glyph count. */
  lemma PayloadHeaderSplit(f: FontData, order: seq<U32>, path: Text, rest: seq<Byte>)
    requires WellFormedFont(f) && IterationOrder(order, f.glyphs) && |order| < TWO_32
    ensures ReadPayload(EncPayload(f, order) + rest, path) ==
      ReadBody(EncU32(LenU32(|order|)) + (EncGlyphs(order, f.glyphs) + (EncAtlas(f) + (EncWords(MetricWords(f)) + rest))), f.info.(path := path))
  {
    var body := EncU32(LenU32(|order|)) + (EncGlyphs(order, f.glyphs) + (EncAtlas(f) + (EncWords(MetricWords(f)) + rest)));
    Regroup(EncHeader(f.info), EncU32(LenU32(|order|)), EncGlyphs(order, f.glyphs), EncAtlas(f), EncWords(MetricWords(f)), rest);
    ReadPayloadOf(f.info, path, body);
  }

  /** The glyph table, atlas and metrics read back as written. */
  lemma BodyRoundTrip(f: FontData, order: seq<U32>, info: FontInfo, rest: seq<Byte>)
    requires WellFormedFont(f) && IterationOrder(order, f.glyphs) && |order| < TWO_32
    ensures ReadBody(EncU32(LenU32(|order|)) + (EncGlyphs(order, f.glyphs) + (EncAtlas(f) + (EncWords(MetricWords(f)) + rest))), info) ==
      Ok(f.(info := info))
  {
    assert LenU32(|order|) == |order|;
    var tail := EncAtlas(f) + (EncWords(MetricWords(f)) + rest);
    ReadBodyEnc(order, f.glyphs, info, tail);
    InsertAllRebuilds(order, f.glyphs);
    ReadTailEnc(f, info, f.glyphs, rest);
  }

  lemma ReadPayloadOf(info: FontInfo, path: Text, body: seq<Byte>)
    requires BinaryShader.ValidUtf8(info.name) && |info.name| < TWO_32 && info.style < 4
    ensures ReadPayload(EncHeader(info) + body, path) == ReadBody(body, info.(path := path))
  {
    ReadHeaderEnc(info, path, body);
  }

  /**
   * The cache round trip: `new_cached` on the file `save_font_cache`
   * writes reloads the name, style, glyphs, atlas and metrics unchanged,
   * the path becoming the cache file's, given a zlib that inflates what
   * it deflated.
   */
  lemma CacheRoundTrip(f: FontData, order: seq<U32>, path: Text,
                       compress: seq<Byte> -> seq<Byte>, decompress: seq<Byte> -> Option<seq<Byte>>)
    requires WellFormedFont(f) && IterationOrder(order, f.glyphs) && |order| < TWO_32
    requires decompress(compress(EncPayload(f, order))) == Some(EncPayload(f, order))
    requires |compress(EncPayload(f, order))| < TWO_32 && |EncPayload(f, order)| < TWO_32
    ensures LoadCache(SaveCache(f, order, compress), path, decompress) == Ok(f.(info := f.info.(path := path)))
  {
    var payload := EncPayload(f, order);
    PayloadRoundTrip(f, order, path, []);
    assert payload + [] == payload;
    LoadSaved(compress(payload), payload, path, decompress);
  }

  /** `new_cached` on a file with a well-formed frame reads the payload its compressed bytes inflate to. */
  lemma LoadSaved(packed: seq<Byte>, payload: seq<Byte>, path: Text, decompress: seq<Byte> -> Option<seq<Byte>>)
    requires |packed| < TWO_32 && decompress(packed) == Some(payload)
    ensures LoadCache(FONT_CACHE_MAGIC + (EncU32(LenU32(|packed|)) + EncU32(LenU32(|payload|)) + packed), path, decompress) ==
      ReadPayload(payload, path)
  {
    var file := FONT_CACHE_MAGIC + (EncU32(LenU32(|packed|)) + EncU32(LenU32(|payload|)) + packed);
    assert LenU32(|packed|) == |packed|;
    assert file[..5] == FONT_CACHE_MAGIC;
    assert file[5..] == EncU32(|packed|) + (EncU32(LenU32(|payload|)) + (packed + []));
    ReadU32Enc(|packed|, EncU32(LenU32(|payload|)) + (packed + []));
    ReadU32Enc(LenU32(|payload|), packed + []);
    ReadBytesEnc(packed, []);
    assert packed + [] == packed;
  }

  /** A glyph survives the cache: `get_glyph` on the reloaded font answers as on the original. */
  lemma GlyphSurvivesCache(f: FontData, order: seq<U32>, path: Text,
                           compress: seq<Byte> -> seq<Byte>, decompress: seq<Byte> -> Option<seq<Byte>>, codepoint: U32)
    requires WellFormedFont(f) && IterationOrder(order, f.glyphs) && |order| < TWO_32
    requires decompress(compress(EncPayload(f, order))) == Some(EncPayload(f, order))
    requires |compress(EncPayload(f, order))| < TWO_32 && |EncPayload(f, order)| < TWO_32
    ensures LoadCache(SaveCache(f, order, compress), path, decompress).Ok?
    ensures GetGlyph(LoadCache(SaveCache(f, order, compress), path, decompress).value, codepoint) == GetGlyph(f, codepoint)
  {
    CacheRoundTrip(f, order, path, compress, decompress);
  }

  /** An atlas side over 2048 is refused before its bytes are read. */
  lemma OversizedAtlasRefused(w: U32, h: U32, rest: seq<Byte>)
    requires w > MAX_ATLAS_SIZE || h > MAX_ATLAS_SIZE
    ensures ReadAtlas(EncU32(w) + EncU32(h) + rest) == Err(InvalidData)
  {
    assert EncU32(w) + EncU32(h) + rest == EncU32(w) + (EncU32(h) + rest);
    ReadU32Enc(w, EncU32(h) + rest);
    ReadU32Enc(h, rest);
  }

  /** The glyph loop of `new_cached`. */
  method ReadGlyphLoop(s: seq<Byte>, count: U32) returns (r: Result<(map<U32, Glyph>, seq<Byte>), CacheError>)
    ensures r == ReadGlyphs(s, count, map[])
  {
    var glyphs: map<U32, Glyph> := map[];
    var rest := s;
    for i := 0 to count
      invariant ReadGlyphs(s, count, map[]) == ReadGlyphs(rest, count - i, glyphs)
    {
      var rec := ReadWords(rest, GLYPH_WORDS);
      if rec.Err? {
        return Err(rec.error);
      }
      var g := GlyphOf(rec.value.0);
      glyphs := glyphs[g.codepoint := g];
      rest := rec.value.1;
    }
    r := Ok((glyphs, rest));
  }

  /** `new_cached`: the file's bytes (None when it cannot be read) read front to back, stopping at the first error. */
  method NewCached(file: Option<seq<Byte>>, path: Text, decompress: seq<Byte> -> Option<seq<Byte>>)
    returns (r: Result<FontData, CacheError>)
    ensures file.None? ==> r == Err(ReadFailed)
    ensures file.Some? ==> r == LoadCache(file.value, path, decompress)
  {
    if file.None? {
      return Err(ReadFailed);
    }
    var data := file.value;
    if |data| < 5 {
      return Err(UnexpectedEof);
    }
    if data[..5] != FONT_CACHE_MAGIC {
      return Err(InvalidData);
    }
    var packedSize := ReadU32(data[5..]);
    if packedSize.Err? { return Err(packedSize.error); }
    var payloadSize := ReadU32(packedSize.value.1);
    if payloadSize.Err? { return Err(payloadSize.error); }
    var packed := ReadBytes(payloadSize.value.1, packedSize.value.0);
    if packed.Err? { return Err(packed.error); }
    var payload := decompress(packed.value.0);
    if payload.None? { return Err(DecompressFailed); }
    var header := ReadHeader(payload.value, path);
    if header.Err? { return Err(header.error); }
    var count := ReadU32(header.value.1);
    if count.Err? { return Err(count.error); }
    var glyphs := ReadGlyphLoop(count.value.1, count.value.0);
    if glyphs.Err? { return Err(glyphs.error); }
    r := ReadTail(glyphs.value.1, header.value.0, glyphs.value.0);
  }

  // ---------------------------------------------------------------------
  // The font manager
  // ---------------------------------------------------------------------

  /** The index of the first system font named `name`. */
  function FirstNamed(fonts: seq<FontInfo>, name: Text): (r: Option<nat>)
    ensures r.Some? ==> r.value < |fonts| && fonts[r.value].name == name
    ensures r.Some? ==> forall j :: 0 <= j < r.value ==> fonts[j].name != name
    ensures r.None? ==> forall j :: 0 <= j < |fonts| ==> fonts[j].name != name
  {
    if |fonts| == 0 then None
    else if fonts[0].name == name then Some(0)
    else match FirstNamed(fonts[1..], name)
      case None => None
      case Some(j) => Some(j + 1)
  }

  /** `FontManager`: the system fonts found at start-up and the fonts loaded so far, by key. */
  class FontManager {
    var fonts: seq<FontInfo>
    var cache: map<Key, FontData>

    /** `FontManager::new`, with the system font search's result. */
    constructor (found: seq<FontInfo>)
      ensures fonts == found && cache == map[]
    {
      fonts := found;
      cache := map[];
    }

    /**
     * `load_font`: a key already cached gives the cached font and nothing
     * is built. Otherwise, when `fontName` is an existing path
     * (`atPath` Some), its font info (None when unreadable) is baked;
     * else the first system font of that name is. A baked font is cached
     * under the key.
     */
    method LoadFont(key: Key, fontName: Text, atPath: Option<Option<FontInfo>>, bake: FontInfo -> FontData)
      returns (r: Option<FontData>)
      modifies this
      ensures fonts == old(fonts)
      ensures key in old(cache) ==> r == Some(old(cache)[key]) && cache == old(cache)
      ensures key !in old(cache) && atPath.Some? ==> r == (if atPath.value.Some? then Some(bake(atPath.value.value)) else None)
      ensures key !in old(cache) && atPath.None? ==>
        r == (if FirstNamed(fonts, fontName).Some? then Some(bake(fonts[FirstNamed(fonts, fontName).value])) else None)
      ensures key !in old(cache) ==> cache == (if r.Some? then old(cache)[key := r.value] else old(cache))
      ensures r.Some? ==> key in cache && cache[key] == r.value
    {
      if key in cache {
        return Some(cache[key]);
      }
      if atPath.Some? {
        if atPath.value.None? {
          return None;
        }
        var font := bake(atPath.value.value);
        cache := cache[key := font];
        return Some(font);
      }
      for i := 0 to |fonts|
        invariant forall j :: 0 <= j < i ==> fonts[j].name != fontName
      {
        if fonts[i].name == fontName {
          assert FirstNamed(fonts, fontName) == Some(i) by { FirstNamedIs(fonts, fontName, i); }
          var font := bake(fonts[i]);
          cache := cache[key := font];
          return Some(font);
        }
      }
      FirstNamedNone(fonts, fontName);
      return None;
    }

    /**
     * `load_font_cached`: a key already cached gives the cached font;
     * otherwise the cache file is read and, when it loads, cached under
     * the key.
     */
    method LoadFontCached(key: Key, file: Option<seq<Byte>>, path: Text, decompress: seq<Byte> -> Option<seq<Byte>>)
      returns (r: Option<FontData>)
      modifies this
      ensures fonts == old(fonts)
      ensures key in old(cache) ==> r == Some(old(cache)[key]) && cache == old(cache)
      ensures key !in old(cache) ==>
        r == (if file.Some? && LoadCache(file.value, path, decompress).Ok? then Some(LoadCache(file.value, path, decompress).value) else None)
      ensures key !in old(cache) ==> cache == (if r.Some? then old(cache)[key := r.value] else old(cache))
    {
      if key in cache {
        return Some(cache[key]);
      }
      var loaded := NewCached(file, path, decompress);
      if loaded.Err? {
        return None;
      }
      cache := cache[key := loaded.value];
      return Some(loaded.value);
    }
  }

  lemma {:induction false} FirstNamedIs(fonts: seq<FontInfo>, name: Text, i: nat)
    requires i < |fonts| && fonts[i].name == name && forall j :: 0 <= j < i ==> fonts[j].name != name
    ensures FirstNamed(fonts, name) == Some(i)
  {
    if i > 0 {
      FirstNamedIs(fonts[1..], name, i - 1);
    }
  }

  lemma FirstNamedNone(fonts: seq<FontInfo>, name: Text)
    requires forall j :: 0 <= j < |fonts| ==> fonts[j].name != name
    ensures FirstNamed(fonts, name) == None
  {
  }
}
