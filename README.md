# estrender: a verified model of the rendering core

estrender is a Rust rendering crate layered on wgpu (GPU), winit (windows and
input) and softbuffer (CPU pixel buffers). Most of the crate forwards calls to
those libraries. Under that forwarding sits sequential logic that can be
stated without a GPU, and this project models it in Dafny and proves what it
promises:

- the binary shader container (magic `est-binary-shader-v1`), reflection
  parsing and the crate's own std140-like layout arithmetic;
- bind-group-layout construction for graphics and compute shaders, and the
  vertex-format conversion table;
- texture format tables, blend and write-mask conversions, row-padded
  upload and download, texture map/unmap, and the texture atlas blit;
- buffers (build guards, resize, read, padded raw writes, map/unmap), the
  staging-buffer reuse pool and the GPU context's buffer sizing, resize,
  vsync and swapchain guards;
- the frame-lifetime caches: pipeline, bind-group and buffer managers in
  both the `gpu` and the `graphics` variants;
- render pipelines, compute pipelines, render passes, the render-pass
  builder, compute passes and the command buffer with its pass flags and
  surface texture;
- the 2D drawing context: geometry construction, index rebasing, batch
  merging, triangle-fan conversion and the final draw calls. The remapping
  of texture coordinates into an atlas rectangle (drawing.rs:78-98) lies
  outside this logic. It is modelled only because the image-drawing
  methods use it (`Drawing.AbsoluteUv`, `Drawing.RemapPlacement`,
  `Drawing.Within`);
- the font helpers (power-of-two sizing, grey-to-RGBA expansion, glyph
  lookup, the `eFONT` cache file and the font manager's cache), input
  state, and the software pixel buffer.

Each source file becomes one module. Files whose code updates objects in
place become classes whose methods carry `modifies` clauses and are proved
against specification functions. Pure tables and conversions become
datatypes, functions and lemmas.

External objects are opaque `Handle`s: devices, buffers, views, samplers,
bind groups, pipelines, surfaces and shader modules. Every hash-map key
computed with `DefaultHasher` is an abstract natural number.

The build modelled is a release build with the `enable-release-validation`
checks on. A `panic!` becomes an error value, or a precondition where the
panic is the source's contract with its caller. Integer wrap-around of
`i32`, `u32`, `u64` and `usize` is written out where the source can reach
it.

Where the code has one of the defects listed under "## Findings", the
operations follow the evidently intended behaviour. The code as written is
modelled by separate members, named `…AsWritten` or after the defect, and
lemmas exhibit the difference. This applies to:

- `Reflection.Parse` and `Reflection.UniformBindingAccepted`, and through
  them the shader constructors;
- `Reflection.MappingToVertexInput`;
- `Buffers.Buffer.Write` and `Buffers.Buffer.Map`;
- `RenderPasses.RenderPass.DrawIndirect`;
- `ComputePasses.ComputePass.SetShader`;
- `CommandBuffers.CommandBuffer.BeginTexture` and
  `CommandBuffers.CommandBuffer.CopyTexture`;
- `Drawing.DrawingContext.PushQueue` and
  `Drawing.DrawingContext.DrawTriangleImage`;
- the split setters of `GraphicsShaders`;
- `GraphicsCaches.PipelineManager.InsertComputePipeline` and
  `GraphicsCaches.BufferManager.DropBuffer`.

The source tree is in the middle of a refactor, and its files do not
always agree with one another. Where they disagree, the model follows the
code that does the work:

- Several modelled files are not declared by their parent module:
  - `src/gpu/command/mod.rs` declares neither `compute.rs` nor `pipeline.rs`;
  - `src/gpu/pipeline/mod.rs` declares a `computepipeline` module instead of `compute.rs`.
- `src/gpu/command/mod.rs` imports `ComputePass` from a `computepass`
  module that has no `mod.rs`. Its `begin_computepass` passes three
  arguments to the two-argument `ComputePass::new` in `compute.rs`.
- The model follows `compute.rs`. The compute pass never receives the
  command buffer's compute flag, so nothing ever sets that flag.
- `src/gpu/command/renderpass/mod.rs` declares a `renderpass_impls` module
  that does not exist. The builder is modelled from `renderpass.rs`. Its
  copy in `src/gpu/command/renderpass/renderpass_builder.rs` (lines 21-262)
  differs only in the type of the blend argument.
- `src/gpu/texture/atlas.rs` is not declared in `src/gpu/texture/mod.rs`.
  It calls `set_raw_image` and `set_usage`, which the texture builder does
  not have. The model uses the builder's `with_raw` and `with_usage`.
- `GraphicsPipelineDesc` in `src/graphics/pipeline_manager.rs` (line 24) and
  `src/gpu/command/pipeline.rs` (line 649) has a single `render_target`.
  `src/gpu/command/renderpass.rs` (lines 1250, 1259 and 1282) builds and
  extends it as a list. The model takes the list reading, so a pipeline
  built by the render-pipeline builder gains the pass's targets after its
  own (`RenderPasses.BuiltPipelineHasExtraTarget`).
- `TextureInner.size` is a `Rect` in `src/gpu/texture/mod.rs` (line 131),
  while `src/gpu/command/renderpass.rs` (lines 1620-1748) compares it with
  `Point2` sizes and reads only its `x` and `y`. The texture model keeps the
  `Rect`. What a render pass reads of a texture (`RenderPasses.TextureInfo`)
  has a `Point2` size, taken to be the texture's width and height.

## Model

| member | source | states |
|---|---|---|
| Layout.ToI32 | src/gpu/shader/reflection.rs:613 | `as i32` on a u32 keeps the value modulo 2^32 |
| Layout.ToU32 | src/gpu/shader/reflection.rs:651 | `as u32` on an i32 keeps the value modulo 2^32 |
| Layout.CastRoundTrip | src/gpu/shader/reflection.rs:613-651 | the two casts between u32 and i32 undo each other |
| Layout.AlignToLeastMultiple | src/gpu/shader/reflection.rs:707-709 | the aligned size is a multiple of the alignment and, without overflow, the least such multiple at or above the size |
| Layout.AlignToBitsLeastMultiple | src/gpu/shader/reflection.rs:707-709 | the bitwise `(size + a - 1) & !(a - 1)` is, for a power-of-two `a`, the least multiple of `a` at or above the size when the sum does not wrap |
| Layout.AlignToAgrees | src/gpu/shader/reflection.rs:707-709 | the bitwise formula equals round-up-to-a-multiple for alignment 0 and every power of two below 2^32 |
| Layout.ClearLowBits | src/gpu/shader/reflection.rs:708 | masking off the low `k` bits rounds a number down to a multiple of 2^k |
| Layout.Std140Alignment | src/gpu/shader/reflection.rs:682-697 | every alignment the layout rules produce is 1, 4, 8 or 16 |
| Layout.MaxMemberAlignment | src/gpu/shader/reflection.rs:686-693 | the largest member alignment of a struct is itself one of 1, 4, 8, 16 |
| Layout.StructLayoutStep | src/gpu/shader/reflection.rs:647-654 | one turn of the struct loop aligns the running size to the member's alignment, adds the member size and keeps the larger alignment |
| Layout.StructLayoutAlignment | src/gpu/shader/reflection.rs:645-656 | the alignment the struct loop ends with is the larger of its start and the struct's `std140_alignment` |
| Layout.StructSizePadded | src/gpu/shader/reflection.rs:645-657 | a non-empty struct's size is a multiple of its own alignment |
| Layout.GetSize | src/gpu/shader/reflection.rs:611-662 | the recursive `get_size` with its member loop returns exactly the specified size of the type |
| Layout.VectorSizes | src/gpu/shader/reflection.rs:614-619 | vectors of 4-byte scalars are padded to their alignment: 8 for vec2, 16 for vec3 and vec4 |
| Layout.VectorPadding | src/gpu/shader/reflection.rs:614-619 | of these vectors only vec3 gains padding, 4 bytes past its 12 data bytes; vec2 and vec4 are exactly their data |
| Reflection.DecimalText | src/gpu/shader/reflection.rs:196 | the decimal text of a handle index is a non-empty run of ASCII digits |
| Reflection.MappingToVertexInput | src/gpu/shader/reflection.rs:557-608 | a scalar or vector maps to a vertex format exactly when its scalar is 4 bytes, and the format's size is the component count times 4 |
| Reflection.BoolVec2Mapping | src/gpu/shader/reflection.rs:557-608 | as written a bool vec2 maps to the 4-byte `Uint32` while the stride advances 8 bytes; every other input maps as in the corrected definition |
| Reflection.Vec4UniformRefused | src/gpu/shader/reflection.rs:198-205 | a vec4 uniform is 16 bytes; the check as written refuses it and the check its message describes accepts it |
| Reflection.UniformBindingAccepted | src/gpu/shader/reflection.rs:190-214 | a bound uniform is accepted exactly when it is at least 16 bytes, and then becomes a uniform-buffer binding of its size |
| Reflection.BindingOfNumbers | src/gpu/shader/reflection.rs:207-210 | every reported binding carries its variable's group and binding numbers |
| Reflection.CollectBindingsDeclared | src/gpu/shader/reflection.rs:187-365 | each collected binding is the binding of a declared global, and there are no more bindings than globals |
| Reflection.CollectBindingsLoop | src/gpu/shader/reflection.rs:187-365 | the loop over global variables returns the bindings in declaration order, or the first variable's error |
| Reflection.CollectBindingsErr | src/gpu/shader/reflection.rs:201-204 | the first error ends the loop: later variables do not change it |
| Reflection.InsertByKey | src/gpu/shader/reflection.rs:372-378 | inserting a binding adds exactly that binding to the collection |
| Reflection.InsertSorted | src/gpu/shader/reflection.rs:372-378 | inserting into a list sorted by (group, binding) keeps it sorted and adds nothing else |
| Reflection.SortBindings | src/gpu/shader/reflection.rs:372-378 | the sorted bindings are ordered by group, then binding, and are a permutation of the collected ones |
| Reflection.InsertWithKey | src/gpu/shader/reflection.rs:372-378 | an inserted binding lands after every earlier binding with the same key |
| Reflection.SortBindingsStable | src/gpu/shader/reflection.rs:372-378 | the sort is stable: bindings sharing a (group, binding) key keep their order |
| Reflection.AttributesPacked | src/gpu/shader/reflection.rs:415-501 | the member loop yields one attribute per member, each starting where the previous one's format ends |
| Reflection.AttributeOfAdvance | src/gpu/shader/reflection.rs:439-487 | a member's attribute starts at the running offset, keeps its location, and the offset advances by the format's size |
| Reflection.VertexInputPacked | src/gpu/shader/reflection.rs:402-510 | a struct vertex input is tightly packed from offset 0 with its stride at the end of the last attribute |
| Reflection.VertexInputLoop | src/gpu/shader/reflection.rs:402-510 | the argument's member loop computes exactly the specified vertex input or its error |
| Reflection.ScanFindsStages | src/gpu/shader/reflection.rs:388-521 | the entry-point scan records a stage's name exactly when the module has an entry point of that stage |
| Reflection.ScanEntriesLoop | src/gpu/shader/reflection.rs:388-521 | the entry-point loop computes exactly the specified scan |
| Reflection.ClassifyKeepsBindings | src/gpu/shader/reflection.rs:523-554 | every classification carries the sorted bindings, and it fails exactly when no entry point was found |
| Reflection.Parse | src/gpu/shader/reflection.rs:185-555 | `parse` (collect, sort, scan, classify) computes exactly the specified reflection |
| Reflection.ParseBindingsSorted | src/gpu/shader/reflection.rs:372-378 | the bindings of a parsed shader are sorted, a permutation of the collected ones, and in collected order among equal keys |
| Reflection.ParseClassification | src/gpu/shader/reflection.rs:523-554 | a parsed shader is vertex-fragment iff it has both stages, vertex or fragment iff only that one, compute only with a compute entry point |
| Reflection.ParseNoEntryPoint | src/gpu/shader/reflection.rs:554 | a module without entry points is refused, with the no-entry-point error unless a binding failed first |
| BinaryShader.ToLeValue | src/gpu/shader/reflection.rs:36-46 | little-endian bytes read back to the number they encode |
| BinaryShader.ValidUtf8Concat | src/gpu/shader/reflection.rs:56-59 | two valid UTF-8 strings joined are valid UTF-8, so names written back to back stay readable |
| BinaryShader.SplitNoSep | src/gpu/shader/reflection.rs:161 | `split(',')` of a text without a comma is that one text |
| BinaryShader.SplitJoin | src/gpu/shader/reflection.rs:161-170 | two comma-free names joined by one comma split back into exactly those two names |
| BinaryShader.SplitCount | src/gpu/shader/reflection.rs:161-164 | a split gives one more piece than there are separators, so exactly one comma is needed for a vertex+fragment shader |
| BinaryShader.ReadU32 | src/gpu/shader/reflection.rs:36-40 | reading a u32 succeeds exactly when 4 bytes remain, gives their little-endian value and consumes exactly them |
| BinaryShader.ReadU64 | src/gpu/shader/reflection.rs:42-46 | reading a u64 succeeds exactly when 8 bytes remain, gives their little-endian value and consumes exactly them |
| BinaryShader.ReadBytes | src/gpu/shader/reflection.rs:48-54 | reading `len` bytes succeeds exactly when that many remain, and the bytes read and the rest make up the input |
| BinaryShader.ReadText | src/gpu/shader/reflection.rs:56-59 | a length-prefixed string read is valid UTF-8 and consumes its 4-byte length and its bytes |
| BinaryShader.ParseBindingType | src/gpu/shader/reflection.rs:85-102 | a binding kind read consumes input |
| BinaryShader.ParseBinding | src/gpu/shader/reflection.rs:80-110 | a binding read consumes input |
| BinaryShader.ParseCount | src/gpu/shader/reflection.rs:80-110 | a counted read returns exactly the announced number of items |
| BinaryShader.VertexTypeFromId | src/gpu/shader/reflection.rs:123-137 | attribute type ids are accepted exactly when they are 0 to 11 |
| BinaryShader.ParseAttribute | src/gpu/shader/reflection.rs:119-139 | an attribute read consumes exactly 16 bytes (location, offset, type id) |
| BinaryShader.ParseVertexInput | src/gpu/shader/reflection.rs:112-145 | the stride of a read vertex input is a u32 widened to u64 |
| BinaryShader.MakeReflect | src/gpu/shader/reflection.rs:150-177 | the reflection is built exactly when the type id is 0 to 3 and, for a combined shader, the entry text splits into two names; otherwise the error names the cause |
| BinaryShader.ParseOptVertexInput | src/gpu/shader/reflection.rs:112-148 | a vertex-input section is read exactly for the vertex and combined type ids, and nothing is consumed otherwise |
| BinaryShader.ParseShader | src/gpu/shader/reflection.rs:61-70 | a container loads only if it starts with the 20-byte magic; a shorter input fails on reading the magic |
| BinaryShader.ReadCountLoop | src/gpu/shader/reflection.rs:80-110 | the counted loop returns exactly the specified run of items or its first error |
| BinaryShader.LoadBinaryShader | src/gpu/shader/reflection.rs:61-183 | `load_binary_shader`, read front to back, gives exactly the specified shader or its first error |
| BinaryShader.VertexTypeId | src/gpu/shader/reflection.rs:123-137 | the type id written for a format reads back as that format |
| BinaryShader.ReadU32Enc | src/gpu/shader/reflection.rs:36-40 | a written u32 reads back, leaving what follows |
| BinaryShader.ReadU64Enc | src/gpu/shader/reflection.rs:42-46 | a written u64 reads back, leaving what follows |
| BinaryShader.ReadTextEnc | src/gpu/shader/reflection.rs:56-59 | a written UTF-8 string reads back, leaving what follows |
| BinaryShader.BindingTypeEnc | src/gpu/shader/reflection.rs:85-102 | every binding kind written reads back as itself |
| BinaryShader.BindingEnc | src/gpu/shader/reflection.rs:80-110 | a written binding reads back as itself |
| BinaryShader.ParseCountConcat | src/gpu/shader/reflection.rs:80-80 | items that each read back from their own encoding read back as a counted run |
| BinaryShader.BindingsEnc | src/gpu/shader/reflection.rs:77-110 | a written binding table reads back as the same bindings in the same order |
| BinaryShader.AttributeEnc | src/gpu/shader/reflection.rs:119-139 | a written attribute with a supported format reads back as itself |
| BinaryShader.AttributesEnc | src/gpu/shader/reflection.rs:116-139 | a written attribute table reads back as the same attributes |
| BinaryShader.VertexInputEnc | src/gpu/shader/reflection.rs:112-145 | a written vertex-input section reads back as itself |
| BinaryShader.OptVertexInputEnc | src/gpu/shader/reflection.rs:112-148 | the vertex-input section reads back exactly for shaders that carry one |
| BinaryShader.EntryTextSplits | src/gpu/shader/reflection.rs:160-170 | a combined shader's entry text splits back into its two entry points |
| BinaryShader.MakeReflectOf | src/gpu/shader/reflection.rs:150-177 | the reflection rebuilt from a shader's own type id, entry text, vertex input and bindings is that shader's reflection |
| BinaryShader.ParseShaderFields | src/gpu/shader/reflection.rs:61-183 | a container whose fields each read successfully loads as the shader they describe |
| BinaryShader.RoundTrip | src/gpu/shader/reflection.rs:61-183 | reading a written container gives back the shader, and `load_binary_shader` returns it, whatever bytes follow |
| BinaryShader.ShaderExt | src/gpu/shader/reflection.rs:61-183 | bytes appended after a container change nothing that was read |
| BinaryShader.CountExt | src/gpu/shader/reflection.rs:80-80 | counted reads are unaffected by appended bytes when each item read is |
| BinaryShader.TrailingBytesIgnored | src/gpu/shader/reflection.rs:179-182 | a container that loads loads the same with bytes appended |
| BinaryShader.TruncatedFails | src/gpu/shader/reflection.rs:61-183 | every proper prefix of a written container fails to load |
| BinaryShader.PrefixFails | src/gpu/shader/reflection.rs:61-183 | a proper prefix of any input that reads completely fails to load |
| TextureTypes.FormatSize | src/gpu/texture/types.rs:585-633 | every format's texel size is one of 1, 2, 3, 4, 5, 8 or 16 bytes |
| TextureTypes.FormatToWgpu | src/gpu/texture/types.rs:635-683 | every crate format converts to a wgpu format the crate lists |
| TextureTypes.FormatFromWgpu | src/gpu/texture/types.rs:685-735 | a wgpu format converts back exactly when the crate lists it; the others are the source's panic |
| TextureTypes.FormatRoundTrip | src/gpu/texture/types.rs:635-735 | converting a format to wgpu and back gives the same format |
| TextureTypes.WgpuFormatRoundTrip | src/gpu/texture/types.rs:635-735 | every wgpu format the crate lists comes back unchanged from a round trip through the crate's format |
| TextureTypes.SampleCountValue | src/gpu/texture/types.rs:37-46 | sample counts are 1, 2, 4 or 8, and 1 exactly for a single sample |
| TextureTypes.SampleCountInjective | src/gpu/texture/types.rs:37-46 | distinct sample counts give distinct values |
| TextureTypes.UsageToWgpu | src/gpu/texture/types.rs:13-27 | each usage flag sets its own wgpu flag and nothing else; no flag gives the empty usage |
| TextureTypes.OpRoundTrip | src/gpu/texture/types.rs:143-182 | the blend-operation conversions are inverse to each other in both directions |
| TextureTypes.FactorToWgpu | src/gpu/texture/types.rs:184-252 | no crate factor converts to a dual-source factor |
| TextureTypes.FactorFromWgpu | src/gpu/texture/types.rs:153-172 | a wgpu factor converts back exactly when it is not a dual-source factor (the source panics on those) |
| TextureTypes.FactorRoundTrip | src/gpu/texture/types.rs:153-252 | a factor converted to wgpu and back is unchanged, except that the two `BlendColor` aliases come back as the constant-colour factors |
| TextureTypes.WgpuFactorRoundTrip | src/gpu/texture/types.rs:153-252 | every wgpu factor the crate accepts converts back to itself |
| TextureTypes.ChannelConstant | src/gpu/texture/types.rs:108-141 | the constant stored for a channel is 0 or 0xFF |
| TextureTypes.BlendFromWgpu | src/gpu/texture/types.rs:108-141 | reading back a missing blend state always succeeds |
| TextureTypes.MaskOfChannelConstants | src/gpu/texture/types.rs:269-294 | with constants 0 or 0xFF, a channel is written exactly when its constant is 0xFF, and every channel when none is |
| TextureTypes.WriteMaskRoundTrip | src/gpu/texture/types.rs:112-125 | a non-empty write mask survives `from_wgpu` then `create_wgpu_color_write_mask`; an empty or missing one comes back as every channel |
| TextureTypes.BlendStateRoundTrip | src/gpu/texture/types.rs:127-136 | a blend state the crate can express survives `from_wgpu` then `create_wgpu_blend_state` |
| Textures.PaddedRows | src/gpu/texture/mod.rs:472-482 | the padded upload holds h rows of u + z bytes |
| Textures.UnpaddedRows | src/gpu/texture/mod.rs:602-607 | unpadding keeps u bytes of each of the h rows |
| Textures.UnpaddedRowsPrefix | src/gpu/texture/mod.rs:603-607 | unpadding reads only the rows it keeps: bytes past them do not matter |
| Textures.UnpadPad | src/gpu/texture/mod.rs:472-607 | stripping the padding `write` adds gives back the data rows it took |
| Textures.PaddedRowsRow | src/gpu/texture/mod.rs:474-482 | row r of the padded buffer is data row r followed by zero padding |
| Textures.PaddedRowBytes | src/gpu/texture/mod.rs:470 | the padded row length is a multiple of 256 and, without wrap-around, the least one at or above the row length |
| Textures.CopyIn | src/gpu/texture/mod.rs:501-521 | a copy into the texture wgpu accepts delivers h rows of the row length |
| Textures.CopyOut | src/gpu/texture/mod.rs:567-583 | a copy out of the texture wgpu accepts fills a buffer of the requested length |
| Textures.Uploaded | src/gpu/texture/mod.rs:459-534 | empty data is refused as invalid; an accepted upload holds exactly the texture's texel bytes |
| Textures.UploadedRows | src/gpu/texture/mod.rs:468-534 | the rows `write` hands to the copy are h rows of the texture's row length |
| Textures.TexelBytesIsProduct | src/gpu/texture/mod.rs:467-468 | a texture holds bytes-per-pixel × width × height texel bytes |
| Textures.CopyInPadded | src/gpu/texture/mod.rs:501-521 | copying rows padded to a multiple of 256 into the texture stores exactly the data rows |
| Textures.UploadedRowsStores | src/gpu/texture/mod.rs:468-534 | without wrap-around, padding and copying stores exactly the first w·h·bpp bytes of the data |
| Textures.UploadStoresRows | src/gpu/texture/mod.rs:459-534 | `write` of data holding every row leaves the texture holding exactly its first w·h·bpp bytes |
| Textures.DownloadFourByte | src/gpu/texture/mod.rs:536-618 | for a four-byte format, `read` returns the texture's texels unchanged |
| Textures.WriteThenRead | src/gpu/texture/mod.rs:459-618 | writing then reading a four-byte texture gives the written rows back |
| Textures.ReadAssumesFourBytes | src/gpu/texture/mod.rs:544 | for a one-byte format a 1×1 texture reads back four bytes, its texel and three bytes of padding, because `read` assumes four bytes per pixel |
| Textures.MapWriteLength | src/gpu/texture/mod.rs:642-643 | a write mapping hands out w·h·4 bytes when that fits in i32 |
| Textures.NewBuilder | src/gpu/texture/mod.rs:35-47 | a new builder fails only on an invalid context and starts with one sample, one mip level, no usage and no data |
| Textures.WithRaw | src/gpu/texture/mod.rs:59-71 | `with_raw` panics exactly on depth or stencil formats and otherwise changes only the data |
| Textures.WithRenderTarget | src/gpu/texture/mod.rs:73-84 | `with_render_target` panics exactly on a zero width or height and otherwise changes only the data |
| Textures.WithDepthStencil | src/gpu/texture/mod.rs:92-102 | `with_depth_stencil` panics exactly on a zero width or height, defaults the format to Depth32Float and changes only the data |
| Textures.WithUsage | src/gpu/texture/mod.rs:113-120 | `with_usage` panics exactly on a usage containing RenderAttachment and otherwise changes only the usage |
| Textures.BuilderNeverAttachment | src/gpu/texture/mod.rs:113-120 | no builder usage ever includes RenderAttachment |
| Textures.WithAttachment | src/gpu/texture/mod.rs:316 | adding RenderAttachment keeps the other usage flags |
| Textures.Texture.Create | src/gpu/texture/mod.rs:428-447 | a created texture is unmapped, blends as NONE and holds zeros of its texel size |
| Textures.Texture.Write | src/gpu/texture/mod.rs:459-534 | `write` stores the uploaded texels or returns the error and leaves the texels; nothing else changes |
| Textures.Texture.Read | src/gpu/texture/mod.rs:536-618 | `read` returns the download of the texels with four bytes per pixel |
| Textures.Texture.Map | src/gpu/texture/mod.rs:620-648 | mapping a mapped texture is refused; otherwise it becomes mapped, a read mapping holds the read-back texels and a write mapping w·h·4 zeros |
| Textures.Texture.Unmap | src/gpu/texture/mod.rs:650-678 | unmapping an unmapped texture is refused; a read mapping is dropped; a write mapping is written and emptied, or kept with the write's error; the texture ends unmapped |
| Textures.UploadRows | src/gpu/texture/mod.rs:468-534 | the body of `write` past its empty check computes exactly the specified upload |
| Textures.PadRows | src/gpu/texture/mod.rs:474-482 | the row loop pads each data row with zeros, and a short data slice is the slice panic |
| Textures.UnpadRows | src/gpu/texture/mod.rs:603-607 | the read-back row loop keeps u bytes of each row, and a short buffer is the slice panic |
| Textures.BuildOutcome | src/gpu/texture/mod.rs:186-380 | an invalid context is refused; depth-stencil and render targets include RenderAttachment; a built texture has a positive size |
| Textures.BuildRawStoresData | src/gpu/texture/mod.rs:280-306 | a raw texture built from data holding all its rows holds exactly those rows |
| Textures.RenderTargetDefaultFormat | src/gpu/texture/mod.rs:330-351 | a render target without a format takes the swapchain's format, or Rgba8UnormSrgb without one |
| Textures.FromBuilder | src/gpu/texture/mod.rs:186-380 | `from_builder` returns a new unmapped texture that is exactly the specified outcome, or its error |
| Textures.CreateFromImage | src/gpu/texture/mod.rs:192-278 | decoded image data becomes an Rgba8Unorm texture holding the decoded pixels, or the specified error |
| Textures.NewTexture | src/gpu/texture/mod.rs:382-448 | a zero dimension is refused; a negative one is refused by the device; otherwise a new unmapped texture holding zeros |
| Textures.CreateTexture | src/gpu/texture/mod.rs:281-305 | creating a texture then writing its data gives exactly the specified texture or error |
| Atlas.AddTexture | src/gpu/texture/atlas.rs:105-121 | adding an item stores it under its id, replacing an earlier item with that id and keeping every other one |
| Atlas.LoadItem | src/gpu/texture/atlas.rs:133-166 | raw data loads exactly when its length is the u32 product w·h·4 and is kept as given; each kind of item fails with its own error |
| Atlas.LoadAll | src/gpu/texture/atlas.rs:130-170 | a successful loading loop holds one image per item |
| Atlas.LoadAllSpec | src/gpu/texture/atlas.rs:130-170 | loading succeeds exactly when every item loads, then holds each item's pixels in order; otherwise it reports the first item's failure |
| Atlas.LoadAllErrSticks | src/gpu/texture/atlas.rs:136-161 | the first loading failure ends `build`: later items do not change the error |
| Atlas.Place | src/gpu/texture/atlas.rs:183-202 | a successful placement places every item and has a non-negative extent |
| Atlas.PlaceSpec | src/gpu/texture/atlas.rs:183-202 | every item is at most 2048 on a side and placed where the packer said; the extent covers every rectangle and is the edge of one of them |
| Atlas.PlaceErrSticks | src/gpu/texture/atlas.rs:184-197 | the first placing failure ends `build`: later items do not change the error |
| Atlas.Clamp | src/gpu/texture/atlas.rs:229-230 | a loop `0..v` runs v times, and none when v is not positive |
| Atlas.DecodeIndex | src/gpu/texture/atlas.rs:231-232 | a byte's index in a row-major RGBA image decodes back to its pixel and channel |
| Atlas.EncodeIndex | src/gpu/texture/atlas.rs:231-232 | every byte of an image with a width is a channel of the pixel its index decodes to |
| Atlas.IndexBound | src/gpu/texture/atlas.rs:231-232 | the bytes of a w×h RGBA image's pixels lie within its w·h·4 bytes |
| Atlas.AtlasBytes | src/gpu/texture/atlas.rs:208-237 | the atlas buffer holds w·h·4 bytes |
| Atlas.AtlasCopiesItem | src/gpu/texture/atlas.rs:229-237 | pixel (i, j) of an item lands at its place plus (i, j) in the atlas, unless a later item covers that pixel |
| Atlas.AtlasOutsideIsZero | src/gpu/texture/atlas.rs:208 | a pixel no item covers stays 0 in every channel |
| Atlas.BlitStart | src/gpu/texture/atlas.rs:229-237 | before an item is copied, the atlas is as the earlier items left it |
| Atlas.BlitNextRow | src/gpu/texture/atlas.rs:229-230 | a finished row is the start of the next one |
| Atlas.BlitDone | src/gpu/texture/atlas.rs:229-237 | once every row of an item is copied, the atlas holds that item as well |
| Atlas.BlitPixel | src/gpu/texture/atlas.rs:231-235 | copying one pixel overwrites the four bytes at its `dst_index` with the four at its `src_index`, and no other byte |
| Atlas.FirstShort | src/gpu/texture/atlas.rs:234-235 | the first item lacking a byte of its rectangle is the one whose slice panics; none exists exactly when every item has all its pixels |
| Atlas.CoordsAt | src/gpu/texture/atlas.rs:239-245 | each item's id records that item's place and size |
| Atlas.CoordsKeys | src/gpu/texture/atlas.rs:239-245 | only the items' ids are recorded |
| Atlas.GetId | src/gpu/texture/atlas.rs:34-36 | `get_id` answers exactly for recorded ids, with what was recorded |
| Atlas.AtlasTextureBuilder | src/gpu/texture/atlas.rs:254-257 | the atlas texture is built from the atlas bytes as raw data of the atlas size, with Sampler usage |
| Atlas.Assemble | src/gpu/texture/atlas.rs:204-260 | an extent over 2048 is refused; an assembled atlas records every item's place and size |
| Atlas.AtlasOutcome | src/gpu/texture/atlas.rs:123-126 | an empty builder is refused as an empty atlas |
| Atlas.AssembledHoldsBlit | src/gpu/texture/atlas.rs:204-260 | an assembled atlas is a sampled RGBA8 texture of the extent, at most 2048 on a side, holding exactly every item copied in |
| Atlas.AssembledIds | src/gpu/texture/atlas.rs:34-36 | on a built atlas, an item's id gives the place the packer chose and its size; any other id gives None |
| Atlas.BlitItem | src/gpu/texture/atlas.rs:229-237 | the nested pixel loops copy exactly one item into the atlas buffer |
| Atlas.LoadItems | src/gpu/texture/atlas.rs:130-170 | the loading loop computes exactly the specified images or first failure |
| Atlas.PlaceItems | src/gpu/texture/atlas.rs:183-202 | the placing loop computes exactly the specified placement or first failure |
| Atlas.CopyItems | src/gpu/texture/atlas.rs:208-246 | the copying loop yields the atlas bytes and the recorded places, or the panic of the first item lacking pixels |
| Atlas.Build | src/gpu/texture/atlas.rs:123-261 | `build`, with the maps iterated in a given order, returns exactly the specified atlas or error |
| Buffers.Flatten | src/gpu/buffer/mod.rs:196 | the elements' bytes are empty exactly when every element is |
| Buffers.FlattenLength | src/gpu/buffer/mod.rs:196 | elements of one size occupy count × size bytes, the size `from_slice` records |
| Buffers.AllocIsAligned | src/gpu/buffer/mod.rs:164 | the allocation of a size that fits is the size rounded up to the copy alignment |
| Buffers.NewBuilder | src/gpu/buffer/mod.rs:55-64 | a new builder has no data, length 0, no usage and is unmapped |
| Buffers.SetDataEmpty | src/gpu/buffer/mod.rs:66-70 | `set_data_empty` sets only the length |
| Buffers.SetData | src/gpu/buffer/mod.rs:72-84 | `set_data_vec`/`set_data_slice` set the data and, as length, the bytes the elements occupy, and nothing else |
| Buffers.SetUsage | src/gpu/buffer/mod.rs:86-95 | `set_usage` sets only the usage |
| Buffers.SetMapped | src/gpu/buffer/mod.rs:97-100 | `set_mapped` sets only the mapped flag |
| Buffers.Build | src/gpu/buffer/mod.rs:102-118 | no length and no data, or empty data, is InvalidSize; a built buffer has the builder's usage and mapping and holds zeros for a length or the data's bytes |
| Buffers.CopyOutcome | src/gpu/buffer/mod.rs:344 | a copy between distinct buffers that wgpu accepts replaces exactly the first `size` bytes of the destination; anything else is rejected |
| Buffers.Padded | src/gpu/buffer/mod.rs:466-483 | the staging data is the data followed by zeros up to the next multiple of 4 |
| Buffers.RawWrite | src/gpu/buffer/mod.rs:379-492 | `write_raw` panics on a buffer without COPY_DST or data larger than the buffer, and succeeds exactly for non-empty data that fits on a valid context |
| Buffers.RawWriteStores | src/gpu/buffer/mod.rs:445-492 | a raw write stores the data at the start, zeros up to the next multiple of 4, and leaves every later byte |
| Buffers.ReadOutcome | src/gpu/buffer/mod.rs:530-583 | `read` refuses a buffer without COPY_SRC or MAP_READ; a successful read returns exactly the buffer's bytes |
| Buffers.RawWriteThenRead | src/gpu/buffer/mod.rs:379-583 | a buffer written raw with exactly its size in bytes reads them back |
| Buffers.Fit | src/gpu/buffer/mod.rs:248-258 | `resize`'s data is the old bytes truncated or zero-padded to exactly the new size |
| Buffers.WriteAsWritten | src/gpu/buffer/mod.rs:348-371 | as written, `write` copies the destination's size, so a success needs the source to hold that many bytes |
| Buffers.WriteAsWrittenOverreads | src/gpu/buffer/mod.rs:370 | a 4-byte source written into an 8-byte destination makes a copy that reads past the source, which wgpu rejects |
| Buffers.WriteCopy | src/gpu/buffer/mod.rs:348-371 | `write` panics on a destination without COPY_DST, a source without COPY_SRC or a destination too small; otherwise the source's bytes replace the destination's first bytes and the rest is kept |
| Buffers.MapAsWritten | src/gpu/buffer/mod.rs:585-607 | as written, `map` marks the buffer mapped but keeps the old map mode |
| Buffers.Mapped | src/gpu/buffer/mod.rs:585-607 | `map` records the mode; Write hands out `size` zeros, Read hands out what `read` returns |
| Buffers.UnmapStep | src/gpu/buffer/mod.rs:609-643 | `unmap` panics when no bytes are mapped or the buffer is not mapped; otherwise a write mapping is written back and a read mapping dropped |
| Buffers.MapReadAsWrittenWritesBack | src/gpu/buffer/mod.rs:596-603 | as written, a never-mapped buffer mapped for reading is written back on `unmap`; with the mode recorded it is dropped |
| Buffers.WriteBackPanicsWithoutCopyDst | src/gpu/buffer/mod.rs:631-637 | writing back the bytes of a read mapping panics for a buffer without COPY_DST |
| Buffers.StagingOutcome | src/gpu/buffer/mod.rs:466-483 | the staging buffer of a raw write holds exactly the padded data, or the context's error |
| Buffers.Buffer.MapState | src/gpu/buffer/mod.rs:136-137 | the mapping state is the mapped flag, the mapped bytes and the map mode |
| Buffers.Buffer.Init | src/gpu/buffer/mod.rs:174-183 | a new buffer starts with map mode Write |
| Buffers.Buffer.New | src/gpu/buffer/mod.rs:150-184 | size 0 is InvalidSize; otherwise a zeroed buffer of that size, handing out `size` zeros when mapped at creation |
| Buffers.Buffer.FromSlice | src/gpu/buffer/mod.rs:186-221 | no elements is InvalidSize; otherwise a buffer of the elements' bytes, handing them out when mapped at creation |
| Buffers.Buffer.Read | src/gpu/buffer/mod.rs:530-583 | `read` returns the buffer's bytes or an error |
| Buffers.Buffer.Resize | src/gpu/buffer/mod.rs:237-274 | size 0 is InvalidSize; otherwise the buffer takes the new size and holds its old bytes fitted to it, or zeros when they could not be read |
| Buffers.Buffer.WriteRaw | src/gpu/buffer/mod.rs:379-408 | `write_raw` stores the raw-write result or leaves the buffer with the error; the mapping is unchanged |
| Buffers.Buffer.Write | src/gpu/buffer/mod.rs:277-292 | `write` stores the source-sized copy or leaves the buffer with the error |
| Buffers.Buffer.Map | src/gpu/buffer/mod.rs:585-607 | `map` records the mode and the mapped bytes as specified, and leaves the contents |
| Buffers.Buffer.Unmap | src/gpu/buffer/mod.rs:609-643 | `unmap` panics when not mapped, drops a read mapping, and writes a write mapping back |
| StagingBuffers.AlignedSize | src/gpu/buffer/staging_buffer.rs:32-33 | the staging size is a multiple of the copy alignment and the least one that holds the data |
| StagingBuffers.FirstFit | src/gpu/buffer/staging_buffer.rs:36 | the index found is of a free item large enough, and no earlier item is both; none is found only when no item is |
| StagingBuffers.AllocatedShape | src/gpu/buffer/staging_buffer.rs:31-56 | an allocation reuses the first free item that fits, marked used with cycle 0 and keeping its own usage, or else appends the created buffer with the requested usage; every other item is unchanged |
| StagingBuffers.SingleUsagePool | src/gpu/buffer/staging_buffer.rs:22-58 | a pool whose items all have one usage, allocated from with that usage, keeps every item of it through `allocate` and `cycle`, and hands out a buffer of it |
| StagingBuffers.ReuseIgnoresUsage | src/gpu/buffer/staging_buffer.rs:36-39 | a free buffer created as VERTEX and COPY_DST is handed out for an INDEX and COPY_DST request of the same size |
| StagingBuffers.NoDoubleHandout | src/gpu/buffer/staging_buffer.rs:36-38 | two allocations between cycles never hand out the same item, and the second leaves the first one's item alone |
| StagingBuffers.Kept | src/gpu/buffer/staging_buffer.rs:28 | `retain` keeps exactly the items younger than 60 cycles, and no others |
| StagingBuffers.CycledFree | src/gpu/buffer/staging_buffer.rs:22-29 | after `cycle` every item is free and between 1 and 59 cycles old |
| StagingBuffers.StagingBuffer.constructor | src/gpu/buffer/staging_buffer.rs:16-20 | a new pool is empty |
| StagingBuffers.StagingBuffer.Cycle | src/gpu/buffer/staging_buffer.rs:22-29 | `cycle` ages and frees every item in place, then drops the expired ones |
| StagingBuffers.StagingBuffer.Allocate | src/gpu/buffer/staging_buffer.rs:31-67 | `allocate` updates the pool as specified (the usage is recorded only on a new buffer), returns the item's buffer, and writes the data followed by zeros up to the aligned size |
| StagingBuffers.FindFree | src/gpu/buffer/staging_buffer.rs:36 | the scan for a free buffer finds exactly the first fitting item |
| GpuContext.AllocSize | src/gpu/gpu_inner.rs:536-538 | the allocation is a non-zero multiple of 4 |
| GpuContext.AllocSizeIsLeastMultiple | src/gpu/gpu_inner.rs:536-538 | without overflow the allocation is the least non-zero multiple of 4 holding the size |
| GpuContext.AllocSizeWraps | src/gpu/gpu_inner.rs:538 | within 3 of 2^64 the rounding wraps and the allocation is 4 bytes |
| GpuContext.AllocSizeHolds | src/gpu/gpu_inner.rs:507-515 | a data length that does not overflow fits in its allocation, so the copy into the mapped range is in bounds |
| GpuContext.SurfaceFormat | src/gpu/gpu_inner.rs:101-107 | the surface format is the first sRGB format when there is one, else the first format |
| GpuContext.Resized | src/gpu/gpu_inner.rs:419-447 | a zero dimension zeroes both, any other size is taken; the present mode and format are kept |
| GpuContext.VsyncMode | src/gpu/gpu_inner.rs:459-463 | the present mode is Fifo exactly when vsync is requested |
| GpuContext.GpuInner.Headless | src/gpu/gpu_inner.rs:306-328 | a headless context is valid, has no window, surface or configuration, and empty caches |
| GpuContext.GpuInner.New | src/gpu/gpu_inner.rs:73-129 | a closed window, then a pinned one, then a headless failure, then a surface failure, then a surface reporting no format, present mode or alpha mode (the panic of indexing the first one) are refused in that order; success exactly when none of these happens; on success the window is pinned and the configuration is 0×0 with the first present mode and the preferred format |
| GpuContext.GpuInner.Device | src/gpu/gpu_inner.rs:381-387 | `get_device` panics exactly on an invalid context and otherwise returns the device |
| GpuContext.GpuInner.Queue | src/gpu/gpu_inner.rs:389-395 | `get_queue` panics exactly on an invalid context and otherwise returns the queue |
| GpuContext.GpuInner.IsSrgb | src/gpu/gpu_inner.rs:331-341 | `is_srgb` panics when invalid or unconfigured; otherwise says whether the format is sRGB |
| GpuContext.GpuInner.IsVsync | src/gpu/gpu_inner.rs:343-353 | `is_vsync` panics when invalid or unconfigured; otherwise says whether the present mode is Fifo |
| GpuContext.GpuInner.GetSwapchain | src/gpu/gpu_inner.rs:355-379 | NotAvailable without a surface, ConfigNeeded at a zero dimension, DeviceLost without a texture, Suboptimal carrying a suboptimal texture, else the texture |
| GpuContext.GpuInner.Resize | src/gpu/gpu_inner.rs:419-447 | nothing happens on an invalid context; without a window it panics; otherwise the configuration becomes the resized one |
| GpuContext.GpuInner.SetVsync | src/gpu/gpu_inner.rs:449-473 | nothing happens on an invalid context; without a window it panics; otherwise only the present mode changes, to the vsync mode |
| GpuContext.GpuInner.CycleManager | src/gpu/gpu_inner.rs:405-417 | unless the context is invalid, both pipeline caches and the bind-group cache age by one frame |
| GpuContext.GpuInner.CreateBuffer | src/gpu/gpu_inner.rs:475-492 | panics on an invalid context or size 0, and otherwise gives a zeroed buffer of the rounded size |
| GpuContext.GpuInner.CreateBufferWith | src/gpu/gpu_inner.rs:494-550 | panics on an invalid context or empty data; otherwise the buffer starts with the data and is zero after it, and always succeeds when the size does not overflow |
| GpuContext.GpuInner.GetGraphicsPipeline | src/gpu/gpu_inner.rs:552-560 | a panic when invalid; otherwise the cached pipeline exactly when the key is present, with its entry refreshed |
| GpuContext.GpuInner.CreateGraphicsPipeline | src/gpu/gpu_inner.rs:562-580 | a panic when invalid; otherwise the created pipeline, stored under the key; compute pipelines untouched |
| GpuContext.GpuInner.GetComputePipeline | src/gpu/gpu_inner.rs:582-590 | a panic when invalid; otherwise the cached compute pipeline exactly when the key is present, with its entry refreshed |
| GpuContext.GpuInner.CreateComputePipeline | src/gpu/gpu_inner.rs:592-610 | a panic when invalid; otherwise the created compute pipeline, stored under the key; graphics pipelines untouched |
| GpuContext.GpuInner.CreateBindGroup | src/gpu/gpu_inner.rs:612-625 | a panic when invalid; otherwise one (group, bind group) pair per layout group, stored under the key |
| GpuContext.GpuInner.GetBindGroup | src/gpu/gpu_inner.rs:627-635 | a panic when invalid; otherwise the cached bind groups exactly when the key is present, with the entry refreshed |
| GpuContext.ZeroResizeNeedsConfig | src/gpu/gpu_inner.rs:363-365 | after a zero-size resize both dimensions are 0, so the swapchain reports ConfigNeeded, and a further zero resize changes nothing |
| GpuContext.VsyncRoundTrip | src/gpu/gpu_inner.rs:343-353 | `is_vsync` after `set_vsync(v)` is `v` |
| Caches.Touched | src/gpu/pipeline/pipeline_manager.rs:49-57 | a fetch keeps the same keys, resets the fetched entry's age to 0 and changes no other entry |
| Caches.Stored | src/gpu/pipeline/pipeline_manager.rs:127 | an insert adds the key with age 0, replacing its old entry, and changes no other entry |
| Caches.Retained | src/gpu/pipeline/pipeline_manager.rs:177-178 | `retain` keeps exactly the entries younger than the lifetime, unchanged |
| Caches.Incremented | src/gpu/pipeline/pipeline_manager.rs:180-182 | aging keeps the keys and adds one to every age |
| Caches.IncrementAll | src/gpu/pipeline/pipeline_manager.rs:180-182 | the in-place aging loop, whatever order it visits the keys in, ages every entry by one |
| Caches.AgedBounds | src/gpu/pipeline/pipeline_manager.rs:176-190 | after a cycle exactly the young entries survive, with their value and an age between 1 and the lifetime |
| Caches.AgedTimesKeeps | src/gpu/pipeline/pipeline_manager.rs:176-190 | an unfetched entry keeps its value and is `n` frames older after `n` cycles while that stays within the lifetime |
| Caches.AgedTimesNoReturn | src/gpu/pipeline/pipeline_manager.rs:176-190 | cycles never bring back an evicted key |
| Caches.EvictedAfterLifetime | src/gpu/pipeline/pipeline_manager.rs:11 | an entry created and never fetched again is still cached after 50 (or 100) cycles and gone after one more |
| Caches.FetchAfterStore | src/gpu/shader/bind_group_manager.rs:24-56 | a fetch right after a create of the same key returns what was stored, with age 0 |
| Caches.PipelineManager.constructor | src/gpu/pipeline/pipeline_manager.rs:42-47 | a new manager has both maps empty |
| Caches.PipelineManager.GetGraphicsPipeline | src/gpu/pipeline/pipeline_manager.rs:49-57 | a hit returns the cached pipeline and resets its age; a miss returns None; the compute map is untouched |
| Caches.PipelineManager.CreateGraphicsPipeline | src/gpu/pipeline/pipeline_manager.rs:59-132 | the created pipeline is stored under the key with age 0 and returned |
| Caches.PipelineManager.GetComputePipeline | src/gpu/pipeline/pipeline_manager.rs:134-142 | a hit returns the cached compute pipeline and resets its age; a miss returns None |
| Caches.PipelineManager.CreateComputePipeline | src/gpu/pipeline/pipeline_manager.rs:144-174 | the created compute pipeline is stored under the key with age 0 and returned |
| Caches.PipelineManager.Cycle | src/gpu/pipeline/pipeline_manager.rs:176-190 | both maps drop the pipelines 50 frames old and age the others |
| Caches.BindGroupManager.constructor | src/gpu/shader/bind_group_manager.rs:18-22 | a new manager is empty |
| Caches.BindGroupManager.Get | src/gpu/shader/bind_group_manager.rs:24-33 | a hit returns the cached list and resets its age; a miss returns None |
| Caches.BindGroupManager.Create | src/gpu/shader/bind_group_manager.rs:35-56 | one (group, bind group) pair per layout, in order, stored under the key with age 0 and returned |
| Caches.BindGroupManager.Cycle | src/gpu/shader/bind_group_manager.rs:58-65 | the lists 100 frames old are dropped and the others aged |
| ShaderLayouts.CreateLayoutTy | src/gpu/shader/graphics.rs:504-556 | a push constant panics, and so does a storage texture with no access bit; buffers have no dynamic offset and a minimum size unless unsized or zero; a storage buffer is read-only exactly when READ is set without WRITE; a storage texture's access is chosen ReadWrite, ReadOnly, WriteOnly, Atomic in that order, in format Rgba8Unorm |
| ShaderLayouts.FindFrom | src/gpu/shader/graphics.rs:491-502 | `find_existing` finds the first entry of the group with the binding number, and none only when no entry has it |
| ShaderLayouts.AddBindingMerges | src/gpu/shader/graphics.rs:561-572 | a binding already present in its group, under merging, adds no entry and only ORs the stage into that entry's visibility |
| ShaderLayouts.AddBindingAppends | src/gpu/shader/graphics.rs:573-591 | a binding not merged appends exactly one entry with the stage and its layout type to its group; other groups are untouched |
| ShaderLayouts.AddBindingPanics | src/gpu/shader/graphics.rs:549-554 | a push constant or a storage texture without access stops the layout construction with its panic |
| ShaderLayouts.PushBindings | src/gpu/shader/graphics.rs:558-653 | the binding loop, updating the group map in place, computes exactly the fold of single-binding steps |
| ShaderLayouts.AddBindingsErrSticks | src/gpu/shader/graphics.rs:562 | once a binding panics, no later binding changes the outcome |
| ShaderLayouts.AppendedEntries | src/gpu/shader/graphics.rs:628-650 | without merging (a vertex-fragment reflection) each group's entries are its bindings one for one, in order, all with the same stage; a group exists exactly when a binding names it |
| ShaderLayouts.BindingNumbers | src/gpu/shader/graphics.rs:688 | a layout's `bindings` are its entries' binding numbers, in order |
| ShaderLayouts.SortedGroups | src/gpu/shader/graphics.rs:655-656 | the layouts come out in strictly increasing group order, one per group |
| ShaderLayouts.LayoutsIn | src/gpu/shader/graphics.rs:657-692 | one layout per listed group, in that order, carrying the group's entries and their binding numbers |
| ShaderLayouts.FindUniform | src/gpu/shader/graphics.rs:695-727 | `get_uniform_location` within one binding list: the numbers of the first uniform buffer with that name, and None exactly when there is none |
| GraphicsShaders.SetSource | src/gpu/shader/graphics.rs:48-63 | `set_source` (and `set_file` on the file's text) replaces any source by a single source |
| GraphicsShaders.SetVertexCode | src/gpu/shader/graphics.rs:112-124 | `set_vertex_code` sets the vertex text and keeps the fragment text of a split source, else leaves it empty |
| GraphicsShaders.SetFragmentCode | src/gpu/shader/graphics.rs:90-107 | `set_fragment_code` and `set_fragment_file` set the fragment text and keep the vertex text of a split source, else leave it empty |
| GraphicsShaders.SplitSettersCommute | src/gpu/shader/graphics.rs:90-141 | setting vertex and fragment text in either order gives the same split source, and the last vertex text wins |
| GraphicsShaders.VertexFileLosesFragment | src/gpu/shader/graphics.rs:74-77 | as written, `set_vertex_file` on a split source puts the old vertex text in the fragment slot; the intended setter keeps the fragment |
| GraphicsShaders.SetBinarySource | src/gpu/shader/graphics.rs:146-162 | `set_binary_source` and `set_binary_file` replace any source by a single binary |
| GraphicsShaders.SetBinaryVertex | src/gpu/shader/graphics.rs:167-179 | the intended `set_binary_vertex` sets the vertex binary and keeps the fragment binary of a split binary source |
| GraphicsShaders.SetBinaryFragment | src/gpu/shader/graphics.rs:184-196 | the intended `set_binary_fragment` sets the fragment binary and keeps the vertex binary of a split binary source |
| GraphicsShaders.BinarySettersLoseVertex | src/gpu/shader/graphics.rs:167-196 | as written, setting the vertex binary and then the fragment binary leaves an empty vertex binary; the intended setters keep both |
| GraphicsShaders.BinaryVertexLosesFragment | src/gpu/shader/graphics.rs:169-171 | as written, `set_binary_vertex` on a split binary replaces the fragment binary with the old vertex binary |
| GraphicsShaders.BinarySplitSettersCommute | src/gpu/shader/graphics.rs:167-196 | with the intended setters the order of the two binary setters does not matter |
| GraphicsShaders.ConversionReflexive | src/gpu/shader/graphics.rs:863-918 | every vertex format converts to itself |
| GraphicsShaders.Float32x3OnlyItself | src/gpu/shader/graphics.rs:879-885 | Float32x3 converts to no format but itself |
| GraphicsShaders.ConversionNeverWidens | src/gpu/shader/graphics.rs:863-918 | a supported conversion never needs more bytes than the reflected format, and only 32-bit float and unsigned formats convert to another |
| GraphicsShaders.CreateInputDesc | src/gpu/shader/graphics.rs:315-338 | a reflection other than Vertex or VertexFragment, or one without vertex input, is refused; otherwise the description has the reflected stride and attributes, U16 indices, a triangle list, no culling, fill mode and clockwise front faces |
| GraphicsShaders.MakeGroupLayoutSpec | src/gpu/shader/graphics.rs:485-693 | the layouts are in strictly increasing group order, one per group the bindings name, each listing its entries' binding numbers |
| GraphicsShaders.MakeGroupLayout | src/gpu/shader/graphics.rs:558-657 | the loop over the reflections builds exactly the specified layouts |
| GraphicsShaders.CollectLayoutsErrSticks | src/gpu/shader/graphics.rs:562 | once a reflection's binding panics the layout construction fails with that panic |
| GraphicsShaders.SharedBindingMerged | src/gpu/shader/graphics.rs:594-606 | a binding the fragment stage shares with the vertex stage becomes one entry visible to both, with the vertex stage's type |
| GraphicsShaders.VertexFragmentNeverMerges | src/gpu/shader/graphics.rs:628-650 | a vertex-fragment reflection never merges: a repeated binding appears twice |
| GraphicsShaders.ComputeReflectionSkipped | src/gpu/shader/graphics.rs:651 | a compute reflection contributes nothing to the layouts |
| GraphicsShaders.Assemble | src/gpu/shader/graphics.rs:388-399 | an assembled shader keeps its type and reflection, its layouts are the specified ones and its vertex description is that of the first reflection |
| GraphicsShaders.SingleOutcome | src/gpu/shader/graphics.rs:385-403 | a single source yields a shader only from a VertexFragment reflection, of the single type |
| GraphicsShaders.SplitOutcome | src/gpu/shader/graphics.rs:405-432 | a split source yields a shader only from a Vertex then a Fragment reflection, of the split type |
| GraphicsShaders.NewShader | src/gpu/shader/graphics.rs:296-483 | no device and no source are refused; a single or binary source gives one VertexFragment reflection, a split one a Vertex and a Fragment reflection; the layouts and vertex description are derived from them |
| GraphicsShaders.SingleSourceMustBeVertexFragment | src/gpu/shader/graphics.rs:401 | a single source whose reflection is not VertexFragment is refused |
| GraphicsShaders.SplitSourceMustBeVertexThenFragment | src/gpu/shader/graphics.rs:430 | a split source that does not reflect to a Vertex then a Fragment shader is refused |
| GraphicsShaders.GetUniformLocation | src/gpu/shader/graphics.rs:695-727 | the numbers of a uniform buffer with that name in a non-compute reflection, and None exactly when there is none |
| GraphicsShaders.GetUniformSize | src/gpu/shader/graphics.rs:729-770 | a size is returned only for a uniform buffer at those numbers; None means the first binding at those numbers in every reflection is absent or not a uniform buffer |
| GraphicsShaders.SetVertexInputErrors | src/gpu/shader/graphics.rs:804-843 | no vertex input and an unknown location are refused; a description that matches the reflection never misses the attribute |
| GraphicsShaders.SetVertexInputChangesOnlyFormat | src/gpu/shader/graphics.rs:816-848 | a supported conversion changes only the format of the first attribute at that location and keeps the description matching the reflection |
| GraphicsShaders.GraphicsShader.constructor | src/gpu/shader/graphics.rs:391-399 | a shader starts with the given type, reflection, layouts and description |
| GraphicsShaders.GraphicsShader.SetTopology | src/gpu/shader/graphics.rs:772-775 | only the topology changes, and the call succeeds |
| GraphicsShaders.GraphicsShader.SetCullMode | src/gpu/shader/graphics.rs:777-780 | only the cull mode changes, and the call succeeds |
| GraphicsShaders.GraphicsShader.SetPolygonMode | src/gpu/shader/graphics.rs:782-785 | only the polygon mode changes, and the call succeeds |
| GraphicsShaders.GraphicsShader.SetFrontFace | src/gpu/shader/graphics.rs:787-790 | only the front face changes, and the call succeeds |
| GraphicsShaders.GraphicsShader.SetVertexIndexTy | src/gpu/shader/graphics.rs:792-795 | only the index type changes, and the call succeeds |
| GraphicsShaders.GraphicsShader.SetVertexInput | src/gpu/shader/graphics.rs:797-849 | the description becomes the specified one on success and is unchanged on an error |
| ComputeShaders.NewBuilder | src/gpu/shader/compute.rs:20-25 | a new builder has empty source text |
| ComputeShaders.SetSource | src/gpu/shader/compute.rs:37-40 | `set_source` replaces the source text |
| ComputeShaders.SetFile | src/gpu/shader/compute.rs:27-35 | a failed read is the panic; otherwise the file's text becomes the source |
| ComputeShaders.MakeGroupLayoutSpec | src/gpu/shader/compute.rs:157-216 | the layouts follow the map's iteration order, one per group, each with the group's collected entries and their binding numbers; it fails exactly when a binding's layout type panics |
| ComputeShaders.MakeGroupLayout | src/gpu/shader/compute.rs:163-184 | the loop over the reflections builds exactly the specified layouts |
| ComputeShaders.CollectComputeLayoutsErrSticks | src/gpu/shader/compute.rs:167 | once a binding panics the layout construction fails with that panic |
| ComputeShaders.NonComputeHasNoLayouts | src/gpu/shader/compute.rs:182 | reflections that are not Compute give no layouts |
| ComputeShaders.ComputeLayoutsOfBindings | src/gpu/shader/compute.rs:165-180 | for a compute reflection each group's layout lists exactly its bindings' numbers in order, all visible to the compute stage, and a group is listed exactly when a binding names it |
| ComputeShaders.NewComputeShader | src/gpu/shader/compute.rs:62-101 | an invalid context panics, a parse error and a reflection error are reported; a built shader keeps its code, reflection and the layouts derived from it, and layout failure is the only other error |
| ComputeShaders.Build | src/gpu/shader/compute.rs:42-44 | `build` builds from the builder's source text |
| ComputeShaders.NonComputeShaderBuilds | src/gpu/shader/compute.rs:163-184 | a shader that reflects to no compute entry point still builds, with no layouts |
| ComputeShaders.GetUniformLocation | src/gpu/shader/compute.rs:218-231 | only a compute reflection is searched: the numbers of its first uniform buffer with that name, None exactly when there is none |
| BindGroups.GroupsOf | src/gpu/command/renderpass.rs:1129-1176 | the fold's groups are exactly the groups of the attachments |
| BindGroups.FindLayout | src/gpu/command/renderpass.rs:1185-1188 | the layout found belongs to the shader and has the group; None exactly when no layout has it |
| BindGroups.CreateInfo | src/gpu/command/renderpass.rs:1181-1196 | one (layout, entries) pair per group in the map's order, each with that group's layout and its attachments sorted by binding; only a missing layout fails |
| BindGroups.CreateInfoFailure | src/gpu/command/renderpass.rs:1188 | the build fails exactly when some group has no layout, and the panic names the first such group |
| BindGroups.CreateInfoSorted | src/gpu/command/renderpass.rs:1176-1179 | with unique (group, binding) keys every group's entries are in strictly increasing binding order |
| BindGroups.CreatedBindGroups | src/gpu/command/compute.rs:383-431 | on the compute side any attachment other than storage is the unsupported-type panic; otherwise a missing layout panics, else each group in order is paired with the bind group created for it |
| BindGroups.EveryGroupBoundOnce | src/gpu/command/renderpass.rs:1120-1200 | every group that has an attachment gets exactly one bind group, and no group gets two |
| BindGroups.ResolveBindGroups | src/gpu/command/compute.rs:377-434 | an invalid context panics; a cache hit returns the cached list and refreshes it; a miss builds as specified and caches the result under the key, leaving the cache alone on a panic |
| Bindings.Position | src/gpu/command/renderpass.rs:458-461 | the index of the first attachment with the (group, binding) key, None exactly when there is none |
| Bindings.Lookup | src/gpu/command/renderpass.rs:458-461 | the attachment found is in the table and has the key; None exactly when none has it |
| Bindings.InsertOrReplace | src/gpu/command/renderpass.rs:458-467 | the table grows by one exactly when the key was absent, and the new attachment is in it |
| Bindings.Removed | src/gpu/command/renderpass.rs:377-379 | `retain` never grows the table |
| Bindings.RemovedMembers | src/gpu/command/renderpass.rs:377-379 | removal keeps exactly the attachments without the key |
| Bindings.RemovedAppend | src/gpu/command/renderpass.rs:377-379 | removal keeps the relative order of what it keeps |
| Bindings.RemovedAbsent | src/gpu/command/renderpass.rs:377-379 | removing an absent key leaves the table as it is |
| Bindings.RemovedKeepsUnique | src/gpu/command/renderpass.rs:377-379 | removal keeps the keys unique |
| Bindings.RemoveThenLookup | src/gpu/command/renderpass.rs:364-380 | after a removal the key is not found |
| Bindings.RemovedOverwrite | src/gpu/command/renderpass.rs:463-464 | overwriting an entry in place with one of the same key changes nothing the removal of that key keeps |
| Bindings.InsertKeepsOthers | src/gpu/command/renderpass.rs:458-467 | insert-or-replace leaves every other attachment where it was |
| Bindings.InsertThenLookup | src/gpu/command/renderpass.rs:458-467 | after an insert the key holds exactly the new attachment |
| Bindings.InsertKeepsOtherLookups | src/gpu/command/renderpass.rs:458-467 | an insert under one key leaves every other key's lookup unchanged |
| Bindings.InsertKeepsUnique | src/gpu/command/renderpass.rs:458-467 | insert-or-replace keeps the keys unique |
| Bindings.KindMatches | src/gpu/command/renderpass.rs:431-455 | an attachment is accepted exactly when its kind is the one the binding type takes: uniform buffers and push constants a Uniform, storage buffers Storage, storage textures TextureStorage, samplers Sampler, textures Texture |
| Bindings.FindBinding | src/gpu/command/renderpass.rs:416-422 | the first shader binding with the key, None exactly when there is none |
| Bindings.FindGraphicsBinding | src/gpu/command/renderpass.rs:403-429 | the binding found is in a non-compute reflection and has the key; None (the panic) exactly when no non-compute reflection has it |
| Bindings.FirstPushConstant | src/gpu/command/renderpass.rs:610-616 | the size of a push-constant binding of the list, None exactly when it has none |
| Bindings.GraphicsPushConstantSize | src/gpu/command/renderpass.rs:597-618 | a non-zero size is that of a push constant of a non-compute reflection; with none the size is 0 |
| Bindings.VertexEntry | src/gpu/command/renderpass.rs:278-294 | a vertex entry point exists exactly when some reflection is Vertex or VertexFragment |
| Bindings.FragmentEntry | src/gpu/command/renderpass.rs:283-303 | a fragment entry point exists exactly when some reflection is Fragment or VertexFragment |
| Bindings.BindShader | src/gpu/command/renderpass.rs:254-332 | no vertex entry point, then no fragment entry point, panic; otherwise the binding has both entry points, the shader's layouts and vertex layout, and each given override in place of the shader's value, with the cull mode as given |
| Bindings.DefaultOptionsUseShader | src/gpu/command/renderpass.rs:325-329 | with no overrides the binding uses the shader's topology, front face, polygon mode and index format, and no culling |
| Bindings.OfGroup | src/gpu/command/renderpass.rs:1129-1176 | the fold gives each group exactly its own attachments |
| Bindings.InsertByBinding | src/gpu/command/renderpass.rs:1178 | inserting into a list sorted by binding keeps it sorted and adds exactly the one entry |
| Bindings.SortByBinding | src/gpu/command/renderpass.rs:1178 | `sort_by_key` gives a list sorted by binding that is a permutation of its input |
| Bindings.GroupEntries | src/gpu/command/renderpass.rs:1129-1179 | a group's entries are sorted by binding and are exactly its attachments |
| Bindings.SortStrict | src/gpu/command/renderpass.rs:1178 | sorting entries with distinct bindings gives strictly increasing bindings |
| Bindings.OfGroupDistinct | src/gpu/command/renderpass.rs:1129-1176 | with unique keys a group's attachments have distinct bindings |
| Bindings.GroupEntriesStrict | src/gpu/command/renderpass.rs:1120-1200 | with unique keys no binding appears twice in a group's entries |
| GraphicsCaches.InsertPipelineBounded | src/graphics/pipeline_manager.rs:43-134 | a cached pipeline is returned and refreshed; a new one is stored with age 0; the map never exceeds 500 pipelines, and the capacity panic happens only when it is full even after the emergency eviction |
| GraphicsCaches.InsertPipelineEvicts | src/graphics/pipeline_manager.rs:66-69 | a full map with a pipeline 10 or more frames old evicts it and accepts the new pipeline |
| GraphicsCaches.ComputeCacheNeverHits | src/graphics/pipeline_manager.rs:151-180 | as written, the presence check looks at the graphics map, so a cached compute pipeline is created again and replaced; the corrected insert returns the cached one |
| GraphicsCaches.ComputeCacheUnbounded | src/graphics/pipeline_manager.rs:151-177 | as written, a full compute map grows past 500 when the graphics map has room; the corrected insert keeps the bound |
| GraphicsCaches.PipelineManager.constructor | src/graphics/pipeline_manager.rs:36-41 | a new manager has both maps empty |
| GraphicsCaches.PipelineManager.InsertGraphicsPipeline | src/graphics/pipeline_manager.rs:43-134 | the graphics map and the result are the specified insert's; the compute map is untouched |
| GraphicsCaches.PipelineManager.InsertComputePipeline | src/graphics/pipeline_manager.rs:136-184 | the corrected compute insert on the compute map; the graphics map is untouched |
| GraphicsCaches.PipelineManager.Cycle | src/graphics/pipeline_manager.rs:186-200 | both maps drop the pipelines 50 frames old and age the others |
| GraphicsCaches.InsertBindGroup | src/graphics/bind_group_manager.rs:19-63 | a cached bind group is returned, otherwise the created one; either way it is stored under the key with age 0 |
| GraphicsCaches.InsertBindGroupTwice | src/graphics/bind_group_manager.rs:49-62 | inserting the same key again returns the first bind group and changes nothing |
| GraphicsCaches.BindGroupManager.constructor | src/graphics/bind_group_manager.rs:13-17 | a new manager is empty |
| GraphicsCaches.BindGroupManager.Insert | src/graphics/bind_group_manager.rs:19-63 | the result and the map are the specified insert's |
| GraphicsCaches.BindGroupManager.Cycle | src/graphics/bind_group_manager.rs:65-72 | the bind groups 100 frames old are dropped and the others aged |
| GraphicsCaches.Acquired | src/graphics/buffer_manager.rs:29-127 | `insert` and `make` return the cached buffer with one more holder, or store the created one with one holder and age 0 |
| GraphicsCaches.Released | src/graphics/buffer_manager.rs:140 | the holder count goes down by one, wrapping to the largest usize at zero |
| GraphicsCaches.DropBufferSpec | src/graphics/buffer_manager.rs:129-146 | dropping an unknown buffer panics; otherwise the entry loses a holder, or is removed with its last holder, and the cache stays well formed |
| GraphicsCaches.DropWhileStillHeld | src/graphics/buffer_manager.rs:139-145 | as written, a permanent buffer with two holders is removed on the first drop; the corrected drop keeps it with one holder |
| GraphicsCaches.AcquireThenDrop | src/graphics/buffer_manager.rs:29-146 | an acquire followed by a drop of the buffer returned restores the cache, or removes an entry that had no holders |
| GraphicsCaches.Bumped | src/graphics/buffer_manager.rs:152-154 | `cycle` ages only temporary buffers, by one |
| GraphicsCaches.CycleKeepsPermanent | src/graphics/buffer_manager.rs:148-164 | `cycle` keeps the cache well formed, never evicts or changes a permanent buffer and adds nothing |
| GraphicsCaches.CycleEvictsTemporary | src/graphics/buffer_manager.rs:152-158 | a temporary buffer is evicted exactly when it reaches 60 frames |
| GraphicsCaches.BufferManager.constructor | src/graphics/buffer_manager.rs:23-27 | a new cache is empty |
| GraphicsCaches.BufferManager.Acquire | src/graphics/buffer_manager.rs:29-85 | the result and the cache are the specified acquire's, and the cache stays well formed |
| GraphicsCaches.BufferManager.DropBuffer | src/graphics/buffer_manager.rs:129-146 | the cache becomes the specified drop's, or is unchanged with the not-found panic |
| GraphicsCaches.BufferManager.Cycle | src/graphics/buffer_manager.rs:148-164 | the cache becomes the cycled one and stays well formed |
| GraphicsCaches.FindBuffer | src/graphics/buffer_manager.rs:130-137 | the scan finds the key holding the buffer, or reports that none does |
| GraphicsCaches.AgeTemporary | src/graphics/buffer_manager.rs:151-159 | the first loop of `cycle` ages each temporary buffer and collects exactly the keys that reached 60 frames |
| GraphicsCaches.RemoveKeys | src/graphics/buffer_manager.rs:161-163 | the second loop removes exactly the collected keys and keeps the other entries |
| RenderPipelines.GraphicsAttachmentCheck | src/gpu/command/pipeline.rs:456-508 | accepted exactly when the reflection is set and its first vertex or fragment binding at the (group, binding) takes the attachment's kind; otherwise one of the three panics |
| RenderPipelines.AcceptedAttachmentIsReflected | src/gpu/command/pipeline.rs:456-508 | an accepted attachment sits at a binding of a vertex or fragment reflection whose type takes its kind |
| RenderPipelines.BuilderInsertCheck | src/gpu/command/pipeline.rs:450-508 | without a shader the insert panics with "Shader is not set"; with one it is the reflected-binding check |
| RenderPipelines.RenderPipelineBuilder.constructor | src/gpu/command/pipeline.rs:37-47 | a new builder has no attachments, no shader, no reflection, no blend and no write mask |
| RenderPipelines.RenderPipelineBuilder.SetBlend | src/gpu/command/pipeline.rs:50-63 | Some sets the blend state and the write mask it converts to, None clears both; nothing else changes |
| RenderPipelines.RenderPipelineBuilder.SetShader | src/gpu/command/pipeline.rs:66-167 | None clears the shader and its reflection; Some stores the binding made from the shader and options with its reflection, or returns the binding's panic and leaves the shader as it was |
| RenderPipelines.RenderPipelineBuilder.SetAttachment | src/gpu/command/pipeline.rs:169-521 | None removes the (group, binding); Some inserts or replaces in place when the validation passes and otherwise leaves the table unchanged; keys stay unique |
| RenderPipelines.RenderPipelineBuilder.Build | src/gpu/command/pipeline.rs:523-664 | panics without a shader; a cached bind group is reused under its key, otherwise the groups are created in group order and cached; the descriptor carries the shader, blend and write mask |
| RenderPipelines.BuilderDescDefaults | src/gpu/command/pipeline.rs:646-657 | the descriptor has one Rgba8UnormSrgb target carrying the builder's blend and mask, no depth-stencil and one sample, with the shader's layouts and entry point |
| ComputePipelines.DescOf | src/gpu/pipeline/compute.rs:528-538 | the descriptor carries the binding's module, entry point and layouts |
| ComputePipelines.BindingOf | src/gpu/pipeline/compute.rs:55-69 | a binding exists exactly for a Compute reflection, with the shader's module, the reflected entry point and the shader's layouts |
| ComputePipelines.ReflectedBinding | src/gpu/pipeline/compute.rs:384-393 | the binding found is in a Compute reflection and sits at the attachment's key; none exactly when the reflection is not Compute or no binding has the key |
| ComputePipelines.AttachmentCheck | src/gpu/pipeline/compute.rs:395-429 | passes exactly when the binding is reflected and its type takes the attachment's kind; AttachmentNotSet when unreflected, InvalidAttachmentType with the reflected type otherwise |
| ComputePipelines.Validated | src/gpu/pipeline/compute.rs:383-430 | passes exactly when every attachment's check passes; otherwise it is the first failing check |
| ComputePipelines.ValidatedErrSticks | src/gpu/pipeline/compute.rs:383-430 | once a prefix fails, every longer prefix returns that same error |
| ComputePipelines.ValidatedMeansReflected | src/gpu/pipeline/compute.rs:383-430 | after validation every attachment sits at a reflected binding whose type takes its kind, and a non-empty table implies a Compute reflection |
| ComputePipelines.ValidateAttachments | src/gpu/pipeline/compute.rs:383-430 | the loop returns the first failing check in table order, or success |
| ComputePipelines.ComputePipelineBuilder.constructor | src/gpu/pipeline/compute.rs:42-49 | a new builder has no shader, no reflection and no attachments |
| ComputePipelines.ComputePipelineBuilder.SetShader | src/gpu/pipeline/compute.rs:52-81 | a non-Compute reflection is the panic and changes nothing; a Compute shader stores its binding and reflection; None clears both |
| ComputePipelines.ComputePipelineBuilder.SetAttachment | src/gpu/pipeline/compute.rs:84-375 | None removes the (group, binding); Some inserts or replaces in place without validation; keys stay unique |
| ComputePipelines.ComputePipelineBuilder.Build | src/gpu/pipeline/compute.rs:377-546 | ShaderNotSet without a shader; the first failing attachment check with the cache untouched; then the cached bind group under its key, or the groups created in group order and cached; the descriptor is the binding's |
| RenderPasses.CachedPipeline | src/gpu/command/renderpass.rs:1219-1270 | the pipeline key ends up cached with age 0 holding the pipeline returned: the cached one on a hit, the device's on a miss; no other key is added |
| RenderPasses.DrawBindGroups | src/gpu/command/renderpass.rs:1120-1201 | a bound pipeline brings its own bind groups and leaves the cache alone; in intermediate mode the result is cached under the table's key, and a failure is only the missing-layout panic with the cache unchanged |
| RenderPasses.Prepare | src/gpu/command/renderpass.rs:1086-1326 | ShaderNotSet without a shader, InvalidContext on an invalid context; on success the pipeline and (intermediate) bind groups are cached under their keys and the shader's index format comes back; a failure leaves the caches unchanged |
| RenderPasses.PrepareReusesCache | src/gpu/command/renderpass.rs:1120-1125 | a second draw with the same keys gets the same pipeline and bind groups back from the caches, whatever the device would create |
| RenderPasses.PassPipelineDesc | src/gpu/command/renderpass.rs:1241-1290 | the descriptor has the pass's depth format and its sample count (1 without MSAA), and ends with the pass's colour targets; intermediate mode has exactly those targets, pipeline mode the pipeline's own in front |
| RenderPasses.BuiltPipelineHasExtraTarget | src/gpu/command/renderpass.rs:1278-1290 | a pipeline from the builder carries its Rgba8UnormSrgb target in front of the pass's targets, one more than the same binding in intermediate mode and otherwise the same descriptor |
| RenderPasses.Blended | src/gpu/command/renderpass.rs:139-147 | Some sets the blend state and the write mask it converts to; None clears the blend and writes colour only; the view and format stay |
| RenderPasses.SetThenGetBlend | src/gpu/command/renderpass.rs:136-168 | `get_blend` after `set_blend` reads back the same wgpu blend state and write mask, or colour-only writes after a clear |
| RenderPasses.DepthCheck | src/gpu/command/renderpass.rs:541-573 | a depth texture is accepted exactly with render-attachment usage, one of the three depth formats, one sample, a non-zero size equal to the surface size; the first failing check is the panic |
| RenderPasses.DepthFormatsRefused | src/gpu/command/renderpass.rs:550-558 | Depth16Unorm and Depth32FloatStencil8 are depth formats of the crate yet are refused |
| RenderPasses.PushConstantCheck | src/gpu/command/renderpass.rs:591-623 | accepted exactly with a shader, a reflection and data no longer than the reflected push-constant size (0 without one) |
| RenderPasses.PushConstantPadding | src/gpu/command/renderpass.rs:625-631 | the stored data is the input followed by fewer than four zeros, its length a multiple of 4 |
| RenderPasses.PassAttachCheck | src/gpu/command/renderpass.rs:390-456 | ShaderNotSet without a shader, the pipeline-shader panic with a bound pipeline, otherwise the reflected-binding check of the render side |
| RenderPasses.IndirectCheckAsWritten | src/gpu/command/renderpass.rs:1016-1019 | the check as written refuses exactly the buffers with INDIRECT usage |
| RenderPasses.IndirectCheck | src/gpu/command/renderpass.rs:1016-1019 | the check the panic message states: accepted exactly with INDIRECT usage |
| RenderPasses.IndirectCheckInverted | src/gpu/command/renderpass.rs:1016-1029 | the written check accepts exactly what the intended one refuses: an INDIRECT buffer is refused, a vertex-only one let through |
| RenderPasses.LoadOpOf | src/gpu/command/renderpass.rs:1337-1348 | targets are loaded exactly when a clear colour with non-positive alpha is set; otherwise they are cleared to it, or to black by default |
| RenderPasses.EntryDraws | src/gpu/command/renderpass.rs:1402-1471 | one queue entry issues its own draw, indexed exactly with an index buffer, exactly when its viewport and scissor are visible, and no other draw |
| RenderPasses.ReplayDraws | src/gpu/command/renderpass.rs:1402-1471 | the replay issues, in queue order, the draw of every entry whose viewport and scissor are visible, and no other draw |
| RenderPasses.DirectDrawsAllReplayed | src/gpu/command/renderpass.rs:939-1011 | direct draws are only queued when drawable, so a queue of direct draws is replayed in full and in order |
| RenderPasses.ReplayEntry | src/gpu/command/renderpass.rs:1403-1470 | the commands of one loop turn: pipeline, bind groups, vertex buffer, push constants; an invisible scissor, then viewport, skips the rest; then scissor, viewport, index buffer and the draw |
| RenderPasses.RenderPass.constructor | src/gpu/command/renderpass.rs:83-121 | a new pass has no targets, depth, MSAA, clear colour, viewport, scissor, buffers, shader or attachments, a zero surface size and an empty queue |
| RenderPasses.RenderPass.SetClearColor | src/gpu/command/renderpass.rs:124-127 | only the clear colour changes |
| RenderPasses.RenderPass.SetBlend | src/gpu/command/renderpass.rs:136-153 | the target at the index becomes `Blended`, the others stay; a missing target is the panic and changes nothing |
| RenderPasses.RenderPass.SetGpuBuffer | src/gpu/command/renderpass.rs:209-240 | accepted exactly with a shader, and an index buffer only with an index format; then only the buffers change |
| RenderPasses.RenderPass.SetShader | src/gpu/command/renderpass.rs:249-348 | None clears the shader and reflection; Some stores the binding made from the shader and options with its reflection, or returns the binding's panic with nothing changed |
| RenderPasses.RenderPass.SetPipeline | src/gpu/command/renderpass.rs:350-361 | the pipeline replaces any shader (None clears it); the reflection is left as it was |
| RenderPasses.RenderPass.SetAttachment | src/gpu/command/renderpass.rs:364-467 | None removes the key unless a pipeline is bound (the panic); Some passes `PassAttachCheck` and is inserted or replaces the entry with the same key; keys stay unique |
| RenderPasses.RenderPass.SetViewport | src/gpu/command/renderpass.rs:471-483 | only the viewport changes: the rectangle with its depth range, or none |
| RenderPasses.RenderPass.SetScissor | src/gpu/command/renderpass.rs:491-494 | only the scissor changes |
| RenderPasses.RenderPass.PushMsaaTexture | src/gpu/command/renderpass.rs:511-530 | accepted exactly when no sample count is fixed yet or the texture's equals it; then the count is fixed and the view appended; a mismatch is the panic |
| RenderPasses.RenderPass.SetDepthTexture | src/gpu/command/renderpass.rs:533-583 | None clears the depth view and format; Some passes `DepthCheck` and sets both, or is the panic with nothing changed |
| RenderPasses.RenderPass.SetPushConstants | src/gpu/command/renderpass.rs:586-638 | None clears them; Some passes `PushConstantCheck` and stores the data padded to a multiple of 4 |
| RenderPasses.RenderPass.PreparePipeline | src/gpu/command/renderpass.rs:1086-1326 | the result and the new caches are exactly `Prepare` on the caches it started with; compute pipelines are untouched |
| RenderPasses.RenderPass.Record | src/gpu/command/renderpass.rs:959-1011 | the vertex buffer, then an indexed draw's index buffer, must be set; the pipeline is prepared; an indexed draw needs an index format; then the entry is queued with the pass's current state; settings are unchanged |
| RenderPasses.RenderPass.Draw | src/gpu/command/renderpass.rs:917-1012 | nothing happens while the viewport or scissor is invisible; otherwise the direct draw is recorded as `Record` states |
| RenderPasses.RenderPass.DrawIndirect | src/gpu/command/renderpass.rs:1015-1084 | with the usage check corrected, a buffer without INDIRECT usage is refused with nothing changed; otherwise the indirect draw is recorded whatever the viewport and scissor |
| RenderPasses.RenderPass.End | src/gpu/command/renderpass.rs:1333-1484 | with MSAA the MSAA targets must match the colour targets one to one (the panic keeps the flag); each colour attachment draws into its MSAA target resolving to the colour target, or into the colour target; the depth view and load op are set; the commands are the replay of the queue; the pass flag is cleared |
| RenderPasses.RenderPass.Replayed | src/gpu/command/renderpass.rs:1402-1471 | the loop's commands are the replay of every queued entry in order |
| RenderPassBuilders.ColorViewOf | src/gpu/command/renderpass.rs:1602-1637 | a surface texture without a frame panics, one with a frame gives its view, format and size; a texture must be a render attachment, of non-zero size and single-sampled, checked in that order, and then gives its view, format and size |
| RenderPassBuilders.TargetOf | src/gpu/command/renderpass.rs:1653-1658 | the target keeps the view and format and has a blend state and write mask exactly when a blend was given, the ones it converts to |
| RenderPassBuilders.MsaaTextureCheck | src/gpu/command/renderpass.rs:1667-1682 | accepted exactly as a multi-sampled render attachment of non-zero size; the first failing check names the error |
| RenderPassBuilders.DepthTextureCheck | src/gpu/command/renderpass.rs:1716-1735 | accepted exactly as a render attachment of non-zero size in Depth32Float or Depth24PlusStencil8; the first failing check names the error |
| RenderPassBuilders.SizeCheck | src/gpu/command/renderpass.rs:1639-1647 | accepted exactly when no size is fixed yet or the size equals it; otherwise MismatchedAttachmentSize(fixed, actual) |
| RenderPassBuilders.ColorPass | src/gpu/command/renderpass.rs:1600-1659 | after n attachments: n targets, each the target of its attachment, and a fixed size exactly when n > 0; or the first error |
| RenderPassBuilders.MsaaPass | src/gpu/command/renderpass.rs:1661-1708 | after n textures: their n views and a sample count exactly when n > 0, shared by all; or the first error |
| RenderPassBuilders.DepthPass | src/gpu/command/renderpass.rs:1710-1753 | no depth texture leaves the size as it was; otherwise the checked view, its format and the size it fixes, or the error |
| RenderPassBuilders.BuildSpec | src/gpu/command/renderpass.rs:1597-1772 | a successful build has one target per colour attachment, one view per MSAA texture, a sample count exactly with MSAA textures and a depth view exactly with a depth texture |
| RenderPassBuilders.PassOf | src/gpu/command/renderpass.rs:1759-1769 | the new pass carries the built targets, MSAA views and count, depth view and format and surface size, with nothing else set |
| RenderPassBuilders.ColorErrorSticks | src/gpu/command/renderpass.rs:1601-1659 | once the colour loop has returned an error, later attachments do not change it |
| RenderPassBuilders.MsaaErrorSticks | src/gpu/command/renderpass.rs:1664-1708 | once the MSAA loop has returned an error, later textures do not change it |
| RenderPassBuilders.ColorSizeIsFirst | src/gpu/command/renderpass.rs:1649-1651 | the fixed size is the first colour attachment's |
| RenderPassBuilders.ColorSizeMismatch | src/gpu/command/renderpass.rs:1639-1647 | a later colour attachment of another size fails with MismatchedAttachmentSize(first size, its size) |
| RenderPassBuilders.NoAttachmentRefused | src/gpu/command/renderpass.rs:1755-1757 | no colour and no depth attachment is always an error, and NoColorOrDepthAttachment is exactly that case with MSAA textures that pass their own checks |
| RenderPassBuilders.BuildSucceeded | src/gpu/command/renderpass.rs:1597-1772 | after a successful build every colour and depth attachment has the surface size, so does every MSAA texture when there is a colour attachment, and the surface size is the first colour attachment's, else the depth texture's |
| RenderPassBuilders.BuilderDepthFormatsNarrower | src/gpu/command/renderpass.rs:1729-1735 | every depth format `build` accepts is one `set_depth_texture` accepts, but a Depth24Plus texture is refused by `build` and taken by `set_depth_texture` |
| RenderPassBuilders.ColorTargets | src/gpu/command/renderpass.rs:1600-1659 | the colour loop returns `ColorPass` over all attachments |
| RenderPassBuilders.MsaaTargets | src/gpu/command/renderpass.rs:1661-1708 | the MSAA loop returns `MsaaPass` over all textures |
| RenderPassBuilders.DepthTarget | src/gpu/command/renderpass.rs:1710-1753 | the depth step returns `DepthPass` |
| RenderPassBuilders.NewPass | src/gpu/command/renderpass.rs:1759-1769 | a fresh pass whose settings are `PassOf` the build, with an empty queue |
| RenderPassBuilders.RenderpassBuilder.constructor | src/gpu/command/renderpass.rs:1544-1558 | a new builder has no colour, MSAA or depth attachment |
| RenderPassBuilders.RenderpassBuilder.AddSurfaceColorAttachment | src/gpu/command/renderpass.rs:1561-1572 | appends the surface texture with its blend; nothing else changes |
| RenderPassBuilders.RenderpassBuilder.AddColorAttachment | src/gpu/command/renderpass.rs:1574-1583 | appends the texture with its blend; nothing else changes |
| RenderPassBuilders.RenderpassBuilder.AddMsaaAttachment | src/gpu/command/renderpass.rs:1585-1589 | appends the texture; nothing else changes |
| RenderPassBuilders.RenderpassBuilder.SetDepthAttachment | src/gpu/command/renderpass.rs:1591-1595 | replaces the depth texture; nothing else changes |
| RenderPassBuilders.RenderpassBuilder.Build | src/gpu/command/renderpass.rs:1597-1772 | the error `BuildSpec` names, or a new pass on the builder's context and flag whose settings are `PassOf` the build |
| CommandBuffers.OpenCheck | src/gpu/command/mod.rs:133-136 | a begin passes exactly when neither the render-pass nor the compute-pass flag is set |
| CommandBuffers.RenderFlagAfterAsWritten | src/gpu/command/mod.rs:116-228 | as written, the render-pass flag is true after `renderpass_builder`, `begin_renderpass` and `begin_depth_texture` and false after `begin_texture` and `begin_computepass` |
| CommandBuffers.RenderFlagAfter | src/gpu/command/mod.rs:201-219 | corrected: every render begin sets the flag, only the compute begin clears it |
| CommandBuffers.TextureBeginLeavesUnguarded | src/gpu/command/mod.rs:205-210 | with the corrected flag every later begin panics after any render begin; as written a texture pass leaves the next begin unguarded; the corrected flag is set wherever the written one is |
| CommandBuffers.Acquire | src/gpu/command/mod.rs:138-158 | a frame already held is kept; otherwise the acquired frame, suboptimal or not; an error exactly when none is held and acquisition fails otherwise |
| CommandBuffers.SurfaceErrorOf | src/gpu/command/mod.rs:361-376 | NotAvailable, ConfigNeeded and DeviceLost map to their namesakes; the Suboptimal arm gives NotAvailable |
| CommandBuffers.SurfaceErrorInjective | src/gpu/command/mod.rs:361-376 | on the errors acquisition can return, the mapping loses no information |
| CommandBuffers.SurfaceBuilds | src/gpu/command/mod.rs:160-168 | a surface frame always builds: one blend-less target on the frame's view sized as the frame |
| CommandBuffers.DepthBuilds | src/gpu/command/mod.rs:184-192 | a depth-only pass builds exactly when the builder's depth checks pass, with the depth view, its format and its size |
| CommandBuffers.TextureBuilds | src/gpu/command/mod.rs:210-218 | a pass on one texture builds exactly when the builder's colour checks pass, with one blend-less target sized as the texture |
| CommandBuffers.CopyCheck | src/gpu/command/mod.rs:287-301 | accepted exactly with the same format, the same size and one mip level on each side; the first failing check names the panic |
| CommandBuffers.CopyExtentAsWritten | src/gpu/command/mod.rs:319-323 | as written, the extent is the source rectangle's position cast to u32 |
| CommandBuffers.CopyExtent | src/gpu/command/mod.rs:319-323 | corrected: the extent is the source's width and height |
| CommandBuffers.CopyExtentAsWrittenEmpty | src/gpu/command/mod.rs:319-323 | for a texture at (0, 0) the written extent is empty while the intended one is its whole size; the two agree only where position equals size |
| CommandBuffers.EndOutcomeOf | src/gpu/command/mod.rs:327-343 | nothing happens once the encoder is gone; a pass still holding the encoder or an invalid context is a panic; otherwise exactly the recorded commands are submitted |
| CommandBuffers.EndIdempotent | src/gpu/command/mod.rs:330-332 | `end` on an ended buffer does nothing |
| CommandBuffers.CommandBuffer.constructor | src/gpu/command/mod.rs:75-82 | both flags clear and fresh, an empty encoder, nothing submitted, the given surface texture |
| CommandBuffers.CommandBuffer.New | src/gpu/command/mod.rs:64-83 | an invalid context panics; otherwise a buffer with clear flags, an empty encoder and a new, empty surface texture |
| CommandBuffers.CommandBuffer.NewWithSurface | src/gpu/command/mod.rs:85-107 | as `New`, sharing the given surface texture |
| CommandBuffers.CommandBuffer.RenderpassBuilder | src/gpu/command/mod.rs:116-124 | the encoder must still be there; then the render-pass flag is set and an empty builder on the context and that flag is returned |
| CommandBuffers.CommandBuffer.BeginRenderpass | src/gpu/command/mod.rs:132-169 | the open check; a frame for the surface texture if it holds none, or the swapchain error; then the flag is set and the pass built over the surface alone |
| CommandBuffers.CommandBuffer.BeginDepthTexture | src/gpu/command/mod.rs:175-193 | the open check; the flag is set; the pass is built over the depth texture alone, as `DepthBuilds` says |
| CommandBuffers.CommandBuffer.BeginTexture | src/gpu/command/mod.rs:201-219 | corrected flag: the open check, the flag set, the pass built over the texture alone, as `TextureBuilds` says |
| CommandBuffers.CommandBuffer.BeginComputepass | src/gpu/command/mod.rs:222-235 | the open check; the render-pass flag is cleared and a new compute pass on the compute flag is returned |
| CommandBuffers.CommandBuffer.CopyTexture | src/gpu/command/mod.rs:280-325 | the encoder must be there and `CopyCheck` pass; then exactly one copy of the source's width and height from the origin is appended; nothing is submitted |
| CommandBuffers.CommandBuffer.BlitTexture | src/gpu/command/mod.rs:257-272 | the encoder must be there and the context valid; then one blit from the source view into the destination view in the destination format is appended |
| CommandBuffers.CommandBuffer.End | src/gpu/command/mod.rs:327-343 | the outcome is `EndOutcomeOf`; a submission appends the encoder's commands and presents when asked; afterwards the encoder is gone, and on an ended buffer nothing changes |
| CommandBuffers.CommandBuffer.GetSurfaceTexture | src/gpu/command/mod.rs:348-382 | a frame for the surface texture if it holds none, then the surface texture itself; an acquisition failure is its mapped error with the texture unchanged |
| CommandBuffers.CommandBuffer.Drop | src/gpu/command/mod.rs:386-397 | nothing while panicking; a panic while either pass flag is set; otherwise `end(true)` |
| ComputePasses.Prepare | src/gpu/command/compute.rs:339-469 | InvalidContext on an invalid context; the cached bind groups under the table's key, else the groups created for the table (unsupported kinds and missing layouts are panics); then the cached or created pipeline; both end up cached with age 0, and a failure leaves the caches unchanged |
| ComputePasses.PrepareReusesCache | src/gpu/command/compute.rs:377-381 | a second dispatch with the same keys gets the same pipeline and bind groups back from the caches |
| ComputePasses.UnsupportedAttachmentRefused | src/gpu/command/compute.rs:387-401 | on a cache miss a table holding anything but storage buffers and storage textures is the "Unsupported bind group type" panic, with the caches unchanged |
| ComputePasses.ComputePushConstantSize | src/gpu/command/compute.rs:118-134 | the size is 0 exactly when the reflection declares no push constant or a zero-sized first one; otherwise it is a declared push-constant size |
| ComputePasses.PushConstantCheck | src/gpu/command/compute.rs:112-143 | accepted exactly with a shader, a Compute reflection, a non-zero reflected size and a padded length within it; the first failing check names the panic |
| ComputePasses.InsertCheck | src/gpu/command/compute.rs:222-274 | accepted exactly with a shader, a reflection whose Compute binding at the key takes the attachment's kind; the first failing check names the panic |
| ComputePasses.ReflectionAsWritten | src/gpu/command/compute.rs:58-99 | as written the pass's reflection is None after any `set_shader`: nothing writes it |
| ComputePasses.ReflectionAfterSetShader | src/gpu/command/compute.rs:68-99 | corrected: setting a shader records its reflection; None leaves it as it was |
| ComputePasses.AsWrittenRefusesAll | src/gpu/command/compute.rs:112-274 | as written, a shader declaring the binding and the push constant still has every insert and every push-constant upload refused on the missing reflection; with the reflection recorded both are accepted |
| ComputePasses.DispatchCommand | src/gpu/command/compute.rs:533-540 | a direct dispatch issues a direct workgroup dispatch and an indirect one an indirect dispatch; the command carries back exactly the dispatch it came from |
| ComputePasses.CreationPanic | src/gpu/gpu_inner.rs:494-522 | an invalid context and empty data keep their own panics, and every other failure of `create_buffer_with` is the wrapped-size panic |
| ComputePasses.CommandDispatch | src/gpu/command/compute.rs:533-540 | exactly the dispatch commands carry a dispatch |
| ComputePasses.EntryDispatches | src/gpu/command/compute.rs:517-541 | one queue entry issues exactly its own dispatch |
| ComputePasses.ReplayDispatches | src/gpu/command/compute.rs:509-541 | the drain issues the queue's dispatches, each once and in queue order |
| ComputePasses.ReplayEntry | src/gpu/command/compute.rs:517-541 | one loop turn issues the pipeline, each bind group, the push constants when set, then the dispatch |
| ComputePasses.ComputePass.constructor | src/gpu/command/compute.rs:49-66 | a new pass has no shader, no attachments, no push constants, no reflection and an empty queue |
| ComputePasses.ComputePass.SetShader | src/gpu/command/compute.rs:68-99 | a non-Compute reflection, then an empty entry point, is the panic and changes nothing; otherwise the module, entry point and layouts are bound and the reflection recorded; None unbinds the shader |
| ComputePasses.ComputePass.SetPushConstants | src/gpu/command/compute.rs:102-151 | None clears them; Some is padded with zeros to a multiple of 4, checked on the padded length and stored |
| ComputePasses.ComputePass.SetAttachmentBuffer | src/gpu/command/compute.rs:153-286 | None removes the key; Some binds the buffer as a storage buffer after `InsertCheck`, inserting it or replacing the entry with the same key; keys stay unique |
| ComputePasses.ComputePass.SetAttachmentBufferRaw | src/gpu/command/compute.rs:174-204 | None removes the key; Some first creates the buffer from the data, where an invalid context, no elements or a wrapped rounded size is the matching panic with nothing changed, and then binds the new buffer exactly as `set_attachment_buffer` does |
| ComputePasses.ComputePass.PreparePipeline | src/gpu/command/compute.rs:339-469 | the result and the new caches are exactly `Prepare` on the caches it started with; graphics pipelines are untouched |
| ComputePasses.ComputePass.Record | src/gpu/command/compute.rs:288-337 | a shader must be set; the pipeline is prepared and one entry with the current push constants queued; settings are unchanged |
| ComputePasses.ComputePass.DispatchWorkgroupGrid | src/gpu/command/compute.rs:288-310 | on success exactly one Dispatch entry with the grid and the current push constants is appended |
| ComputePasses.ComputePass.DispatchFromBuffer | src/gpu/command/compute.rs:312-337 | on success exactly one DispatchIndirect entry with the buffer and offset is appended |
| ComputePasses.ComputePass.End | src/gpu/command/compute.rs:506-548 | the commands are the drain of the whole queue in order, and the queue is left empty |
| Drawing.Rebased | src/gpu/command/drawing.rs:110-111 | each pushed index is shifted by the number of vertices already queued (u16 wrap), keeping the index count |
| Drawing.PushedIndexNamesSameVertex | src/gpu/command/drawing.rs:100-133 | after a push, a rebased index names in the joined vertex list the same vertex it named in the pushed mesh |
| Drawing.Fan | src/gpu/command/drawing.rs:1244-1264 | a fan over n triangles yields 3·n indices |
| Drawing.FanTriangles | src/gpu/command/drawing.rs:1244-1264 | triangle k of the fan is (p[0], p[k+1], p[k+2]) |
| Drawing.FanToList | src/gpu/command/drawing.rs:1244-1264 | fewer than three points are returned unchanged; otherwise (n-2)·3 indices, triangle k being (p[0], p[k+1], p[k+2]) |
| Drawing.TriangleFanToList | src/gpu/command/drawing.rs:1244-1264 | the loop produces exactly the fan-to-list conversion |
| Drawing.LineMesh | src/gpu/command/drawing.rs:343-358 | a line between equal points yields nothing; otherwise four corner vertices offset by half the thickness along the normal, with the quad's six indices |
| Drawing.QuadCorners | src/gpu/command/drawing.rs:361-372 | four corners: top-left at pos, bottom-right at pos+size, the other two sharing one coordinate with each |
| Drawing.PlainMesh | src/gpu/command/drawing.rs:576-646 | one vertex per point carrying that point's colour and texture coordinate, with the given indices |
| Drawing.FilledQuad | src/gpu/command/drawing.rs:576-646 | four vertices carrying the given corner colours and zero texture coordinates, with the indices of two triangles |
| Drawing.UniformCornersConverted | src/gpu/command/drawing.rs:576-646 | four equal corner colours drawn per corner give the quad of the converted colour, which equals the single-colour quad exactly when the conversion leaves the colour unchanged |
| Drawing.Outline | src/gpu/command/drawing.rs:506-550 | an outline of n edges has at most 4·n vertices and 3 indices for every 2 vertices (one quad per non-degenerate edge) |
| Drawing.OutlineIndicesInRange | src/gpu/command/drawing.rs:506-550 | every outline index names one of the outline's own vertices |
| Drawing.QuadAppendedInRange | src/gpu/command/drawing.rs:343-372 | appending one rebased quad keeps every index within the vertex list |
| Drawing.OutlineMesh | src/gpu/command/drawing.rs:506-550 | the loop over edges builds exactly the outline of all edges |
| Drawing.RectEdges | src/gpu/command/drawing.rs:506-550 | the rectangle outline draws the four edges corner i to corner i+1, wrapping around |
| Drawing.TriangleEdges | src/gpu/command/drawing.rs:649-698 | the triangle outline draws a→b, b→c, c→a |
| Drawing.CircleEdges | src/gpu/command/drawing.rs:736-789 | a circle outline draws one edge per segment, from ring point i to ring point i+1 |
| Drawing.CircleFilledMesh | src/gpu/command/drawing.rs:791-832 | vertex 0 is the centre, vertex i+1 is ring point i, and the indices are the fan over ring indices 1..segments |
| Drawing.CircleCentreUnused | src/gpu/command/drawing.rs:791-832 | the filled circle's 3·(segments-2) indices all lie in 1..segments: the centre vertex is pushed but never referenced |
| Drawing.CircleImageMesh | src/gpu/command/drawing.rs:944-980 | one vertex per ring point with its texture coordinate, indexed as a fan over 0..segments |
| Drawing.QuadUvs | src/gpu/command/drawing.rs:834-863 | a textured quad gets four texture coordinates |
| Drawing.TriangleUvsAsWritten | src/gpu/command/drawing.rs:904-920 | the source's apex coordinate is (w·0.5, h), ignoring the rectangle's x origin |
| Drawing.TriangleUvs | src/gpu/command/drawing.rs:904-920 | base corners at (x, y) and (w, y), apex at height h and midway between x and w |
| Drawing.TriangleApexOutsideAsWritten | src/gpu/command/drawing.rs:914 | for the sub-rectangle x=0.6, w=0.8 the source's apex lies left of the rectangle; the two agree when x=0; the corrected apex always lies inside |
| Drawing.AbsoluteUv | src/gpu/command/drawing.rs:78-98 | no texture or atlas rectangle gives the unit rectangle; when only one of them is set, that one is the result; a helper of the image draws, beyond the drawing logic proper |
| Drawing.RemapPlacement | src/gpu/command/drawing.rs:79-86 | remapping into the unit rectangle, or the unit rectangle into another, is the identity; a unit-range point lands inside the outer rectangle; a helper of the image draws, beyond the drawing logic proper |
| Drawing.Within | src/gpu/command/drawing.rs:79-86 | interpolating with t in [0, 1] stays between the two ends; a helper of the image draws, beyond the drawing logic proper |
| Drawing.BlendsOf | src/gpu/command/drawing.rs:164-176 | the blend state and write mask of each render target, in order |
| Drawing.NeedsNewBatch | src/gpu/command/drawing.rs:142-198 | a different render-target count is the mismatch panic; otherwise a new batch is needed exactly when texture (only for image draws), blends, scissor, viewport or shader differ |
| Drawing.Batches | src/gpu/command/drawing.rs:200-227 | the batches are the queued ones plus the open one, if any |
| Drawing.Opened | src/gpu/command/drawing.rs:201-222 | opening a batch appends it and leaves vertices and indices alone |
| Drawing.Batched | src/gpu/command/drawing.rs:135-227 | the mismatch panic exactly when the target count differs; a new batch starting at the current index count with the current settings when one is needed; otherwise the open batch's count grows by the pushed count |
| Drawing.Push | src/gpu/command/drawing.rs:100-133 | empty vertices or indices change nothing; success exactly when batching succeeds and every texture coordinate is in range; on success vertices are appended and indices appended rebased |
| Drawing.PushKeepsBatches | src/gpu/command/drawing.rs:100-227 | a successful push keeps the batches contiguous and covering the index list |
| Drawing.SameSettingsMerge | src/gpu/command/drawing.rs:142-225 | with unchanged settings a draw joins the open batch: no batch is added and its count grows |
| Drawing.ShaderIgnoredAsWritten | src/gpu/command/drawing.rs:193-222 | as written, a batch opened because the shader changed is stored with no shader, so the shader is lost; the corrected batch keeps it |
| Drawing.PlainDrawAfterTextureSplits | src/gpu/command/drawing.rs:146-162 | an untextured draw after a textured batch always opens a new batch |
| Drawing.CallOf | src/gpu/command/drawing.rs:1158-1223 | one indexed draw per batch: its index range and base vertex, its texture or the default one, its shader or the default one, its scissor, viewport and blends |
| Drawing.CallsCoverIndices | src/gpu/command/drawing.rs:1190-1223 | the draws cover the index list from 0 to its end, each non-empty and each starting where the previous ended |
| Drawing.DrawingContext.constructor | src/gpu/command/drawing.rs:304-341 | empty recording, no texture, shader, scissor or viewport, no uv rectangles |
| Drawing.DrawingContext.New | src/gpu/command/drawing.rs:304-341 | no context without the global drawing state; otherwise a fresh, empty context on the pass |
| Drawing.DrawingContext.PushQueue | src/gpu/command/drawing.rs:135-227 | the recording becomes the batched one, or is unchanged with the panic as the error; settings untouched |
| Drawing.DrawingContext.PushGeometry | src/gpu/command/drawing.rs:100-133 | result and recording are those of pushing the mesh with the current settings; validity is kept on success |
| Drawing.DrawingContext.DrawLine | src/gpu/command/drawing.rs:553-573 | equal end points draw nothing; otherwise the line quad is pushed |
| Drawing.DrawingContext.DrawRect | src/gpu/command/drawing.rs:506-550 | pushes the outline of the four rectangle edges |
| Drawing.DrawingContext.DrawTriangle | src/gpu/command/drawing.rs:649-698 | pushes the outline of the three triangle edges |
| Drawing.DrawingContext.DrawRectFilled | src/gpu/command/drawing.rs:576-603 | pushes the four corners in the one colour as given, zero texture coordinates and the quad indices, untextured |
| Drawing.DrawingContext.DrawRectFilledColors | src/gpu/command/drawing.rs:607-646 | pushes the four corners with each corner's colour after `into_srgb`, zero texture coordinates and the quad indices, untextured |
| Drawing.DrawingContext.DrawTriangleFilled | src/gpu/command/drawing.rs:701-733 | pushes the three points with their colours and indices 0, 1, 2 |
| Drawing.DrawingContext.DrawRectImage | src/gpu/command/drawing.rs:834-902 | pushes the quad as an image draw with texture coordinates from the effective uv rectangle |
| Drawing.DrawingContext.DrawTriangleImage | src/gpu/command/drawing.rs:904-942 | pushes the triangle as an image draw with the corrected triangle texture coordinates |
| Drawing.DrawingContext.DrawCircle | src/gpu/command/drawing.rs:736-789 | fewer than three segments draw nothing; otherwise the outline of the segment edges is pushed |
| Drawing.DrawingContext.DrawCircleFilled | src/gpu/command/drawing.rs:791-832 | fewer than three segments draw nothing; otherwise the centre-and-ring fan is pushed |
| Drawing.DrawingContext.DrawCircleImage | src/gpu/command/drawing.rs:944-980 | fewer than three segments draw nothing; otherwise the textured ring fan is pushed as an image draw |
| Drawing.DrawingContext.SetScissor | src/gpu/command/drawing.rs:982-985 | only the scissor setting changes |
| Drawing.DrawingContext.SetViewport | src/gpu/command/drawing.rs:987-990 | only the viewport setting changes |
| Drawing.DrawingContext.SetTexture | src/gpu/command/drawing.rs:992-1021 | succeeds exactly for no texture or a sampled texture; a non-sampled texture is refused with settings unchanged; None clears the texture |
| Drawing.DrawingContext.SetTextureUv | src/gpu/command/drawing.rs:1023-1034 | only the texture uv rectangle changes |
| Drawing.DrawingContext.SetTextureAtlas | src/gpu/command/drawing.rs:1036-1070 | None clears the atlas rectangle; an unknown atlas id is refused with nothing changed; otherwise texture and atlas rectangle are set |
| Drawing.DrawingContext.SetShader | src/gpu/command/drawing.rs:1072-1118 | succeeds exactly for None or a shader with the drawing bindings; on success only the shader setting changes |
| Drawing.DrawingContext.End | src/gpu/command/drawing.rs:1120-1224 | nothing queued yields no draws and changes nothing; otherwise one draw per batch in order, all vertices and indices handed over and the recording cleared |
| Fonts.PowerOfTwo | src/font/mod.rs:70-76 | the result is a power of two at least n, and the least one: either 1 or half of it is below n |
| Fonts.PowerBelowIsHalf | src/font/mod.rs:70-76 | a smaller power of two is at most half of a larger one |
| Fonts.LeastPowerOfTwo | src/font/mod.rs:70-76 | the doubling loop's result is below or equal to every power of two that is at least n |
| Fonts.Texel | src/font/mod.rs:396-405 | a grey byte becomes (g, g, g, 0) when g is 0 and (g, g, g, 255) otherwise |
| Fonts.RgbaOf | src/font/mod.rs:396-405 | expanding n grey bytes gives 4·n bytes |
| Fonts.RgbaPixels | src/font/mod.rs:396-405 | pixel i of the expansion is the texel of grey byte i |
| Fonts.GreyOf | src/font/mod.rs:668-679 | the grey channel of an RGBA buffer has one byte per four |
| Fonts.RgbaRoundTrip | src/font/mod.rs:668-679 | taking the first channel of the expansion gives back the grey bytes; alpha is 0 exactly where grey is 0 |
| Fonts.ExpandToRgba | src/font/mod.rs:668-679 | the loop produces the RGBA expansion, four bytes per grey byte, pixel i being the texel of byte i |
| Fonts.GetGlyph | src/font/mod.rs:605-613 | the glyph stored for the codepoint, or GlyphNotFound carrying the codepoint exactly when none is stored |
| Fonts.AtlasFormat | src/font/mod.rs:626-634 | the texture format is the sRGB one exactly when the GPU renders in sRGB |
| Fonts.AtlasImage | src/font/mod.rs:595-691 | the atlas is uploaded as the RGBA expansion of its grey bytes, with the atlas width, height and the sRGB-dependent format |
| Fonts.CreateBakedTextRaw | src/font/mod.rs:298-410 | "No glyphs found" exactly when no character of the text is a drawable glyph (newlines and spaces excluded); grey output is the composed buffer, RGBA output its expansion, same size |
| Fonts.ReadU32 | src/font/mod.rs:425-426 | reading a little-endian u32 succeeds exactly when four bytes remain and consumes four |
| Fonts.ReadBytes | src/font/mod.rs:428-429 | read_exact succeeds exactly when enough bytes remain; what is read followed by the rest is the input |
| Fonts.ReadU32Enc | src/font/mod.rs:425-426 | reading an encoded u32 gives it back and leaves the rest |
| Fonts.ReadBytesEnc | src/font/mod.rs:428-429 | reading exactly the length of a prefix gives it back and leaves the rest |
| Fonts.ReadWords | src/font/mod.rs:457-495 | reading n words succeeds exactly when 4·n bytes remain, giving n words |
| Fonts.ReadWordsEnc | src/font/mod.rs:457-495 | reading encoded words gives them back and leaves the rest |
| Fonts.GlyphWords | src/font/mod.rs:553-566 | a glyph record is 14 words |
| Fonts.GlyphOf | src/font/mod.rs:460-492 | the glyph read from a record has the record's first word as its codepoint |
| Fonts.GlyphRecordRoundTrip | src/font/mod.rs:460-566 | reading back a written glyph record gives the same glyph, every field included |
| Fonts.EncGlyphs | src/font/mod.rs:551-567 | writing the glyph table takes 56 bytes per glyph |
| Fonts.ReadGlyphs | src/font/mod.rs:457-495 | reading n glyph records succeeds exactly when 56·n bytes remain |
| Fonts.ReadGlyphsEnc | src/font/mod.rs:457-567 | reading a written glyph table inserts every written glyph, in order, and leaves the rest |
| Fonts.InsertAllContents | src/font/mod.rs:494 | after the inserts, the keys are the old ones plus the written codepoints; written ones map to their glyph, others keep their old value |
| Fonts.MetricWords | src/font/mod.rs:573-576 | the trailing metrics are four words |
| Fonts.SaveCache | src/font/mod.rs:539-592 | the saved file starts with the five magic bytes "eFONT" |
| Fonts.ReadHeader | src/font/mod.rs:437-455 | a header that reads is a valid UTF-8 name, a style using only the bold and italic bits, and the given path |
| Fonts.ReadAtlas | src/font/mod.rs:497-510 | an atlas that reads is at most 2048 by 2048 and holds width·height bytes |
| Fonts.ReadTail | src/font/mod.rs:497-533 | the font read from the tail keeps the given info and glyph table |
| Fonts.ReadBody | src/font/mod.rs:457-533 | the font read from the body keeps the given info |
| Fonts.ReadPayload | src/font/mod.rs:435-533 | a payload that reads gives an atlas at most 2048 by 2048 of width·height bytes, with the path the file was loaded from |
| Fonts.LoadCache | src/font/mod.rs:412-534 | fewer than five bytes is an unexpected end; five bytes other than the magic is invalid data |
| Fonts.ReadHeaderEnc | src/font/mod.rs:437-549 | a written header reads back as the same info with the load path |
| Fonts.ReadAtlasEnc | src/font/mod.rs:497-571 | a written atlas within bounds reads back unchanged |
| Fonts.ReadTailEnc | src/font/mod.rs:497-576 | a written atlas and metrics read back as the same font |
| Fonts.ReadBodyEnc | src/font/mod.rs:457-495 | after a written glyph count and table, reading continues with the table's glyphs inserted |
| Fonts.ReadBodyOf | src/font/mod.rs:457-533 | the body reads the glyph count, then the glyph table, then the tail, stopping at the first error |
| Fonts.InsertAllRebuilds | src/font/mod.rs:494-552 | inserting the glyphs in their iteration order into an empty table rebuilds the original table |
| Fonts.PayloadRoundTrip | src/font/mod.rs:435-576 | a written payload reads back as the same font, with the load path |
| Fonts.PayloadHeaderSplit | src/font/mod.rs:437-551 | after the header, reading the payload is reading the body |
| Fonts.BodyRoundTrip | src/font/mod.rs:457-576 | a written body reads back as the same font |
| Fonts.ReadPayloadOf | src/font/mod.rs:437-457 | a written header is consumed and reading continues with the body |
| Fonts.CacheRoundTrip | src/font/mod.rs:412-592 | loading a saved cache gives back the same font with the load path, when decompression inverts compression |
| Fonts.LoadSaved | src/font/mod.rs:412-435 | a file with the magic, the two sizes and the packed data loads as its decompressed payload |
| Fonts.GlyphSurvivesCache | src/font/mod.rs:412-613 | after a save and load, every codepoint looks up the same glyph or the same error |
| Fonts.OversizedAtlasRefused | src/font/mod.rs:500-507 | an atlas wider or taller than 2048 is refused as invalid data |
| Fonts.ReadGlyphLoop | src/font/mod.rs:457-495 | the loop over the glyph count reads exactly the glyph table |
| Fonts.NewCached | src/font/mod.rs:412-534 | an unreadable file is an I/O error; otherwise the result is loading the file's bytes |
| Fonts.FirstNamed | src/font/mod.rs:783-789 | the index of the first system font with the name, or none when no font has it |
| Fonts.FirstNamedIs | src/font/mod.rs:783-789 | a font with the name and none before it is the one found |
| Fonts.FirstNamedNone | src/font/mod.rs:783-792 | no font with the name means nothing is found |
| Fonts.FontManager.constructor | src/font/mod.rs:733-739 | the system fonts found, and an empty cache |
| Fonts.FontManager.LoadFont | src/font/mod.rs:745-793 | a cached key returns the cached font and changes nothing; an existing path bakes its font info or fails when it has none; otherwise the first system font with the name is baked, or none; a new font is cached under its key |
| Fonts.FontManager.LoadFontCached | src/font/mod.rs:799-817 | a cached key returns the cached font; otherwise a successfully loaded cache file is returned and cached, and a failure returns none and caches nothing |
| Input.Flag | src/input.rs:38-44 | a name reads as pressed exactly when it is recorded with the value true; an unknown name reads as false |
| Input.F32OfNat | src/input.rs:125 | `as f32` of a magnitude up to 2^31: exact up to 2^24, otherwise within 64 of the input and never above 2^31; magnitudes from 2^31−64 round to 2^31 |
| Input.CursorCoord | src/input.rs:125 | a coordinate after the round trip through f32: unchanged up to 2^24 in magnitude, within 64 otherwise, and 0 from 2^31−64 upward, where `to_i32` fails |
| Input.CursorPosition | src/input.rs:125 | the stored cursor position equals the event's when both coordinates are within 2^24 |
| Input.ProcessedEffect | src/input.rs:117-149 | the window filter never changes; events for another window, or events that carry none, change nothing; a cursor move sets only the position, to the event's position after the f32 round trip; a button or key event sets both its held and its once flag to the event's value; other names keep their flags |
| Input.HeldIsLastPress | src/input.rs:117-149 | after any sequence of events, a name is held, and its once flag set, exactly when its last accepted event was a press |
| Input.ForeignEventsIgnored | src/input.rs:121-139 | with a window filter, events for other windows leave the whole state unchanged |
| Input.TakeOnceEffect | src/input.rs:49-59 | the result is the once flag; afterwards that flag is clear, other names and the other device keep theirs, and held flags and position are untouched |
| Input.SecondTakeIsFalse | src/input.rs:49-59 | asking twice in a row reports false the second time |
| Input.PressReportedOnce | src/input.rs:49-59 | a press is reported by the first once-query, not by the second, and stays held |
| Input.InputInner.constructor | src/input.rs:13-23 | no position, no buttons or keys, with the given window filter |
| Input.InputInner.ProcessEvent | src/input.rs:117-149 | the new state is the processed one |
| Input.InputInner.MousePosition | src/input.rs:26-28 | the recorded cursor position |
| Input.InputInner.MousePressed | src/input.rs:38-44 | true exactly when the button is recorded as pressed |
| Input.InputInner.KeyPressed | src/input.rs:80-86 | true exactly when the key is recorded as pressed |
| Input.InputInner.MousePressedOnce | src/input.rs:49-59 | state and result are those of taking the button's once flag |
| Input.InputInner.KeyPressedOnce | src/input.rs:91-101 | state and result are those of taking the key's once flag |
| Software.WriteCheck | src/software.rs:83-102 | the checks in order: a pixel count other than `(x*y) as usize` (the i32 product wrapped, then sign-extended) is InvalidSize with both coordinates cast to u32; then a zero surface is InvalidSurfaceSize; then a failed fetch; then a buffer shorter than the pixels is BufferTooSmall; passing all means the pixels fit |
| Software.WriteResult | src/software.rs:83-114 | success exactly when every check passes and presenting succeeds; PresentFailed exactly when the checks pass and presenting fails |
| Software.Overwritten | src/software.rs:104-106 | the buffer keeps its length; the first pixels are replaced by the frame and the rest are kept |
| Software.Resized | src/software.rs:127-146 | a zero width or height is refused and leaves the size alone; otherwise the size is recorded (a dimension past i32::MAX as 0) before the surface resize, which decides the result; a resize with a dimension below 2^31 never zeroes a non-zero surface |
| Software.ResizedSurfaceAcceptsFrame | src/software.rs:83-146 | after a resize to non-zero w×h whose area is below 2^31, both sides are i32 and a frame of w·h pixels can fail only on fetch, buffer size or present |
| Software.MisSizedFrameRefused | src/software.rs:86-88 | when the area of the size is a non-negative i32, a frame whose pixel count differs from it is always InvalidSize, whatever else holds |
| Software.WrappedFrameSizes | src/software.rs:86-88 | the wrapping product: a 65536×65536 frame passes the size check with 0 pixels and is refused with its 2^32 pixels; a −1×−1 frame passes with 1 pixel and is otherwise reported as 4294967295×4294967295 |
| Software.FrameLen | src/software.rs:86 | the required pixel count equals the area when that is a non-negative i32, and otherwise is either below 2^31 or a sign-extended negative |
| Software.PixelBuffer.constructor | src/software.rs:62-66 | a new pixel buffer has a zero surface size |
| Software.PixelBuffer.GetSize | src/software.rs:77-80 | the recorded surface size |
| Software.PixelBuffer.WriteBuffers | src/software.rs:83-114 | the result is the write result; when the checks pass the target holds the frame over its old contents (even if presenting fails); otherwise the target is unchanged |
| Software.PixelBuffer.Resize | src/software.rs:127-146 | new size and result are those of the resize function |
| Software.BuildCheck | src/software.rs:32-59 | in order: no window is WindowIsNull; a GPU window is refused; a missing window pointer is WindowPointerIsNull; success needs the context and surface to be created |
| Software.Build | src/software.rs:166-189 | fails with the first failed check; on success a fresh zero-sized pixel buffer is returned and recorded in the window; a failure leaves the window's pixel buffer as it was |
| Surfaces.SurfaceTexture.constructor | src/gpu/command/mod.rs:424-432 | no frame, not suboptimal, not presented |
| Surfaces.SurfaceTexture.SetTexture | src/gpu/command/mod.rs:434-439 | holds the frame, takes its suboptimal flag, clears presented, and is valid |
| Surfaces.SurfaceTexture.View | src/gpu/command/mod.rs:441-454 | the frame's view exactly when a frame is held; otherwise the missing-texture panic |
| Surfaces.SurfaceTexture.Size | src/gpu/command/mod.rs:456-464 | the frame's width and height exactly when a frame is held; otherwise the missing-texture panic |
| Surfaces.SurfaceTexture.Format | src/gpu/command/mod.rs:466-474 | the frame's format exactly when a frame is held; otherwise the missing-texture panic |
| Surfaces.SurfaceTexture.Present | src/gpu/command/mod.rs:486-492 | the held frame, if any, is taken and presented; the texture is then empty, suboptimal unchanged, and presented set exactly when a frame was held or it already was |
| Geometry.PointCoord | src/math/point.rs:13-18 | a coordinate that fits in i32 is kept; one that does not becomes 0 |
| ShaderTypes.AccessBits | src/gpu/shader/types.rs:69-78 | an access set uses only the READ, WRITE and ATOMIC bits, so its bits are below 8 |
| ShaderTypes.AccessFromBits | src/gpu/shader/types.rs:69-78 | from_bits accepts exactly the values below 8, and the accepted set has those bits |
| ShaderTypes.AccessBitsRoundTrip | src/gpu/shader/reflection.rs:89-95 | the bits of an access set read back as the same set |

## Left out

Platform, I/O and foreign code:

- Windowing, the event loop, the runner and OS windows are not part of this model. `Input::new` registering with the runner is reduced to the window filter it stores.
- wgpu, naga, softbuffer, winit, fontdue, rect_packer, zlib and the image decoder are foreign code. Each of their calls is either an opaque `Handle` or a parameter of the operation:
  - naga parsing;
  - rect placement for the atlas;
  - image decoding;
  - compression and decompression;
  - surface acquisition and presentation;
  - the softbuffer fetch and present outcomes.
- File-system reads and writes become parameters or leave the model:
  - the shader files;
  - the font cache file;
  - the Vulkan pipeline-cache file that `GPUInner` reads at creation and writes on drop.
- `DefaultHasher` keys are abstract naturals passed in by the caller. Hash properties are not modelled.
- `HashMap` iteration order is an input sequence wherever the source's result depends on it. Examples are the atlas items, the layout groups and the font cache glyph order.
- Atlas.Build: its three loops iterate three different HashMaps, and the model gives all three the one order `ids`. With independent orders, the first load error or oversize error reported could differ; the copied pixels could differ only where two placements overlap, which the rectangle packer does not produce.
- StagingBuffers.StagingBuffer.Allocate: a reused buffer keeps the usage it was created with, whatever `usage` asks for (`StagingBuffers.ReuseIgnoresUsage`). `create_staging_buffer`, which owns the pool that the vertex and index uploads of drawing.rs:1182 and :1185 draw from, is not part of this model, so the model cannot tell whether one pool serves both usages. wgpu's refusal of a buffer bound with a usage it lacks is not modelled either.
- wgpu's map state is not modelled, and of wgpu's own validation only the checks of `copy_buffer_to_buffer` are (`Buffers.CopyAllowed`: usages, 4-byte multiples, bounds, distinct buffers). An example of what is left out is reading a buffer that was never `map_async`'d.
- `GpuContext`:
  - not modelled: `query_gpu`, adapter selection, the device limit and feature requests in `new_headless`, `get_surface`, the instance id counter and `PartialEq`;
  - the headless context is built from the device and queue the platform provides.
- GpuContext.GpuInner.Resize and GpuContext.GpuInner.SetVsync: the surface `configure` calls are not modelled; only the configuration they would apply is.
- The `ArcRef` borrow helpers and the atomics are plain fields. Concurrency is not modelled.
- wasm32-only code paths are not modelled.

Floating point:

- Floats are reals. NaN, rounding and the `as` casts of floats to integers are not modelled, including the casts of the scissor and viewport rectangles.
- Drawing: the square root in `construct_line` is kept symbolic, circle cosines and sines are a parameter, and every vertex has z = 0.
- Drawing: the clip-space transform of `end` is not modelled. The colour type's `into_srgb`, used only by `draw_rect_filled_colors`, is a parameter: its floating-point formula is not part of this model.
- Atlas: the half-texel uv rectangles of `rect_uv` are not modelled. An entry keeps its position and size.
- Font: glyph layout and rasterisation (`Font::new`, `calculate_text_size`, `draw_text`) are not modelled.
- Fonts.CreateBakedTextRaw: the composed grey buffer and its size are a parameter. Only the error case and the format conversion are modelled.
- Software.Resized: the source stores the new size through `f32` (`width as f32`), which rounds dimensions above 2^24 to a nearby float; the model converts the exact u32 with `Point2::new`'s i32 rule (past i32::MAX it gives 0). The `String` messages of `resize` are the `ResizeError` values.
- Input: the runner turns winit's `f64` cursor position into an i32 `Point2` before the event reaches the input (src/runner.rs:379); that conversion is not part of this model, and an event carries the i32 point.

Operations not modelled, with the reason:

- Drawing:
  - `draw_text` and the `load_font`/`set_font`/`get_font` calls depend on glyph layout;
  - the vertex and index staging buffers are not modelled; `end` returns the draw calls as values;
  - the blend restore done through `try_borrow_mut` in the `end` loop is not modelled.
- Drawing.Batched: start index and count are naturals. The `u32` wrap above 2^32 indices is not modelled.
- Render passes:
  - `push_constants_raw` and its typed variants;
  - the render pass's `set_attachment_buffer_raw`, `set_gpu_buffer_raw`, `begin_drawing`;
  - the debug markers;
  - the getters `get_clear_color`, `get_blend`, `get_gpu_buffer`, `get_viewport`, `get_scissor`, which only return a field.
- The render pass reads the surface texture when the attachment is added. Later changes to that surface are not seen.
- The shared command encoder is one recorded command list.
- Command buffers: `write_buffer` and `write_buffer_raw` (`src/gpu/command/mod.rs:241-251`) forward to the buffer's `write_cmd` variants, which are not modelled.
- Buffers: `write_cmd`, `write_raw_cmd` and `internal_write_raw_cmd_ref` are not modelled. They record a copy into the encoder, like the modelled writes.
- Compute passes:
  - `dispatch_baked` uses `BakedComputePass`, which is not part of this model.
- Render pipelines:
  - the panic for a compute shader in `set_shader_with_options` (`src/gpu/command/pipeline.rs:89`) cannot be reached from the graphics shader type, so it is not modelled.
- Textures:
  - `with_file`, `with_data`, `with_sample_count`, `with_mip_level_count`, `build`, `get_sampler` and `set_sampler` only store or return a field; the model writes the builder value directly;
  - a negative `i32` size takes the device-rejected path.
- Graphics shaders: the panics of `make_group_layout` are the `LayoutFailed` error. The label strings are not modelled.
- Atlas: an item with less data than its slice needs is the `DataTooShort` error, where the source panics on the slice.
- Buffers: a size above `MAX_SIZE` is `Panicked(SizeOverflow)`. This is the overflow a debug build panics on.
- Fonts.PowerOfTwo: the doubling is over unbounded naturals. The `usize` overflow for n above 2^63 is not modelled.
- Font: `search_system_font` and `get_font_info` are inputs (the font list and the per-path font info).
- The rest of the repository is not part of this model:
  - the older `src/graphics` command, shader and buffer trees;
  - the float math types;
  - sprites and timing;
  - the duplicate pixel buffer in `src/software/` and `src/window/`.

## Findings

| source | as written | input that shows it | evidently intended | confidence | as-written member | corrected member |
|---|---|---|---|---|---|---|
| src/gpu/shader/reflection.rs:198 | a uniform of 16 bytes or fewer is refused | a `vec4<f32>` uniform, exactly 16 bytes | uniforms of at least 16 bytes are accepted, as the comment says | not executed | Reflection.UniformSizeAcceptedAsWritten, exhibited by Reflection.Vec4UniformRefused | Reflection.UniformSizeAccepted |
| src/gpu/shader/reflection.rs:557-608 | a bool `vec2` maps to the 4-byte `Uint32` format | a `vec2<bool>` vertex input, for which the stride advances by 8 bytes | `Uint32x2`, like every other two-component vector | not executed | Reflection.MappingToVertexInputAsWritten, exhibited by Reflection.BoolVec2Mapping | Reflection.MappingToVertexInput |
| src/gpu/buffer/mod.rs:370 | `write` copies the destination's size out of the source | a 4-byte source written into an 8-byte destination | copy the source's size, which the check above guarantees fits | not executed | Buffers.WriteAsWritten, exhibited by Buffers.WriteAsWrittenOverreads | Buffers.WriteCopy |
| src/gpu/buffer/mod.rs:585-607 | `map` never records the mapping mode, so a read mapping is written back on `unmap` | `map(Read)` of a buffer never mapped before, then `unmap` | the mode is recorded; a read mapping is dropped on `unmap` | not executed | Buffers.MapAsWritten, exhibited by Buffers.MapReadAsWrittenWritesBack | Buffers.Mapped |
| src/gpu/command/renderpass.rs:1016-1029 | `draw_indirect` panics when the buffer HAS the INDIRECT usage | a buffer with usage INDIRECT is refused; a VERTEX-only buffer is accepted | refuse buffers without INDIRECT | not executed | RenderPasses.IndirectCheckAsWritten, exhibited by RenderPasses.IndirectCheckInverted | RenderPasses.IndirectCheck |
| src/gpu/command/compute.rs:58-99 | the pass's reflection starts as None and `set_shader` never sets it | a compute shader declaring storage binding (0, 0) and a 16-byte push constant: both uploads are refused | `set_shader` records the shader's reflection | not executed | ComputePasses.ReflectionAsWritten, exhibited by ComputePasses.AsWrittenRefusesAll | ComputePasses.ReflectionAfterSetShader |
| src/gpu/command/mod.rs:210 | `begin_texture` stores false in the render-pass flag | `begin_texture` followed by a second `begin_texture`: the guard lets it through | store true, as `begin_renderpass` does | not executed | CommandBuffers.RenderFlagAfterAsWritten, exhibited by CommandBuffers.TextureBeginLeavesUnguarded | CommandBuffers.RenderFlagAfter |
| src/gpu/command/mod.rs:319-323 | the copy extent is the source rectangle's position, not its size | a w×h texture at position (0, 0) gives a 0×0 copy | the extent is the texture's size | not executed | CommandBuffers.CopyExtentAsWritten, exhibited by CommandBuffers.CopyExtentAsWrittenEmpty | CommandBuffers.CopyExtent |
| src/gpu/command/drawing.rs:213-222 | a new batch is stored with no shader, while batches are compared on the shader | after `set_shader(Some)`, two draws with equal settings give two batches, and neither carries the shader | the new batch stores the current shader | not executed | Drawing.BatchedAsWritten, exhibited by Drawing.ShaderIgnoredAsWritten | Drawing.Batched |
| src/gpu/command/drawing.rs:914 | the textured triangle's apex uv is (w·0.5, h), ignoring the rectangle's x | uv rectangle x = 0.6, w = 0.8: the apex lies at 0.4, outside the rectangle | the apex lies midway between x and w | not executed | Drawing.TriangleUvsAsWritten, exhibited by Drawing.TriangleApexOutsideAsWritten | Drawing.TriangleUvs |
| src/gpu/shader/graphics.rs:74-77 | `set_vertex_file` on a split source moves the old vertex text into the fragment slot | `set_fragment_code(f)` then `set_vertex_file(v)`: the fragment text f is lost | keep the fragment text, as `set_vertex_code` does | not executed | GraphicsShaders.SetVertexFileAsWritten, exhibited by GraphicsShaders.VertexFileLosesFragment | GraphicsShaders.SetVertexCode |
| src/gpu/shader/graphics.rs:168-171 | `set_binary_vertex` on a split binary moves the old vertex binary into the fragment slot | a split binary (v0, f) with v0 ≠ f, then `set_binary_vertex(v)`: f is lost | keep the fragment binary | not executed | GraphicsShaders.SetBinaryVertexAsWritten, exhibited by GraphicsShaders.BinaryVertexLosesFragment | GraphicsShaders.SetBinaryVertex |
| src/gpu/shader/graphics.rs:185-188 | `set_binary_fragment` puts the old fragment binary in the vertex slot | `set_binary_vertex(vb)` then `set_binary_fragment(fb)` ends with an empty vertex binary | keep the vertex binary | not executed | GraphicsShaders.SetBinaryFragmentAsWritten, exhibited by GraphicsShaders.BinarySettersLoseVertex | GraphicsShaders.SetBinaryFragment |
| src/graphics/pipeline_manager.rs:151-180 | `insert_compute_pipeline` checks presence and capacity on the graphics map but inserts into the compute map | a key already in the compute map is created again; a full compute map grows to 501 entries | check the compute map | not executed | GraphicsCaches.InsertComputePipelineAsWritten, exhibited by GraphicsCaches.ComputeCacheNeverHits and GraphicsCaches.ComputeCacheUnbounded | GraphicsCaches.InsertPipeline |
| src/graphics/buffer_manager.rs:139-145 | `drop_buffer` removes an entry of age 0 whatever its reference count | a non-temporary buffer held twice, dropped once, is removed | remove the entry only when no holder is left | not executed | GraphicsCaches.DropBufferAsWritten, exhibited by GraphicsCaches.DropWhileStillHeld | GraphicsCaches.DropBufferSpec |
