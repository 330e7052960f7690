# ui-ecs core, modelled in Dafny

ui-ecs is a UI engine for Unity's entity component system. A view (an XML `.ui` file) is imported into a flat list of nodes. Each node becomes an entity. Each entity gets one packed byte buffer: a runtime header, a config header, and one block per property block its element uses (box, size, border, text, display, ...). Jobs then run over those buffers:
- they resolve every length to pixels;
- they lay the tree out (constrain, lay out and size each element);
- they count render quads and write one mesh per root;
- they copy properties marked for materials into shader components.

Selectors over nodes (`Box#main.wide > Text`) are tokenised and packed into a query buffer. This project models that core and proves what each part promises.

One Dafny module per source file or component:

| module | models |
|---|---|
| `Alignment` (alignment.dfy) | Runtime/Commons/UIAlignment.cs: nibble-packed alignment and the placement offset |
| `Bytes` (bytes.dfy) | little-endian fixed-width integers, 32-bit wrap-around and byte splicing the buffer code relies on |
| `Floats` (floats.dfy) | float values as the jobs use them: finite reals plus NaN and the two infinities, with `math.max`/`min`/`clamp` |
| `ConfigHandle` (config_handle.dfy) | Runtime/Commons/UIConfigHandle.cs: the three header records, the block chain and its enumerator |
| `ConfigHandleExtensions`, `TextEncoding` (config_handle_extensions.dfy) | Runtime/Manager/UIConfigHandleExtensions.cs: block and property lookup, header accessors, text reads |
| `EditorUtility` (editor_utility.dfy) | Editor/UIEditorUtility.cs: the sorted block list, property writes, the extra-data text record |
| `ObjectConversion` (object_conversion.dfy) | Editor/Systems/UIObjectConversionSystem.cs: buffer layout, header writes, parent links |
| `ElementManager` (element_manager.dfy) | Runtime/Manager/UIElementManager.cs: property naming, registration and the element and block indices |
| `ElementExtensions` (element_extensions.dfy) | Runtime/UIElementExtensions.cs: bounded constraints and the box quad |
| `BoxElements` (box_elements.dfy) | Runtime/Elements/HBox.cs, VBox.cs: constrain, layout and size of the two boxes |
| `TextElement` (text_element.dfy) | Runtime/Elements/Text.cs: the size and mesh of a text |
| `NodeTree` (node_tree.dfy) | the children buffers and their pre-order walk, shared by the jobs |
| `LengthNormalization` (length_normalization.dfy) | Runtime/Manager/Jobs/UILengthNormalizationJob.cs |
| `LayoutJob` (layout_job.dfy) | Runtime/Manager/Jobs/UILayoutJob.cs |
| `MeshJobs` (mesh_jobs.dfy) | Runtime/Manager/Jobs/UIInitMeshDataJob.cs, UIRenderJob.cs |
| `BindingJob` (binding_job.dfy) | Runtime/Manager/Jobs/UIBindingJob.cs |
| `MaterialBinding` (material_binding.dfy) | Compiler/UIMaterialBindingPostProcessor.cs, without the IL it emits |
| `PropertyTypeConverter` (property_type_converter.dfy) | Runtime/Manager/PropertyTypeConverter.cs |
| `PropertyBlocks` (property_blocks.dfy) | Runtime/PropertyBlocks.cs: the font blob and its glyph lookup, and the block defaults |
| `PropertyParsers`, `Strings` (property_parsers.dfy, strings.dfy) | Editor/UIPropertyParsers.cs: composite parsing and CSS-style splatting over `string.Split` |
| `Query`, `QueryNodes`, `QueryLayout` (query*.dfy) | Runtime/Manager/UIQuery.cs: tokens, query nodes, the packed buffer and its enumerator |
| `UiBool` (ui_bool.dfy) | Runtime/Commons/UIBool.cs and the DisplayConfigBlock of Runtime/Commons/PropertyBlocks.cs |
| `UiLength` (ui_length.dfy) | Runtime/Commons/UILength.cs |
| `UiText` (ui_text.dfy) | Runtime/Commons/UIText.cs: UTF8String and the UTF-8 code-point enumerator |
| `VertexData` (vertex_data.dfy) | Runtime/Commons/UIVertexData.cs |
| `CompositeData` (composite_data.dfy) | Runtime/Commons/CompositeData.cs |
| `ModelImporter`, `ModelInitializer` (model_importer.dfy, model_initializer.dfy) | Editor/Importers/UIModelImporter.cs, Editor/IUIModelPropertyInitializer.cs |
| `ViewImporter`, `ViewAccessors` (view_importer.dfy, view_asset.dfy) | Editor/Importers/UIViewImporter.cs, Editor/UIViewAsset.cs |

Jobs that update buffers in place are methods over arrays or classes. Each one is proved against a specification function on values, and the properties are lemmas about those functions. Function pointers, reflection and asset lookups become parameters, maps or `Option`s. A missing pointer or a null the source would dereference is a `None` or an explicit error outcome.

Where the code and its comments or documentation disagree, the model follows the code:
- Three tokens for a four-field value spread as (a, b, b, c) (`PropertyParsers.ThreeTokensRepeatSecond`).
- The config header's length counts the block headers as well as the payloads (`ObjectConversion.ComputeLayout`).

## Model

| member | source | states |
|---|---|---|
| ConfigHandle.ConfigHeaderRoundTrip | Runtime/Commons/UIConfigHandle.cs:126-137 | decoding the 24-byte UIModelConfigHeader written from (length, element, count) gives the header back, with both ints wrapped to 32 bits |
| ConfigHandle.BlockHeaderRoundTrip | Runtime/Commons/UIConfigHandle.cs:138-149 | decoding the 24-byte UIModelConfigPropertyBlockHeader written from (length, hash, enabled) gives it back, the length wrapped to 32 bits |
| ConfigHandle.PropertyBlockCount | Runtime/Commons/UIConfigHandle.cs:52 | the block count is a signed 32-bit value read from the buffer |
| ConfigHandle.PropertyBlockCountWritten | Runtime/Commons/UIConfigHandle.cs:52 | a buffer whose config header (right after the 32-byte runtime header) was written from h reports h.count, whatever the other bytes hold |
| ConfigHandle.Headers | Runtime/Commons/UIConfigHandle.cs:92 | the chain of n headers starting at an offset has n entries, the first being the header read at that offset |
| ConfigHandle.Blocks | Runtime/Commons/UIConfigHandle.cs:84-97 | a well-formed buffer has as many block headers as its (non-negative) count says |
| ConfigHandle.HeaderOffsets | Runtime/Commons/UIConfigHandle.cs:92 | the i-th header sits at the chain start plus, for every earlier header, its length plus the header size |
| ConfigHandle.HeadersTail | Runtime/Commons/UIConfigHandle.cs:92 | the headers from position i on are the chain that starts at the i-th header's offset |
| ConfigHandle.ConfigEnumerator.constructor | Runtime/Commons/UIConfigHandle.cs:81-88 | the enumerator starts before the first block: index -1, offset 0, no current item, block count from the header |
| ConfigHandle.ConfigEnumerator.MoveNext | Runtime/Commons/UIConfigHandle.cs:90-99 | the first call moves to RH + CH, each later call past the current header's length plus BH; the item is the header address and the address BH after it; true exactly for the first count calls |
| ConfigHandle.ConfigEnumerator.Reset | Runtime/Commons/UIConfigHandle.cs:101-106 | Reset restores the constructor's state, so the next MoveNext yields the first block again |
| ConfigHandle.EnumerateAll | Runtime/Commons/UIConfigHandle.cs:90-106 | driving MoveNext until it returns false yields exactly the items of every block, in buffer order |
| ConfigHandleExtensions.ScanSpecSound | Runtime/Manager/UIConfigHandleExtensions.cs:151-168 | in any order, a scan that succeeds returns the address of a header whose hash is the target and that is enabled when enabled is checked |
| ConfigHandleExtensions.ScanFindsFirstMatch | Runtime/Manager/UIConfigHandleExtensions.cs:151-168 | over headers in ascending hash order the scan succeeds exactly when some header is accepted (hash equal, enabled or not checked), and returns the first accepted one |
| ConfigHandleExtensions.ScanStopsAtLargerHash | Runtime/Manager/UIConfigHandleExtensions.cs:158 | the scan gives the same answer with every header from the first one whose hash exceeds the target cut off: it never looks past such a header |
| ConfigHandleExtensions.FindBlockHeader | Runtime/Manager/UIConfigHandleExtensions.cs:153-167 | the loop over at most count headers, stopping at a larger hash, returns exactly the scan's answer over the buffer's block headers |
| ConfigHandleExtensions.TryGetPropertyBlock | Runtime/Manager/UIConfigHandleExtensions.cs:151-168 | returns true iff the scan (honouring checkEnabled) finds the block, and then the payload address right after its header |
| ConfigHandleExtensions.GetPropertyFromOffset | Runtime/Manager/UIConfigHandleExtensions.cs:170-184 | the accepted block's payload plus the given offset, honouring checkEnabled, or null |
| ConfigHandleExtensions.GetPropertyBlock | Runtime/Manager/UIConfigHandleExtensions.cs:187-201 | the payload of the first block with the type's hash, enabled ignored, or null |
| ConfigHandleExtensions.GetPropertyBlockFromHash | Runtime/Manager/UIConfigHandleExtensions.cs:204-218 | the payload of the first block with the given hash, enabled ignored, or null; a result implies such a block exists |
| ConfigHandleExtensions.GetPropertyBlockHeader | Runtime/Manager/UIConfigHandleExtensions.cs:221-235 | the address of the matching header itself (not its payload), enabled ignored, or null |
| ConfigHandleExtensions.TryGetProperty | Runtime/Manager/UIConfigHandleExtensions.cs:236-252 | true iff the property's block is found (enabled ignored), and then the header address plus BH plus the property's offset |
| ConfigHandleExtensions.Length | Runtime/Manager/UIConfigHandleExtensions.cs:259 | the config header's length field, a signed 32-bit value |
| ConfigHandleExtensions.TotalLength | Runtime/Manager/UIConfigHandleExtensions.cs:256 | the uint cast of Length + RH + CH: below 2^32, and Length plus both fixed headers whenever Length is not negative |
| ConfigHandleExtensions.SetConstraints | Runtime/Manager/UIConfigHandleExtensions.cs:268-274 | only the node's constraints field changes |
| ConfigHandleExtensions.SetSize | Runtime/Manager/UIConfigHandleExtensions.cs:282-288 | only the node's size field changes |
| ConfigHandleExtensions.SetPosition | Runtime/Manager/UIConfigHandleExtensions.cs:310-316 | only the node's position field changes |
| ConfigHandleExtensions.SetThenGet | Runtime/Manager/UIConfigHandleExtensions.cs:268-321 | each setter followed by its getter gives back the value set, the other two runtime-header fields and every other node's header are unchanged, and GetWidth/GetHeight are size.x/size.y |
| TextEncoding.GetEncoding | Runtime/Manager/UIConfigHandleExtensions.cs:37-51 | the encoding is UTF16BE, UTF16LE, UTF8 or UTF32BE exactly when the bytes start with that mark, never UTF32LE or None, and the bytes always start with the result's mark |
| TextEncoding.Utf32LeReadAsUtf16Le | Runtime/Manager/UIConfigHandleExtensions.cs:42-49 | a UTF-32LE mark FF FE 00 00 is taken for UTF-16LE, because the FF FE check comes first |
| TextEncoding.GetPreambleSize | Runtime/Manager/UIConfigHandleExtensions.cs:53-69 | the preamble size is the length of the encoding's mark: 3, 2, 4, or 0 for none and unknown |
| TextEncoding.GetMinCharSize | Runtime/Manager/UIConfigHandleExtensions.cs:98-113 | the code unit size: at most the maximum size, and 0 exactly for none and unknown |
| TextEncoding.GetTextContent | Runtime/Manager/UIConfigHandleExtensions.cs:91-94 | the text starts after the 4-byte length and the mark of the detected encoding |
| ObjectConversion.ComputeLayout | Editor/Systems/UIObjectConversionSystem.cs:166-185 | the layout loop yields the config header (block count as a byte, the element, the summed lengths), one block header per block (hash, size as a ushort, enabled = required), each block type's offset, and a buffer size of the two fixed headers plus every block's header and payload |
| ObjectConversion.OffsetsOfDistinct | Editor/Systems/UIObjectConversionSystem.cs:171-176 | with one block per type, the offset dictionary maps each block's type to the fixed headers plus the header and payload of every earlier block |
| ObjectConversion.BuildConfigBuffer | Editor/Systems/UIObjectConversionSystem.cs:186-197 | the fresh buffer holds the zeroed runtime header, the config header and each block header written at its dictionary offset over zeros |
| Bytes.MemClear | Editor/Systems/UIObjectConversionSystem.cs:190 | the first n bytes become 0 and every later byte keeps its value |
| Bytes.CopyTo | Editor/Systems/UIObjectConversionSystem.cs:191-196 | the copied bytes stand at the offset and every byte outside them keeps its value |
| ObjectConversion.BuiltIsLayout | Editor/Systems/UIObjectConversionSystem.cs:186-197 | with one block per type the headers land where the layout puts them: runtime header, config header, then each block as header followed by a zeroed payload |
| ObjectConversion.LayoutBlocks | Editor/Systems/UIObjectConversionSystem.cs:166-197 | the built buffer is well formed for the header walk of the runtime reader, which finds one header per block, the i-th at the span offset of the blocks before it, carrying block i's size, hash and required flag |
| ObjectConversion.LayoutTotals | Editor/Systems/UIObjectConversionSystem.cs:168-177 | on the built buffer PropertyBlockCount reads the block count, Element the element, Length the summed block spans and TotalLength the whole buffer size |
| ObjectConversion.LayoutSorted | Editor/Systems/UIObjectConversionSystem.cs:165 | a hash-sorted block list gives a buffer whose headers are in hash order, as the runtime lookups' early exit assumes |
| ObjectConversion.BuildThenScan | Editor/Systems/UIObjectConversionSystem.cs:166-197 | the runtime lookup over the built buffer succeeds exactly when some block has the wanted hash (and is enabled when that is checked), and then returns the offset of the first such block |
| ObjectConversion.BuildThenFind | Editor/Systems/UIObjectConversionSystem.cs:166-197 | with distinct hashes the lookup of block i's hash finds block i's header, except that with the enabled check a non-required block is not found |
| ObjectConversion.BuildThenIterate | Editor/Systems/UIObjectConversionSystem.cs:166-197 | the block enumerator over the built buffer yields, in order, each block's header address and payload address (header address plus the header size) |
| ObjectConversion.OffsetAgrees | Editor/UIEditorUtility.cs:93-106 | for one block per type, the editor's GetPropertyBlockOffset (FindIndex, then the sum of earlier spans) names the same place as the conversion's offset dictionary |
| ObjectConversion.BuildExtraData | Editor/Systems/UIObjectConversionSystem.cs:256-262 | the extra-data buffer stays empty when nothing was written to the stream; otherwise it is the config buffer size plus the stream length long and starts with the stream's bytes |
| ObjectConversion.ExtraDataText | Editor/Systems/UIObjectConversionSystem.cs:256-262 | a text value written to the stream during conversion reads back from the extra data at its offset: its UTF-16 length, the UTF-8 mark, its content address, and its code points |
| ObjectConversion.LinkNode | Editor/Systems/UIObjectConversionSystem.cs:93-101 | the child buffer lists the children's entities in order, and every child's parent entry becomes the node while no other entry changes |
| ObjectConversion.LinkedParentsOfTree | Editor/Systems/UIObjectConversionSystem.cs:93-101 | after every node of a tree with unique children has been linked, each listed child points at its parent, and an entity no node lists keeps its old parent |
| EditorUtility.InsertPermutes | Editor/UIEditorUtility.cs:118 | one insertion step of the sort adds exactly the inserted block |
| EditorUtility.InsertSorted | Editor/UIEditorUtility.cs:118 | one insertion step of the sort keeps the list in ascending hash order |
| EditorUtility.SortByHash | Editor/UIEditorUtility.cs:118 | the sort by hash returns a hash-ordered permutation of its input |
| EditorUtility.GetPropertyBlocks | Editor/UIEditorUtility.cs:107-120 | the element's block list is in ascending hash order and is a permutation of the global blocks followed by the element's declared blocks |
| EditorUtility.GetPropertyBlocksContents | Editor/UIEditorUtility.cs:107-120 | the sorted list has one entry per global and declared block, contains each of them (globals required, declared ones as declared), and nothing else |
| EditorUtility.FindIndex | Editor/UIEditorUtility.cs:98 | the index of the first block whose full type name matches, or -1 exactly when none matches |
| EditorUtility.GetPropertyBlockOffset | Editor/UIEditorUtility.cs:93-106 | -1 exactly when no block has the name; otherwise the two fixed headers plus the header and payload of every block before the first match |
| EditorUtility.WithFlagSpec | Editor/UIEditorUtility.cs:123-139 | the bit path sets bit bitOffset % 8 of the byte at offset + fieldOffset + bitOffset / 8 to the parsed value and leaves the other seven bits and every other byte alone |
| EditorUtility.HandleProperty | Editor/UIEditorUtility.cs:121-153 | the buffer after HandleProperty: one bit written on the bit path (bool or UIBool with a bit offset), the value's bytes copied on the value path, nothing on a failed parse |
| EditorUtility.HandledValue | Editor/UIEditorUtility.cs:145-148 | the value path places the value's bytes at offset + fieldOffset and changes no byte outside them |
| EditorUtility.HandledFailure | Editor/UIEditorUtility.cs:140-152 | a parse failure on either path leaves the buffer unchanged |
| EditorUtility.TwoFlags | Editor/UIEditorUtility.cs:123-139 | two bit properties in one byte written in turn each keep their own value |
| EditorUtility.BinaryStream.Write | Editor/UIEditorUtility.cs:85-89 | a write to the extra-data stream appends its bytes |
| EditorUtility.TryParseUIText | Editor/UIEditorUtility.cs:82-91 | the text's offset is the stream length before the write, the stream gains length, UTF-8 mark, UTF-8 bytes and a NUL, and the parse always succeeds |
| EditorUtility.EmptyTextRecord | Editor/UIEditorUtility.cs:85-89 | a null or empty string appends exactly length 0, the mark EF BB BF, and the NUL |
| EditorUtility.RecordLayout | Editor/UIEditorUtility.cs:84-89 | in the stream the record's four length bytes sit at the text's offset, followed by the mark, the UTF-8 bytes and the NUL |
| EditorUtility.MarkIsUtf8 | Editor/UIEditorUtility.cs:86 | the mark written after the length is the one the runtime reader recognises as UTF-8 |
| EditorUtility.TextRecordReadBack | Editor/UIEditorUtility.cs:82-91 | writer and reader agree: at the text's offset the runtime reads back the UTF-16 length, UTF-8 as the encoding, the content address after the mark, and the string's code points |
| Alignment.MergeIsOr | Runtime/Commons/UIAlignment.cs:36-39 | each bit of a merged alignment is the or of the two parts' bits, and both Merge overloads agree |
| Alignment.HorizontalMask | Runtime/Commons/UIAlignment.cs:42 | the horizontal part keeps exactly the low four bits |
| Alignment.VerticalMask | Runtime/Commons/UIAlignment.cs:45 | the vertical part keeps exactly the high four bits |
| Alignment.MergeThenGet | Runtime/Commons/UIAlignment.cs:36-45 | a horizontal value below 16 and a vertical value with a zero low nibble merge to their sum, and splitting the merge gives both back |
| Alignment.NamedRoundTrip | Runtime/Commons/UIAlignment.cs:7-45 | for every named horizontal and vertical alignment, merging then splitting gives the two parts back |
| Alignment.NamedAlignments | Runtime/Commons/UIAlignment.cs:19-30 | the nine named alignments are the merges of their horizontal and vertical parts |
| Alignment.FiniteOffsets | Runtime/Commons/UIAlignment.cs:48-61 | the offset for finite sizes is the free space times 0 (left/top), 0.5 (center) or 1 (otherwise), and is negative when the object overflows a non-start alignment |
| Alignment.InfiniteAtStart | Runtime/Commons/UIAlignment.cs:48-53 | Left alignment in an infinite container gives NaN, because the multiplier 0 times infinite space is not 0 |
| Alignment.OffsetOfMerge | Runtime/Commons/UIAlignment.cs:64-73 | the two-axis offset of a merged alignment is the horizontal offset of its horizontal part and the vertical offset of its vertical part |
| BindingJob.CreateHints | Runtime/Manager/Jobs/UIBindingJob.cs:30-43 | the hint data holds exactly four hints |
| BindingJob.HintsInOrder | Runtime/Manager/Jobs/UIBindingJob.cs:34-46 | the indexer reads back x, y, z and w at 0..3 |
| BindingJob.IntegerRoundTrip | Runtime/Manager/Jobs/UIBindingJob.cs:184-211 | an integer of any source type stored little-endian in its width (two's complement when signed) converts to that integer as a float |
| BindingJob.NormalizerPositive | Runtime/Manager/Jobs/UIBindingJob.cs:118-133 | every normaliser is positive (255 for colours, 1 by default, the width or height only when it is above 0) |
| BindingJob.NormalizerShift | Runtime/Manager/Jobs/UIBindingJob.cs:109-150 | component i is divided by the normaliser of hint i - 1 for i in 1..4 and by 1 otherwise, so component 0 is never normalised |
| BindingJob.DivideByNormalizer | Runtime/Manager/Jobs/UIBindingJob.cs:96 | dividing a finite value by a positive normaliser stays finite and is the real quotient; dividing by 1 changes nothing |
| BindingJob.ComponentValue | Runtime/Manager/Jobs/UIBindingJob.cs:89-106 | a node without the property gets zeros; component 0 is the raw converted value; a finite value read at the strided position gives a finite component |
| BindingJob.Execute | Runtime/Manager/Jobs/UIBindingJob.cs:78-108 | the first count times vectorLength floats of the component array are the expected rows, one row per node in order, and the rest of the array is unchanged |
| BindingJob.ExecutedComponent | Runtime/Manager/Jobs/UIBindingJob.cs:96-104 | the float at index * vectorLength + i is component i of node index, read from that node's own buffer |
| BindingJob.ExecuteNode | Runtime/Manager/Jobs/UIBindingJob.cs:87-106 | one node's pass writes its vectorLength components at its row and nothing else |
| BindingJob.WriteValues | Runtime/Manager/Jobs/UIBindingJob.cs:89-99 | the found-property loop writes each component as the value read with the stride, divided by its normaliser, and no other slot |
| BindingJob.WriteZeros | Runtime/Manager/Jobs/UIBindingJob.cs:100-106 | the missing-property loop writes zero into each component of the row and no other slot |
| BoxElements.HBoxConstrain | Runtime/Elements/HBox.cs:16-37 | each child's constraints have zero minimums and are the box's constraints less the horizontal and vertical insets and the widths and spacing of the earlier children |
| BoxElements.HUnbounded | Runtime/Elements/HBox.cs:18-19 | under an infinite maximum width the child constraints are passed through unchanged, with zero minimums |
| BoxElements.HRemainingFinite | Runtime/Elements/HBox.cs:23-27 | with finite sizes the width left for a child is finite, and once an earlier child is subtracted it is never negative |
| BoxElements.HRemainingShrinks | Runtime/Elements/HBox.cs:26 | each earlier child can only shrink the width left for the next one |
| BoxElements.HBounded | Runtime/Elements/HBox.cs:16-37 | under finite constraints the maximum width is the remaining width floored at 0 and the maximum height the height less the vertical inset floored at 0 |
| BoxElements.HBoxLayout | Runtime/Elements/HBox.cs:38-51 | the HBox writes each child's position as the start after margin, padding and border, moved right by every earlier child's width plus spacing |
| BoxElements.HPositionFinite | Runtime/Elements/HBox.cs:40-50 | child i's x is the left inset plus the widths of the first i children plus i spacings; its y is the top inset |
| BoxElements.HBoxSize | Runtime/Elements/HBox.cs:56-74 | the HBox size is its horizontal and vertical insets plus the clamped content size |
| BoxElements.HContentFinite | Runtime/Elements/HBox.cs:63-70 | the content width is the sum of child widths plus a spacing between consecutive children (none after the last), and its height the tallest child |
| BoxElements.HSizeWidth | Runtime/Elements/HBox.cs:58-73 | for n > 0 children the width is the inset plus the clamp of the summed widths and n - 1 spacings into the width limits |
| BoxElements.HSizeHeight | Runtime/Elements/HBox.cs:58-73 | the height is the vertical inset plus the tallest child clamped into the height limits |
| BoxElements.HBoxExampleSize | Runtime/Elements/HBox.cs:56-74 | two concrete children of widths 15 and 10 and spacing 10 give a 35 by 10 box |
| BoxElements.HBoxExampleLayout | Runtime/Elements/HBox.cs:38-51 | in that example the second child starts at x = 15 |
| BoxElements.VInsetQuirk | Runtime/Elements/VBox.cs:29-46 | the VBox start and size use the margin's right/bottom in place of the padding's, so they agree with the HBox inset exactly when those two are equal |
| BoxElements.VBoxConstrain | Runtime/Elements/VBox.cs:13-27 | each child's constraints have zero minimums; the maximum height is floored at 0 and then reduced by every earlier child's height plus spacing, floored at 0 |
| BoxElements.VUnboundedStays | Runtime/Elements/VBox.cs:13-16 | the VBox subtracts its insets even from an infinite maximum width, which therefore stays infinite |
| BoxElements.VRemainingFloored | Runtime/Elements/VBox.cs:23-26 | the height left for each child never drops below 0 |
| BoxElements.VBoxLayout | Runtime/Elements/VBox.cs:28-38 | the VBox writes each child's position as the start moved down by every earlier child's height plus spacing |
| BoxElements.VPositionFinite | Runtime/Elements/VBox.cs:29-37 | child i's y is the VBox's start y plus the heights of the first i children plus i spacings; x is the start x |
| BoxElements.VBoxSize | Runtime/Elements/VBox.cs:42-56 | the VBox size is its insets plus the clamped content size |
| BoxElements.VContentFinite | Runtime/Elements/VBox.cs:47-52 | the content width is the widest child, and the height the summed heights plus one spacing per child (the last included) |
| BoxElements.VSizeWidth | Runtime/Elements/VBox.cs:43-55 | the width is the inset plus the widest child clamped into the width limits |
| BoxElements.VSizeHeight | Runtime/Elements/VBox.cs:43-55 | the height is the inset plus the clamp of the summed heights and n spacings into the height limits |
| BoxElements.VBoxExampleSize | Runtime/Elements/VBox.cs:42-56 | two concrete children give a 20 by 30 box, the trailing spacing counted |
| BoxElements.VBoxExampleLayout | Runtime/Elements/VBox.cs:28-38 | in that example the second child starts at y = 15 |
| ElementExtensions.BoundedBothWays | Runtime/UIElementExtensions.cs:10-14 | constraints are bounded exactly when both maximums are bounded, and a maximum is unbounded exactly when it is an infinity of either sign |
| ElementExtensions.GenerateBoxMesh | Runtime/UIElementExtensions.cs:17-62 | the four vertices are written at the given position and every other vertex is unchanged |
| ElementExtensions.QuadIsRectangle | Runtime/UIElementExtensions.cs:18-61 | vertices 0/2 and 1/3 share their x, vertices 0/1 and 2/3 share their y, both in position and in uv, so the quad is an axis-aligned rectangle |
| ElementExtensions.QuadCorners | Runtime/UIElementExtensions.cs:18-61 | for finite inputs the first corner is (x + margin.x, -(y + margin.y)) and the last (z - margin.z, -(w - margin.w)), y flipped by the vertex constructor |
| ElementManager.SubNameBlank | Runtime/Manager/UIElementManager.cs:25-28 | a blank sub-name gives the plain block-prefixed name |
| ElementManager.SubNamePrefix | Runtime/Manager/UIElementManager.cs:25-28 | with prefix set the sub-name goes before the name, both under the block name |
| ElementManager.SubNameSuffix | Runtime/Manager/UIElementManager.cs:25-28 | without prefix a non-blank sub-name goes after the name, joined by '-' |
| ElementManager.ToMaterialName | Runtime/Manager/UIElementManager.cs:29-38 | the material name is "_" followed by each '-'-separated component in title case |
| ElementManager.MaterialNameOfBlockProperty | Runtime/Manager/UIElementManager.cs:20-38 | a property of a named block becomes "_" + TitleCase(block) + TitleCase(name) |
| ElementManager.MaterialNameOfGlobalProperty | Runtime/Manager/UIElementManager.cs:20-38 | a property of an unnamed block becomes "_" + TitleCase(name) |
| ElementManager.NewProperty | Runtime/Manager/UIElementManager.cs:608-614 | the constructor stores its four fields, bitOffset -1 by default |
| ElementManager.PropertyIdentity | Runtime/Manager/UIElementManager.cs:605-630 | Equals is field-wise equality, and IsCreated is false exactly for the all-zero property |
| ElementManager.NewPropertyIsCreated | Runtime/Manager/UIElementManager.cs:605-614 | a property made with the default bit offset -1 is not a bit property, and it is created whatever its hash, offset and length, since IsCreated fails only when all four fields are 0 |
| ElementManager.NewElementPropertyBlock | Runtime/Manager/UIElementManager.cs:567-571 | the required flag is stored as the byte 1 or 0 |
| ElementManager.RequiredRoundTrip | Runtime/Manager/UIElementManager.cs:566-571 | IsRequired gives back the flag the block was made with |
| ElementManager.TerminalElements | Runtime/Manager/UIElementManager.cs:492 | an element is terminal exactly when it has no wrapper or implements neither Constrain nor Layout |
| ElementManager.BoolRegistrations | Runtime/Manager/UIElementManager.cs:256 | a UIBool field registers as many bits as it has names, at most eight per byte of the field |
| ElementManager.BoolFieldRegistrations | Runtime/Manager/UIElementManager.cs:248-265 | each name of a UIBool field becomes a bool property under the block-prefixed name, at the field's offset and size, with bit offset i |
| ElementManager.ComponentLayout | Runtime/Manager/UIElementManager.cs:276-309 | every composite component registration lies at the field offset plus one component's offset, with the component type's size and type |
| ElementManager.Register | Runtime/Manager/UIElementManager.cs:261-306 | Dictionary.Add succeeds exactly for a name not yet registered, and then adds just that entry |
| ElementManager.RegisterAllSpec | Runtime/Manager/UIElementManager.cs:244-315 | a run of registrations succeeds exactly when all names are fresh and distinct, and then every name maps to its property |
| ElementManager.Manager.Add | Runtime/Manager/UIElementManager.cs:261-263 | one registration: false where Dictionary.Add would throw, otherwise the property, its type and its length info are recorded |
| ElementManager.Manager.AddAll | Runtime/Manager/UIElementManager.cs:244-315 | the registrations in order, stopping at the first duplicate name |
| ElementManager.Manager.InitializeProperties | Runtime/Manager/UIElementManager.cs:240-315 | a block's fields are registered in field order: bool bits, then each value field followed by its composite components |
| ElementManager.Manager.InitializePropertyBlockTypeIndex | Runtime/Manager/UIElementManager.cs:224-238 | the block's hash is recorded in both directions and in its type slot, the block is listed once more as global when its attribute says so, and its properties are registered |
| ElementManager.Manager.InitializeUIElementIndex | Runtime/Manager/UIElementManager.cs:203-221 | the element's hash is recorded and one UIElementPropertyBlock per accessor field is appended, with the block's registered hash and required unless the field is optional |
| ElementManager.ElementBlocks | Runtime/Manager/UIElementManager.cs:213-220 | one entry per accessor field, in order, each with its block's hash and required exactly when the field is not optional |
| ElementManager.Manager.ResolveNormalizationInfo | Runtime/Manager/UIElementManager.cs:149-159 | the normalisation table gains every collected length's resolved info, in order |
| ElementManager.Manager.GetElementAsWritten | Runtime/Manager/UIElementManager.cs:468-471 | GetElement<T> as written reads the property-block slot of T |
| ElementManager.GetElementReadsWrongSlot | Runtime/Manager/UIElementManager.cs:468-471 | for a registered element with a non-zero hash (which no block shares), the as-written accessor returns 0 instead of the element's hash |
| ElementManager.GetElementAfterRegistration | Runtime/Manager/UIElementManager.cs:203-211 | after an element is registered, the corrected accessor returns exactly its hash |
| Floats.MaxSpec | Runtime/Elements/HBox.cs:26 | math.max returns one of its arguments, and without NaNs it is at least both |
| Floats.ClampWithin | Runtime/Elements/HBox.cs:71-72 | math.clamp into an ordered range lands inside the range |
| Floats.ClampUnbounded | Runtime/Elements/HBox.cs:71-72 | clamping into [lo, infinity] is the larger of the value and lo |
| Floats.LessTotal | Runtime/Elements/HBox.cs:28 | without NaNs the comparisons the jobs use are a strict total order |
| LayoutJob.ClearEffect | Runtime/Manager/Jobs/UILayoutJob.cs:115-124 | Clear sets size and position to zero for exactly the nodes of the subtree and leaves every other header alone |
| LayoutJob.ClearChildrenEffect | Runtime/Manager/Jobs/UILayoutJob.cs:119-123 | clearing the first k children clears exactly the nodes of their subtrees |
| LayoutJob.PlaceKeeps | Runtime/Manager/Jobs/UILayoutJob.cs:88-97 | the position loop changes only positions, and only those of displayed children |
| LayoutJob.PlaceSets | Runtime/Manager/Jobs/UILayoutJob.cs:88-97 | each displayed child gets the position the element's layout callback computed for it |
| LayoutJob.LayoutFrame | Runtime/Manager/Jobs/UILayoutJob.cs:49-114 | Layout changes no header outside the node's subtree, and of the node itself only the size |
| LayoutJob.LayoutKeeps | Runtime/Manager/Jobs/UILayoutJob.cs:49-114 | outside the subtree every header is kept, and the node keeps everything but its size |
| LayoutJob.ChildPassFrame | Runtime/Manager/Jobs/UILayoutJob.cs:69-82 | the child loop up to child k touches only the subtrees of those children |
| LayoutJob.ChildStepFrame | Runtime/Manager/Jobs/UILayoutJob.cs:72-81 | one child step touches only that child's subtree |
| LayoutJob.LaterStepsKeep | Runtime/Manager/Jobs/UILayoutJob.cs:69-82 | in a tree, later child steps never undo what an earlier child's step wrote into its subtree |
| LayoutJob.ChildConstrained | Runtime/Manager/Jobs/UILayoutJob.cs:72-73 | child i ends with the constraints the constrain callback computed from the headers as they stood after the children before it |
| LayoutJob.ChildOutsideParent | Runtime/Manager/Jobs/UILayoutJob.cs:69-101 | a node inside a child's subtree ends as the child loop left it, apart from the placed child's position |
| LayoutJob.ChildPlaced | Runtime/Manager/Jobs/UILayoutJob.cs:83-97 | a displayed child ends at the position the layout callback gave it, computed after every child was laid out |
| LayoutJob.ForestOfChild | Runtime/Manager/Jobs/UILayoutJob.cs:55 | no node is its own child |
| LayoutJob.HiddenChildCleared | Runtime/Manager/Jobs/UILayoutJob.cs:74-81 | every node in the subtree of a hidden child ends with zero size and zero position |
| LayoutJob.SizedLast | Runtime/Manager/Jobs/UILayoutJob.cs:100-110 | the node's size is what the size callback computes over its children (none for a terminal element) once all of them are placed |
| LayoutJob.RootConstrained | Runtime/Manager/Jobs/UILayoutJob.cs:32-47 | each root gets the root's constraints; a hidden root's subtree is cleared to zero size and position |
| LayoutJob.UILayoutJob.Clear | Runtime/Manager/Jobs/UILayoutJob.cs:115-124 | the recursive Clear leaves the header array as the clear specification says |
| LayoutJob.UILayoutJob.Layout | Runtime/Manager/Jobs/UILayoutJob.cs:49-114 | the recursive Layout leaves the header array as the layout specification says |
| LayoutJob.UILayoutJob.Execute | Runtime/Manager/Jobs/UILayoutJob.cs:28-48 | the batch lays out or clears each root in order, as the run specification says |
| LengthNormalization.LookupSound | Runtime/Manager/Jobs/UILengthNormalizationJob.cs:61-67 | a lookup that succeeds reads a stored length in a block of the handle's node whose hash is the reference property's |
| LengthNormalization.ReferenceHandle | Runtime/Manager/Jobs/UILengthNormalizationJob.cs:48-60 | the switch picks self, parent or root, and leaves the default handle for every other target |
| LengthNormalization.ParentAtRootDereferencesNull | Runtime/Manager/Jobs/UILengthNormalizationJob.cs:34-61 | as written, a created Parent reference on a root reads through the default parent handle before the supported mask can refuse it |
| LengthNormalization.CombinedTargetDereferencesNull | Runtime/Manager/Jobs/UILengthNormalizationJob.cs:48-61 | as written, a created reference with a combined target such as Self,Parent reads through the default handle |
| LengthNormalization.AsWrittenAgrees | Runtime/Manager/Jobs/UILengthNormalizationJob.cs:48-68 | the source dereferences null exactly when a target and a created reference meet a default handle; everywhere else it computes the corrected RelativeTo |
| LengthNormalization.RelativeToCases | Runtime/Manager/Jobs/UILengthNormalizationJob.cs:61-68 | RelativeTo is the reference's realValue exactly when there is a target, the reference is created and found, and the target is supported; otherwise it is 0 |
| LengthNormalization.CombinedTargetIsZero | Runtime/Manager/Jobs/UILengthNormalizationJob.cs:48-64 | corrected: a target outside Self, Parent and Root resolves nothing, so RelativeTo is 0 |
| LengthNormalization.ParentAtRootIsZero | Runtime/Manager/Jobs/UILengthNormalizationJob.cs:34-64 | corrected: a Parent reference on the root has nothing to read, so RelativeTo is 0 |
| LengthNormalization.ParentUnsupportedAtRoot | Runtime/Manager/Jobs/UILengthNormalizationJob.cs:34-61 | the root's supported set Self,Root refuses a Parent reference even where a parent handle is given |
| LengthNormalization.ChildReadsReference | Runtime/Manager/Jobs/UILengthNormalizationJob.cs:67-75 | below the root every target is supported: a Self, Parent or Root reference that resolves gives its realValue |
| LengthNormalization.PreOrderVisits | Runtime/Manager/Jobs/UILengthNormalizationJob.cs:73-76 | every visit of the walk is of a node of the subtree, and every visit after the first has a parent that lists the node as a child and Self,Parent,Root support |
| LengthNormalization.WalkIsPreOrder | Runtime/Manager/Jobs/UILengthNormalizationJob.cs:37-77 | Normalize applies the node's own blocks at each visit of the pre-order, one after the other |
| LengthNormalization.WalkChildrenIsChildOrder | Runtime/Manager/Jobs/UILengthNormalizationJob.cs:73-76 | walking the first c children one after another is visiting their pre-orders concatenated, in child order |
| LengthNormalization.RootVisitFirst | Runtime/Manager/Jobs/UILengthNormalizationJob.cs:34 | the root is visited first, with the default parent and Self,Root support |
| LengthNormalization.ChildVisitPosition | Runtime/Manager/Jobs/UILengthNormalizationJob.cs:73-76 | each child of a node is visited with that node as parent and full support, right after the subtrees of the children before it |
| LengthNormalization.WalkFrame | Runtime/Manager/Jobs/UILengthNormalizationJob.cs:37-77 | the walk from a node writes realValues of that node and the nodes numbered after it and nothing else |
| LengthNormalization.WalkRootsFrame | Runtime/Manager/Jobs/UILengthNormalizationJob.cs:25-36 | a whole pass writes only realValues: every raw value and unit stays, and no length appears or disappears |
| LengthNormalization.NormalizationJob.ApplyLength | Runtime/Manager/Jobs/UILengthNormalizationJob.cs:46-69 | one length: RelativeTo is set by the reference rules and the length's realValue becomes its normalised value |
| LengthNormalization.NormalizationJob.ApplyBlock | Runtime/Manager/Jobs/UILengthNormalizationJob.cs:41-71 | every info registered for the block's hash is applied in the multi-map's order |
| LengthNormalization.NormalizationJob.Normalize | Runtime/Manager/Jobs/UILengthNormalizationJob.cs:37-77 | the recursive Normalize leaves the state the pre-order walk specification gives |
| LengthNormalization.NormalizationJob.Execute | Runtime/Manager/Jobs/UILengthNormalizationJob.cs:25-36 | the batch walks each root in order from a fresh context |
| MaterialBinding.NewConversionInfo | Compiler/UIMaterialBindingPostProcessor.cs:468-497 | a conversion keeps its type code, size, input count and offset, and is valid with a float field of that width and the matching format exactly for one to four inputs |
| MaterialBinding.GetCompositeConversionInfo | Compiler/UIMaterialBindingPostProcessor.cs:499-504 | the composite conversion multiplies the input count by the arity, keeps the rest, and is valid exactly when the product is between one and four |
| MaterialBinding.ConversionTable | Compiler/UIMaterialBindingPostProcessor.cs:42-57 | every built-in conversion is valid, at offset 0, takes one or four inputs, and its size covers its inputs (exactly, except for UILength) |
| MaterialBinding.CompositeCount | Compiler/UIMaterialBindingPostProcessor.cs:117-129 | the arity read from the composite interfaces is 0 or between 2 and 4 |
| MaterialBinding.TryGetConversion | Compiler/UIMaterialBindingPostProcessor.cs:108-168 | a found conversion is valid with one to four inputs at offset 0, counts at most four components, and counts other than one only for composites |
| MaterialBinding.PrimitiveLookup | Compiler/UIMaterialBindingPostProcessor.cs:153-167 | a non-composite type converts exactly when its full name is in the table, to that entry with count one |
| MaterialBinding.CompositeArity | Compiler/UIMaterialBindingPostProcessor.cs:111-151 | a composite of a convertible type packs into one wider conversion when that fits in four floats, and otherwise yields arity copies of the element conversion |
| MaterialBinding.CompositeOfUnknown | Compiler/UIMaterialBindingPostProcessor.cs:111-167 | a composite of an unconvertible type falls back to the table lookup of its own name |
| MaterialBinding.LengthComposites | Compiler/UIMaterialBindingPostProcessor.cs:54-140 | CompositeData2 and CompositeData4 of UILength bind as one float2 and one float4 component |
| MaterialBinding.ColorComposite | Compiler/UIMaterialBindingPostProcessor.cs:55-150 | CompositeData4 of Color, sixteen floats, splits into four Color components |
| MaterialBinding.IntComposite | Compiler/UIMaterialBindingPostProcessor.cs:50-167 | CompositeData3 of int binds as one float3 of Int32 source; a string composite and a bool have no conversion |
| MaterialBinding.Diagnostics.Add | Compiler/UIMaterialBindingPostProcessor.cs:219-222 | a diagnostic is appended after the earlier ones |
| MaterialBinding.NewBindingComponent | Compiler/UIMaterialBindingPostProcessor.cs:228-262 | the component's field offset adds the given offset to the conversion's, it feeds the conversion's input count from its type code, and its type is named after the material property |
| MaterialBinding.SubNames | Compiler/UIMaterialBindingPostProcessor.cs:195-201 | four sub-names, x, y, z and w without a CompositeName attribute |
| MaterialBinding.TryCreate | Compiler/UIMaterialBindingPostProcessor.cs:182-227 | with a conversion, one component per counted component and no diagnostic; without one, an empty array and exactly one diagnostic naming the property |
| MaterialBinding.CreateComponents | Compiler/UIMaterialBindingPostProcessor.cs:186-214 | the array holds count components, the k-th named after the k-th sub-name (or the plain property for a single one) |
| MaterialBinding.ComponentsShareOffset | Compiler/UIMaterialBindingPostProcessor.cs:190-257 | all components of one property read from offset 0 with the same type code and one to four floats each |
| MaterialBinding.DefaultSubNames | Compiler/UIMaterialBindingPostProcessor.cs:196-205 | without the attribute, component i of a composite is named with sub-name x, y, z or w and the prefix on |
| MaterialBinding.GenerateHints | Compiler/UIMaterialBindingPostProcessor.cs:346-363 | the hint data holds the given hints in order, cut at HintSize, and zero (no hint) after them or for null hints |
| MaterialBinding.PaddedHints | Compiler/UIMaterialBindingPostProcessor.cs:349-361 | hints past HintSize are ignored, and null or empty hints give no hint anywhere |
| MaterialBinding.JobVectorLength | Compiler/UIMaterialBindingPostProcessor.cs:422-433 | the job scheduled for any created component writes one to four floats per node and reads from the start of the property |
| MeshJobs.QuadTotalIsSum | Runtime/Manager/Jobs/UIInitMeshDataJob.cs:29-40 | the recursive quad count of a subtree is the sum of the render quad counts over its pre-order nodes |
| MeshJobs.ForestQuadsIsSum | Runtime/Manager/Jobs/UIInitMeshDataJob.cs:34-37 | the count over the first k children is the sum over the nodes of their subtrees |
| MeshJobs.CountRenderQuads | Runtime/Manager/Jobs/UIInitMeshDataJob.cs:29-40 | the running total grows by the subtree's quad count and the submesh counter is left alone |
| MeshJobs.InitMeshData | Runtime/Manager/Jobs/UIInitMeshDataJob.cs:17-28 | each root's total render quad count is the quad count of its whole tree |
| MeshJobs.QuadIndexAt | Runtime/Manager/Jobs/UIRenderJob.cs:90-95 | index 6q+t is vertex 4q plus the t-th corner of the two triangles, truncated to 16 bits |
| MeshJobs.QuadIndexRun | Runtime/Manager/Jobs/UIRenderJob.cs:90-95 | quad q's six indices are 4q, 4q+1, 4q+2, 4q+1, 4q+3, 4q+2 |
| MeshJobs.RenderSpec | Runtime/Manager/Jobs/UIRenderJob.cs:59-113 | rendering a subtree advances the data offset by its quad count and the submesh counter by its node count, and keeps every buffer's length |
| MeshJobs.RenderIndices | Runtime/Manager/Jobs/UIRenderJob.cs:88-112 | after a subtree is rendered its index range holds the quad pattern and every other index is unchanged |
| MeshJobs.RenderVertices | Runtime/Manager/Jobs/UIRenderJob.cs:79-111 | vertices outside the subtree's range are unchanged, and under an invisible ancestor the whole range is cleared |
| MeshJobs.OwnVertices | Runtime/Manager/Jobs/UIRenderJob.cs:80-83 | a visible node's own vertices are what its element's mesh generator wrote for its rectangle |
| MeshJobs.BoxDrawn | Runtime/Manager/Jobs/UIRenderJob.cs:80-83 | a visible one-quad box node's four vertices are the box quad's corners |
| MeshJobs.RenderSubMeshes | Runtime/Manager/Jobs/UIRenderJob.cs:97-105 | the node's submesh describes its own quads and bounds, and submeshes outside the subtree's range are unchanged |
| MeshJobs.RenderBoundsSet | Runtime/Manager/Jobs/UIRenderJob.cs:97-106 | exactly the subtree's nodes get their render bounds from their header |
| MeshJobs.RootMesh | Runtime/Manager/Jobs/UIRenderJob.cs:45-57 | rendering a root into buffers sized from its totals fills them exactly, every index holds the quad pattern, and submesh 0 is the root's |
| MeshJobs.IndicesExact | Runtime/Manager/Jobs/UIRenderJob.cs:90-95 | below 65536 vertices the 16-bit index is exact and points into the vertex buffer |
| MeshJobs.IndicesWrap | Runtime/Manager/Jobs/UIRenderJob.cs:90 | the (ushort) cast wraps: quad 16384's first index is 0 |
| MeshJobs.WriteElementVertices | Runtime/Manager/Jobs/UIRenderJob.cs:79-83 | the vertex array becomes the overlay of the written slice |
| MeshJobs.ClearVertices | Runtime/Manager/Jobs/UIRenderJob.cs:86 | the vertex array becomes its zero-filled slice |
| MeshJobs.WriteQuadIndices | Runtime/Manager/Jobs/UIRenderJob.cs:88-96 | the index array becomes the index fill of the node's quads |
| MeshJobs.WriteQuad | Runtime/Manager/Jobs/UIRenderJob.cs:88-96 | one pass of the index loop writes the six indices of its quad and nothing else |
| MeshJobs.UIRenderJob.RenderNode | Runtime/Manager/Jobs/UIRenderJob.cs:69-108 | the buffers become one node step of the specification |
| MeshJobs.UIRenderJob.Render | Runtime/Manager/Jobs/UIRenderJob.cs:59-113 | the buffers and counters become RenderSpec of the subtree |
| MeshJobs.UIRenderJob.ExecuteRoot | Runtime/Manager/Jobs/UIRenderJob.cs:45-57 | one root's mesh is RenderSpec from offset 0, visible, at the zero position |
| ModelImporter.AliasShapes | Editor/Importers/UIModelImporter.cs:56-68 | no alias name ends in "[]", and every alias maps to a full type name that is itself no alias and no array |
| ModelImporter.AliasesResolve | Editor/Importers/UIModelImporter.cs:118-141 | an alias resolves to its full name, and the alias's array type to the full name's array type |
| ModelImporter.UnknownKept | Editor/Importers/UIModelImporter.cs:128-139 | a type that is neither an alias nor an alias's array keeps its own name |
| ModelImporter.ResolveIdempotent | Editor/Importers/UIModelImporter.cs:114-145 | resolving a resolved type name changes nothing |
| ModelImporter.ResolveArray | Editor/Importers/UIModelImporter.cs:120-130 | resolving an array type resolves its element type and keeps the "[]" |
| ModelImporter.Property.constructor | Editor/Importers/UIModelImporter.cs:104-113 | a deserialised property has its name, type and value and no cached resolved type |
| ModelImporter.Property.ResolvedType | Editor/Importers/UIModelImporter.cs:114-145 | the getter answers the resolution of the type (the cache when set), caches a non-null answer, and changes no other field |
| ModelImporter.CachedReads | Editor/Importers/UIModelImporter.cs:118-143 | once the cache holds a type, later reads answer it whatever the type field says |
| ModelImporter.Providers | Editor/Importers/UIModelImporter.cs:69-103 | of the aliases only "string" gets the string provider, and every alias's array gets the value provider |
| ModelImporter.FullStringProvider | Editor/Importers/UIModelImporter.cs:67-70 | System.String resolves to itself and gets the string provider |
| ModelImporter.Model.constructor | Editor/Importers/UIModelImporter.cs:72-79 | a deserialised model has its properties, assembly and name |
| ModelImporter.Model.ToAsset | Editor/Importers/UIModelImporter.cs:80-91 | the asset carries the model's name and assembly and one property per model property, in order, made by the provider of its resolved type; a property whose type is null fails the whole conversion |
| ModelImporter.LastIndexOf | Editor/Importers/UIModelImporter.cs:31-32 | the answer is -1 or a position holding the character, with no later position holding it |
| ModelImporter.DefaultNameStem | Editor/Importers/UIModelImporter.cs:29-34 | the default name of "dir/stem.ext" is stem |
| ModelImporter.DefaultNameShape | Editor/Importers/UIModelImporter.cs:31-33 | the default name fails exactly when there is no '.' after the last '/', and holds no '/' otherwise |
| ModelImporter.DefaultAssemblyEnds | Editor/Importers/UIModelImporter.cs:35-38 | the default assembly starts with the product name and ends with ".name" |
| ModelImporter.ImportModel | Editor/Importers/UIModelImporter.cs:16-41 | a null model fails, a null name without a '.' after the last '/' fails on Substring, and otherwise the asset is ToAsset of the model with its name and assembly defaulted |
| ModelInitializer.Search | Editor/IUIModelPropertyInitializer.cs:29-38 | a found position is no later than the start and its entity has the component |
| ModelInitializer.ChainBounds | Editor/IUIModelPropertyInitializer.cs:29-37 | every position on a parent chain lies between 0 and the chain's start |
| ModelInitializer.SearchNearest | Editor/IUIModelPropertyInitializer.cs:29-38 | the search finds the first position on the chain whose entity has the component, and finds nothing only when no position on the chain has it |
| ModelInitializer.NearestAncestorSound | Editor/IUIModelPropertyInitializer.cs:27-38 | the node is bound to its nearest proper ancestor that has the component, and is not bound when there is none |
| ModelInitializer.ImportedParentsBefore | Editor/IUIModelPropertyInitializer.cs:27-37 | in an imported view every parent index points before its node, as the search demands |
| ModelInitializer.Bindings.constructor | Editor/IUIModelPropertyInitializer.cs:40-43 | no entity is bound yet |
| ModelInitializer.Initialize | Editor/IUIModelPropertyInitializer.cs:25-39 | the node's entity is bound to the nearest ancestor's entity when there is one, and no binding changes otherwise |
| ViewAccessors.Position | Editor/UIViewAsset.cs:19 | the answer is the first position of an equal node, and -1 exactly when there is none |
| ViewAccessors.ItemInRange | Editor/UIViewAsset.cs:15-18 | the indexer finds exactly the positions below NodeCount, the node there, and otherwise throws |
| ViewAccessors.IndexOfFinds | Editor/UIViewAsset.cs:19 | IndexOf answers -1 exactly when no node equals the argument, and otherwise a position the indexer maps back to it |
| ViewAccessors.SelectItems | Editor/UIViewAsset.cs:22 | mapping indices through the indexer gives one node per index, in order, and throws exactly when some index does |
| ViewAccessors.ChildrenAgree | Editor/UIViewAsset.cs:21-35 | GetChildren is null exactly without a children array, throws exactly when some GetChildNode below ChildCount throws, and otherwise lists those GetChildNode answers |
| ViewAccessors.ChildPastEnd | Editor/UIViewAsset.cs:21 | a child position at or past ChildCount gives null |
| ViewAccessors.ImportedIndexOf | Editor/UIViewAsset.cs:19 | in an imported view IndexOf of node j is j |
| ViewAccessors.ImportedParent | Editor/UIViewAsset.cs:20 | in an imported view only node 0 has a null parent, and every other node's parent is an earlier node listing it as a child |
| ViewAccessors.ImportedChild | Editor/UIViewAsset.cs:21 | each child of an imported node is found, comes later, and has that node as its parent |
| ViewAccessors.ImportedChildren | Editor/UIViewAsset.cs:22 | an imported node's children never throw, and they are null exactly without a children array |
| ViewAccessors.ImportedClassCount | Editor/UIViewAsset.cs:31 | after the class attribute is imported ClassCount is one more than the spaces in its value, so it is at least 1, even for class="" |
| ViewImporter.ImportersExclusive | Editor/Importers/UIViewImporter.cs:143-194 | no attribute is claimed by two different attribute importers |
| ViewImporter.FirstImporterClaims | Editor/Importers/UIViewImporter.cs:73-81 | the first importer found claims the attribute, and none is found exactly when no importer claims it |
| ViewImporter.Dispatch | Editor/Importers/UIViewImporter.cs:21-81 | an importer handles an attribute exactly when it claims it |
| ViewImporter.FindImporter | Editor/Importers/UIViewImporter.cs:73-81 | the importer loop stops at the importer that claims the attribute, or finds none |
| ViewImporter.ClassesJoin | Editor/Importers/UIViewImporter.cs:159-162 | splitting the class attribute at spaces and joining the parts back gives the attribute value |
| ViewImporter.ScanProperties | Editor/Importers/UIViewImporter.cs:68-109 | the node's properties are exactly the unclaimed attributes, in order, and the scan succeeds exactly when each of them names a known field |
| ViewImporter.ScanKeepsPlace | Editor/Importers/UIViewImporter.cs:61-193 | the attribute importers never change a node's element type, index, parent index or children |
| ViewImporter.ScanFailureStays | Editor/Importers/UIViewImporter.cs:84 | once an attribute fails, the rest of the scan does not recover |
| ViewImporter.ChildrenStep | Editor/Importers/UIViewImporter.cs:114-117 | each child is imported after the earlier children's nodes, and a failing child fails the whole list |
| ViewImporter.ChildrenFailureStays | Editor/Importers/UIViewImporter.cs:114-117 | after a child fails no later child changes the outcome |
| ViewImporter.ForestConcat | Editor/Importers/UIViewImporter.cs:110-118 | consecutive well-formed subtrees together form a well-formed forest with both root lists |
| ViewImporter.ForestTree | Editor/Importers/UIViewImporter.cs:61-118 | a node followed by the forest of its children is a well-formed tree rooted at that node |
| ViewImporter.FlattenTree | Editor/Importers/UIViewImporter.cs:56-126 | an imported element is laid out in pre-order: its node first, with the given parent, followed by its children's subtrees, every node at its own index |
| ViewImporter.ChildrenForest | Editor/Importers/UIViewImporter.cs:111-118 | the imported children form a forest under the parent whose roots are the returned child indices |
| ViewImporter.UnknownElementFails | Editor/Importers/UIViewImporter.cs:58-125 | an element name the element manager does not know throws "Unknown Element" |
| ViewImporter.ViewAsset.constructor | Editor/Importers/UIViewImporter.cs:44-45 | the asset starts with no nodes and no referenced assets |
| ViewImporter.GroupEntry.constructor | Editor/Importers/UIViewImporter.cs:47 | the group entry starts with no images |
| ViewImporter.ImportAttributes | Editor/Importers/UIViewImporter.cs:68-109 | the attribute loop gives the scan's node and properties, appends the scan's images and referenced assets, and fails exactly when the scan does |
| ViewImporter.FlattenParts | Editor/Importers/UIViewImporter.cs:61-120 | an element's import is its scanned node with the children's roots as children, followed by their nodes |
| ViewImporter.CreateNode | Editor/Importers/UIViewImporter.cs:56-126 | on success the node index is the old node count and the asset's nodes, images and assets grow by the element's flattened import; on failure the error is the import's |
| ViewImporter.CreateChildren | Editor/Importers/UIViewImporter.cs:111-118 | the children's indices are the imported forest's roots and the asset grows by its nodes |
| ViewImporter.AppendChild | Editor/Importers/UIViewImporter.cs:116 | one child's import extends the children imported so far |
| ViewImporter.DistinctSound | Editor/Importers/UIViewImporter.cs:54 | Distinct keeps exactly the values of the list, each once |
| ViewImporter.DistinctOrder | Editor/Importers/UIViewImporter.cs:54 | the values Distinct keeps stand in the order of their first occurrences in the list |
| ViewImporter.ImportXml | Editor/Importers/UIViewImporter.cs:38-55 | without a root the view is empty; otherwise it is the root's flattened import with the referenced assets made distinct, and fails exactly when that import does |
| ViewImporter.ImportedTree | Editor/Importers/UIViewImporter.cs:49-126 | an imported view is one tree: node 0 is the root with parent -1 and every node is at its index with its children linked |
| NodeTree.PreOrder | Runtime/Manager/Jobs/UIRenderJob.cs:107-112 | a recursive walk from n visits n first, then each child's subtree in child order |
| NodeTree.PreOrderBounds | Editor/Systems/UIObjectConversionSystem.cs:93-101 | a subtree holds its root and only nodes numbered at or after it, all inside the table |
| NodeTree.ParentInSubtree | Editor/Systems/UIObjectConversionSystem.cs:93-101 | every node of a subtree except its root is listed as a child by a node of the same subtree |
| NodeTree.ForestSubset | Runtime/Manager/Jobs/UIRenderJob.cs:109-112 | the subtree of a child lies inside the subtree of its parent |
| NodeTree.ChildInSubtree | Runtime/Manager/Jobs/UIRenderJob.cs:109-112 | every child of n is visited by the walk from n |
| NodeTree.SiblingsDisjoint | Editor/Systems/UIObjectConversionSystem.cs:93-101 | in a tree two different children's subtrees share no node, so a walk never revisits a node |
| NodeTree.NodeCountChildren | Runtime/Manager/Jobs/UIRenderJob.cs:104-112 | a subtree's node count, the number the `subMesh++` of Render reaches over it, is one for the node itself plus the node counts of its children's subtrees |
| NodeTree.PreOrderInRange | Runtime/Manager/Jobs/UIRenderJob.cs:107-112 | every node the walk visits is a node of the table |
| PropertyBlocks.MakeGlyph | Runtime/PropertyBlocks.cs:127-135 | the glyph's uvs span the glyph rectangle from its corner, and its size, bearing, advance, scale and atlas index are the glyph's metrics |
| PropertyBlocks.FindFrom | Runtime/PropertyBlocks.cs:38-45 | the first position from i on of a pair with the unicode, and none exactly when no later pair has it |
| PropertyBlocks.Lookup | Runtime/PropertyBlocks.cs:32-48 | the indexer returns the glyph of the first pair with the unicode in bucket unicode % keys.Length, and the default glyph when there is none |
| PropertyBlocks.BucketStep | Runtime/PropertyBlocks.cs:69-73 | adding a character extends only its own bucket, by its pair |
| PropertyBlocks.CreateBlob | Runtime/PropertyBlocks.cs:52-95 | the blob keeps the face and atlas info, converts every glyph, has bucketCount buckets, and each bucket holds exactly the pairs of the characters whose unicode falls in it |
| PropertyBlocks.BucketSource | Runtime/PropertyBlocks.cs:71-72 | every pair in a bucket comes from a character whose unicode falls in that bucket |
| PropertyBlocks.BucketHas | Runtime/PropertyBlocks.cs:71-72 | every character's pair is in the bucket of its unicode |
| PropertyBlocks.TablesIndexed | Runtime/PropertyBlocks.cs:43-72 | a map built from the tables only points at glyphs of the table |
| PropertyBlocks.LookupUnique | Runtime/PropertyBlocks.cs:32-86 | looking up a unicode that one character has finds that character's glyph, whatever the bucket order |
| PropertyBlocks.LookupAbsent | Runtime/PropertyBlocks.cs:46 | looking up a unicode no character has gives the default glyph |
| PropertyBlocks.EmptyBucket | Runtime/PropertyBlocks.cs:75-86 | a bucket no unicode falls in stays empty |
| PropertyParsers.SourceToken | Editor/UIPropertyParsers.cs:121-217 | each field takes its value from a token that the composite reads |
| PropertyParsers.Splat | Editor/UIPropertyParsers.cs:105-221 | a successful composite has one value per field |
| PropertyParsers.TryParse | Editor/UIPropertyParsers.cs:105-229 | a composite splits at spaces and succeeds exactly when the splat does, with default values on failure; an enum goes to the case-insensitive enum parse and anything else to its registered parser |
| PropertyParsers.TryParseComposite | Editor/UIPropertyParsers.cs:107-221 | the composite branch answers the splat of the space-separated tokens, or all defaults on failure |
| PropertyParsers.SplatFields | Editor/UIPropertyParsers.cs:121-217 | when every read token parses, field i holds the parse of its source token |
| PropertyParsers.Shorthand | Editor/UIPropertyParsers.cs:121-196 | the switch for a four-field value without four tokens answers the splat |
| PropertyParsers.FillFields | Editor/UIPropertyParsers.cs:197-218 | the two filling loops answer the splat |
| PropertyParsers.OneTokenFillsAll | Editor/UIPropertyParsers.cs:178-191 | four fields from one token all take it |
| PropertyParsers.TwoTokensAlternate | Editor/UIPropertyParsers.cs:156-177 | four fields from two tokens are (a, b, a, b) |
| PropertyParsers.ThreeTokensRepeatSecond | Editor/UIPropertyParsers.cs:125-155 | four fields from three tokens are (a, b, b, c) |
| PropertyParsers.TooManyTokens | Editor/UIPropertyParsers.cs:192-194 | a four-field value with more than four tokens fails |
| PropertyParsers.BadTokenFails | Editor/UIPropertyParsers.cs:131-210 | any read token that does not parse fails the whole value |
| PropertyParsers.ExtraTokensIgnored | Editor/UIPropertyParsers.cs:200 | outside the four-field shorthand, tokens beyond the fields are never read |
| PropertyParsers.ShortTokensRepeatLast | Editor/UIPropertyParsers.cs:213-217 | with fewer tokens than fields, the remaining fields repeat the last parsed value |
| PropertyTypeConverter.Unit | Runtime/Manager/PropertyTypeConverter.cs:25 | a byte channel over 255 lies in [0, 1] and scales back to the byte |
| PropertyTypeConverter.Convert | Runtime/Manager/PropertyTypeConverter.cs:23-26 | element i of the result is the conversion of input element i for every i below length, and no other element changes |
| PropertyTypeConverter.ConvertColor32 | Runtime/Manager/PropertyTypeConverter.cs:22-27 | each Color32 becomes its four channels over 255, and the rest of the result is untouched |
| PropertyTypeConverter.ConvertColor | Runtime/Manager/PropertyTypeConverter.cs:29-34 | each Color becomes its four channels, and the rest of the result is untouched |
| PropertyTypeConverter.ConvertUILength | Runtime/Manager/PropertyTypeConverter.cs:36-41 | each length becomes its normalised value, and the rest of the result is untouched |
| PropertyTypeConverter.ConvertLength2 | Runtime/Manager/PropertyTypeConverter.cs:43-48 | each pair of lengths becomes the float2 of their normalised values |
| PropertyTypeConverter.ConvertLength3 | Runtime/Manager/PropertyTypeConverter.cs:50-55 | each triple of lengths becomes the float3 of their normalised values |
| PropertyTypeConverter.ConvertLength4 | Runtime/Manager/PropertyTypeConverter.cs:57-62 | each quadruple of lengths becomes the float4 of their normalised values |
| PropertyTypeConverter.ConvertColor4 | Runtime/Manager/PropertyTypeConverter.cs:64-74 | four Colors become the float4x4 of their channels, column by column |
| PropertyTypeConverter.ConvertColor32x4 | Runtime/Manager/PropertyTypeConverter.cs:76-86 | four Color32s become the float4x4 of their channels over 255 |
| PropertyTypeConverter.ByteColoursScale | Runtime/Manager/PropertyTypeConverter.cs:25-83 | a byte colour converts as the float colour of its channels over 255 |
| PropertyTypeConverter.UnitEnds | Runtime/Manager/PropertyTypeConverter.cs:25 | byte 0 gives 0, byte 255 gives 1, and the scaling keeps order |
| PropertyTypeConverter.LengthsIgnoreRaw | Runtime/Manager/PropertyTypeConverter.cs:39-60 | the converted lengths depend only on the normalised values, not on the raw value or unit |
| Query.TypeBits | Runtime/Manager/UIQuery.cs:479-494 | exactly the four combinators consume a node, and every type but Content and None is an operation |
| Query.IsOperation | Runtime/Manager/UIQuery.cs:426-438 | the byte is an operator exactly when the table has it, with the first matching entry's type, and None otherwise |
| Query.OperatorSymbols | Runtime/Manager/UIQuery.cs:206-214 | the operators are exactly ' ', '>', '+', '~', '#', '.' and ':', each with its own type |
| Query.OperatorTypes | Runtime/Manager/UIQuery.cs:206-494 | every operator's type is an operation, and only ' ', '>', '+' and '~' consume a node |
| Query.NextOperator | Runtime/Manager/UIQuery.cs:226-239 | the first operator byte at or after i, with no operator before it |
| Query.TokensSkip | Runtime/Manager/UIQuery.cs:238 | a byte that is no operator only extends the pending run |
| Query.TokensAtOperator | Runtime/Manager/UIQuery.cs:228-238 | at an operator the pending run becomes a Content token, the operator a one-byte token, and the next run starts after it with its first byte unexamined |
| Query.TokensAtEnd | Runtime/Manager/UIQuery.cs:240-243 | past the input only the pending run is left |
| Query.Tokenize | Runtime/Manager/UIQuery.cs:221-245 | the loop yields exactly the tokens of the query |
| Query.AddPending | Runtime/Manager/UIQuery.cs:230-243 | the Content token for the run is added exactly when the run is not empty |
| Query.RunStartsWithContent | Runtime/Manager/UIQuery.cs:235-238 | the run after an operator always yields a Content token first, reaching up to the next operator |
| Query.Tokenized | Runtime/Manager/UIQuery.cs:221-245 | the tokens tile the bytes from 0 in order with positive lengths and end at or one past the input with a Content token; every operator token is one examined operator byte followed by a Content token; Content bytes are not operators, except the unexamined first byte after an operator |
| Query.NoTokens | Runtime/Manager/UIQuery.cs:226-240 | an empty query gives no tokens, and only an empty query does |
| Query.TrailingOperator | Runtime/Manager/UIQuery.cs:235-243 | "a>" ends with a one-byte Content token that lies past the input |
| Query.SkippedOperator | Runtime/Manager/UIQuery.cs:235-238 | in "a>>b" the second '>' is never examined and starts the Content token ">b" |
| Query.TokensOfPseudoClasses | Runtime/Manager/UIQuery.cs:221-245 | "a:x:y>b" gives an element name, two pseudo-classes, a child operator and "b" |
| QueryNodes.Add | Runtime/Manager/UIQuery.cs:270-273 | adding to the multi-map puts the token first among its key's values and leaves every other key alone |
| QueryNodes.Place | Runtime/Manager/UIQuery.cs:259-286 | placing a token changes only the pending node and the current operation, and adds class keys only for the pending node |
| QueryNodes.RunBookkeeping | Runtime/Manager/UIQuery.cs:252-294 | node i has index i, the pending node the next one, and one node is appended per node-consuming token except a last one |
| QueryNodes.RunKeys | Runtime/Manager/UIQuery.cs:253-290 | the current operation is always an operation, and every class key belongs to an appended node or the pending one |
| QueryNodes.RunOperations | Runtime/Manager/UIQuery.cs:275-292 | when every operator is followed by Content, every appended node has the operation Content |
| QueryNodes.BuildNodes | Runtime/Manager/UIQuery.cs:252-294 | the foreach loop yields the nodes and class maps of the run over the tokens |
| QueryNodes.QueryNodeCount | Runtime/Manager/UIQuery.cs:248-294 | over a query's tokens the nodes are numbered in order, one per combinator, each with the operation Content |
| QueryNodes.LastNodeDropped | Runtime/Manager/UIQuery.cs:279-292 | "a>b" keeps a single node, for "a"; the node begun for "b" is never appended |
| QueryNodes.TokensOfChild | Runtime/Manager/UIQuery.cs:221-245 | the tokens of "a>b" are "a", '>' and "b" |
| QueryNodes.ReadsPseudoClasses | Runtime/Manager/UIQuery.cs:272-273 | the tokens of "a:x:y" put both pseudo-classes under node 0 |
| QueryNodes.PseudoClassesOfQuery | Runtime/Manager/UIQuery.cs:257-294 | over "a:x:y>b" the one node kept is "a", its two pseudo-classes come back newest first, and it has no classes |
| QueryLayout.TokenBytes | Runtime/Manager/UIQuery.cs:344-348 | a token's bytes are as many as its length |
| QueryLayout.NodesSizePrefix | Runtime/Manager/UIQuery.cs:418 | the node sizes add up one node at a time and no prefix passes the total |
| QueryLayout.GetQuerySize | Runtime/Manager/UIQuery.cs:389-425 | each node's entry holds its record size and its two section sizes, and the total is the header plus every record |
| QueryLayout.SectionSize | Runtime/Manager/UIQuery.cs:402-416 | a section's size is a ContentHeader plus the bytes of each of its tokens |
| QueryLayout.NodeBytes | Runtime/Manager/UIQuery.cs:317-381 | a node's record is exactly as long as GetQuerySize says |
| QueryLayout.Layout | Runtime/Manager/UIQuery.cs:304-388 | the buffer is exactly GetQuerySize's total long |
| QueryLayout.AllocateQueryData | Runtime/Manager/UIQuery.cs:304-388 | corrected (see ## Findings); as written: QueryLayout.NodeBytesAsWritten. The buffer holds the header and then every node's record, in order, with its two class sections and every pseudo-class item |
| Bytes.Put | Runtime/Manager/UIQuery.cs:340-348 | a copy followed by the offset advance: the bytes before the offset are kept, the copied bytes follow them, the bytes after are kept, and the new offset is just past the copy |
| QueryLayout.CountInLayout | Runtime/Manager/UIQuery.cs:308-313 | the header's nodeCount reads back as the number of nodes |
| QueryLayout.NodeRecord | Runtime/Manager/UIQuery.cs:314-385 | node i's record sits at the header plus the sizes of the nodes before it |
| QueryLayout.NodeSizes | Runtime/Manager/UIQuery.cs:317-321 | every node header holds its record's size less the header |
| QueryLayout.Enumerator.constructor | Runtime/Manager/UIQuery.cs:157-165 | a fresh enumerator reads Count from the header and stands before the first node |
| QueryLayout.Enumerator.MoveNext | Runtime/Manager/UIQuery.cs:169-193 | the offset steps past the header, then past the current node by its header's size; the node there is read, and the answer is whether the index is below Count |
| QueryLayout.Enumerator.Reset | Runtime/Manager/UIQuery.cs:195-200 | the enumerator stands before the first node again |
| QueryLayout.Walk | Runtime/Manager/UIQuery.cs:171 | the (i+1)-th MoveNext over the written buffer stops at node i's record |
| QueryLayout.EnumeratesNodes | Runtime/Manager/UIQuery.cs:169-388 | after i+1 calls the current node has handles on node i's element name and name, with their lengths, and node i's operation |
| QueryLayout.NamesInLayout | Runtime/Manager/UIQuery.cs:174-348 | those handles point at the bytes of node i's two tokens |
| QueryLayout.PseudoClassesCut | Runtime/Manager/UIQuery.cs:368-381 | with two pseudo-classes or more, the record as written is shorter than the size in its own header |
| QueryLayout.PseudoClassesWhole | Runtime/Manager/UIQuery.cs:368-381 | with at most one pseudo-class, the record as written is the whole record |
| QueryLayout.PseudoClassesQuery | Runtime/Manager/UIQuery.cs:368-419 | for "a:x:y>b" the one record is sized 43 bytes and written as 38 |
| QueryLayout.CreateQueryData | Runtime/Manager/UIQuery.cs:246-303 | corrected (see ## Findings); as written: QueryLayout.NodeBytesAsWritten. The buffer is the corrected layout of the nodes built from the query's tokens |
| Strings.Split | Editor/UIPropertyParsers.cs:109 | splitting always yields at least one piece (an empty string gives one empty piece) |
| Strings.SplitCount | Editor/Importers/UIViewImporter.cs:161 | a split has one piece more than the string has separators |
| Strings.SplitJoin | Editor/UIPropertyParsers.cs:109 | joining the pieces back with the separator gives the original string: no character is lost or added |
| Strings.PiecesFree | Editor/Importers/UIViewImporter.cs:161 | no piece contains the separator |
| Strings.SplitFree | Editor/Importers/UIViewImporter.cs:161 | a string without the separator splits into itself alone |
| Strings.SplitAfter | Editor/UIPropertyParsers.cs:109 | a separator-free prefix followed by the separator is the first piece, and the rest splits independently |
| TextElement.Size | Runtime/Elements/Text.cs:62-81 | the measured size is the specification SizeOf: zero without a font, else the font height by the summed scaled advances |
| TextElement.GlyphQuad | Runtime/Elements/Text.cs:26-53 | one glyph is drawn as exactly four vertices |
| TextElement.TextQuads | Runtime/Elements/Text.cs:21-58 | a text of n code points is drawn as exactly 4n vertices |
| TextElement.WriteGlyphQuad | Runtime/Elements/Text.cs:26-53 | writes the glyph's four vertices at 4*index..4*index+4 and leaves every other vertex unchanged |
| TextElement.GenerateMeshData | Runtime/Elements/Text.cs:12-60 | the vertex buffer starts with the specification mesh of the text (nothing without a font) and the rest of the buffer is unchanged |
| TextElement.EmitGlyphs | Runtime/Elements/Text.cs:21-58 | the enumerator loop writes exactly the quads of all decoded code points, in order, each at the pen reached by the earlier advances |
| TextElement.PlaceGlyph | Runtime/Elements/Text.cs:22-56 | one loop step writes the i-th glyph's quad at the pen position and returns the pen moved by that glyph's scaled advance |
| TextElement.PenSnoc | Runtime/Elements/Text.cs:56 | the pen after i+1 glyphs is the pen after i glyphs plus the (i+1)-th scaled advance |
| TextElement.NextCodePoint | Runtime/Commons/UIText.cs:125-164 | a successful step consumes bytes and yields the next decoded code point, leaving the rest; an unsuccessful one means no code point remains |
| TextElement.PenShift | Runtime/Elements/Text.cs:56 | moving the pen's start moves its end by the same amount |
| TextElement.PenEndsAtWidth | Runtime/Elements/Text.cs:56-74 | the pen of the mesh ends exactly the measured width to the right of the layout's left edge: mesh and size agree |
| TextElement.QuadAt | Runtime/Elements/Text.cs:22-56 | vertices 4i..4i+4 of the text's mesh are the quad of glyph i at the pen after the first i glyphs |
| TextElement.PenCons | Runtime/Elements/Text.cs:56 | the pen after i glyphs equals the pen after the remaining i-1 glyphs started one advance further |
| TextElement.SizeCases | Runtime/Elements/Text.cs:64-80 | without a font the size is zero and nothing is drawn; with one the height is the font size and the mesh has four vertices per code point |
| TextElement.WrittenText | Runtime/Elements/Text.cs:21 | a text record written by UTF8String decodes back to the string's code points, so the mesh holds four vertices per character |
| TextElement.EmptyText | Runtime/Elements/Text.cs:69-79 | an empty text is the font height tall with zero width and draws nothing |
| UiBool.AsWrittenAgrees | Runtime/Commons/UIBool.cs:38-50 | for a UIBool8, and for the first 8 bits of any UIBool, the source's scaled pointer arithmetic reads and writes the intended byte |
| UiBool.WideBitsOutside | Runtime/Commons/UIBool.cs:38-50 | for a UIBool16/32/64, bits 8 and up are addressed outside the value |
| UiBool.SetBit | Runtime/Commons/UIBool.cs:46-60 | setting a bit keeps the value's size |
| UiBool.GetOutside | Runtime/Commons/UIBool.cs:36-43 | an index below 0 or at or past 8 * size reads false |
| UiBool.SetThenGet | Runtime/Commons/UIBool.cs:35-60 | after Set(index, state), Get(index) is state for an index in range and every other bit reads as before |
| UiBool.SetOutside | Runtime/Commons/UIBool.cs:48 | Set with an index out of range changes nothing |
| UiBool.SetTouchesOneByte | Runtime/Commons/UIBool.cs:50-58 | Set changes only the byte index / 8 |
| UiBool.DisplayProperties | Runtime/Commons/PropertyBlocks.cs:19-22 | the display block registers "visible" and "display" as bits 0 and 1 of its one flags byte |
| UiBool.DefaultsShowNode | Runtime/Commons/PropertyBlocks.cs:20-21 | the default flags make a node visible and displayed |
| UiBool.DisplayConfigBlock.constructor | Runtime/Commons/PropertyBlocks.cs:22 | a block holds the given flags byte |
| UiBool.DisplayConfigBlock.SetVisible | Runtime/Commons/PropertyBlocks.cs:23 | as written, the Visible setter changes only a copy: the block's flags, Visible and Display are unchanged |
| UiBool.DisplayConfigBlock.SetDisplay | Runtime/Commons/PropertyBlocks.cs:24 | as written, the Display setter changes only a copy: the block's flags, Visible and Display are unchanged |
| UiBool.DisplayConfigBlock.SetVisibleByRef | Runtime/Commons/PropertyBlocks.cs:23 | the setter as intended: Visible becomes the value, Display is kept |
| UiBool.DisplayConfigBlock.SetDisplayByRef | Runtime/Commons/PropertyBlocks.cs:24 | the setter as intended: Display becomes the value, Visible is kept |
| UiLength.UnitParity | Runtime/Commons/UILength.cs:111-116 | a unit's code is even exactly when it is absolute (Px, Cm, Mm, In, Pt, Pc) |
| UiLength.UnitCodeRoundTrip | Runtime/Commons/UILength.cs:114-116 | every unit is recovered from its byte code: the codes are distinct |
| UiLength.NewLength | Runtime/Commons/UILength.cs:15-19 | the constructor keeps value and unit and zeroes realValue |
| UiLength.ParseUnit | Runtime/Commons/UILength.cs:27 | a recognised unit name matches the text case-insensitively |
| UiLength.TryParse | Runtime/Commons/UILength.cs:20-37 | parsing succeeds exactly when the pattern matches, and a parsed length has realValue zero |
| UiLength.PercentSignIsPx | Runtime/Commons/UILength.cs:27-28 | "50%" parses with unit Px, because "%" is no enum name |
| UiLength.ParseDefaults | Runtime/Commons/UILength.cs:24-29 | an unparsable number with no unit gives 0 px |
| UiLength.NewContext | Runtime/Commons/UILength.cs:96-101 | the simple context keeps dpi, pixel scale and viewport size, with RelativeTo zero |
| UiLength.Normalize | Runtime/Commons/UILength.cs:41-43 | an infinite or NaN value normalises to itself |
| UiLength.NormalizePhysical | Runtime/Commons/UILength.cs:47-58 | an absolute unit normalises to value times that unit's pixels |
| UiLength.NormalizeMetric | Runtime/Commons/UILength.cs:49-52 | cm and mm normalise to value times pixel scale times dpi over 2.54 or 25.4 |
| UiLength.NormalizePoints | Runtime/Commons/UILength.cs:55-58 | pt and pc normalise to value times pixel scale times dpi over 72 or 6 |
| UiLength.NormalizeViewport | Runtime/Commons/UILength.cs:68-75 | vw, vh, vmin and vmax normalise to value times pixel scale times a hundredth of the viewport extent |
| UiLength.NormalizeLinear | Runtime/Commons/UILength.cs:40-82 | every finite length normalises to its value times a per-unit factor of the context |
| UiLength.PhysicalUnits | Runtime/Commons/UILength.cs:48-58 | the units keep their physical ratios: 1in = 2.54cm = 25.4mm = 72pt = 6pc, and at 96 dpi 1in = 96px |
| UiLength.RelativeUnits | Runtime/Commons/UILength.cs:45-81 | percent is value times RelativeTo; auto, em, ex, ch, rem and inherit normalise to 0 |
| UiText.Utf8Char | Runtime/Commons/UIText.cs:31 | each character encodes to one to four bytes |
| UiText.CeilPow2 | Runtime/Commons/UIText.cs:34 | the rounded-up capacity is at least the size asked for |
| UiText.PowerAtLeast | Runtime/Commons/UIText.cs:34 | the doubling search ends at a power at least the size and at least the start |
| UiText.Utf8String.constructor | Runtime/Commons/UIText.cs:28-45 | the record is the UTF-16 length, the preamble and the UTF-8 bytes, padded to the next power of two; the string is created and Length reads back the UTF-16 length, as a 32-bit int |
| UiText.Utf8String.SetValue | Runtime/Commons/UIText.cs:47-61 | a longer value reallocates and writes only the bytes after the header; a value that fits overwrites the bytes in place, keeps the rest, and leaves Length as it was, since the length is not written again |
| UiText.Utf8String.Dispose | Runtime/Commons/UIText.cs:63-68 | a disposed string has no capacity, is not created and has Length 0 |
| UiText.Decode1 | Runtime/Commons/UIText.cs:125-164 | one MoveNext consumes at least one byte when it yields a code point, stays inside the buffer, and yields exactly when the code point is not 0 |
| UiText.InvalidLeadStops | Runtime/Commons/UIText.cs:157-160 | a lead byte of 0xF8 or more makes MoveNext return false, consume nothing and keep Current, so the enumeration ends there |
| UiText.DecodeShift | Runtime/Commons/UIText.cs:125-164 | decoding depends only on the bytes from the current offset |
| UiText.DecodeChar | Runtime/Commons/UIText.cs:125-164 | decoding a character's UTF-8 bytes followed by a non-continuation byte consumes exactly those bytes and yields the character |
| UiText.DecodeChar2 | Runtime/Commons/UIText.cs:142-146 | a two-byte sequence decodes to its character |
| UiText.DecodeChar3 | Runtime/Commons/UIText.cs:147-151 | a three-byte sequence decodes to its character |
| UiText.DecodeChar4 | Runtime/Commons/UIText.cs:152-156 | a four-byte sequence decodes to its character |
| UiText.LeadByte | Runtime/Commons/UIText.cs:130-136 | an encoded character never starts with a continuation byte, and starts with 0 only for NUL |
| UiText.NextIsLead | Runtime/Commons/UIText.cs:161 | after an encoded string followed by 0 the next byte is not a continuation byte |
| UiText.CodePointsStep | Runtime/Commons/UIText.cs:125-164 | the decoded sequence is the current code point followed by what decodes after it |
| UiText.CodePointsEnd | Runtime/Commons/UIText.cs:163 | decoding stops at a 0 byte |
| UiText.EncodedStep | Runtime/Commons/UIText.cs:125-164 | decoding an encoded string yields its first character, then resumes after that character's bytes |
| UiText.DecodeEncoded | Runtime/Commons/UIText.cs:29-164 | enumerating the UTF-8 encoding of a NUL-free string, followed by 0, yields exactly its characters: the round trip |
| UiText.CodePointEnumerator.constructor | Runtime/Commons/UIText.cs:94-108 | the enumerator starts past the length and the preamble when told to, at offset 0 with current 0 |
| UiText.CodePointEnumerator.FromString | Runtime/Commons/UIText.cs:109-115 | the enumerator over a string starts at its UTF-8 bytes |
| UiText.CodePointEnumerator.MoveNext | Runtime/Commons/UIText.cs:125-164 | one step advances the offset and sets the current code point as the decoder says |
| UiText.CodePointEnumerator.Reset | Runtime/Commons/UIText.cs:166-170 | reset returns to offset 0 with current 0 |
| VertexData.FlipPosition | Runtime/Commons/UIVertexData.cs:31-33 | a vertex's position is the 2-D position with y negated and z zero |
| VertexData.FlipTwice | Runtime/Commons/UIVertexData.cs:10-33 | flipping again recovers the original position |
| VertexData.AllocateVertexDescriptor | Runtime/Commons/UIVertexData.cs:11-20 | the descriptor array is fresh and holds the five attributes in order |
| VertexData.LayoutMatchesStruct | Runtime/Commons/UIVertexData.cs:14-29 | the descriptor's stride and attribute offsets match the struct fields: position 0, normal 12, color 24, uv1 28, uv2 44 |
| VertexData.AttributesDistinct | Runtime/Commons/UIVertexData.cs:14-18 | no attribute is described twice |
| CompositeData.HashStep | Runtime/Commons/CompositeData.cs:38 | one hash step is a 32-bit int |
| CompositeData.SetX2 | Runtime/Commons/CompositeData.cs:28 | the X setter replaces x and keeps y |
| CompositeData.SetY2 | Runtime/Commons/CompositeData.cs:29 | the Y setter replaces y and keeps x |
| CompositeData.GetHashCode2 | Runtime/Commons/CompositeData.cs:36-41 | the hash code is a 32-bit int |
| CompositeData.Equality2 | Runtime/Commons/CompositeData.cs:30-35 | Equals holds exactly for an equal value of the same type, is symmetric, and fails for any other type |
| CompositeData.HashAgrees2 | Runtime/Commons/CompositeData.cs:30-41 | equal values have equal hash codes |
| CompositeData.SetX3 | Runtime/Commons/CompositeData.cs:49 | the X setter replaces x and keeps y and z |
| CompositeData.SetY3 | Runtime/Commons/CompositeData.cs:50 | the Y setter replaces y and keeps x and z |
| CompositeData.SetZ3 | Runtime/Commons/CompositeData.cs:51 | the Z setter replaces z and keeps x and y |
| CompositeData.GetHashCode3 | Runtime/Commons/CompositeData.cs:59-65 | the hash code is a 32-bit int |
| CompositeData.Equality3 | Runtime/Commons/CompositeData.cs:52-58 | Equals holds exactly for an equal value of the same type, is symmetric, and fails for any other type |
| CompositeData.HashAgrees3 | Runtime/Commons/CompositeData.cs:52-65 | equal values have equal hash codes |
| CompositeData.SetX4 | Runtime/Commons/CompositeData.cs:73 | the X setter replaces x and keeps the rest |
| CompositeData.SetY4 | Runtime/Commons/CompositeData.cs:74 | the Y setter replaces y and keeps the rest |
| CompositeData.SetZ4 | Runtime/Commons/CompositeData.cs:75 | the Z setter replaces z and keeps the rest |
| CompositeData.SetW4 | Runtime/Commons/CompositeData.cs:76 | the W setter replaces w and keeps the rest |
| CompositeData.GetHashCode4 | Runtime/Commons/CompositeData.cs:86-93 | the hash code is a 32-bit int |
| CompositeData.Equality4 | Runtime/Commons/CompositeData.cs:78-85 | Equals holds exactly for an equal value of the same type, is symmetric, and fails for any other type |
| CompositeData.HashAgrees4 | Runtime/Commons/CompositeData.cs:78-93 | equal values have equal hash codes |
| CompositeData.SetKeepsEquality | Runtime/Commons/CompositeData.cs:73-85 | setting a component keeps the value equal to the old one exactly when that component already held the value |
| BindingJob.ExecuteRows | Runtime/Manager/Jobs/UIBindingJob.cs:85-107 | after the loop over the batch, the first count times vectorLength floats are the rows of every node in order, and the rest of the array is unchanged |
| QueryLayout.WriteNodes | Runtime/Manager/UIQuery.cs:315-385 | the foreach loop leaves the buffer as the header followed by every node's record in order |
| QueryLayout.WriteNodeAt | Runtime/Manager/UIQuery.cs:317-381 | one turn of the foreach loop appends node i's record after the records of the earlier nodes and returns the offset where node i+1 starts; the bytes from there on are unchanged |
| QueryLayout.WriteNode | Runtime/Manager/UIQuery.cs:317-381 | one node's record is written at the offset with the bytes before it kept, and the offset moves past the record by the node's size, and the bytes after the record are unchanged |
| QueryLayout.WriteSection | Runtime/Manager/UIQuery.cs:350-365 | a ClassHeader with the section's size and count is written, then its items, after the bytes already written; the bytes after the section are unchanged |
| QueryLayout.WriteItems | Runtime/Manager/UIQuery.cs:352-365 | the do-while writes each token's ContentHeader and bytes, in order, after the bytes already written; the bytes after the items are unchanged |
| MeshJobs.UIRenderJob.RenderChild | Runtime/Manager/Jobs/UIRenderJob.cs:109-112 | one turn of Render's children loop moves the buffers and counters from the state after the first k children to the state after k+1 |
| Query.TokenChain | Runtime/Manager/UIQuery.cs:221-245 | every token has a positive length and starts where the previous one ends; tokens stay within one byte past the input, and the last one reaches the end |
| Query.TokenKinds | Runtime/Manager/UIQuery.cs:226-243 | an operator token is one in-bounds byte of the type IsOperation gives it and is followed by a Content token; no two Content tokens are adjacent |
| Query.ContentExamined | Runtime/Manager/UIQuery.cs:226-238 | every byte of a Content token that the loop examined is no operator; only the first byte after an operator goes unexamined |
| Floats.FiniteArithmetic | Runtime/Elements/HBox.cs:26-28 | on finite values addition, subtraction, multiplication, max and min are the exact real operations |
| ElementManager.NewCompositeNames | Runtime/Commons/CompositeData.cs:100-109 | a CompositeNameAttribute starts out with Prefix true |
| ElementManager.Manager.constructor | Runtime/Manager/UIElementManager.cs:65-75 | the registries start out empty |
| LayoutJob.UILayoutJob.constructor | Runtime/Manager/Jobs/UILayoutJob.cs:14-27 | the job holds the children, display flags, element hashes and element callbacks it is given, and the header array |
| MeshJobs.UIRenderJob.constructor | Runtime/Manager/Jobs/UIRenderJob.cs:18-35 | the job holds the world it is given and the render-bounds array |
| LengthNormalization.NormalizationJob.constructor | Runtime/Manager/Jobs/UILengthNormalizationJob.cs:10-23 | the job holds the blocks, children, normalization info, dpi, pixel scale and viewport size, with RelativeTo zero |
| MaterialBinding.Diagnostics.constructor | Compiler/UIMaterialBindingPostProcessor.cs:58 | the diagnostic list starts out empty |
| EditorUtility.BinaryStream.constructor | Editor/UIEditorUtility.cs:84-89 | the extra-data stream starts out empty |
| MaterialBinding.JobOf | Compiler/UIMaterialBindingPostProcessor.cs:386-433 | the job scheduled for a component reads the property it looked up, with its hints and the component's element count as vector length |

## Definitions

The functions and predicates below define what the source computes. Their properties are stated by the members in the last column, which have rows under "## Model"; "through" names the definition that uses them there.

| definition | source | properties in |
|---|---|---|
| Alignment.Merge | Runtime/Commons/UIAlignment.cs:36 | Alignment.MergeIsOr, Alignment.MergeThenGet, Alignment.NamedRoundTrip, Alignment.NamedAlignments |
| Alignment.MergeVertical | Runtime/Commons/UIAlignment.cs:39 | Alignment.MergeIsOr |
| Alignment.GetHorizontal | Runtime/Commons/UIAlignment.cs:42 | Alignment.HorizontalMask, Alignment.MergeThenGet, Alignment.NamedRoundTrip |
| Alignment.GetVertical | Runtime/Commons/UIAlignment.cs:45 | Alignment.VerticalMask, Alignment.MergeThenGet, Alignment.NamedRoundTrip |
| Alignment.HMultiplier | Runtime/Commons/UIAlignment.cs:50 | Alignment.FiniteOffsets, Alignment.InfiniteAtStart (through Alignment.HOffset) |
| Alignment.VMultiplier | Runtime/Commons/UIAlignment.cs:58 | Alignment.FiniteOffsets (through Alignment.VOffset) |
| Alignment.HOffset | Runtime/Commons/UIAlignment.cs:48-55 | Alignment.FiniteOffsets, Alignment.InfiniteAtStart, Alignment.OffsetOfMerge |
| Alignment.VOffset | Runtime/Commons/UIAlignment.cs:56-63 | Alignment.FiniteOffsets, Alignment.OffsetOfMerge |
| Alignment.Offset | Runtime/Commons/UIAlignment.cs:64-73 | Alignment.OffsetOfMerge |
| BindingJob.Get | Runtime/Manager/Jobs/UIBindingJob.cs:44-46 | BindingJob.NormalizerShift, MaterialBinding.PaddedHints |
| BindingJob.GetSize | Runtime/Manager/Jobs/UIBindingJob.cs:152-182 | BindingJob.IntegerRoundTrip |
| BindingJob.ToFloat | Runtime/Manager/Jobs/UIBindingJob.cs:184-211 | BindingJob.IntegerRoundTrip, BindingJob.ComponentValue |
| BindingJob.GetNormalizerValue | Runtime/Manager/Jobs/UIBindingJob.cs:118-133 | BindingJob.NormalizerPositive, BindingJob.NormalizerShift |
| BindingJob.BuildNormalizer | Runtime/Manager/Jobs/UIBindingJob.cs:109-117 | BindingJob.NormalizerShift, BindingJob.WriteValues |
| BindingJob.GetNormalizerForIndex | Runtime/Manager/Jobs/UIBindingJob.cs:135-150 | BindingJob.NormalizerShift |
| BindingJob.Stride | Runtime/Manager/Jobs/UIBindingJob.cs:89-106 | BindingJob.ComponentValue |
| BindingJob.ReadBytes | Runtime/Manager/Jobs/UIBindingJob.cs:96-104 | BindingJob.IntegerRoundTrip, BindingJob.ComponentValue |
| BindingJob.PropertyAt | Runtime/Manager/UIConfigHandleExtensions.cs:236-255 | BindingJob.Execute, BindingJob.ExecutedComponent (through BindingJob.Locations) |
| BindingJob.Locations | Runtime/Manager/Jobs/UIBindingJob.cs:89 | BindingJob.Execute, BindingJob.ExecutedComponent |
| BindingJob.Component | Runtime/Manager/Jobs/UIBindingJob.cs:89-106 | BindingJob.ComponentValue, BindingJob.ExecuteNode, BindingJob.WriteValues, BindingJob.WriteZeros |
| BindingJob.Row | Runtime/Manager/Jobs/UIBindingJob.cs:85-107 | BindingJob.ExecuteRows |
| BindingJob.Rows | Runtime/Manager/Jobs/UIBindingJob.cs:85-107 | BindingJob.ExecuteRows |
| BindingJob.Expected | Runtime/Manager/Jobs/UIBindingJob.cs:78-108 | BindingJob.Execute, BindingJob.ExecutedComponent |
| BoxElements.HInsetX | Runtime/Elements/HBox.cs:58-73 | BoxElements.HSizeWidth, BoxElements.VInsetQuirk |
| BoxElements.HInsetY | Runtime/Elements/HBox.cs:58-73 | BoxElements.HSizeHeight, BoxElements.VInsetQuirk |
| BoxElements.HRemaining | Runtime/Elements/HBox.cs:23-27 | BoxElements.HRemainingFinite |
| BoxElements.HConstraints | Runtime/Elements/HBox.cs:16-37 | BoxElements.HBoxConstrain, BoxElements.HUnbounded, BoxElements.HBounded |
| BoxElements.HStartX | Runtime/Elements/HBox.cs:40-49 | BoxElements.HBoxLayout, BoxElements.HPositionFinite (through BoxElements.HPosition) |
| BoxElements.HPosition | Runtime/Elements/HBox.cs:38-51 | BoxElements.HBoxLayout, BoxElements.HPositionFinite, BoxElements.HBoxExampleLayout |
| BoxElements.HContent | Runtime/Elements/HBox.cs:63-70 | BoxElements.HContentFinite |
| BoxElements.HSize | Runtime/Elements/HBox.cs:56-74 | BoxElements.HBoxSize, BoxElements.HSizeWidth, BoxElements.HSizeHeight, BoxElements.HBoxExampleSize |
| BoxElements.VInsetX | Runtime/Elements/VBox.cs:29-46 | BoxElements.VInsetQuirk, BoxElements.VPositionFinite, BoxElements.VSizeWidth |
| BoxElements.VInsetY | Runtime/Elements/VBox.cs:29-46 | BoxElements.VInsetQuirk, BoxElements.VPositionFinite, BoxElements.VSizeHeight |
| BoxElements.VRemaining | Runtime/Elements/VBox.cs:23-26 | BoxElements.VRemainingFloored |
| BoxElements.VConstraints | Runtime/Elements/VBox.cs:13-27 | BoxElements.VBoxConstrain, BoxElements.VUnboundedStays |
| BoxElements.VStartY | Runtime/Elements/VBox.cs:29-36 | BoxElements.VBoxLayout, BoxElements.VPositionFinite (through BoxElements.VPosition) |
| BoxElements.VPosition | Runtime/Elements/VBox.cs:28-38 | BoxElements.VBoxLayout, BoxElements.VPositionFinite, BoxElements.VBoxExampleLayout |
| BoxElements.VContent | Runtime/Elements/VBox.cs:47-52 | BoxElements.VContentFinite |
| BoxElements.VSize | Runtime/Elements/VBox.cs:42-56 | BoxElements.VBoxSize, BoxElements.VSizeWidth, BoxElements.VSizeHeight, BoxElements.VBoxExampleSize |
| CompositeData.Equals2 | Runtime/Commons/CompositeData.cs:30-35 | CompositeData.Equality2, CompositeData.HashAgrees2 |
| CompositeData.Equals3 | Runtime/Commons/CompositeData.cs:52-58 | CompositeData.Equality3, CompositeData.HashAgrees3 |
| CompositeData.Equals4 | Runtime/Commons/CompositeData.cs:78-85 | CompositeData.Equality4, CompositeData.HashAgrees4, CompositeData.SetKeepsEquality |
| ConfigHandle.EncodeConfigHeader | Runtime/Commons/UIConfigHandle.cs:126-137 | ConfigHandle.ConfigHeaderRoundTrip, ConfigHandle.PropertyBlockCountWritten |
| ConfigHandle.EncodeBlockHeader | Runtime/Commons/UIConfigHandle.cs:138-149 | ConfigHandle.BlockHeaderRoundTrip |
| ConfigHandle.DecodeConfigHeader | Runtime/Commons/UIConfigHandle.cs:126-137 | ConfigHandle.ConfigHeaderRoundTrip |
| ConfigHandle.DecodeBlockHeader | Runtime/Commons/UIConfigHandle.cs:138-149 | ConfigHandle.BlockHeaderRoundTrip |
| ConfigHandle.ReadConfigHeader | Runtime/Commons/UIConfigHandle.cs:52 | ConfigHandle.PropertyBlockCountWritten, ObjectConversion.LayoutTotals |
| ConfigHandle.ReadBlockHeader | Runtime/Commons/UIConfigHandle.cs:92 | ConfigHandle.Headers |
| ConfigHandle.NextHeader | Runtime/Commons/UIConfigHandle.cs:92 | ConfigHandle.Headers, ConfigHandle.HeadersTail, ConfigHandle.HeaderOffsets |
| ConfigHandle.HeaderOffset | Runtime/Commons/UIConfigHandle.cs:92 | ConfigHandle.HeaderOffsets, ConfigHandle.HeadersTail |
| ConfigHandleExtensions.Matches | Runtime/Manager/UIConfigHandleExtensions.cs:151-168 | ConfigHandleExtensions.ScanSpecSound, ConfigHandleExtensions.ScanFindsFirstMatch |
| ConfigHandleExtensions.ScanSpec | Runtime/Manager/UIConfigHandleExtensions.cs:151-168 | ConfigHandleExtensions.ScanSpecSound, ConfigHandleExtensions.ScanFindsFirstMatch, ConfigHandleExtensions.ScanStopsAtLargerHash, ConfigHandleExtensions.FindBlockHeader |
| ConfigHandleExtensions.AddOffset | Runtime/Manager/UIConfigHandleExtensions.cs:151-168 | ConfigHandleExtensions.TryGetPropertyBlock, ConfigHandleExtensions.GetPropertyFromOffset, ConfigHandleExtensions.GetPropertyBlock, ConfigHandleExtensions.GetPropertyBlockFromHash |
| ConfigHandleExtensions.Element | Runtime/Manager/UIConfigHandleExtensions.cs:263 | ObjectConversion.LayoutTotals |
| ConfigHandleExtensions.GetConstraints | Runtime/Manager/UIConfigHandleExtensions.cs:275-281 | ConfigHandleExtensions.SetThenGet |
| ConfigHandleExtensions.GetSize | Runtime/Manager/UIConfigHandleExtensions.cs:289-295 | ConfigHandleExtensions.SetThenGet |
| ConfigHandleExtensions.GetPosition | Runtime/Manager/UIConfigHandleExtensions.cs:317-321 | ConfigHandleExtensions.SetThenGet |
| ConfigHandleExtensions.GetWidth | Runtime/Manager/UIConfigHandleExtensions.cs:296-302 | BindingJob.NormalizerPositive, ConfigHandleExtensions.SetThenGet |
| ConfigHandleExtensions.GetHeight | Runtime/Manager/UIConfigHandleExtensions.cs:303-309 | BindingJob.NormalizerPositive, ConfigHandleExtensions.SetThenGet |
| TextEncoding.Bom | Runtime/Manager/UIConfigHandleExtensions.cs:37-51 | TextEncoding.GetEncoding, TextEncoding.Utf32LeReadAsUtf16Le, TextEncoding.GetPreambleSize, TextEncoding.GetTextContent |
| TextEncoding.At | Runtime/Manager/UIConfigHandleExtensions.cs:37-51 | TextEncoding.GetEncoding, TextEncoding.Utf32LeReadAsUtf16Le |
| TextEncoding.GetTextLength | Runtime/Manager/UIConfigHandleExtensions.cs:71-75 | EditorUtility.TextRecordReadBack, ObjectConversion.ExtraDataText |
| TextEncoding.HandleEncoding | Runtime/Manager/UIConfigHandleExtensions.cs:86-94 | TextEncoding.GetTextContent, EditorUtility.TextRecordReadBack, ObjectConversion.ExtraDataText |
| EditorUtility.GlobalInfo | Editor/UIEditorUtility.cs:107-117 | EditorUtility.GetPropertyBlocks, EditorUtility.GetPropertyBlocksContents |
| EditorUtility.ElementInfo | Editor/UIEditorUtility.cs:107-117 | EditorUtility.GetPropertyBlocks, EditorUtility.GetPropertyBlocksContents |
| EditorUtility.Insert | Editor/UIEditorUtility.cs:118 | EditorUtility.InsertPermutes, EditorUtility.InsertSorted |
| EditorUtility.Span | Editor/UIEditorUtility.cs:93-106 | EditorUtility.GetPropertyBlockOffset, ObjectConversion.ComputeLayout, ObjectConversion.OffsetsOfDistinct, ObjectConversion.LayoutBlocks |
| EditorUtility.BitByte | Editor/UIEditorUtility.cs:121-153 | EditorUtility.HandleProperty |
| EditorUtility.WithFlag | Editor/UIEditorUtility.cs:123-139 | EditorUtility.WithFlagSpec, EditorUtility.TwoFlags |
| EditorUtility.BitPath | Editor/UIEditorUtility.cs:121-153 | EditorUtility.HandleProperty, EditorUtility.HandledValue |
| EditorUtility.Handled | Editor/UIEditorUtility.cs:121-153 | EditorUtility.HandleProperty, EditorUtility.HandledValue, EditorUtility.HandledFailure |
| EditorUtility.TextLength | Editor/UIEditorUtility.cs:85 | EditorUtility.EmptyTextRecord, EditorUtility.RecordLayout (through EditorUtility.TextRecord) |
| EditorUtility.TextBytes | Editor/UIEditorUtility.cs:86-89 | EditorUtility.RecordLayout |
| EditorUtility.TextRecord | Editor/UIEditorUtility.cs:82-91 | EditorUtility.TryParseUIText, EditorUtility.EmptyTextRecord, EditorUtility.RecordLayout, EditorUtility.TextRecordReadBack |
| ElementExtensions.IsBoundedX | Runtime/UIElementExtensions.cs:10-14 | ElementExtensions.BoundedBothWays |
| ElementExtensions.IsBoundedY | Runtime/UIElementExtensions.cs:10-14 | ElementExtensions.BoundedBothWays |
| ElementExtensions.IsBounded | Runtime/UIElementExtensions.cs:10-14 | ElementExtensions.BoundedBothWays |
| ElementExtensions.BoxCorner | Runtime/UIElementExtensions.cs:17-62 | ElementExtensions.GenerateBoxMesh, ElementExtensions.QuadIsRectangle, ElementExtensions.QuadCorners, MeshJobs.BoxDrawn |
| ElementManager.CreatePropertyName | Runtime/Manager/UIElementManager.cs:20-23 | ElementManager.SubNameBlank, ElementManager.SubNamePrefix, ElementManager.SubNameSuffix, ElementManager.MaterialNameOfBlockProperty |
| ElementManager.CreateSubPropertyName | Runtime/Manager/UIElementManager.cs:25-28 | ElementManager.SubNameBlank, ElementManager.SubNamePrefix, ElementManager.SubNameSuffix |
| ElementManager.MaterialName | Runtime/Manager/UIElementManager.cs:29-38 | ElementManager.ToMaterialName, ElementManager.MaterialNameOfBlockProperty, ElementManager.MaterialNameOfGlobalProperty |
| ElementManager.IsCreated | Runtime/Manager/UIElementManager.cs:605-630 | ElementManager.PropertyIdentity, ElementManager.NewPropertyIsCreated |
| ElementManager.IsBitProperty | Runtime/Manager/UIElementManager.cs:605-614 | ElementManager.NewPropertyIsCreated, ElementManager.BoolFieldRegistrations |
| ElementManager.PropertyEquals | Runtime/Manager/UIElementManager.cs:605-630 | ElementManager.PropertyIdentity |
| ElementManager.IsRequired | Runtime/Manager/UIElementManager.cs:566-571 | ElementManager.RequiredRoundTrip, ElementManager.ElementBlocks |
| ElementManager.IsTerminal | Runtime/Manager/UIElementManager.cs:492 | ElementManager.TerminalElements |
| ElementManager.ComponentName | Runtime/Manager/UIElementManager.cs:284-303 | ElementManager.ComponentLayout (through ElementManager.ComponentRegistrations) |
| ElementManager.ComponentRegistrations | Runtime/Manager/UIElementManager.cs:276-309 | ElementManager.ComponentLayout |
| ElementManager.FieldRegistrations | Runtime/Manager/UIElementManager.cs:248-265 | ElementManager.BoolFieldRegistrations, UiBool.DisplayProperties |
| ElementManager.BlockRegistrations | Runtime/Manager/UIElementManager.cs:240-315 | ElementManager.Manager.InitializeProperties, ElementManager.Manager.InitializePropertyBlockTypeIndex |
| ElementManager.InfoOf | Runtime/Manager/UIElementManager.cs:319-330 | ElementManager.Register, ElementManager.Manager.Add |
| ElementManager.RegisterAll | Runtime/Manager/UIElementManager.cs:244-315 | ElementManager.RegisterAllSpec, ElementManager.Manager.AddAll, ElementManager.Manager.InitializeProperties, ElementManager.Manager.InitializePropertyBlockTypeIndex |
| ElementManager.Manager.GetPropertyBlockOf | Runtime/Manager/UIElementManager.cs:468-471 | ElementManager.Manager.GetElementAsWritten |
| Floats.IsInfinity | Runtime/Commons/UILength.cs:41-43 | UiLength.Normalize |
| Floats.IsNaN | Runtime/Commons/UILength.cs:41-43 | UiLength.Normalize |
| Floats.Add | Runtime/Elements/HBox.cs:26-28 | Floats.FiniteArithmetic |
| Floats.Sub | Runtime/Elements/HBox.cs:26-28 | Floats.FiniteArithmetic |
| Floats.Mul | Runtime/Elements/HBox.cs:26-28 | Floats.FiniteArithmetic |
| Floats.Div | Runtime/Manager/Jobs/UIBindingJob.cs:96 | BindingJob.DivideByNormalizer |
| Floats.Less | Runtime/Manager/Jobs/UIBindingJob.cs:118-133 | BindingJob.NormalizerPositive, Floats.LessTotal |
| Floats.Max | Runtime/Elements/HBox.cs:26 | Floats.MaxSpec, Floats.FiniteArithmetic |
| Floats.Min | Runtime/Elements/HBox.cs:26-28 | Floats.FiniteArithmetic |
| Floats.Clamp | Runtime/Elements/HBox.cs:58-73 | BoxElements.HSizeWidth, BoxElements.HSizeHeight, BoxElements.VSizeWidth, BoxElements.VSizeHeight |
| LayoutJob.IsTerminal | Runtime/Manager/Jobs/UILayoutJob.cs:69-82 | LayoutJob.ChildPassFrame, LayoutJob.ChildStepFrame, LayoutJob.LaterStepsKeep, LayoutJob.ChildConstrained |
| LayoutJob.Cleared | Runtime/Manager/Jobs/UILayoutJob.cs:115-124 | LayoutJob.ClearEffect, LayoutJob.ClearChildrenEffect |
| LayoutJob.PositionAt | Runtime/Manager/Jobs/UILayoutJob.cs:88-97 | LayoutJob.PlaceSets, LayoutJob.ChildPlaced |
| LayoutJob.ClearSpec | Runtime/Manager/Jobs/UILayoutJob.cs:115-124 | LayoutJob.ClearEffect, LayoutJob.UILayoutJob.Clear |
| LayoutJob.ClearChildren | Runtime/Manager/Jobs/UILayoutJob.cs:119-123 | LayoutJob.ClearChildrenEffect |
| LayoutJob.LayoutSpec | Runtime/Manager/Jobs/UILayoutJob.cs:49-114 | LayoutJob.LayoutFrame, LayoutJob.LayoutKeeps, LayoutJob.ChildConstrained, LayoutJob.ChildOutsideParent |
| LayoutJob.ChildPass | Runtime/Manager/Jobs/UILayoutJob.cs:69-82 | LayoutJob.ChildPassFrame, LayoutJob.LaterStepsKeep, LayoutJob.ChildConstrained, LayoutJob.ChildOutsideParent |
| LayoutJob.ChildStep | Runtime/Manager/Jobs/UILayoutJob.cs:72-81 | LayoutJob.ChildStepFrame |
| LayoutJob.Place | Runtime/Manager/Jobs/UILayoutJob.cs:88-97 | LayoutJob.PlaceKeeps, LayoutJob.PlaceSets |
| LayoutJob.RootStep | Runtime/Manager/Jobs/UILayoutJob.cs:32-47 | LayoutJob.RootConstrained |
| LayoutJob.Run | Runtime/Manager/Jobs/UILayoutJob.cs:28-48 | LayoutJob.UILayoutJob.Execute |
| LengthNormalization.Lookup | Runtime/Manager/Jobs/UILengthNormalizationJob.cs:61-67 | LengthNormalization.LookupSound, LengthNormalization.RelativeToCases, LengthNormalization.ChildReadsReference |
| LengthNormalization.RelativeTo | Runtime/Manager/Jobs/UILengthNormalizationJob.cs:48-68 | LengthNormalization.AsWrittenAgrees, LengthNormalization.RelativeToCases, LengthNormalization.CombinedTargetIsZero, LengthNormalization.ParentAtRootIsZero |
| LengthNormalization.RelativeToAsWritten | Runtime/Manager/Jobs/UILengthNormalizationJob.cs:34-61 | LengthNormalization.ParentAtRootDereferencesNull, LengthNormalization.CombinedTargetDereferencesNull, LengthNormalization.AsWrittenAgrees |
| LengthNormalization.ApplyInfo | Runtime/Manager/Jobs/UILengthNormalizationJob.cs:46-69 | LengthNormalization.NormalizationJob.ApplyLength |
| LengthNormalization.Infos | Runtime/Manager/Jobs/UILengthNormalizationJob.cs:41-71 | LengthNormalization.NormalizationJob.ApplyBlock |
| LengthNormalization.ApplyInfos | Runtime/Manager/Jobs/UILengthNormalizationJob.cs:41-71 | LengthNormalization.NormalizationJob.ApplyBlock |
| LengthNormalization.ApplyBlocks | Runtime/Manager/Jobs/UILengthNormalizationJob.cs:39-72 | LengthNormalization.NormalizationJob.Normalize, LengthNormalization.WalkFrame |
| LengthNormalization.Walk | Runtime/Manager/Jobs/UILengthNormalizationJob.cs:37-77 | LengthNormalization.WalkIsPreOrder, LengthNormalization.WalkFrame, LengthNormalization.NormalizationJob.Normalize |
| LengthNormalization.WalkChildren | Runtime/Manager/Jobs/UILengthNormalizationJob.cs:73-76 | LengthNormalization.WalkChildrenIsChildOrder, LengthNormalization.WalkIsPreOrder, LengthNormalization.NormalizationJob.Normalize |
| LengthNormalization.WalkRoots | Runtime/Manager/Jobs/UILengthNormalizationJob.cs:25-36 | LengthNormalization.WalkRootsFrame, LengthNormalization.NormalizationJob.Execute |
| LengthNormalization.PreOrder | Runtime/Manager/Jobs/UILengthNormalizationJob.cs:73-76 | LengthNormalization.PreOrderVisits, LengthNormalization.WalkIsPreOrder, LengthNormalization.RootVisitFirst, LengthNormalization.ChildVisitPosition |
| MaterialBinding.Width | Compiler/UIMaterialBindingPostProcessor.cs:468-497 | MaterialBinding.NewConversionInfo |
| MaterialBinding.FormatOf | Compiler/UIMaterialBindingPostProcessor.cs:468-497 | MaterialBinding.NewConversionInfo |
| MaterialBinding.IsValid | Compiler/UIMaterialBindingPostProcessor.cs:498 | MaterialBinding.NewConversionInfo |
| MaterialBinding.IsComposite | Compiler/UIMaterialBindingPostProcessor.cs:108-168 | MaterialBinding.TryGetConversion, MaterialBinding.PrimitiveLookup, MaterialBinding.CompositeArity, MaterialBinding.CompositeOfUnknown |
| MaterialBinding.OrDefault | Compiler/UIMaterialBindingPostProcessor.cs:196-201 | MaterialBinding.SubNames, MaterialBinding.DefaultSubNames |
| MaterialBinding.Prefix | Compiler/UIMaterialBindingPostProcessor.cs:202 | MaterialBinding.TryCreate, MaterialBinding.CreateComponents |
| MaterialBinding.FailureMessage | Compiler/UIMaterialBindingPostProcessor.cs:182-227 | MaterialBinding.TryCreate |
| MaterialBinding.ComponentPropertyName | Compiler/UIMaterialBindingPostProcessor.cs:196-205 | MaterialBinding.DefaultSubNames |
| MaterialBinding.ComponentAt | Compiler/UIMaterialBindingPostProcessor.cs:182-227 | MaterialBinding.TryCreate, MaterialBinding.CreateComponents, MaterialBinding.ComponentsShareOffset, MaterialBinding.JobVectorLength |
| MaterialBinding.PaddedHint | Compiler/UIMaterialBindingPostProcessor.cs:346-363 | MaterialBinding.GenerateHints, MaterialBinding.PaddedHints |
| MeshJobs.QuadTotal | Runtime/Manager/Jobs/UIInitMeshDataJob.cs:29-40 | MeshJobs.QuadTotalIsSum, MeshJobs.CountRenderQuads, MeshJobs.InitMeshData, MeshJobs.RenderSpec |
| MeshJobs.ForestQuads | Runtime/Manager/Jobs/UIInitMeshDataJob.cs:34-37 | MeshJobs.ForestQuadsIsSum |
| MeshJobs.QuadIndex | Runtime/Manager/Jobs/UIRenderJob.cs:88-96 | MeshJobs.WriteQuadIndices, MeshJobs.RenderIndices, MeshJobs.QuadIndexAt, MeshJobs.QuadIndexRun |
| MeshJobs.NodeBounds | Runtime/Manager/Jobs/UIRenderJob.cs:97-106 | MeshJobs.RenderBoundsSet |
| MeshJobs.DrawRect | Runtime/Manager/Jobs/UIRenderJob.cs:80-83 | MeshJobs.OwnVertices, MeshJobs.BoxDrawn |
| MeshJobs.NodeStep | Runtime/Manager/Jobs/UIRenderJob.cs:69-108 | MeshJobs.UIRenderJob.RenderNode |
| MeshJobs.RenderChildren | Runtime/Manager/Jobs/UIRenderJob.cs:109-112 | MeshJobs.UIRenderJob.RenderChild |
| ModelImporter.EndsWith | Editor/Importers/UIModelImporter.cs:56-68 | ModelImporter.AliasShapes, ModelImporter.UnknownKept, ModelImporter.ResolveArray, ModelImporter.DefaultAssemblyEnds |
| ModelImporter.Resolve | Editor/Importers/UIModelImporter.cs:118-141 | ModelImporter.AliasesResolve, ModelImporter.UnknownKept, ModelImporter.ResolveIdempotent, ModelImporter.ResolveArray |
| ModelImporter.Resolution | Editor/Importers/UIModelImporter.cs:118-143 | ModelImporter.CachedReads |
| ModelImporter.GetProvider | Editor/Importers/UIModelImporter.cs:69-103 | ModelImporter.Providers, ModelImporter.FullStringProvider, ModelImporter.Model.ToAsset |
| ModelImporter.DefaultName | Editor/Importers/UIModelImporter.cs:29-34 | ModelImporter.DefaultNameStem, ModelImporter.DefaultNameShape, ModelImporter.ImportModel |
| ModelImporter.DefaultAssembly | Editor/Importers/UIModelImporter.cs:35-38 | ModelImporter.DefaultAssemblyEnds, ModelImporter.ImportModel |
| ModelInitializer.NearestAncestor | Editor/IUIModelPropertyInitializer.cs:27-38 | ModelInitializer.NearestAncestorSound, ModelInitializer.Initialize |
| NodeTree.Forest | Runtime/Manager/Jobs/UIRenderJob.cs:108-112 | NodeTree.NodeCountChildren, MeshJobs.ForestQuadsIsSum |
| NodeTree.NodeCount | Runtime/Manager/Jobs/UIRenderJob.cs:104-112 | NodeTree.NodeCountChildren |
| NodeTree.ForestCount | Runtime/Manager/Jobs/UIRenderJob.cs:104-112 | NodeTree.NodeCountChildren |
| ObjectConversion.HeaderOf | Editor/Systems/UIObjectConversionSystem.cs:166-185 | ObjectConversion.ComputeLayout |
| ObjectConversion.ConfigHeaderOf | Editor/Systems/UIObjectConversionSystem.cs:166-185 | ObjectConversion.ComputeLayout |
| ObjectConversion.Body | Editor/Systems/UIObjectConversionSystem.cs:166-197 | ObjectConversion.BuiltIsLayout, ObjectConversion.LayoutBlocks |
| ObjectConversion.Layout | Editor/Systems/UIObjectConversionSystem.cs:186-197 | ObjectConversion.BuiltIsLayout, ObjectConversion.LayoutBlocks, ObjectConversion.LayoutTotals, ObjectConversion.LayoutSorted |
| ObjectConversion.Offsets | Editor/Systems/UIObjectConversionSystem.cs:166-185 | ObjectConversion.ComputeLayout, ObjectConversion.OffsetsOfDistinct, ObjectConversion.OffsetAgrees |
| ObjectConversion.WriteBlockHeaders | Editor/Systems/UIObjectConversionSystem.cs:194-197 | ObjectConversion.BuildConfigBuffer, ObjectConversion.BuiltIsLayout |
| ObjectConversion.Built | Editor/Systems/UIObjectConversionSystem.cs:186-197 | ObjectConversion.BuildConfigBuffer, ObjectConversion.BuiltIsLayout |
| ObjectConversion.SetParents | Editor/Systems/UIObjectConversionSystem.cs:93-101 | ObjectConversion.LinkNode |
| ObjectConversion.LinkedParents | Editor/Systems/UIObjectConversionSystem.cs:93-101 | ObjectConversion.LinkedParentsOfTree |
| PropertyBlocks.GlyphFor | Runtime/PropertyBlocks.cs:32-48 | PropertyBlocks.Lookup, PropertyBlocks.LookupUnique, PropertyBlocks.LookupAbsent |
| PropertyBlocks.BucketOf | Runtime/PropertyBlocks.cs:69-73 | PropertyBlocks.BucketStep, PropertyBlocks.CreateBlob, PropertyBlocks.BucketSource, PropertyBlocks.BucketHas |
| PropertyParsers.Used | Editor/UIPropertyParsers.cs:121-217 | PropertyParsers.SourceToken, PropertyParsers.BadTokenFails |
| PropertyTypeConverter.Color32Value | Runtime/Manager/PropertyTypeConverter.cs:22-27 | PropertyTypeConverter.ConvertColor32, PropertyTypeConverter.ByteColoursScale |
| PropertyTypeConverter.ColorValue | Runtime/Manager/PropertyTypeConverter.cs:29-34 | PropertyTypeConverter.ConvertColor, PropertyTypeConverter.ByteColoursScale |
| PropertyTypeConverter.LengthValue | Runtime/Manager/PropertyTypeConverter.cs:39-60 | PropertyTypeConverter.LengthsIgnoreRaw |
| PropertyTypeConverter.Length2Value | Runtime/Manager/PropertyTypeConverter.cs:43-48 | PropertyTypeConverter.ConvertLength2, PropertyTypeConverter.LengthsIgnoreRaw |
| PropertyTypeConverter.Length3Value | Runtime/Manager/PropertyTypeConverter.cs:50-55 | PropertyTypeConverter.ConvertLength3, PropertyTypeConverter.LengthsIgnoreRaw |
| PropertyTypeConverter.Length4Value | Runtime/Manager/PropertyTypeConverter.cs:57-62 | PropertyTypeConverter.ConvertLength4, PropertyTypeConverter.LengthsIgnoreRaw |
| PropertyTypeConverter.Color4Value | Runtime/Manager/PropertyTypeConverter.cs:64-74 | PropertyTypeConverter.ConvertColor4, PropertyTypeConverter.ByteColoursScale |
| PropertyTypeConverter.Color32x4Value | Runtime/Manager/PropertyTypeConverter.cs:76-86 | PropertyTypeConverter.ConvertColor32x4, PropertyTypeConverter.ByteColoursScale |
| Query.ConsumesNode | Runtime/Manager/UIQuery.cs:479-494 | Query.TypeBits, Query.OperatorTypes |
| Query.IsOperationType | Runtime/Manager/UIQuery.cs:479-494 | Query.TypeBits, Query.OperatorTypes, QueryNodes.Place, QueryNodes.RunKeys |
| Query.SymbolOperation | Runtime/Manager/UIQuery.cs:426-438 | Query.IsOperation, Query.OperatorSymbols, Query.OperatorTypes, Query.NextOperator |
| Query.Pending | Runtime/Manager/UIQuery.cs:228-238 | Query.TokensAtOperator, Query.TokensAtEnd, Query.AddPending |
| Query.Tokens | Runtime/Manager/UIQuery.cs:238 | Query.TokensSkip, Query.TokensAtOperator, Query.TokensAtEnd, Query.Tokenize |
| QueryLayout.ItemsSize | Runtime/Manager/UIQuery.cs:389-425 | QueryLayout.GetQuerySize, QueryLayout.SectionSize, QueryLayout.WriteNodes, QueryLayout.WriteNodeAt |
| QueryLayout.NodeSize | Runtime/Manager/UIQuery.cs:317-381 | QueryLayout.NodeBytes, QueryLayout.WriteNode, QueryLayout.PseudoClassesCut |
| QueryLayout.QuerySize | Runtime/Manager/UIQuery.cs:389-425 | QueryLayout.GetQuerySize, QueryLayout.Layout, QueryLayout.WriteNodes, QueryLayout.WriteNodeAt |
| QueryLayout.NodeStart | Runtime/Manager/UIQuery.cs:317-381 | QueryLayout.WriteNodeAt, QueryLayout.NodeRecord, QueryLayout.NodeSizes, QueryLayout.Walk |
| QueryLayout.Items | Runtime/Manager/UIQuery.cs:352-365 | QueryLayout.WriteItems |
| QueryLayout.ClassSection | Runtime/Manager/UIQuery.cs:350-365 | QueryLayout.WriteSection |
| QueryLayout.NodeHeaderBytes | Runtime/Manager/UIQuery.cs:317-321 | QueryLayout.WriteNode, QueryLayout.EnumeratesNodes |
| QueryLayout.NodesBytes | Runtime/Manager/UIQuery.cs:315-385 | QueryLayout.WriteNodes, QueryLayout.WriteNodeAt |
| QueryLayout.HeaderBytes | Runtime/Manager/UIQuery.cs:308-313 | QueryLayout.AllocateQueryData, QueryLayout.Enumerator.constructor |
| QueryLayout.ReadInt | Runtime/Manager/UIQuery.cs:157-165 | QueryLayout.Enumerator.constructor, QueryLayout.CountInLayout, QueryLayout.NodeSizes |
| QueryLayout.Advance | Runtime/Manager/UIQuery.cs:169-193 | QueryLayout.Enumerator.MoveNext |
| QueryLayout.NodeAt | Runtime/Manager/UIQuery.cs:169-193 | QueryLayout.Enumerator.MoveNext, QueryLayout.EnumeratesNodes |
| QueryLayout.OffsetAfter | Runtime/Manager/UIQuery.cs:171 | QueryLayout.Walk, QueryLayout.EnumeratesNodes |
| QueryLayout.NodeBytesAsWritten | Runtime/Manager/UIQuery.cs:368-381 | QueryLayout.PseudoClassesCut, QueryLayout.PseudoClassesWhole, QueryLayout.PseudoClassesQuery |
| QueryNodes.Values | Runtime/Manager/UIQuery.cs:270-273 | QueryNodes.Add, QueryNodes.PseudoClassesOfQuery |
| QueryNodes.Step | Runtime/Manager/UIQuery.cs:252-294 | QueryNodes.RunBookkeeping, QueryNodes.RunKeys, QueryNodes.RunOperations |
| QueryNodes.Run | Runtime/Manager/UIQuery.cs:252-294 | QueryNodes.RunBookkeeping, QueryNodes.RunKeys, QueryNodes.RunOperations, QueryNodes.BuildNodes |
| Strings.IsWhiteSpace | Runtime/Manager/UIElementManager.cs:25-28 | ElementManager.SubNameBlank (through Strings.IsNullOrWhiteSpace) |
| Strings.IsNullOrWhiteSpace | Runtime/Manager/UIElementManager.cs:25-28 | ElementManager.SubNameBlank, ElementManager.SubNameSuffix, ElementManager.MaterialNameOfBlockProperty, ElementManager.Manager.ResolveNormalizationInfo |
| Strings.Join | Editor/UIPropertyParsers.cs:109 | Strings.SplitJoin, ViewImporter.ClassesJoin |
| TextElement.FontScale | Runtime/Elements/Text.cs:56-74 | TextElement.PenEndsAtWidth |
| TextElement.Advance | Runtime/Elements/Text.cs:56 | TextElement.PenSnoc, TextElement.PenCons |
| TextElement.PenAfter | Runtime/Elements/Text.cs:22-56 | TextElement.PlaceGlyph, TextElement.PenSnoc, TextElement.PenShift, TextElement.PenEndsAtWidth |
| TextElement.TextOf | Runtime/Elements/Text.cs:12-60 | TextElement.GenerateMeshData, TextElement.PenEndsAtWidth, TextElement.SizeCases, TextElement.WrittenText |
| TextElement.SizeOf | Runtime/Elements/Text.cs:62-81 | TextElement.Size, TextElement.PenEndsAtWidth, TextElement.SizeCases, TextElement.EmptyText |
| TextElement.MeshOf | Runtime/Elements/Text.cs:12-60 | TextElement.GenerateMeshData, TextElement.SizeCases, TextElement.WrittenText, TextElement.EmptyText |
| UiBool.ScaledOffset | Runtime/Commons/UIBool.cs:38-50 | UiBool.AsWrittenAgrees, UiBool.WideBitsOutside |
| UiBool.GetAsWritten | Runtime/Commons/UIBool.cs:38-50 | UiBool.AsWrittenAgrees, UiBool.WideBitsOutside |
| UiBool.SetBitAsWritten | Runtime/Commons/UIBool.cs:38-50 | UiBool.AsWrittenAgrees, UiBool.WideBitsOutside |
| UiBool.Get | Runtime/Commons/UIBool.cs:35-45 | UiBool.AsWrittenAgrees, UiBool.GetOutside, UiBool.SetThenGet, UiBool.DefaultsShowNode |
| UiBool.DefaultFlags | Runtime/Commons/PropertyBlocks.cs:20-21 | UiBool.DefaultsShowNode |
| UiBool.DisplayConfigBlock.Visible | Runtime/Commons/PropertyBlocks.cs:23 | UiBool.DisplayConfigBlock.SetVisible, UiBool.DisplayConfigBlock.SetDisplay, UiBool.DisplayConfigBlock.SetVisibleByRef, UiBool.DisplayConfigBlock.SetDisplayByRef |
| UiBool.DisplayConfigBlock.Display | Runtime/Commons/PropertyBlocks.cs:24 | UiBool.DisplayConfigBlock.SetVisible, UiBool.DisplayConfigBlock.SetDisplay, UiBool.DisplayConfigBlock.SetVisibleByRef, UiBool.DisplayConfigBlock.SetDisplayByRef |
| UiLength.UnitCode | Runtime/Commons/UILength.cs:111-116 | UiLength.UnitParity, UiLength.UnitCodeRoundTrip |
| UiLength.UnitOfCode | Runtime/Commons/UILength.cs:114-116 | UiLength.UnitCodeRoundTrip |
| UiLength.IsAbsolute | Runtime/Commons/UILength.cs:111-116 | UiLength.UnitParity, UiLength.NormalizePhysical |
| UiLength.UnitName | Runtime/Commons/UILength.cs:27 | UiLength.ParseUnit |
| UiLength.PerUnit | Runtime/Commons/UILength.cs:47-58 | UiLength.NormalizePhysical, UiLength.NormalizeMetric, UiLength.NormalizePoints, UiLength.NormalizeViewport |
| UiText.Utf8Encode | Editor/UIEditorUtility.cs:84-89 | EditorUtility.RecordLayout, UiText.Utf8String.constructor, UiText.Utf8String.SetValue, UiText.NextIsLead |
| UiText.Utf16Length | Editor/UIEditorUtility.cs:84-89 | EditorUtility.RecordLayout, EditorUtility.TextRecordReadBack, ObjectConversion.ExtraDataText, TextElement.WrittenText |
| UiText.Utf8String.IsCreated | Runtime/Commons/UIText.cs:63-68 | UiText.Utf8String.Dispose |
| UiText.Utf8String.Length | Runtime/Commons/UIText.cs:28 | UiText.Utf8String.constructor, UiText.Utf8String.SetValue, UiText.Utf8String.Dispose |
| UiText.At | Runtime/Commons/UIText.cs:142-146 | UiText.DecodeChar2, UiText.DecodeChar3, UiText.DecodeChar4, UiText.DecodeChar |
| UiText.Absorb | Runtime/Commons/UIText.cs:136-155 | UiText.DecodeChar2, UiText.DecodeChar3, UiText.DecodeChar4, UiText.InvalidLeadStops |
| UiText.IsContinuation | Runtime/Commons/UIText.cs:130-136 | UiText.LeadByte, UiText.DecodeChar2, UiText.DecodeChar3, UiText.DecodeChar4 |
| UiText.CodePoints | Editor/UIEditorUtility.cs:82-91 | EditorUtility.TextRecordReadBack, ObjectConversion.ExtraDataText, TextElement.EmitGlyphs, TextElement.NextCodePoint |
| VertexData.MakeVertex | Runtime/Commons/UIVertexData.cs:31-33 | VertexData.FlipPosition, VertexData.FlipTwice |
| VertexData.FormatSize | Runtime/Commons/UIVertexData.cs:14-29 | VertexData.LayoutMatchesStruct |
| VertexData.Stride | Runtime/Commons/UIVertexData.cs:14-29 | VertexData.LayoutMatchesStruct |
| VertexData.AttributeOffset | Runtime/Commons/UIVertexData.cs:14-29 | VertexData.LayoutMatchesStruct |
| ViewAccessors.NodeCount | Editor/UIViewAsset.cs:15 | ViewAccessors.ItemInRange |
| ViewAccessors.Item | Editor/UIViewAsset.cs:16-18 | ViewAccessors.ItemInRange, ViewAccessors.IndexOfFinds, ViewAccessors.SelectItems |
| ViewAccessors.IndexOf | Editor/UIViewAsset.cs:19 | ViewAccessors.IndexOfFinds, ViewAccessors.ImportedIndexOf |
| ViewAccessors.GetParentNode | Editor/UIViewAsset.cs:20 | ViewAccessors.ImportedParent, ViewAccessors.ImportedChild |
| ViewAccessors.GetChildNode | Editor/UIViewAsset.cs:21 | ViewAccessors.ChildrenAgree, ViewAccessors.ChildPastEnd, ViewAccessors.ImportedChild |
| ViewAccessors.Select | Editor/UIViewAsset.cs:22 | ViewAccessors.SelectItems |
| ViewAccessors.GetChildren | Editor/UIViewAsset.cs:22 | ViewAccessors.ChildrenAgree, ViewAccessors.ImportedChildren |
| ViewAccessors.ClassCount | Editor/UIViewAsset.cs:31 | ViewAccessors.ImportedClassCount |
| ViewAccessors.ChildCount | Editor/UIViewAsset.cs:35 | ViewAccessors.ChildrenAgree, ViewAccessors.ChildPastEnd, ViewAccessors.ImportedChild |
| ViewImporter.ElementName | Editor/Importers/UIViewImporter.cs:58 | ViewImporter.UnknownElementFails, ViewImporter.FlattenParts |
| ViewImporter.AttributeName | Editor/Importers/UIViewImporter.cs:145-192 | ViewImporter.ImportersExclusive, ViewImporter.FirstImporterClaims (through ViewImporter.ShouldImport) |
| ViewImporter.EqualsIgnoreCase | Editor/Importers/UIViewImporter.cs:153 | ViewImporter.ImportersExclusive, ViewImporter.FirstImporterClaims (through ViewImporter.ShouldImport) |
| ViewImporter.ShouldImport | Editor/Importers/UIViewImporter.cs:143-194 | ViewImporter.ImportersExclusive, ViewImporter.FirstImporterClaims, ViewImporter.Dispatch |
| ViewImporter.FirstImporter | Editor/Importers/UIViewImporter.cs:73-81 | ViewImporter.FirstImporterClaims |
| ViewImporter.ImporterFor | Editor/Importers/UIViewImporter.cs:21-81 | ViewImporter.Dispatch, ViewImporter.FindImporter, ViewImporter.ScanProperties |
| ViewImporter.Import | Editor/Importers/UIViewImporter.cs:146-193 | ViewImporter.ClassesJoin, ViewAccessors.ImportedClassCount, ViewImporter.ScanKeepsPlace |
| ViewImporter.ScanAttributes | Editor/Importers/UIViewImporter.cs:68-109 | ViewImporter.ScanProperties, ViewImporter.ScanKeepsPlace, ViewImporter.ScanFailureStays, ViewImporter.ImportAttributes |
| ViewImporter.Unclaimed | Editor/Importers/UIViewImporter.cs:68-109 | ViewImporter.ScanProperties |
| ViewImporter.Flatten | Editor/Importers/UIViewImporter.cs:56-126 | ViewImporter.ChildrenStep, ViewImporter.FlattenTree, ViewImporter.UnknownElementFails, ViewImporter.FlattenParts |
| ViewImporter.FlattenChildren | Editor/Importers/UIViewImporter.cs:111-119 | ViewImporter.ChildrenStep, ViewImporter.ChildrenFailureStays, ViewImporter.ChildrenForest, ViewImporter.FlattenParts |
| ViewImporter.Distinct | Editor/Importers/UIViewImporter.cs:54 | ViewImporter.DistinctSound, ViewImporter.DistinctOrder, ViewImporter.ImportXml |
| BindingJob.Signed | Runtime/Manager/Jobs/UIBindingJob.cs:184-211 | BindingJob.IntegerRoundTrip |
| ConfigHandle.BlockTotal | Runtime/Commons/UIConfigHandle.cs:52 | ConfigHandle.Blocks, ConfigHandle.EnumerateAll, ConfigHandleExtensions.FindBlockHeader |
| ElementManager.Joined | Runtime/Manager/UIElementManager.cs:31-37 | ElementManager.ToMaterialName, ElementManager.MaterialNameOfBlockProperty |
| Floats.Neg | Runtime/Commons/UIVertexData.cs:33 | VertexData.FlipPosition, VertexData.FlipTwice |
| Floats.Add2 | Runtime/Elements/HBox.cs:38-51 | BoxElements.HBoxSize, BoxElements.VBoxSize, MeshJobs.OwnVertices |
| LengthNormalization.BitAnd | Runtime/Manager/Jobs/UILengthNormalizationJob.cs:61 | LengthNormalization.RelativeToCases, LengthNormalization.ParentUnsupportedAtRoot |
| Query.Code | Runtime/Manager/UIQuery.cs:479-494 | Query.TypeBits, QueryLayout.WriteNode, QueryLayout.EnumeratesNodes |
| Query.FirstOperation | Runtime/Manager/UIQuery.cs:426-438 | Query.IsOperation, Query.OperatorSymbols |
| QueryLayout.ByteAt | Runtime/Manager/UIQuery.cs:171-191 | QueryLayout.TokenBytes, QueryLayout.Enumerator.MoveNext |
| QueryNodes.Consuming | Runtime/Manager/UIQuery.cs:252-294 | QueryNodes.QueryNodeCount, QueryNodes.RunBookkeeping |
| Strings.Occurrences | Editor/Importers/UIViewImporter.cs:161 | Strings.SplitCount, ViewAccessors.ImportedClassCount |
| TextElement.GlyphOf | Runtime/Elements/Text.cs:25 | TextElement.PenSnoc, TextElement.PenCons, TextElement.PenShift, TextElement.TextQuads |
| UiLength.Lower | Runtime/Commons/UILength.cs:11 | UiLength.ParseUnit, UiLength.PercentSignIsPx |
| UiText.Cont | Editor/UIEditorUtility.cs:88 | UiText.DecodeChar, UiText.DecodeEncoded (through UiText.Utf8Char) |
| ViewImporter.Fold | Editor/Importers/UIViewImporter.cs:153 | ViewImporter.ImportersExclusive, ViewImporter.FirstImporterClaims (through ViewImporter.EqualsIgnoreCase) |
| ViewImporter.NewNode | Editor/Importers/UIViewImporter.cs:61-66 | ViewImporter.CreateNode, ViewImporter.FlattenParts, ViewImporter.FlattenTree |
| ViewImporter.Step | Editor/Importers/UIViewImporter.cs:68-108 | ViewImporter.ScanProperties, ViewImporter.ScanKeepsPlace, ViewImporter.ScanFailureStays |
| ViewImporter.Attach | Editor/Importers/UIViewImporter.cs:109-121 | ViewImporter.CreateNode, ViewImporter.FlattenParts, ViewImporter.FlattenTree |
| ConfigHandle.Yielded | Runtime/Commons/UIConfigHandle.cs:94-95 | ConfigHandle.EnumerateAll, ObjectConversion.LayoutBlocks, ObjectConversion.BuildThenIterate |
| TextEncoding.GetMaxCharSize | Runtime/Manager/UIConfigHandleExtensions.cs:115-128 | TextEncoding.GetMinCharSize |
| EditorUtility.Collected | Editor/UIEditorUtility.cs:107-117 | EditorUtility.GetPropertyBlocks, EditorUtility.GetPropertyBlocksContents |
| ElementExtensions.BoxQuad | Runtime/UIElementExtensions.cs:17-62 | ElementExtensions.GenerateBoxMesh, ElementExtensions.QuadIsRectangle, ElementExtensions.QuadCorners, MeshJobs.BoxDrawn |
| ElementManager.ElementInfoOf | Runtime/Manager/UIElementManager.cs:493-539 | ElementManager.TerminalElements |
| ElementManager.ResolveLengthInfo | Runtime/Manager/UIElementManager.cs:149-159 | ElementManager.Manager.ResolveNormalizationInfo |
| ElementManager.ResolvedInfos | Runtime/Manager/UIElementManager.cs:149-159 | ElementManager.Manager.ResolveNormalizationInfo |
| ElementManager.Manager.GetElement | Runtime/Manager/UIElementManager.cs:206-471 | ElementManager.GetElementAfterRegistration |
| LengthNormalization.Entries | Runtime/Manager/UIConfigHandleExtensions.cs:236-252 | LengthNormalization.LookupSound, LengthNormalization.RelativeToCases |
| MeshJobs.Overlay | Runtime/Manager/Jobs/UIRenderJob.cs:79-83 | MeshJobs.WriteElementVertices, MeshJobs.RenderVertices, MeshJobs.OwnVertices |
| MeshJobs.ZeroFill | Runtime/Manager/Jobs/UIRenderJob.cs:84-87 | MeshJobs.ClearVertices, MeshJobs.RenderVertices |
| MeshJobs.IndexFill | Runtime/Manager/Jobs/UIRenderJob.cs:88-96 | MeshJobs.WriteQuadIndices, MeshJobs.RenderIndices |
| PropertyBlocks.GlyphValues | Runtime/PropertyBlocks.cs:62-66 | PropertyBlocks.CreateBlob, PropertyBlocks.LookupUnique |
| UiText.Scalars | Runtime/Commons/UIText.cs:70-72 | UiText.DecodeEncoded, EditorUtility.TextRecordReadBack, TextElement.WrittenText |

## Left out

Arithmetic and data representation:
- Floating point: `Floats` keeps a finite float as an exact real. It does not model IEEE-754 single-precision rounding, signed zero or subnormals. The layout, normalisation and text lemmas are therefore about exact arithmetic, and `Floats.AddAssoc` holds only because of that.
- Integer widths are modelled only where they matter: 32-bit wrap-around of the hash codes and header lengths, and the byte count of a config header.
- `UiText` strings are Dafny strings, which cannot hold a lone UTF-16 surrogate. `Encoding.UTF8` would write EF BF BD for one, so that case is out of the model.
- `UiText`: memory from `UnsafeUtility.Malloc` is modelled as zero-filled. The source does not clear it.
- `UiText.Decode1` and the enumerators read a byte past the end of their buffer as 0. In the source that read looks at whatever memory follows the buffer.
- `BindingJob.ReadBytes` reads a byte outside the node's config buffer as 0. The strided read of the binding job (Runtime/Manager/Jobs/UIBindingJob.cs:96-104) takes raw memory there, so what such a component holds in the source is not modelled.
- `TextEncoding.At` answers -1 for a byte past the end, so a text record shorter than a byte-order mark matches no mark and `TextEncoding.GetEncoding` answers no encoding. The source reads `bytes[0..3]` through a raw pointer (Runtime/Manager/UIConfigHandleExtensions.cs:37-51) and compares whatever memory follows.
- `QueryLayout.ByteAt` and `QueryLayout.ReadInt` read a byte outside the query buffer as 0. The last call of `QueryLayout.Enumerator.MoveNext`, the one that returns false, still reads a NodeHeader, two lengths and the operation byte past the last record (Runtime/Manager/UIQuery.cs:171-191). In the source those reads look at whatever memory follows, so the node fields that call leaves are not modelled; its result and its offset are.
- `LengthNormalization.Lookup` and `LengthNormalization.ApplyInfo` keep the UILength values in a map from blocks and offsets. A registered length info whose offset holds no UILength gives no reference value and no write. The source reads and writes those bytes as a UILength whatever they hold (Runtime/Manager/Jobs/UILengthNormalizationJob.cs:46-67). The element manager registers a length info only at a UILength field, so this arises only for a buffer the converter did not write.
- `ConfigHandle.RuntimeHeader`: the runtime data header's floats (constraints, size, position) are kept as a typed value beside each node buffer. The buffer keeps 32 placeholder bytes at the header's place, so every offset after it matches the source. The float encoding of those bytes is not modelled.
- `CompositeData` models the C# structs as datatypes. Their setters are functions from the old value to the new one, so value semantics is kept; `ToString` is out of the model.

Preconditions that stand for what the converter guarantees:
- `NodeTree.Forward`: every child is numbered after its parent, the order the converter creates nodes in. The jobs that walk a tree require it to terminate. A cyclic children buffer would make the source recurse without end and is out of the model.
- `ModelInitializer.Initialize` requires `ParentsBefore`. `ModelInitializer.ImportedParentsBefore` proves that every imported view meets it.
- `LayoutJob.Invocable` and `MeshJobs.ValidRender` require the function pointers the jobs call to exist: size always; constrain and layout for a non-terminal element; generateMeshData for a visible node. With a missing pointer the source calls through null and crashes, which the model does not represent.
- `TextElement.GenerateMeshData` requires the vertex buffer it is given to hold four vertices per code point. The converter gives every node a render-quad count of 1 (Editor/Systems/UIObjectConversionSystem.cs:77). So in the source, a text of more than one code point writes its extra quads over the next node's vertices or past the mesh. The model does not represent those writes.
- `ConfigHandle.ConfigEnumerator.MoveNext` requires that the walk has not already passed the last block. A call after MoveNext has returned false reads past the chain in the source and is not modelled.
- The config-handle lookups require a well-formed header chain, as the converter writes it.

Behaviour of the source outside the model:
- `ObjectConversion` models the layout pass, the header writes and the parent links of `CreateNodeConfigBuffers`. It leaves out the loop that writes default values, preprocessors, property values and postprocessors into the blocks (Editor/Systems/UIObjectConversionSystem.cs:199-255). That loop covers the order of those writes and the rule that skips a field with more than one default value. It needs reflection over property-block types and the parsers, neither of which the model has.
- `PropertyBlocks.CreateBlob` fills each bucket in glyph-table order. The source copies a bucket out of a `NativeMultiHashMap`, whose iteration order is unspecified. `PropertyBlocks.BucketSource` and `PropertyBlocks.LookupUnique` are stated for any order.
- `PropertyBlocks`: the block default values (Runtime/PropertyBlocks.cs:194-238) are constants. No lemma is proved about them.
- `UiLength.ParseUnit` is proved sound (a unit it returns matches the text case-insensitively), not complete. The regular expression is a parameter (`RegexMatch`), and `float.TryParse` is a function parameter.
- `UiLength.ToString` is not modelled.
- `MaterialBinding`: the IL that the post-processor emits is out of the model, as is the Mono.Cecil reflection that finds the fields. The conversion and component rules are modelled.
- `MaterialBinding.Prefix` treats a missing CompositeNameAttribute as `Prefix = true`. That default comes from a `GetProperty` extension (Compiler/UIMaterialBindingPostProcessor.cs:202) whose source is not part of this model; true is the attribute's own default (Runtime/Commons/CompositeData.cs:102).
- `BindingJob`: component 0 is never divided by a normaliser, and component i uses hint i-1 (Runtime/Manager/Jobs/UIBindingJob.cs:135-150). The stride `sizeof - fieldOffset - GetSize` is modelled as written.
- `MeshJobs`: the ushort index buffer wraps from quad 16384 on (`MeshJobs.IndicesWrap`). A sub-mesh's bounds use the node-relative position, while its vertices use the absolute rectangle. Both are modelled as written.
- `Query`: the tokenizer does not examine the byte after an operator (`Query.SkippedOperator`, "a>>b"). A trailing operator yields a Content token one byte past the input (`Query.TrailingOperator`, "a>"). `CreateQueryData` keeps only the nodes completed before the last operator (`QueryNodes.LastNodeDropped`, "a>b" keeps "a"). All three are modelled as written.
- `ViewAccessors.GetChildren` is a lazy LINQ `Select` in the source, so an out-of-range child index throws only when the result is enumerated. The model throws at the call.
- `ViewAccessors.IndexOf` compares nodes by value. The source compares references, which agree for the nodes of an imported view (`ViewAccessors.ImportedIndexOf`).
- `ViewImporter`: the model leaves out several parts of the importer:
  - XML deserialisation, and text and comment nodes;
  - the case folding of element names, which becomes an exact-match map;
  - `ViewImporter.Fold` and `ViewImporter.EqualsIgnoreCase` fold ASCII letters only. The attribute importers compare with `StringComparison.InvariantCultureIgnoreCase`, which also folds non-ASCII letters; attribute names outside ASCII are out of the model;
  - `GetField`/`TryGetElement`, which become maps;
  - loading assets by path;
  - `GetOrCreateGroup`/`UpdateEntry` beyond a fresh entry per group;
  - the partial writes an exception leaves behind;
  - node identity.
- `ModelImporter` leaves out several parts of the importer:
  - XmlSerializer, and the providers' `CreateProperty`;
  - `BuildAssembly` and `AssetDatabase.ImportAsset`;
  - the directory `Substring` at Editor/Importers/UIModelImporter.cs:43;
  - `Debug.Log`;
  - culture-aware `EndsWith`, modelled as an ordinal suffix comparison.
- `ModelInitializer`: the reflection that picks the target component type becomes the parameter `holders`, the set of entities that carry it.
- Not modelled: ECS scheduling, Burst compilation, the function-pointer tables, allocation and disposal of native containers, and all editor I/O (asset database, files, logging).

## Findings

| source | as written | input that shows it | evidently intended | confidence | as-written member | corrected member |
|---|---|---|---|---|---|---|
| Runtime/Manager/UIQuery.cs:368-381 | the pseudo-class do-while advances and queries the class iterator, which is already spent, so only the first pseudo-class item is written | "a:x:y>b": node "a" is sized 43 bytes but only 38 are written | every pseudo-class item is written, filling the size GetQuerySize gave the node | high, not executed | QueryLayout.PseudoClassesQuery (with QueryLayout.PseudoClassesCut over QueryLayout.NodeBytesAsWritten) | QueryLayout.AllocateQueryData (with QueryLayout.EnumeratesNodes) |
| Runtime/Manager/Jobs/UILengthNormalizationJob.cs:34-61 | the handle stays default when the target is Parent at a root, or when it is a combined flag such as Self,Parent; the reference lookup then dereferences a null buffer | a root whose length has a created Parent-target reference, or any node with target Self,Parent | a target without a handle resolves nothing, and RelativeTo stays 0 | medium, not executed | LengthNormalization.ParentAtRootDereferencesNull (with LengthNormalization.CombinedTargetDereferencesNull) | LengthNormalization.ParentAtRootIsZero (with LengthNormalization.CombinedTargetIsZero) |
| Runtime/Commons/UIBool.cs:38-50 | `(byte*)((&self) + index / 8)` scales the offset by sizeof(TBool) before the cast | a UIBool16 with index 8: byte 2 is addressed, outside the 2-byte value | byte index / 8 of the value | high, not executed | UiBool.WideBitsOutside | UiBool.SetThenGet |
| Runtime/Manager/UIElementManager.cs:468-471 | GetElement reads PropertyBlockTypeIndex instead of ElementTypeIndex | a registered element type that is not also a property block: GetElement gives 0 | the element's hash from its own index | high, not executed | ElementManager.GetElementReadsWrongSlot | ElementManager.GetElementAfterRegistration |
| Runtime/Commons/PropertyBlocks.cs:23-24 | the Visible and Display setters call the extension `Set` on a copy of flags, so the block keeps its old flags | `block.Visible = false` on a visible block: Visible still reads true | the setter changes the block's own bit | high, not executed | UiBool.DisplayConfigBlock.SetVisible | UiBool.DisplayConfigBlock.SetVisibleByRef |
