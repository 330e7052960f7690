/**
 * UIMaterialBindingPostProcessor, without the IL it emits: how the type of a
 * property-block field marked [UIMaterialProperty] is matched to a
 * conversion (a source type code and how many floats it feeds), how that
 * conversion becomes one binding component or one per composite element,
 * how those components are named, and how the system's OnCreate pads the
 * normaliser hints to four. The job a binding system schedules is a
 * BindingJob.Binding built from these values.
 */
module MaterialBinding {
  import opened Bytes
  import EM = ElementManager
  import BJ = BindingJob
  import CHE = ConfigHandleExtensions

  // ---------------------------------------------------------------- conversions

  /** The type of the material-property component's value field. */
  datatype FieldType = FloatField | Float2Field | Float3Field | Float4Field

  /** MaterialPropertyFormat; its default, for an invalid conversion, is Float. */
  datatype PropertyFormat = FormatFloat | FormatFloat2 | FormatFloat3 | FormatFloat4

  /** How many floats a value field holds. */
  function Width(f: FieldType): nat
  {
    match f
    case FloatField => 1
    case Float2Field => 2
    case Float3Field => 3
    case Float4Field => 4
  }

  /** The material format of a value field. */
  function FormatOf(f: FieldType): PropertyFormat
  {
    match f
    case FloatField => FormatFloat
    case Float2Field => FormatFloat2
    case Float3Field => FormatFloat3
    case Float4Field => FormatFloat4
  }

  /** ConversionInfo; fieldType is None for an input count without a float type (null in the source). */
  datatype ConversionInfo = ConversionInfo(elementTypeCode: BJ.TypeCode, elementInputCount: int, offset: int, size: int,
                                           fieldType: Option<FieldType>, propertyFormat: PropertyFormat)
  {
    /** IsValid: there is a float type for the input count. */
    predicate IsValid() { fieldType.Some? }
  }

  /**
   * The ConversionInfo constructor: it keeps its arguments, and it is valid
   * exactly for one to four inputs, with a value field of that many floats.
   */
  function NewConversionInfo(code: BJ.TypeCode, size: int, inputCount: int, offset: int := 0): (r: ConversionInfo)
    ensures r.elementTypeCode == code && r.size == size && r.elementInputCount == inputCount && r.offset == offset
    ensures r.IsValid() <==> 1 <= inputCount <= 4
    ensures r.IsValid() ==> Width(r.fieldType.value) == inputCount && r.propertyFormat == FormatOf(r.fieldType.value)
    ensures !r.IsValid() ==> r.propertyFormat == FormatFloat
  {
    var field :=
      if inputCount == 1 then Some(FloatField)
      else if inputCount == 2 then Some(Float2Field)
      else if inputCount == 3 then Some(Float3Field)
      else if inputCount == 4 then Some(Float4Field)
      else None;
    ConversionInfo(code, inputCount, offset, size, field, if field.Some? then FormatOf(field.value) else FormatFloat)
  }

  /**
   * GetCompositeConversionInfo: count elements of this conversion side by
   * side, as one conversion of count times the inputs, with the same type
   * code, size and offset.
   */
  function GetCompositeConversionInfo(info: ConversionInfo, count: int): (r: ConversionInfo)
    ensures r.elementTypeCode == info.elementTypeCode && r.size == info.size && r.offset == info.offset
    ensures r.elementInputCount == info.elementInputCount * count
    ensures r.IsValid() <==> 1 <= info.elementInputCount * count <= 4
  {
    NewConversionInfo(info.elementTypeCode, info.size, info.elementInputCount * count, info.offset)
  }

  /** sizeof(UILength): realValue and value (floats) and the unit byte, padded to a multiple of four. */
  const UILengthSize: int := 12

  /** The conversion table: the primitive numeric types, UILength, and the two Unity colours. */
  const Conversions: map<string, ConversionInfo> := map[
    "System.Byte" := NewConversionInfo(BJ.Byte, 1, 1),
    "System.UInt16" := NewConversionInfo(BJ.UInt16, 2, 1),
    "System.UInt32" := NewConversionInfo(BJ.UInt32, 4, 1),
    "System.UInt64" := NewConversionInfo(BJ.UInt64, 8, 1),
    "System.SByte" := NewConversionInfo(BJ.SByte, 1, 1),
    "System.Int16" := NewConversionInfo(BJ.Int16, 2, 1),
    "System.Int32" := NewConversionInfo(BJ.Int32, 4, 1),
    "System.Int64" := NewConversionInfo(BJ.Int64, 8, 1),
    "System.Single" := NewConversionInfo(BJ.Single, 4, 1),
    "System.Double" := NewConversionInfo(BJ.Double, 8, 1),
    "NeroWeNeed.UIECS.UILength" := NewConversionInfo(BJ.Single, UILengthSize, 1),
    "UnityEngine.Color" := NewConversionInfo(BJ.Single, 16, 4),
    "UnityEngine.Color32" := NewConversionInfo(BJ.Byte, 4, 4)
  ]

  /**
   * Every table entry is valid, at offset 0, with one or four inputs, and its
   * size is at least its inputs' worth of the source type as the binding job
   * reads it; exactly that for every type but UILength, whose first field is
   * the float that is read.
   */
  lemma ConversionTable(name: string)
    requires name in Conversions
    ensures var c := Conversions[name];
      c.IsValid() && c.offset == 0 && (c.elementInputCount == 1 || c.elementInputCount == 4)
      && c.size >= BJ.GetSize(c.elementTypeCode) * c.elementInputCount
      && (name != "NeroWeNeed.UIECS.UILength" ==> c.size == BJ.GetSize(c.elementTypeCode) * c.elementInputCount)
  {
  }

  // ---------------------------------------------------------------- lookup

  /** Which of ICompositeData, ICompositeData2, ICompositeData3 and ICompositeData4 a type definition implements. */
  datatype CompositeInterfaces = CompositeInterfaces(composite: bool, composite2: bool, composite3: bool, composite4: bool)

  /**
   * A type reference as the lookup sees it: the full name of the type it
   * resolves to, and for a generic instance the interfaces of its definition
   * and its first generic argument.
   */
  datatype TypeRef =
    | Plain(fullName: string)
    | Generic(fullName: string, interfaces: CompositeInterfaces, argument: TypeRef)

  /** ConversionComponentInfo: a conversion, the element type it reads, and how many components it makes. */
  datatype ConversionComponentInfo = ConversionComponentInfo(conversionInfo: ConversionInfo, elementType: TypeRef, count: int)

  /** The arity of a composite: 4, 3 or 2 by the most specific interface, 0 for a bare ICompositeData. */
  function CompositeCount(i: CompositeInterfaces): (r: int)
    ensures r == 0 || 2 <= r <= 4
  {
    if i.composite4 then 4 else if i.composite3 then 3 else if i.composite2 then 2 else 0
  }

  predicate IsComposite(t: TypeRef)
  {
    t.Generic? && t.interfaces.composite
  }

  /**
   * TryGetConversion. A generic composite whose element converts becomes one
   * component when count elements fit in one float vector, and otherwise
   * count components with the element's own conversion; anything else, a
   * composite whose element does not convert included, looks its full name up
   * in the table. Every conversion found is valid with one to four inputs,
   * and at most four components come out of it.
   */
  function TryGetConversion(t: TypeRef): (r: Option<ConversionComponentInfo>)
    ensures r.Some? ==> r.value.conversionInfo.IsValid() && 1 <= r.value.conversionInfo.elementInputCount <= 4
    ensures r.Some? ==> 0 <= r.value.count <= 4 && (r.value.count != 1 ==> IsComposite(t))
    ensures r.Some? ==> r.value.conversionInfo.offset == 0
  {
    var nested := if IsComposite(t) then TryGetConversion(t.argument) else None;
    if nested.Some? then
      var count := CompositeCount(t.interfaces);
      var compositeInfo := GetCompositeConversionInfo(nested.value.conversionInfo, count);
      if compositeInfo.IsValid() then Some(ConversionComponentInfo(compositeInfo, t.argument, 1))
      else Some(ConversionComponentInfo(nested.value.conversionInfo, t.argument, count))
    else if t.fullName in Conversions then
      ConversionTable(t.fullName);
      Some(ConversionComponentInfo(Conversions[t.fullName], t, 1))
    else None
  }

  /** A type that is not a composite converts exactly when its name is in the table, to that entry and one component. */
  lemma PrimitiveLookup(t: TypeRef)
    requires !IsComposite(t)
    ensures TryGetConversion(t).Some? <==> t.fullName in Conversions
    ensures t.fullName in Conversions ==> TryGetConversion(t) == Some(ConversionComponentInfo(Conversions[t.fullName], t, 1))
  {
  }

  /**
   * A composite of arity k over an element e that converts: one component of
   * k times e's inputs when that is at most four, else k components of e.
   */
  lemma CompositeArity(t: TypeRef)
    requires IsComposite(t) && TryGetConversion(t.argument).Some?
    ensures var e := TryGetConversion(t.argument).value.conversionInfo;
      var k := CompositeCount(t.interfaces);
      var r := TryGetConversion(t).value;
      TryGetConversion(t).Some? && r.elementType == t.argument
      && (1 <= e.elementInputCount * k <= 4 ==> r.count == 1 && r.conversionInfo == GetCompositeConversionInfo(e, k))
      && (!(1 <= e.elementInputCount * k <= 4) ==> r.count == k && r.conversionInfo == e)
  {
  }

  /** A composite whose element does not convert falls back to the table under its own name. */
  lemma CompositeOfUnknown(t: TypeRef)
    requires IsComposite(t) && TryGetConversion(t.argument).None?
    ensures TryGetConversion(t).Some? <==> t.fullName in Conversions
  {
  }

  const CompositeData2Name: string := "NeroWeNeed.UIECS.CompositeData2`1"
  const CompositeData3Name: string := "NeroWeNeed.UIECS.CompositeData3`1"
  const CompositeData4Name: string := "NeroWeNeed.UIECS.CompositeData4`1"

  function CompositeData2(element: TypeRef): TypeRef
  {
    Generic(CompositeData2Name, CompositeInterfaces(true, true, false, false), element)
  }

  function CompositeData3(element: TypeRef): TypeRef
  {
    Generic(CompositeData3Name, CompositeInterfaces(true, false, true, false), element)
  }

  function CompositeData4(element: TypeRef): TypeRef
  {
    Generic(CompositeData4Name, CompositeInterfaces(true, false, false, true), element)
  }

  /** Two or four lengths, as the property blocks hold them, become one float2 or float4 component. */
  lemma LengthComposites()
    ensures var r := TryGetConversion(CompositeData2(Plain("NeroWeNeed.UIECS.UILength")));
      r.Some? && r.value.count == 1 && r.value.conversionInfo.fieldType == Some(Float2Field)
    ensures var r := TryGetConversion(CompositeData4(Plain("NeroWeNeed.UIECS.UILength")));
      r.Some? && r.value.count == 1 && r.value.conversionInfo.fieldType == Some(Float4Field)
  {
    CompositeArity(CompositeData2(Plain("NeroWeNeed.UIECS.UILength")));
    CompositeArity(CompositeData4(Plain("NeroWeNeed.UIECS.UILength")));
  }

  /** Four colours need sixteen floats, so they become four float4 components, one per colour. */
  lemma ColorComposite()
    ensures var r := TryGetConversion(CompositeData4(Plain("UnityEngine.Color")));
      r.Some? && r.value.count == 4 && r.value.conversionInfo == Conversions["UnityEngine.Color"]
  {
    CompositeArity(CompositeData4(Plain("UnityEngine.Color")));
  }

  /** Three ints become one float3 component read as Int32; an unknown element or type does not convert. */
  lemma IntComposite()
    ensures var r := TryGetConversion(CompositeData3(Plain("System.Int32")));
      r.Some? && r.value.count == 1 && r.value.conversionInfo.fieldType == Some(Float3Field)
      && r.value.conversionInfo.elementTypeCode == BJ.Int32
    ensures TryGetConversion(CompositeData2(Plain("System.String"))).None?
    ensures TryGetConversion(Plain("System.Boolean")).None?
  {
    CompositeArity(CompositeData3(Plain("System.Int32")));
  }

  // ---------------------------------------------------------------- binding components

  /** The compiler's diagnostics list, to which a failed binding adds a message. */
  class Diagnostics {
    var messages: seq<string>

    constructor()
      ensures messages == []
    {
      messages := [];
    }

    method Add(message: string)
      modifies this
      ensures messages == old(messages) + [message]
    {
      messages := messages + [message];
    }
  }

  /** A field of a property block marked for material binding: its type and its [CompositeName], if any. */
  datatype PropertyField = PropertyField(fieldType: TypeRef, compositeNames: Option<EM.CompositeNames>)

  /**
   * UIBindingComponentType: the generated component's type name, its
   * material and property names, the sub-name (none for a single
   * component) and what the binding job reads.
   */
  datatype BindingComponentType = BindingComponentType(
    typeName: string, materialPropertyName: string, propertyName: string, subName: Option<string>,
    sourceTypeCode: BJ.TypeCode, fieldOffset: int, elementCount: int,
    propertyType: TypeRef, propertyElementType: TypeRef, fieldType: Option<FieldType>, propertyFormat: PropertyFormat)

  /** The UIBindingComponentType constructor: the field offset is the conversion's plus the given offset. */
  function NewBindingComponent(field: PropertyField, materialPropertyName: string, propertyName: string,
                               info: ConversionComponentInfo, offset: int, subName: Option<string>): (r: BindingComponentType)
    ensures r.fieldOffset == info.conversionInfo.offset + offset
    ensures r.elementCount == info.conversionInfo.elementInputCount && r.sourceTypeCode == info.conversionInfo.elementTypeCode
    ensures r.typeName == "UIMaterialBinding" + materialPropertyName
  {
    BindingComponentType("UIMaterialBinding" + materialPropertyName, materialPropertyName, propertyName, subName,
      info.conversionInfo.elementTypeCode, info.conversionInfo.offset + offset, info.conversionInfo.elementInputCount,
      field.fieldType, info.elementType, info.conversionInfo.fieldType, info.conversionInfo.propertyFormat)
  }

  /** A missing sub-name of the attribute (or a missing attribute) defaults to x, y, z or w. */
  function OrDefault(name: Option<string>, default: string): string
  {
    if name.Some? then name.value else default
  }

  /** The four sub-names TryCreate uses for the components of a composite. */
  function SubNames(names: Option<EM.CompositeNames>): (r: seq<string>)
    ensures |r| == 4
    ensures names.None? ==> r == ["x", "y", "z", "w"]
  {
    if names.None? then ["x", "y", "z", "w"]
    else [OrDefault(names.value.xName, "x"), OrDefault(names.value.yName, "y"),
          OrDefault(names.value.zName, "z"), OrDefault(names.value.wName, "w")]
  }

  /** Prefix of the attribute, true without one. */
  function Prefix(names: Option<EM.CompositeNames>): bool
  {
    if names.Some? then names.value.prefix else true
  }

  /** The message of a failed binding. */
  function FailureMessage(blockName: Option<string>, name: string): string
  {
    "Unable to create binding for " + EM.CreatePropertyName(blockName, name) + "."
  }

  /** The property name component i gets: the plain name for a single component, else its sub-name's. */
  function ComponentPropertyName(field: PropertyField, blockName: Option<string>, name: string, count: int, i: nat): string
    requires i < 4
  {
    if count == 1 then EM.CreatePropertyName(blockName, name)
    else EM.CreateSubPropertyName(blockName, Some(SubNames(field.compositeNames)[i]), name, Prefix(field.compositeNames))
  }

  /** Component i of a successful TryCreate: every one reads the conversion at offset 0 past the field. */
  function ComponentAt(field: PropertyField, blockName: Option<string>, name: string, titleCase: string -> string,
                       info: ConversionComponentInfo, i: nat): BindingComponentType
    requires i < 4
  {
    var propertyName := ComponentPropertyName(field, blockName, name, info.count, i);
    NewBindingComponent(field, EM.MaterialName(propertyName, titleCase), propertyName, info, 0,
                        if info.count == 1 then None else Some(SubNames(field.compositeNames)[i]))
  }

  /**
   * TryCreate: with a conversion, one binding component per counted
   * component (ComponentAt) and no diagnostic; without one, an empty array
   * and one diagnostic naming the property.
   */
  method TryCreate(field: PropertyField, blockName: Option<string>, name: string, titleCase: string -> string,
                   messages: Diagnostics) returns (result: array<BindingComponentType>)
    modifies messages
    ensures fresh(result)
    ensures TryGetConversion(field.fieldType).None? ==>
      result.Length == 0 && messages.messages == old(messages.messages) + [FailureMessage(blockName, name)]
    ensures TryGetConversion(field.fieldType).Some? ==>
      var info := TryGetConversion(field.fieldType).value;
      result.Length == info.count && messages.messages == old(messages.messages)
      && forall i :: 0 <= i < result.Length ==> result[i] == ComponentAt(field, blockName, name, titleCase, info, i)
  {
    var conversion := TryGetConversion(field.fieldType);
    if conversion.Some? {
      result := CreateComponents(field, blockName, name, titleCase, conversion.value);
    } else {
      messages.Add(FailureMessage(blockName, name));
      result := new BindingComponentType[0];
    }
  }

  /** The success path of TryCreate: one component, or one per sub-name of a composite. */
  method CreateComponents(field: PropertyField, blockName: Option<string>, name: string, titleCase: string -> string,
                          info: ConversionComponentInfo) returns (result: array<BindingComponentType>)
    requires 0 <= info.count <= 4
    ensures fresh(result) && result.Length == info.count
    ensures forall i :: 0 <= i < result.Length ==> result[i] == ComponentAt(field, blockName, name, titleCase, info, i)
  {
    result := new BindingComponentType[info.count];
    if info.count == 1 {
      var propertyName := EM.CreatePropertyName(blockName, name);
      var materialName := EM.ToMaterialName(propertyName, titleCase);
      result[0] := NewBindingComponent(field, materialName, propertyName, info, 0, None);
    } else {
      var subNames := SubNames(field.compositeNames);
      var prefix := Prefix(field.compositeNames);
      for i := 0 to info.count
        invariant forall j :: 0 <= j < i ==> result[j] == ComponentAt(field, blockName, name, titleCase, info, j)
      {
        var propertyName := EM.CreateSubPropertyName(blockName, Some(subNames[i]), name, prefix);
        var materialName := EM.ToMaterialName(propertyName, titleCase);
        result[i] := NewBindingComponent(field, materialName, propertyName, info, 0, Some(subNames[i]));
      }
    }
  }

  /**
   * What the created components share: each feeds one to four floats, and
   * all of them read from the same byte, offset 0 of the field; the
   * components of a composite differ only in their names and sub-names.
   */
  lemma ComponentsShareOffset(field: PropertyField, blockName: Option<string>, name: string, titleCase: string -> string, i: nat, j: nat)
    requires TryGetConversion(field.fieldType).Some?
    requires i < TryGetConversion(field.fieldType).value.count && j < TryGetConversion(field.fieldType).value.count
    ensures var info := TryGetConversion(field.fieldType).value;
      var a := ComponentAt(field, blockName, name, titleCase, info, i);
      var b := ComponentAt(field, blockName, name, titleCase, info, j);
      a.fieldOffset == 0 && a.fieldOffset == b.fieldOffset && a.sourceTypeCode == b.sourceTypeCode
      && 1 <= a.elementCount <= 4 && a.elementCount == b.elementCount
  {
  }

  /** Without an attribute the components of a composite are named with the sub-names x, y, z and w in order, before the name. */
  lemma DefaultSubNames(field: PropertyField, blockName: Option<string>, name: string, i: nat)
    requires field.compositeNames.None? && i < 4
    ensures ComponentPropertyName(field, blockName, name, 2, i)
      == EM.CreateSubPropertyName(blockName, Some(["x", "y", "z", "w"][i]), name, true)
  {
  }

  // ---------------------------------------------------------------- hints

  /** The hint OnCreate passes for slot i: the i-th one supplied, and None (0) past the supplied ones. */
  function PaddedHint(hints: Option<seq<BJ.NormalizerHint>>, i: nat): BJ.NormalizerHint
  {
    if hints.Some? && i < |hints.value| then hints.value[i] else BJ.NoHint
  }

  /**
   * The hint padding of GenerateOnCreate: the first min(n, 4) hints
   * supplied, then zeros up to four, handed to BindingHintData.Create.
   */
  method GenerateHints(hints: Option<seq<BJ.NormalizerHint>>) returns (h: BJ.BindingHintData)
    ensures h.Valid()
    ensures forall i :: 0 <= i < BJ.HintSize ==> h.Get(i) == PaddedHint(hints, i)
  {
    var emitted: seq<BJ.NormalizerHint> := [];
    var currentHint := 0;
    if hints.Some? {
      while currentHint < |hints.value| && currentHint < BJ.HintSize
        invariant 0 <= currentHint <= BJ.HintSize && currentHint <= |hints.value|
        invariant |emitted| == currentHint
        invariant forall i :: 0 <= i < currentHint ==> emitted[i] == PaddedHint(hints, i)
      {
        emitted := emitted + [hints.value[currentHint]];
        currentHint := currentHint + 1;
      }
    }
    while currentHint < BJ.HintSize
      invariant 0 <= currentHint <= BJ.HintSize && |emitted| == currentHint
      invariant forall i :: 0 <= i < currentHint ==> emitted[i] == PaddedHint(hints, i)
    {
      emitted := emitted + [BJ.NoHint];
      currentHint := currentHint + 1;
    }
    h := BJ.CreateHints(emitted[0], emitted[1], emitted[2], emitted[3]);
    BJ.HintsInOrder(emitted[0], emitted[1], emitted[2], emitted[3]);
  }

  /** Extra hints past the fourth are dropped, and no hints at all (null or empty) give four None hints. */
  lemma PaddedHints(hints: seq<BJ.NormalizerHint>, i: nat)
    requires i < BJ.HintSize
    ensures PaddedHint(Some(hints), i) == PaddedHint(Some(hints[..if |hints| < BJ.HintSize then |hints| else BJ.HintSize]), i)
    ensures PaddedHint(None, i) == BJ.NoHint && PaddedHint(Some([]), i) == BJ.NoHint
  {
  }

  // ---------------------------------------------------------------- the job

  /**
   * The UIBindingJob a binding system's OnUpdate schedules for component c:
   * the property it looked up by name, its source type code and field
   * offset, elementCount floats per node, and the hints OnCreate built;
   * propertySize is sizeof of the property type.
   */
  function JobOf(c: BindingComponentType, property: CHE.PropertyRef, hints: BJ.BindingHintData, propertySize: int): (job: BJ.Binding)
    ensures job.property == property && job.hints == hints && job.vectorLength == c.elementCount
  {
    BJ.Binding(property, c.sourceTypeCode, c.fieldOffset, c.elementCount, hints, propertySize)
  }

  /**
   * Every job built from a created component writes between one and four
   * floats per node, so BindingJob.Execute writes every node's row, and its
   * first component reads the property's first byte.
   */
  lemma JobVectorLength(field: PropertyField, blockName: Option<string>, name: string, titleCase: string -> string, i: nat,
                        property: CHE.PropertyRef, hints: BJ.BindingHintData, propertySize: int)
    requires TryGetConversion(field.fieldType).Some? && i < TryGetConversion(field.fieldType).value.count
    ensures var job := JobOf(ComponentAt(field, blockName, name, titleCase, TryGetConversion(field.fieldType).value, i), property, hints, propertySize);
      1 <= job.vectorLength <= 4 && job.fieldOffset == 0
  {
  }
}
