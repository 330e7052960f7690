/**
 * UIElementManager: property naming (UIElementNameUtility), the property and
 * element descriptors (UIProperty, UIElementPropertyBlock, UIElementInfo), and
 * the registration rules by which each field of a property block becomes one
 * or more named properties. The reflection that finds the types and fields is
 * replaced by explicit field descriptions.
 */
module ElementManager {
  import opened Bytes
  import opened Strings

  // ---------------------------------------------------------------- names

  /** CreatePropertyName(blockName, name): the name, prefixed by the block name and a hyphen when there is one. */
  function CreatePropertyName(blockName: Option<string>, name: string): string
  {
    if IsNullOrWhiteSpace(blockName) then name else blockName.value + "-" + name
  }

  /**
   * CreatePropertyName(blockName, subName, name, prefix): the sub-name goes
   * before the name when prefix holds and after it otherwise.
   */
  function CreateSubPropertyName(blockName: Option<string>, subName: Option<string>, name: string, prefix: bool): string
  {
    if IsNullOrWhiteSpace(blockName) then
      (if IsNullOrWhiteSpace(subName) then name
       else if prefix then subName.value + "-" + name
       else name + "-" + subName.value)
    else
      (if IsNullOrWhiteSpace(subName) then blockName.value + "-" + name
       else if prefix then blockName.value + "-" + subName.value + "-" + name
       else blockName.value + "-" + name + "-" + subName.value)
  }

  /** Without a sub-name the four-argument form is the two-argument form. */
  lemma SubNameBlank(blockName: Option<string>, subName: Option<string>, name: string, prefix: bool)
    requires IsNullOrWhiteSpace(subName)
    ensures CreateSubPropertyName(blockName, subName, name, prefix) == CreatePropertyName(blockName, name)
  {
  }

  /** With prefix, the sub-name is a block name nested inside the block name. */
  lemma SubNamePrefix(blockName: Option<string>, subName: Option<string>, name: string)
    ensures CreateSubPropertyName(blockName, subName, name, true)
         == CreatePropertyName(blockName, CreatePropertyName(subName, name))
  {
    if !IsNullOrWhiteSpace(blockName) && !IsNullOrWhiteSpace(subName) {
      assert blockName.value + "-" + subName.value + "-" + name == blockName.value + "-" + (subName.value + "-" + name);
    }
  }

  /** Without prefix, the sub-name is a suffix of the name. */
  lemma SubNameSuffix(blockName: Option<string>, subName: Option<string>, name: string)
    requires !IsNullOrWhiteSpace(subName)
    ensures CreateSubPropertyName(blockName, subName, name, false)
         == CreatePropertyName(blockName, name + "-" + subName.value)
  {
    if !IsNullOrWhiteSpace(blockName) {
      assert blockName.value + "-" + name + "-" + subName.value == blockName.value + "-" + (name + "-" + subName.value);
    }
  }

  /** The title-cased components concatenated, as ToMaterialName appends them. */
  function Joined(components: seq<string>, titleCase: string -> string): string
  {
    if components == [] then "" else Joined(components[..|components| - 1], titleCase) + titleCase(components[|components| - 1])
  }

  /** What ToMaterialName returns. */
  function MaterialName(propertyName: string, titleCase: string -> string): string
  {
    "_" + Joined(Split(propertyName, '-'), titleCase)
  }

  /**
   * ToMaterialName: "_" and then each '-'-separated component title-cased. The
   * culture's title-casing rules are the parameter titleCase.
   */
  method ToMaterialName(propertyName: string, titleCase: string -> string) returns (r: string)
    ensures r == MaterialName(propertyName, titleCase)
  {
    var components := Split(propertyName, '-');
    r := "_";
    for i := 0 to |components|
      invariant r == "_" + Joined(components[..i], titleCase)
    {
      assert components[..i + 1][..i] == components[..i];
      r := r + titleCase(components[i]);
    }
    assert components[..|components|] == components;
  }

  /**
   * The material name of a block property: "_" followed by the title-cased
   * block name and the title-cased property name, when neither holds a hyphen.
   */
  lemma MaterialNameOfBlockProperty(blockName: string, name: string, titleCase: string -> string)
    requires !IsNullOrWhiteSpace(Some(blockName)) && Free(blockName, '-') && Free(name, '-')
    ensures MaterialName(CreatePropertyName(Some(blockName), name), titleCase) == "_" + titleCase(blockName) + titleCase(name)
  {
    assert blockName + "-" + name == blockName + ['-'] + name;
    SplitAfter(blockName, '-', name);
    SplitFree(name, '-');
    var cs := [blockName, name];
    assert cs[..1] == [blockName];
    assert Joined([blockName], titleCase) == "" + titleCase(blockName);
  }

  /** A property outside any named block keeps its name, and its material name is "_" and its title-cased name. */
  lemma MaterialNameOfGlobalProperty(name: string, titleCase: string -> string)
    requires Free(name, '-')
    ensures MaterialName(CreatePropertyName(None, name), titleCase) == "_" + titleCase(name)
  {
    SplitFree(name, '-');
    assert Joined([name], titleCase) == "" + titleCase(name);
  }

  // ---------------------------------------------------------------- descriptors

  /** UIProperty: the block it lives in, its offset and length in the block, and its bit (-1 for none). */
  datatype UIProperty = UIProperty(blockHash: u64, offset: int, length: int, bitOffset: int)

  const NoProperty: UIProperty := UIProperty(0, 0, 0, 0)

  /** The UIProperty constructor, whose bit offset defaults to -1. */
  function NewProperty(blockHash: u64, offset: int, length: int, bitOffset: int := -1): (p: UIProperty)
    ensures p.blockHash == blockHash && p.offset == offset && p.length == length && p.bitOffset == bitOffset
  {
    UIProperty(blockHash, offset, length, bitOffset)
  }

  /** IsCreated: anything but all four fields zero. */
  predicate IsCreated(p: UIProperty)
  {
    !(p.blockHash == 0 && p.offset == 0 && p.length == 0 && p.bitOffset == 0)
  }

  predicate IsBitProperty(p: UIProperty)
  {
    p.bitOffset >= 0
  }

  /** UIProperty.Equals: field by field. */
  predicate PropertyEquals(a: UIProperty, b: UIProperty)
  {
    a.blockHash == b.blockHash && a.offset == b.offset && a.length == b.length && a.bitOffset == b.bitOffset
  }

  /** Equals is structural equality, and IsCreated fails exactly for the default value. */
  lemma PropertyIdentity(a: UIProperty, b: UIProperty)
    ensures PropertyEquals(a, b) <==> a == b
    ensures IsCreated(a) <==> a != NoProperty
  {
  }

  /** A property built without a bit offset is created and is not a bit property. */
  lemma NewPropertyIsCreated(blockHash: u64, offset: int, length: int)
    ensures IsCreated(NewProperty(blockHash, offset, length)) && !IsBitProperty(NewProperty(blockHash, offset, length))
  {
  }

  /** UIElementPropertyBlock: a block an element declares, with its required flag as a byte. */
  datatype UIElementPropertyBlock = UIElementPropertyBlock(blockHash: u64, required: byte)

  function NewElementPropertyBlock(blockHash: u64, required: bool): (b: UIElementPropertyBlock)
    ensures b.blockHash == blockHash && b.required == (if required then 1 else 0)
  {
    UIElementPropertyBlock(blockHash, if required then 1 else 0)
  }

  predicate IsRequired(b: UIElementPropertyBlock)
  {
    b.required != 0
  }

  /** IsRequired gives back the flag the block was built with. */
  lemma RequiredRoundTrip(blockHash: u64, required: bool)
    ensures IsRequired(NewElementPropertyBlock(blockHash, required)) == required
  {
  }

  /** Which of the four element interfaces a type implements. */
  datatype ElementInterfaces = ElementInterfaces(constrain: bool, layout: bool, generateMeshData: bool, size: bool)

  /** UIElementInfo: which of the four function pointers are created. */
  datatype UIElementInfo = UIElementInfo(constrain: bool, layout: bool, generateMeshData: bool, size: bool)

  /** The UIElementInfo(Type) constructor: a pointer per implemented interface, none without a wrapper type. */
  function ElementInfoOf(hasWrapper: bool, implements: ElementInterfaces): (e: UIElementInfo)
    ensures !hasWrapper ==> e == UIElementInfo(false, false, false, false)
    ensures hasWrapper ==> (e.constrain == implements.constrain && e.layout == implements.layout
                        && e.generateMeshData == implements.generateMeshData && e.size == implements.size)
  {
    if hasWrapper then UIElementInfo(implements.constrain, implements.layout, implements.generateMeshData, implements.size)
    else UIElementInfo(false, false, false, false)
  }

  predicate IsTerminal(e: UIElementInfo)
  {
    !e.constrain && !e.layout
  }

  /** An element is terminal iff it has no wrapper or implements neither IUIElementConstrain nor IUIElementLayout. */
  lemma TerminalElements(hasWrapper: bool, implements: ElementInterfaces)
    ensures IsTerminal(ElementInfoOf(hasWrapper, implements)) <==> !hasWrapper || (!implements.constrain && !implements.layout)
  {
  }

  // ---------------------------------------------------------------- registration

  /** ReferencePropertyTarget, a byte [Flags] enum: a target may combine several flags. */
  type ReferencePropertyTarget = x: int | 0 <= x < 256

  const TargetNone: ReferencePropertyTarget := 0
  const TargetSelf: ReferencePropertyTarget := 1
  const TargetParent: ReferencePropertyTarget := 2
  const TargetRoot: ReferencePropertyTarget := 4

  /** [ReferenceProperty(name, target)]: target defaults to Self. */
  datatype ReferenceAttr = ReferenceAttr(name: Option<string>, target: ReferencePropertyTarget)

  /** [CompositeName(xName, yName, zName, wName)] with its Prefix property. */
  datatype CompositeNames = CompositeNames(xName: Option<string>, yName: Option<string>, zName: Option<string>, wName: Option<string>, prefix: bool)

  /** A CompositeNameAttribute built by its constructor: Prefix starts out true. */
  function NewCompositeNames(xName: Option<string>, yName: Option<string>, zName: Option<string>, wName: Option<string>): (n: CompositeNames)
    ensures n.prefix
  {
    CompositeNames(xName, yName, zName, wName, true)
  }

  /** A field of a composite value type: its name (x, y, z, w or anything else) and offset. */
  datatype Component = Component(name: string, offset: int)

  /** The composite shape of a field type: its element type, the element's size and its fields. */
  datatype Composite = Composite(elementType: string, elementSize: int, fields: seq<Component>)

  /** How InitializeProperties treats a field. */
  datatype FieldKind =
    | BoolField(names: Option<seq<string>>)
    | ValueField(composite: Option<Composite>)

  /** A field of a property block, with the attributes registration reads. */
  datatype Field = Field(
    name: string, fieldType: string, offset: int, size: int,
    ignored: bool, propertyName: Option<string>,
    kind: FieldKind, compositeNames: Option<CompositeNames>, reference: Option<ReferenceAttr>)

  const BoolType: string := "System.Boolean"
  const LengthType: string := "NeroWeNeed.UIECS.UILength"

  /** InitializationContext.UILengthNormalizationInfo: a length property and its reference attribute. */
  datatype NormalizationInfo = NormalizationInfo(property: UIProperty, referenceProperty: Option<string>, referenceTarget: ReferencePropertyTarget)

  /** One properties.Add with its bookkeeping: the name, the property, its type, and the field whose attributes apply. */
  datatype Registration = Registration(name: string, property: UIProperty, propertyType: string, reference: Option<ReferenceAttr>)

  /** The name of composite component c, or the field name when the attribute has none for it. */
  function ComponentName(c: Component, names: Option<CompositeNames>, fieldName: string): Option<string>
  {
    var n :=
      if c.name == "x" then Some(if names.Some? then names.value.xName else None)
      else if c.name == "y" then Some(if names.Some? then names.value.yName else None)
      else if c.name == "z" then Some(if names.Some? then names.value.zName else None)
      else if c.name == "w" then Some(if names.Some? then names.value.wName else None)
      else None;
    if n.None? then None
    else if IsNullOrWhiteSpace(n.value) then Some(fieldName)
    else n.value
  }

  /** The registrations of the bit names of a UIBool field, bit offset i for the i-th name. */
  function BoolRegistrations(hash: u64, blockName: Option<string>, f: Field, names: seq<string>): (r: seq<Registration>)
    ensures |r| == Min(|names|, if f.size <= 0 then 0 else f.size * 8)
  {
    var n := Min(|names|, if f.size <= 0 then 0 else f.size * 8);
    seq(n, i requires 0 <= i < n => Registration(CreatePropertyName(blockName, names[i]), NewProperty(hash, f.offset, f.size, i), BoolType, None))
  }

  function Min(a: int, b: int): int { if a < b then a else b }

  /** The registrations of the x/y/z/w components of a composite field, in field order. */
  function ComponentRegistrations(hash: u64, blockName: Option<string>, f: Field, comp: Composite, baseName: string, cs: seq<Component>): seq<Registration>
  {
    if cs == [] then []
    else
      var n := ComponentName(cs[0], f.compositeNames, f.name);
      var here :=
        if n.None? then []
        else [Registration(
          CreateSubPropertyName(blockName, n, baseName, if f.compositeNames.Some? then f.compositeNames.value.prefix else true),
          NewProperty(hash, f.offset + cs[0].offset, comp.elementSize), comp.elementType, f.reference)];
      here + ComponentRegistrations(hash, blockName, f, comp, baseName, cs[1..])
  }

  /** Everything InitializeProperties registers for one field, in the order it registers it. */
  function FieldRegistrations(hash: u64, blockName: Option<string>, f: Field): seq<Registration>
  {
    var baseName := if f.propertyName.Some? then f.propertyName.value else f.name;
    if f.ignored then []
    else match f.kind
      case BoolField(names) => if names.None? then [] else BoolRegistrations(hash, blockName, f, names.value)
      case ValueField(composite) =>
        [Registration(CreatePropertyName(blockName, baseName), NewProperty(hash, f.offset, f.size), f.fieldType, f.reference)]
        + (if composite.None? then [] else ComponentRegistrations(hash, blockName, f, composite.value, baseName, composite.value.fields))
  }

  /** Everything InitializeProperties registers for a property block's fields. */
  function BlockRegistrations(hash: u64, blockName: Option<string>, fields: seq<Field>): seq<Registration>
  {
    if fields == [] then [] else FieldRegistrations(hash, blockName, fields[0]) + BlockRegistrations(hash, blockName, fields[1..])
  }

  /** A UIBool field: one bit property per name up to the field's bit count, all at the field's offset and size. */
  lemma BoolFieldRegistrations(hash: u64, blockName: Option<string>, f: Field, names: seq<string>)
    requires !f.ignored && f.kind == BoolField(Some(names))
    ensures var r := FieldRegistrations(hash, blockName, f);
      |r| == Min(|names|, if f.size <= 0 then 0 else f.size * 8)
      && forall i :: 0 <= i < |r| ==>
           r[i].name == CreatePropertyName(blockName, names[i]) && r[i].propertyType == BoolType
           && r[i].property == UIProperty(hash, f.offset, f.size, i) && IsBitProperty(r[i].property)
  {
  }

  /** Every component registration sits at the field offset plus the component offset, with the element's size. */
  lemma {:induction false} ComponentLayout(hash: u64, blockName: Option<string>, f: Field, comp: Composite, baseName: string, cs: seq<Component>)
    ensures var r := ComponentRegistrations(hash, blockName, f, comp, baseName, cs);
      |r| <= |cs|
      && forall i :: 0 <= i < |r| ==>
           (exists j :: 0 <= j < |cs| && r[i].property == UIProperty(hash, f.offset + cs[j].offset, comp.elementSize, -1))
           && r[i].propertyType == comp.elementType
  {
    if cs != [] {
      ComponentLayout(hash, blockName, f, comp, baseName, cs[1..]);
      var r := ComponentRegistrations(hash, blockName, f, comp, baseName, cs);
      var rest := ComponentRegistrations(hash, blockName, f, comp, baseName, cs[1..]);
      forall i | 0 <= i < |r|
        ensures (exists j :: 0 <= j < |cs| && r[i].property == UIProperty(hash, f.offset + cs[j].offset, comp.elementSize, -1))
             && r[i].propertyType == comp.elementType
      {
        if |r| == |rest| + 1 && i == 0 {
          assert r[0].property == UIProperty(hash, f.offset + cs[0].offset, comp.elementSize, -1);
        } else {
          var k := if |r| == |rest| then i else i - 1;
          assert r[i] == rest[k];
          var j :| 0 <= j < |cs[1..]| && rest[k].property == UIProperty(hash, f.offset + cs[1..][j].offset, comp.elementSize, -1);
          assert cs[1..][j] == cs[j + 1];
        }
      }
    }
  }

  /** The registry InitializeProperties fills. */
  datatype Registry = Registry(properties: map<string, UIProperty>, propertyTypes: map<UIProperty, string>, normalizationInfo: seq<NormalizationInfo>)

  /** The normalisation info a registration contributes: one entry when the registered field is a UILength. */
  function InfoOf(e: Registration): seq<NormalizationInfo>
  {
    if e.propertyType != LengthType then []
    else [NormalizationInfo(e.property,
            if e.reference.Some? then e.reference.value.name else None,
            if e.reference.Some? then e.reference.value.target else TargetNone)]
  }

  /** One registration: Dictionary.Add throws (None) when the name is taken. */
  function Register(r: Registry, e: Registration): (o: Option<Registry>)
    ensures o.Some? <==> e.name !in r.properties
    ensures o.Some? ==> o.value.properties == r.properties[e.name := e.property]
  {
    if e.name in r.properties then None
    else Some(Registry(r.properties[e.name := e.property], r.propertyTypes[e.property := e.propertyType], r.normalizationInfo + InfoOf(e)))
  }

  /** Registrations in order; the first taken name stops everything. */
  function RegisterAll(r: Registry, es: seq<Registration>): Option<Registry>
    decreases |es|
  {
    if es == [] then Some(r)
    else var o := Register(r, es[0]); if o.None? then None else RegisterAll(o.value, es[1..])
  }

  /** Registering a + b is registering a, then b. */
  lemma {:induction false} RegisterAllAppend(r: Registry, a: seq<Registration>, b: seq<Registration>)
    ensures RegisterAll(r, a + b) == if RegisterAll(r, a).None? then None else RegisterAll(RegisterAll(r, a).value, b)
    decreases |a|
  {
    if a == [] {
      assert a + b == b;
    } else {
      assert (a + b)[0] == a[0] && (a + b)[1..] == a[1..] + b;
      var o := Register(r, a[0]);
      if o.Some? {
        RegisterAllAppend(o.value, a[1..], b);
      }
    }
  }

  /** The registered names are new and pairwise distinct. */
  ghost predicate FreshNames(props: map<string, UIProperty>, es: seq<Registration>)
  {
    (forall i :: 0 <= i < |es| ==> es[i].name !in props)
    && (forall i, j :: 0 <= i < j < |es| ==> es[i].name != es[j].name)
  }

  /** After a successful registration: each name maps to its property and the earlier names are kept. */
  ghost predicate Registered(before: map<string, UIProperty>, after: map<string, UIProperty>, es: seq<Registration>)
  {
    (forall i :: 0 <= i < |es| ==> es[i].name in after && after[es[i].name] == es[i].property)
    && (forall n :: n in before ==> n in after && after[n] == before[n])
    && (forall n :: n in after ==> n in before || exists i :: 0 <= i < |es| && es[i].name == n)
  }

  /**
   * Registration succeeds exactly when every name is new and no two are
   * equal, and then each name maps to its property and nothing else changes.
   */
  lemma {:induction false} RegisterAllSpec(r: Registry, es: seq<Registration>)
    ensures RegisterAll(r, es).Some? <==> FreshNames(r.properties, es)
    ensures RegisterAll(r, es).Some? ==> Registered(r.properties, RegisterAll(r, es).value.properties, es)
    decreases |es|
  {
    if es != [] {
      var o := Register(r, es[0]);
      if o.None? {
        assert !FreshNames(r.properties, es) by { assert es[0].name in r.properties; }
      } else {
        var rest := es[1..];
        RegisterAllSpec(o.value, rest);
        var p := o.value.properties;
        assert p == r.properties[es[0].name := es[0].property];
        FreshStep(r.properties, es);
        if RegisterAll(r, es).Some? {
          RegisteredStep(r.properties, p, RegisterAll(r, es).value.properties, es);
        }
      }
    }
  }

  /** FreshNames for es is es[0] being new plus FreshNames for the rest once es[0] is added. */
  lemma FreshStep(props: map<string, UIProperty>, es: seq<Registration>)
    requires es != [] && es[0].name !in props
    ensures FreshNames(props, es) <==> FreshNames(props[es[0].name := es[0].property], es[1..])
  {
    var p := props[es[0].name := es[0].property];
    var rest := es[1..];
    if FreshNames(props, es) {
      forall i | 0 <= i < |rest| ensures rest[i].name !in p {
        assert rest[i] == es[i + 1];
      }
      forall i, j | 0 <= i < j < |rest| ensures rest[i].name != rest[j].name {
        assert rest[i] == es[i + 1] && rest[j] == es[j + 1];
      }
    }
    if FreshNames(p, rest) {
      forall i | 0 <= i < |es| ensures es[i].name !in props {
        if i > 0 { assert es[i] == rest[i - 1]; }
      }
      forall i, j | 0 <= i < j < |es| ensures es[i].name != es[j].name {
        if i == 0 { assert es[j] == rest[j - 1]; } else { assert es[i] == rest[i - 1] && es[j] == rest[j - 1]; }
      }
    }
  }

  /** Registered for es follows from es[0] being added and Registered for the rest. */
  lemma RegisteredStep(props: map<string, UIProperty>, p: map<string, UIProperty>, q: map<string, UIProperty>, es: seq<Registration>)
    requires es != [] && es[0].name !in props && p == props[es[0].name := es[0].property]
    requires Registered(p, q, es[1..]) && FreshNames(p, es[1..])
    ensures Registered(props, q, es)
  {
    var rest := es[1..];
    forall i | 0 <= i < |es| ensures es[i].name in q && q[es[i].name] == es[i].property {
      if i > 0 { assert es[i] == rest[i - 1]; }
    }
    forall n | n in q ensures n in props || exists i :: 0 <= i < |es| && es[i].name == n {
      if n !in p {
        var i :| 0 <= i < |rest| && rest[i].name == n;
        assert es[i + 1] == rest[i];
      } else if n !in props {
        assert es[0].name == n;
      }
    }
  }

  /** UILengthInfo: a length property, its reference property (NoProperty when none) and the reference target. */
  datatype UILengthInfo = UILengthInfo(property: UIProperty, referenceProperty: UIProperty, target: ReferencePropertyTarget)

  /** The last loop of Initialize: a reference is kept only when it is named and registered. */
  function ResolveLengthInfo(info: NormalizationInfo, properties: map<string, UIProperty>): (r: UILengthInfo)
    ensures r.property == info.property
    ensures !IsNullOrWhiteSpace(info.referenceProperty) && info.referenceProperty.value in properties ==>
      r.referenceProperty == properties[info.referenceProperty.value] && r.target == info.referenceTarget
    ensures IsNullOrWhiteSpace(info.referenceProperty) || info.referenceProperty.value !in properties ==>
      r.referenceProperty == NoProperty && r.target == TargetNone
  {
    if !IsNullOrWhiteSpace(info.referenceProperty) && info.referenceProperty.value in properties then
      UILengthInfo(info.property, properties[info.referenceProperty.value], info.referenceTarget)
    else
      UILengthInfo(info.property, NoProperty, TargetNone)
  }

  /** A UIElementPropertyBlock per block accessor field: required unless it is an OptionalPropertyBlockAccessor. */
  datatype BlockField = BlockField(blockType: string, optional: bool)

  /**
   * The UIElementManager registries, after reflection has been replaced by
   * the field descriptions handed in. Every method names the registries it
   * writes; the others keep their values.
   */
  class Manager {
    var properties: map<string, UIProperty>
    var propertyTypes: map<UIProperty, string>
    var normalizationInfo: seq<NormalizationInfo>
    var propertyBlockHashes: map<string, u64>
    var propertyBlockTypes: map<u64, string>
    var globalPropertyBlocks: seq<u64>
    var elementPropertyBlocks: map<u64, seq<UIElementPropertyBlock>>
    var uiLengthNormalizationInfo: seq<UILengthInfo>
    /** The SharedStatic slots that GetPropertyBlock<T> and GetElement<T> read, keyed by type. */
    var blockTypeIndex: map<string, u64>
    var elementTypeIndex: map<string, u64>

    function State(): Registry
      reads this
    {
      Registry(properties, propertyTypes, normalizationInfo)
    }

    constructor ()
      ensures properties == map[] && propertyTypes == map[] && normalizationInfo == []
      ensures propertyBlockHashes == map[] && propertyBlockTypes == map[] && globalPropertyBlocks == []
      ensures elementPropertyBlocks == map[] && uiLengthNormalizationInfo == []
      ensures blockTypeIndex == map[] && elementTypeIndex == map[]
    {
      properties, propertyTypes, normalizationInfo := map[], map[], [];
      propertyBlockHashes, propertyBlockTypes, globalPropertyBlocks := map[], map[], [];
      elementPropertyBlocks, uiLengthNormalizationInfo := map[], [];
      blockTypeIndex, elementTypeIndex := map[], map[];
    }

    /** One properties.Add with the propertyTypes entry and RegisterExtraPropertyData's length info. */
    method Add(e: Registration) returns (ok: bool)
      modifies this`properties, this`propertyTypes, this`normalizationInfo
      ensures ok == Register(old(State()), e).Some?
      ensures ok ==> State() == Register(old(State()), e).value
    {
      if e.name in properties {
        return false;
      }
      properties := properties[e.name := e.property];
      propertyTypes := propertyTypes[e.property := e.propertyType];
      if e.propertyType == LengthType {
        normalizationInfo := normalizationInfo + InfoOf(e);
      }
      return true;
    }

    /** The registrations of one field, in order, stopping where Add fails. */
    method AddAll(es: seq<Registration>) returns (ok: bool)
      modifies this`properties, this`propertyTypes, this`normalizationInfo
      ensures ok == RegisterAll(old(State()), es).Some?
      ensures ok ==> State() == RegisterAll(old(State()), es).value
    {
      var j := 0;
      while j < |es|
        invariant 0 <= j <= |es|
        invariant RegisterAll(old(State()), es) == RegisterAll(State(), es[j..])
      {
        ok := Add(es[j]);
        if !ok {
          return;
        }
        assert es[j..][1..] == es[j + 1..];
        j := j + 1;
      }
      return true;
    }

    /** InitializeProperties: each field's registrations in field order; false where Dictionary.Add would throw. */
    method InitializeProperties(hash: u64, blockName: Option<string>, fields: seq<Field>) returns (ok: bool)
      modifies this`properties, this`propertyTypes, this`normalizationInfo
      ensures ok == RegisterAll(old(State()), BlockRegistrations(hash, blockName, fields)).Some?
      ensures ok ==> State() == RegisterAll(old(State()), BlockRegistrations(hash, blockName, fields)).value
    {
      for i := 0 to |fields|
        invariant RegisterAll(old(State()), BlockRegistrations(hash, blockName, fields))
               == RegisterAll(State(), BlockRegistrations(hash, blockName, fields[i..]))
      {
        var es := FieldRegistrations(hash, blockName, fields[i]);
        assert fields[i..][1..] == fields[i + 1..];
        RegisterAllAppend(State(), es, BlockRegistrations(hash, blockName, fields[i + 1..]));
        ok := AddAll(es);
        if !ok {
          return;
        }
      }
      assert fields[|fields|..] == [];
      return true;
    }

    /**
     * InitializePropertyBlockTypeIndex: records the block's hash in both
     * directions and in its SharedStatic slot, lists it as global when its
     * attribute says so, and registers its properties.
     */
    method InitializePropertyBlockTypeIndex(blockType: string, hash: u64, blockName: Option<string>, global: bool, fields: seq<Field>) returns (ok: bool)
      modifies this`properties, this`propertyTypes, this`normalizationInfo
      modifies this`propertyBlockHashes, this`propertyBlockTypes, this`blockTypeIndex, this`globalPropertyBlocks
      ensures propertyBlockHashes == old(propertyBlockHashes)[blockType := hash]
      ensures propertyBlockTypes == old(propertyBlockTypes)[hash := blockType]
      ensures blockTypeIndex == old(blockTypeIndex)[blockType := hash]
      ensures globalPropertyBlocks == old(globalPropertyBlocks) + (if global then [hash] else [])
      ensures ok == RegisterAll(old(State()), BlockRegistrations(hash, blockName, fields)).Some?
      ensures ok ==> State() == RegisterAll(old(State()), BlockRegistrations(hash, blockName, fields)).value
    {
      propertyBlockHashes := propertyBlockHashes[blockType := hash];
      propertyBlockTypes := propertyBlockTypes[hash := blockType];
      blockTypeIndex := blockTypeIndex[blockType := hash];
      if global {
        globalPropertyBlocks := globalPropertyBlocks + [hash];
      }
      ok := InitializeProperties(hash, blockName, fields);
    }

    /**
     * The element half of InitializeUIElementIndex: the element's SharedStatic
     * slot, and one UIElementPropertyBlock per accessor field, in field order,
     * with the block's registered hash.
     */
    method InitializeUIElementIndex(elementType: string, hash: u64, blockFields: seq<BlockField>)
      requires forall i :: 0 <= i < |blockFields| ==> blockFields[i].blockType in propertyBlockHashes
      modifies this`elementTypeIndex, this`elementPropertyBlocks
      ensures elementTypeIndex == old(elementTypeIndex)[elementType := hash]
      ensures elementPropertyBlocks == old(elementPropertyBlocks)[hash :=
        (if hash in old(elementPropertyBlocks) then old(elementPropertyBlocks)[hash] else []) + ElementBlocks(blockFields, propertyBlockHashes)]
    {
      elementTypeIndex := elementTypeIndex[elementType := hash];
      var added: seq<UIElementPropertyBlock> := [];
      for i := 0 to |blockFields|
        invariant added == ElementBlocks(blockFields[..i], propertyBlockHashes)
      {
        assert blockFields[..i + 1][..i] == blockFields[..i];
        added := added + [NewElementPropertyBlock(propertyBlockHashes[blockFields[i].blockType], !blockFields[i].optional)];
      }
      assert blockFields[..|blockFields|] == blockFields;
      var existing := if hash in elementPropertyBlocks then elementPropertyBlocks[hash] else [];
      elementPropertyBlocks := elementPropertyBlocks[hash := existing + added];
    }

    /** The last loop of Initialize: every collected length gets its resolved UILengthInfo, in order. */
    method ResolveNormalizationInfo()
      modifies this`uiLengthNormalizationInfo
      ensures uiLengthNormalizationInfo == old(uiLengthNormalizationInfo) + ResolvedInfos(normalizationInfo, properties)
    {
      for i := 0 to |normalizationInfo|
        invariant uiLengthNormalizationInfo == old(uiLengthNormalizationInfo) + ResolvedInfos(normalizationInfo[..i], properties)
      {
        assert normalizationInfo[..i + 1][..i] == normalizationInfo[..i];
        uiLengthNormalizationInfo := uiLengthNormalizationInfo + [ResolveLengthInfo(normalizationInfo[i], properties)];
      }
      assert normalizationInfo[..|normalizationInfo|] == normalizationInfo;
    }

    /** GetPropertyBlock<T>: the block's SharedStatic slot, 0 when never set. */
    function GetPropertyBlockOf(blockType: string): u64
      reads this
    {
      if blockType in blockTypeIndex then blockTypeIndex[blockType] else 0
    }

    /** GetElement<T> as written: it reads the property-block slot of T, not its element slot. */
    function GetElementAsWritten(elementType: string): (r: u64)
      reads this
      ensures r == GetPropertyBlockOf(elementType)
    {
      if elementType in blockTypeIndex then blockTypeIndex[elementType] else 0
    }

    /** GetElement<T> as intended: the element slot that InitializeUIElementIndex fills. */
    function GetElement(elementType: string): (r: u64)
      reads this
      ensures elementType in elementTypeIndex ==> r == elementTypeIndex[elementType]
      ensures elementType !in elementTypeIndex ==> r == 0
    {
      if elementType in elementTypeIndex then elementTypeIndex[elementType] else 0
    }
  }

  /** ResolveLengthInfo over a list of collected lengths. */
  function ResolvedInfos(infos: seq<NormalizationInfo>, properties: map<string, UIProperty>): (r: seq<UILengthInfo>)
    ensures |r| == |infos|
    ensures forall i :: 0 <= i < |infos| ==> r[i] == ResolveLengthInfo(infos[i], properties)
  {
    if infos == [] then [] else ResolvedInfos(infos[..|infos| - 1], properties) + [ResolveLengthInfo(infos[|infos| - 1], properties)]
  }

  /** The UIElementPropertyBlock list for an element's accessor fields. */
  function ElementBlocks(fields: seq<BlockField>, hashes: map<string, u64>): (r: seq<UIElementPropertyBlock>)
    requires forall i :: 0 <= i < |fields| ==> fields[i].blockType in hashes
    ensures |r| == |fields|
    ensures forall i :: 0 <= i < |fields| ==> r[i].blockHash == hashes[fields[i].blockType] && (IsRequired(r[i]) <==> !fields[i].optional)
  {
    if fields == [] then []
    else ElementBlocks(fields[..|fields| - 1], hashes) + [NewElementPropertyBlock(hashes[fields[|fields| - 1].blockType], !fields[|fields| - 1].optional)]
  }

  /**
   * GetElement<T> returns 0 for a registered element type that is not also a
   * property block, where the element's own hash is expected.
   */
  lemma GetElementReadsWrongSlot(m: Manager, elementType: string)
    requires elementType in m.elementTypeIndex && m.elementTypeIndex[elementType] != 0
    requires elementType !in m.blockTypeIndex
    ensures m.GetElementAsWritten(elementType) == 0
    ensures m.GetElement(elementType) == m.elementTypeIndex[elementType] != m.GetElementAsWritten(elementType)
  {
  }

  /** After InitializeUIElementIndex, the corrected GetElement returns the hash it was given. */
  method GetElementAfterRegistration(m: Manager, elementType: string, hash: u64, blockFields: seq<BlockField>) returns (r: u64)
    requires forall i :: 0 <= i < |blockFields| ==> blockFields[i].blockType in m.propertyBlockHashes
    modifies m
    ensures r == hash
  {
    m.InitializeUIElementIndex(elementType, hash, blockFields);
    r := m.GetElement(elementType);
  }
}
