/**
 * The .uim model importer (UIModelImporter / UIModel): property type names
 * are resolved through the C# keyword aliases (with a cache on each
 * property), each property gets the string provider or the value provider,
 * and a model without a name or an assembly gets them from its asset path
 * and the product name.
 */
module ModelImporter {
  import opened Bytes

  /** The C# keyword aliases and the full names they stand for. */
  const Aliases: map<string, string> := map[
    "sbyte" := "System.SByte", "short" := "System.Int16", "int" := "System.Int32", "long" := "System.Int64",
    "byte" := "System.Byte", "ushort" := "System.UInt16", "uint" := "System.UInt32", "ulong" := "System.UInt64",
    "float" := "System.Single", "double" := "System.Double", "string" := "System.String"]

  const StringTypeName: string := "System.String"

  const ArraySuffix: string := "[]"

  predicate EndsWith(s: string, suffix: string)
  {
    |suffix| <= |s| && s[|s| - |suffix|..] == suffix
  }

  /** The resolution ResolvedType computes on a cache miss. */
  function Resolve(t: string): string
  {
    if EndsWith(t, ArraySuffix) then
      var stem := t[..|t| - 2];
      if stem in Aliases then Aliases[stem] + ArraySuffix else t
    else if t in Aliases then Aliases[t]
    else t
  }

  /** No alias key is an array name, and no full name is an alias key. */
  lemma AliasShapes()
    ensures forall k :: k in Aliases ==> !EndsWith(k, ArraySuffix)
    ensures forall k :: k in Aliases ==> Aliases[k] !in Aliases && !EndsWith(Aliases[k], ArraySuffix)
  {
    forall k | k in Aliases
      ensures !EndsWith(k, ArraySuffix) && Aliases[k] !in Aliases && !EndsWith(Aliases[k], ArraySuffix)
    {
      assert k[|k| - 1] != ']';
      assert Aliases[k][|Aliases[k]| - 1] != ']';
    }
  }

  /** Every alias resolves to its full name, and an array of an alias to the full name's array. */
  lemma AliasesResolve(k: string)
    requires k in Aliases
    ensures Resolve(k) == Aliases[k]
    ensures Resolve(k + ArraySuffix) == Aliases[k] + ArraySuffix
  {
    AliasShapes();
    var t := k + ArraySuffix;
    assert t[|t| - 2..] == ArraySuffix && t[..|t| - 2] == k;
  }

  /** A type name that is neither an alias nor an array of one is kept as written. */
  lemma UnknownKept(t: string)
    requires t !in Aliases && !(EndsWith(t, ArraySuffix) && t[..|t| - 2] in Aliases)
    ensures Resolve(t) == t
  {
  }

  /** Resolving twice gives the same name as resolving once. */
  lemma ResolveIdempotent(t: string)
    ensures Resolve(Resolve(t)) == Resolve(t)
  {
    AliasShapes();
    var r := Resolve(t);
    if EndsWith(t, ArraySuffix) && t[..|t| - 2] in Aliases {
      var full := Aliases[t[..|t| - 2]];
      assert r == full + ArraySuffix;
      assert r[..|r| - 2] == full && r[|r| - 2..] == ArraySuffix;
    }
  }

  /** A resolved array type is the resolved element type's array, for an alias and an unknown name alike. */
  lemma ResolveArray(t: string)
    requires !EndsWith(t, ArraySuffix)
    ensures Resolve(t + ArraySuffix) == Resolve(t) + ArraySuffix
  {
    var a := t + ArraySuffix;
    assert a[|a| - 2..] == ArraySuffix && a[..|a| - 2] == t;
  }

  /** What a read of ResolvedType answers, given the cache and the type attribute; None is the exception a null type raises. */
  function Resolution(cache: Option<string>, t: Option<string>): Option<string>
  {
    if cache.Some? then cache
    else if t.Some? then Some(Resolve(t.value))
    else None
  }

  /** UIModel.Property: the XML attributes and the cached resolution. */
  class Property {
    var name: Option<string>
    var typeName: Option<string>
    var value: Option<string>
    var resolvedType: Option<string>

    constructor(name: Option<string>, typeName: Option<string>, value: Option<string>)
      ensures this.name == name && this.typeName == typeName && this.value == value && resolvedType.None?
    {
      this.name := name;
      this.typeName := typeName;
      this.value := value;
      resolvedType := None;
    }

    function Resolved(): Option<string>
      reads this
    {
      Resolution(resolvedType, typeName)
    }

    /** ResolvedType: a cache miss resolves the type and stores it; None stands for the exception of a null type. */
    method ResolvedType() returns (r: Option<string>)
      modifies this
      ensures r == old(Resolved())
      ensures resolvedType == (if r.Some? then r else old(resolvedType))
      ensures name == old(name) && typeName == old(typeName) && value == old(value)
    {
      if resolvedType.None? {
        if typeName.None? {
          return None;
        }
        var t := typeName.value;
        if EndsWith(t, ArraySuffix) {
          var stem := t[..|t| - 2];
          if stem in Aliases {
            resolvedType := Some(Aliases[stem] + ArraySuffix);
          } else {
            resolvedType := Some(t);
          }
        } else {
          if t in Aliases {
            resolvedType := Some(Aliases[t]);
          } else {
            resolvedType := Some(t);
          }
        }
      }
      return resolvedType;
    }
  }

  /** Once a read has succeeded, later reads answer the same, whatever the type attribute becomes. */
  lemma CachedReads(cache: Option<string>, t: Option<string>, t': Option<string>)
    requires Resolution(cache, t).Some?
    ensures Resolution(Resolution(cache, t), t') == Resolution(cache, t)
  {
  }

  datatype Provider = StringProvider | ValueProvider

  /** GetProvider: the providers table holds only the string provider, under System.String. */
  function GetProvider(resolvedType: string): Provider
  {
    if resolvedType == StringTypeName then StringProvider else ValueProvider
  }

  /** Of the aliases only `string` gets the string provider; the array of any alias gets the value provider. */
  lemma Providers(k: string)
    requires k in Aliases
    ensures GetProvider(Resolve(k)) == StringProvider <==> k == "string"
    ensures GetProvider(Resolve(k + ArraySuffix)) == ValueProvider
  {
    AliasesResolve(k);
    AliasShapes();
    var full := Aliases[k];
    assert (full + ArraySuffix)[|full| + 1] == ']';
  }

  /** The full name System.String is kept as written, and so gets the string provider. */
  lemma FullStringProvider()
    ensures Resolve(StringTypeName) == StringTypeName
    ensures GetProvider(Resolve(StringTypeName)) == StringProvider
  {
    AliasShapes();
    assert Aliases["string"] == StringTypeName;
  }

  /** What the asset gets for a property: its provider, its name and its resolved type. */
  datatype AssetProperty = AssetProperty(provider: Provider, name: Option<string>, resolvedType: string)

  datatype ModelAsset = ModelAsset(modelName: Option<string>, assembly: Option<string>, properties: seq<AssetProperty>)

  datatype Error = NullModel | NullType | SubstringOutOfRange

  datatype Result<T> = Success(value: T) | Failure(error: Error)

  /** UIModel: the properties, the assembly and the model name. */
  class Model {
    var properties: seq<Property>
    var assembly: Option<string>
    var name: Option<string>

    constructor(properties: seq<Property>, assembly: Option<string>, name: Option<string>)
      ensures this.properties == properties && this.assembly == assembly && this.name == name
    {
      this.properties := properties;
      this.assembly := assembly;
      this.name := name;
    }

    /**
     * ToAsset: one asset property per model property, in order, with the
     * provider its resolved type selects; a property with a null type aborts
     * it. Each property's cache ends up holding its resolution.
     */
    method ToAsset() returns (r: Result<ModelAsset>)
      modifies set p | p in properties
      ensures r.Success? <==> forall i :: 0 <= i < |properties| ==> old(properties[i].Resolved()).Some?
      ensures r.Failure? ==> r.error == NullType
      ensures r.Success? ==>
                r.value.modelName == name && r.value.assembly == assembly && |r.value.properties| == |properties|
                && forall i :: 0 <= i < |properties| ==>
                     var res := old(properties[i].Resolved()).value;
                     r.value.properties[i] == AssetProperty(GetProvider(res), properties[i].name, res)
      ensures forall p :: p in properties ==>
                p.name == old(p.name) && p.typeName == old(p.typeName) && p.value == old(p.value)
                && p.Resolved() == old(p.Resolved())
                && (p.resolvedType == old(p.resolvedType) || p.resolvedType == old(p.Resolved()))
    {
      var out: seq<AssetProperty> := [];
      for i := 0 to |properties|
        invariant |out| == i
        invariant forall j :: 0 <= j < i ==> old(properties[j].Resolved()).Some?
        invariant forall j :: 0 <= j < i ==>
                    var res := old(properties[j].Resolved()).value;
                    out[j] == AssetProperty(GetProvider(res), properties[j].name, res)
        invariant forall p :: p in properties ==>
                    p.name == old(p.name) && p.typeName == old(p.typeName) && p.value == old(p.value)
                    && p.Resolved() == old(p.Resolved())
                    && (p.resolvedType == old(p.resolvedType) || p.resolvedType == old(p.Resolved()))
      {
        var property := properties[i];
        var resolved := property.ResolvedType();
        if resolved.None? {
          return Failure(NullType);
        }
        out := out + [AssetProperty(GetProvider(resolved.value), property.name, resolved.value)];
      }
      return Success(ModelAsset(name, assembly, out));
    }
  }

  // ---------------------------------------------------------------------------
  // Name and assembly defaulting
  // ---------------------------------------------------------------------------

  /** String.LastIndexOf(char): the last position of c, or -1. */
  function LastIndexOf(s: string, c: char): (r: int)
    ensures -1 <= r < |s|
    ensures r >= 0 ==> s[r] == c
    ensures forall k :: r < k < |s| ==> s[k] != c
  {
    if s == [] then -1
    else if s[|s| - 1] == c then |s| - 1
    else LastIndexOf(s[..|s| - 1], c)
  }

  /** The position of the last c is the one after which no c follows. */
  lemma LastIs(s: string, c: char, r: int)
    requires -1 <= r < |s| && (r >= 0 ==> s[r] == c) && forall k :: r < k < |s| ==> s[k] != c
    ensures LastIndexOf(s, c) == r
  {
  }

  /**
   * The default model name: the text between the last '/' and the last '.'
   * of the asset path. Substring throws when the last '.' comes before the
   * name's start (no extension in the file name).
   */
  function DefaultName(path: string): Result<string>
  {
    var nameStart := LastIndexOf(path, '/') + 1;
    var nameEnd := LastIndexOf(path, '.');
    if nameEnd - nameStart < 0 then Failure(SubstringOutOfRange) else Success(path[nameStart..nameEnd])
  }

  /** The default assembly name of a model. */
  function DefaultAssembly(productName: string, name: string): string
  {
    productName + ".UI.Models." + name
  }

  /** A path `dir/stem.ext`, whose extension holds no '.' or '/', defaults its name to stem. */
  lemma DefaultNameStem(dir: string, stem: string, ext: string)
    requires dir == [] || dir[|dir| - 1] == '/'
    requires '/' !in stem && '/' !in ext && '.' !in ext
    ensures DefaultName(dir + stem + "." + ext) == Success(stem)
  {
    var path := dir + stem + "." + ext;
    var dot := |dir| + |stem|;
    assert path[dot] == '.';
    forall k | dot < k < |path|
      ensures path[k] != '.' && path[k] != '/'
    {
      assert path[k] == ext[k - dot - 1];
    }
    LastIs(path, '.', dot);
    forall k | |dir| <= k < |path|
      ensures path[k] != '/'
    {
      if k < dot {
        assert path[k] == stem[k - |dir|];
      }
    }
    LastIs(path, '/', |dir| - 1);
    assert path[|dir|..dot] == stem;
  }

  /** The default name fails exactly when no '.' follows the last '/', and never holds a '/'. */
  lemma DefaultNameShape(path: string)
    ensures DefaultName(path).Failure? <==> forall k :: LastIndexOf(path, '/') < k < |path| ==> path[k] != '.'
    ensures DefaultName(path).Success? ==> '/' !in DefaultName(path).value
  {
    var nameStart := LastIndexOf(path, '/') + 1;
    var nameEnd := LastIndexOf(path, '.');
    if nameEnd >= nameStart {
      var n := path[nameStart..nameEnd];
      forall i | 0 <= i < |n|
        ensures n[i] != '/'
      {
        assert n[i] == path[nameStart + i];
      }
    }
  }

  /** The assembly default names the model's namespace under the product, ending in the model name. */
  lemma DefaultAssemblyEnds(productName: string, name: string)
    ensures var a := DefaultAssembly(productName, name);
            EndsWith(a, "." + name) && a[..|productName|] == productName
  {
    var a := DefaultAssembly(productName, name);
    assert a[|a| - |name| - 1..] == "." + name;
  }

  /**
   * OnImportAsset from a deserialised model: a null model is an import error;
   * a missing name is taken from the path and a missing assembly from the
   * product and the name, then the asset is built.
   */
  method ImportModel(path: string, productName: string, model: Option<Model>) returns (r: Result<ModelAsset>)
    modifies if model.Some? then {model.value} else {}
    modifies if model.Some? then set p | p in model.value.properties else {}
    ensures model.None? ==> r == Failure(NullModel)
    ensures model.Some? && old(model.value.name).None? && DefaultName(path).Failure? ==> r == Failure(SubstringOutOfRange)
    ensures model.Some? && r.Success? ==>
              var m := model.value;
              var name := if old(m.name).Some? then old(m.name).value else DefaultName(path).value;
              m.name == Some(name)
              && m.assembly == (if old(m.assembly).Some? then old(m.assembly) else Some(DefaultAssembly(productName, name)))
              && r.value.modelName == m.name && r.value.assembly == m.assembly
              && |r.value.properties| == |m.properties|
  {
    if model.None? {
      return Failure(NullModel);
    }
    var m := model.value;
    if m.name.None? {
      var named := DefaultName(path);
      if named.Failure? {
        return Failure(named.error);
      }
      m.name := Some(named.value);
    }
    if m.assembly.None? {
      m.assembly := Some(DefaultAssembly(productName, m.name.value));
    }
    r := m.ToAsset();
  }
}
