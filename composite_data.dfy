/**
 * CompositeData2/3/4<TValue>: value structs holding two, three or four
 * values of one type under the names X, Y, Z and W, with the structural
 * Equals and the GetHashCode Visual Studio generates for them. A property
 * setter on a struct variable replaces that variable's value, so a setter
 * is a function from the old value to the new one. Equals takes any object:
 * Boxed stands for what the argument can be.
 */
module CompositeData {
  import opened Bytes

  datatype CompositeData2<T> = CompositeData2(x: T, y: T)
  datatype CompositeData3<T> = CompositeData3(x: T, y: T, z: T)
  datatype CompositeData4<T> = CompositeData4(x: T, y: T, z: T, w: T)

  /** The argument of Equals: a boxed composite of the same TValue, or any other object. */
  datatype Boxed<T> = Box2(d2: CompositeData2<T>) | Box3(d3: CompositeData3<T>) | Box4(d4: CompositeData4<T>) | Other

  const HashSeed: int := -1965440868
  const HashFactor: int := -1521134295

  /** hashCode = hashCode * -1521134295 + h, in unchecked 32-bit int arithmetic. */
  function HashStep(hashCode: int, h: int): (r: int)
    ensures -TwoTo31 <= r < TwoTo31
  {
    Wrap32(hashCode * HashFactor + h)
  }

  // ---------------------------------------------------------------- CompositeData2

  /** The X setter: the value with x replaced. */
  function SetX2<T>(d: CompositeData2<T>, value: T): (r: CompositeData2<T>)
    ensures r.x == value && r.y == d.y
  {
    d.(x := value)
  }

  /** The Y setter: the value with y replaced. */
  function SetY2<T>(d: CompositeData2<T>, value: T): (r: CompositeData2<T>)
    ensures r.y == value && r.x == d.x
  {
    d.(y := value)
  }

  /** Equals: the argument is a CompositeData2 of the same TValue whose components all equal these. */
  predicate Equals2<T(==)>(d: CompositeData2<T>, obj: Boxed<T>)
  {
    obj.Box2? && d.x == obj.d2.x && d.y == obj.d2.y
  }

  /** GetHashCode, given the components' own hash codes. */
  function GetHashCode2<T>(d: CompositeData2<T>, hash: T -> int): (r: int)
    ensures -TwoTo31 <= r < TwoTo31
  {
    HashStep(HashStep(HashSeed, hash(d.x)), hash(d.y))
  }

  /** Equals holds exactly for the same value boxed, so it is reflexive and symmetric and fails against any other type. */
  lemma Equality2<T>(a: CompositeData2<T>, b: CompositeData2<T>, obj: Boxed<T>)
    ensures Equals2(a, Box2(b)) <==> a == b
    ensures Equals2(a, Box2(b)) == Equals2(b, Box2(a))
    ensures !obj.Box2? ==> !Equals2(a, obj)
  {
  }

  /** Equal values have equal hash codes. */
  lemma HashAgrees2<T>(a: CompositeData2<T>, b: CompositeData2<T>, hash: T -> int)
    requires Equals2(a, Box2(b))
    ensures GetHashCode2(a, hash) == GetHashCode2(b, hash)
  {
  }

  // ---------------------------------------------------------------- CompositeData3

  function SetX3<T>(d: CompositeData3<T>, value: T): (r: CompositeData3<T>)
    ensures r.x == value && r.y == d.y && r.z == d.z
  {
    d.(x := value)
  }

  function SetY3<T>(d: CompositeData3<T>, value: T): (r: CompositeData3<T>)
    ensures r.y == value && r.x == d.x && r.z == d.z
  {
    d.(y := value)
  }

  function SetZ3<T>(d: CompositeData3<T>, value: T): (r: CompositeData3<T>)
    ensures r.z == value && r.x == d.x && r.y == d.y
  {
    d.(z := value)
  }

  predicate Equals3<T(==)>(d: CompositeData3<T>, obj: Boxed<T>)
  {
    obj.Box3? && d.x == obj.d3.x && d.y == obj.d3.y && d.z == obj.d3.z
  }

  function GetHashCode3<T>(d: CompositeData3<T>, hash: T -> int): (r: int)
    ensures -TwoTo31 <= r < TwoTo31
  {
    HashStep(HashStep(HashStep(HashSeed, hash(d.x)), hash(d.y)), hash(d.z))
  }

  lemma Equality3<T>(a: CompositeData3<T>, b: CompositeData3<T>, obj: Boxed<T>)
    ensures Equals3(a, Box3(b)) <==> a == b
    ensures Equals3(a, Box3(b)) == Equals3(b, Box3(a))
    ensures !obj.Box3? ==> !Equals3(a, obj)
  {
  }

  lemma HashAgrees3<T>(a: CompositeData3<T>, b: CompositeData3<T>, hash: T -> int)
    requires Equals3(a, Box3(b))
    ensures GetHashCode3(a, hash) == GetHashCode3(b, hash)
  {
  }

  // ---------------------------------------------------------------- CompositeData4

  function SetX4<T>(d: CompositeData4<T>, value: T): (r: CompositeData4<T>)
    ensures r.x == value && r.y == d.y && r.z == d.z && r.w == d.w
  {
    d.(x := value)
  }

  function SetY4<T>(d: CompositeData4<T>, value: T): (r: CompositeData4<T>)
    ensures r.y == value && r.x == d.x && r.z == d.z && r.w == d.w
  {
    d.(y := value)
  }

  function SetZ4<T>(d: CompositeData4<T>, value: T): (r: CompositeData4<T>)
    ensures r.z == value && r.x == d.x && r.y == d.y && r.w == d.w
  {
    d.(z := value)
  }

  function SetW4<T>(d: CompositeData4<T>, value: T): (r: CompositeData4<T>)
    ensures r.w == value && r.x == d.x && r.y == d.y && r.z == d.z
  {
    d.(w := value)
  }

  predicate Equals4<T(==)>(d: CompositeData4<T>, obj: Boxed<T>)
  {
    obj.Box4? && d.x == obj.d4.x && d.y == obj.d4.y && d.z == obj.d4.z && d.w == obj.d4.w
  }

  function GetHashCode4<T>(d: CompositeData4<T>, hash: T -> int): (r: int)
    ensures -TwoTo31 <= r < TwoTo31
  {
    HashStep(HashStep(HashStep(HashStep(HashSeed, hash(d.x)), hash(d.y)), hash(d.z)), hash(d.w))
  }

  lemma Equality4<T>(a: CompositeData4<T>, b: CompositeData4<T>, obj: Boxed<T>)
    ensures Equals4(a, Box4(b)) <==> a == b
    ensures Equals4(a, Box4(b)) == Equals4(b, Box4(a))
    ensures !obj.Box4? ==> !Equals4(a, obj)
  {
  }

  lemma HashAgrees4<T>(a: CompositeData4<T>, b: CompositeData4<T>, hash: T -> int)
    requires Equals4(a, Box4(b))
    ensures GetHashCode4(a, hash) == GetHashCode4(b, hash)
  {
  }

  /** Setting one component keeps a value equal to the old one exactly when the component already held that value. */
  lemma SetKeepsEquality<T>(d: CompositeData4<T>, value: T)
    ensures Equals4(SetX4(d, value), Box4(d)) <==> d.x == value
    ensures Equals4(SetW4(d, value), Box4(d)) <==> d.w == value
  {
  }
}
