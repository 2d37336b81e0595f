/** The Sphynx pixel-format table (`Sphynx::Graphics`): one FormatInfo per
    Format in enum order, a linear lookup, and accessors that fall back to
    "Unknown", 0 and false when the lookup finds nothing. */
module SphynxFormat {

  /** `ComponentType`. */
  datatype ComponentType = Unknown | UNorm | SNorm | UInt | SInt | Float | Depth | Stencil

  /** `Format`: an enum class over int; its enumerators in declaration
      order, `Count` closing the enumeration. */
  newtype Format = x: int | 0 <= x <= 39

  const Undefined: Format := 0
  const R8Unorm: Format := 1
  const R8Snorm: Format := 2
  const R8Uint: Format := 3
  const R8Sint: Format := 4
  const R8G8Unorm: Format := 5
  const R8G8Snorm: Format := 6
  const R8G8Uint: Format := 7
  const R8G8Sint: Format := 8
  const R8G8B8A8Unorm: Format := 9
  const R8G8B8A8Snorm: Format := 10
  const R8G8B8A8Uint: Format := 11
  const R8G8B8A8Sint: Format := 12
  const R8G8B8A8Srgb: Format := 13
  const B8G8R8A8Unorm: Format := 14
  const B8G8R8A8Srgb: Format := 15
  const A2R10G10B10Unorm: Format := 16
  const R16Float: Format := 17
  const R16Uint: Format := 18
  const R16Sint: Format := 19
  const R16G16Float: Format := 20
  const R16G16Uint: Format := 21
  const R16G16Sint: Format := 22
  const R16G16B16A16Float: Format := 23
  const R16G16B16A16Uint: Format := 24
  const R16G16B16A16Sint: Format := 25
  const R32Uint: Format := 26
  const R32Sint: Format := 27
  const R32Float: Format := 28
  const R32G32Uint: Format := 29
  const R32G32Sint: Format := 30
  const R32G32Float: Format := 31
  const R32G32B32A32Uint: Format := 32
  const R32G32B32A32Sint: Format := 33
  const R32G32B32A32Float: Format := 34
  const D16Unorm: Format := 35
  const D24UnormS8Uint: Format := 36
  const D32Sfloat: Format := 37
  const D32SfloatS8Uint: Format := 38
  const Count: Format := 39

  /** One row of `formatTable`. */
  datatype FormatInfo = FormatInfo(
    format: Format,
    name: string,
    componentType: ComponentType,
    size: nat,
    channels: nat,
    isDepth: bool,
    isSrgb: bool)

  /** `formatTable`, row by row. */
  const FormatTable: seq<FormatInfo> := [    FormatInfo(Undefined, "Undefined", Unknown, 0, 0, false, false),
    FormatInfo(R8Unorm, "R8Unorm", UNorm, 1, 1, false, false),
    FormatInfo(R8Snorm, "R8Snorm", SNorm, 1, 1, false, false),
    FormatInfo(R8Uint, "R8Uint", UInt, 1, 1, false, false),
    FormatInfo(R8Sint, "R8Sint", SInt, 1, 1, false, false),
    FormatInfo(R8G8Unorm, "R8G8Unorm", UNorm, 2, 2, false, false),
    FormatInfo(R8G8Snorm, "R8G8Snorm", SNorm, 2, 2, false, false),
    FormatInfo(R8G8Uint, "R8G8Uint", UInt, 2, 2, false, false),
    FormatInfo(R8G8Sint, "R8G8Sint", SInt, 2, 2, false, false),
    FormatInfo(R8G8B8A8Unorm, "R8G8B8A8Unorm", UNorm, 4, 4, false, false),
    FormatInfo(R8G8B8A8Snorm, "R8G8B8A8Snorm", SNorm, 4, 4, false, false),
    FormatInfo(R8G8B8A8Uint, "R8G8B8A8Uint", UInt, 4, 4, false, false),
    FormatInfo(R8G8B8A8Sint, "R8G8B8A8Sint", SInt, 4, 4, false, false),
    FormatInfo(R8G8B8A8Srgb, "R8G8B8A8Srgb", UNorm, 4, 4, false, true),
    FormatInfo(B8G8R8A8Unorm, "B8G8R8A8Unorm", UNorm, 4, 4, false, false),
    FormatInfo(B8G8R8A8Srgb, "B8G8R8A8Srgb", UNorm, 4, 4, false, true),
    FormatInfo(A2R10G10B10Unorm, "A2R10G10B10Unorm", UNorm, 4, 4, false, false),
    FormatInfo(R16Float, "R16Float", Float, 2, 1, false, false),
    FormatInfo(R16Uint, "R16Uint", UInt, 2, 1, false, false),
    FormatInfo(R16Sint, "R16Sint", SInt, 2, 1, false, false),
    FormatInfo(R16G16Float, "R16G16Float", Float, 4, 2, false, false),
    FormatInfo(R16G16Uint, "R16G16Uint", UInt, 4, 2, false, false),
    FormatInfo(R16G16Sint, "R16G16Sint", SInt, 4, 2, false, false),
    FormatInfo(R16G16B16A16Float, "R16G16B16A16Float", Float, 8, 4, false, false),
    FormatInfo(R16G16B16A16Uint, "R16G16B16A16Uint", UInt, 8, 4, false, false),
    FormatInfo(R16G16B16A16Sint, "R16G16B16A16Sint", SInt, 8, 4, false, false),
    FormatInfo(R32Uint, "R32Uint", UInt, 4, 1, false, false),
    FormatInfo(R32Sint, "R32Sint", SInt, 4, 1, false, false),
    FormatInfo(R32Float, "R32Float", Float, 4, 1, false, false),
    FormatInfo(R32G32Uint, "R32G32Uint", UInt, 8, 2, false, false),
    FormatInfo(R32G32Sint, "R32G32Sint", SInt, 8, 2, false, false),
    FormatInfo(R32G32Float, "R32G32Float", Float, 8, 2, false, false),
    FormatInfo(R32G32B32A32Uint, "R32G32B32A32Uint", UInt, 16, 4, false, false),
    FormatInfo(R32G32B32A32Sint, "R32G32B32A32Sint", SInt, 16, 4, false, false),
    FormatInfo(R32G32B32A32Float, "R32G32B32A32Float", Float, 16, 4, false, false),
    FormatInfo(D16Unorm, "D16Unorm", Depth, 2, 1, true, false),
    FormatInfo(D24UnormS8Uint, "D24UnormS8Uint", Depth, 4, 2, true, false),
    FormatInfo(D32Sfloat, "D32Sfloat", Depth, 4, 1, true, false),
    FormatInfo(D32SfloatS8Uint, "D32SfloatS8Uint", Depth, 5, 2, true, false)
  ]
  datatype Option<T> = None | Some(value: T)

  /** The table lists the formats in enum order, one row each. */
  lemma TableInEnumOrder()
    ensures |FormatTable| == Count as int
    ensures forall i :: 0 <= i < |FormatTable| ==> FormatTable[i].format as int == i
  {
  }

  /** The first row at or after `i` whose format is `f`, if any: the
      meaning of the range-for with early return in `getFormatInfo`. */
  function Find(f: Format, i: nat): (r: Option<nat>)
    requires i <= |FormatTable|
    ensures r.Some? ==> i <= r.value < |FormatTable| && FormatTable[r.value].format == f
    ensures r.Some? ==> forall j :: i <= j < r.value ==> FormatTable[j].format != f
    ensures r.None? ==> forall j :: i <= j < |FormatTable| ==> FormatTable[j].format != f
    decreases |FormatTable| - i
  {
    if i == |FormatTable| then None
    else if FormatTable[i].format == f then Some(i)
    else Find(f, i + 1)
  }

  /** `getFormatInfo` as a value: the row found, or null (None). */
  function Info(f: Format): Option<FormatInfo>
  {
    match Find(f, 0)
    case Some(i) => Some(FormatTable[i])
    case None => None
  }

  /** Every format but Count is found at its own position, which is its
      underlying value; Count, which has no row, is not found. */
  lemma LookupFindsOwnRow(f: Format)
    ensures f == Count ==> Find(f, 0) == None
    ensures f != Count ==> Find(f, 0) == Some(f as int)
  {
    TableInEnumOrder();
    if f != Count {
      assert FormatTable[f as int].format == f;
    }
  }

  /** `getFormatInfo(fmt)`: scans the table in order and returns the first
      row whose format is `fmt`, or null when there is none. */
  method GetFormatInfo(f: Format) returns (r: Option<FormatInfo>)
    ensures f == Count ==> r == None
    ensures f != Count ==> r == Some(FormatTable[f as int]) && r.value.format == f
    ensures r == Info(f)
  {
    LookupFindsOwnRow(f);
    var i := 0;
    while i < |FormatTable|
      invariant i <= |FormatTable|
      invariant forall j :: 0 <= j < i ==> FormatTable[j].format != f
    {
      if FormatTable[i].format == f {
        return Some(FormatTable[i]);
      }
      i := i + 1;
    }
    return None;
  }

  /** `formatName`. */
  function FormatName(f: Format): string
  {
    if Info(f).Some? then Info(f).value.name else "Unknown"
  }

  /** `componentType`. */
  function ComponentTypeOf(f: Format): ComponentType
  {
    if Info(f).Some? then Info(f).value.componentType else Unknown
  }

  /** `formatSize`. */
  function FormatSize(f: Format): nat
  {
    if Info(f).Some? then Info(f).value.size else 0
  }

  /** `formatChannels`. */
  function FormatChannels(f: Format): nat
  {
    if Info(f).Some? then Info(f).value.channels else 0
  }

  /** `isDepthFormat`. */
  function IsDepthFormat(f: Format): bool
  {
    if Info(f).Some? then Info(f).value.isDepth else false
  }

  /** `isSrgbFormat`. */
  function IsSrgbFormat(f: Format): bool
  {
    if Info(f).Some? then Info(f).value.isSrgb else false
  }

  /** A listed format's accessors read its own row. */
  lemma AccessorsReadOwnRow(f: Format)
    requires f != Count
    ensures FormatName(f) == FormatTable[f as int].name
    ensures ComponentTypeOf(f) == FormatTable[f as int].componentType
    ensures FormatSize(f) == FormatTable[f as int].size
    ensures FormatChannels(f) == FormatTable[f as int].channels
    ensures IsDepthFormat(f) == FormatTable[f as int].isDepth
    ensures IsSrgbFormat(f) == FormatTable[f as int].isSrgb
  {
    LookupFindsOwnRow(f);
  }

  /** The failed lookup (only Count) gives the fallbacks. */
  lemma CountGivesFallbacks()
    ensures Info(Count) == None
    ensures FormatName(Count) == "Unknown" && ComponentTypeOf(Count) == Unknown
    ensures FormatSize(Count) == 0 && FormatChannels(Count) == 0
    ensures !IsDepthFormat(Count) && !IsSrgbFormat(Count)
  {
    LookupFindsOwnRow(Count);
  }

  /** Only the last four rows are depth rows, all of component type Depth. */
  lemma DepthRows()
    ensures forall i :: 0 <= i < |FormatTable| ==> (FormatTable[i].isDepth <==> i >= D16Unorm as int)
    ensures forall i :: 0 <= i < |FormatTable| && FormatTable[i].isDepth ==> FormatTable[i].componentType == Depth
  {
  }

  /** Only the rows of R8G8B8A8Srgb and B8G8R8A8Srgb are sRGB rows. */
  lemma SrgbRows()
    ensures forall i :: 0 <= i < |FormatTable| ==>
      (FormatTable[i].isSrgb <==> i == R8G8B8A8Srgb as int || i == B8G8R8A8Srgb as int)
  {
  }

  /** The Undefined row is empty; every other row has a size and one to
      four channels. */
  lemma SizeRows()
    ensures FormatTable[0].size == 0 && FormatTable[0].channels == 0
    ensures forall i :: 1 <= i < |FormatTable| ==>
      FormatTable[i].size >= 1 && 1 <= FormatTable[i].channels <= 4
  {
  }

  /** The depth formats are exactly the four D formats, all of component
      type Depth. */
  lemma DepthFormatsAreTheFourD(f: Format)
    ensures IsDepthFormat(f) <==> f in {D16Unorm, D24UnormS8Uint, D32Sfloat, D32SfloatS8Uint}
    ensures IsDepthFormat(f) ==> ComponentTypeOf(f) == Depth
  {
    if f != Count {
      AccessorsReadOwnRow(f);
      DepthRows();
    } else {
      CountGivesFallbacks();
    }
  }

  /** The sRGB formats are exactly R8G8B8A8Srgb and B8G8R8A8Srgb, and
      neither is a depth format. */
  lemma SrgbFormatsAreTheTwo(f: Format)
    ensures IsSrgbFormat(f) <==> f == R8G8B8A8Srgb || f == B8G8R8A8Srgb
    ensures IsSrgbFormat(f) ==> !IsDepthFormat(f)
  {
    if f != Count {
      AccessorsReadOwnRow(f);
      SrgbRows();
      DepthRows();
    } else {
      CountGivesFallbacks();
    }
  }

  /** Undefined has no size and no channels; every other listed format has
      a size and one to four channels. */
  lemma SizesAndChannels(f: Format)
    ensures f == Undefined ==> FormatSize(f) == 0 && FormatChannels(f) == 0
    ensures f != Undefined && f != Count ==> FormatSize(f) >= 1 && 1 <= FormatChannels(f) <= 4
  {
    if f != Count {
      AccessorsReadOwnRow(f);
      SizeRows();
    }
  }

  /** `FormatTraits<Fmt>`. */
  datatype FormatTraits = FormatTraits(
    isColor: bool,
    size: nat,
    componentType: ComponentType,
    channels: nat,
    isSrgb: bool)

  function TraitsOf(f: Format): FormatTraits
  {
    FormatTraits(!IsDepthFormat(f), FormatSize(f), ComponentTypeOf(f), FormatChannels(f), IsSrgbFormat(f))
  }

  /** A format counts as colour exactly when it is not one of the four depth
      formats, and its other traits are its own row's. */
  lemma TraitsOfListedFormat(f: Format)
    requires f != Count
    ensures TraitsOf(f).isColor <==> f !in {D16Unorm, D24UnormS8Uint, D32Sfloat, D32SfloatS8Uint}
    ensures TraitsOf(f).size == FormatTable[f as int].size
    ensures TraitsOf(f).componentType == FormatTable[f as int].componentType
    ensures TraitsOf(f).channels == FormatTable[f as int].channels
    ensures TraitsOf(f).isSrgb == FormatTable[f as int].isSrgb
  {
    AccessorsReadOwnRow(f);
    DepthFormatsAreTheFourD(f);
  }
}
