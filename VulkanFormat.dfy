/** The Hubris Vulkan utility mapping between the engine's `Format` and
    Vulkan's `VkFormat`: two switches, each the other's inverse on the listed
    formats. */
module VulkanFormat {

  /** `Hubris::Graphics::Format`: the enumerators named by the case labels
      of the conversion switch, `Count` last. */
  datatype Format =
      Undefined
    | R8Unorm
    | R8Snorm
    | R8Uint
    | R8Sint
    | R8G8Unorm
    | R8G8Snorm
    | R8G8Uint
    | R8G8Sint
    | R8G8B8A8Unorm
    | R8G8B8A8Snorm
    | R8G8B8A8Uint
    | R8G8B8A8Sint
    | R8G8B8A8Srgb
    | B8G8R8A8Unorm
    | B8G8R8A8Srgb
    | A2R10G10B10Unorm
    | R16Float
    | R16Uint
    | R16Sint
    | R16G16Float
    | R16G16Uint
    | R16G16Sint
    | R16G16B16A16Float
    | R16G16B16A16Uint
    | R16G16B16A16Sint
    | R32Uint
    | R32Sint
    | R32Float
    | R32G32Uint
    | R32G32Sint
    | R32G32Float
    | R32G32B32A32Uint
    | R32G32B32A32Sint
    | R32G32B32A32Float
    | D16Unorm
    | D24UnormS8Uint
    | D32Sfloat
    | D32SfloatS8Uint
    | Count

  /** `VkFormat`, abstractly: the values named in the switches, and any
      other value as `OtherVkFormat`. */
  datatype VkFormat =
      VK_FORMAT_UNDEFINED
    | VK_FORMAT_R8_UNORM
    | VK_FORMAT_R8_SNORM
    | VK_FORMAT_R8_UINT
    | VK_FORMAT_R8_SINT
    | VK_FORMAT_R8G8_UNORM
    | VK_FORMAT_R8G8_SNORM
    | VK_FORMAT_R8G8_UINT
    | VK_FORMAT_R8G8_SINT
    | VK_FORMAT_R8G8B8A8_UNORM
    | VK_FORMAT_R8G8B8A8_SNORM
    | VK_FORMAT_R8G8B8A8_UINT
    | VK_FORMAT_R8G8B8A8_SINT
    | VK_FORMAT_R8G8B8A8_SRGB
    | VK_FORMAT_B8G8R8A8_UNORM
    | VK_FORMAT_B8G8R8A8_SRGB
    | VK_FORMAT_A2R10G10B10_UNORM_PACK32
    | VK_FORMAT_R16_SFLOAT
    | VK_FORMAT_R16_UINT
    | VK_FORMAT_R16_SINT
    | VK_FORMAT_R16G16_SFLOAT
    | VK_FORMAT_R16G16_UINT
    | VK_FORMAT_R16G16_SINT
    | VK_FORMAT_R16G16B16A16_SFLOAT
    | VK_FORMAT_R16G16B16A16_UINT
    | VK_FORMAT_R16G16B16A16_SINT
    | VK_FORMAT_R32_UINT
    | VK_FORMAT_R32_SINT
    | VK_FORMAT_R32_SFLOAT
    | VK_FORMAT_R32G32_UINT
    | VK_FORMAT_R32G32_SINT
    | VK_FORMAT_R32G32_SFLOAT
    | VK_FORMAT_R32G32B32A32_UINT
    | VK_FORMAT_R32G32B32A32_SINT
    | VK_FORMAT_R32G32B32A32_SFLOAT
    | VK_FORMAT_D16_UNORM
    | VK_FORMAT_D24_UNORM_S8_UINT
    | VK_FORMAT_D32_SFLOAT
    | VK_FORMAT_D32_SFLOAT_S8_UINT
    | OtherVkFormat(code: int)

  /** `FormatToVkFormat`: each format to its Vulkan counterpart; Count (and,
      for out-of-range values, the default branch) to VK_FORMAT_UNDEFINED. */
  function FormatToVkFormat(f: Format): VkFormat
  {
    match f
    case Undefined => VK_FORMAT_UNDEFINED
    case R8Unorm => VK_FORMAT_R8_UNORM
    case R8Snorm => VK_FORMAT_R8_SNORM
    case R8Uint => VK_FORMAT_R8_UINT
    case R8Sint => VK_FORMAT_R8_SINT
    case R8G8Unorm => VK_FORMAT_R8G8_UNORM
    case R8G8Snorm => VK_FORMAT_R8G8_SNORM
    case R8G8Uint => VK_FORMAT_R8G8_UINT
    case R8G8Sint => VK_FORMAT_R8G8_SINT
    case R8G8B8A8Unorm => VK_FORMAT_R8G8B8A8_UNORM
    case R8G8B8A8Snorm => VK_FORMAT_R8G8B8A8_SNORM
    case R8G8B8A8Uint => VK_FORMAT_R8G8B8A8_UINT
    case R8G8B8A8Sint => VK_FORMAT_R8G8B8A8_SINT
    case R8G8B8A8Srgb => VK_FORMAT_R8G8B8A8_SRGB
    case B8G8R8A8Unorm => VK_FORMAT_B8G8R8A8_UNORM
    case B8G8R8A8Srgb => VK_FORMAT_B8G8R8A8_SRGB
    case A2R10G10B10Unorm => VK_FORMAT_A2R10G10B10_UNORM_PACK32
    case R16Float => VK_FORMAT_R16_SFLOAT
    case R16Uint => VK_FORMAT_R16_UINT
    case R16Sint => VK_FORMAT_R16_SINT
    case R16G16Float => VK_FORMAT_R16G16_SFLOAT
    case R16G16Uint => VK_FORMAT_R16G16_UINT
    case R16G16Sint => VK_FORMAT_R16G16_SINT
    case R16G16B16A16Float => VK_FORMAT_R16G16B16A16_SFLOAT
    case R16G16B16A16Uint => VK_FORMAT_R16G16B16A16_UINT
    case R16G16B16A16Sint => VK_FORMAT_R16G16B16A16_SINT
    case R32Uint => VK_FORMAT_R32_UINT
    case R32Sint => VK_FORMAT_R32_SINT
    case R32Float => VK_FORMAT_R32_SFLOAT
    case R32G32Uint => VK_FORMAT_R32G32_UINT
    case R32G32Sint => VK_FORMAT_R32G32_SINT
    case R32G32Float => VK_FORMAT_R32G32_SFLOAT
    case R32G32B32A32Uint => VK_FORMAT_R32G32B32A32_UINT
    case R32G32B32A32Sint => VK_FORMAT_R32G32B32A32_SINT
    case R32G32B32A32Float => VK_FORMAT_R32G32B32A32_SFLOAT
    case D16Unorm => VK_FORMAT_D16_UNORM
    case D24UnormS8Uint => VK_FORMAT_D24_UNORM_S8_UINT
    case D32Sfloat => VK_FORMAT_D32_SFLOAT
    case D32SfloatS8Uint => VK_FORMAT_D32_SFLOAT_S8_UINT
    case Count => VK_FORMAT_UNDEFINED
  }

  /** `VkFormatToFormat`: each listed Vulkan format back to the engine's;
      any other value to Undefined. */
  function VkFormatToFormat(v: VkFormat): Format
  {
    match v
    case VK_FORMAT_UNDEFINED => Undefined
    case VK_FORMAT_R8_UNORM => R8Unorm
    case VK_FORMAT_R8_SNORM => R8Snorm
    case VK_FORMAT_R8_UINT => R8Uint
    case VK_FORMAT_R8_SINT => R8Sint
    case VK_FORMAT_R8G8_UNORM => R8G8Unorm
    case VK_FORMAT_R8G8_SNORM => R8G8Snorm
    case VK_FORMAT_R8G8_UINT => R8G8Uint
    case VK_FORMAT_R8G8_SINT => R8G8Sint
    case VK_FORMAT_R8G8B8A8_UNORM => R8G8B8A8Unorm
    case VK_FORMAT_R8G8B8A8_SNORM => R8G8B8A8Snorm
    case VK_FORMAT_R8G8B8A8_UINT => R8G8B8A8Uint
    case VK_FORMAT_R8G8B8A8_SINT => R8G8B8A8Sint
    case VK_FORMAT_R8G8B8A8_SRGB => R8G8B8A8Srgb
    case VK_FORMAT_B8G8R8A8_UNORM => B8G8R8A8Unorm
    case VK_FORMAT_B8G8R8A8_SRGB => B8G8R8A8Srgb
    case VK_FORMAT_A2R10G10B10_UNORM_PACK32 => A2R10G10B10Unorm
    case VK_FORMAT_R16_SFLOAT => R16Float
    case VK_FORMAT_R16_UINT => R16Uint
    case VK_FORMAT_R16_SINT => R16Sint
    case VK_FORMAT_R16G16_SFLOAT => R16G16Float
    case VK_FORMAT_R16G16_UINT => R16G16Uint
    case VK_FORMAT_R16G16_SINT => R16G16Sint
    case VK_FORMAT_R16G16B16A16_SFLOAT => R16G16B16A16Float
    case VK_FORMAT_R16G16B16A16_UINT => R16G16B16A16Uint
    case VK_FORMAT_R16G16B16A16_SINT => R16G16B16A16Sint
    case VK_FORMAT_R32_UINT => R32Uint
    case VK_FORMAT_R32_SINT => R32Sint
    case VK_FORMAT_R32_SFLOAT => R32Float
    case VK_FORMAT_R32G32_UINT => R32G32Uint
    case VK_FORMAT_R32G32_SINT => R32G32Sint
    case VK_FORMAT_R32G32_SFLOAT => R32G32Float
    case VK_FORMAT_R32G32B32A32_UINT => R32G32B32A32Uint
    case VK_FORMAT_R32G32B32A32_SINT => R32G32B32A32Sint
    case VK_FORMAT_R32G32B32A32_SFLOAT => R32G32B32A32Float
    case VK_FORMAT_D16_UNORM => D16Unorm
    case VK_FORMAT_D24_UNORM_S8_UINT => D24UnormS8Uint
    case VK_FORMAT_D32_SFLOAT => D32Sfloat
    case VK_FORMAT_D32_SFLOAT_S8_UINT => D32SfloatS8Uint
    case OtherVkFormat(_) => Undefined
  }

  /** Converting a format to Vulkan and back gives it again, for every
      format but Count. */
  lemma FormatRoundTrip(f: Format)
    requires f != Count
    ensures VkFormatToFormat(FormatToVkFormat(f)) == f
  {
    if f.Undefined? || f.R8Unorm? || f.R8Snorm? || f.R8Uint? || f.R8Sint? {
      FormatRoundTripPart1(f);
    } else if f.R8G8Unorm? || f.R8G8Snorm? || f.R8G8Uint? || f.R8G8Sint? || f.R8G8B8A8Unorm? {
      FormatRoundTripPart2(f);
    } else if f.R8G8B8A8Snorm? || f.R8G8B8A8Uint? || f.R8G8B8A8Sint? || f.R8G8B8A8Srgb? || f.B8G8R8A8Unorm? {
      FormatRoundTripPart3(f);
    } else if f.B8G8R8A8Srgb? || f.A2R10G10B10Unorm? || f.R16Float? || f.R16Uint? || f.R16Sint? {
      FormatRoundTripPart4(f);
    } else if f.R16G16Float? || f.R16G16Uint? || f.R16G16Sint? || f.R16G16B16A16Float? || f.R16G16B16A16Uint? {
      FormatRoundTripPart5(f);
    } else if f.R16G16B16A16Sint? || f.R32Uint? || f.R32Sint? || f.R32Float? || f.R32G32Uint? {
      FormatRoundTripPart6(f);
    } else if f.R32G32Sint? || f.R32G32Float? || f.R32G32B32A32Uint? || f.R32G32B32A32Sint? || f.R32G32B32A32Float? {
      FormatRoundTripPart7(f);
    } else {
      FormatRoundTripPart8(f);
    }
  }

  lemma FormatRoundTripPart1(f: Format)
    requires f.Undefined? || f.R8Unorm? || f.R8Snorm? || f.R8Uint? || f.R8Sint?
    ensures VkFormatToFormat(FormatToVkFormat(f)) == f
  {
    match f {
      case Undefined =>
      case R8Unorm =>
      case R8Snorm =>
      case R8Uint =>
      case R8Sint =>
    }
  }

  lemma FormatRoundTripPart2(f: Format)
    requires f.R8G8Unorm? || f.R8G8Snorm? || f.R8G8Uint? || f.R8G8Sint? || f.R8G8B8A8Unorm?
    ensures VkFormatToFormat(FormatToVkFormat(f)) == f
  {
    match f {
      case R8G8Unorm =>
      case R8G8Snorm =>
      case R8G8Uint =>
      case R8G8Sint =>
      case R8G8B8A8Unorm =>
    }
  }

  lemma FormatRoundTripPart3(f: Format)
    requires f.R8G8B8A8Snorm? || f.R8G8B8A8Uint? || f.R8G8B8A8Sint? || f.R8G8B8A8Srgb? || f.B8G8R8A8Unorm?
    ensures VkFormatToFormat(FormatToVkFormat(f)) == f
  {
    match f {
      case R8G8B8A8Snorm =>
      case R8G8B8A8Uint =>
      case R8G8B8A8Sint =>
      case R8G8B8A8Srgb =>
      case B8G8R8A8Unorm =>
    }
  }

  lemma FormatRoundTripPart4(f: Format)
    requires f.B8G8R8A8Srgb? || f.A2R10G10B10Unorm? || f.R16Float? || f.R16Uint? || f.R16Sint?
    ensures VkFormatToFormat(FormatToVkFormat(f)) == f
  {
    match f {
      case B8G8R8A8Srgb =>
      case A2R10G10B10Unorm =>
      case R16Float =>
      case R16Uint =>
      case R16Sint =>
    }
  }

  lemma FormatRoundTripPart5(f: Format)
    requires f.R16G16Float? || f.R16G16Uint? || f.R16G16Sint? || f.R16G16B16A16Float? || f.R16G16B16A16Uint?
    ensures VkFormatToFormat(FormatToVkFormat(f)) == f
  {
    match f {
      case R16G16Float =>
      case R16G16Uint =>
      case R16G16Sint =>
      case R16G16B16A16Float =>
      case R16G16B16A16Uint =>
    }
  }

  lemma FormatRoundTripPart6(f: Format)
    requires f.R16G16B16A16Sint? || f.R32Uint? || f.R32Sint? || f.R32Float? || f.R32G32Uint?
    ensures VkFormatToFormat(FormatToVkFormat(f)) == f
  {
    match f {
      case R16G16B16A16Sint =>
      case R32Uint =>
      case R32Sint =>
      case R32Float =>
      case R32G32Uint =>
    }
  }

  lemma FormatRoundTripPart7(f: Format)
    requires f.R32G32Sint? || f.R32G32Float? || f.R32G32B32A32Uint? || f.R32G32B32A32Sint? || f.R32G32B32A32Float?
    ensures VkFormatToFormat(FormatToVkFormat(f)) == f
  {
    match f {
      case R32G32Sint =>
      case R32G32Float =>
      case R32G32B32A32Uint =>
      case R32G32B32A32Sint =>
      case R32G32B32A32Float =>
    }
  }

  lemma FormatRoundTripPart8(f: Format)
    requires f.D16Unorm? || f.D24UnormS8Uint? || f.D32Sfloat? || f.D32SfloatS8Uint?
    ensures VkFormatToFormat(FormatToVkFormat(f)) == f
  {
    match f {
      case D16Unorm =>
      case D24UnormS8Uint =>
      case D32Sfloat =>
      case D32SfloatS8Uint =>
    }
  }

  /** Hence no two formats other than Count share a Vulkan format. */
  lemma FormatToVkFormatInjective(f: Format, g: Format)
    requires f != Count && g != Count
    requires FormatToVkFormat(f) == FormatToVkFormat(g)
    ensures f == g
  {
    FormatRoundTrip(f);
    FormatRoundTrip(g);
  }

  /** Converting a listed Vulkan format to the engine's and back gives it
      again. */
  lemma VkFormatRoundTrip(v: VkFormat)
    requires !v.OtherVkFormat?
    ensures FormatToVkFormat(VkFormatToFormat(v)) == v
  {
    if v.VK_FORMAT_UNDEFINED? || v.VK_FORMAT_R8_UNORM? || v.VK_FORMAT_R8_SNORM? || v.VK_FORMAT_R8_UINT? || v.VK_FORMAT_R8_SINT? {
      VkFormatRoundTripPart1(v);
    } else if v.VK_FORMAT_R8G8_UNORM? || v.VK_FORMAT_R8G8_SNORM? || v.VK_FORMAT_R8G8_UINT? || v.VK_FORMAT_R8G8_SINT? || v.VK_FORMAT_R8G8B8A8_UNORM? {
      VkFormatRoundTripPart2(v);
    } else if v.VK_FORMAT_R8G8B8A8_SNORM? || v.VK_FORMAT_R8G8B8A8_UINT? || v.VK_FORMAT_R8G8B8A8_SINT? || v.VK_FORMAT_R8G8B8A8_SRGB? || v.VK_FORMAT_B8G8R8A8_UNORM? {
      VkFormatRoundTripPart3(v);
    } else if v.VK_FORMAT_B8G8R8A8_SRGB? || v.VK_FORMAT_A2R10G10B10_UNORM_PACK32? || v.VK_FORMAT_R16_SFLOAT? || v.VK_FORMAT_R16_UINT? || v.VK_FORMAT_R16_SINT? {
      VkFormatRoundTripPart4(v);
    } else if v.VK_FORMAT_R16G16_SFLOAT? || v.VK_FORMAT_R16G16_UINT? || v.VK_FORMAT_R16G16_SINT? || v.VK_FORMAT_R16G16B16A16_SFLOAT? || v.VK_FORMAT_R16G16B16A16_UINT? {
      VkFormatRoundTripPart5(v);
    } else if v.VK_FORMAT_R16G16B16A16_SINT? || v.VK_FORMAT_R32_UINT? || v.VK_FORMAT_R32_SINT? || v.VK_FORMAT_R32_SFLOAT? || v.VK_FORMAT_R32G32_UINT? {
      VkFormatRoundTripPart6(v);
    } else if v.VK_FORMAT_R32G32_SINT? || v.VK_FORMAT_R32G32_SFLOAT? || v.VK_FORMAT_R32G32B32A32_UINT? || v.VK_FORMAT_R32G32B32A32_SINT? || v.VK_FORMAT_R32G32B32A32_SFLOAT? {
      VkFormatRoundTripPart7(v);
    } else {
      VkFormatRoundTripPart8(v);
    }
  }

  lemma VkFormatRoundTripPart1(v: VkFormat)
    requires v.VK_FORMAT_UNDEFINED? || v.VK_FORMAT_R8_UNORM? || v.VK_FORMAT_R8_SNORM? || v.VK_FORMAT_R8_UINT? || v.VK_FORMAT_R8_SINT?
    ensures FormatToVkFormat(VkFormatToFormat(v)) == v
  {
    match v {
      case VK_FORMAT_UNDEFINED =>
      case VK_FORMAT_R8_UNORM =>
      case VK_FORMAT_R8_SNORM =>
      case VK_FORMAT_R8_UINT =>
      case VK_FORMAT_R8_SINT =>
    }
  }

  lemma VkFormatRoundTripPart2(v: VkFormat)
    requires v.VK_FORMAT_R8G8_UNORM? || v.VK_FORMAT_R8G8_SNORM? || v.VK_FORMAT_R8G8_UINT? || v.VK_FORMAT_R8G8_SINT? || v.VK_FORMAT_R8G8B8A8_UNORM?
    ensures FormatToVkFormat(VkFormatToFormat(v)) == v
  {
    match v {
      case VK_FORMAT_R8G8_UNORM =>
      case VK_FORMAT_R8G8_SNORM =>
      case VK_FORMAT_R8G8_UINT =>
      case VK_FORMAT_R8G8_SINT =>
      case VK_FORMAT_R8G8B8A8_UNORM =>
    }
  }

  lemma VkFormatRoundTripPart3(v: VkFormat)
    requires v.VK_FORMAT_R8G8B8A8_SNORM? || v.VK_FORMAT_R8G8B8A8_UINT? || v.VK_FORMAT_R8G8B8A8_SINT? || v.VK_FORMAT_R8G8B8A8_SRGB? || v.VK_FORMAT_B8G8R8A8_UNORM?
    ensures FormatToVkFormat(VkFormatToFormat(v)) == v
  {
    match v {
      case VK_FORMAT_R8G8B8A8_SNORM =>
      case VK_FORMAT_R8G8B8A8_UINT =>
      case VK_FORMAT_R8G8B8A8_SINT =>
      case VK_FORMAT_R8G8B8A8_SRGB =>
      case VK_FORMAT_B8G8R8A8_UNORM =>
    }
  }

  lemma VkFormatRoundTripPart4(v: VkFormat)
    requires v.VK_FORMAT_B8G8R8A8_SRGB? || v.VK_FORMAT_A2R10G10B10_UNORM_PACK32? || v.VK_FORMAT_R16_SFLOAT? || v.VK_FORMAT_R16_UINT? || v.VK_FORMAT_R16_SINT?
    ensures FormatToVkFormat(VkFormatToFormat(v)) == v
  {
    match v {
      case VK_FORMAT_B8G8R8A8_SRGB =>
      case VK_FORMAT_A2R10G10B10_UNORM_PACK32 =>
      case VK_FORMAT_R16_SFLOAT =>
      case VK_FORMAT_R16_UINT =>
      case VK_FORMAT_R16_SINT =>
    }
  }

  lemma VkFormatRoundTripPart5(v: VkFormat)
    requires v.VK_FORMAT_R16G16_SFLOAT? || v.VK_FORMAT_R16G16_UINT? || v.VK_FORMAT_R16G16_SINT? || v.VK_FORMAT_R16G16B16A16_SFLOAT? || v.VK_FORMAT_R16G16B16A16_UINT?
    ensures FormatToVkFormat(VkFormatToFormat(v)) == v
  {
    match v {
      case VK_FORMAT_R16G16_SFLOAT =>
      case VK_FORMAT_R16G16_UINT =>
      case VK_FORMAT_R16G16_SINT =>
      case VK_FORMAT_R16G16B16A16_SFLOAT =>
      case VK_FORMAT_R16G16B16A16_UINT =>
    }
  }

  lemma VkFormatRoundTripPart6(v: VkFormat)
    requires v.VK_FORMAT_R16G16B16A16_SINT? || v.VK_FORMAT_R32_UINT? || v.VK_FORMAT_R32_SINT? || v.VK_FORMAT_R32_SFLOAT? || v.VK_FORMAT_R32G32_UINT?
    ensures FormatToVkFormat(VkFormatToFormat(v)) == v
  {
    match v {
      case VK_FORMAT_R16G16B16A16_SINT =>
      case VK_FORMAT_R32_UINT =>
      case VK_FORMAT_R32_SINT =>
      case VK_FORMAT_R32_SFLOAT =>
      case VK_FORMAT_R32G32_UINT =>
    }
  }

  lemma VkFormatRoundTripPart7(v: VkFormat)
    requires v.VK_FORMAT_R32G32_SINT? || v.VK_FORMAT_R32G32_SFLOAT? || v.VK_FORMAT_R32G32B32A32_UINT? || v.VK_FORMAT_R32G32B32A32_SINT? || v.VK_FORMAT_R32G32B32A32_SFLOAT?
    ensures FormatToVkFormat(VkFormatToFormat(v)) == v
  {
    match v {
      case VK_FORMAT_R32G32_SINT =>
      case VK_FORMAT_R32G32_SFLOAT =>
      case VK_FORMAT_R32G32B32A32_UINT =>
      case VK_FORMAT_R32G32B32A32_SINT =>
      case VK_FORMAT_R32G32B32A32_SFLOAT =>
    }
  }

  lemma VkFormatRoundTripPart8(v: VkFormat)
    requires v.VK_FORMAT_D16_UNORM? || v.VK_FORMAT_D24_UNORM_S8_UINT? || v.VK_FORMAT_D32_SFLOAT? || v.VK_FORMAT_D32_SFLOAT_S8_UINT?
    ensures FormatToVkFormat(VkFormatToFormat(v)) == v
  {
    match v {
      case VK_FORMAT_D16_UNORM =>
      case VK_FORMAT_D24_UNORM_S8_UINT =>
      case VK_FORMAT_D32_SFLOAT =>
      case VK_FORMAT_D32_SFLOAT_S8_UINT =>
    }
  }

  /** Count shares VK_FORMAT_UNDEFINED with Undefined, which is why the
      round trip excludes it, and every unlisted Vulkan value comes back as
      Undefined. */
  lemma CountAndUnlistedValues(code: int)
    ensures FormatToVkFormat(Count) == VK_FORMAT_UNDEFINED == FormatToVkFormat(Undefined)
    ensures VkFormatToFormat(OtherVkFormat(code)) == Undefined
    ensures VkFormatToFormat(FormatToVkFormat(Count)) != Count
  {
  }
}
