/** The swapchain choices a Vulkan window makes when it is created: the
    surface format, the present mode, the image extent, the image count
    and whether the surface supports a swapchain at all. The surface's
    reported capabilities and lists, and the framebuffer size the window
    system reports, are parameters. */
module Swapchain {

  datatype Option<T> = None | Some(value: T)

  const UInt32Modulus: nat := 0x1_0000_0000

  /** `std::numeric_limits<uint32_t>::max()`. */
  const UInt32Max: nat := UInt32Modulus - 1

  type UInt32 = x: nat | x < UInt32Modulus

  /** The Vulkan enumerant values the choices compare against. */
  const VK_FORMAT_B8G8R8A8_SRGB: nat := 50
  const VK_COLOR_SPACE_SRGB_NONLINEAR_KHR: nat := 0
  const VK_PRESENT_MODE_IMMEDIATE_KHR: nat := 0
  const VK_PRESENT_MODE_MAILBOX_KHR: nat := 1
  const VK_PRESENT_MODE_FIFO_KHR: nat := 2

  /** `VkSurfaceFormatKHR`: a format and a colour space, as enumerant codes. */
  datatype SurfaceFormat = SurfaceFormat(format: nat, colorSpace: nat)

  /** The one surface format asked for. */
  const PreferredFormat: SurfaceFormat := SurfaceFormat(VK_FORMAT_B8G8R8A8_SRGB, VK_COLOR_SPACE_SRGB_NONLINEAR_KHR)

  /** `VkExtent2D`. */
  datatype Extent2D = Extent2D(width: UInt32, height: UInt32)

  /** The fields of `VkSurfaceCapabilitiesKHR` the choices read. */
  datatype Capabilities = Capabilities(
    minImageCount: UInt32,
    maxImageCount: UInt32,
    currentExtent: Extent2D,
    minImageExtent: Extent2D,
    maxImageExtent: Extent2D)

  /** `SwapChainSupportDetails`. */
  datatype SupportDetails = SupportDetails(
    capabilities: Capabilities,
    formats: seq<SurfaceFormat>,
    presentModes: seq<nat>)

  /** The first index from `i` on holding `x`, scanning in order. */
  function IndexFrom<T(==)>(xs: seq<T>, x: T, i: nat): (r: Option<nat>)
    requires i <= |xs|
    ensures r.Some? ==> i <= r.value < |xs| && xs[r.value] == x
    ensures r.None? ==> x !in xs[i..]
    decreases |xs| - i
  {
    if i == |xs| then None
    else if xs[i] == x then Some(i)
    else
      var r := IndexFrom(xs, x, i + 1);
      assert xs[i..] == [xs[i]] + xs[i + 1..];
      r
  }

  /** `ChooseSwapSurfaceFormat`: the first entry that is B8G8R8A8_SRGB in
      the SRGB_NONLINEAR colour space, otherwise entry 0. The caller has
      checked that the list is non-empty. */
  function ChooseSwapSurfaceFormat(availableFormats: seq<SurfaceFormat>): (r: SurfaceFormat)
    requires availableFormats != []
    ensures r in availableFormats
    ensures r == PreferredFormat <==> PreferredFormat in availableFormats
    ensures r != PreferredFormat ==> r == availableFormats[0]
  {
    match IndexFrom(availableFormats, PreferredFormat, 0)
    case Some(i) => availableFormats[i]
    case None => assert availableFormats[0..] == availableFormats; availableFormats[0]
  }

  /** `ChooseSwapPresentMode`: MAILBOX when it is listed, FIFO otherwise. */
  function ChooseSwapPresentMode(availablePresentModes: seq<nat>): (r: nat)
    ensures r == VK_PRESENT_MODE_MAILBOX_KHR <==> VK_PRESENT_MODE_MAILBOX_KHR in availablePresentModes
    ensures r != VK_PRESENT_MODE_MAILBOX_KHR ==> r == VK_PRESENT_MODE_FIFO_KHR
  {
    match IndexFrom(availablePresentModes, VK_PRESENT_MODE_MAILBOX_KHR, 0)
    case Some(i) => availablePresentModes[i]
    case None =>
      assert availablePresentModes[0..] == availablePresentModes;
      VK_PRESENT_MODE_FIFO_KHR
  }

  /** FIFO is chosen even from a list that does not hold it. */
  lemma FifoEvenWhenUnlisted()
    ensures VK_PRESENT_MODE_FIFO_KHR !in [VK_PRESENT_MODE_IMMEDIATE_KHR]
    ensures ChooseSwapPresentMode([VK_PRESENT_MODE_IMMEDIATE_KHR]) == VK_PRESENT_MODE_FIFO_KHR
  {
  }

  /** `static_cast<uint32_t>` of an `int`: reduction modulo 2^32, so a
      negative value wraps to a large one. */
  function CastToUInt32(x: int): (r: UInt32)
    ensures 0 <= x < UInt32Modulus ==> r == x
    ensures -(UInt32Modulus as int) <= x < 0 ==> r == x + UInt32Modulus
  {
    x % UInt32Modulus
  }

  /** `std::clamp(v, lo, hi)`, which requires `lo <= hi`. */
  function Clamp(v: UInt32, lo: UInt32, hi: UInt32): (r: UInt32)
    requires lo <= hi
    ensures lo <= r <= hi
  {
    if v < lo then lo else if hi < v then hi else v
  }

  /** The clamped value is the point of `[lo, hi]` nearest to `v`, and `v`
      itself when it lies inside. */
  lemma ClampIsNearest(v: UInt32, lo: UInt32, hi: UInt32, x: UInt32)
    requires lo <= hi
    requires lo <= x <= hi
    ensures Distance(Clamp(v, lo, hi), v) <= Distance(x, v)
    ensures lo <= v <= hi ==> Clamp(v, lo, hi) == v
  {
  }

  function Distance(a: int, b: int): nat
  {
    if a <= b then b - a else a - b
  }

  /** `ChooseSwapExtent`: the surface's current extent unless its width is
      the `UINT32_MAX` marker; then the framebuffer size, cast to unsigned,
      clamped into the surface's limits one dimension at a time. */
  function ChooseSwapExtent(capabilities: Capabilities, framebufferWidth: int, framebufferHeight: int): (r: Extent2D)
    requires capabilities.currentExtent.width == UInt32Max ==>
      capabilities.minImageExtent.width <= capabilities.maxImageExtent.width &&
      capabilities.minImageExtent.height <= capabilities.maxImageExtent.height
    ensures capabilities.currentExtent.width != UInt32Max ==> r == capabilities.currentExtent
    ensures capabilities.currentExtent.width == UInt32Max ==>
      capabilities.minImageExtent.width <= r.width <= capabilities.maxImageExtent.width &&
      capabilities.minImageExtent.height <= r.height <= capabilities.maxImageExtent.height
  {
    if capabilities.currentExtent.width != UInt32Max then
      capabilities.currentExtent
    else
      var actual := Extent2D(CastToUInt32(framebufferWidth), CastToUInt32(framebufferHeight));
      Extent2D(
        Clamp(actual.width, capabilities.minImageExtent.width, capabilities.maxImageExtent.width),
        Clamp(actual.height, capabilities.minImageExtent.height, capabilities.maxImageExtent.height))
  }

  /** A framebuffer that fits the limits is taken as it is. */
  lemma FittingFramebufferKept(capabilities: Capabilities, framebufferWidth: nat, framebufferHeight: nat)
    requires capabilities.currentExtent.width == UInt32Max
    requires capabilities.minImageExtent.width <= framebufferWidth <= capabilities.maxImageExtent.width
    requires capabilities.minImageExtent.height <= framebufferHeight <= capabilities.maxImageExtent.height
    ensures ChooseSwapExtent(capabilities, framebufferWidth, framebufferHeight)
      == Extent2D(framebufferWidth, framebufferHeight)
  {
  }

  /** A negative framebuffer width wraps to a huge unsigned value and is
      clamped to the largest width allowed, not the smallest. */
  lemma NegativeWidthClampsToMax(capabilities: Capabilities, framebufferHeight: int)
    requires capabilities.currentExtent.width == UInt32Max
    requires capabilities.minImageExtent.width <= capabilities.maxImageExtent.width < UInt32Max
    requires capabilities.minImageExtent.height <= capabilities.maxImageExtent.height
    ensures ChooseSwapExtent(capabilities, -1, framebufferHeight).width == capabilities.maxImageExtent.width
  {
  }

  /** The image count asked for: one more than the minimum, in 32-bit
      arithmetic, lowered to the maximum when there is one (a maximum of 0
      means no limit) and it is exceeded. */
  function ImageCount(capabilities: Capabilities): (r: UInt32)
    ensures capabilities.maxImageCount > 0 ==> r <= capabilities.maxImageCount
    ensures (capabilities.minImageCount < UInt32Max &&
             (capabilities.maxImageCount == 0 || capabilities.minImageCount < capabilities.maxImageCount)) ==>
      r == capabilities.minImageCount + 1
    ensures (capabilities.minImageCount < UInt32Max && capabilities.minImageCount <= capabilities.maxImageCount) ==>
      capabilities.minImageCount <= r
  {
    var imageCount := (capabilities.minImageCount + 1) % UInt32Modulus;
    if capabilities.maxImageCount > 0 && imageCount > capabilities.maxImageCount then
      capabilities.maxImageCount
    else
      imageCount
  }

  /** With no upper limit and the largest minimum, the 32-bit increment
      wraps to 0. */
  lemma ImageCountWrapsAtMax(capabilities: Capabilities)
    requires capabilities.minImageCount == UInt32Max && capabilities.maxImageCount == 0
    ensures ImageCount(capabilities) == 0
  {
  }

  /** `swapChainAdequate`: at least one format and one present mode. */
  predicate SwapchainAdequate(details: SupportDetails)
  {
    details.formats != [] && details.presentModes != []
  }

  /** What `Create` puts into the swapchain create info. */
  datatype SwapchainChoice = SwapchainChoice(
    surfaceFormat: SurfaceFormat,
    presentMode: nat,
    extent: Extent2D,
    minImageCount: UInt32)

  /** The choices `Create` makes: none when the surface is not adequate
      (the window is closed and null returned), otherwise the chosen format,
      present mode, extent and image count. */
  function ChooseSwapchain(details: SupportDetails, framebufferWidth: int, framebufferHeight: int): (r: Option<SwapchainChoice>)
    requires details.capabilities.currentExtent.width == UInt32Max ==>
      details.capabilities.minImageExtent.width <= details.capabilities.maxImageExtent.width &&
      details.capabilities.minImageExtent.height <= details.capabilities.maxImageExtent.height
    ensures r.None? <==> details.formats == [] || details.presentModes == []
    ensures r.Some? ==> r.value.surfaceFormat in details.formats
    ensures r.Some? ==> r.value.presentMode in {VK_PRESENT_MODE_MAILBOX_KHR, VK_PRESENT_MODE_FIFO_KHR}
    ensures r.Some? && details.capabilities.maxImageCount > 0 ==>
      r.value.minImageCount <= details.capabilities.maxImageCount
  {
    if !SwapchainAdequate(details) then None
    else Some(SwapchainChoice(
      ChooseSwapSurfaceFormat(details.formats),
      ChooseSwapPresentMode(details.presentModes),
      ChooseSwapExtent(details.capabilities, framebufferWidth, framebufferHeight),
      ImageCount(details.capabilities)))
  }
}
