/** How the Vulkan backend rates a physical device: `ScoreGPU` copies the
    device's feature flags, rejects a device without geometry shaders, and
    awards points for a discrete GPU and for the ray-tracing extensions;
    the device query then adds points for each queue family's
    capabilities. What the driver reports is passed in as values. */
module GpuScoring {

  const UInt32Modulus: nat := 0x1_0000_0000

  type UInt32 = x: nat | x < UInt32Modulus

  /** `VK_PHYSICAL_DEVICE_TYPE_DISCRETE_GPU`. */
  const DiscreteGpuType: nat := 2

  /** The queue capability bits of `VkQueueFlagBits`. */
  const QueueGraphicsBit: bv32 := 0x1
  const QueueComputeBit: bv32 := 0x2
  const QueueTransferBit: bv32 := 0x4
  const QueueSparseBindingBit: bv32 := 0x8

  /** The extensions ray tracing needs, in the order they are looked up. */
  const RequiredRTExtensions: seq<string> := [
    "VK_KHR_acceleration_structure",
    "VK_KHR_ray_tracing_pipeline",
    "VK_KHR_deferred_host_operations",
    "VK_KHR_spirv_1_4"
  ]

  /** The fields of `VkPhysicalDeviceProperties` that are read. */
  datatype DeviceProperties = DeviceProperties(deviceType: nat, apiVersion: UInt32)

  /** The fields of `VkPhysicalDeviceFeatures` that are read. */
  datatype DeviceFeatures = DeviceFeatures(
    geometryShader: bool,
    tessellationShader: bool,
    shaderInt64: bool,
    sparseBinding: bool)

  /** `Device`: the fields `ScoreGPU` sets, the rest keeping their
      defaults. */
  datatype Device = Device(
    apiVersion: UInt32,
    score: UInt32,
    rayTracingCapable: bool,
    geometryShader: bool,
    tessellationShader: bool,
    shaderInt64: bool,
    discreteGPU: bool,
    sparseBinding: bool)

  /** How many of `required` appear among the extension names `ext`. */
  function CountPresent(required: seq<string>, ext: seq<string>): nat
  {
    if required == [] then 0
    else CountPresent(required[..|required| - 1], ext) + (if required[|required| - 1] in ext then 1 else 0)
  }

  /** At most one per required name is counted, and all of them are
      counted exactly when every required name is present. */
  lemma {:induction false} CountPresentBounds(required: seq<string>, ext: seq<string>)
    ensures CountPresent(required, ext) <= |required|
    ensures CountPresent(required, ext) == |required| <==> forall r :: r in required ==> r in ext
    decreases |required|
  {
    if required != [] {
      var init := required[..|required| - 1];
      CountPresentBounds(init, ext);
      assert required == init + [required[|required| - 1]];
      if forall r :: r in required ==> r in ext {
        assert forall r :: r in init ==> r in ext;
      }
    }
  }

  /** Whether ray tracing is available: every required extension listed. */
  predicate SupportsRayTracing(ext: seq<string>)
  {
    forall r :: r in RequiredRTExtensions ==> r in ext
  }

  /** `ScoreGPU`: the flags and API version copied first; a device without
      geometry shaders stops there with score 0; otherwise 1000 points for a
      discrete GPU and 1000 for ray tracing, found by looking each required
      extension up among `ext`. */
  method ScoreGPU(prop: DeviceProperties, features: DeviceFeatures, ext: seq<string>) returns (device: Device)
    ensures device.geometryShader == features.geometryShader
    ensures device.tessellationShader == features.tessellationShader
    ensures device.shaderInt64 == features.shaderInt64
    ensures device.sparseBinding == features.sparseBinding
    ensures device.discreteGPU <==> prop.deviceType == DiscreteGpuType
    ensures device.apiVersion == prop.apiVersion
    ensures !features.geometryShader ==> device.score == 0 && !device.rayTracingCapable
    ensures device.rayTracingCapable <==> features.geometryShader && SupportsRayTracing(ext)
    ensures device.score ==
      (if features.geometryShader && prop.deviceType == DiscreteGpuType then 1000 else 0) +
      (if device.rayTracingCapable then 1000 else 0)
  {
    device := Device(prop.apiVersion, 0, false, features.geometryShader, features.tessellationShader,
                     features.shaderInt64, prop.deviceType == DiscreteGpuType, features.sparseBinding);
    if !device.geometryShader {
      return;
    }
    if prop.deviceType == DiscreteGpuType {
      device := device.(score := device.score + 1000);
    }
    var found := 0;
    var i := 0;
    while i < |RequiredRTExtensions|
      invariant i <= |RequiredRTExtensions|
      invariant found == CountPresent(RequiredRTExtensions[..i], ext)
    {
      var name := RequiredRTExtensions[i];
      var j := 0;
      while j < |ext|
        invariant j <= |ext|
        invariant forall k :: 0 <= k < j ==> ext[k] != name
      {
        if name == ext[j] {
          found := found + 1;
          break;
        }
        j := j + 1;
      }
      assert RequiredRTExtensions[..i + 1][..i] == RequiredRTExtensions[..i];
      i := i + 1;
    }
    assert RequiredRTExtensions[..i] == RequiredRTExtensions;
    CountPresentBounds(RequiredRTExtensions, ext);
    if found == |RequiredRTExtensions| {
      device := device.(rayTracingCapable := true, score := device.score + 1000);
    }
  }

  /** The score `ScoreGPU` gives is 0, 1000 or 2000. */
  lemma ScoreValues(prop: DeviceProperties, features: DeviceFeatures, ext: seq<string>, device: Device)
    requires device.rayTracingCapable ==> features.geometryShader
    requires device.score ==
      (if features.geometryShader && prop.deviceType == DiscreteGpuType then 1000 else 0) +
      (if device.rayTracingCapable then 1000 else 0)
    ensures device.score in {0, 1000, 2000}
    ensures device.score == 2000 <==> prop.deviceType == DiscreteGpuType && device.rayTracingCapable
  {
  }

  /** The points one queue family's flags are worth. */
  function FamilyBonus(queueFlags: bv32): (r: nat)
    ensures r <= 450
  {
    (if queueFlags & QueueGraphicsBit != 0 then 100 else 0) +
    (if queueFlags & QueueComputeBit != 0 then 150 else 0) +
    (if queueFlags & QueueTransferBit != 0 then 150 else 0) +
    (if queueFlags & QueueSparseBindingBit != 0 then 50 else 0)
  }

  /** A family with every capability is worth 450 points, one with none
      of them nothing. */
  lemma FamilyBonusExtremes()
    ensures FamilyBonus(0xF) == 450
    ensures FamilyBonus(0) == 0
    ensures FamilyBonus(QueueGraphicsBit) == 100
  {
  }

  /** The points all the families are worth, in mathematical integers. */
  function QueueBonus(families: seq<bv32>): nat
  {
    if families == [] then 0
    else QueueBonus(families[..|families| - 1]) + FamilyBonus(families[|families| - 1])
  }

  /** At most 450 points per family. */
  lemma {:induction false} QueueBonusBound(families: seq<bv32>)
    ensures QueueBonus(families) <= 450 * |families|
    decreases |families|
  {
    if families != [] {
      QueueBonusBound(families[..|families| - 1]);
    }
  }

  /** The queue-family pass: for each family, the bonuses its flags earn
      are added to the `unsigned int` score, which wraps modulo 2^32. */
  method ScoreQueueFamilies(score: UInt32, queueFamilies: seq<bv32>) returns (r: UInt32)
    ensures r == (score + QueueBonus(queueFamilies)) % UInt32Modulus
  {
    r := score;
    var i := 0;
    while i < |queueFamilies|
      invariant i <= |queueFamilies|
      invariant r == (score + QueueBonus(queueFamilies[..i])) % UInt32Modulus
    {
      AddAfterWrap(score + QueueBonus(queueFamilies[..i]), FamilyBonus(queueFamilies[i]));
      r := AddFamilyBonus(r, queueFamilies[i]);
      assert queueFamilies[..i + 1][..i] == queueFamilies[..i];
      i := i + 1;
    }
    assert queueFamilies[..i] == queueFamilies;
  }

  /** The body of the queue-family pass for one family: each of the four
      capability bits adds its points to the 32-bit score. */
  method AddFamilyBonus(score: UInt32, queueFlags: bv32) returns (r: UInt32)
    ensures r == (score + FamilyBonus(queueFlags)) % UInt32Modulus
  {
    r := score;
    ghost var total: nat := score;
    if queueFlags & QueueGraphicsBit != 0 {
      AddAfterWrap(total, 100);
      r := (r + 100) % UInt32Modulus;
      total := total + 100;
    }
    if queueFlags & QueueComputeBit != 0 {
      AddAfterWrap(total, 150);
      r := (r + 150) % UInt32Modulus;
      total := total + 150;
    }
    if queueFlags & QueueTransferBit != 0 {
      AddAfterWrap(total, 150);
      r := (r + 150) % UInt32Modulus;
      total := total + 150;
    }
    if queueFlags & QueueSparseBindingBit != 0 {
      AddAfterWrap(total, 50);
      r := (r + 50) % UInt32Modulus;
      total := total + 50;
    }
  }

  /** Adding after a wrap is adding before it. */
  lemma AddAfterWrap(x: nat, k: nat)
    ensures (x % UInt32Modulus + k) % UInt32Modulus == (x + k) % UInt32Modulus
  {
    var q := x / UInt32Modulus;
    assert x == q * UInt32Modulus + x % UInt32Modulus;
    ModuloDropsMultiple(x % UInt32Modulus + k, q);
  }

  /** Adding whole multiples of 2^32 leaves the remainder unchanged. */
  lemma {:induction false} ModuloDropsMultiple(y: nat, q: nat)
    ensures (y + q * UInt32Modulus) % UInt32Modulus == y % UInt32Modulus
    decreases q
  {
    if q > 0 {
      ModuloDropsMultiple(y, q - 1);
      assert y + q * UInt32Modulus == (y + (q - 1) * UInt32Modulus) + UInt32Modulus;
    }
  }

  /** Unless the 32-bit score overflows, the queue-family pass never lowers
      it and adds exactly the families' bonuses. */
  lemma QueuePassNeverLowers(score: UInt32, queueFamilies: seq<bv32>, r: UInt32)
    requires r == (score + QueueBonus(queueFamilies)) % UInt32Modulus
    requires score + 450 * |queueFamilies| < UInt32Modulus
    ensures r == score + QueueBonus(queueFamilies)
    ensures score <= r
  {
    QueueBonusBound(queueFamilies);
  }
}
