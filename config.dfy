/** The constant presets of config.py and the two ways the pipeline derives its
    per-call settings from them: a material preset copied with its
    preprocessing fields replaced, and the detection defaults with four entries
    replaced. The dictionaries are structured records here, so each has exactly
    its declared fields. */
module Config {
  import opened Common

  /** One entry of MATERIAL_PRESETS. */
  datatype MaterialPreset = MaterialPreset(
    claheClip: real,
    tophatKernel: int,
    medianKernel: int,
    invert: bool,
    scratchRemoval: bool)

  /** DETECTION_DEFAULTS, and the dictionaries built from it for one detection. */
  datatype DetectionConfig = DetectionConfig(
    threshold: int,
    morphIter: int,
    minDiam: real,
    maxDiam: real,
    maxBlobs: int)

  const GlassPreset: MaterialPreset := MaterialPreset(2.0, 15, 3, false, false)
  const AluminumPreset: MaterialPreset := MaterialPreset(2.0, 25, 3, true, true)

  /** A structuring-element size OpenCV accepts for these filters: odd and at least 3. */
  predicate ValidKernel(k: int) {
    k >= 3 && k % 2 == 1
  }

  /** `MATERIAL_PRESETS[material]`; `None` stands for the KeyError of an unknown name. */
  function MaterialPresets(material: string): (p: Option<MaterialPreset>)
    ensures p.Some? <==> material == "glass" || material == "aluminum"
    ensures p.Some? ==> (p.value.invert <==> material == "aluminum")
    ensures p.Some? ==> p.value.scratchRemoval == p.value.invert
    ensures p.Some? ==> ValidKernel(p.value.tophatKernel) && ValidKernel(p.value.medianKernel)
    ensures p.Some? ==> p.value.claheClip > 0.0
  {
    if material == "glass" then Some(GlassPreset)
    else if material == "aluminum" then Some(AluminumPreset)
    else None
  }

  /** DETECTION_DEFAULTS. */
  function DetectionDefaults(): (c: DetectionConfig)
    ensures c.minDiam <= c.maxDiam
    ensures 0 <= c.threshold <= 255
    ensures c.morphIter >= 1 && c.maxBlobs >= 0
  {
    DetectionConfig(120, 2, 5.0, 200.0, 8)
  }

  /** `preset = MATERIAL_PRESETS[m].copy()` followed by assignments to
      "clahe_clip", "tophat_kernel" and "median_kernel": the copy differs from
      the preset in those three fields only. */
  function WithPreprocessing(preset: MaterialPreset, claheClip: real, tophatKernel: int, medianKernel: int): (r: MaterialPreset)
    ensures r.invert == preset.invert && r.scratchRemoval == preset.scratchRemoval
    ensures r.claheClip == claheClip && r.tophatKernel == tophatKernel && r.medianKernel == medianKernel
  {
    preset.(claheClip := claheClip, tophatKernel := tophatKernel, medianKernel := medianKernel)
  }

  /** `{**DETECTION_DEFAULTS, "threshold": ..., "morph_iter": ..., "min_diam": ..., "max_diam": ...}`:
      every entry not overridden, that is "max_blobs", keeps its default. */
  function DetectionFor(threshold: int, morphIter: int, minDiam: real, maxDiam: real): (c: DetectionConfig)
    ensures c.maxBlobs == DetectionDefaults().maxBlobs
    ensures c.threshold == threshold && c.morphIter == morphIter
    ensures c.minDiam == minDiam && c.maxDiam == maxDiam
  {
    DetectionDefaults().(threshold := threshold, morphIter := morphIter, minDiam := minDiam, maxDiam := maxDiam)
  }
}
