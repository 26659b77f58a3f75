/** The Gerstner-wave slot table the settings panel regenerates and edits: a fixed number of
    slots, each empty (a null shared pointer, an inactive wave) or holding one wave descriptor. */
module GerstnerWaves {
  import opened Wrappers
  import opened Validation

  /** geometry::GerstnerWave::MAX_COUNT, the number of slots. */
  const MaxCount: nat := 4
  /** The "Gerstner Wave Count" input is clamped to [MinWaveCount, MaxWaveCount]. */
  const MinWaveCount: int := 1
  const MaxWaveCount: int := 4

  datatype Vec2 = Vec2(x: real, y: real)

  const Zero: Vec2 := Vec2(0.0, 0.0)
  /** The stand-in direction for an edited direction of length zero. */
  const DefaultDirection: Vec2 := Vec2(0.0, 1.0)

  predicate IsUnit(v: Vec2) {
    v.x * v.x + v.y * v.y == 1.0
  }

  /** A wave descriptor: amplitude A, angular frequency w, phase constant phi, steepness Q and the
      xz-direction D. */
  datatype GerstnerWave = GerstnerWave(amplitude: real, frequency: real, phaseConstant: real,
                                       steepness: real, direction: Vec2)

  /** The descriptor invariant: A, w and phi non-negative, Q in [0, 1], D of unit length. */
  predicate WellFormed(w: GerstnerWave) {
    && w.amplitude >= 0.0
    && w.frequency >= 0.0
    && w.phaseConstant >= 0.0
    && 0.0 <= w.steepness <= 1.0
    && IsUnit(w.direction)
  }

  predicate AllWellFormed(slots: seq<Option<GerstnerWave>>) {
    forall i :: 0 <= i < |slots| && slots[i].Some? ==> WellFormed(slots[i].value)
  }

  // ---------------------------------------------------------------------------------------------
  // Regeneration ("Generate" button)

  /** The injected float sampler: randomFloat(slot, lo, hi) is the value drawn for `slot` when
      getRandomFloat(lo, hi) is called. This predicate says it honours the requested bounds. */
  ghost predicate SamplerInBounds(randomFloat: (nat, real, real) -> real) {
    forall slot: nat, lo: real, hi: real :: lo <= hi ==> lo <= randomFloat(slot, lo, hi) <= hi
  }

  /** The injected direction sampler (getRandomDirection, a normalized random vector) yields unit
      vectors. */
  ghost predicate DirectionsUnit(randomDirection: nat -> Vec2) {
    forall slot: nat :: IsUnit(randomDirection(slot))
  }

  /** The wave freshly built for `slot`: amplitude drawn from [0.05, 0.15], frequency from
      [0.5, 2.0], phase constant from [0.3, 1.0], steepness from [0.0, 1.0], a random direction. */
  function SampledWave(randomFloat: (nat, real, real) -> real, randomDirection: nat -> Vec2,
                       slot: nat): (w: GerstnerWave)
    ensures SamplerInBounds(randomFloat) ==>
              && 0.05 <= w.amplitude <= 0.15
              && 0.5 <= w.frequency <= 2.0
              && 0.3 <= w.phaseConstant <= 1.0
              && 0.0 <= w.steepness <= 1.0
    ensures SamplerInBounds(randomFloat) && DirectionsUnit(randomDirection) ==> WellFormed(w)
  {
    GerstnerWave(randomFloat(slot, 0.05, 0.15), randomFloat(slot, 0.5, 2.0),
                 randomFloat(slot, 0.3, 1.0), randomFloat(slot, 0.0, 1.0), randomDirection(slot))
  }

  /** The slot table after regeneration with `count` waves: the first `count` slots hold fresh
      waves, the rest are empty, and nothing of the previous table survives. */
  function Regenerated(count: int, randomFloat: (nat, real, real) -> real,
                       randomDirection: nat -> Vec2): (slots: seq<Option<GerstnerWave>>)
    ensures |slots| == MaxCount
    ensures forall i :: 0 <= i < MaxCount ==> (slots[i].Some? <==> i < count)
    ensures forall i :: 0 <= i < MaxCount && i < count ==>
              slots[i] == Some(SampledWave(randomFloat, randomDirection, i))
    ensures SamplerInBounds(randomFloat) && DirectionsUnit(randomDirection) ==> AllWellFormed(slots)
  {
    seq(MaxCount, i requires 0 <= i < MaxCount =>
      if i < count then Some(SampledWave(randomFloat, randomDirection, i)) else None)
  }

  /** Regenerating zero waves empties every slot; regenerating MaxCount waves fills every slot
      with an in-range wave. */
  lemma RegenerateExtremes(randomFloat: (nat, real, real) -> real, randomDirection: nat -> Vec2)
    ensures forall i :: 0 <= i < MaxCount ==> Regenerated(0, randomFloat, randomDirection)[i] == None
    ensures SamplerInBounds(randomFloat) && DirectionsUnit(randomDirection) ==>
              forall i :: 0 <= i < MaxCount ==>
                Regenerated(MaxCount, randomFloat, randomDirection)[i].Some? &&
                WellFormed(Regenerated(MaxCount, randomFloat, randomDirection)[i].value)
  {
  }

  // ---------------------------------------------------------------------------------------------
  // Per-field edits (the sliders of one wave's tree node)

  /** One edit gesture on one field of a wave: the value the widget wrote. */
  datatype WaveEdit =
    | EditAmplitude(a: real)
    | EditFrequency(w: real)
    | EditPhaseConstant(phi: real)
    | EditSteepness(q: real)
    | EditDirection(d: Vec2)

  /** glm::clamp of a direction to the box [-1, 1] x [-1, 1], component by component. */
  function ClampDirection(d: Vec2): (r: Vec2)
    ensures -1.0 <= r.x <= 1.0 && -1.0 <= r.y <= 1.0
    ensures r == d <==> -1.0 <= d.x <= 1.0 && -1.0 <= d.y <= 1.0
    // each component separately: kept when inside [-1, 1], otherwise the bound it overshot
    ensures -1.0 <= d.x <= 1.0 ==> r.x == d.x
    ensures d.x < -1.0 ==> r.x == -1.0
    ensures d.x > 1.0 ==> r.x == 1.0
    ensures -1.0 <= d.y <= 1.0 ==> r.y == d.y
    ensures d.y < -1.0 ==> r.y == -1.0
    ensures d.y > 1.0 ==> r.y == 1.0
    ensures r == Zero <==> d == Zero
  {
    Vec2(Clamp(d.x, -1.0, 1.0), Clamp(d.y, -1.0, 1.0))
  }

  /** The normalization the renderer uses (glm::normalize, which needs a square root) maps every
      non-zero vector to a unit vector. */
  ghost predicate NormalizesToUnit(normalize: Vec2 -> Vec2) {
    forall v :: v != Zero ==> IsUnit(normalize(v))
  }

  /** A wave after one edit gesture and the force-clamp that follows it. */
  function ApplyEdit(wave: GerstnerWave, edit: WaveEdit, normalize: Vec2 -> Vec2): (r: GerstnerWave)
    // amplitude, frequency and phase constant: never negative, a non-negative value kept as
    // written, a negative one replaced by 0
    ensures edit.EditAmplitude? ==>
              r == wave.(amplitude := r.amplitude) && r.amplitude >= 0.0 &&
              (edit.a >= 0.0 <==> r.amplitude == edit.a) &&
              (edit.a < 0.0 ==> r.amplitude == 0.0)
    ensures edit.EditFrequency? ==>
              r == wave.(frequency := r.frequency) && r.frequency >= 0.0 &&
              (edit.w >= 0.0 <==> r.frequency == edit.w) &&
              (edit.w < 0.0 ==> r.frequency == 0.0)
    ensures edit.EditPhaseConstant? ==>
              r == wave.(phaseConstant := r.phaseConstant) && r.phaseConstant >= 0.0 &&
              (edit.phi >= 0.0 <==> r.phaseConstant == edit.phi) &&
              (edit.phi < 0.0 ==> r.phaseConstant == 0.0)
    // steepness: in [0, 1], a value of [0, 1] kept as written, otherwise the bound it overshot
    ensures edit.EditSteepness? ==>
              r == wave.(steepness := r.steepness) && 0.0 <= r.steepness <= 1.0 &&
              (0.0 <= edit.q <= 1.0 <==> r.steepness == edit.q) &&
              (edit.q < 0.0 ==> r.steepness == 0.0) &&
              (edit.q > 1.0 ==> r.steepness == 1.0)
    // direction: the clamped vector normalized, or the default when it is the zero vector
    ensures edit.EditDirection? ==>
              r == wave.(direction := r.direction) &&
              (ClampDirection(edit.d) == Zero ==> r.direction == DefaultDirection) &&
              (ClampDirection(edit.d) != Zero ==> r.direction == normalize(ClampDirection(edit.d)))
    ensures WellFormed(wave) && NormalizesToUnit(normalize) ==> WellFormed(r)
  {
    match edit
    case EditAmplitude(a) => wave.(amplitude := ForceNonNegative(a))
    case EditFrequency(w) => wave.(frequency := ForceNonNegative(w))
    case EditPhaseConstant(phi) => wave.(phaseConstant := ForceNonNegative(phi))
    case EditSteepness(q) => wave.(steepness := Clamp(q, 0.0, 1.0))
    case EditDirection(d) =>
      var clamped := ClampDirection(d);
      wave.(direction := if clamped == Zero then DefaultDirection else normalize(clamped))
  }

  /** The slot table after an edit gesture on slot i: an empty slot is skipped, and no other slot
      changes. */
  function EditSlots(slots: seq<Option<GerstnerWave>>, i: nat, edit: WaveEdit,
                     normalize: Vec2 -> Vec2): (r: seq<Option<GerstnerWave>>)
    requires i < |slots|
    ensures |r| == |slots|
    ensures forall k :: 0 <= k < |slots| && k != i ==> r[k] == slots[k]
    ensures slots[i].None? ==> r == slots
    ensures slots[i].Some? ==> r[i] == Some(ApplyEdit(slots[i].value, edit, normalize))
    ensures AllWellFormed(slots) && NormalizesToUnit(normalize) ==> AllWellFormed(r)
  {
    match slots[i]
    case None => slots
    case Some(wave) => slots[i := Some(ApplyEdit(wave, edit, normalize))]
  }
}
