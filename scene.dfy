/** The program's per-frame settings panel and scene set-up: the render engine's animation state
    and Gerstner wave slots, the panel handlers that write them, and initScene's water grid. */
module Scene {
  import opened Wrappers
  import opened Validation
  import opened GerstnerWaves
  import opened AnimationClock
  import opened WaterGrid

  /** The bounce-phase tick when it applies, spelled the way the frame code computes it. */
  lemma BouncePhaseStep(phase: real, period: real, dt: real)
    requires period > 0.0
    ensures AdvanceBouncePhase(phase, true, period, dt) == Mod(phase + (1.0 / period) * dt, 1.0)
  {
  }

  /** The render-engine state the settings panel reads and writes. */
  class RenderEngine {
    /** The fixed-size table of wave slots; an empty slot is a null shared pointer. */
    const gerstnerWaves: array<Option<GerstnerWave>>
    var timeOfDayInHours: real
    var animationSpeedTimeOfDayInSecondsPerHour: real
    var isAnimatingTimeOfDay: bool
    var waveAnimationTimeInSeconds: real
    var isAnimatingWaves: bool
    var verticalBounceWavePhase: real
    var animationSpeedVerticalBounceWavePhasePeriodInSeconds: real

    /** The clock fields that the panel and the frame ticks keep in range. */
    predicate ClockValid()
      reads this
    {
      ClockInRange(timeOfDayInHours, waveAnimationTimeInSeconds, verticalBounceWavePhase)
    }

    /** An engine with MaxCount empty wave slots and the given animation settings. */
    constructor (hours: real, hoursSpeed: real, animatingTime: bool,
                 waveSeconds: real, animatingWaves: bool, phase: real, period: real)
      ensures gerstnerWaves.Length == MaxCount && fresh(gerstnerWaves)
      ensures forall i :: 0 <= i < MaxCount ==> gerstnerWaves[i] == None
      ensures timeOfDayInHours == hours && animationSpeedTimeOfDayInSecondsPerHour == hoursSpeed
      ensures isAnimatingTimeOfDay == animatingTime
      ensures waveAnimationTimeInSeconds == waveSeconds && isAnimatingWaves == animatingWaves
      ensures verticalBounceWavePhase == phase
      ensures animationSpeedVerticalBounceWavePhasePeriodInSeconds == period
    {
      gerstnerWaves := new Option<GerstnerWave>[MaxCount](_ => None);
      timeOfDayInHours := hours;
      animationSpeedTimeOfDayInSecondsPerHour := hoursSpeed;
      isAnimatingTimeOfDay := animatingTime;
      waveAnimationTimeInSeconds := waveSeconds;
      isAnimatingWaves := animatingWaves;
      verticalBounceWavePhase := phase;
      animationSpeedVerticalBounceWavePhasePeriodInSeconds := period;
    }
  }

  /** The application: the panel's own wave-count setting, the render engine and the water grid. */
  class Program {
    const renderEngine: RenderEngine
    /** GRID_LENGTH of initScene: vertices per side of the water grid. */
    const gridLength: nat
    /** The "Gerstner Wave Count" input (a function-local static in buildUI, initially 4). */
    var gerstnerWaveCount: int
    /** The water grid mesh; null when its texture could not be loaded. */
    var waterGrid: MeshObject?

    ghost predicate Valid()
      reads this
    {
      renderEngine.gerstnerWaves.Length == MaxCount &&
      ValidSide(gridLength) &&
      MinWaveCount <= gerstnerWaveCount <= MaxWaveCount
    }

    constructor (engine: RenderEngine)
      requires engine.gerstnerWaves.Length == MaxCount
      ensures Valid()
      ensures renderEngine == engine && gridLength == GridLength
      ensures gerstnerWaveCount == 4 && waterGrid == null
    {
      renderEngine := engine;
      gridLength := GridLength;
      gerstnerWaveCount := 4;
      waterGrid := null;
    }

    // -------------------------------------------------------------------------------------------
    // Scene initialization

    /** initScene's water grid: the row-major index table of a gridLength x gridLength grid, two
        triangles per cell appended to a fresh mesh, then the texture; a texture id of 0 (the
        load failed) drops the grid. The texture loader is the parameter `loadedTextureId`. */
    method InitScene(loadedTextureId: nat)
      requires Valid()
      modifies this`waterGrid
      ensures loadedTextureId == 0 <==> waterGrid == null
      ensures waterGrid != null ==>
                fresh(waterGrid) && waterGrid.drawFaces == Topology(gridLength) &&
                waterGrid.textureId == loadedTextureId
    {
      var mesh := NewWaterGrid(gridLength);
      mesh.textureId := loadedTextureId;
      waterGrid := mesh;
      if mesh.textureId == 0 {
        waterGrid := null;
      }
    }

    // -------------------------------------------------------------------------------------------
    // Gerstner waves

    /** The wave-count input: whatever integer the widget wrote is clamped to [1, 4]. */
    method SetGerstnerWaveCount(v: int)
      requires Valid()
      modifies this`gerstnerWaveCount
      ensures Valid()
      ensures gerstnerWaveCount == ClampInt(v, MinWaveCount, MaxWaveCount)
    {
      gerstnerWaveCount := v;
      gerstnerWaveCount := ClampInt(gerstnerWaveCount, MinWaveCount, MaxWaveCount);
    }

    /** The "Generate" button: slot i < count receives a freshly sampled wave (the old pointer is
        released first), every other slot is emptied. */
    method Generate(randomFloat: (nat, real, real) -> real, randomDirection: nat -> Vec2)
      requires Valid()
      modifies renderEngine.gerstnerWaves
      ensures renderEngine.gerstnerWaves[..] ==
              Regenerated(gerstnerWaveCount, randomFloat, randomDirection)
      ensures SamplerInBounds(randomFloat) && DirectionsUnit(randomDirection) ==>
              AllWellFormed(renderEngine.gerstnerWaves[..])
    {
      var waves := renderEngine.gerstnerWaves;
      ghost var target := Regenerated(gerstnerWaveCount, randomFloat, randomDirection);
      for i := 0 to MaxCount
        invariant forall k :: 0 <= k < i ==> waves[k] == target[k]
      {
        if i < gerstnerWaveCount {
          var wave := SampledWave(randomFloat, randomDirection, i);
          waves[i] := None;
          waves[i] := Some(wave);
        } else {
          waves[i] := None;
        }
      }
      assert waves[..] == target;
    }

    /** One edit gesture in the tree node of wave i, with its force-clamp; an empty slot has no
        tree node, so nothing changes. */
    method EditWave(i: nat, edit: WaveEdit, normalize: Vec2 -> Vec2)
      requires Valid() && i < MaxCount
      modifies renderEngine.gerstnerWaves
      ensures renderEngine.gerstnerWaves[..] ==
              EditSlots(old(renderEngine.gerstnerWaves[..]), i, edit, normalize)
      ensures old(AllWellFormed(renderEngine.gerstnerWaves[..])) && NormalizesToUnit(normalize) ==>
              AllWellFormed(renderEngine.gerstnerWaves[..])
    {
      var waves := renderEngine.gerstnerWaves;
      if waves[i].None? {
        return;
      }
      var wave := waves[i].value;
      match edit {
      case EditAmplitude(a) =>
        wave := wave.(amplitude := a);
        if wave.amplitude < 0.0 {
          wave := wave.(amplitude := 0.0);
        }
      case EditFrequency(w) =>
        wave := wave.(frequency := w);
        if wave.frequency < 0.0 {
          wave := wave.(frequency := 0.0);
        }
      case EditPhaseConstant(phi) =>
        wave := wave.(phaseConstant := phi);
        if wave.phaseConstant < 0.0 {
          wave := wave.(phaseConstant := 0.0);
        }
      case EditSteepness(q) =>
        wave := wave.(steepness := Clamp(q, 0.0, 1.0));
      case EditDirection(d) =>
        wave := wave.(direction := ClampDirection(d));
        if wave.direction == Zero {
          wave := wave.(direction := DefaultDirection);
        } else {
          wave := wave.(direction := normalize(wave.direction));
        }
      }
      waves[i] := Some(wave);
    }

    // -------------------------------------------------------------------------------------------
    // Time of day

    /** The time-of-day slider: the written value is forced into [MinTime, MaxTime]. */
    method SetTimeOfDay(hours: real)
      modifies renderEngine`timeOfDayInHours
      ensures renderEngine.timeOfDayInHours == Clamp(hours, MinTime, MaxTime)
      ensures old(renderEngine.ClockValid()) ==> renderEngine.ClockValid()
    {
      renderEngine.timeOfDayInHours := hours;
      renderEngine.timeOfDayInHours := Clamp(renderEngine.timeOfDayInHours, MinTime, MaxTime);
    }

    method ToggleTimeOfDayAnimation()
      modifies renderEngine`isAnimatingTimeOfDay
      ensures renderEngine.isAnimatingTimeOfDay == !old(renderEngine.isAnimatingTimeOfDay)
    {
      renderEngine.isAnimatingTimeOfDay := !renderEngine.isAnimatingTimeOfDay;
    }

    /** The time-of-day tick of one frame lasting dt seconds. */
    method AnimateTimeOfDay(dt: real)
      modifies renderEngine`timeOfDayInHours
      ensures renderEngine.timeOfDayInHours ==
              AdvanceTimeOfDay(old(renderEngine.timeOfDayInHours), renderEngine.isAnimatingTimeOfDay,
                               renderEngine.animationSpeedTimeOfDayInSecondsPerHour, dt)
      ensures old(renderEngine.ClockValid()) ==> renderEngine.ClockValid()
    {
      var engine := renderEngine;
      ghost var advanced := AdvanceTimeOfDay(engine.timeOfDayInHours, engine.isAnimatingTimeOfDay,
                                             engine.animationSpeedTimeOfDayInSecondsPerHour, dt);
      if engine.isAnimatingTimeOfDay && engine.animationSpeedTimeOfDayInSecondsPerHour > 0.0 {
        var deltaTimeOfDayInHours := (1.0 / engine.animationSpeedTimeOfDayInSecondsPerHour) * dt;
        var unwrapped := engine.timeOfDayInHours + deltaTimeOfDayInHours;
        engine.timeOfDayInHours := unwrapped;
        engine.timeOfDayInHours := MinTime + Mod(unwrapped - MinTime, MaxTime - MinTime);
      }
      assert engine.timeOfDayInHours == advanced;
    }

    // -------------------------------------------------------------------------------------------
    // Wave animation

    /** The wave-animation-time slider: a negative value is forced to 0. */
    method SetWaveAnimationTime(seconds: real)
      modifies renderEngine`waveAnimationTimeInSeconds
      ensures renderEngine.waveAnimationTimeInSeconds == ForceNonNegative(seconds)
      ensures old(renderEngine.ClockValid()) ==> renderEngine.ClockValid()
    {
      renderEngine.waveAnimationTimeInSeconds := seconds;
      if renderEngine.waveAnimationTimeInSeconds < 0.0 {
        renderEngine.waveAnimationTimeInSeconds := 0.0;
      }
    }

    /** The vertical-bounce-wave phase slider: the written value is forced into [0, 1]. */
    method SetBounceWavePhase(phase: real)
      modifies renderEngine`verticalBounceWavePhase
      ensures renderEngine.verticalBounceWavePhase == Clamp(phase, 0.0, 1.0)
      ensures old(renderEngine.ClockValid()) ==> renderEngine.ClockValid()
    {
      renderEngine.verticalBounceWavePhase := phase;
      renderEngine.verticalBounceWavePhase := Clamp(renderEngine.verticalBounceWavePhase, 0.0, 1.0);
    }

    method ToggleWaveAnimation()
      modifies renderEngine`isAnimatingWaves
      ensures renderEngine.isAnimatingWaves == !old(renderEngine.isAnimatingWaves)
    {
      renderEngine.isAnimatingWaves := !renderEngine.isAnimatingWaves;
    }

    /** The bounce-period slider: a negative period is forced to 0 (0 stops the phase). */
    method SetBounceWavePeriod(period: real)
      modifies renderEngine`animationSpeedVerticalBounceWavePhasePeriodInSeconds
      ensures renderEngine.animationSpeedVerticalBounceWavePhasePeriodInSeconds ==
              ForceNonNegative(period)
    {
      renderEngine.animationSpeedVerticalBounceWavePhasePeriodInSeconds := period;
      if renderEngine.animationSpeedVerticalBounceWavePhasePeriodInSeconds < 0.0 {
        renderEngine.animationSpeedVerticalBounceWavePhasePeriodInSeconds := 0.0;
      }
    }

    /** The wave-animation tick of one frame lasting dt seconds: the wave time grows (reset to 0
        if it turned negative) and the bounce phase advances by dt / period, wrapped into [0, 1). */
    method AnimateWaves(dt: real)
      modifies renderEngine`waveAnimationTimeInSeconds, renderEngine`verticalBounceWavePhase
      ensures renderEngine.waveAnimationTimeInSeconds ==
              AdvanceWaveTime(old(renderEngine.waveAnimationTimeInSeconds),
                              renderEngine.isAnimatingWaves, dt)
      ensures renderEngine.verticalBounceWavePhase ==
              AdvanceBouncePhase(old(renderEngine.verticalBounceWavePhase), renderEngine.isAnimatingWaves,
                                 renderEngine.animationSpeedVerticalBounceWavePhasePeriodInSeconds, dt)
      ensures old(renderEngine.ClockValid()) ==> renderEngine.ClockValid()
    {
      var engine := renderEngine;
      if engine.isAnimatingWaves {
        engine.waveAnimationTimeInSeconds := engine.waveAnimationTimeInSeconds + dt;
        if engine.waveAnimationTimeInSeconds < 0.0 {
          engine.waveAnimationTimeInSeconds := 0.0;
        }
        var period := engine.animationSpeedVerticalBounceWavePhasePeriodInSeconds;
        if period > 0.0 {
          var deltaVerticalBounceWavePhase := (1.0 / period) * dt;
          engine.verticalBounceWavePhase := engine.verticalBounceWavePhase + deltaVerticalBounceWavePhase;
          engine.verticalBounceWavePhase := Mod(engine.verticalBounceWavePhase, 1.0);
          BouncePhaseStep(old(engine.verticalBounceWavePhase), period, dt);
        }
      }
    }
  }
}
