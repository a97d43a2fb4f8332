/**
 * The per-word decisions of the karaoke animation (`drawLyricWord`,
 * `drawGlowAnimation` and `drawStandardAnimation` in
 * components/LyricLineCanvas.ts): which phase a word is in at the playback
 * time, its clamped progress, which of the two animations it gets, and the
 * scalar quantities each animation derives from time. The transcendental
 * terms (sine breathing, Gaussian scale and brightness) are not modelled.
 */
module WordAnimator {
  import opened Wrappers
  import opened LineLayout

  datatype Phase = Pending | Active | Done

  /** A word's duration and the time elapsed since it started. */
  function Duration(w: WordLayout): real {
    w.endTime - w.startTime
  }

  function Elapsed(w: WordLayout, t: real): real {
    t - w.startTime
  }

  /** The branch `drawLyricWord` takes at playback time `t`: not yet started,
      already over, or in between with both ends included. */
  function PhaseAt(w: WordLayout, t: real): (p: Phase)
    ensures p == Pending <==> t < w.startTime
    ensures p == Done <==> w.startTime <= t && w.endTime < t
    ensures p == Active <==> w.startTime <= t <= w.endTime
  {
    if t < w.startTime then Pending
    else if t > w.endTime then Done
    else Active
  }

  function Rank(p: Phase): nat {
    match p
    case Pending => 0
    case Active => 1
    case Done => 2
  }

  /** As playback advances a word only moves forward through its phases:
      pending, then active, then done. */
  lemma PhasesInOrder(w: WordLayout, t1: real, t2: real)
    requires t1 <= t2
    ensures Rank(PhaseAt(w, t1)) <= Rank(PhaseAt(w, t2))
  {
  }

  function Min(a: real, b: real): real {
    if a <= b then a else b
  }

  /** `Math.max(0, Math.min(1, x))`. */
  function Clamp01(x: real): (r: real)
    ensures 0.0 <= r <= 1.0
    ensures 0.0 <= x <= 1.0 ==> r == x
    ensures x < 0.0 ==> r == 0.0
    ensures x > 1.0 ==> r == 1.0
  {
    if x < 0.0 then 0.0 else if x > 1.0 then 1.0 else x
  }

  lemma RatioWithinUnit(a: real, b: real)
    requires 0.0 <= a <= b && b > 0.0
    ensures 0.0 <= a / b <= 1.0
  {
    assert a / b * b == a;
  }

  lemma RatioMonotone(a1: real, a2: real, b: real)
    requires a1 <= a2 && b > 0.0
    ensures a1 / b <= a2 / b
  {
    assert a1 / b * b == a1 && a2 / b * b == a2;
  }

  /** The progress of a word: elapsed over duration, clamped to [0, 1], and 0
      for a word without positive duration. */
  function Progress(w: WordLayout, t: real): (p: real)
    ensures 0.0 <= p <= 1.0
    ensures Duration(w) <= 0.0 ==> p == 0.0
  {
    if Duration(w) > 0.0 then Clamp01(Elapsed(w, t) / Duration(w)) else 0.0
  }

  /** While the word is active the clamp never bites: the progress is exactly
      the elapsed share of the duration. */
  lemma ProgressIsRatio(w: WordLayout, t: real)
    requires Duration(w) > 0.0 && PhaseAt(w, t) == Active
    ensures Progress(w, t) == Elapsed(w, t) / Duration(w)
  {
    RatioWithinUnit(Elapsed(w, t), Duration(w));
  }

  /** Progress never goes back as playback advances. */
  lemma ProgressMonotone(w: WordLayout, t1: real, t2: real)
    requires t1 <= t2
    ensures Progress(w, t1) <= Progress(w, t2)
  {
    if Duration(w) > 0.0 {
      RatioMonotone(Elapsed(w, t1), Elapsed(w, t2), Duration(w));
    }
  }

  /** An active word starts at progress 0 and, when it has a duration, ends at 1. */
  lemma ProgressEnds(w: WordLayout)
    ensures Progress(w, w.startTime) == 0.0
    ensures Duration(w) > 0.0 ==> Progress(w, w.endTime) == 1.0
  {
    if Duration(w) > 0.0 {
      assert Elapsed(w, w.startTime) == 0.0 && Elapsed(w, w.endTime) == Duration(w);
      SelfRatio(Duration(w));
    }
  }

  lemma SelfRatio(d: real)
    requires d > 0.0
    ensures 0.0 / d == 0.0 && d / d == 1.0
  {
  }

  datatype Strategy = Glow | Standard

  /** Words longer than this (in seconds) may glow. */
  const GLOW_MIN_DURATION: real := 1.5
  /** Words with fewer characters than this may glow. */
  const GLOW_MAX_CHARS: nat := 7

  /** The animation an active word gets: the glow for a long-held short word,
      the standard lift and gradient otherwise. */
  function StrategyOf(w: WordLayout): (s: Strategy)
    ensures s == Glow <==> Duration(w) > GLOW_MIN_DURATION && |w.text| < GLOW_MAX_CHARS
  {
    if Duration(w) > GLOW_MIN_DURATION && |w.text| < GLOW_MAX_CHARS then Glow else Standard
  }

  /** The glow never lasts longer than one second plus a quarter second per character. */
  function MaxGlowDuration(w: WordLayout): real {
    1.0 + |w.text| as real * 0.25
  }

  /** The glow's duration: the word's duration, capped. */
  function EffectiveDuration(w: WordLayout): (d: real)
    ensures d <= Duration(w) && d <= MaxGlowDuration(w)
    ensures d == Duration(w) || d == MaxGlowDuration(w)
  {
    Min(Duration(w), MaxGlowDuration(w))
  }

  /** A glowing word's capped duration is at least one second. */
  lemma GlowDurationAtLeastOne(w: WordLayout)
    requires StrategyOf(w) == Glow
    ensures 1.0 <= EffectiveDuration(w)
  {
  }

  /** The glow is still sweeping: less time has elapsed than its duration. */
  predicate Animating(w: WordLayout, t: real) {
    Elapsed(w, t) < EffectiveDuration(w)
  }

  /** The glow's progress: elapsed over the capped duration, clamped, and 1 as
      soon as the sweep is over. */
  function EffectiveProgress(w: WordLayout, t: real): (p: real)
    ensures 0.0 <= p <= 1.0
    ensures !Animating(w, t) ==> p == 1.0
    ensures Animating(w, t) && 0.0 <= Elapsed(w, t) ==> p == Elapsed(w, t) / EffectiveDuration(w)
  {
    var d := EffectiveDuration(w);
    var e := Elapsed(w, t);
    var p := if d > 0.0 then Clamp01(e / d) else 0.0;
    assert Animating(w, t) && 0.0 <= e ==> p == e / d by {
      if Animating(w, t) && 0.0 <= e { RatioWithinUnit(e, d); }
    }
    if Animating(w, t) then p else 1.0
  }

  /** How far the sweep reaches beyond the first and the last character. */
  const GLOW_SPREAD: real := 3.0

  /** The character position the sweep is at: it runs from `-spread` before
      the first character to `spread` after the last. */
  function ActiveIndex(w: WordLayout, t: real): (a: real)
    ensures -GLOW_SPREAD <= a <= |w.text| as real + GLOW_SPREAD
    ensures EffectiveProgress(w, t) == 0.0 ==> a == -GLOW_SPREAD
    ensures !Animating(w, t) ==> a == |w.text| as real + GLOW_SPREAD
  {
    var p := EffectiveProgress(w, t);
    var span := |w.text| as real + GLOW_SPREAD * 2.0;
    assert 0.0 <= p * span <= span by { ScaleWithinUnit(p, span); }
    p * span - GLOW_SPREAD
  }

  lemma ScaleWithinUnit(p: real, x: real)
    requires 0.0 <= p <= 1.0 && 0.0 <= x
    ensures 0.0 <= p * x <= x
  {
    assert x - p * x == (1.0 - p) * x;
  }

  /** When character `k` of the word lights up: its share of the capped duration. */
  function CharStartTime(w: WordLayout, k: nat): real
    requires |w.text| > 0
  {
    w.startTime + (k as real / |w.text| as real) * EffectiveDuration(w)
  }

  /** Character `k` is drawn in full white: the sweep is over or has reached it. */
  predicate CharLit(w: WordLayout, t: real, k: nat)
    requires |w.text| > 0
  {
    !Animating(w, t) || t >= CharStartTime(w, k)
  }

  lemma CharStartsInOrder(w: WordLayout, k1: nat, k2: nat)
    requires |w.text| > 0 && k1 <= k2 && EffectiveDuration(w) >= 0.0
    ensures CharStartTime(w, k1) <= CharStartTime(w, k2)
  {
    var n := |w.text| as real;
    var d := EffectiveDuration(w);
    assert k1 as real / n <= k2 as real / n by { RatioMonotone(k1 as real, k2 as real, n); }
    assert (k2 as real / n) * d - (k1 as real / n) * d == (k2 as real / n - k1 as real / n) * d;
  }

  /** The sweep lights the characters from left to right: a lit character has
      only lit characters before it. */
  lemma LitLeftToRight(w: WordLayout, t: real, k1: nat, k2: nat)
    requires StrategyOf(w) == Glow && |w.text| > 0 && k1 <= k2
    requires CharLit(w, t, k2)
    ensures CharLit(w, t, k1)
  {
    CharStartsInOrder(w, k1, k2);
  }

  /** A lit character stays lit as playback advances. */
  lemma LitStaysLit(w: WordLayout, t1: real, t2: real, k: nat)
    requires |w.text| > 0 && t1 <= t2 && CharLit(w, t1, k)
    ensures CharLit(w, t2, k)
  {
  }

  /** The first character lights up the moment the word starts, and every
      character is lit once the capped duration has elapsed. */
  lemma SweepEnds(w: WordLayout, t: real, k: nat)
    requires |w.text| > 0
    ensures CharLit(w, w.startTime, 0)
    ensures Elapsed(w, t) >= EffectiveDuration(w) ==> CharLit(w, t, k)
  {
  }

  /** A glowing word is fully lit at the last moment it is active. */
  lemma GlowEndsFullyLit(w: WordLayout, k: nat)
    requires StrategyOf(w) == Glow && |w.text| > 0
    ensures !Animating(w, w.endTime) && CharLit(w, w.endTime, k)
    ensures EffectiveProgress(w, w.endTime) == 1.0
  {
  }

  /** The sweep over the characters of a glowing word with text. */
  datatype CharSweep = CharSweep(effectiveProgress: real, activeIndex: real, lit: seq<bool>)

  function SweepAt(w: WordLayout, t: real): (s: CharSweep)
    requires |w.text| > 0
    ensures |s.lit| == |w.text|
    ensures forall k :: 0 <= k < |w.text| ==> s.lit[k] == CharLit(w, t, k)
  {
    CharSweep(EffectiveProgress(w, t), ActiveIndex(w, t),
      seq(|w.text|, k requires 0 <= k < |w.text| => CharLit(w, t, k)))
  }

  /** The gradient stops of the standard animation: a window of 0.2 on each
      side of the progress, clamped to [0, 1]. */
  function StartStop(progress: real): real {
    Clamp01(progress - 0.2)
  }

  function EndStop(progress: real): real {
    Clamp01(progress + 0.2)
  }

  /** The stops are ordered, around the progress, and at most 0.4 apart;
      exactly 0.4 while the window lies inside [0, 1]. */
  lemma StopsWindow(progress: real)
    requires 0.0 <= progress <= 1.0
    ensures 0.0 <= StartStop(progress) <= progress <= EndStop(progress) <= 1.0
    ensures EndStop(progress) - StartStop(progress) <= 0.4
    ensures 0.2 <= progress <= 0.8 ==> EndStop(progress) - StartStop(progress) == 0.4
  {
  }

  /** At the start of a word the white part of the gradient has not begun
      and the fade reaches 0.2; at its end the fade starts at 0.8. */
  lemma StopsAtEnds()
    ensures StartStop(0.0) == 0.0 && EndStop(0.0) == 0.2
    ensures StartStop(1.0) == 0.8 && EndStop(1.0) == 1.0
  {
  }

  /** The gradient spans the word's width, and at least one pixel. */
  function GradientWidth(w: WordLayout): (g: real)
    ensures g >= 1.0 && g >= w.width
    ensures g == w.width || g == 1.0
  {
    Max(w.width, 1.0)
  }

  /** The standard animation adds a shadow glow only to a verbatim word held
      longer than the glow threshold. */
  predicate ShadowGlow(w: WordLayout) {
    w.isVerbatim && Duration(w) > GLOW_MIN_DURATION
  }

  /** The lift of a word that is done. */
  const DONE_LIFT: real := -3.0

  /** What `drawLyricWord` draws for a word at time `t`, with the scalars it
      computes: dimmed text before the word; white text lifted by 3 pixels
      after it; while it is active, either the glow with its capped duration
      and character sweep (none for an empty text) or the standard animation
      with its progress, shadow flag, gradient width and stops. */
  datatype WordFrame =
    | PendingFrame
    | DoneFrame(lift: real)
    | GlowFrame(effectiveDuration: real, animating: bool, sweep: Option<CharSweep>)
    | StandardFrame(progress: real, shadow: bool, gradientWidth: real, startStop: real, endStop: real)

  function FrameAt(w: WordLayout, t: real): WordFrame {
    match PhaseAt(w, t)
    case Pending => PendingFrame
    case Done => DoneFrame(DONE_LIFT)
    case Active => if StrategyOf(w) == Glow then GlowFrameAt(w, t) else StandardFrameFor(w, Progress(w, t))
  }

  function GlowFrameAt(w: WordLayout, t: real): WordFrame {
    GlowFrame(EffectiveDuration(w), Animating(w, t), if |w.text| == 0 then None else Some(SweepAt(w, t)))
  }

  /** `drawStandardAnimation`, which receives the progress already computed. */
  function StandardFrameFor(w: WordLayout, progress: real): WordFrame {
    StandardFrame(progress, ShadowGlow(w), GradientWidth(w), StartStop(progress), EndStop(progress))
  }

  /** Exactly one of the three phases decides the frame, and while the word is
      active the choice between glow and standard depends on the word alone,
      never on the time. */
  lemma FrameFollowsPhase(w: WordLayout, t: real)
    ensures FrameAt(w, t).PendingFrame? <==> t < w.startTime
    ensures FrameAt(w, t).DoneFrame? <==> w.startTime <= t && w.endTime < t
    ensures FrameAt(w, t).GlowFrame? <==> w.startTime <= t <= w.endTime && StrategyOf(w) == Glow
    ensures FrameAt(w, t).StandardFrame? <==> w.startTime <= t <= w.endTime && StrategyOf(w) == Standard
    ensures FrameAt(w, t).DoneFrame? ==> FrameAt(w, t).lift == DONE_LIFT
  {
  }

  lemma StrategyFixedWhileActive(w: WordLayout, t1: real, t2: real)
    requires PhaseAt(w, t1) == Active && PhaseAt(w, t2) == Active
    ensures FrameAt(w, t1).GlowFrame? == FrameAt(w, t2).GlowFrame?
  {
  }

  /** The standard frame's stops form the clamped window around a progress in [0, 1]. */
  lemma StandardFrameStops(w: WordLayout, progress: real)
    requires 0.0 <= progress <= 1.0
    ensures var f := StandardFrameFor(w, progress);
      && 0.0 <= f.startStop <= f.progress <= f.endStop <= 1.0
      && f.endStop - f.startStop <= 0.4
      && f.gradientWidth >= 1.0 && f.gradientWidth >= w.width
      && (f.shadow ==> w.isVerbatim)
  {
    StopsWindow(progress);
  }

  /** The glow frame of an active word: its capped duration of at least a
      second; no character sweep exactly for an empty text; otherwise a
      progress in [0, 1], a sweep position within the spread around the
      characters, one lit flag per character, and every character lit once
      the sweep is over. */
  lemma GlowFrameShape(w: WordLayout, t: real)
    requires FrameAt(w, t).GlowFrame?
    ensures var f := FrameAt(w, t);
      && 1.0 <= f.effectiveDuration <= Duration(w)
      && f.effectiveDuration <= MaxGlowDuration(w)
      && (f.sweep.None? <==> |w.text| == 0)
      && (f.sweep.Some? ==>
            var s := f.sweep.value;
            && 0.0 <= s.effectiveProgress <= 1.0
            && -GLOW_SPREAD <= s.activeIndex <= |w.text| as real + GLOW_SPREAD
            && |s.lit| == |w.text|
            && (!f.animating ==> forall k :: 0 <= k < |s.lit| ==> s.lit[k]))
  {
    assert FrameAt(w, t) == GlowFrameAt(w, t);
  }

  /** A word that only exists for wrapping (no timed words in its line) is
      pending before the line's time and active from then on until the
      never-ending end time; it never gets the standard shadow glow. */
  lemma SynthesizedWordsActive(cfg: LineConfig, line: LyricLine, segmenter: Option<Segmenter>,
                               lang: Language, k: nat, t: real)
    requires cfg.baseSize >= 0.0 && |line.words| == 0
    requires k < |LineMeasure(cfg, LineAtoms(line, segmenter, lang)).words|
    ensures var w := LineMeasure(cfg, LineAtoms(line, segmenter, lang)).words[k];
      && (t < line.time ==> PhaseAt(w, t) == Pending)
      && (line.time <= t <= NEVER_ENDS ==> PhaseAt(w, t) == Active)
      && !ShadowGlow(w)
  {
    var atoms := LineAtoms(line, segmenter, lang);
    WordsCarryAtoms(cfg, atoms);
    SynthesizedTiming(line, segmenter, lang);
    assert atoms[k] in atoms;
  }
}
