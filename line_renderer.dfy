/**
 * Drawing of one line block (`drawLyricLine`, `drawLyricWord` and `roundRect`
 * in components/LyricLineCanvas.ts) as an abstract log of canvas commands:
 * the block transform that scales around the block's centre, the blur clamp,
 * the hover background with its clamped corner radius, the words (plain or
 * animated), the translation lines, and the save/restore pairs around them.
 * Pixels, fonts, gradients and shadows are not modelled; an animated word is
 * one abstract command carrying the frame its animation is computed from.
 */
module LineRenderer {
  import opened Wrappers
  import opened LineLayout
  import opened DocumentLayout
  import opened WordAnimator

  /** A fill style: white at some opacity, or opaque white. */
  datatype Paint = Tint(alpha: real) | White

  datatype Command =
    | Save
    | Restore
    | Translate(dx: real, dy: real)
    | Scale(k: real)
    | SetAlpha(alpha: real)
    | SetFilter(blur: Option<real>)
    | FillRoundRect(x: real, y: real, w: real, h: real, r: real, paint: Paint)
    | FillText(text: string, x: real, y: real, paint: Paint)
    | FillAnimated(word: WordLayout, frame: WordFrame)

  /** The arguments of `drawLyricLine` besides the canvas and the layout. */
  datatype LineDraw = LineDraw(
    x: real,
    y: real,
    scale: real,
    opacity: real,
    blur: real,
    isActive: bool,
    currentTime: real,
    isMobile: bool,
    isHovered: bool)

  /** Blurs of at most half a pixel are dropped; larger ones are kept as given. */
  function BlurFilter(blur: real): (f: Option<real>)
    ensures f.Some? <==> blur > 0.5
    ensures f.Some? ==> f.value == blur
  {
    if blur > 0.5 then Some(blur) else None
  }

  /** The hover background spans the text plus 16 pixels on each side, and at
      least 200 pixels. */
  function HoverWidth(textWidth: real): (w: real)
    ensures w >= textWidth + 32.0 && w >= 200.0
    ensures w == textWidth + 32.0 || w == 200.0
  {
    Max(textWidth + 32.0, 200.0)
  }

  /** `roundRect`'s radius: halved to fit the width, then to fit the height. */
  function RoundRectRadius(w: real, h: real, r: real): (r': real)
    ensures r' <= r && 2.0 * r' <= w && 2.0 * r' <= h
    ensures 2.0 * r <= w && 2.0 * r <= h ==> r' == r
  {
    var r1 := if w < 2.0 * r then w / 2.0 else r;
    if h < 2.0 * r1 then h / 2.0 else r1
  }

  function Min3(a: real, b: real, c: real): real {
    if a <= b && a <= c then a else if b <= c then b else c
  }

  /** The clamped radius is the largest that fits: the least of the radius,
      half the width and half the height. */
  lemma RoundRectRadiusIsLeast(w: real, h: real, r: real)
    ensures RoundRectRadius(w, h, r) == Min3(r, w / 2.0, h / 2.0)
  {
  }

  /** The commands of `drawLyricWord` for one word at time `t`. */
  function WordCommands(w: WordLayout, t: real): seq<Command> {
    var body := match FrameAt(w, t)
      case PendingFrame => [FillText(w.text, 0.0, 0.0, Tint(0.5))]
      case DoneFrame(lift) => [Translate(0.0, lift), FillText(w.text, 0.0, 0.0, White)]
      case _ => [FillAnimated(w, FrameAt(w, t))];
    [Save, Translate(w.x, w.y)] + body + [Restore]
  }

  /** The main text: every word in order, plain and dimmed when the line is not
      the active one, animated otherwise. */
  function WordsCommands(words: seq<WordLayout>, isActive: bool, t: real): seq<Command> {
    if words == [] then []
    else
      var w := words[|words| - 1];
      WordsCommands(words[..|words| - 1], isActive, t) + WordPart(w, isActive, t)
  }

  function WordPart(w: WordLayout, isActive: bool, t: real): seq<Command> {
    if isActive then WordCommands(w, t) else [FillText(w.text, w.x, w.y, Tint(0.6))]
  }

  /** The translation lines, one line height apart from `top` down. */
  function TranslationCommands(lines: seq<string>, top: real, transHeight: real): (r: seq<Command>)
    ensures |r| == |lines|
  {
    if lines == [] then []
    else [FillText(lines[0], 0.0, top, Tint(0.6))] + TranslationCommands(lines[1..], top + transHeight, transHeight)
  }

  /** Where the first translation line goes: 1.2 main line heights below the
      row of the last word (below 0 for a line without words). */
  function TranslationTop(layout: LineBlock, mainHeight: real): real {
    var lastWordY := if |layout.words| > 0 then layout.words[|layout.words| - 1].y else 0.0;
    lastWordY + mainHeight * 1.2
  }

  /** The translation is drawn when it has at least one line. */
  predicate ShowsTranslation(layout: LineBlock) {
    layout.translationLines.Some? && |layout.translationLines.value| > 0
  }

  /** The transform and paint set-up of `drawLyricLine`: move to the block's
      vertical centre, scale, move back up by half the block's height; then
      the opacity and the clamped blur. */
  function Setup(layout: LineBlock, p: LineDraw): seq<Command> {
    Pivot(p.x, p.y, p.scale, layout.height) + [SetAlpha(p.opacity), SetFilter(BlurFilter(p.blur))]
  }

  /** Scale by `k` around the vertical centre of a block of the given height
      whose top-left corner is at `(x, y)`. */
  function Pivot(x: real, y: real, k: real, height: real): seq<Command> {
    [Translate(x, y + height / 2.0), Scale(k), Translate(0.0, -height / 2.0)]
  }

  /** The translation lines that are drawn: all of them, or none. */
  function ShownLines(layout: LineBlock): seq<string> {
    if ShowsTranslation(layout) then layout.translationLines.value else []
  }

  function HoverCommands(layout: LineBlock, p: LineDraw): seq<Command> {
    if p.isHovered then
      var w := HoverWidth(layout.textWidth);
      [FillRoundRect(-16.0, 0.0, w, layout.height, RoundRectRadius(w, layout.height, 16.0), Tint(0.08))]
    else []
  }

  function TranslationPart(layout: LineBlock, p: LineDraw): seq<Command> {
    var fonts := GetFonts(p.isMobile);
    if ShowsTranslation(layout) then
      TranslationCommands(layout.translationLines.value, TranslationTop(layout, fonts.mainHeight), fonts.transHeight)
    else []
  }

  /** Everything `drawLyricLine` issues between its save and its restore. */
  function LineBody(layout: LineBlock, p: LineDraw): seq<Command> {
    Setup(layout, p) + HoverCommands(layout, p)
      + WordsCommands(layout.words, p.isActive, p.currentTime)
      + TranslationPart(layout, p)
  }

  /** All commands `drawLyricLine` issues. */
  function LineCommands(layout: LineBlock, p: LineDraw): seq<Command> {
    [Save] + LineBody(layout, p) + [Restore]
  }

  // ---------------------------------------------------------------------
  // Save/restore pairing

  /** Saves minus restores. */
  function Depth(cmds: seq<Command>): int {
    if cmds == [] then 0
    else
      var last := cmds[|cmds| - 1];
      Depth(cmds[..|cmds| - 1]) + (if last.Save? then 1 else if last.Restore? then -1 else 0)
  }

  /** Every restore has an earlier save, and every save a later restore. */
  ghost predicate Balanced(cmds: seq<Command>) {
    Depth(cmds) == 0 && forall i :: 0 <= i <= |cmds| ==> Depth(cmds[..i]) >= 0
  }

  /** No save or restore at all. */
  predicate Flat(cmds: seq<Command>) {
    forall i :: 0 <= i < |cmds| ==> !cmds[i].Save? && !cmds[i].Restore?
  }

  lemma {:induction false} DepthAppend(a: seq<Command>, b: seq<Command>)
    ensures Depth(a + b) == Depth(a) + Depth(b)
    decreases |b|
  {
    if b == [] {
      assert a + b == a;
    } else {
      assert (a + b)[..|a + b| - 1] == a + b[..|b| - 1];
      DepthAppend(a, b[..|b| - 1]);
    }
  }

  lemma {:induction false} FlatDepth(cmds: seq<Command>)
    requires Flat(cmds)
    ensures Depth(cmds) == 0
  {
    if cmds != [] {
      FlatDepth(cmds[..|cmds| - 1]);
    }
  }

  lemma FlatBalanced(cmds: seq<Command>)
    requires Flat(cmds)
    ensures Balanced(cmds)
  {
    FlatDepth(cmds);
    forall i | 0 <= i <= |cmds| ensures Depth(cmds[..i]) >= 0 {
      FlatDepth(cmds[..i]);
    }
  }

  lemma BalancedAppend(a: seq<Command>, b: seq<Command>)
    requires Balanced(a) && Balanced(b)
    ensures Balanced(a + b)
  {
    DepthAppend(a, b);
    forall i | 0 <= i <= |a + b| ensures Depth((a + b)[..i]) >= 0 {
      if i <= |a| {
        assert (a + b)[..i] == a[..i];
      } else {
        assert (a + b)[..i] == a + b[..i - |a|];
        DepthAppend(a, b[..i - |a|]);
      }
    }
  }

  /** A save, a balanced body and a restore are balanced. */
  lemma BalancedWrap(body: seq<Command>)
    requires Balanced(body)
    ensures Balanced([Save] + body + [Restore])
  {
    var all := [Save] + body + [Restore];
    DepthAppend([Save], body);
    DepthAppend([Save] + body, [Restore]);
    assert [Save][..0] == [];
    assert [Restore][..0] == [];
    forall i | 0 <= i <= |all| ensures Depth(all[..i]) >= 0 {
      if i == 0 {
        assert all[..i] == [];
      } else if i <= |body| + 1 {
        assert all[..i] == [Save] + body[..i - 1];
        DepthAppend([Save], body[..i - 1]);
      } else {
        assert all[..i] == all;
      }
    }
  }

  lemma WordCommandsBalanced(w: WordLayout, t: real)
    ensures Balanced(WordCommands(w, t))
  {
    var body := WordCommands(w, t)[1..|WordCommands(w, t)| - 1];
    assert Flat(body);
    FlatBalanced(body);
    BalancedWrap(body);
    assert WordCommands(w, t) == [Save] + body + [Restore];
  }

  lemma WordPartBalanced(w: WordLayout, isActive: bool, t: real)
    ensures Balanced(WordPart(w, isActive, t))
  {
    if isActive {
      WordCommandsBalanced(w, t);
    } else {
      FlatBalanced(WordPart(w, isActive, t));
    }
  }

  lemma {:induction false} WordsCommandsBalanced(words: seq<WordLayout>, isActive: bool, t: real)
    ensures Balanced(WordsCommands(words, isActive, t))
  {
    if words == [] {
      FlatBalanced([]);
    } else {
      var w := words[|words| - 1];
      WordsCommandsBalanced(words[..|words| - 1], isActive, t);
      WordPartBalanced(w, isActive, t);
      BalancedAppend(WordsCommands(words[..|words| - 1], isActive, t), WordPart(w, isActive, t));
    }
  }

  lemma {:induction false} TranslationCommandsFlat(lines: seq<string>, top: real, transHeight: real)
    ensures Flat(TranslationCommands(lines, top, transHeight))
  {
    if lines != [] {
      TranslationCommandsFlat(lines[1..], top + transHeight, transHeight);
    }
  }

  lemma SetupFlat(layout: LineBlock, p: LineDraw)
    ensures Flat(Setup(layout, p) + HoverCommands(layout, p))
  {
  }

  lemma TranslationPartFlat(layout: LineBlock, p: LineDraw)
    ensures Flat(TranslationPart(layout, p))
  {
    if ShowsTranslation(layout) {
      var fonts := GetFonts(p.isMobile);
      TranslationCommandsFlat(layout.translationLines.value, TranslationTop(layout, fonts.mainHeight), fonts.transHeight);
    }
  }

  lemma LineBodyBalanced(layout: LineBlock, p: LineDraw)
    ensures Balanced(LineBody(layout, p))
  {
    var setup := Setup(layout, p) + HoverCommands(layout, p);
    var words := WordsCommands(layout.words, p.isActive, p.currentTime);
    var trans := TranslationPart(layout, p);
    SetupFlat(layout, p);
    FlatBalanced(setup);
    WordsCommandsBalanced(layout.words, p.isActive, p.currentTime);
    TranslationPartFlat(layout, p);
    FlatBalanced(trans);
    BalancedAppend(setup, words);
    BalancedAppend(setup + words, trans);
  }

  /** The save and restore of `drawLyricLine` and of every `drawLyricWord`
      pair up: no restore comes before its save, and none is missing. */
  lemma LineCommandsBalanced(layout: LineBlock, p: LineDraw)
    ensures Balanced(LineCommands(layout, p))
  {
    LineBodyBalanced(layout, p);
    BalancedWrap(LineBody(layout, p));
  }

  // ---------------------------------------------------------------------
  // What the commands do to the canvas state

  /** A uniform scale followed by a translation: `(px, py)` maps to
      `(tx + k * px, ty + k * py)`. */
  datatype Transform = Transform(k: real, tx: real, ty: real)

  function MapX(t: Transform, px: real): real {
    t.tx + t.k * px
  }

  function MapY(t: Transform, py: real): real {
    t.ty + t.k * py
  }

  /** The part of the canvas state the commands change, and the stack of saved states. */
  datatype CanvasState = CanvasState(transform: Transform, alpha: real, filter: Option<real>)

  datatype Canvas = Canvas(state: CanvasState, saved: seq<CanvasState>)

  function Step(c: Canvas, cmd: Command): Canvas {
    var s := c.state;
    var t := s.transform;
    match cmd
    case Save => Canvas(s, [s] + c.saved)
    case Restore => if c.saved == [] then c else Canvas(c.saved[0], c.saved[1..])
    case Translate(dx, dy) => c.(state := s.(transform := Transform(t.k, t.tx + t.k * dx, t.ty + t.k * dy)))
    case Scale(k) => c.(state := s.(transform := t.(k := t.k * k)))
    case SetAlpha(a) => c.(state := s.(alpha := a))
    case SetFilter(f) => c.(state := s.(filter := f))
    case _ => c
  }

  function Run(c: Canvas, cmds: seq<Command>): Canvas {
    if cmds == [] then c else Step(Run(c, cmds[..|cmds| - 1]), cmds[|cmds| - 1])
  }

  lemma {:induction false} RunAppend(c: Canvas, a: seq<Command>, b: seq<Command>)
    ensures Run(c, a + b) == Run(Run(c, a), b)
    decreases |b|
  {
    if b == [] {
      assert a + b == a;
    } else {
      assert (a + b)[..|a + b| - 1] == a + b[..|b| - 1];
      RunAppend(c, a, b[..|b| - 1]);
    }
  }

  /** While no prefix restores more than it saved, the saved stack only grows
      on top of the one it started with, by the current depth. */
  lemma {:induction false} RunKeepsStack(c: Canvas, cmds: seq<Command>)
    requires Depth(cmds) >= 0
    requires forall i :: 0 <= i <= |cmds| ==> Depth(cmds[..i]) >= 0
    ensures |Run(c, cmds).saved| == |c.saved| + Depth(cmds)
    ensures Run(c, cmds).saved[Depth(cmds)..] == c.saved
  {
    if cmds != [] {
      var init := cmds[..|cmds| - 1];
      forall i | 0 <= i <= |init| ensures Depth(init[..i]) >= 0 {
        assert init[..i] == cmds[..i];
      }
      RunKeepsStack(c, init);
      assert cmds[..|cmds|] == cmds;
    }
  }

  /** Running a balanced log whose outer save and restore enclose it leaves
      the canvas exactly as it was. */
  lemma RunWrappedRestores(c: Canvas, body: seq<Command>)
    requires Balanced(body)
    ensures Run(c, [Save] + body + [Restore]) == c
  {
    var c1 := Step(c, Save);
    assert Run(c, [Save]) == c1 by { assert [Save][..0] == []; }
    RunAppend(c, [Save], body);
    RunKeepsStack(c1, body);
    var c2 := Run(c1, body);
    assert c2.saved == c1.saved;
    RunAppend(c, [Save] + body, [Restore]);
    assert Run(c2, [Restore]) == Step(c2, Restore) by { assert [Restore][..0] == []; }
  }

  /** `drawLyricLine` leaves the canvas state as it found it. */
  lemma LineLeavesCanvasUnchanged(layout: LineBlock, p: LineDraw, c: Canvas)
    ensures Run(c, LineCommands(layout, p)) == c
  {
    LineBodyBalanced(layout, p);
    RunWrappedRestores(c, LineBody(layout, p));
  }

  /** The transform a block is drawn in, starting from the identity: block
      coordinates are scaled by `k` around the block's vertical centre, which
      stays at `y + height / 2`, and at `k == 1` the block is simply moved to
      `(x, y)`. */
  lemma PivotTransform(x: real, y: real, k: real, height: real, px: real, py: real)
    ensures var t := Run(Canvas(CanvasState(Transform(1.0, 0.0, 0.0), 1.0, None), []),
                         Pivot(x, y, k, height)).state.transform;
      && MapX(t, px) == x + k * px
      && MapY(t, py) == y + height / 2.0 + k * (py - height / 2.0)
      && MapY(t, height / 2.0) == y + height / 2.0
      && (k == 1.0 ==> MapX(t, px) == x + px && MapY(t, py) == y + py)
  {
    var cmds := Pivot(x, y, k, height);
    var c0 := Canvas(CanvasState(Transform(1.0, 0.0, 0.0), 1.0, None), []);
    RunPrefix(c0, cmds, 0);
    RunPrefix(c0, cmds, 1);
    RunPrefix(c0, cmds, 2);
    assert cmds[..3] == cmds;
    assert cmds[..0] == [];
    var t := Run(c0, cmds).state.transform;
    assert t == Transform(1.0 * k, 0.0 + 1.0 * x + 1.0 * k * 0.0, 0.0 + 1.0 * (y + height / 2.0) + 1.0 * k * (-height / 2.0));
  }

  lemma RunPrefix(c: Canvas, cmds: seq<Command>, i: nat)
    requires i < |cmds|
    ensures Run(c, cmds[..i + 1]) == Step(Run(c, cmds[..i]), cmds[i])
  {
    assert cmds[..i + 1][..i] == cmds[..i];
  }

  // ---------------------------------------------------------------------
  // What is drawn

  /** The texts the commands fill, in order. */
  function Drawn(cmds: seq<Command>): seq<string> {
    if cmds == [] then []
    else
      var last := cmds[|cmds| - 1];
      Drawn(cmds[..|cmds| - 1])
        + (if last.FillText? then [last.text] else if last.FillAnimated? then [last.word.text] else [])
  }

  lemma {:induction false} DrawnAppend(a: seq<Command>, b: seq<Command>)
    ensures Drawn(a + b) == Drawn(a) + Drawn(b)
    decreases |b|
  {
    if b == [] {
      assert a + b == a;
    } else {
      assert (a + b)[..|a + b| - 1] == a + b[..|b| - 1];
      DrawnAppend(a, b[..|b| - 1]);
    }
  }

  function WordTexts(words: seq<WordLayout>): (r: seq<string>)
    ensures |r| == |words|
  {
    seq(|words|, i requires 0 <= i < |words| => words[i].text)
  }

  lemma WordCommandsDrawWord(w: WordLayout, t: real)
    ensures Drawn(WordCommands(w, t)) == [w.text]
  {
    var cmds := WordCommands(w, t);
    var body := cmds[2..|cmds| - 1];
    assert cmds == [Save, Translate(w.x, w.y)] + body + [Restore];
    DrawnAppend([Save, Translate(w.x, w.y)] + body, [Restore]);
    DrawnAppend([Save, Translate(w.x, w.y)], body);
    assert Drawn([Save, Translate(w.x, w.y)]) == [] by {
      assert [Save, Translate(w.x, w.y)][..1] == [Save];
      assert [Save][..0] == [];
    }
    assert Drawn([Restore]) == [] by { assert [Restore][..0] == []; }
    if |body| == 1 {
      assert body[..0] == [];
    } else {
      assert body[..1][..0] == [];
      assert body[..1] == [body[0]];
    }
  }

  lemma WordPartDrawsWord(w: WordLayout, isActive: bool, t: real)
    ensures Drawn(WordPart(w, isActive, t)) == [w.text]
  {
    if isActive {
      WordCommandsDrawWord(w, t);
    } else {
      assert WordPart(w, isActive, t)[..0] == [];
    }
  }

  lemma {:induction false} WordsCommandsDrawWords(words: seq<WordLayout>, isActive: bool, t: real)
    ensures Drawn(WordsCommands(words, isActive, t)) == WordTexts(words)
  {
    if words != [] {
      var init := words[..|words| - 1];
      var w := words[|words| - 1];
      WordsCommandsDrawWords(init, isActive, t);
      DrawnAppend(WordsCommands(init, isActive, t), WordPart(w, isActive, t));
      WordPartDrawsWord(w, isActive, t);
      WordTextsSnoc(words);
    }
  }

  lemma WordTextsSnoc(words: seq<WordLayout>)
    requires words != []
    ensures WordTexts(words) == WordTexts(words[..|words| - 1]) + [words[|words| - 1].text]
  {
  }

  lemma {:induction false} TranslationCommandsDrawLines(lines: seq<string>, top: real, transHeight: real)
    ensures Drawn(TranslationCommands(lines, top, transHeight)) == lines
  {
    if lines != [] {
      var head := [FillText(lines[0], 0.0, top, Tint(0.6))];
      TranslationCommandsDrawLines(lines[1..], top + transHeight, transHeight);
      DrawnAppend(head, TranslationCommands(lines[1..], top + transHeight, transHeight));
      assert head[..0] == [];
      assert lines == [lines[0]] + lines[1..];
    }
  }

  /** `drawLyricLine` draws every word of the block once, in order, and then
      every translation line once, in order, when there is a translation. */
  lemma LineDrawsEachTextOnce(layout: LineBlock, p: LineDraw)
    ensures Drawn(LineCommands(layout, p))
      == WordTexts(layout.words) + ShownLines(layout)
  {
    DrawnWrapped(LineBody(layout, p));
    LineBodyDraws(layout, p);
  }

  lemma LineBodyDraws(layout: LineBlock, p: LineDraw)
    ensures Drawn(LineBody(layout, p))
      == WordTexts(layout.words) + ShownLines(layout)
  {
    var setup := Setup(layout, p) + HoverCommands(layout, p);
    var words := WordsCommands(layout.words, p.isActive, p.currentTime);
    var trans := TranslationPart(layout, p);
    assert LineBody(layout, p) == setup + words + trans;
    SetupDrawsNothing(layout, p);
    DrawnAfterNothing(setup, words, trans);
    WordsCommandsDrawWords(layout.words, p.isActive, p.currentTime);
    TranslationPartDrawsLines(layout, p);
  }

  lemma DrawnAfterNothing(a: seq<Command>, b: seq<Command>, c: seq<Command>)
    requires Drawn(a) == []
    ensures Drawn(a + b + c) == Drawn(b) + Drawn(c)
  {
    DrawnAppend(a, b);
    DrawnAppend(a + b, c);
  }

  /** A save and a restore around commands draw nothing more. */
  lemma DrawnWrapped(body: seq<Command>)
    ensures Drawn([Save] + body + [Restore]) == Drawn(body)
  {
    DrawnAppend([Save], body);
    DrawnAppend([Save] + body, [Restore]);
    NothingDrawn([Save]);
    NothingDrawn([Restore]);
  }

  lemma SetupDrawsNothing(layout: LineBlock, p: LineDraw)
    ensures Drawn(Setup(layout, p) + HoverCommands(layout, p)) == []
  {
    NothingDrawn(Setup(layout, p) + HoverCommands(layout, p));
  }

  lemma TranslationPartDrawsLines(layout: LineBlock, p: LineDraw)
    ensures Drawn(TranslationPart(layout, p)) == ShownLines(layout)
  {
    if ShowsTranslation(layout) {
      var fonts := GetFonts(p.isMobile);
      TranslationCommandsDrawLines(layout.translationLines.value, TranslationTop(layout, fonts.mainHeight), fonts.transHeight);
    }
  }

  /** Commands that fill no text draw nothing. */
  lemma {:induction false} NothingDrawn(cmds: seq<Command>)
    requires forall i :: 0 <= i < |cmds| ==> !cmds[i].FillText? && !cmds[i].FillAnimated?
    ensures Drawn(cmds) == []
  {
    if cmds != [] {
      NothingDrawn(cmds[..|cmds| - 1]);
    }
  }

  /** The k-th translation line is drawn at the left edge, k translation line
      heights below the first. */
  lemma {:induction false} TranslationLinePlacement(lines: seq<string>, top: real, transHeight: real, k: nat)
    requires k < |lines|
    ensures TranslationCommands(lines, top, transHeight)[k]
      == FillText(lines[k], 0.0, top + k as real * transHeight, Tint(0.6))
  {
    if k > 0 {
      TranslationLinePlacement(lines[1..], top + transHeight, transHeight, k - 1);
      assert top + transHeight + (k - 1) as real * transHeight == top + k as real * transHeight;
    }
  }

  /** The hover background is drawn exactly when the line is hovered, 16
      pixels left of the block, over its full height, at least as wide as the
      text plus both margins and 200 pixels, with a corner radius of at most
      16 that fits the rectangle. */
  lemma HoverBackground(layout: LineBlock, p: LineDraw)
    ensures |HoverCommands(layout, p)| == (if p.isHovered then 1 else 0)
    ensures p.isHovered ==>
      var r := HoverCommands(layout, p)[0];
      && r.FillRoundRect? && r.x == -16.0 && r.y == 0.0 && r.h == layout.height
      && r.w >= layout.textWidth + 32.0 && r.w >= 200.0
      && r.r <= 16.0 && 2.0 * r.r <= r.w && 2.0 * r.r <= r.h
  {
  }
}
