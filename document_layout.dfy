/**
 * Layout of the whole lyric document (`measureLyrics` in
 * components/LyricLineCanvas.ts): one block per lyric line, holding the
 * wrapped main text and the wrapped translation, stacked from top to bottom
 * with a fixed padding inside and a fixed margin between blocks.
 */
module DocumentLayout {
  import opened Wrappers
  import opened JsString
  import opened LineLayout
  import opened TranslationLayout

  /** Vertical padding of a line block, above the main text and below the block. */
  const PADDING_Y: real := 12.0
  /** Gap between two consecutive blocks. */
  const MARGIN_Y: real := 12.0
  /** How many lines, from the top, decide the document's language. */
  const SAMPLE_LINES: nat := 5

  /** What `measureLyrics` depends on besides the lyrics: the canvas text
      measure, the word segmenter when the runtime provides one, the container
      width and the mobile flag. */
  datatype Env = Env(measure: Measure, segmenter: Option<Segmenter>, containerWidth: real, isMobile: bool)

  /** Horizontal padding on each side of the text. */
  function PaddingX(isMobile: bool): real {
    if isMobile then 24.0 else 56.0
  }

  function MaxWidth(env: Env): (w: real)
    ensures w == env.containerWidth - 2.0 * PaddingX(env.isMobile)
  {
    env.containerWidth - PaddingX(env.isMobile) * 2.0
  }

  /** The `measureLine` parameters of every line of the document. */
  function MainConfig(env: Env): (cfg: LineConfig)
    ensures cfg.baseSize == cfg.mainHeight > 0.0 && cfg.paddingY == PADDING_Y
    ensures cfg.maxWidth == MaxWidth(env) && cfg.font == GetFonts(env.isMobile).main
  {
    var fonts := GetFonts(env.isMobile);
    LineConfig(env.measure, fonts.main, MaxWidth(env), if env.isMobile then 32.0 else 40.0, fonts.mainHeight, PADDING_Y)
  }

  /** The `measureTranslationLines` parameters of every line of the document. */
  function TransParams(env: Env): (cfg: TransConfig)
    ensures cfg.transHeight > 0.0 && cfg.maxWidth == MaxWidth(env)
  {
    var fonts := GetFonts(env.isMobile);
    TransConfig(env.measure, fonts.trans, MaxWidth(env), fonts.transHeight)
  }

  /** The texts of the first few lines. */
  function SampleTexts(lyrics: seq<LyricLine>): (r: seq<string>)
    ensures |r| == if |lyrics| < SAMPLE_LINES then |lyrics| else SAMPLE_LINES
    ensures forall i :: 0 <= i < |r| ==> r[i] == lyrics[i].text
  {
    var n := if |lyrics| < SAMPLE_LINES then |lyrics| else SAMPLE_LINES;
    seq(n, i requires 0 <= i < n => lyrics[i].text)
  }

  /** The language of the document: that of the first lines joined by spaces. */
  function DocumentLanguage(lyrics: seq<LyricLine>): Language {
    DetectLanguage(Join(SampleTexts(lyrics), ' '))
  }

  predicate HasCjk(s: string) {
    exists i :: 0 <= i < |s| && IsCjk(s[i])
  }

  lemma HasCjkConcat(a: string, b: string)
    ensures HasCjk(a + b) <==> HasCjk(a) || HasCjk(b)
  {
    if HasCjk(a + b) {
      var i :| 0 <= i < |a + b| && IsCjk((a + b)[i]);
      if i >= |a| {
        assert b[i - |a|] == (a + b)[i];
      }
    }
    if HasCjk(b) {
      var i :| 0 <= i < |b| && IsCjk(b[i]);
      assert (a + b)[|a| + i] == b[i];
    }
    if HasCjk(a) {
      var i :| 0 <= i < |a| && IsCjk(a[i]);
      assert (a + b)[i] == a[i];
    }
  }

  lemma {:induction false} HasCjkJoin(parts: seq<string>, sep: char)
    requires !IsCjk(sep)
    ensures HasCjk(Join(parts, sep)) <==> exists i :: 0 <= i < |parts| && HasCjk(parts[i])
  {
    if |parts| > 1 {
      var rest := parts[1..];
      HasCjkJoin(rest, sep);
      HasCjkConcat(parts[0] + [sep], Join(rest, sep));
      HasCjkConcat(parts[0], [sep]);
      assert !HasCjk([sep]);
      if exists i :: 0 <= i < |parts| && HasCjk(parts[i]) {
        var i :| 0 <= i < |parts| && HasCjk(parts[i]);
        if i > 0 {
          assert rest[i - 1] == parts[i];
        }
      }
      if exists i :: 0 <= i < |rest| && HasCjk(rest[i]) {
        var i :| 0 <= i < |rest| && HasCjk(rest[i]);
        assert parts[i + 1] == rest[i];
      }
    }
  }

  /** The document is laid out as Chinese exactly when one of its first five
      lines holds a CJK character. */
  lemma DocumentLanguageFromSample(lyrics: seq<LyricLine>)
    ensures DocumentLanguage(lyrics) == Zh
      <==> exists i :: 0 <= i < |lyrics| && i < SAMPLE_LINES && HasCjk(lyrics[i].text)
  {
    var texts := SampleTexts(lyrics);
    HasCjkJoin(texts, ' ');
    assert DocumentLanguage(lyrics) == Zh <==> HasCjk(Join(texts, ' '));
    if exists i :: 0 <= i < |lyrics| && i < SAMPLE_LINES && HasCjk(lyrics[i].text) {
      var i :| 0 <= i < |lyrics| && i < SAMPLE_LINES && HasCjk(lyrics[i].text);
      assert HasCjk(texts[i]);
    }
  }

  /** The layout of one line block; `y` is absolute in the document. */
  datatype LineBlock = LineBlock(
    y: real,
    height: real,
    words: seq<WordLayout>,
    fullText: string,
    translation: Option<string>,
    translationLines: Option<seq<string>>,
    textWidth: real)

  /** `if (line.translation)`: a translation that is present and not empty. */
  predicate HasTranslation(line: LyricLine) {
    line.translation.Some? && line.translation.value != ""
  }

  /** The block of `line` before it is placed (at `y = 0`): the measured main
      text, the wrapped translation when there is one, and the bottom padding. */
  function BlockOf(env: Env, lang: Language, line: LyricLine): LineBlock {
    var m := LineMeasure(MainConfig(env), LineAtoms(line, env.segmenter, lang));
    if HasTranslation(line) then
      var t := TranslationOf(TransParams(env), line.translation.value);
      LineBlock(0.0, m.height + t.height + PADDING_Y, m.words, line.text, line.translation, Some(t.lines), m.textWidth)
    else
      LineBlock(0.0, m.height + PADDING_Y, m.words, line.text, line.translation, None, m.textWidth)
  }

  /** The unplaced blocks of all lines, in order. */
  function Blocks(env: Env, lang: Language, lyrics: seq<LyricLine>): (r: seq<LineBlock>)
    ensures |r| == |lyrics|
  {
    seq(|lyrics|, i requires 0 <= i < |lyrics| => BlockOf(env, lang, lyrics[i]))
  }

  /** The running state of `measureLyrics`: the placed blocks and the cursor. */
  datatype Stack = Stack(layouts: seq<LineBlock>, currentY: real)

  /** Blocks placed one below the other from `y = 0`, each followed by the margin. */
  function StackBlocks(blocks: seq<LineBlock>): (s: Stack)
    ensures |s.layouts| == |blocks|
  {
    if blocks == [] then Stack([], 0.0)
    else
      var prev := StackBlocks(blocks[..|blocks| - 1]);
      var b := blocks[|blocks| - 1].(y := prev.currentY);
      Stack(prev.layouts + [b], prev.currentY + b.height + MARGIN_Y)
  }

  /** What `measureLyrics` returns. */
  datatype Document = Document(layouts: seq<LineBlock>, totalHeight: real)

  /** The document: the stacked blocks and, below them, room for the last line
      to scroll up to the focal point (0.8 of the container width). */
  function LyricsLayout(env: Env, lyrics: seq<LyricLine>): (doc: Document)
    ensures |doc.layouts| == |lyrics|
  {
    var s := StackBlocks(Blocks(env, DocumentLanguage(lyrics), lyrics));
    Document(s.layouts, s.currentY + env.containerWidth * 0.8)
  }

  lemma StackBlocksSnoc(blocks: seq<LineBlock>, i: nat)
    requires i < |blocks|
    ensures var s := StackBlocks(blocks[..i]);
      var b := blocks[i].(y := s.currentY);
      StackBlocks(blocks[..i + 1]) == Stack(s.layouts + [b], s.currentY + b.height + MARGIN_Y)
  {
    assert blocks[..i + 1][..i] == blocks[..i];
  }

  /** `measureLyrics`. */
  method MeasureLyrics(env: Env, lyrics: seq<LyricLine>) returns (doc: Document)
    ensures doc == LyricsLayout(env, lyrics)
  {
    var cfg := MainConfig(env);
    var transCfg := TransParams(env);
    var lang := DetectLanguage(Join(SampleTexts(lyrics), ' '));
    ghost var blocks := Blocks(env, lang, lyrics);
    var layouts: seq<LineBlock> := [];
    var currentY := 0.0;
    for i := 0 to |lyrics|
      invariant StackBlocks(blocks[..i]) == Stack(layouts, currentY)
    {
      var line := lyrics[i];
      var m := MeasureLine(cfg, line, env.segmenter, lang);
      var blockHeight := m.height;
      var translationLines: Option<seq<string>> := None;
      if line.translation.Some? && line.translation.value != "" {
        var t := MeasureTranslationLines(transCfg, line.translation.value);
        translationLines := Some(t.lines);
        blockHeight := blockHeight + t.height;
      }
      blockHeight := blockHeight + PADDING_Y;
      var block := LineBlock(currentY, blockHeight, m.words, line.text, line.translation, translationLines, m.textWidth);
      assert block == blocks[i].(y := currentY);
      layouts := layouts + [block];
      currentY := currentY + blockHeight + MARGIN_Y;
      StackBlocksSnoc(blocks, i);
    }
    assert blocks[..|lyrics|] == blocks;
    doc := Document(layouts, currentY + env.containerWidth * 0.8);
  }

  /** What one block holds: the line's own text and translation, the words and
      width of its main text, and the translation lines exactly when the line
      has a non-empty translation; its height is the main text's height plus
      the padding, and, when a translation is shown, plus the translation's
      height as well (at least one translation line and 4), so never less than
      two paddings and one line height; every word lies inside the block and
      fits the width unless it starts a row. */
  lemma BlockShape(env: Env, lang: Language, line: LyricLine)
    ensures var b := BlockOf(env, lang, line);
      var cfg := MainConfig(env);
      var m := LineMeasure(cfg, LineAtoms(line, env.segmenter, lang));
      && b.y == 0.0 && b.fullText == line.text && b.translation == line.translation
      && b.words == m.words && b.textWidth == m.textWidth
      && (b.translationLines.Some? <==> HasTranslation(line))
      && (HasTranslation(line) ==>
            var lines := b.translationLines.value;
            && |lines| > 0
            && Concat(lines) == line.translation.value
            && b.height == m.height + TranslationOf(TransParams(env), line.translation.value).height + PADDING_Y
            && b.height >= m.height + TransParams(env).transHeight + 4.0 + PADDING_Y)
      && (!HasTranslation(line) ==> b.height == m.height + PADDING_Y)
      && b.height >= 2.0 * PADDING_Y + cfg.mainHeight
      && forall k :: 0 <= k < |b.words| ==>
           && PADDING_Y <= b.words[k].y
           && b.words[k].y + cfg.mainHeight + PADDING_Y <= b.height
           && 0.0 <= b.words[k].x
           && (b.words[k].x == 0.0 || End(b.words[k]) <= cfg.maxWidth)
  {
    var cfg := MainConfig(env);
    var atoms := LineAtoms(line, env.segmenter, lang);
    MainHeightCoversRows(cfg, atoms);
    WordsFitOrStartRow(cfg, atoms);
    if HasTranslation(line) {
      TranslationHeight(TransParams(env), line.translation.value);
      TranslationLinesSpell(TransParams(env), line.translation.value);
    }
  }

  /** Every block is at least two paddings and a main line high. */
  lemma BlockHeightPositive(env: Env, lang: Language, line: LyricLine)
    ensures BlockOf(env, lang, line).height >= 2.0 * PADDING_Y + MainConfig(env).mainHeight
  {
    BlockShape(env, lang, line);
  }

  /** The stacking recurrence: every block keeps its content and only gets its
      `y`; the first at 0, each next one a margin below the end of the
      previous; the cursor a margin below the last block. */
  lemma {:induction false} StackShape(blocks: seq<LineBlock>)
    ensures var s := StackBlocks(blocks);
      && (forall i :: 0 <= i < |blocks| ==> s.layouts[i] == blocks[i].(y := s.layouts[i].y))
      && (|blocks| > 0 ==> s.layouts[0].y == 0.0)
      && (forall i :: 0 <= i < |blocks| - 1 ==>
            s.layouts[i + 1].y == s.layouts[i].y + s.layouts[i].height + MARGIN_Y)
      && (blocks == [] ==> s.currentY == 0.0)
      && (blocks != [] ==>
            var last := s.layouts[|blocks| - 1];
            s.currentY == last.y + last.height + MARGIN_Y)
  {
    if blocks != [] {
      var init := blocks[..|blocks| - 1];
      StackShape(init);
      var s0 := StackBlocks(init);
      var s := StackBlocks(blocks);
      assert s.layouts[..|init|] == s0.layouts;
      forall i | 0 <= i < |blocks| ensures s.layouts[i] == blocks[i].(y := s.layouts[i].y) {
        if i < |init| {
          assert s.layouts[i] == s0.layouts[i] && blocks[i] == init[i];
        }
      }
      forall i | 0 <= i < |blocks| - 1
        ensures s.layouts[i + 1].y == s.layouts[i].y + s.layouts[i].height + MARGIN_Y
      {
        if i + 1 < |init| {
          assert s.layouts[i] == s0.layouts[i] && s.layouts[i + 1] == s0.layouts[i + 1];
        } else {
          assert s.layouts[i] == s0.layouts[|init| - 1];
        }
      }
    }
  }

  /** `measureLyrics` as a whole: one layout per lyric line, in order, holding
      that line's measured block; blocks stacked by the recurrence from 0; the
      total height is the final cursor plus 0.8 of the container width. */
  lemma LyricsLayoutShape(env: Env, lyrics: seq<LyricLine>)
    ensures var doc := LyricsLayout(env, lyrics);
      var lang := DocumentLanguage(lyrics);
      && (forall i :: 0 <= i < |lyrics| ==>
            && doc.layouts[i] == BlockOf(env, lang, lyrics[i]).(y := doc.layouts[i].y)
            && doc.layouts[i].fullText == lyrics[i].text
            && doc.layouts[i].translation == lyrics[i].translation)
      && (|lyrics| > 0 ==> doc.layouts[0].y == 0.0)
      && (forall i :: 0 <= i < |lyrics| - 1 ==>
            doc.layouts[i + 1].y == doc.layouts[i].y + doc.layouts[i].height + MARGIN_Y)
      && (lyrics == [] ==> doc.totalHeight == env.containerWidth * 0.8)
      && (lyrics != [] ==>
            var last := doc.layouts[|lyrics| - 1];
            doc.totalHeight == last.y + last.height + MARGIN_Y + env.containerWidth * 0.8)
  {
    var lang := DocumentLanguage(lyrics);
    var blocks := Blocks(env, lang, lyrics);
    StackShape(blocks);
    var s := StackBlocks(blocks);
    forall i | 0 <= i < |lyrics|
      ensures s.layouts[i].fullText == lyrics[i].text && s.layouts[i].translation == lyrics[i].translation
    {
      BlockShape(env, lang, lyrics[i]);
    }
  }

  /** Blocks never overlap: each later block starts at least a margin below
      the end of every earlier one. */
  lemma {:induction false} BlocksDoNotOverlap(env: Env, lyrics: seq<LyricLine>, i: nat, j: nat)
    requires i < j < |lyrics|
    ensures var doc := LyricsLayout(env, lyrics);
      doc.layouts[i].y + doc.layouts[i].height + MARGIN_Y <= doc.layouts[j].y
    decreases j - i
  {
    var doc := LyricsLayout(env, lyrics);
    LyricsLayoutShape(env, lyrics);
    if j > i + 1 {
      BlocksDoNotOverlap(env, lyrics, i + 1, j);
      BlockHeightPositive(env, DocumentLanguage(lyrics), lyrics[i + 1]);
    }
  }
}
