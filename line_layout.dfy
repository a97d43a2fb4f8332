/**
 * Layout of one lyric line (`measureLine` in components/LyricLineCanvas.ts):
 * script detection, fonts, the wrap atoms of a line and their greedy
 * placement into rows.
 */
module LineLayout {
  import opened Wrappers
  import opened JsString

  /** One timed word of a lyric line (verbatim timing from the lyric source). */
  datatype TimedWord = TimedWord(text: string, startTime: real, endTime: real)

  /** A lyric line as handed in by the player: `words` empty stands for an
      absent or empty word list, both of which the layout treats alike. */
  datatype LyricLine = LyricLine(
    time: real,
    text: string,
    words: seq<TimedWord>,
    translation: Option<string>)

  /** A positioned word of a line block; `y` is relative to the block. */
  datatype WordLayout = WordLayout(
    text: string,
    x: real,
    y: real,
    width: real,
    startTime: real,
    endTime: real,
    isVerbatim: bool)

  /** The right edge of a placed word. */
  function End(w: WordLayout): real {
    w.x + w.width
  }

  datatype Language = Zh | En

  /** The end time given to words that only exist for wrapping. */
  const NEVER_ENDS: real := 999999.0

  /** The CJK ranges of `detectLanguage`: CJK ideographs U+4E00..U+9FA5,
      kana U+3040..U+30FF and Hangul syllables U+AC00..U+D7AF. */
  predicate IsCjk(c: char) {
    || ('\U{4E00}' <= c <= '\U{9FA5}')
    || ('\U{3040}' <= c <= '\U{30FF}')
    || ('\U{AC00}' <= c <= '\U{D7AF}')
  }

  /** `detectLanguage`: "zh" as soon as one CJK character occurs, "en" otherwise. */
  function DetectLanguage(text: string): (lang: Language)
    ensures lang == Zh <==> exists i :: 0 <= i < |text| && IsCjk(text[i])
  {
    if text == [] then En
    else if IsCjk(text[0]) then Zh
    else
      var rest := DetectLanguage(text[1..]);
      assert (exists i :: 0 <= i < |text| && IsCjk(text[i]))
        <==> (exists i :: 0 <= i < |text| - 1 && IsCjk(text[1..][i])) by {
        forall i | 0 < i < |text| ensures text[i] == text[1..][i - 1] { }
      }
      rest
  }

  /** A font of the canvas: weight and pixel size; the family list is fixed. */
  datatype Font = Font(weight: nat, sizePx: nat)

  datatype Fonts = Fonts(main: Font, trans: Font, mainHeight: real, transHeight: real)

  /** `getFonts`: the main and translation fonts and their line heights. */
  function GetFonts(isMobile: bool): (f: Fonts)
    ensures f.main.weight == 800 && f.trans.weight == 500
    ensures f.mainHeight == f.main.sizePx as real
    ensures f.transHeight == f.trans.sizePx as real * 1.3
    ensures 0 < f.trans.sizePx < f.main.sizePx
  {
    var baseSize := if isMobile then 32 else 40;
    var transSize := if isMobile then 18 else 22;
    Fonts(Font(800, baseSize), Font(500, transSize), baseSize as real, transSize as real * 1.3)
  }

  /** `ctx.measureText(text).width` under a font: an injected capability whose
      results are never negative. */
  type Measure = m: (Font, string) -> real | forall f, s :: m(f, s) >= 0.0
    witness (f: Font, s: string) => 0.0

  /** `Intl.Segmenter(lang, {granularity: "word"})` applied to a text: an
      injected capability. */
  type Segmenter = (Language, string) -> seq<string>

  /** A wrap atom: the text handed to `addWord` with its timing. */
  datatype Atom = Atom(text: string, startTime: real, endTime: real, isVerbatim: bool)

  /** `text.split(" ")` with a separate `" "` atom between consecutive parts. */
  function SpacedParts(parts: seq<string>): (r: seq<string>)
    requires |parts| >= 1
  {
    if |parts| == 1 then parts else [parts[0], " "] + SpacedParts(parts[1..])
  }

  function VerbatimAtoms(words: seq<TimedWord>): seq<Atom> {
    seq(|words|, i requires 0 <= i < |words| => Atom(words[i].text, words[i].startTime, words[i].endTime, true))
  }

  function SynthesizedAtoms(time: real, texts: seq<string>): seq<Atom> {
    seq(|texts|, i requires 0 <= i < |texts| => Atom(texts[i], time, NEVER_ENDS, false))
  }

  /** The atoms `measureLine` hands to `addWord`, in order: the timed words if
      there are any; otherwise the segmenter's segments if a segmenter exists;
      otherwise one atom per character for a CJK document; otherwise the
      space-separated words with a `" "` atom between them. */
  function LineAtoms(line: LyricLine, segmenter: Option<Segmenter>, lang: Language): seq<Atom> {
    if |line.words| > 0 then VerbatimAtoms(line.words)
    else if segmenter.Some? then SynthesizedAtoms(line.time, segmenter.value(lang, line.text))
    else if lang == Zh then SynthesizedAtoms(line.time, Chars(line.text))
    else SynthesizedAtoms(line.time, SpacedParts(Split(line.text, ' ')))
  }

  /** Shape of the space-split atoms: k parts give 2k-1 atoms, the parts at even
      positions, `" "` at odd positions, and together they spell the joined text. */
  lemma {:induction false} SpacedPartsShape(parts: seq<string>)
    requires |parts| >= 1
    ensures |SpacedParts(parts)| == 2 * |parts| - 1
    ensures forall i :: 0 <= i < |parts| ==> SpacedParts(parts)[2 * i] == parts[i]
    ensures forall i :: 0 <= i < |parts| - 1 ==> SpacedParts(parts)[2 * i + 1] == " "
    ensures Concat(SpacedParts(parts)) == Join(parts, ' ')
  {
    if |parts| > 1 {
      var rest := SpacedParts(parts[1..]);
      SpacedPartsShape(parts[1..]);
      var r := SpacedParts(parts);
      assert r == [parts[0], " "] + rest;
      forall i | 1 <= i < |parts| ensures r[2 * i] == parts[i] {
        assert r[2 * i] == rest[2 * (i - 1)];
      }
      forall i | 1 <= i < |parts| - 1 ensures r[2 * i + 1] == " " {
        assert r[2 * i + 1] == rest[2 * (i - 1) + 1];
      }
      ConcatAppend([parts[0], " "], rest);
      assert Concat([parts[0], " "]) == parts[0] + " " by {
        assert [parts[0], " "][..1] == [parts[0]];
        assert [parts[0]][..0] == [];
        assert Concat([parts[0]]) == "" + parts[0] == parts[0];
      }
    }
  }

  /** Atom source priority, timed words: with a non-empty word list every timed
      word becomes one verbatim atom, in order, with its own timing. */
  lemma VerbatimWordsFirst(line: LyricLine, segmenter: Option<Segmenter>, lang: Language)
    requires |line.words| > 0
    ensures |LineAtoms(line, segmenter, lang)| == |line.words|
    ensures forall i :: 0 <= i < |line.words| ==>
      LineAtoms(line, segmenter, lang)[i]
        == Atom(line.words[i].text, line.words[i].startTime, line.words[i].endTime, true)
  {
  }

  /** Atom source priority, no timed words: every atom carries the line's time,
      the never-ending end time, and is not verbatim. */
  lemma SynthesizedTiming(line: LyricLine, segmenter: Option<Segmenter>, lang: Language)
    requires |line.words| == 0
    ensures forall a :: a in LineAtoms(line, segmenter, lang) ==>
      a.startTime == line.time && a.endTime == NEVER_ENDS && !a.isVerbatim
  {
  }

  /** Without timed words, segmenter or CJK, a text of k space-separated parts
      gives 2k-1 atoms alternating part and `" "`, which spell the text again. */
  lemma SpaceSplitAtoms(line: LyricLine)
    requires |line.words| == 0
    ensures var atoms := LineAtoms(line, None, En);
      var parts := Split(line.text, ' ');
      && |atoms| == 2 * |parts| - 1
      && (forall i :: 0 <= i < |parts| ==> atoms[2 * i].text == parts[i])
      && (forall i :: 0 <= i < |parts| - 1 ==> atoms[2 * i + 1].text == " ")
      && Concat(seq(|atoms|, i requires 0 <= i < |atoms| => atoms[i].text)) == line.text
  {
    var parts := Split(line.text, ' ');
    SpacedPartsShape(parts);
    var atoms := LineAtoms(line, None, En);
    assert seq(|atoms|, i requires 0 <= i < |atoms| => atoms[i].text) == SpacedParts(parts);
  }

  /** Without timed words or segmenter, a CJK document gives one atom per
      character, which spell the text again. */
  lemma CharSplitAtoms(line: LyricLine)
    requires |line.words| == 0
    ensures var atoms := LineAtoms(line, None, Zh);
      && |atoms| == |line.text|
      && (forall i :: 0 <= i < |atoms| ==> atoms[i].text == [line.text[i]])
      && Concat(seq(|atoms|, i requires 0 <= i < |atoms| => atoms[i].text)) == line.text
  {
    var atoms := LineAtoms(line, None, Zh);
    assert seq(|atoms|, i requires 0 <= i < |atoms| => atoms[i].text) == Chars(line.text);
    ConcatChars(line.text);
  }

  /** The parameters `measureLine` receives besides the line itself. */
  datatype LineConfig = LineConfig(
    measure: Measure,
    font: Font,
    maxWidth: real,
    baseSize: real,
    mainHeight: real,
    paddingY: real)

  /** Half the base size per character. */
  function FallbackWidth(text: string, baseSize: real): (w: real)
    requires baseSize >= 0.0
    ensures w >= 0.0
    ensures |text| > 0 && baseSize > 0.0 ==> w > 0.0
  {
    FallbackWidthSign(|text|, baseSize);
    |text| as real * (baseSize * 0.5)
  }

  /** The width `addWord` uses for an atom: the measured width, except that a
      zero width for a non-blank text (fonts not loaded yet) is replaced by
      half the base size per character. */
  function AtomWidth(cfg: LineConfig, text: string): (w: real)
    requires cfg.baseSize >= 0.0
    ensures w >= 0.0
    ensures cfg.measure(cfg.font, text) != 0.0 || Trim(text) == [] ==> w == cfg.measure(cfg.font, text)
    ensures cfg.measure(cfg.font, text) == 0.0 && Trim(text) != [] ==> w == FallbackWidth(text, cfg.baseSize)
    ensures Trim(text) != [] && cfg.baseSize > 0.0 ==> w > 0.0
  {
    var measured := cfg.measure(cfg.font, text);
    if measured == 0.0 && Trim(text) != [] then FallbackWidth(text, cfg.baseSize) else measured
  }

  lemma FallbackWidthSign(n: nat, baseSize: real)
    requires baseSize >= 0.0
    ensures n as real * (baseSize * 0.5) >= 0.0
    ensures n > 0 && baseSize > 0.0 ==> n as real * (baseSize * 0.5) > 0.0
  {
  }

  /** The running state of `measureLine`: the cursor, the widest row so far
      and the words placed so far. */
  datatype LineCursor = LineCursor(x: real, y: real, maxLineWidth: real, words: seq<WordLayout>)

  function Max(a: real, b: real): real {
    if a >= b then a else b
  }

  /** One call of `addWord`: wrap to a new row when the atom does not fit and
      the row is not empty, place the atom at the cursor, advance the cursor. */
  function AddWord(cfg: LineConfig, c: LineCursor, a: Atom): LineCursor
    requires cfg.baseSize >= 0.0
  {
    var width := AtomWidth(cfg, a.text);
    var wraps := c.x + width > cfg.maxWidth && c.x > 0.0;
    var x := if wraps then 0.0 else c.x;
    var y := if wraps then c.y + cfg.mainHeight else c.y;
    LineCursor(x + width, y, Max(c.maxLineWidth, x + width),
      c.words + [WordLayout(a.text, x, y, width, a.startTime, a.endTime, a.isVerbatim)])
  }

  /** The state after `addWord` has been called on every atom, in order. */
  function PlaceAtoms(cfg: LineConfig, atoms: seq<Atom>): LineCursor
    requires cfg.baseSize >= 0.0
  {
    if atoms == [] then LineCursor(0.0, cfg.paddingY, 0.0, [])
    else AddWord(cfg, PlaceAtoms(cfg, atoms[..|atoms| - 1]), atoms[|atoms| - 1])
  }

  /** What `measureLine` returns. */
  datatype MeasuredLine = MeasuredLine(words: seq<WordLayout>, textWidth: real, height: real)

  function LineMeasure(cfg: LineConfig, atoms: seq<Atom>): MeasuredLine
    requires cfg.baseSize >= 0.0
  {
    var c := PlaceAtoms(cfg, atoms);
    MeasuredLine(c.words, c.maxLineWidth, c.y + cfg.mainHeight)
  }

  /** `measureLine`: lays out the atoms of one line, left to right, wrapping
      greedily at `maxWidth`. */
  method MeasureLine(cfg: LineConfig, line: LyricLine, segmenter: Option<Segmenter>, lang: Language)
    returns (m: MeasuredLine)
    requires cfg.baseSize >= 0.0
    ensures m == LineMeasure(cfg, LineAtoms(line, segmenter, lang))
  {
    var atoms := LineAtoms(line, segmenter, lang);
    var words: seq<WordLayout> := [];
    var currentLineX := 0.0;
    var currentLineY := cfg.paddingY;
    var maxLineWidth := 0.0;
    var i := 0;
    while i < |atoms|
      invariant 0 <= i <= |atoms|
      invariant PlaceAtoms(cfg, atoms[..i]) == LineCursor(currentLineX, currentLineY, maxLineWidth, words)
    {
      var atom := atoms[i];
      ghost var before := LineCursor(currentLineX, currentLineY, maxLineWidth, words);
      var width := AtomWidth(cfg, atom.text);
      if currentLineX + width > cfg.maxWidth && currentLineX > 0.0 {
        currentLineX := 0.0;
        currentLineY := currentLineY + cfg.mainHeight;
      }
      words := words + [WordLayout(atom.text, currentLineX, currentLineY, width,
                                   atom.startTime, atom.endTime, atom.isVerbatim)];
      currentLineX := currentLineX + width;
      maxLineWidth := Max(maxLineWidth, currentLineX);
      PlaceAtomsSnoc(cfg, atoms, i);
      i := i + 1;
    }
    assert atoms[..i] == atoms;
    m := MeasuredLine(words, maxLineWidth, currentLineY + cfg.mainHeight);
  }

  /** The row rule between two consecutive words: the next word opens a new row
      (x back to 0, y one line lower) exactly when it would overflow a row that
      already holds something; otherwise it sits right after the previous one. */
  ghost predicate Follows(cfg: LineConfig, prev: WordLayout, next: WordLayout) {
    if End(prev) + next.width > cfg.maxWidth && End(prev) > 0.0
    then next.x == 0.0 && next.y == prev.y + cfg.mainHeight
    else next.x == End(prev) && next.y == prev.y
  }

  /** A placed word keeps its atom's text and timing and gets the atom's width. */
  ghost predicate CarriesAtom(cfg: LineConfig, a: Atom, w: WordLayout)
    requires cfg.baseSize >= 0.0
  {
    && w.text == a.text && w.startTime == a.startTime && w.endTime == a.endTime
    && w.isVerbatim == a.isVerbatim && w.width == AtomWidth(cfg, a.text)
  }

  /** What `measureLine` maintains about its words and cursor after some atoms. */
  ghost predicate RowsPlaced(cfg: LineConfig, atoms: seq<Atom>, c: LineCursor)
    requires cfg.baseSize >= 0.0
  {
    var ws := c.words;
    && |ws| == |atoms|
    && (forall i :: 0 <= i < |ws| ==> CarriesAtom(cfg, atoms[i], ws[i]) && 0.0 <= ws[i].x)
    && (forall i :: 0 <= i < |ws| - 1 ==> Follows(cfg, ws[i], ws[i + 1]))
    && (ws == [] ==> c.x == 0.0 && c.y == cfg.paddingY)
    && (ws != [] ==> ws[0].x == 0.0 && ws[0].y == cfg.paddingY
                     && c.x == End(ws[|ws| - 1]) && c.y == ws[|ws| - 1].y)
  }

  /** What `measureLine` maintains about `maxLineWidth`: the widest right edge. */
  ghost predicate WidestTracked(c: LineCursor) {
    var ws := c.words;
    && 0.0 <= c.maxLineWidth
    && (forall i :: 0 <= i < |ws| ==> End(ws[i]) <= c.maxLineWidth)
    && (c.maxLineWidth == 0.0 || exists i :: 0 <= i < |ws| && End(ws[i]) == c.maxLineWidth)
  }

  ghost predicate WellPlaced(cfg: LineConfig, atoms: seq<Atom>, c: LineCursor)
    requires cfg.baseSize >= 0.0
  {
    RowsPlaced(cfg, atoms, c) && WidestTracked(c)
  }

  lemma AddWordKeepsRows(cfg: LineConfig, atoms: seq<Atom>, c: LineCursor, a: Atom)
    requires cfg.baseSize >= 0.0
    requires RowsPlaced(cfg, atoms, c)
    ensures RowsPlaced(cfg, atoms + [a], AddWord(cfg, c, a))
  {
    var c' := AddWord(cfg, c, a);
    var n := |c.words|;
    var w := c'.words[n];
    assert c'.words == c.words + [w];
    assert CarriesAtom(cfg, a, w);
    if n > 0 {
      assert Follows(cfg, c.words[n - 1], w);
    }
  }

  lemma AddWordKeepsWidest(cfg: LineConfig, c: LineCursor, a: Atom)
    requires cfg.baseSize >= 0.0
    requires WidestTracked(c)
    ensures WidestTracked(AddWord(cfg, c, a))
  {
    var c' := AddWord(cfg, c, a);
    var n := |c.words|;
    var w := c'.words[n];
    assert c'.words == c.words + [w];
    if c'.maxLineWidth != 0.0 {
      if c'.maxLineWidth == End(w) {
        assert End(c'.words[n]) == c'.maxLineWidth;
      } else {
        var k :| 0 <= k < n && End(c.words[k]) == c.maxLineWidth;
        assert End(c'.words[k]) == c'.maxLineWidth;
      }
    }
  }

  /** `PlaceAtoms` on one more atom is one more `addWord`. */
  lemma PlaceAtomsSnoc(cfg: LineConfig, atoms: seq<Atom>, i: nat)
    requires cfg.baseSize >= 0.0 && i < |atoms|
    ensures PlaceAtoms(cfg, atoms[..i + 1]) == AddWord(cfg, PlaceAtoms(cfg, atoms[..i]), atoms[i])
  {
    assert atoms[..i + 1][..i] == atoms[..i];
  }

  /** Placing atoms one by one keeps `WellPlaced`. */
  lemma {:induction false} PlaceAtomsWellPlaced(cfg: LineConfig, atoms: seq<Atom>)
    requires cfg.baseSize >= 0.0
    ensures WellPlaced(cfg, atoms, PlaceAtoms(cfg, atoms))
  {
    if atoms != [] {
      var prefix := atoms[..|atoms| - 1];
      var a := atoms[|atoms| - 1];
      PlaceAtomsWellPlaced(cfg, prefix);
      var c := PlaceAtoms(cfg, prefix);
      AddWordKeepsRows(cfg, prefix, c, a);
      AddWordKeepsWidest(cfg, c, a);
      assert prefix + [a] == atoms;
    }
  }

  /** A new row starts only when the atom would overflow a non-empty row, and
      always then: the row rule holds between every two consecutive words, and
      the first word sits at the block's top-left corner. */
  lemma WrapOnlyOnOverflow(cfg: LineConfig, atoms: seq<Atom>)
    requires cfg.baseSize >= 0.0
    ensures var ws := LineMeasure(cfg, atoms).words;
      && |ws| == |atoms|
      && (ws != [] ==> ws[0].x == 0.0 && ws[0].y == cfg.paddingY)
      && forall i :: 0 <= i < |ws| - 1 ==>
           if End(ws[i]) + ws[i + 1].width > cfg.maxWidth && End(ws[i]) > 0.0
           then ws[i + 1].x == 0.0 && ws[i + 1].y == ws[i].y + cfg.mainHeight
           else ws[i + 1].x == End(ws[i]) && ws[i + 1].y == ws[i].y
  {
    PlaceAtomsWellPlaced(cfg, atoms);
  }

  /** Every placed word keeps its atom's text and timing, and its width is the
      atom's (fallback-corrected) width. */
  lemma WordsCarryAtoms(cfg: LineConfig, atoms: seq<Atom>)
    requires cfg.baseSize >= 0.0
    ensures var ws := LineMeasure(cfg, atoms).words;
      && |ws| == |atoms|
      && forall i :: 0 <= i < |ws| ==>
           && ws[i].text == atoms[i].text
           && ws[i].startTime == atoms[i].startTime && ws[i].endTime == atoms[i].endTime
           && ws[i].isVerbatim == atoms[i].isVerbatim
           && ws[i].width == AtomWidth(cfg, atoms[i].text)
  {
    PlaceAtomsWellPlaced(cfg, atoms);
  }

  /** The wrap invariant: every word starts at or right of the block's left
      edge, and either starts a row or ends within `maxWidth`. */
  lemma WordsFitOrStartRow(cfg: LineConfig, atoms: seq<Atom>)
    requires cfg.baseSize >= 0.0
    ensures var ws := LineMeasure(cfg, atoms).words;
      forall i :: 0 <= i < |ws| ==> 0.0 <= ws[i].x && (ws[i].x == 0.0 || End(ws[i]) <= cfg.maxWidth)
  {
    PlaceAtomsWellPlaced(cfg, atoms);
    var ws := LineMeasure(cfg, atoms).words;
    forall i | 0 < i < |ws| ensures ws[i].x == 0.0 || End(ws[i]) <= cfg.maxWidth {
      assert Follows(cfg, ws[i - 1], ws[i]);
    }
  }

  /** An atom wider than `maxWidth` is not dropped: it sits at x = 0 and the
      word after it starts a new row, so it stands alone on its row. */
  lemma OversizedAtomStandsAlone(cfg: LineConfig, atoms: seq<Atom>, i: nat)
    requires cfg.baseSize >= 0.0 && cfg.maxWidth >= 0.0
    requires i < |atoms| && AtomWidth(cfg, atoms[i].text) > cfg.maxWidth
    ensures var ws := LineMeasure(cfg, atoms).words;
      && i < |ws| && ws[i].text == atoms[i].text && ws[i].x == 0.0
      && (i + 1 < |ws| ==> ws[i + 1].x == 0.0 && ws[i + 1].y == ws[i].y + cfg.mainHeight)
  {
    WordsFitOrStartRow(cfg, atoms);
    PlaceAtomsWellPlaced(cfg, atoms);
    var ws := LineMeasure(cfg, atoms).words;
    if i + 1 < |ws| {
      assert Follows(cfg, ws[i], ws[i + 1]);
    }
  }

  /** Rows only go down: the y of the words never decreases. */
  lemma {:induction false} RowsDescend(cfg: LineConfig, atoms: seq<Atom>)
    requires cfg.baseSize >= 0.0 && cfg.mainHeight >= 0.0
    ensures var ws := LineMeasure(cfg, atoms).words;
      forall i, j :: 0 <= i <= j < |ws| ==> cfg.paddingY <= ws[i].y <= ws[j].y
  {
    PlaceAtomsWellPlaced(cfg, atoms);
    var ws := LineMeasure(cfg, atoms).words;
    forall i, j | 0 <= i <= j < |ws| ensures cfg.paddingY <= ws[i].y <= ws[j].y {
      YAscends(cfg, ws, 0, i);
      YAscends(cfg, ws, i, j);
    }
  }

  lemma {:induction false} YAscends(cfg: LineConfig, ws: seq<WordLayout>, i: nat, j: nat)
    requires cfg.mainHeight >= 0.0
    requires i <= j < |ws|
    requires forall k :: 0 <= k < |ws| - 1 ==> Follows(cfg, ws[k], ws[k + 1])
    ensures ws[i].y <= ws[j].y
    decreases j - i
  {
    if i < j {
      assert Follows(cfg, ws[i], ws[i + 1]);
      YAscends(cfg, ws, i + 1, j);
    }
  }

  /** `textWidth` is the rightmost edge any word reaches (0 for no words):
      the hover background never cuts a word off. */
  lemma TextWidthIsWidestRow(cfg: LineConfig, atoms: seq<Atom>)
    requires cfg.baseSize >= 0.0
    ensures var m := LineMeasure(cfg, atoms);
      && 0.0 <= m.textWidth
      && (forall i :: 0 <= i < |m.words| ==> End(m.words[i]) <= m.textWidth)
      && (m.words == [] ==> m.textWidth == 0.0)
      && (m.words != [] ==> exists i :: 0 <= i < |m.words| && End(m.words[i]) == m.textWidth)
  {
    PlaceAtomsWellPlaced(cfg, atoms);
    var m := LineMeasure(cfg, atoms);
    if m.words != [] && m.textWidth == 0.0 {
      assert End(m.words[0]) == 0.0;
    }
  }

  /** The main-text height is the last row's y plus one line height, and every
      word's line box lies between the top padding and that height. */
  lemma MainHeightCoversRows(cfg: LineConfig, atoms: seq<Atom>)
    requires cfg.baseSize >= 0.0 && cfg.mainHeight >= 0.0
    ensures var m := LineMeasure(cfg, atoms);
      && (m.words == [] ==> m.height == cfg.paddingY + cfg.mainHeight)
      && (m.words != [] ==> m.height == m.words[|m.words| - 1].y + cfg.mainHeight)
      && m.height >= cfg.paddingY + cfg.mainHeight
      && forall i :: 0 <= i < |m.words| ==>
           cfg.paddingY <= m.words[i].y && m.words[i].y + cfg.mainHeight <= m.height
  {
    PlaceAtomsWellPlaced(cfg, atoms);
    RowsDescend(cfg, atoms);
  }
}
