/**
 * Wrapping of a line's translation into text lines (`measureTranslationLines`
 * in components/LyricLineCanvas.ts): the translation is cut into atoms (words
 * with their trailing space for Latin text, characters otherwise) and the atoms
 * are accumulated into lines until the next one would overflow.
 */
module TranslationLayout {
  import opened JsString
  import opened LineLayout

  /** The parameters `measureTranslationLines` receives besides the text. */
  datatype TransConfig = TransConfig(measure: Measure, font: Font, maxWidth: real, transHeight: real)

  /** Words of `split(" ")`, each but the last followed by the space it was cut at. */
  function SpacedWords(parts: seq<string>): (r: seq<string>)
    ensures |r| == |parts|
  {
    seq(|parts|, i requires 0 <= i < |parts| => if i < |parts| - 1 then parts[i] + " " else parts[i])
  }

  /** The atom texts of a translation: words with their spaces when it holds no
      CJK character, single characters otherwise. */
  function TranslationAtoms(translation: string): seq<string> {
    if DetectLanguage(translation) == En then SpacedWords(Split(translation, ' '))
    else Chars(translation)
  }

  lemma {:induction false} ConcatSpacedWords(parts: seq<string>)
    requires |parts| >= 1
    ensures Concat(SpacedWords(parts)) == Join(parts, ' ')
  {
    if |parts| > 1 {
      var rest := parts[1..];
      ConcatSpacedWords(rest);
      assert SpacedWords(parts) == [parts[0] + " "] + SpacedWords(rest);
      ConcatAppend([parts[0] + " "], SpacedWords(rest));
      assert Concat([parts[0] + " "]) == parts[0] + " " by {
        assert [parts[0] + " "][..0] == [];
      }
    } else {
      assert SpacedWords(parts) == [parts[0]];
      assert [parts[0]][..0] == [];
    }
  }

  /** The atoms spell the translation again: nothing is lost or added, the
      spaces `split(" ")` removed are put back. */
  lemma TranslationAtomsSpell(translation: string)
    ensures Concat(TranslationAtoms(translation)) == translation
  {
    if DetectLanguage(translation) == En {
      ConcatSpacedWords(Split(translation, ' '));
    } else {
      ConcatChars(translation);
    }
  }

  /** The running state of `measureTranslationLines`: the atoms of the lines
      already pushed, the atoms of the current line and its accumulated width. */
  datatype WrapState = WrapState(done: seq<seq<string>>, current: seq<string>, width: real)

  /** One atom: start a new line when the current one has positive width and
      the atom would overflow it; otherwise append the atom to it. */
  function WrapStep(cfg: TransConfig, st: WrapState, atom: string): WrapState {
    var w := cfg.measure(cfg.font, atom);
    if st.width + w > cfg.maxWidth && st.width > 0.0 then WrapState(st.done + [st.current], [atom], w)
    else WrapState(st.done, st.current + [atom], st.width + w)
  }

  function WrapAtoms(cfg: TransConfig, atoms: seq<string>): WrapState {
    if atoms == [] then WrapState([], [], 0.0)
    else WrapStep(cfg, WrapAtoms(cfg, atoms[..|atoms| - 1]), atoms[|atoms| - 1])
  }

  /** The lines as atom groups: the pushed lines, then the current line unless
      its text is empty. */
  function LineGroups(cfg: TransConfig, atoms: seq<string>): seq<seq<string>> {
    var st := WrapAtoms(cfg, atoms);
    if Concat(st.current) != "" then st.done + [st.current] else st.done
  }

  function Texts(groups: seq<seq<string>>): (r: seq<string>)
    ensures |r| == |groups|
  {
    seq(|groups|, i requires 0 <= i < |groups| => Concat(groups[i]))
  }

  /** What `measureTranslationLines` returns. */
  datatype TranslationMeasure = TranslationMeasure(lines: seq<string>, height: real)

  /** The height of `count` translation lines: one line height each plus 4,
      and nothing when there is no line. */
  function LinesHeight(count: nat, transHeight: real): (h: real)
    ensures count == 0 ==> h == 0.0
    ensures count == 1 ==> h == transHeight + 4.0
    ensures transHeight >= 0.0 && count > 0 ==> h >= transHeight + 4.0
  {
    if count > 0 then
      assert transHeight >= 0.0 ==> count as real * transHeight >= transHeight by {
        if transHeight >= 0.0 { ScaleAtLeast(count, transHeight); }
      }
      count as real * transHeight + 4.0
    else 0.0
  }

  lemma ScaleAtLeast(n: nat, x: real)
    requires n > 0 && x >= 0.0
    ensures n as real * x >= x
  {
    assert n as real * x == (n - 1) as real * x + x;
  }

  /** Every further line adds exactly one translation line height. */
  lemma LinesHeightStep(count: nat, transHeight: real)
    requires count > 0
    ensures LinesHeight(count + 1, transHeight) == LinesHeight(count, transHeight) + transHeight
  {
    assert (count + 1) as real * transHeight == count as real * transHeight + transHeight;
  }

  function TranslationOf(cfg: TransConfig, translation: string): TranslationMeasure {
    var lines := Texts(LineGroups(cfg, TranslationAtoms(translation)));
    TranslationMeasure(lines, LinesHeight(|lines|, cfg.transHeight))
  }

  lemma WrapAtomsSnoc(cfg: TransConfig, atoms: seq<string>, i: nat)
    requires i < |atoms|
    ensures WrapAtoms(cfg, atoms[..i + 1]) == WrapStep(cfg, WrapAtoms(cfg, atoms[..i]), atoms[i])
  {
    assert atoms[..i + 1][..i] == atoms[..i];
  }

  lemma TextsSnoc(groups: seq<seq<string>>, g: seq<string>)
    ensures Texts(groups + [g]) == Texts(groups) + [Concat(g)]
  {
  }

  /** `measureTranslationLines`. */
  method MeasureTranslationLines(cfg: TransConfig, translation: string) returns (r: TranslationMeasure)
    ensures r == TranslationOf(cfg, translation)
  {
    var atoms := TranslationAtoms(translation);
    var lines: seq<string> := [];
    var currentTransLine := "";
    var currentTransWidth := 0.0;
    ghost var st := WrapState([], [], 0.0);
    var i := 0;
    while i < |atoms|
      invariant 0 <= i <= |atoms|
      invariant st == WrapAtoms(cfg, atoms[..i])
      invariant lines == Texts(st.done) && currentTransLine == Concat(st.current) && currentTransWidth == st.width
    {
      var atomText := atoms[i];
      var width := cfg.measure(cfg.font, atomText);
      WrapAtomsSnoc(cfg, atoms, i);
      if currentTransWidth + width > cfg.maxWidth && currentTransWidth > 0.0 {
        TextsSnoc(st.done, st.current);
        ConcatSingle(atomText);
        lines := lines + [currentTransLine];
        currentTransLine := atomText;
        currentTransWidth := width;
      } else {
        ConcatSnoc(st.current, atomText);
        currentTransLine := currentTransLine + atomText;
        currentTransWidth := currentTransWidth + width;
      }
      st := WrapStep(cfg, st, atomText);
      i := i + 1;
    }
    assert atoms[..i] == atoms;
    if currentTransLine != "" {
      TextsSnoc(st.done, st.current);
      lines := lines + [currentTransLine];
    }
    var height := LinesHeight(|lines|, cfg.transHeight);
    r := TranslationMeasure(lines, height);
  }

  /** The summed atom widths of a line, as the wrap loop accumulates them. */
  function Width(cfg: TransConfig, atoms: seq<string>): real {
    if atoms == [] then 0.0 else Width(cfg, atoms[..|atoms| - 1]) + cfg.measure(cfg.font, atoms[|atoms| - 1])
  }

  lemma WidthSnoc(cfg: TransConfig, atoms: seq<string>, atom: string)
    ensures Width(cfg, atoms + [atom]) == Width(cfg, atoms) + cfg.measure(cfg.font, atom)
  {
    assert (atoms + [atom])[..|atoms|] == atoms;
  }

  /** Adding `atom` to a line of atoms `line` would make the loop start a new line. */
  ghost predicate Overflows(cfg: TransConfig, line: seq<string>, atom: string) {
    Width(cfg, line) + cfg.measure(cfg.font, atom) > cfg.maxWidth && Width(cfg, line) > 0.0
  }

  ghost predicate NonEmptyGroups(groups: seq<seq<string>>) {
    forall j :: 0 <= j < |groups| ==> |groups[j]| > 0
  }

  /** A group ends only where the next atom overflows it. */
  ghost predicate BreaksOverflow(cfg: TransConfig, groups: seq<seq<string>>)
    requires NonEmptyGroups(groups)
  {
    forall j :: 0 <= j < |groups| - 1 ==> Overflows(cfg, groups[j], groups[j + 1][0])
  }

  /** Inside a group no atom would have overflowed the part before it. */
  ghost predicate GroupsFit(cfg: TransConfig, groups: seq<seq<string>>) {
    forall j, k :: 0 <= j < |groups| && 0 < k < |groups[j]| ==> !Overflows(cfg, groups[j][..k], groups[j][k])
  }

  /** The greedy shape of a list of line groups. */
  ghost predicate Greedy(cfg: TransConfig, groups: seq<seq<string>>) {
    NonEmptyGroups(groups) && BreaksOverflow(cfg, groups) && GroupsFit(cfg, groups)
  }

  /** A new group holding one atom that overflows the last group keeps the shape. */
  lemma GreedyAddGroup(cfg: TransConfig, groups: seq<seq<string>>, atom: string)
    requires Greedy(cfg, groups)
    requires groups != [] ==> Overflows(cfg, groups[|groups| - 1], atom)
    ensures Greedy(cfg, groups + [[atom]])
  {
    var gs := groups + [[atom]];
    assert NonEmptyGroups(gs);
    forall j | 0 <= j < |gs| - 1 ensures Overflows(cfg, gs[j], gs[j + 1][0]) {
      if j < |groups| - 1 {
        assert gs[j] == groups[j] && gs[j + 1] == groups[j + 1];
      }
    }
    forall j, k | 0 <= j < |gs| && 0 < k < |gs[j]| ensures !Overflows(cfg, gs[j][..k], gs[j][k]) {
      assert gs[j] == groups[j];
    }
  }

  /** An atom that does not overflow the last group may join it. */
  lemma GreedyExtendLast(cfg: TransConfig, groups: seq<seq<string>>, atom: string)
    requires Greedy(cfg, groups) && groups != []
    requires !Overflows(cfg, groups[|groups| - 1], atom)
    ensures Greedy(cfg, groups[..|groups| - 1] + [groups[|groups| - 1] + [atom]])
  {
    var n := |groups| - 1;
    var last := groups[n];
    var gs := groups[..n] + [last + [atom]];
    assert NonEmptyGroups(gs);
    forall j | 0 <= j < |gs| - 1 ensures Overflows(cfg, gs[j], gs[j + 1][0]) {
      assert gs[j] == groups[j];
      if j + 1 < n {
        assert gs[j + 1] == groups[j + 1];
      } else {
        assert gs[j + 1][0] == groups[j + 1][0];
      }
    }
    forall j, k | 0 <= j < |gs| && 0 < k < |gs[j]| ensures !Overflows(cfg, gs[j][..k], gs[j][k]) {
      if j < n {
        assert gs[j] == groups[j];
      } else if k < |last| {
        assert gs[j][..k] == last[..k] && gs[j][k] == last[k];
      } else {
        assert gs[j][..k] == last;
      }
    }
  }

  lemma GreedyPrefix(cfg: TransConfig, groups: seq<seq<string>>, n: nat)
    requires Greedy(cfg, groups) && n <= |groups|
    ensures Greedy(cfg, groups[..n])
  {
    var gs := groups[..n];
    assert NonEmptyGroups(gs);
    forall j | 0 <= j < |gs| - 1 ensures Overflows(cfg, gs[j], gs[j + 1][0]) {
      assert gs[j] == groups[j] && gs[j + 1] == groups[j + 1];
    }
    forall j, k | 0 <= j < |gs| && 0 < k < |gs[j]| ensures !Overflows(cfg, gs[j][..k], gs[j][k]) {
      assert gs[j] == groups[j];
    }
  }

  /** All atoms of a list of groups, in order. */
  function Flatten(groups: seq<seq<string>>): seq<string> {
    if groups == [] then [] else Flatten(groups[..|groups| - 1]) + groups[|groups| - 1]
  }

  lemma FlattenSnoc(groups: seq<seq<string>>, g: seq<string>)
    ensures Flatten(groups + [g]) == Flatten(groups) + g
  {
    assert (groups + [g])[..|groups|] == groups;
  }

  /** What the wrap loop maintains. */
  ghost predicate WrapInvariant(cfg: TransConfig, atoms: seq<string>, st: WrapState) {
    && Flatten(st.done + [st.current]) == atoms
    && st.width == Width(cfg, st.current)
    && (atoms != [] ==> Greedy(cfg, st.done + [st.current]))
    && (atoms == [] ==> st.done == [] && st.current == [])
  }

  lemma WrapStepKeeps(cfg: TransConfig, atoms: seq<string>, st: WrapState, atom: string)
    requires WrapInvariant(cfg, atoms, st)
    ensures WrapInvariant(cfg, atoms + [atom], WrapStep(cfg, st, atom))
  {
    var all := st.done + [st.current];
    var w := cfg.measure(cfg.font, atom);
    FlattenSnoc(st.done, st.current);
    if st.width + w > cfg.maxWidth && st.width > 0.0 {
      assert atoms != [];
      assert all[|all| - 1] == st.current;
      GreedyAddGroup(cfg, all, atom);
      FlattenSnoc(all, [atom]);
      WidthSnoc(cfg, [], atom);
      assert [] + [atom] == [atom];
    } else {
      var cur' := st.current + [atom];
      WidthSnoc(cfg, st.current, atom);
      FlattenSnoc(st.done, cur');
      if atoms == [] {
        assert st.done + [cur'] == [[atom]];
      } else {
        assert all[..|all| - 1] == st.done && all[|all| - 1] == st.current;
        GreedyExtendLast(cfg, all, atom);
      }
    }
  }

  lemma {:induction false} WrapAtomsInvariant(cfg: TransConfig, atoms: seq<string>)
    ensures WrapInvariant(cfg, atoms, WrapAtoms(cfg, atoms))
  {
    if atoms == [] {
      FlattenSnoc([], []);
    } else {
      var prefix := atoms[..|atoms| - 1];
      WrapAtomsInvariant(cfg, prefix);
      WrapStepKeeps(cfg, prefix, WrapAtoms(cfg, prefix), atoms[|atoms| - 1]);
      assert prefix + [atoms[|atoms| - 1]] == atoms;
    }
  }

  lemma {:induction false} ConcatFlatten(groups: seq<seq<string>>)
    ensures Concat(Flatten(groups)) == Concat(Texts(groups))
  {
    if groups != [] {
      var init := groups[..|groups| - 1];
      ConcatFlatten(init);
      ConcatAppend(Flatten(init), groups[|groups| - 1]);
      assert Texts(groups)[..|groups| - 1] == Texts(init);
    }
  }

  /** Wrapping loses nothing: the translation lines, read one after the other,
      spell the translation. */
  lemma TranslationLinesSpell(cfg: TransConfig, translation: string)
    ensures Concat(TranslationOf(cfg, translation).lines) == translation
  {
    var atoms := TranslationAtoms(translation);
    var st := WrapAtoms(cfg, atoms);
    WrapAtomsFlatten(cfg, atoms);
    TranslationAtomsSpell(translation);
    ConcatFlatten(st.done + [st.current]);
    TextsSnoc(st.done, st.current);
    ConcatSnoc(Texts(st.done), Concat(st.current));
  }

  /** The wrap state's groups, the current one last, hold the atoms in order. */
  lemma WrapAtomsFlatten(cfg: TransConfig, atoms: seq<string>)
    ensures var st := WrapAtoms(cfg, atoms);
      Flatten(st.done + [st.current]) == atoms
  {
    WrapAtomsInvariant(cfg, atoms);
  }

  /** Every atom but the last has text: a word keeps the space it was cut at,
      and a character is never empty. */
  lemma AtomsBeforeLastHaveText(translation: string)
    ensures var atoms := TranslationAtoms(translation);
      forall i :: 0 <= i < |atoms| - 1 ==> atoms[i] != ""
  {
  }

  /** Strings one of which has text concatenate to a text. */
  lemma {:induction false} ConcatHasText(parts: seq<string>, i: nat)
    requires i < |parts| && parts[i] != ""
    ensures Concat(parts) != ""
  {
    if i < |parts| - 1 {
      ConcatHasText(parts[..|parts| - 1], i);
    }
  }

  /** Each group's atoms concatenate to a non-empty text. */
  ghost predicate GroupsHaveText(groups: seq<seq<string>>) {
    forall k :: 0 <= k < |groups| ==> Concat(groups[k]) != ""
  }

  /** A line pushed on overflow has positive width, so it holds an atom that
      is not the last one, and that atom has text. */
  lemma {:induction false} DoneGroupsHaveText(cfg: TransConfig, atoms: seq<string>)
    requires forall i :: 0 <= i < |atoms| - 1 ==> atoms[i] != ""
    ensures GroupsHaveText(WrapAtoms(cfg, atoms).done)
  {
    if atoms != [] {
      var prefix := atoms[..|atoms| - 1];
      var st := WrapAtoms(cfg, prefix);
      var st' := WrapAtoms(cfg, atoms);
      assert st' == WrapStep(cfg, st, atoms[|atoms| - 1]);
      DoneGroupsHaveText(cfg, prefix);
      var w := cfg.measure(cfg.font, atoms[|atoms| - 1]);
      if st.width + w > cfg.maxWidth && st.width > 0.0 {
        WrapAtomsInvariant(cfg, prefix);
        FlattenSnoc(st.done, st.current);
        assert st.current != [];
        var n := |Flatten(st.done)|;
        assert st.current[0] == prefix[n];
        ConcatHasText(st.current, 0);
        assert st'.done == st.done + [st.current];
      } else {
        assert st'.done == st.done;
      }
    }
  }

  /** No translation line is empty: an empty last line is dropped. */
  lemma TranslationLinesHaveText(cfg: TransConfig, translation: string)
    ensures var lines := TranslationOf(cfg, translation).lines;
      forall k :: 0 <= k < |lines| ==> lines[k] != ""
  {
    var atoms := TranslationAtoms(translation);
    var st := WrapAtoms(cfg, atoms);
    AtomsBeforeLastHaveText(translation);
    DoneGroupsHaveText(cfg, atoms);
    var groups := LineGroups(cfg, atoms);
    var lines := TranslationOf(cfg, translation).lines;
    assert lines == Texts(groups);
    forall k | 0 <= k < |lines|
      ensures lines[k] != ""
    {
      assert lines[k] == Concat(groups[k]);
      if k < |st.done| {
        assert groups[k] == st.done[k];
      } else {
        assert groups == st.done + [st.current] && groups[k] == st.current;
      }
    }
  }

  /** The greedy rule: every line holds at least one atom; a line ends only
      where it has positive width and the next atom would overflow it; and no
      atom inside a line would have overflowed the part of the line before it.
      The groups hold the atoms in order up to a trailing run without text,
      and no output line is empty. */
  lemma TranslationWrapGreedy(cfg: TransConfig, translation: string)
    ensures var groups := LineGroups(cfg, TranslationAtoms(translation));
      && Texts(groups) == TranslationOf(cfg, translation).lines
      && Greedy(cfg, groups)
    ensures var groups := LineGroups(cfg, TranslationAtoms(translation));
      exists tail :: Flatten(groups) + tail == TranslationAtoms(translation) && Concat(tail) == ""
    ensures forall k :: 0 <= k < |TranslationOf(cfg, translation).lines| ==> TranslationOf(cfg, translation).lines[k] != ""
  {
    TranslationLinesHaveText(cfg, translation);
    var atoms := TranslationAtoms(translation);
    var st := WrapAtoms(cfg, atoms);
    WrapAtomsInvariant(cfg, atoms);
    var all := st.done + [st.current];
    FlattenSnoc(st.done, st.current);
    if atoms == [] {
      assert LineGroups(cfg, atoms) == [];
      assert Flatten([]) + [] == atoms;
      assert Concat([]) == "";
    } else if Concat(st.current) == "" {
      assert all[..|all| - 1] == st.done;
      GreedyPrefix(cfg, all, |all| - 1);
      assert Flatten(st.done) + st.current == atoms;
    } else {
      assert Flatten(all) + [] == atoms;
      assert Concat([]) == "";
    }
  }

  lemma EmptyTranslationAtoms()
    ensures TranslationAtoms("") == [""]
  {
    assert DetectLanguage("") == En;
    assert Split("", ' ') == [""];
  }

  /** The empty translation wraps into no line. */
  lemma EmptyTranslationLines(cfg: TransConfig)
    ensures TranslationOf(cfg, "").lines == []
  {
    EmptyTranslationAtoms();
    var atoms: seq<string> := [""];
    WrapAtomsSnoc(cfg, atoms, 0);
    assert atoms[..1] == atoms && atoms[..0] == [];
    var st := WrapAtoms(cfg, atoms);
    assert st.done == [] && st.current == [""];
    ConcatSingle("");
    assert LineGroups(cfg, atoms) == [];
  }

  /** A non-empty translation gets at least one line, an empty one none; no
      line, no height, and at least one line height plus 4 otherwise. */
  lemma TranslationHeight(cfg: TransConfig, translation: string)
    ensures var m := TranslationOf(cfg, translation);
      && (translation != "" <==> |m.lines| > 0)
      && (translation == "" ==> m.height == 0.0)
      && (translation != "" && cfg.transHeight >= 0.0 ==> m.height >= cfg.transHeight + 4.0)
  {
    var m := TranslationOf(cfg, translation);
    if translation == "" {
      EmptyTranslationLines(cfg);
    } else {
      TranslationLinesSpell(cfg, translation);
    }
  }
}
