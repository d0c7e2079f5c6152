/**
 * src/pages/DigitalWellness.tsx: the map of expanded topic sections that
 * `toggleSection` updates, and the slug a topic title becomes when a link
 * under it is opened (`title.toLowerCase().replace(/\s+/g, '_')`).
 */
module DigitalWellness {
  import opened Text

  /** `expandedSections[index]` read as a boolean: an absent key is falsy. */
  function Expanded(sections: map<int, bool>, index: int): bool
  {
    index in sections && sections[index]
  }

  /** `{...prev, [index]: !prev[index]}` */
  function Toggle(sections: map<int, bool>, index: int): (r: map<int, bool>)
    ensures r.Keys == sections.Keys + {index}
    ensures Expanded(r, index) == !Expanded(sections, index)
    ensures forall j :: j in sections && j != index ==> j in r && r[j] == sections[j]
  {
    sections[index := !Expanded(sections, index)]
  }

  /** Toggling one section twice restores how every section reads. */
  lemma ToggleTwice(sections: map<int, bool>, index: int, j: int)
    ensures Expanded(Toggle(Toggle(sections, index), index), j) == Expanded(sections, j)
  {
  }

  /** Toggling one section leaves how every other section reads unchanged. */
  lemma ToggleOthers(sections: map<int, bool>, index: int, j: int)
    requires j != index
    ensures Expanded(Toggle(sections, index), j) == Expanded(sections, j)
  {
  }

  class Page {
    var expandedSections: map<int, bool>

    /** `useState({})`: every section starts collapsed. */
    constructor ()
      ensures expandedSections == map[]
      ensures forall i :: !IsExpanded(i)
    {
      expandedSections := map[];
    }

    function IsExpanded(index: int): bool
      reads this
    {
      Expanded(expandedSections, index)
    }

    method ToggleSection(index: int)
      modifies this
      ensures expandedSections == Toggle(old(expandedSections), index)
      ensures IsExpanded(index) == !old(IsExpanded(index))
      ensures forall j :: j != index ==> IsExpanded(j) == old(IsExpanded(j))
    {
      expandedSections := Toggle(expandedSections, index);
    }
  }

  /**
   * Worked example: on a fresh page a section clicked once is open, and
   * clicked again it is collapsed, with every other section still collapsed.
   */
  method ClickTwice(index: int) returns (openAfterFirst: bool, page: Page)
    ensures openAfterFirst
    ensures forall j :: !page.IsExpanded(j)
  {
    page := new Page();
    page.ToggleSection(index);
    openAfterFirst := page.IsExpanded(index);
    page.ToggleSection(index);
  }

  /** The input with its leading run of whitespace removed. */
  function DropWhitespace(s: string): (r: string)
    ensures |r| <= |s| && r == s[|s| - |r|..]
    ensures r != [] ==> !IsWhitespace(r[0])
  {
    if s != [] && IsWhitespace(s[0]) then DropWhitespace(s[1..]) else s
  }

  /** `s.replace(/\s+/g, '_')`: the regex takes each maximal whitespace run, left to right. */
  function ReplaceWhitespaceRuns(s: string): (r: string)
    ensures NoWhitespace(r) && |r| <= |s|
    decreases |s|
  {
    if s == [] then []
    else if IsWhitespace(s[0]) then "_" + ReplaceWhitespaceRuns(DropWhitespace(s))
    else [s[0]] + ReplaceWhitespaceRuns(s[1..])
  }

  /** The topic slug passed to `handleExternalLink`. */
  function Slug(title: string): (slug: string)
    ensures NoWhitespace(slug) && |slug| <= |title|
  {
    ReplaceWhitespaceRuns(LowerCase(title))
  }

  /**
   * Reference definition, one character at a time: a whitespace character
   * that starts a run becomes `_`, one that continues a run is dropped, any
   * other character stays. `afterWhitespace` says whether the previous
   * character was whitespace.
   */
  function Collapse(s: string, afterWhitespace: bool): string
  {
    if s == [] then []
    else if IsWhitespace(s[0]) then (if afterWhitespace then "" else "_") + Collapse(s[1..], true)
    else [s[0]] + Collapse(s[1..], false)
  }

  lemma {:induction false} CollapseSkipsRun(s: string)
    ensures Collapse(s, true) == Collapse(DropWhitespace(s), true)
  {
    if s != [] && IsWhitespace(s[0]) {
      CollapseSkipsRun(s[1..]);
    }
  }

  /** The regex replacement is the character-by-character collapse. */
  lemma {:induction false} ReplaceIsCollapse(s: string)
    ensures ReplaceWhitespaceRuns(s) == Collapse(s, false)
    decreases |s|
  {
    if s != [] {
      if IsWhitespace(s[0]) {
        var rest := DropWhitespace(s);
        CollapseSkipsRun(s[1..]);
        assert DropWhitespace(s[1..]) == rest;
        ReplaceIsCollapse(rest);
      } else {
        ReplaceIsCollapse(s[1..]);
      }
    }
  }

  lemma {:induction false} CollapseNoWhitespace(s: string, afterWhitespace: bool)
    ensures NoWhitespace(Collapse(s, afterWhitespace))
  {
    if s != [] {
      CollapseNoWhitespace(s[1..], IsWhitespace(s[0]));
    }
  }

  /** Only whitespace is touched: a title without whitespace just becomes lower case. */
  lemma {:induction false} CollapseKeeps(s: string, afterWhitespace: bool)
    requires NoWhitespace(s)
    ensures Collapse(s, afterWhitespace) == s
  {
    if s != [] {
      CollapseKeeps(s[1..], false);
    }
  }

  /** The slug contains no whitespace, and is the lower-cased title collapsed run by run. */
  lemma SlugShape(title: string)
    ensures NoWhitespace(Slug(title))
    ensures Slug(title) == Collapse(LowerCase(title), false)
  {
    ReplaceIsCollapse(LowerCase(title));
    CollapseNoWhitespace(LowerCase(title), false);
  }

  /** A slug is its own slug. */
  lemma SlugIdempotent(title: string)
    ensures Slug(Slug(title)) == Slug(title)
  {
    var s := Slug(title);
    SlugShape(title);
    LowerCaseOfSlug(title);
    assert NoWhitespace(LowerCase(s));
    ReplaceIsCollapse(LowerCase(s));
    CollapseKeeps(LowerCase(s), false);
  }

  lemma {:induction false} CollapseLower(s: string, afterWhitespace: bool)
    requires forall i :: 0 <= i < |s| ==> LowerChar(s[i]) == s[i]
    ensures forall i :: 0 <= i < |Collapse(s, afterWhitespace)| ==>
              LowerChar(Collapse(s, afterWhitespace)[i]) == Collapse(s, afterWhitespace)[i]
  {
    if s != [] {
      CollapseLower(s[1..], IsWhitespace(s[0]));
    }
  }

  lemma LowerCaseOfSlug(title: string)
    ensures LowerCase(Slug(title)) == Slug(title)
  {
    SlugShape(title);
    CollapseLower(LowerCase(title), false);
  }

  /** Whether the text after `a` follows whitespace (`afterWhitespace` when a is empty). */
  function EndsInWhitespace(a: string, afterWhitespace: bool): bool
  {
    if a == [] then afterWhitespace else IsWhitespace(a[|a| - 1])
  }

  /** The collapse works piecewise: how the second part is treated depends only on how the first ends. */
  lemma {:induction false} CollapseConcat(a: string, b: string, afterWhitespace: bool)
    ensures Collapse(a + b, afterWhitespace) == Collapse(a, afterWhitespace) + Collapse(b, EndsInWhitespace(a, afterWhitespace))
  {
    if a == [] {
      assert a + b == b;
    } else {
      assert (a + b)[1..] == a[1..] + b;
      CollapseConcat(a[1..], b, IsWhitespace(a[0]));
      assert a[1..] != [] ==> a[1..][|a[1..]| - 1] == a[|a| - 1];
    }
  }

  lemma {:induction false} CollapseOfRun(w: string, afterWhitespace: bool)
    requires w != [] && forall i :: 0 <= i < |w| ==> IsWhitespace(w[i])
    ensures Collapse(w, afterWhitespace) == if afterWhitespace then "" else "_"
  {
    if |w| > 1 {
      CollapseOfRun(w[1..], true);
    }
  }

  /**
   * A maximal whitespace run (nothing whitespace just before or just after it)
   * turns into exactly one `_`, and the text on either side is treated as if
   * the run were not there.
   */
  lemma CollapseMaximalRun(x: string, w: string, y: string)
    requires w != [] && forall i :: 0 <= i < |w| ==> IsWhitespace(w[i])
    requires x != [] ==> !IsWhitespace(x[|x| - 1])
    requires y != [] ==> !IsWhitespace(y[0])
    ensures Collapse(x + w + y, false) == Collapse(x, false) + "_" + Collapse(y, false)
  {
    CollapseConcat(x + w, y, false);
    CollapseConcat(x, w, false);
    CollapseOfRun(w, EndsInWhitespace(x, false));
    assert EndsInWhitespace(x + w, false);
  }
}
