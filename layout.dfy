/**
 * The page wrapper returned by the `afterEach` hook: a two-column layout
 * with the editor mount points when any fence matched, otherwise a single
 * full-page column.
 */
module Layout {

  /** `pieces.join('')`. */
  function Concat(pieces: seq<string>): string {
    if pieces == [] then "" else pieces[0] + Concat(pieces[1..])
  }

  const ROW_OPEN: string := "<div class=\"row\">"
  const LESSON_OPEN: string := "<div class=\"lesson column\">"
  const CLOSE: string := "</div>"
  const CODE_OPEN: string := "<div class=\"code column\">"
  const EDITOR_DIV: string := "<div id=\"editor\" class=\"editor\"></div>"
  const EDITOR_BAR_DIV: string := "<div id=\"editor_bar\" class=\"editor-bar\"></div>"
  const FULLPAGE_OPEN: string := "<div class=\"fullpage\">"

  /** Everything the two-column page puts before the rendered html. */
  const TWO_COLUMN_HEAD: string := ROW_OPEN + LESSON_OPEN
  /** Everything the two-column page puts after it: the code column with both mount points. */
  const TWO_COLUMN_TAIL: string := CLOSE + CODE_OPEN + EDITOR_DIV + EDITOR_BAR_DIV + CLOSE + CLOSE

  /**
   * The page for `html` when `matched` fences were found: the join of the
   * hook's pieces, which is the html framed by fixed head and tail text.
   */
  function Page(html: string, matched: nat): (page: string)
    ensures matched > 0 ==> page == TWO_COLUMN_HEAD + html + TWO_COLUMN_TAIL
    ensures matched == 0 ==> page == FULLPAGE_OPEN + html + CLOSE
  {
    if matched > 0 then
      var head := [ROW_OPEN, LESSON_OPEN, html];
      var tail1 := [CLOSE, CODE_OPEN, EDITOR_DIV];
      var tail2 := [EDITOR_BAR_DIV, CLOSE, CLOSE];
      assert head + (tail1 + tail2)
          == [ROW_OPEN, LESSON_OPEN, html, CLOSE, CODE_OPEN, EDITOR_DIV, EDITOR_BAR_DIV, CLOSE, CLOSE];
      ConcatSplit(head, tail1 + tail2);
      ConcatSplit(tail1, tail2);
      Concat3(ROW_OPEN, LESSON_OPEN, html);
      Concat3(CLOSE, CODE_OPEN, EDITOR_DIV);
      Concat3(EDITOR_BAR_DIV, CLOSE, CLOSE);
      Concat([ROW_OPEN, LESSON_OPEN, html, CLOSE, CODE_OPEN, EDITOR_DIV, EDITOR_BAR_DIV, CLOSE, CLOSE])
    else
      Concat3(FULLPAGE_OPEN, html, CLOSE);
      Concat([FULLPAGE_OPEN, html, CLOSE])
  }

  /** Joining two runs of pieces is joining each and concatenating. */
  lemma {:induction false} ConcatSplit(a: seq<string>, b: seq<string>)
    ensures Concat(a + b) == Concat(a) + Concat(b)
  {
    if a == [] {
      assert a + b == b;
    } else {
      assert (a + b)[1..] == a[1..] + b;
      ConcatSplit(a[1..], b);
      assert Concat(a + b) == a[0] + (Concat(a[1..]) + Concat(b));
    }
  }

  /** The join of three pieces. */
  lemma Concat3(x: string, y: string, z: string)
    ensures Concat([x, y, z]) == x + y + z
  {
    assert [x, y, z][1..] == [y, z];
    assert [y, z][1..] == [z];
    assert [z][1..] == [];
    assert Concat([z]) == z;
    assert Concat([y, z]) == y + z;
  }

  /** The page shows the two-column layout. */
  predicate IsTwoColumn(page: string) {
    |page| >= |TWO_COLUMN_HEAD| + |TWO_COLUMN_TAIL| &&
    page[..|TWO_COLUMN_HEAD|] == TWO_COLUMN_HEAD &&
    page[|page| - |TWO_COLUMN_TAIL|..] == TWO_COLUMN_TAIL
  }

  /** The page shows the single full-page column. */
  predicate IsFullPage(page: string) {
    |page| >= |FULLPAGE_OPEN| + |CLOSE| &&
    page[..|FULLPAGE_OPEN|] == FULLPAGE_OPEN &&
    page[|page| - |CLOSE|..] == CLOSE
  }

  /** The rendered html a page wraps: the inverse of `Page`. */
  function Lesson(page: string): string
    requires IsTwoColumn(page) || IsFullPage(page)
  {
    if IsTwoColumn(page) then page[|TWO_COLUMN_HEAD|..|page| - |TWO_COLUMN_TAIL|]
    else page[|FULLPAGE_OPEN|..|page| - |CLOSE|]
  }

  /** The two-column layout is chosen exactly when at least one fence matched. */
  lemma TwoColumnIffMatched(html: string, matched: nat)
    ensures IsTwoColumn(Page(html, matched)) <==> matched > 0
    ensures IsFullPage(Page(html, matched)) <==> matched == 0
  {
    var p := Page(html, matched);
    if matched > 0 {
      assert p[..|TWO_COLUMN_HEAD|] == TWO_COLUMN_HEAD;
      assert p[|p| - |TWO_COLUMN_TAIL|..] == TWO_COLUMN_TAIL;
      assert p[..|FULLPAGE_OPEN|][12] != FULLPAGE_OPEN[12];
    } else {
      assert p[..|FULLPAGE_OPEN|] == FULLPAGE_OPEN;
      assert p[|p| - |CLOSE|..] == CLOSE;
      assert |p| >= |TWO_COLUMN_HEAD| ==> p[..|TWO_COLUMN_HEAD|][12] != TWO_COLUMN_HEAD[12];
    }
  }

  /** Either layout keeps the rendered html verbatim: unwrapping the page gives it back. */
  lemma LessonRoundTrip(html: string, matched: nat)
    ensures IsTwoColumn(Page(html, matched)) || IsFullPage(Page(html, matched))
    ensures Lesson(Page(html, matched)) == html
  {
    TwoColumnIffMatched(html, matched);
    var p := Page(html, matched);
    if matched > 0 {
      assert p[|TWO_COLUMN_HEAD|..|p| - |TWO_COLUMN_TAIL|] == html;
    } else {
      assert p[|FULLPAGE_OPEN|..|p| - |CLOSE|] == html;
    }
  }

  /**
   * In `head + x + (a + b + e + m + c + d)`, the piece `e` starts right after
   * `head + x + a + b` and `m` right after it.
   */
  lemma PieceAt(head: string, x: string, a: string, b: string, e: string, m: string, c: string, d: string)
    ensures var p, k := head + x + (a + b + e + m + c + d), |head| + |x| + |a| + |b|;
      |p| >= k + |e| + |m| && p[k..k + |e|] == e && p[k + |e|..k + |e| + |m|] == m
  {
    var p, k := head + x + (a + b + e + m + c + d), |head| + |x| + |a| + |b|;
    assert p == (head + x + a + b) + (e + m) + (c + d);
    assert p[k..k + |e| + |m|] == e + m;
    assert (e + m)[..|e|] == e && (e + m)[|e|..] == m;
  }

  /** A two-column page carries the editor mount point, then the toolbar mount point, right after the html's column. */
  lemma MountPoints(html: string, matched: nat)
    requires matched > 0
    ensures var p, k := Page(html, matched), |TWO_COLUMN_HEAD| + |html| + |CLOSE| + |CODE_OPEN|;
      |p| >= k + |EDITOR_DIV| + |EDITOR_BAR_DIV| &&
      p[k..k + |EDITOR_DIV|] == EDITOR_DIV &&
      p[k + |EDITOR_DIV|..k + |EDITOR_DIV| + |EDITOR_BAR_DIV|] == EDITOR_BAR_DIV
  {
    PieceAt(TWO_COLUMN_HEAD, html, CLOSE, CODE_OPEN, EDITOR_DIV, EDITOR_BAR_DIV, CLOSE, CLOSE);
  }
}
