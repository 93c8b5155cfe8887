/**
 * The scrape loop of the `afterEach` hook: every `code` element whose class
 * holds `lang-`, in document order, becomes a snippet, a display name and
 * possibly the page's language.
 */
module Scraper {
  import opened Wrappers
  import opened ClassNames

  /** The language used when no fence names one. */
  const DEFAULT_LANG: string := "rust"

  /** A matched `code` element: its class attribute and its inner text. */
  datatype Fence = Fence(className: string, text: string)

  /** The page language after scraping `fences`: the last announced one, or the default. */
  function LangOf(fences: seq<Fence>): (lang: string)
    ensures lang != "" && SEPARATOR !in lang
  {
    if fences == [] then DEFAULT_LANG
    else match FenceLang(fences[|fences| - 1].className)
      case Some(v) => v
      case None => LangOf(fences[..|fences| - 1])
  }

  /** With no fence announcing a language, the default stands. */
  lemma {:induction false} LangDefault(fences: seq<Fence>)
    requires forall i :: 0 <= i < |fences| ==> FenceLang(fences[i].className).None?
    ensures LangOf(fences) == DEFAULT_LANG
  {
    if fences != [] {
      var init := fences[..|fences| - 1];
      assert forall i :: 0 <= i < |init| ==> init[i] == fences[i];
      LangDefault(init);
    }
  }

  /** The last fence that announces a language decides it. */
  lemma {:induction false} LangLastWins(fences: seq<Fence>, i: nat)
    requires i < |fences| && FenceLang(fences[i].className).Some?
    requires forall j :: i < j < |fences| ==> FenceLang(fences[j].className).None?
    ensures LangOf(fences) == FenceLang(fences[i].className).value
  {
    if i < |fences| - 1 {
      var init := fences[..|fences| - 1];
      assert forall j :: 0 <= j < |init| ==> init[j] == fences[j];
      LangLastWins(init, i);
    }
  }

  /** Whatever the fences, the language is the default or one a fence announced. */
  lemma {:induction false} LangComesFromAFence(fences: seq<Fence>)
    ensures LangOf(fences) == DEFAULT_LANG ||
            exists i :: 0 <= i < |fences| && FenceLang(fences[i].className) == Some(LangOf(fences))
  {
    if fences != [] && FenceLang(fences[|fences| - 1].className).None? {
      var init := fences[..|fences| - 1];
      LangComesFromAFence(init);
      if LangOf(init) != DEFAULT_LANG {
        var i :| 0 <= i < |init| && FenceLang(init[i].className) == Some(LangOf(init));
        assert fences[i] == init[i];
      }
    }
  }

  /**
   * The scrape loop: index-aligned snippets and names, one per fence in
   * document order, and the language of the last fence that names one.
   */
  method Scrape(fences: seq<Fence>) returns (codes: seq<string>, names: seq<string>, lang: string)
    ensures |codes| == |fences| && |names| == |fences|
    ensures forall i :: 0 <= i < |fences| ==> codes[i] == fences[i].text
    ensures forall i :: 0 <= i < |fences| ==> names[i] == Label(fences[i].className)
    ensures lang == LangOf(fences)
  {
    codes, names, lang := [], [], DEFAULT_LANG;
    for k := 0 to |fences|
      invariant |codes| == k && |names| == k
      invariant forall i :: 0 <= i < k ==> codes[i] == fences[i].text
      invariant forall i :: 0 <= i < k ==> names[i] == Label(fences[i].className)
      invariant lang == LangOf(fences[..k])
    {
      var n := fences[k];
      codes := codes + [n.text];
      names := names + [SegmentText(Segment(n.className, 1)) + "." + SegmentText(Segment(n.className, 2))];
      var seg := Segment(n.className, 2);
      if seg.Some? && seg.value != "" {
        lang := seg.value;
      }
      assert fences[..k + 1][..k] == fences[..k];
    }
    assert fences[..|fences|] == fences;
  }
}
