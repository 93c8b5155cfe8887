/**
 * The class-name convention of an annotated fence: `lang-<file>-<language>`.
 * The script reads it with JavaScript's `String.prototype.split("-")` and
 * indexes the resulting array; an index past the end yields `undefined`.
 */
module ClassNames {
  import opened Wrappers

  const SEPARATOR: char := '-'

  /** The text JavaScript's `+` produces for an `undefined` operand. */
  const UNDEFINED_TEXT: string := "undefined"

  /**
   * `s.split(sep)` for a one-character separator: the pieces between
   * separators, in order. There is always at least one piece (the empty
   * string splits into `[""]`) and no piece holds the separator.
   */
  function Split(s: string, sep: char): (parts: seq<string>)
    ensures |parts| >= 1
    ensures forall i :: 0 <= i < |parts| ==> sep !in parts[i]
    ensures |parts| == Count(s, sep) + 1
  {
    if s == [] then [""]
    else
      var rest := Split(s[1..], sep);
      if s[0] == sep then [""] + rest
      else [[s[0]] + rest[0]] + rest[1..]
  }

  /** Number of occurrences of `c` in `s`. */
  function Count(s: string, c: char): nat {
    if s == [] then 0 else (if s[0] == c then 1 else 0) + Count(s[1..], c)
  }

  /** `parts.join(sep)`: the inverse of `Split`. */
  function Join(parts: seq<string>, sep: char): string
    requires |parts| >= 1
  {
    if |parts| == 1 then parts[0] else parts[0] + [sep] + Join(parts[1..], sep)
  }

  /** Joining the pieces of a split gives back the original string. */
  lemma {:induction false} JoinSplit(s: string, sep: char)
    ensures Join(Split(s, sep), sep) == s
  {
    if s != [] {
      var rest := Split(s[1..], sep);
      JoinSplit(s[1..], sep);
      if s[0] == sep {
        assert Split(s, sep)[1..] == rest;
      } else {
        var parts := Split(s, sep);
        assert parts[0] == [s[0]] + rest[0];
        assert parts[1..] == rest[1..];
        if |rest| == 1 {
          assert Join(rest, sep) == rest[0];
        } else {
          assert Join(rest, sep) == rest[0] + [sep] + Join(rest[1..], sep);
        }
      }
    }
  }

  /** Splitting a join of separator-free pieces gives back the pieces. */
  lemma {:induction false} SplitJoin(parts: seq<string>, sep: char)
    requires |parts| >= 1
    requires forall i :: 0 <= i < |parts| ==> sep !in parts[i]
    ensures Split(Join(parts, sep), sep) == parts
  {
    if |parts| == 1 {
      SplitFree(parts[0], sep);
    } else {
      SplitJoin(parts[1..], sep);
      SplitPrefix(parts[0], [sep] + Join(parts[1..], sep), sep);
      assert parts[0] + [sep] + Join(parts[1..], sep) == parts[0] + ([sep] + Join(parts[1..], sep));
      assert ([sep] + Join(parts[1..], sep))[1..] == Join(parts[1..], sep);
      assert [parts[0]] + parts[1..] == parts;
    }
  }

  /** A separator-free string splits into itself. */
  lemma {:induction false} SplitFree(s: string, sep: char)
    requires sep !in s
    ensures Split(s, sep) == [s]
  {
    if s != [] {
      assert sep !in s[1..] by {
        forall i | 0 <= i < |s[1..]| ensures s[1..][i] != sep { assert s[1..][i] == s[i + 1]; }
      }
      SplitFree(s[1..], sep);
      assert [s[0]] + s[1..] == s;
    }
  }

  /** A separator-free prefix glues onto the first piece of what follows it. */
  lemma {:induction false} SplitPrefix(p: string, t: string, sep: char)
    requires sep !in p
    requires |t| >= 1 && t[0] == sep
    ensures Split(p + t, sep) == [p] + Split(t[1..], sep)
  {
    if p == [] {
      assert p + t == t;
    } else {
      assert sep !in p[1..] by {
        forall i | 0 <= i < |p[1..]| ensures p[1..][i] != sep { assert p[1..][i] == p[i + 1]; }
      }
      SplitPrefix(p[1..], t, sep);
      assert (p + t)[1..] == p[1..] + t;
      assert (p + t)[0] == p[0];
      assert [p[0]] + p[1..] == p;
    }
  }

  /** `className.split("-")[k]`: the piece at index `k`, or `undefined`. */
  function Segment(className: string, k: nat): (seg: Option<string>)
    ensures seg.Some? <==> k <= Count(className, SEPARATOR)
    ensures seg.Some? ==> SEPARATOR !in seg.value
  {
    var parts := Split(className, SEPARATOR);
    if k < |parts| then Some(parts[k]) else None
  }

  /** What string concatenation makes of a segment: its text, or "undefined". */
  function SegmentText(seg: Option<string>): string {
    seg.GetOr(UNDEFINED_TEXT)
  }

  /** The display name of a fence: segment 1, a dot, segment 2. */
  function Label(className: string): (name: string)
    ensures SEPARATOR !in name
    ensures '.' in name
  {
    SegmentText(Segment(className, 1)) + "." + SegmentText(Segment(className, 2))
  }

  /**
   * The language a fence announces: segment 2 when it is present and not
   * empty (JavaScript truthiness); otherwise none.
   */
  function FenceLang(className: string): (lang: Option<string>)
    ensures lang.Some? <==> Segment(className, 2).Some? && Segment(className, 2).value != ""
    ensures lang.Some? ==> lang == Segment(className, 2)
  {
    match Segment(className, 2)
    case Some(v) => if v != "" then Some(v) else None
    case None => None
  }

  /** For a class `a-b-c-...` of separator-free pieces, the label is `b.c` and the language `c` unless empty. */
  lemma LabelOfPieces(pieces: seq<string>)
    requires |pieces| >= 3
    requires forall i :: 0 <= i < |pieces| ==> SEPARATOR !in pieces[i]
    ensures Label(Join(pieces, SEPARATOR)) == pieces[1] + "." + pieces[2]
    ensures FenceLang(Join(pieces, SEPARATOR)) == if pieces[2] == "" then None else Some(pieces[2])
  {
    SplitJoin(pieces, SEPARATOR);
  }

  /** With fewer than three pieces the missing ones read as "undefined" and there is no language. */
  lemma LabelOfShortClass(pieces: seq<string>)
    requires 1 <= |pieces| <= 2
    requires forall i :: 0 <= i < |pieces| ==> SEPARATOR !in pieces[i]
    ensures Label(Join(pieces, SEPARATOR)) ==
      (if |pieces| == 2 then pieces[1] else UNDEFINED_TEXT) + "." + UNDEFINED_TEXT
    ensures FenceLang(Join(pieces, SEPARATOR)) == None
  {
    SplitJoin(pieces, SEPARATOR);
  }
}
