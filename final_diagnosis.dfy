/**
 * The final diagnosis card: the strongest and weakest area names arrive as
 * a list or as a single name and are normalised to lists; the share button
 * lists at most three of each, title-cased; the gauge shows the score
 * clamped to [0, 100].
 */
module FinalDiagnosis {
  import opened Wrappers
  import opened Text
  import opened Collections

  // ----------------------------------------------------------- titleize

  /** `\w`: an ASCII letter, a digit or `_`. */
  predicate IsWordChar(c: char) {
    'a' <= c <= 'z' || 'A' <= c <= 'Z' || '0' <= c <= '9' || c == '_'
  }

  /** `[-_\s]` */
  predicate IsSeparator(c: char) {
    c == '-' || c == '_' || IsJsSpace(c)
  }

  /**
   * The global replace of `/(^\w)|([-_\s]\w)/g` by the upper-cased last
   * character of each match, scanning from the left; `atStart` says whether
   * the scan is still at position 0, the only place `^` matches.
   */
  function Retitle(s: string, atStart: bool): (r: string)
    ensures |r| <= |s|
    ensures |s| > 0 ==> |r| > 0
    decreases |s|
  {
    if |s| == 0 then ""
    else if atStart && IsWordChar(s[0]) then [UpperChar(s[0])] + Retitle(s[1..], false)
    else if |s| >= 2 && IsSeparator(s[0]) && IsWordChar(s[1]) then [UpperChar(s[1])] + Retitle(s[2..], false)
    else [s[0]] + Retitle(s[1..], false)
  }

  /** `titleize(s)`: the empty string stays empty. */
  function Titleize(s: string): (r: string)
    ensures s == "" <==> r == ""
    ensures |r| <= |s|
  {
    if s == "" then "" else Retitle(s, true)
  }

  /** Text without separators keeps every character but the first as it is. */
  lemma {:induction false} RetitlePlain(w: string, atStart: bool)
    requires forall i :: 0 <= i < |w| ==> !IsSeparator(w[i])
    ensures |w| > 0 ==>
      Retitle(w, atStart) == [if atStart then UpperChar(w[0]) else w[0]] + w[1..]
    ensures |w| == 0 ==> Retitle(w, atStart) == ""
    decreases |w|
  {
    if |w| > 0 {
      RetitlePlain(w[1..], false);
      if |w| == 1 {
        assert w[1..] == "";
      } else {
        assert [w[1..][0]] + w[1..][1..] == w[1..];
      }
    }
  }

  /**
   * A word without separators keeps its letters and gets its first character
   * upper-cased: `titleize("gas") == "Gas"`.
   */
  lemma TitleizeWord(w: string)
    requires |w| > 0
    requires forall i :: 0 <= i < |w| ==> !IsSeparator(w[i])
    ensures Titleize(w) == [UpperChar(w[0])] + w[1..]
  {
    RetitlePlain(w, true);
  }

  lemma {:induction false} RetitleJoin(a: string, sep: char, b: string, atStart: bool)
    requires forall i :: 0 <= i < |a| ==> !IsSeparator(a[i])
    requires |a| > 0 || !atStart
    requires IsSeparator(sep) && |b| > 0 && IsWordChar(b[0])
    ensures Retitle(a + [sep] + b, atStart) == Retitle(a, atStart) + [UpperChar(b[0])] + Retitle(b[1..], false)
    decreases |a|
  {
    var s := a + [sep] + b;
    if |a| == 0 {
      assert s[0] == sep && s[1] == b[0] && s[2..] == b[1..];
    } else {
      var tail := a[1..] + [sep] + b;
      RetitleJoin(a[1..], sep, b, false);
      var head := if atStart && IsWordChar(a[0]) then UpperChar(a[0]) else a[0];
      assert s[0] == a[0] && !IsSeparator(s[0]);
      assert s[1..] == tail;
      assert Retitle(s, atStart) == [head] + Retitle(tail, false);
      assert Retitle(a, atStart) == [head] + Retitle(a[1..], false);
      ConsAssoc(head, Retitle(a[1..], false), [UpperChar(b[0])], Retitle(b[1..], false));
    }
  }

  lemma ConsAssoc(h: char, x: string, y: string, z: string)
    ensures [h] + (x + y + z) == [h] + x + y + z
  {
  }

  /**
   * A separator between a separator-free word and a word character is
   * dropped and that character is upper-cased: `titleize("foo-bar")` is
   * `titleize("foo") + titleize("bar")`, that is "FooBar".
   */
  lemma TitleizeJoin(a: string, sep: char, b: string)
    requires |a| > 0 && forall i :: 0 <= i < |a| ==> !IsSeparator(a[i])
    requires IsSeparator(sep) && |b| > 0 && IsWordChar(b[0])
    ensures Titleize(a + [sep] + b) == Titleize(a) + Titleize(b)
  {
    RetitleJoin(a, sep, b, true);
  }

  // ------------------------------------------------ strongest / weakest

  /** `strongest?: string[] | string`; the prop defaults to `[]`. */
  datatype Names = Absent | One(name: string) | Many(names: seq<string>)

  predicate NonEmpty(s: string) { s != "" }

  /**
   * The normalisation to a safe list: a list loses its falsy entries, a
   * non-empty single name becomes a one-entry list, anything else `[]`.
   */
  function Normalize(p: Names): (r: seq<string>)
    ensures forall x :: x in r ==> x != ""
    ensures p.Many? ==> forall x :: x in r <==> x in p.names && x != ""
    ensures p.Many? && (forall x :: x in p.names ==> x != "") ==> r == p.names
    ensures p.One? && p.name != "" ==> r == [p.name]
    ensures p.Absent? || (p.One? && p.name == "") ==> r == []
  {
    match p
    case Absent => []
    case One(name) => if name != "" then [name] else []
    case Many(names) =>
      if forall x :: x in names ==> x != "" then
        FilterAll(names, NonEmpty);
        Filter(names, NonEmpty)
      else Filter(names, NonEmpty)
  }

  /**
   * A list is filtered front to back: its first name stays first when it is
   * non-empty, so order and repeats are kept.
   */
  lemma NormalizeCons(x: string, s: seq<string>)
    ensures Normalize(Many([x] + s)) == (if x != "" then [x] else []) + Normalize(Many(s))
  {
    FilterCons(x, s, NonEmpty);
  }

  /** Likewise at the back: a non-empty last name comes last. */
  lemma NormalizeSnoc(s: seq<string>, x: string)
    ensures Normalize(Many(s + [x])) == Normalize(Many(s)) + (if x != "" then [x] else [])
  {
    FilterSnoc(s, x, NonEmpty);
  }

  /** Normalising a normalised list changes nothing. */
  lemma NormalizeIdempotent(p: Names)
    ensures Normalize(Many(Normalize(p))) == Normalize(p)
  {
    FilterAll(Normalize(p), NonEmpty);
  }

  // ------------------------------------------------------------ sharing

  /** `list.slice(0, 3).map(titleize).join(", ") || "—"` */
  function ShareList(names: seq<string>): string {
    var joined := Join(Map(Take(names, 3), Titleize), ", ");
    if joined == "" then "—" else joined
  }

  lemma JoinNonEmpty(parts: seq<string>, sep: string)
    requires |parts| > 0 && parts[0] != ""
    ensures Join(parts, sep) != ""
  {
  }

  /**
   * The share text names only the first three areas, title-cased and joined
   * by ", ", and shows "—" when there is no area to name.
   */
  lemma ShareListFacts(p: Names)
    ensures ShareList(Normalize(p)) == ShareList(Take(Normalize(p), 3))
    ensures Normalize(p) == [] ==> ShareList(Normalize(p)) == "—"
    ensures Normalize(p) != [] ==>
      && Join(Map(Take(Normalize(p), 3), Titleize), ", ") != ""
      && ShareList(Normalize(p)) == Join(Map(Take(Normalize(p), 3), Titleize), ", ")
  {
    var names := Normalize(p);
    if names != [] {
      var parts := Map(Take(names, 3), Titleize);
      assert names[0] in names;
      assert parts[0] == Titleize(names[0]);
      JoinNonEmpty(parts, ", ");
    }
  }

  // -------------------------------------------------------------- gauge

  /**
   * `Math.max(0, Math.min(100, Number(score) || 0))`; `None` stands for a
   * score that is not a number, which `|| 0` turns into 0.
   */
  function GaugePercent(score: Option<real>): (pct: real)
    ensures 0.0 <= pct <= 100.0
    ensures score.None? ==> pct == 0.0
    ensures score.Some? && 0.0 <= score.value <= 100.0 ==> pct == score.value
    ensures score.Some? && score.value > 100.0 ==> pct == 100.0
    ensures score.Some? && score.value < 0.0 ==> pct == 0.0
  {
    var n := if score.Some? then score.value else 0.0;
    if n > 100.0 then 100.0 else if n < 0.0 then 0.0 else n
  }

  /** A higher score never shows a lower gauge. */
  lemma GaugeMonotone(a: real, b: real)
    requires a <= b
    ensures GaugePercent(Some(a)) <= GaugePercent(Some(b))
  {
  }
}
