/**
 * The content parser of the button handler (app.py:360-372): the generated
 * text is stripped and split into lines, blank lines are dropped, each line
 * loses at most one leading numeral marker and then at most one leading
 * bullet marker, lines left empty are dropped, and the list is cut to the
 * requested number of ideas.
 */
module ContentParser {
  import opened PyText

  // ---------------------------------------------------------------------
  // The two markers, as the patterns `\d+\.\s*` and `[-•]\s*` describe them

  /** `-` or `•` (U+2022), the bullet characters of the second pattern. */
  predicate IsBullet(c: char) {
    c == '-' || c == '\U{2022}'
  }

  /** All of `m` is matched by `\d+\.\s*`. */
  ghost predicate IsNumberMarker(m: string) {
    exists k :: 0 < k < |m| && AllDigits(m[..k]) && m[k] == '.' && AllSpace(m[k + 1..])
  }

  /** All of `m` is matched by `[-•]\s*`. */
  predicate IsBulletMarker(m: string) {
    |m| > 0 && IsBullet(m[0]) && AllSpace(m[1..])
  }

  /** The length of the run of digits that starts `s`. */
  function LeadingDigits(s: string): (k: nat)
    ensures k <= |s| && AllDigits(s[..k])
    ensures k == |s| || !IsDigit(s[k])
  {
    if s != [] && IsDigit(s[0]) then
      var k := 1 + LeadingDigits(s[1..]);
      assert s[..k] == [s[0]] + s[1..][..k - 1];
      k
    else
      0
  }

  /** A run of digits ended by a non-digit is the leading run. */
  lemma {:induction false} LeadingDigitsOfRun(s: string, k: nat)
    requires k < |s| && AllDigits(s[..k]) && !IsDigit(s[k])
    ensures LeadingDigits(s) == k
  {
    if k > 0 {
      assert s[1..][..k - 1] == s[..k][1..];
      LeadingDigitsOfRun(s[1..], k - 1);
    }
  }

  lemma {:induction false} LeadingDigitsOfPrefix(s: string, j: nat)
    requires j <= |s|
    ensures LeadingDigits(s[..j]) == if LeadingDigits(s) < j then LeadingDigits(s) else j
  {
    if j > 0 && IsDigit(s[0]) {
      assert s[..j][1..] == s[1..][..j - 1];
      LeadingDigitsOfPrefix(s[1..], j - 1);
    }
  }

  /** The existential reading of `\d+\.\s*` agrees with the leading-digit-run reading. */
  lemma NumberMarkerIff(m: string)
    ensures IsNumberMarker(m) <==>
      (var k := LeadingDigits(m); 0 < k < |m| && m[k] == '.' && AllSpace(m[k + 1..]))
  {
    var d := LeadingDigits(m);
    if IsNumberMarker(m) {
      var k :| 0 < k < |m| && AllDigits(m[..k]) && m[k] == '.' && AllSpace(m[k + 1..]);
      LeadingDigitsOfRun(m, k);
    }
    if 0 < d < |m| && m[d] == '.' && AllSpace(m[d + 1..]) {
      assert AllDigits(m[..d]);
    }
  }

  // ---------------------------------------------------------------------
  // The two substitutions (app.py:367-368)

  /** `re.sub(r'^\d+\.\s*', '', s)`: what is left after the numeral marker, if any. */
  function StripNumberMarker(s: string): (r: string)
    ensures |r| <= |s|
    ensures |r| < |s| ==> r == [] || !IsSpace(r[0])
  {
    var k := LeadingDigits(s);
    if 0 < k < |s| && s[k] == '.' then TrimLeft(s[k + 1..]) else s
  }

  /** What the numeral substitution leaves is the rest of `s` after a dropped prefix. */
  lemma StripNumberMarkerIsSuffix(s: string)
    ensures var r := StripNumberMarker(s); r == s[|s| - |r|..]
  {
    var k := LeadingDigits(s);
    if 0 < k < |s| && s[k] == '.' {
      TrimLeftIsSuffix(s[k + 1..]);
    }
  }

  /** A dropped prefix is matched by `\d+\.\s*` as a whole. */
  lemma StripNumberMarkerDropsMarker(s: string)
    ensures var r := StripNumberMarker(s); |r| < |s| ==> IsNumberMarker(s[..|s| - |r|])
  {
    var r := StripNumberMarker(s);
    var d := |s| - |r|;
    var k := LeadingDigits(s);
    if 0 < k < |s| && s[k] == '.' {
      var rest := s[k + 1..];
      TrimLeftIsSuffix(rest);
      assert rest[..|rest| - |r|] == s[k + 1..d];
      assert s[..d][k + 1..] == s[k + 1..d];
      assert s[..d][..k] == s[..k];
      NumberMarkerIff(s[..d]);
      LeadingDigitsOfPrefix(s, d);
    }
  }

  /** No longer prefix is matched: the greedy `\s*` takes all the whitespace there is. */
  lemma StripNumberMarkerLongest(s: string)
    ensures var r := StripNumberMarker(s);
      forall j :: |s| - |r| < j <= |s| ==> !IsNumberMarker(s[..j])
  {
    var r := StripNumberMarker(s);
    var d := |s| - |r|;
    var k := LeadingDigits(s);
    var matched := 0 < k < |s| && s[k] == '.';
    StripNumberMarkerIsSuffix(s);
    forall j | d < j <= |s| ensures !IsNumberMarker(s[..j]) {
      NumberMarkerIff(s[..j]);
      LeadingDigitsOfPrefix(s, j);
      if matched {
        assert s[..j][k + 1..][d - k - 1] == s[d] == r[0];
      }
    }
  }

  /**
   * The substitution replaces the longest prefix of `s` that the pattern
   * matches by nothing, and leaves `s` alone when no prefix matches.
   */
  lemma StripNumberMarkerMatches(s: string)
    ensures var r := StripNumberMarker(s);
      r == s[|s| - |r|..]
      && (|r| < |s| ==> IsNumberMarker(s[..|s| - |r|]))
      && (forall j :: |s| - |r| < j <= |s| ==> !IsNumberMarker(s[..j]))
  {
    StripNumberMarkerIsSuffix(s);
    StripNumberMarkerDropsMarker(s);
    StripNumberMarkerLongest(s);
  }

  /** `re.sub(r'^[-•]\s*', '', s)`: what is left after the bullet marker, if any. */
  function StripBulletMarker(s: string): (r: string)
    ensures |r| <= |s|
    ensures |r| < |s| ==> r == [] || !IsSpace(r[0])
  {
    if s != [] && IsBullet(s[0]) then TrimLeft(s[1..]) else s
  }

  /** As for the numeral marker: the longest matching prefix is removed, or nothing when none matches. */
  lemma StripBulletMarkerMatches(s: string)
    ensures var r := StripBulletMarker(s);
      r == s[|s| - |r|..]
      && (|r| < |s| ==> IsBulletMarker(s[..|s| - |r|]))
      && (forall j :: |s| - |r| < j <= |s| ==> !IsBulletMarker(s[..j]))
  {
    var r := StripBulletMarker(s);
    var d := |s| - |r|;
    var matched := s != [] && IsBullet(s[0]);
    if matched {
      var rest := s[1..];
      TrimLeftIsSuffix(rest);
      assert rest[..|rest| - |r|] == s[..d][1..];
    }
    forall j | d < j <= |s| ensures !IsBulletMarker(s[..j]) {
      if matched {
        assert s[..j][1..][d - 1] == s[d] == r[0];
      }
    }
  }

  /** Both substitutions in the order the source applies them. */
  function StripMarkers(s: string): (r: string)
    ensures |r| <= |s| && r == s[|s| - |r|..]
    ensures (s == [] || (!IsDigit(s[0]) && !IsBullet(s[0]))) ==> r == s
  {
    var n := StripNumberMarker(s);
    StripNumberMarkerIsSuffix(s);
    StripBulletMarkerMatches(n);
    StripBulletMarker(n)
  }

  /** A run of `k` digits and a period: the numeral substitution leaves what follows, `lstrip`ped. */
  lemma StripNumberMarkerAt(s: string, k: nat)
    requires 0 < k < |s| && AllDigits(s[..k]) && s[k] == '.'
    ensures StripNumberMarker(s) == TrimLeft(s[k + 1..])
  {
    LeadingDigitsOfRun(s, k);
  }

  /** Both substitutions, the numeral one first. */
  lemma StripMarkersComposes(s: string)
    ensures StripMarkers(s) == StripBulletMarker(StripNumberMarker(s))
  {
  }

  /** `"1. - Foo"` loses its numeral marker and the space after it. */
  lemma StripNumberMarkerOfNumberedBullet()
    ensures StripNumberMarker("1. - Foo") == "- Foo"
  {
    StripNumberMarkerAt("1. - Foo", 1);
    assert "1. - Foo"[2..] == " - Foo";
    TrimLeftOneSpace(" - Foo");
    assert " - Foo"[1..] == "- Foo";
  }

  /** `"- Foo"` loses its bullet and the space after it. */
  lemma StripBulletMarkerOfBulleted()
    ensures StripBulletMarker("- Foo") == "Foo"
  {
    assert "- Foo"[1..] == " Foo";
    TrimLeftOneSpace(" Foo");
    assert " Foo"[1..] == "Foo";
  }

  /** A numeral marker and then a bullet marker both go. */
  lemma StripMarkersNumberThenBullet()
    ensures StripMarkers("1. - Foo") == "Foo"
  {
    StripMarkersComposes("1. - Foo");
    StripNumberMarkerOfNumberedBullet();
    StripBulletMarkerOfBulleted();
  }

  /** A numeral after a bullet stays: the numeral pattern is tried first. */
  lemma StripMarkersBulletThenNumber()
    ensures StripMarkers("- 1. Foo") == "1. Foo"
  {
    assert StripNumberMarker("- 1. Foo") == "- 1. Foo";
    assert "- 1. Foo"[1..] == " 1. Foo";
    TrimLeftOneSpace(" 1. Foo");
    assert " 1. Foo"[1..] == "1. Foo";
  }

  /** Only one numeral marker goes. */
  lemma StripMarkersOneNumber()
    ensures StripMarkers("1. 2. Foo") == "2. Foo"
  {
    StripNumberMarkerAt("1. 2. Foo", 1);
    assert "1. 2. Foo"[2..] == " 2. Foo";
    TrimLeftOneSpace(" 2. Foo");
    assert " 2. Foo"[1..] == "2. Foo";
    assert StripNumberMarker("1. 2. Foo") == "2. Foo";
  }

  /** Digits without a period are no marker. */
  lemma StripMarkersNoPeriod()
    ensures StripMarkers("12 x") == "12 x"
  {
    LeadingDigitsOfRun("12 x", 2);
  }

  /** A leading decimal loses its whole part: the numeral pattern needs no space after the period. */
  lemma StripMarkersDecimal()
    ensures StripMarkers("2.5 mg") == "5 mg"
  {
    StripNumberMarkerAt("2.5 mg", 1);
    assert "2.5 mg"[2..] == "5 mg";
  }

  /** A marker alone leaves nothing. */
  lemma StripMarkersOnlyMarker()
    ensures StripMarkers("1. ") == []
  {
    StripNumberMarkerAt("1. ", 1);
    assert "1. "[2..] == " ";
    TrimLeftOneSpace(" ");
  }

  /** One line of the loop body (app.py:367-368): `idea.strip()`, then both substitutions. */
  function CleanIdea(idea: string): (r: string)
    ensures IsTrimmed(r)
  {
    var t := Trim(idea);
    var n := StripNumberMarker(t);
    var b := StripMarkers(t);
    StripNumberMarkerIsSuffix(t);
    StripBulletMarkerMatches(n);
    assert b != [] ==> b[|b| - 1] == n[|n| - 1] == t[|t| - 1];
    b
  }

  /** A line that is nothing but a marker cleans to nothing. */
  lemma MarkerOnlyCleansToNothing(idea: string)
    requires IsNumberMarker(Trim(idea)) || IsBulletMarker(Trim(idea))
    ensures CleanIdea(idea) == []
  {
    var t := Trim(idea);
    NumberMarkerIff(t);
    var k := LeadingDigits(t);
    if 0 < k < |t| && t[k] == '.' && AllSpace(t[k + 1..]) {
      TrimLeftAllSpace(t[k + 1..]);
    } else {
      assert IsBullet(t[0]) && k == 0;
      TrimLeftAllSpace(t[1..]);
    }
  }

  /** Such a line adds nothing to the cleaned list. */
  lemma MarkerOnlyLineDropped(idea: string, rest: seq<string>)
    requires IsNumberMarker(Trim(idea)) || IsBulletMarker(Trim(idea))
    ensures CleanAll([idea] + rest) == CleanAll(rest)
  {
    MarkerOnlyCleansToNothing(idea);
    MapNonEmptyCons(idea, rest, CleanIdea);
  }

  // ---------------------------------------------------------------------
  // The line list, the cleaning loop, the slice

  /**
   * The shape of both list-building steps: `[f(x) for x in xs if f(x)]`,
   * the non-empty images under `f`, in the order of `xs`.
   */
  function MapNonEmpty(xs: seq<string>, f: string -> string): (r: seq<string>)
    ensures |r| <= |xs|
    ensures forall i :: 0 <= i < |r| ==> |r[i]| > 0
  {
    if xs == [] then []
    else
      var y := f(xs[0]);
      var rest := MapNonEmpty(xs[1..], f);
      if |y| == 0 then rest else [y] + rest
  }

  /** Every kept element is an image under `f`, so it has any property all images have. */
  lemma {:induction false} MapNonEmptyImages(xs: seq<string>, f: string -> string, P: string -> bool)
    requires forall x :: P(f(x))
    ensures forall i :: 0 <= i < |MapNonEmpty(xs, f)| ==> P(MapNonEmpty(xs, f)[i])
  {
    if xs != [] {
      MapNonEmptyImages(xs[1..], f, P);
    }
  }

  /** Order is kept: the step distributes over concatenation. */
  lemma {:induction false} MapNonEmptyAppend(a: seq<string>, b: seq<string>, f: string -> string)
    ensures MapNonEmpty(a + b, f) == MapNonEmpty(a, f) + MapNonEmpty(b, f)
  {
    if a != [] {
      assert (a + b)[1..] == a[1..] + b;
      MapNonEmptyAppend(a[1..], b, f);
    } else {
      assert a + b == b;
    }
  }

  /** Appending one more element adds its image when that is non-empty. */
  lemma MapNonEmptySnoc(xs: seq<string>, x: string, f: string -> string)
    ensures MapNonEmpty(xs + [x], f) == MapNonEmpty(xs, f) + (if |f(x)| == 0 then [] else [f(x)])
  {
    MapNonEmptyAppend(xs, [x], f);
    assert [x][1..] == [];
  }

  /** `[line.strip() for line in lines if line.strip()]` (app.py:361). */
  function NonBlankLines(lines: seq<string>): (r: seq<string>)
    ensures |r| <= |lines|
    ensures forall i :: 0 <= i < |r| ==> |r[i]| > 0 && IsTrimmed(r[i])
  {
    MapNonEmptyImages(lines, Trim, IsTrimmed);
    MapNonEmpty(lines, Trim)
  }

  /** The candidate ideas: the non-blank stripped lines of the stripped text. */
  function IdeaLines(text: string): (r: seq<string>)
    ensures forall i :: 0 <= i < |r| ==> |r[i]| > 0 && IsTrimmed(r[i])
  {
    NonBlankLines(Split(Trim(text), '\n'))
  }

  /** What the cleaning loop (app.py:365-370) accumulates: each idea cleaned, empty results dropped. */
  function CleanAll(ideas: seq<string>): (r: seq<string>)
    ensures |r| <= |ideas|
    ensures forall i :: 0 <= i < |r| ==> |r[i]| > 0 && IsTrimmed(r[i])
  {
    MapNonEmptyImages(ideas, CleanIdea, IsTrimmed);
    MapNonEmpty(ideas, CleanIdea)
  }

  /** The loop itself: one pass over the ideas, appending every non-empty cleaned line. */
  method CleanIdeas(ideas: seq<string>) returns (cleaned: seq<string>)
    ensures cleaned == CleanAll(ideas)
  {
    cleaned := [];
    for i := 0 to |ideas|
      invariant cleaned == CleanAll(ideas[..i])
    {
      var clean := CleanIdea(ideas[i]);
      CleanAllSnoc(ideas[..i], ideas[i]);
      assert ideas[..i + 1] == ideas[..i] + [ideas[i]];
      if |clean| > 0 {
        cleaned := cleaned + [clean];
      }
    }
    assert ideas[..|ideas|] == ideas;
  }

  /** One more line adds its cleaned form at the end, unless that is empty. */
  lemma CleanAllSnoc(ideas: seq<string>, idea: string)
    ensures CleanAll(ideas + [idea]) == CleanAll(ideas) + (if CleanIdea(idea) == [] then [] else [CleanIdea(idea)])
  {
    MapNonEmptySnoc(ideas, idea, CleanIdea);
  }

  /** Python's slice `xs[:n]`. */
  function Take<T>(xs: seq<T>, n: nat): (r: seq<T>)
    ensures |r| == if n < |xs| then n else |xs|
    ensures r == xs[..|r|]
  {
    if n < |xs| then xs[..n] else xs
  }

  /** The whole parse: the ideas stored as the run's result (app.py:360-372). */
  function Parse(text: string, count: nat): (r: seq<string>)
    ensures |r| <= count
    ensures forall i :: 0 <= i < |r| ==> |r[i]| > 0 && IsTrimmed(r[i])
  {
    Take(CleanAll(IdeaLines(text)), count)
  }

  /**
   * At most `count` ideas, taken from the front of the cleaned list in the
   * order of the lines, all of them when there are fewer (no padding); each
   * one non-empty and without whitespace at either end.
   */
  lemma ParseProperties(text: string, count: nat)
    ensures var r := Parse(text, count);
      var all := CleanAll(IdeaLines(text));
      |r| <= count
      && r == all[..|r|]
      && (|all| <= count ==> r == all)
      && (|all| > count ==> |r| == count)
      && forall i :: 0 <= i < |r| ==> |r[i]| > 0 && IsTrimmed(r[i])
  {
    var all := CleanAll(IdeaLines(text));
    var r := Take(all, count);
    assert r == Parse(text, count);
  }

  /** Peeling one element off the front: its image goes first when non-empty. */
  lemma MapNonEmptyCons(x: string, xs: seq<string>, f: string -> string)
    ensures MapNonEmpty([x] + xs, f) == if |f(x)| == 0 then MapNonEmpty(xs, f) else [f(x)] + MapNonEmpty(xs, f)
  {
    assert ([x] + xs)[1..] == xs;
  }

  /** Four pieces joined: the pieces with one separator between each two. */
  lemma JoinFour(a: string, b: string, c: string, d: string, sep: char)
    ensures Join([a, b, c, d], sep) == a + [sep] + b + [sep] + c + [sep] + d
  {
    assert [a, b, c, d][1..] == [b, c, d];
    assert [b, c, d][1..] == [c, d];
    assert [c, d][1..] == [d];
    assert Join([c, d], sep) == c + [sep] + d;
    assert Join([b, c, d], sep) == b + [sep] + (c + [sep] + d);
  }

  lemma JoinExample()
    ensures Join(["1. Foo", "- Bar", "", "2. Baz"], '\n') == "1. Foo\n- Bar\n\n2. Baz"
  {
    JoinFour("1. Foo", "- Bar", "", "2. Baz", '\n');
    assert "1. Foo" + "\n" + "- Bar" + "\n" + "" + "\n" + "2. Baz" == "1. Foo\n- Bar\n\n2. Baz";
  }

  lemma SplitExample()
    ensures Split("1. Foo\n- Bar\n\n2. Baz", '\n') == ["1. Foo", "- Bar", "", "2. Baz"]
  {
    var lines := ["1. Foo", "- Bar", "", "2. Baz"];
    JoinExample();
    SplitJoin(lines, '\n');
  }

  /**
   * The comprehension works line by line and keeps the order: a line between
   * two runs of lines contributes its stripped form in that place, or
   * nothing when it is blank.
   */
  lemma NonBlankLinesAppend(a: seq<string>, line: string, b: seq<string>)
    ensures NonBlankLines(a + [line] + b)
            == NonBlankLines(a) + (if Trim(line) == [] then [] else [Trim(line)]) + NonBlankLines(b)
  {
    var mid := if Trim(line) == [] then [] else [Trim(line)];
    assert a + [line] + b == a + ([line] + b);
    assert NonBlankLines(a + [line] + b) == MapNonEmpty(a + ([line] + b), Trim);
    MapNonEmptyAppend(a, [line] + b, Trim);
    assert MapNonEmpty([line] + b, Trim) == mid + MapNonEmpty(b, Trim) by {
      MapNonEmptyCons(line, b, Trim);
    }
    assert NonBlankLines(a) == MapNonEmpty(a, Trim);
    assert NonBlankLines(b) == MapNonEmpty(b, Trim);
  }

  /** Four elements, the third mapped to nothing and the others to themselves: the third goes. */
  lemma MapNonEmptyDropsThird(a: string, b: string, c: string, d: string, f: string -> string)
    requires f(a) == a != [] && f(b) == b != [] && f(c) == [] && f(d) == d != []
    ensures MapNonEmpty([a, b, c, d], f) == [a, b, d]
  {
    assert MapNonEmpty([d], f) == [d] by {
      MapNonEmptyCons(d, [], f);
      assert [d] + [] == [d];
    }
    assert MapNonEmpty([c, d], f) == [d] by {
      MapNonEmptyCons(c, [d], f);
      assert [c] + [d] == [c, d];
    }
    assert MapNonEmpty([b, c, d], f) == [b, d] by {
      MapNonEmptyCons(b, [c, d], f);
      assert [b] + [c, d] == [b, c, d];
    }
    MapNonEmptyCons(a, [b, c, d], f);
    assert [a] + [b, c, d] == [a, b, c, d];
  }

  /** Three trimmed non-empty lines around one empty line: the empty one goes, the others stay in order. */
  lemma NonBlankLinesDropsEmpty(a: string, b: string, d: string)
    requires a != [] && b != [] && d != []
    requires IsTrimmed(a) && IsTrimmed(b) && IsTrimmed(d)
    ensures NonBlankLines([a, b, [], d]) == [a, b, d]
  {
    TrimOfTrimmed(a);
    TrimOfTrimmed(b);
    TrimOfTrimmed(d);
    assert Trim([]) == [];
    MapNonEmptyDropsThird(a, b, [], d, Trim);
  }

  lemma NonBlankLinesExample()
    ensures NonBlankLines(["1. Foo", "- Bar", "", "2. Baz"]) == ["1. Foo", "- Bar", "2. Baz"]
  {
    NonBlankLinesDropsEmpty("1. Foo", "- Bar", "2. Baz");
  }

  /** The line step of the example: blank lines go, the rest are kept in order. */
  lemma IdeaLinesExample()
    ensures IdeaLines("1. Foo\n- Bar\n\n2. Baz") == ["1. Foo", "- Bar", "2. Baz"]
  {
    TrimOfTrimmed("1. Foo\n- Bar\n\n2. Baz");
    SplitExample();
    NonBlankLinesExample();
  }

  lemma CleanIdeaNumbered()
    ensures CleanIdea("1. Foo") == "Foo"
  {
    TrimOfTrimmed("1. Foo");
    LeadingDigitsOfRun("1. Foo", 1);
    assert "1. Foo"[2..] == " Foo";
    assert TrimLeft(" Foo") == "Foo";
  }

  lemma CleanIdeaBulleted()
    ensures CleanIdea("- Bar") == "Bar"
  {
    TrimOfTrimmed("- Bar");
    assert "- Bar"[1..] == " Bar";
    assert TrimLeft(" Bar") == "Bar";
  }

  /** When the first two lines clean to something, those two are the front of the cleaned list. */
  lemma CleanAllFirstTwo(a: string, b: string, rest: seq<string>)
    requires CleanIdea(a) != [] && CleanIdea(b) != []
    ensures |CleanAll([a, b] + rest)| >= 2
    ensures CleanAll([a, b] + rest)[..2] == [CleanIdea(a), CleanIdea(b)]
  {
    MapNonEmptyFirstTwo(a, b, rest, CleanIdea);
  }

  /** Two leading elements with non-empty images put those images first. */
  lemma MapNonEmptyFirstTwo(a: string, b: string, rest: seq<string>, f: string -> string)
    requires f(a) != [] && f(b) != []
    ensures |MapNonEmpty([a, b] + rest, f)| >= 2
    ensures MapNonEmpty([a, b] + rest, f)[..2] == [f(a), f(b)]
  {
    assert [a, b] + rest == [a] + ([b] + rest);
    MapNonEmptyCons(b, rest, f);
    MapNonEmptyCons(a, [b] + rest, f);
  }

  /** When the first two candidate lines clean to something, a count of two keeps exactly those two. */
  lemma ParseFirstTwo(text: string, a: string, b: string, rest: seq<string>)
    requires IdeaLines(text) == [a, b] + rest
    requires CleanIdea(a) != [] && CleanIdea(b) != []
    ensures Parse(text, 2) == [CleanIdea(a), CleanIdea(b)]
  {
    CleanAllFirstTwo(a, b, rest);
  }

  /** Numeral and bullet markers go, the blank line goes, and the slice keeps the first two. */
  lemma ParseExample()
    ensures Parse("1. Foo\n- Bar\n\n2. Baz", 2) == ["Foo", "Bar"]
  {
    IdeaLinesExample();
    CleanIdeaNumbered();
    CleanIdeaBulleted();
    ParseFirstTwo("1. Foo\n- Bar\n\n2. Baz", "1. Foo", "- Bar", ["2. Baz"]);
  }
}
