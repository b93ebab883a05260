/**
 * The results block of the script (app.py:380-411): shown only when the
 * session holds a non-empty list of ideas; the search terms and the ideas
 * are listed with labels counted from 1, and the download is offered under
 * a file name built from the stored topic.
 */
module ResultPresenter {
  import opened Base

  /** One labelled line: a data-frame row with its index, or an enumerated search term. */
  datatype Row = Row(number: nat, text: string)

  /** `enumerate(xs, first)`, and equally `xs` indexed by `range(first, first + len(xs))`. */
  function Numbered(xs: seq<string>, first: nat): (r: seq<Row>)
    ensures |r| == |xs|
    ensures forall i :: 0 <= i < |r| ==> r[i] == Row(first + i, xs[i])
  {
    if xs == [] then [] else [Row(first, xs[0])] + Numbered(xs[1..], first + 1)
  }

  /** The texts of the rows, labels dropped. */
  function Texts(rows: seq<Row>): seq<string> {
    if rows == [] then [] else [rows[0].text] + Texts(rows[1..])
  }

  /** Dropping the labels gives back the listed strings, in their order. */
  lemma {:induction false} TextsNumbered(xs: seq<string>, first: nat)
    ensures Texts(Numbered(xs, first)) == xs
  {
    if xs != [] {
      var r := Numbered(xs, first);
      assert r[1..] == Numbered(xs[1..], first + 1);
      TextsNumbered(xs[1..], first + 1);
      assert xs == [xs[0]] + xs[1..];
    }
  }

  /** Labels counted from 1 run up to the number of rows, each used once. */
  lemma NumberedFromOne(xs: seq<string>)
    ensures var r := Numbered(xs, 1);
      (forall i :: 0 <= i < |r| ==> 1 <= r[i].number <= |xs|)
      && (forall i, j :: 0 <= i < j < |r| ==> r[i].number < r[j].number)
      && (xs != [] ==> r[0].number == 1 && r[|r| - 1].number == |xs|)
  {
  }

  /** `s.replace(' ', '_')`. */
  function ReplaceSpaces(s: string): (r: string)
    ensures |r| == |s|
  {
    if s == [] then [] else [if s[0] == ' ' then '_' else s[0]] + ReplaceSpaces(s[1..])
  }

  /** Every space becomes an underscore, every other character stays where it was. */
  lemma {:induction false} ReplaceSpacesAt(s: string)
    ensures forall i :: 0 <= i < |s| ==> ReplaceSpaces(s)[i] == if s[i] == ' ' then '_' else s[i]
  {
    if s != [] {
      ReplaceSpacesAt(s[1..]);
    }
  }

  /** The replacement changes a string exactly when it contains a space. */
  lemma ReplaceSpacesUnchangedIff(s: string)
    ensures ReplaceSpaces(s) == s <==> ' ' !in s
  {
    ReplaceSpacesAt(s);
    if ' ' in s {
      var i :| 0 <= i < |s| && s[i] == ' ';
      assert ReplaceSpaces(s)[i] != s[i];
    } else {
      assert forall i :: 0 <= i < |s| ==> s[i] != ' ';
    }
  }

  /** The replacement works piece by piece. */
  lemma {:induction false} ReplaceSpacesAppend(a: string, b: string)
    ensures ReplaceSpaces(a + b) == ReplaceSpaces(a) + ReplaceSpaces(b)
  {
    if a != [] {
      assert (a + b)[1..] == a[1..] + b;
      ReplaceSpacesAppend(a[1..], b);
    } else {
      assert a + b == b;
    }
  }

  /** The fixed tail of the download name. */
  const Suffix: string := "_health_content_ideas.csv"

  /** The download name (app.py:405): the stored topic with spaces made underscores, then the tail. */
  function DownloadName(topicUsed: string): (name: string)
    ensures |name| == |topicUsed| + |Suffix|
    ensures name[|topicUsed|..] == Suffix
  {
    ReplaceSpaces(topicUsed) + Suffix
  }

  /**
   * The name starts with the topic, character for character except that
   * spaces are underscores, ends with the fixed tail, and has no space.
   */
  lemma DownloadNameShape(topicUsed: string)
    ensures var name := DownloadName(topicUsed);
      |name| == |topicUsed| + |Suffix|
      && name[|topicUsed|..] == Suffix
      && (forall i :: 0 <= i < |topicUsed| ==> name[i] == if topicUsed[i] == ' ' then '_' else topicUsed[i])
      && ' ' !in name
  {
    var name := DownloadName(topicUsed);
    ReplaceSpacesAt(topicUsed);
    assert name[|topicUsed|..] == Suffix;
    forall i | 0 <= i < |name| ensures name[i] != ' ' {
      if i >= |topicUsed| { assert name[i] == Suffix[i - |topicUsed|]; }
    }
  }

  /**
   * Each space is replaced on its own: a double space between two words
   * gives a double underscore ("heart  health" gives "heart__health" and the tail).
   */
  lemma DownloadNameDoubleSpace(a: string, b: string)
    requires ' ' !in a && ' ' !in b
    ensures DownloadName(a + "  " + b) == a + "__" + b + Suffix
  {
    ReplaceSpacesAppend(a + "  ", b);
    ReplaceSpacesAppend(a, "  ");
    ReplaceSpacesUnchangedIff(a);
    ReplaceSpacesUnchangedIff(b);
    assert ReplaceSpaces("  ") == "__";
  }

  /** Different topics can share a download name: a space and an underscore look alike. */
  lemma DownloadNameCollision(a: string, b: string)
    requires ' ' !in a && ' ' !in b
    ensures DownloadName(a + " " + b) == DownloadName(a + "_" + b)
  {
    ReplaceSpacesAppend(a + " ", b);
    ReplaceSpacesAppend(a, " ");
    ReplaceSpacesAppend(a + "_", b);
    ReplaceSpacesAppend(a, "_");
    assert ReplaceSpaces(" ") == "_" == ReplaceSpaces("_");
  }

  /** What the results block puts on the page. */
  datatype View = View(terms: seq<Row>, ideas: seq<Row>, fileName: string)

  /**
   * The results block (app.py:380-411) for the stored session fields:
   * nothing unless the stored ideas are present and non-empty; otherwise the
   * search terms and the ideas labelled from 1 and the download name.
   */
  function Display(generated: Option<seq<string>>, searchTerms: seq<string>, topicUsed: string): (v: Option<View>)
    ensures v.Some? <==> generated.Some? && generated.value != []
    ensures v.Some? ==> Texts(v.value.ideas) == generated.value
                        && Texts(v.value.terms) == searchTerms
                        && (forall i :: 0 <= i < |v.value.ideas| ==> v.value.ideas[i].number == i + 1)
                        && (forall i :: 0 <= i < |v.value.terms| ==> v.value.terms[i].number == i + 1)
                        && v.value.fileName == DownloadName(topicUsed)
  {
    if generated.Some? && generated.value != [] then
      TextsNumbered(generated.value, 1);
      TextsNumbered(searchTerms, 1);
      Some(View(Numbered(searchTerms, 1), Numbered(generated.value, 1), DownloadName(topicUsed)))
    else
      None
  }
}
