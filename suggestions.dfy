/**
 * The suggestion normaliser of the button handler (app.py:305-311): the
 * `value` of every entry under the optional `suggestions` field of the
 * search payload, collected by a loop, then `sorted(set(...))`.
 */
module Suggestions {
  import opened Base

  /** One entry of the `suggestions` list; `value` is None when the entry has no such key. */
  datatype Entry = Entry(value: Option<string>)

  /** The search payload; `suggestions` is None when the field is absent. */
  datatype Payload = Payload(suggestions: Option<seq<Entry>>)

  // ---------------------------------------------------------------------
  // Python's `<` on `str`: code-point lexicographic order, a proper
  // prefix before its extensions.

  predicate Less(a: string, b: string)
    ensures Less(a, b) ==> a != b
  {
    if a == [] then b != []
    else if b == [] then false
    else if a[0] != b[0] then a[0] < b[0]
    else Less(a[1..], b[1..])
  }

  lemma {:induction false} LessIrreflexive(a: string)
    ensures !Less(a, a)
  {
    if a != [] { LessIrreflexive(a[1..]); }
  }

  lemma {:induction false} LessTransitive(a: string, b: string, c: string)
    requires Less(a, b) && Less(b, c)
    ensures Less(a, c)
  {
    if a != [] && a[0] == b[0] && b[0] == c[0] {
      LessTransitive(a[1..], b[1..], c[1..]);
    }
  }

  lemma {:induction false} LessTotal(a: string, b: string)
    ensures a == b || Less(a, b) || Less(b, a)
  {
    if a != [] && b != [] && a[0] == b[0] {
      LessTotal(a[1..], b[1..]);
      if a[1..] == b[1..] {
        assert a == [a[0]] + a[1..] && b == [b[0]] + b[1..];
      }
    }
  }

  lemma LessAsymmetric(a: string, b: string)
    requires Less(a, b)
    ensures !Less(b, a)
  {
    if Less(b, a) {
      LessTransitive(a, b, a);
      LessIrreflexive(a);
    }
  }

  /** Ascending with no repeats: every earlier string is strictly less than every later one. */
  predicate StrictlySorted(s: seq<string>) {
    forall i, j :: 0 <= i < j < |s| ==> Less(s[i], s[j])
  }

  /** No string occurs twice. */
  predicate Distinct(s: seq<string>) {
    forall i, j :: 0 <= i < j < |s| ==> s[i] != s[j]
  }

  lemma StrictlySortedDistinct(s: seq<string>)
    requires StrictlySorted(s)
    ensures Distinct(s)
  {
    forall i, j | 0 <= i < j < |s| ensures s[i] != s[j] {
      if s[i] == s[j] { LessIrreflexive(s[i]); }
    }
  }

  // ---------------------------------------------------------------------
  // sorted(set(xs))

  /** Inserts `x` into a strictly sorted list unless it is already there. */
  function Insert(x: string, ys: seq<string>): (r: seq<string>)
    requires StrictlySorted(ys)
    ensures StrictlySorted(r)
    ensures forall z :: z in r <==> z == x || z in ys
    ensures r != [] && (r[0] == x || (ys != [] && r[0] == ys[0]))
  {
    if ys == [] then [x]
    else if x == ys[0] then ys
    else if Less(x, ys[0]) then
      var r := [x] + ys;
      forall i, j | 0 <= i < j < |r| ensures Less(r[i], r[j]) {
        if i == 0 && j > 1 { LessTransitive(x, ys[0], ys[j - 1]); }
      }
      r
    else
      var t := Insert(x, ys[1..]);
      var r := [ys[0]] + t;
      LessTotal(x, ys[0]);
      assert forall z :: z in ys[1..] ==> Less(ys[0], z);
      assert forall j :: 0 <= j < |t| ==> t[j] in t;
      r
  }

  /** Python's `sorted(set(xs))`: the distinct strings of `xs`, ascending. */
  function Normalize(xs: seq<string>): (r: seq<string>)
    ensures StrictlySorted(r)
    ensures forall z :: z in r <==> z in xs
  {
    if xs == [] then []
    else
      var t := Normalize(xs[1..]);
      var r := Insert(xs[0], t);
      assert forall z :: z in xs <==> z == xs[0] || z in xs[1..];
      r
  }

  /** Two strictly sorted lists with the same strings are the same list. */
  lemma {:induction false} StrictlySortedUnique(a: seq<string>, b: seq<string>)
    requires StrictlySorted(a) && StrictlySorted(b)
    requires forall z :: z in a <==> z in b
    ensures a == b
  {
    if b != [] { assert b[0] in a; }
    if a != [] { assert a[0] in b; }
    if a != [] && b != [] {
      assert a[0] == b[0] by {
        var i :| 0 <= i < |b| && b[i] == a[0];
        var j :| 0 <= j < |a| && a[j] == b[0];
        if i != 0 && j != 0 { LessAsymmetric(b[0], a[0]); }
      }
      forall z ensures z in a[1..] <==> z in b[1..] {
        if z in a[1..] {
          var i :| 0 <= i < |a[1..]| && a[1..][i] == z;
          assert Less(a[0], z);
          LessIrreflexive(z);
          assert z in b;
          var k :| 0 <= k < |b| && b[k] == z;
          assert k != 0;
          assert b[1..][k - 1] == z;
        }
        if z in b[1..] {
          var i :| 0 <= i < |b[1..]| && b[1..][i] == z;
          assert Less(b[0], z);
          LessIrreflexive(z);
          assert z in a;
          var k :| 0 <= k < |a| && a[k] == z;
          assert k != 0;
          assert a[1..][k - 1] == z;
        }
      }
      StrictlySortedUnique(a[1..], b[1..]);
      assert a == [a[0]] + a[1..] && b == [b[0]] + b[1..];
    }
  }

  /** `Normalize` is THE ascending de-duplicated list: any other with the same strings equals it. */
  lemma NormalizeCharacterised(xs: seq<string>, ys: seq<string>)
    requires StrictlySorted(ys)
    requires forall z :: z in ys <==> z in xs
    ensures Normalize(xs) == ys
  {
    StrictlySortedUnique(Normalize(xs), ys);
  }

  /** Normalising an already normalised list returns it unchanged. */
  lemma NormalizeIdempotent(xs: seq<string>)
    ensures Normalize(Normalize(xs)) == Normalize(xs)
  {
    NormalizeCharacterised(Normalize(xs), Normalize(xs));
  }

  /** The normalised list is empty exactly when the raw list is. */
  lemma NormalizeEmptyIff(xs: seq<string>)
    ensures Normalize(xs) == [] <==> xs == []
  {
    if xs != [] { assert xs[0] in Normalize(xs); }
  }

  lemma NormalizeExample()
    ensures Normalize(["b", "a", "b"]) == ["a", "b"]
  {
    assert Less("a", "b");
    NormalizeCharacterised(["b", "a", "b"], ["a", "b"]);
  }

  // ---------------------------------------------------------------------
  // Collecting the values (app.py:305-306)

  /**
   * The `value` of every entry of `entries`, in order; None when some entry
   * lacks the key (the lookup `suggestion["value"]` raises).
   */
  function EntryValues(entries: seq<Entry>): (r: Option<seq<string>>)
    ensures r.Some? <==> forall i :: 0 <= i < |entries| ==> entries[i].value.Some?
    ensures r.Some? ==> |r.value| == |entries|
                        && forall i :: 0 <= i < |entries| ==> r.value[i] == entries[i].value.value
  {
    if entries == [] then Some([])
    else match (entries[0].value, EntryValues(entries[1..]))
      case (Some(v), Some(vs)) => Some([v] + vs)
      case (None, _) => None
      case (_, None) => None
  }

  /** `results.get("suggestions", [])` followed by the value lookups. */
  function Values(p: Payload): (r: Option<seq<string>>)
    ensures p.suggestions.None? ==> r == Some([])
    ensures p.suggestions.Some? ==>
              var entries := p.suggestions.value;
              (r.Some? <==> forall i :: 0 <= i < |entries| ==> entries[i].value.Some?)
              && (r.Some? ==> |r.value| == |entries|
                              && forall i :: 0 <= i < |entries| ==> r.value[i] == entries[i].value.value)
  {
    match p.suggestions
    case None => Some([])
    case Some(entries) => EntryValues(entries)
  }

  /** The collecting loop: appends each entry's value, stopping with None at the first entry without one. */
  method CollectValues(p: Payload) returns (r: Option<seq<string>>)
    ensures r == Values(p)
  {
    var entries := if p.suggestions.Some? then p.suggestions.value else [];
    ghost var expected := EntryValues(entries);
    assert Values(p) == expected;
    var collected := [];
    for i := 0 to |entries|
      invariant |collected| == i
      invariant forall k :: 0 <= k < i ==> entries[k].value.Some? && collected[k] == entries[k].value.value
    {
      if entries[i].value.None? {
        assert !expected.Some?;
        return None;
      }
      collected := collected + [entries[i].value.value];
    }
    assert expected.Some? && collected == expected.value;
    r := Some(collected);
  }
}
