/**
 * Tags in a task's text: `extractTags` and `stripTags` of the task scanner.
 *
 * Both use the global pattern `(^|\s)#([\w\/-]+)`. A search for it from
 * position `p` tries `p`, then `p + 1`, and so on; at position 0 the `^`
 * alternative is tried first (the tag starts right there), otherwise a
 * whitespace character must precede the '#', and it is part of the match.
 * The tag name takes every tag character after the '#'. After a match the
 * search resumes at its end.
 */
module ScannerTags {
  import opened Types
  import opened Text

  /** A match of the tag pattern that begins at `p`: the index of its '#' and
      the index just past the tag name. */
  function TagMatchAt(s: string, p: nat): (r: Option<(nat, nat)>)
    requires p <= |s|
    ensures r.Some? ==> p <= r.value.0 < r.value.1 <= |s| && r.value.0 <= p + 1
    ensures r.Some? ==> s[r.value.0] == '#' && r.value.0 + 2 <= r.value.1
    ensures r.Some? ==> (r.value.0 == p ==> p == 0) && (r.value.0 == p + 1 ==> IsSpace(s[p]))
    ensures r.Some? ==> r.value.1 == TagRunEnd(s, r.value.0 + 1)
  {
    if p == 0 && 2 <= |s| && s[0] == '#' && IsTagChar(s[1]) then
      Some((0, TagRunEnd(s, 1)))
    else if p + 2 < |s| && IsSpace(s[p]) && s[p + 1] == '#' && IsTagChar(s[p + 2]) then
      Some((p + 1, TagRunEnd(s, p + 2)))
    else
      None
  }

  /** A tag as the scanner reports it: '#' and at least one tag character. */
  predicate ScannedTag(v: string) {
    |v| >= 2 && v[0] == '#' && forall m :: 1 <= m < |v| ==> IsTagChar(v[m])
  }

  /** The tag of every match found from `p` on, in order, repeats included. */
  function TagOccurrences(s: string, p: nat): (tags: seq<string>)
    requires p <= |s|
    ensures forall m :: 0 <= m < |tags| ==> ScannedTag(tags[m])
    decreases |s| - p
  {
    if p >= |s| then []
    else
      match TagMatchAt(s, p)
      case Some((h, e)) => [s[h..e]] + TagOccurrences(s, e)
      case None => TagOccurrences(s, p + 1)
  }

  /** Adding the elements of `xs` one by one to the insertion-ordered set `acc`. */
  function AddAll(acc: seq<string>, xs: seq<string>): seq<string>
    decreases |xs|
  {
    if xs == [] then acc
    else AddAll(if xs[0] in acc then acc else acc + [xs[0]], xs[1..])
  }

  predicate Distinct(xs: seq<string>) {
    forall i, j :: 0 <= i < j < |xs| ==> xs[i] != xs[j]
  }

  /** `Array.from(new Set(...))` of the tag occurrences. */
  function TagsOf(s: string): seq<string> {
    AddAll([], TagOccurrences(s, 0))
  }

  /** `extractTags`: the `re.exec` loop. The step over a position where no
      match begins is the regular-expression engine's own search. */
  method ExtractTags(text: string) returns (tags: seq<string>)
    ensures tags == TagsOf(text)
  {
    tags := [];
    var last := 0;
    while last < |text|
      invariant last <= |text|
      invariant AddAll(tags, TagOccurrences(text, last)) == TagsOf(text)
      decreases |text| - last
    {
      var m := TagMatchAt(text, last);
      if m.Some? {
        var tag := text[m.value.0..m.value.1];
        if tag !in tags {
          tags := tags + [tag];
        }
        last := m.value.1;
      } else {
        last := last + 1;
      }
    }
  }

  lemma {:induction false} AddAllSpec(acc: seq<string>, xs: seq<string>)
    requires Distinct(acc)
    ensures Distinct(AddAll(acc, xs))
    ensures forall t :: t in AddAll(acc, xs) <==> t in acc || t in xs
    ensures |AddAll(acc, xs)| >= |acc| && AddAll(acc, xs)[..|acc|] == acc
    decreases |xs|
  {
    if xs != [] {
      var next := if xs[0] in acc then acc else acc + [xs[0]];
      assert Distinct(next);
      AddAllSpec(next, xs[1..]);
      assert next[..|acc|] == acc;
      assert xs == [xs[0]] + xs[1..];
      forall t ensures t in xs <==> t == xs[0] || t in xs[1..] {
      }
    }
  }

  /** The reported tags are distinct, and they are exactly the tags that occur. */
  lemma TagsOfSpec(s: string)
    ensures Distinct(TagsOf(s))
    ensures forall t :: t in TagsOf(s) <==> t in TagOccurrences(s, 0)
    ensures forall t :: t in TagsOf(s) ==> ScannedTag(t)
  {
    AddAllSpec([], TagOccurrences(s, 0));
  }

  /** `stripTags` before the final whitespace cleanup: `text.replace(re, ' ')`,
      each match (with the whitespace before the '#') becoming one space. */
  function ReplaceTags(s: string, p: nat): string
    requires p <= |s|
    decreases |s| - p
  {
    if p >= |s| then []
    else
      match TagMatchAt(s, p)
      case Some((_, e)) => " " + ReplaceTags(s, e)
      case None => [s[p]] + ReplaceTags(s, p + 1)
  }

  /** `stripTags`. */
  function StripTags(s: string): (r: string)
    ensures NoDoubleSpace(r) && NoLeadingSpace(r) && NoTrailingSpace(r)
  {
    Squish(ReplaceTags(s, 0))
  }

  /** Text without tags only has its whitespace normalised. */
  lemma {:induction false} ReplaceWithoutTags(s: string, p: nat)
    requires p <= |s|
    requires TagOccurrences(s, p) == []
    ensures ReplaceTags(s, p) == s[p..]
    decreases |s| - p
  {
    if p < |s| {
      ReplaceWithoutTags(s, p + 1);
      assert s[p..] == [s[p]] + s[p + 1..];
    }
  }

  lemma StripWithoutTags(s: string)
    requires TagsOf(s) == []
    ensures StripTags(s) == Squish(s)
  {
    TagsOfSpec(s);
    ReplaceWithoutTags(s, 0);
  }

  /** No '#' from `p` on: no tag either. */
  lemma {:induction false} NoHashNoTags(s: string, p: nat)
    requires p <= |s| && forall k :: p <= k < |s| ==> s[k] != '#'
    ensures TagOccurrences(s, p) == []
    ensures ReplaceTags(s, p) == s[p..]
    decreases |s| - p
  {
    if p < |s| {
      assert TagMatchAt(s, p) == None;
      NoHashNoTags(s, p + 1);
      assert s[p..] == [s[p]] + s[p + 1..];
    }
  }

  /** Before the first '#', the text is copied as it is. */
  lemma {:induction false} ReplaceBeforeHash(s: string, p: nat, m: nat)
    requires p <= m < |s| && forall k :: p <= k <= m ==> s[k] != '#'
    ensures ReplaceTags(s, p) == s[p..m] + ReplaceTags(s, m)
    decreases m - p
  {
    if p < m {
      assert TagMatchAt(s, p) == None;
      assert ReplaceTags(s, p) == [s[p]] + ReplaceTags(s, p + 1);
      ReplaceBeforeHash(s, p + 1, m);
      SliceCons(s, p, m);
      AppendAssoc([s[p]], s[p + 1..m], ReplaceTags(s, m));
    }
  }

  /** ... and no tag is found there. */
  lemma {:induction false} OccurrencesBeforeHash(s: string, p: nat, m: nat)
    requires p <= m < |s| && forall k :: p <= k <= m ==> s[k] != '#'
    ensures TagOccurrences(s, p) == TagOccurrences(s, m)
    decreases m - p
  {
    if p < m {
      assert TagMatchAt(s, p) == None;
      OccurrencesBeforeHash(s, p + 1, m);
    }
  }

  /** A tag between a word and whitespace is found, and replaced together
      with the space before it by one space. */
  lemma InnerTag(a: string, body: string, c: string)
    requires a != [] && '#' !in a && '#' !in c && c != [] && IsSpace(c[0])
    requires body != [] && forall k :: 0 <= k < |body| ==> IsTagChar(body[k])
    ensures TagOccurrences(a + " #" + body + c, 0) == ["#" + body]
    ensures ReplaceTags(a + " #" + body + c, 0) == a + " " + c
  {
    var s := a + " #" + body + c;
    var e := |a| + 2 + |body|;
    InnerTagShape(a, body, c);
    InnerTagMatch(a, body, c);
    ReplaceBeforeHash(s, 0, |a|);
    OccurrencesBeforeHash(s, 0, |a|);
    NoHashNoTags(s, e);
    AppendAssoc(a, " ", c);
  }

  lemma InnerTagShape(a: string, body: string, c: string)
    requires '#' !in a && '#' !in c
    ensures var s := a + " #" + body + c; var e := |a| + 2 + |body|;
      (forall k :: 0 <= k <= |a| ==> s[k] != '#') && (forall k :: e <= k < |s| ==> s[k] != '#') &&
      s[0..|a|] == a && s[e..] == c && s[|a| + 1..e] == "#" + body
  {
    var s := a + " #" + body + c;
    var e := |a| + 2 + |body|;
    forall k | 0 <= k <= |a| ensures s[k] != '#' {
      if k < |a| {
        assert s[k] == a[k] && a[k] in a;
      }
    }
    forall k | e <= k < |s| ensures s[k] != '#' {
      assert s[k] == c[k - e] && c[k - e] in c;
    }
    assert s[0..|a|] == a;
    assert s[e..] == c;
    assert s[|a| + 1..e] == "#" + body;
  }

  lemma InnerTagMatch(a: string, body: string, c: string)
    requires c != [] && IsSpace(c[0])
    requires body != [] && forall k :: 0 <= k < |body| ==> IsTagChar(body[k])
    ensures var s := a + " #" + body + c;
      TagMatchAt(s, |a|) == Some((|a| + 1, |a| + 2 + |body|))
  {
    var s := a + " #" + body + c;
    var e := |a| + 2 + |body|;
    assert s[e] == c[0];
    assert forall m :: |a| + 2 <= m < e ==> s[m] == body[m - |a| - 2];
    assert TagRunEnd(s, |a| + 2) == e;
  }

  /** Every match leaves a space in its place, so the number of matches bounds
      how far the text shrinks. */
  lemma {:induction false} ReplaceTagsLength(s: string, p: nat)
    requires p <= |s|
    ensures |ReplaceTags(s, p)| <= |s| - p
    ensures |ReplaceTags(s, p)| >= |TagOccurrences(s, p)|
    decreases |s| - p
  {
    if p < |s| {
      match TagMatchAt(s, p)
      case Some((_, e)) => ReplaceTagsLength(s, e);
      case None => ReplaceTagsLength(s, p + 1);
    }
  }

  /** The tags of "#a #b #a" are "#a" then "#b", and stripping leaves nothing. */
  lemma ExtractExample()
    ensures TagOccurrences("#a #b #a", 0) == ["#a", "#b", "#a"]
    ensures TagsOf("#a #b #a") == ["#a", "#b"]
  {
    var s := "#a #b #a";
    assert TagMatchAt(s, 0) == Some((0, 2));
    assert TagMatchAt(s, 2) == Some((3, 5));
    assert TagMatchAt(s, 5) == Some((6, 8));
    assert s[0..2] == "#a" && s[3..5] == "#b" && s[6..8] == "#a";
    assert TagOccurrences(s, 8) == [];
    assert TagOccurrences(s, 5) == ["#a"];
    assert TagOccurrences(s, 2) == ["#b", "#a"];
  }

  /** A '#' glued to a word is no tag, and neither is a tag standing right
      after another: only the first of "#a#b" is found. */
  lemma GluedTagExample()
    ensures TagOccurrences("x#a", 0) == []
    ensures TagOccurrences("#a#b", 0) == ["#a"]
  {
    assert TagMatchAt("x#a", 0) == None;
    assert TagMatchAt("x#a", 1) == None;
    assert TagMatchAt("x#a", 2) == None;
    assert TagMatchAt("#a#b", 0) == Some((0, 2));
    assert "#a#b"[0..2] == "#a";
    assert TagMatchAt("#a#b", 2) == None;
    assert TagMatchAt("#a#b", 3) == None;
    assert TagOccurrences("#a#b", 2) == [];
  }
}
