/** Tags are typed as one comma-separated string. The upload form and the
    edit dialog parse that string differently: the edit dialog also cuts
    every tag to 50 characters and keeps at most 20 tags. */
module Tags {
  import opened Text
  import opened Lists

  const MaxTagLength: nat := 50
  const MaxTags: nat := 20

  /** `Boolean` as a filter on strings. */
  predicate NonEmpty(t: string) {
    t != ""
  }

  /** `.map(t => t.trim())`. */
  function TrimEach(parts: seq<string>): (r: seq<string>)
    ensures |r| == |parts|
    ensures forall i :: 0 <= i < |r| ==> r[i] == Trim(parts[i])
  {
    seq(|parts|, i requires 0 <= i < |parts| => Trim(parts[i]))
  }

  /** `.map(t => t.slice(0, n))`. */
  function CapEach(parts: seq<string>, n: nat): (r: seq<string>)
    ensures |r| == |parts|
    ensures forall i :: 0 <= i < |r| ==> r[i] == Take(parts[i], n)
  {
    seq(|parts|, i requires 0 <= i < |parts| => Take(parts[i], n))
  }

  /** Upload form: `tags.split(',').map(t => t.trim()).filter(Boolean)`. */
  function ParseTags(text: string): seq<string> {
    Filter(TrimEach(Split(text, ',')), NonEmpty)
  }

  /** Edit dialog: `split(',').map(t => t.trim().slice(0, 50))
      .filter(Boolean).slice(0, 20)`. */
  function ParseTagsCapped(text: string): seq<string> {
    Take(Filter(CapEach(TrimEach(Split(text, ',')), MaxTagLength), NonEmpty), MaxTags)
  }

  /** What one stored tag looks like after the upload parse. */
  predicate IsTag(t: string) {
    t != "" && IsTrimmed(t) && ',' !in t
  }

  /** Every tag the upload form stores is non-empty, trimmed and free of
      commas; no length or count cap applies. */
  lemma ParsedTagsWellFormed(text: string)
    ensures forall i :: 0 <= i < |ParseTags(text)| ==> IsTag(ParseTags(text)[i])
  {
    var parts := Split(text, ',');
    SplitPartsFree(text, ',');
    var trimmed := TrimEach(parts);
    forall i | 0 <= i < |trimmed| ensures ',' !in trimmed[i] && IsTrimmed(trimmed[i]) {
      TrimIsSlice(parts[i]);
    }
    forall i | 0 <= i < |ParseTags(text)| ensures IsTag(ParseTags(text)[i]) {
      var t := ParseTags(text)[i];
      FilterMembership(trimmed, NonEmpty, t);
      var j :| 0 <= j < |trimmed| && trimmed[j] == t;
    }
  }

  /** The edit dialog stores at most 20 tags, each non-empty, at most 50
      characters and free of commas. */
  lemma CappedTagsBounded(text: string)
    ensures var r := ParseTagsCapped(text);
      && |r| <= MaxTags
      && forall i :: 0 <= i < |r| ==> r[i] != "" && |r[i]| <= MaxTagLength && ',' !in r[i]
  {
    var parts := Split(text, ',');
    SplitPartsFree(text, ',');
    var capped := CapEach(TrimEach(parts), MaxTagLength);
    forall i | 0 <= i < |capped| ensures ',' !in capped[i] {
      TrimIsSlice(parts[i]);
      assert forall c :: c in capped[i] ==> c in Trim(parts[i]);
    }
    var kept := Filter(capped, NonEmpty);
    var r := Take(kept, MaxTags);
    forall i | 0 <= i < |r| ensures r[i] != "" && |r[i]| <= MaxTagLength && ',' !in r[i] {
      assert r[i] == kept[i];
      FilterMembership(capped, NonEmpty, kept[i]);
      var j :| 0 <= j < |capped| && capped[j] == kept[i];
    }
  }

  /** Cutting tags to a positive length and dropping empties commute: a cut
      tag is empty exactly when the tag was. */
  lemma {:induction false} CapCommutesWithDrop(xs: seq<string>, n: nat)
    requires n > 0
    ensures Filter(CapEach(xs, n), NonEmpty) == CapEach(Filter(xs, NonEmpty), n)
    decreases |xs|
  {
    if xs != [] {
      CapCommutesWithDrop(xs[1..], n);
      assert CapEach(xs, n)[1..] == CapEach(xs[1..], n);
      var rest := Filter(xs[1..], NonEmpty);
      if NonEmpty(xs[0]) {
        assert Filter(xs, NonEmpty) == [xs[0]] + rest;
        assert CapEach([xs[0]] + rest, n) == [Take(xs[0], n)] + CapEach(rest, n);
      } else {
        assert Filter(xs, NonEmpty) == rest;
      }
    }
  }

  /** The edit dialog's parse is the upload form's parse with every tag cut
      to 50 characters and the list cut to 20 tags. */
  lemma CappedIsCutUpload(text: string)
    ensures ParseTagsCapped(text) == Take(CapEach(ParseTags(text), MaxTagLength), MaxTags)
  {
    CapCommutesWithDrop(TrimEach(Split(text, ',')), MaxTagLength);
  }

  /** `b` put in front of every element. */
  function Prefixed(xs: seq<string>, b: string): (r: seq<string>)
    ensures |r| == |xs|
    ensures forall i :: 0 <= i < |r| ==> r[i] == b + xs[i]
  {
    seq(|xs|, i requires 0 <= i < |xs| => b + xs[i])
  }

  lemma {:induction false} PrefixJoin(xs: seq<string>, a: string, b: string)
    requires |xs| >= 1
    ensures b + Join(xs, a + b) == Join(Prefixed(xs, b), a)
    decreases |xs|
  {
    if |xs| > 1 {
      PrefixJoin(xs[1..], a, b);
      assert Prefixed(xs, b)[1..] == Prefixed(xs[1..], b);
      assert b + (xs[0] + (a + b) + Join(xs[1..], a + b))
        == (b + xs[0]) + a + (b + Join(xs[1..], a + b));
    }
  }

  /** A join on `a + b` is the join on `a` of the parts with `b` put in
      front of all but the first. */
  lemma JoinSplitSeparator(ts: seq<string>, a: string, b: string)
    requires |ts| >= 1
    ensures Join(ts, a + b) == Join([ts[0]] + Prefixed(ts[1..], b), a)
  {
    var parts := [ts[0]] + Prefixed(ts[1..], b);
    if |ts| > 1 {
      PrefixJoin(ts[1..], a, b);
      assert parts[1..] == Prefixed(ts[1..], b);
      assert Join(ts, a + b) == ts[0] + a + (b + Join(ts[1..], a + b));
    }
  }

  /** The text the edit dialog is prefilled with, `tags.join(', ')`. */
  function TagsText(ts: seq<string>): string {
    Join(ts, ", ")
  }

  /** Splitting the prefilled text gives the tags back, each but the first
      with the space the join put in front of it. */
  lemma SplitTagsText(ts: seq<string>)
    requires |ts| >= 1
    requires forall i :: 0 <= i < |ts| ==> ',' !in ts[i] && IsTrimmed(ts[i])
    ensures TrimEach(Split(TagsText(ts), ',')) == ts
  {
    var parts := [ts[0]] + Prefixed(ts[1..], " ");
    assert ", " == "," + " ";
    JoinSplitSeparator(ts, ",", " ");
    forall i | 0 <= i < |parts| ensures ',' !in parts[i] && Trim(parts[i]) == ts[i] {
      if i == 0 {
        TrimOfTrimmed(ts[0]);
      } else {
        assert parts[i] == " " + ts[i];
        SpacedTag(ts[i]);
      }
    }
    SplitJoin(parts, ',');
  }

  /** The space `join(', ')` puts before a trimmed, comma-free tag is what
      `trim` takes away again. */
  lemma SpacedTag(t: string)
    requires ',' !in t && IsTrimmed(t)
    ensures ',' !in " " + t && Trim(" " + t) == t
  {
    assert AllSpace(" ");
    TrimPadded(" ", t, "");
    assert " " + t + "" == " " + t;
  }

  /** Prefilling the edit dialog with stored tags and submitting the text
      unchanged stores the same tags, provided each is a well-formed tag of
      at most 50 characters and there are at most 20. */
  lemma TagsRoundTrip(ts: seq<string>)
    requires |ts| <= MaxTags
    requires forall i :: 0 <= i < |ts| ==> IsTag(ts[i]) && |ts[i]| <= MaxTagLength
    ensures ParseTagsCapped(TagsText(ts)) == ts
    ensures ParseTags(TagsText(ts)) == ts
  {
    if ts == [] {
      assert Split("", ',') == [""];
      assert TrimEach([""]) == [""] by { TrimOfTrimmed(""); }
      assert CapEach([""], MaxTagLength) == [""];
      FilterNone([""], NonEmpty);
    } else {
      SplitTagsText(ts);
      assert CapEach(ts, MaxTagLength) == ts;
      FilterAll(ts, NonEmpty);
    }
  }
}
