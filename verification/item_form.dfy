/** The text form shared by the add-item and edit-item screens, and the
    conversions between its strings and the stored record's fields. */
module ItemForm {
  import opened Common
  import opened Text
  import opened Sequences
  import Wardrobe

  /** The form's text inputs, as typed. */
  datatype Form = Form(
    category: string,
    brand: string,
    color: string,
    size: string,
    price: string,
    tags: string,
    notes: string)

  /** Why a save or update was refused before any upload or write. */
  datatype Refusal = NoImage | MissingCategory | NotLoggedIn

  /** A tag the parser can produce: non-empty, trimmed and comma-free. */
  predicate WellFormedTag(t: string) {
    t != "" && IsTrimmed(t) && ',' !in t
  }

  /** `pieces.map(tag => tag.trim())`. */
  function TrimAll(pieces: seq<string>): (r: seq<string>)
    ensures |r| == |pieces|
    ensures forall k :: 0 <= k < |r| ==> r[k] == Trim(pieces[k])
  {
    seq(|pieces|, k requires 0 <= k < |pieces| => Trim(pieces[k]))
  }

  /** `pieces.filter(tag => tag)`: drops the empty strings, keeping order. */
  function DropEmpty(pieces: seq<string>): (r: seq<string>)
    ensures forall k :: 0 <= k < |r| ==> r[k] != "" && r[k] in pieces
    ensures forall p :: p in r <==> p in pieces && p != ""
    ensures IsSubsequence(r, pieces)
    decreases |pieces|
  {
    if pieces == [] then []
    else
      var rest := DropEmpty(pieces[1..]);
      if pieces[0] != "" then
        var r := [pieces[0]] + rest;
        assert r[1..] == rest;
        r
      else
        assert rest == [] || rest[0] != pieces[0];
        rest
  }

  /** `tags.split(',').map(tag => tag.trim()).filter(tag => tag)`. */
  function ParseTags(s: string): (r: seq<string>)
    ensures forall k :: 0 <= k < |r| ==> WellFormedTag(r[k])
  {
    var pieces := Split(s, ',');
    var r := DropEmpty(TrimAll(pieces));
    assert forall k :: 0 <= k < |r| ==> WellFormedTag(r[k]) by {
      forall k | 0 <= k < |r|
        ensures WellFormedTag(r[k])
      {
        var j :| 0 <= j < |pieces| && r[k] == TrimAll(pieces)[j];
        TrimIsInfix(pieces[j]);
        assert ',' !in pieces[j];
      }
    }
    r
  }

  /** How the edit form shows a stored tag list: `tags.join(', ')`. */
  function JoinTags(tags: seq<string>): string {
    Join(tags, ", ")
  }

  lemma {:induction false} DropEmptyConcat(a: seq<string>, b: seq<string>)
    ensures DropEmpty(a + b) == DropEmpty(a) + DropEmpty(b)
    decreases |a|
  {
    if a == [] {
      assert a + b == b;
    } else {
      assert (a + b)[0] == a[0] && (a + b)[1..] == a[1..] + b;
      DropEmptyConcat(a[1..], b);
      if a[0] != "" {
        calc {
          DropEmpty(a + b);
          [a[0]] + DropEmpty(a[1..] + b);
          [a[0]] + (DropEmpty(a[1..]) + DropEmpty(b));
          ([a[0]] + DropEmpty(a[1..])) + DropEmpty(b);
        }
      }
    }
  }

  lemma TrimAllConcat(a: seq<string>, b: seq<string>)
    ensures TrimAll(a + b) == TrimAll(a) + TrimAll(b)
  {
  }

  /** Parsing respects the commas: tags typed before a comma come first,
      in the order typed. */
  lemma ParseTagsConcat(a: string, b: string)
    ensures ParseTags(a + [','] + b) == ParseTags(a) + ParseTags(b)
  {
    SplitConcat(a, b, ',');
    var pa, pb := Split(a, ','), Split(b, ',');
    TrimAllConcat(pa, pb);
    DropEmptyConcat(TrimAll(pa), TrimAll(pb));
  }

  /** A blank before the first tag is trimmed away. */
  lemma ParseTagsLeadingSpace(s: string)
    ensures ParseTags([' '] + s) == ParseTags(s)
  {
    var r := Split(s, ',');
    SplitCons(' ', s, ',');
    TrimLeadingSpace(' ', r[0]);
    assert TrimAll([[' '] + r[0]] + r[1..]) == TrimAll(r);
  }

  /** A single well-formed tag parses to itself. */
  lemma ParseTagsSingle(t: string)
    requires WellFormedTag(t)
    ensures ParseTags(t) == [t]
  {
    SplitWithoutSeparator(t, ',');
    TrimOfTrimmed(t);
    assert TrimAll([t]) == [t];
    assert DropEmpty([t]) == [t] + DropEmpty([]);
  }

  /** The edit form's tag round trip: joining well-formed tags with ", " and
      parsing the text again gives back exactly the same list. */
  lemma {:induction false} TagRoundTrip(tags: seq<string>)
    requires forall k :: 0 <= k < |tags| ==> WellFormedTag(tags[k])
    ensures ParseTags(JoinTags(tags)) == tags
    decreases |tags|
  {
    if |tags| == 0 {
      assert Split("", ',') == [""];
      assert TrimStart("") == "";
      assert TrimAll([""]) == [""];
    } else if |tags| == 1 {
      ParseTagsSingle(tags[0]);
    } else {
      var rest := JoinTags(tags[1..]);
      assert JoinTags(tags) == tags[0] + [','] + ([' '] + rest);
      ParseTagsConcat(tags[0], [' '] + rest);
      ParseTagsSingle(tags[0]);
      ParseTagsLeadingSpace(rest);
      TagRoundTrip(tags[1..]);
      assert [tags[0]] + tags[1..] == tags;
    }
  }

  /** `price ? parseFloat(price) : null`: an empty price is stored as null. */
  function ParsePrice(s: string): (r: Nullable<Wardrobe.Price>)
    ensures r.Null? <==> s == ""
    ensures !r.Undefined?
  {
    if s != "" then Value(Wardrobe.Price(s)) else Null
  }

  /** How the edit form shows a stored price: `price?.toString() || ''`. */
  function PriceText(p: Nullable<Wardrobe.Price>): string {
    if p.Value? then p.value.text else ""
  }

  /** A stored price survives being shown in the edit form and saved again;
      an undefined price is saved back as null. */
  lemma PriceRoundTrip(p: Nullable<Wardrobe.Price>)
    requires p.Value? ==> p.value.text != ""
    ensures ParsePrice(PriceText(p)) == (if p.Undefined? then Null else p)
  {
  }
}
