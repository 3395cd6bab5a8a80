/** What the admin managers share: a list edited as one line of text (parsed
    by `split`, `trim` on every piece and dropping the empty ones; shown again
    by `join`), and the choice between updating the entry being edited and
    creating a new one. */
module AdminForms {
  import opened JsValues
  import Text

  /** `xs.map(x => x.trim())`. */
  function TrimEach(xs: seq<string>): (r: seq<string>)
    ensures |r| == |xs|
    ensures forall i :: 0 <= i < |xs| ==> r[i] == Text.Trim(xs[i])
  {
    seq(|xs|, i requires 0 <= i < |xs| => Text.Trim(xs[i]))
  }

  /** `xs.filter(x => x)`: the non-empty strings, in order. */
  function DropEmpty(xs: seq<string>): (r: seq<string>)
    ensures |r| <= |xs|
    ensures forall i :: 0 <= i < |r| ==> r[i] != "" && r[i] in xs
    ensures (forall i :: 0 <= i < |xs| ==> xs[i] != "") ==> r == xs
    ensures (forall i :: 0 <= i < |xs| ==> xs[i] == "") ==> r == []
  {
    if xs == [] then []
    else
      var rest := DropEmpty(xs[1..]);
      if xs[0] == "" then rest else [xs[0]] + rest
  }

  /** Nothing non-empty is lost: the filter keeps every non-empty element as
      often as it occurs, and drops every empty one. */
  lemma {:induction false} DropEmptyKeepsNonEmpty(xs: seq<string>)
    ensures multiset(DropEmpty(xs)) == multiset(xs)["" := 0]
  {
    if xs != [] {
      DropEmptyKeepsNonEmpty(xs[1..]);
      assert xs == [xs[0]] + xs[1..];
      assert multiset(xs) == multiset{xs[0]} + multiset(xs[1..]);
    }
  }

  /** The filter keeps order: it works piece by piece over concatenation. */
  lemma {:induction false} DropEmptyAppend(a: seq<string>, b: seq<string>)
    ensures DropEmpty(a + b) == DropEmpty(a) + DropEmpty(b)
  {
    if a == [] {
      assert a + b == b;
    } else {
      var ab := a + b;
      assert ab[0] == a[0] && ab[1..] == a[1..] + b;
      DropEmptyAppend(a[1..], b);
      if a[0] == "" {
        assert DropEmpty(ab) == DropEmpty(ab[1..]);
      } else {
        assert DropEmpty(ab) == [a[0]] + DropEmpty(ab[1..]);
      }
    }
  }

  /** On one element the filter keeps exactly a non-empty one. */
  lemma DropEmptyOne(x: string)
    ensures DropEmpty([x]) == if x == "" then [] else [x]
  {
    assert [x][1..] == [];
  }

  /** The list a text field stands for: `text.split(c).map(trim).filter(x => x)`. */
  function ParseList(text: string, c: char): (r: seq<string>)
    ensures forall i :: 0 <= i < |r| ==> r[i] != "" && Text.IsTrimmed(r[i]) && c !in r[i]
  {
    var pieces := Text.Split(text, c);
    var trimmed := TrimEach(pieces);
    forall i | 0 <= i < |pieces|
      ensures c !in trimmed[i]
    {
      TrimKeepsOut(pieces[i], c);
    }
    DropEmpty(trimmed)
  }

  /** A doubled separator stands for no element: `x,,y` is the list `[x, y]`
      for elements the codec keeps as they are. */
  lemma ParseSkipsEmptyPieces(x: string, y: string, c: char)
    requires Storable(x, c) && Storable(y, c)
    ensures ParseList(x + [c, c] + y, c) == [x, y]
  {
    SplitOfDoubled(x, y, c);
    TrimOfDoubled(x, y, c);
    DropEmptyOfDoubled(x, y);
    ParseListSteps(x + [c, c] + y, c);
  }

  lemma ParseListSteps(text: string, c: char)
    ensures ParseList(text, c) == DropEmpty(TrimEach(Text.Split(text, c)))
  {
  }

  lemma SplitOfDoubled(x: string, y: string, c: char)
    requires c !in x && c !in y
    ensures Text.Split(x + [c, c] + y, c) == [x, "", y]
  {
    var pieces := [x, "", y];
    assert Text.Join(pieces, [c]) == x + [c, c] + y by {
      assert pieces[1..] == ["", y];
      assert pieces[1..][1..] == [y];
      assert Text.Join([y], [c]) == y;
      assert Text.Join(["", y], [c]) == [c] + y;
    }
    Text.SplitJoin(pieces, c);
  }

  lemma TrimOfDoubled(x: string, y: string, c: char)
    requires Storable(x, c) && Storable(y, c)
    ensures TrimEach([x, "", y]) == [x, "", y]
  {
    assert [] + x + [] == x;
    assert [] + y + [] == y;
    Text.TrimOfPadded([], x, []);
    Text.TrimOfPadded([], y, []);
    assert Text.TrimStart("") == "" && Text.TrimEnd("") == "";
  }

  lemma DropEmptyOfDoubled(x: string, y: string)
    requires x != "" && y != ""
    ensures DropEmpty([x, "", y]) == [x, y]
  {
    var xs := [x, "", y];
    assert xs[1..] == ["", y] && xs[1..][1..] == [y] && [y][1..] == [];
    assert DropEmpty([y]) == [y];
    assert DropEmpty(["", y]) == [y];
  }

  /** The text field shown for a list: `xs.join(sep)`. */
  function ShowList(xs: seq<string>, sep: string): string {
    Text.Join(xs, sep)
  }

  /** `trim` only removes characters, so it adds none it did not have. */
  lemma TrimKeepsOut(s: string, c: char)
    requires c !in s
    ensures c !in Text.Trim(s)
  {
    var t := Text.TrimStart(s);
    forall k | 0 <= k < |t|
      ensures t[k] != c
    {
      assert t[k] == s[|s| - |t| + k];
    }
    var u := Text.TrimEnd(t);
    forall k | 0 <= k < |u|
      ensures u[k] != c
    {
      assert u[k] == t[k];
    }
    assert Text.Trim(s) == u;
  }

  /** A list element the codec keeps as it is. */
  predicate Storable(x: string, c: char) {
    x != "" && Text.IsTrimmed(x) && c !in x
  }

  /** The pieces `split(c)` sees in a list joined with `c` and then some
      padding `w`: the first element bare and every later one padded. */
  function Padded(xs: seq<string>, w: string): (r: seq<string>)
    requires |xs| >= 1
    ensures |r| == |xs| && r[0] == xs[0]
    ensures forall i :: 1 <= i < |xs| ==> r[i] == w + xs[i]
  {
    [xs[0]] + seq(|xs| - 1, i requires 0 <= i < |xs| - 1 => w + xs[i + 1])
  }

  /** Joining with `c` followed by `w` is joining the padded pieces with `c`. */
  lemma {:induction false} JoinPadded(xs: seq<string>, c: char, w: string)
    requires |xs| >= 1
    ensures Text.Join(xs, [c] + w) == Text.Join(Padded(xs, w), [c])
  {
    if |xs| > 1 {
      var tail := xs[1..];
      var p := Padded(xs, w);
      var q := Padded(tail, w);
      JoinPadded(tail, c, w);
      // the pieces after the first are those of the tail, the first of them padded
      assert p[1..] == [w + q[0]] + q[1..];
      JoinHead(q, w, [c]);
      assert Text.Join(xs, [c] + w) == xs[0] + ([c] + w) + Text.Join(tail, [c] + w);
      assert Text.Join(p, [c]) == p[0] + [c] + Text.Join(p[1..], [c]);
    }
  }

  /** Padding the first piece of a join pads the whole join. */
  lemma JoinHead(q: seq<string>, w: string, sep: string)
    requires |q| >= 1
    ensures Text.Join([w + q[0]] + q[1..], sep) == w + Text.Join(q, sep)
  {
    var r := [w + q[0]] + q[1..];
    if |q| > 1 {
      assert r[1..] == q[1..];
    }
  }

  /** An empty field is an empty list. */
  lemma ParseEmpty(c: char)
    ensures ParseList("", c) == []
  {
    var pieces := Text.Split("", c);
    assert pieces == [""];
    assert Text.TrimStart("") == "";
    assert Text.TrimEnd("") == "";
    var trimmed := TrimEach(pieces);
    assert trimmed == [""];
    assert DropEmpty(trimmed) == [];
  }

  /** Trimming the padded pieces takes the padding off again. */
  lemma TrimPadded(xs: seq<string>, c: char, w: string)
    requires |xs| >= 1
    requires forall i :: 0 <= i < |xs| ==> Storable(xs[i], c)
    requires Text.AllSpace(w)
    ensures TrimEach(Padded(xs, w)) == xs
  {
    var p := Padded(xs, w);
    forall i | 0 <= i < |p|
      ensures Text.Trim(p[i]) == xs[i]
    {
      if i == 0 {
        assert p[0] == [] + xs[0] + [];
        Text.TrimOfPadded([], xs[0], []);
      } else {
        assert p[i] == w + xs[i] + [];
        Text.TrimOfPadded(w, xs[i], []);
      }
    }
  }

  /** The padded pieces hold no separator. */
  lemma PaddedFreeOf(xs: seq<string>, c: char, w: string)
    requires |xs| >= 1
    requires forall i :: 0 <= i < |xs| ==> c !in xs[i]
    requires c !in w
    ensures forall i :: 0 <= i < |xs| ==> c !in Padded(xs, w)[i]
  {
    var p := Padded(xs, w);
    forall i | 0 <= i < |p|
      ensures c !in p[i]
    {
      if i > 0 {
        assert p[i] == w + xs[i];
      }
    }
  }

  /** Parsing what the edit form shows gives the list back: for elements that
      are non-empty, trimmed and free of the separator `c`, joined with `c`
      followed by whitespace `w` that does not hold `c`. */
  lemma ParseShowRoundTrip(xs: seq<string>, c: char, w: string)
    requires forall i :: 0 <= i < |xs| ==> Storable(xs[i], c)
    requires Text.AllSpace(w) && c !in w
    ensures ParseList(ShowList(xs, [c] + w), c) == xs
  {
    if xs == [] {
      ParseEmpty(c);
    } else {
      var p := Padded(xs, w);
      JoinPadded(xs, c, w);
      PaddedFreeOf(xs, c, w);
      Text.SplitJoin(p, c);
      TrimPadded(xs, c, w);
      assert Text.Split(ShowList(xs, [c] + w), c) == p;
      assert DropEmpty(xs) == xs;
    }
  }

  /** Parsing is stable: a parsed list shown and parsed again is unchanged. */
  lemma ParseIsStable(text: string, c: char, w: string)
    requires Text.AllSpace(w) && c !in w
    ensures var xs := ParseList(text, c); ParseList(ShowList(xs, [c] + w), c) == xs
  {
    ParseShowRoundTrip(ParseList(text, c), c, w);
  }

  datatype Verb = Put | Post

  /** Where the form is saved: the entry being edited at its own URL, or a new
      entry posted to the collection. */
  datatype Target = Target(verb: Verb, url: string)

  function SaveTarget(collection: string, editing: Option<string>): (t: Target)
    ensures t.verb == Put <==> editing.Some?
    ensures editing.None? ==> t.url == collection
    ensures editing.Some? ==> Text.StartsWith(t.url, collection + "/") && t.url[|collection| + 1..] == editing.value
  {
    match editing
    case None => Target(Post, collection)
    case Some(id) => Target(Put, collection + "/" + id)
  }

  /** The collections the two managers save to. */
  const ExperienceCollection := "/api/portfolio/experience"
  const ProjectsCollection := "/api/portfolio/projects"

  /** Both managers save through `SaveTarget`: an edited entry is PUT to
      `<collection>/<id>`, a new one is POSTed to the collection. */
  lemma ManagerSaveTargets(id: string)
    ensures SaveTarget(ExperienceCollection, Some(id)) == Target(Put, "/api/portfolio/experience/" + id)
    ensures SaveTarget(ExperienceCollection, None) == Target(Post, "/api/portfolio/experience")
    ensures SaveTarget(ProjectsCollection, Some(id)) == Target(Put, "/api/portfolio/projects/" + id)
    ensures SaveTarget(ProjectsCollection, None) == Target(Post, "/api/portfolio/projects")
  {
  }
}
