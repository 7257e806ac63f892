/**
 * The breadcrumb trail of a page: the path is split on `/`, empty segments
 * are dropped, and each remaining segment becomes a crumb whose link is the
 * path up to that segment and whose label is the segment in title case.
 */
module Breadcrumbs {
  import opened Strings

  /** One crumb: the link target and the label text shown. */
  datatype Crumb = Crumb(href: string, text: string)

  /** `parts.filter(seg => seg.length > 0)`. */
  function NonEmpty(parts: seq<string>): (r: seq<string>)
    ensures forall i :: 0 <= i < |r| ==> r[i] != [] && r[i] in parts
  {
    if parts == [] then []
    else (if parts[0] == [] then [] else [parts[0]]) + NonEmpty(parts[1..])
  }

  /** The filter keeps every non-empty piece. */
  lemma {:induction false} NonEmptyKeeps(parts: seq<string>, i: int)
    requires 0 <= i < |parts| && parts[i] != []
    ensures parts[i] in NonEmpty(parts)
  {
    if i > 0 {
      NonEmptyKeeps(parts[1..], i - 1);
    }
  }

  /** The filter keeps the order of the pieces: it distributes over concatenation. */
  lemma {:induction false} NonEmptyAppend(a: seq<string>, b: seq<string>)
    ensures NonEmpty(a + b) == NonEmpty(a) + NonEmpty(b)
  {
    if a == [] {
      assert a + b == b;
    } else {
      var head: seq<string> := if a[0] == [] then [] else [a[0]];
      NonEmptyAppend(a[1..], b);
      assert (a + b)[0] == a[0] && (a + b)[1..] == a[1..] + b;
      calc {
        NonEmpty(a + b);
        head + NonEmpty(a[1..] + b);
        head + (NonEmpty(a[1..]) + NonEmpty(b));
        (head + NonEmpty(a[1..])) + NonEmpty(b);
      }
    }
  }

  /** The segments of a path: its non-empty `/`-separated pieces, in order. */
  function Segments(path: string): (segments: seq<string>)
    ensures forall i :: 0 <= i < |segments| ==> segments[i] != [] && '/' !in segments[i]
  {
    var pieces := Split(path, '/');
    var segments := NonEmpty(pieces);
    assert forall i :: 0 <= i < |segments| ==> '/' !in segments[i] by {
      forall i | 0 <= i < |segments|
        ensures '/' !in segments[i]
      {
        var j :| 0 <= j < |pieces| && pieces[j] == segments[i];
      }
    }
    segments
  }

  /** The link of crumb `i`: `"/" + segments.slice(0, i + 1).join("/")`. */
  function Href(segments: seq<string>, i: int): (href: string)
    requires 0 <= i < |segments|
    ensures |href| > |segments[i]| && href[0] == '/'
    ensures href[|href| - |segments[i]|..] == segments[i]
  {
    if i > 0 then
      assert segments[..i + 1] == segments[..i] + [segments[i]];
      JoinSnoc(segments[..i], segments[i], '/');
      "/" + Join(segments[..i + 1], '/')
    else
      assert segments[..1] == [segments[0]];
      "/" + Join(segments[..i + 1], '/')
  }

  /** The trail for a path: one crumb per segment, in segment order, each labelled at its segment's length. */
  function Crumbs(path: string): (crumbs: seq<Crumb>)
    ensures |crumbs| == |Segments(path)|
    ensures forall i :: 0 <= i < |crumbs| ==> |crumbs[i].text| == |Segments(path)[i]|
  {
    var segments := Segments(path);
    seq(|segments|, i requires 0 <= i < |segments| => Crumb(Href(segments, i), Label(segments[i])))
  }

  /** `\w` at position `i` begins a word: it is first, or follows a non-word character. */
  predicate StartsWord(s: string, i: int)
    requires 0 <= i < |s|
  {
    IsWordChar(s[i]) && (i == 0 || !IsWordChar(s[i - 1]))
  }

  /**
   * `s.replace(/\b\w/g, c => c.toUpperCase())`, scanning left to right;
   * `afterWord` says whether the character before `s` is a word character.
   */
  function TitleCase(s: string, afterWord: bool): (r: string)
    ensures |r| == |s|
  {
    if s == [] then []
    else [if !afterWord && IsWordChar(s[0]) then Upper(s[0]) else s[0]] + TitleCase(s[1..], IsWordChar(s[0]))
  }

  /** The crumb label: hyphens become spaces, then each word's first character is upper-cased. */
  function Label(segment: string): (text: string)
    ensures |text| == |segment|
  {
    TitleCase(ReplaceAll(segment, '-', ' '), false)
  }

  /**
   * The separator-collapsing scan of a path: each non-`/` character is kept,
   * preceded by one `/` when a run of slashes parts it from an earlier kept
   * character. `started`: a character was kept; `pending`: slashes followed it.
   */
  function Squeeze(s: string, started: bool, pending: bool): string
  {
    if s == [] then ""
    else if s[0] == '/' then Squeeze(s[1..], started, started)
    else (if pending then "/" else "") + [s[0]] + Squeeze(s[1..], true, false)
  }

  /** The path with leading, trailing and repeated slashes collapsed, and one leading `/`. */
  function Collapsed(path: string): string
  {
    "/" + Squeeze(path, false, false)
  }

  // ---- segments ----

  /** The root path and the empty path have no segments, hence no crumbs. */
  lemma RootHasNoCrumbs()
    ensures Segments("") == [] && Crumbs("") == []
    ensures Segments("/") == [] && Crumbs("/") == []
  {
    assert Split("/", '/') == ["", ""] by {
      assert "/"[1..] == "";
    }
  }

  /** There is exactly one crumb per segment, in segment order. */
  lemma CrumbsFollowSegments(path: string)
    ensures |Crumbs(path)| == |Segments(path)|
    ensures forall i :: 0 <= i < |Crumbs(path)| ==>
      Crumbs(path)[i] == Crumb(Href(Segments(path), i), Label(Segments(path)[i]))
  {
  }

  // ---- links ----

  /** Each link is the previous one followed by `/` and the next segment. */
  lemma HrefStep(segments: seq<string>, i: int)
    requires 0 < i < |segments|
    ensures Href(segments, i) == Href(segments, i - 1) + "/" + segments[i]
  {
    assert segments[..i + 1] == segments[..i] + [segments[i]];
    JoinSnoc(segments[..i], segments[i], '/');
  }

  /** Each link is a proper prefix of every later one. */
  lemma {:induction false} HrefPrefix(segments: seq<string>, i: int, j: int)
    requires 0 <= i < j < |segments|
    ensures Href(segments, i) < Href(segments, j)
    decreases j - i
  {
    HrefStep(segments, j);
    if i < j - 1 {
      HrefPrefix(segments, i, j - 1);
    }
  }

  /** The links of the trail are pairwise distinct (they serve as keys), each a proper prefix of the next. */
  lemma HrefsDistinct(path: string)
    ensures forall i, j :: 0 <= i < j < |Crumbs(path)| ==>
      Crumbs(path)[i].href < Crumbs(path)[j].href && Crumbs(path)[i].href != Crumbs(path)[j].href
  {
    var segments := Segments(path);
    forall i, j | 0 <= i < j < |Crumbs(path)|
      ensures Crumbs(path)[i].href < Crumbs(path)[j].href
    {
      HrefPrefix(segments, i, j);
    }
  }

  // ---- the last link is the collapsed path ----

  lemma JoinNonEmpty(parts: seq<string>)
    requires forall i :: 0 <= i < |parts| ==> parts[i] != []
    ensures Join(parts, '/') == [] <==> parts == []
  {
    if |parts| > 1 {
      assert Join(parts, '/') == parts[0] + ['/'] + Join(parts[1..], '/');
    }
  }

  lemma JoinCons(x: string, parts: seq<string>)
    ensures Join([x] + parts, '/') == x + (if parts == [] then "" else "/" + Join(parts, '/'))
  {
    assert ([x] + parts)[1..] == parts;
  }

  /** A leading slash adds no segment. */
  lemma SegmentsSlash(r: string)
    ensures Segments("/" + r) == Segments(r)
  {
    assert ("/" + r)[1..] == r;
    assert Split("/" + r, '/') == [""] + Split(r, '/');
    assert ([""] + Split(r, '/'))[1..] == Split(r, '/');
  }

  /** The first piece of a split is empty exactly when the string is empty or starts with the separator. */
  lemma SplitHead(r: string)
    ensures Split(r, '/')[0] == [] <==> (r == [] || r[0] == '/')
  {
  }

  /** The segments after a leading non-slash character, in terms of the pieces of the rest. */
  lemma SegmentsCons(c: char, r: string)
    requires c != '/'
    ensures var p := Split(r, '/');
            && Segments([c] + r) == [[c] + p[0]] + NonEmpty(p[1..])
            && Segments(r) == (if p[0] == [] then [] else [p[0]]) + NonEmpty(p[1..])
  {
    var s := [c] + r;
    assert s[1..] == r;
    var p := Split(r, '/');
    assert Split(s, '/') == [[c] + p[0]] + p[1..];
    assert ([[c] + p[0]] + p[1..])[1..] == p[1..];
    assert p == [p[0]] + p[1..];
  }

  /** Joining after prefixing a character to the first piece, whether or not that piece is dropped as empty. */
  lemma JoinPrefixed(c: char, first: string, tail: seq<string>)
    requires forall i :: 0 <= i < |tail| ==> tail[i] != []
    ensures var rest := (if first == [] then [] else [first]) + tail;
            Join([[c] + first] + tail, '/')
            == [c] + (if first == [] && Join(rest, '/') != [] then "/" else "") + Join(rest, '/')
  {
    if first == [] {
      JoinPrefixedEmpty(c, tail);
    } else {
      JoinPrefixedFirst(c, first, tail);
    }
  }

  lemma JoinPrefixedEmpty(c: char, tail: seq<string>)
    requires forall i :: 0 <= i < |tail| ==> tail[i] != []
    ensures Join([[c] + []] + tail, '/')
            == [c] + (if Join([] + tail, '/') != [] then "/" else "") + Join([] + tail, '/')
  {
    assert [c] + [] == [c];
    assert [] + tail == tail;
    JoinCons([c], tail);
    JoinNonEmpty(tail);
    if tail == [] {
      assert Join([[c]], '/') == [c];
      assert [c] + "" + "" == [c];
    } else {
      assert Join([[c]] + tail, '/') == [c] + ("/" + Join(tail, '/'));
    }
  }

  lemma JoinPrefixedFirst(c: char, first: string, tail: seq<string>)
    requires first != []
    ensures Join([[c] + first] + tail, '/') == [c] + "" + Join([first] + tail, '/')
  {
    JoinCons([c] + first, tail);
    JoinCons(first, tail);
    var x := if tail == [] then "" else "/" + Join(tail, '/');
    assert Join([[c] + first] + tail, '/') == ([c] + first) + x;
    assert Join([first] + tail, '/') == first + x;
  }

  /** A leading non-slash character starts a new segment, or extends the first one. */
  lemma JoinedSegmentsCons(c: char, r: string)
    requires c != '/'
    ensures var joined := Join(Segments(r), '/');
            Join(Segments([c] + r), '/')
            == [c] + (if (r == [] || r[0] == '/') && joined != [] then "/" else "") + joined
  {
    var p := Split(r, '/');
    SplitHead(r);
    SegmentsCons(c, r);
    JoinPrefixed(c, p[0], NonEmpty(p[1..]));
  }

  /** The scan writes the segments joined by `/`, after one `/` when a separator is owed. */
  lemma {:induction false} SqueezeJoins(s: string, started: bool, pending: bool)
    requires pending ==> started
    ensures var joined := Join(Segments(s), '/');
            Squeeze(s, started, pending)
            == (if (pending || (started && s != [] && s[0] == '/')) && joined != [] then "/" else "") + joined
  {
    if s == [] {
      assert Segments(s) == [];
    } else if s[0] == '/' {
      SqueezeJoins(s[1..], started, started);
      SqueezeSlash(s, started, pending);
    } else {
      SqueezeJoins(s[1..], true, false);
      SqueezeChar(s, pending);
    }
  }

  lemma SqueezeSlash(s: string, started: bool, pending: bool)
    requires s != [] && s[0] == '/' && (pending ==> started)
    ensures Squeeze(s, started, pending) == Squeeze(s[1..], started, started)
    ensures Join(Segments(s), '/') == Join(Segments(s[1..]), '/')
  {
    assert s == "/" + s[1..];
    SegmentsSlash(s[1..]);
  }

  lemma SqueezeChar(s: string, pending: bool)
    requires s != [] && s[0] != '/'
    ensures Squeeze(s, true, pending) == (if pending then "/" else "") + [s[0]] + Squeeze(s[1..], true, false)
    ensures Squeeze(s, false, false) == [s[0]] + Squeeze(s[1..], true, false)
    ensures var joined := Join(Segments(s[1..]), '/');
            Join(Segments(s), '/')
            == [s[0]] + (if (s[1..] == [] || s[1..][0] == '/') && joined != [] then "/" else "") + joined
  {
    assert s == [s[0]] + s[1..];
    JoinedSegmentsCons(s[0], s[1..]);
  }

  /** The last link joins every segment. */
  lemma LastHref(segments: seq<string>)
    requires segments != []
    ensures Href(segments, |segments| - 1) == "/" + Join(segments, '/')
  {
    assert segments[..|segments|] == segments;
  }

  /** The last link is the path with leading, trailing and repeated slashes collapsed. */
  lemma LastHrefIsCollapsed(path: string)
    requires Crumbs(path) != []
    ensures Crumbs(path)[|Crumbs(path)| - 1].href == Collapsed(path)
  {
    var segments := Segments(path);
    var n := |segments|;
    SqueezeJoins(path, false, false);
    assert Squeeze(path, false, false) == Join(segments, '/');
    LastHref(segments);
    assert |Crumbs(path)| == n;
    assert Crumbs(path)[n - 1].href == Href(segments, n - 1);
  }

  /** For instance `//a///b/` collapses to `/a/b`. */
  lemma CollapsedExample()
    ensures Collapsed("//a///b/") == "/a/b"
  {
    assert Squeeze("/", true, true) == "";
    assert Squeeze("b/", true, true) == "/b";
    assert Squeeze("///b/", true, false) == "/b";
    assert Squeeze("a///b/", false, false) == "a/b";
  }

  // ---- labels ----

  lemma {:induction false} TitleCaseAt(s: string, afterWord: bool, i: int)
    requires 0 <= i < |s|
    ensures TitleCase(s, afterWord)[i]
            == if IsWordChar(s[i]) && (if i == 0 then !afterWord else !IsWordChar(s[i - 1]))
               then Upper(s[i]) else s[i]
  {
    if i > 0 {
      TitleCaseAt(s[1..], IsWordChar(s[0]), i - 1);
    }
  }

  /**
   * A label has the length of its segment; a hyphen becomes a space, a word
   * character that begins a word is upper-cased, and every other character is kept.
   */
  lemma LabelAt(segment: string, i: int)
    requires 0 <= i < |segment|
    ensures |Label(segment)| == |segment|
    ensures Label(segment)[i]
            == if segment[i] == '-' then ' '
               else if StartsWord(segment, i) then Upper(segment[i])
               else segment[i]
  {
    var spaced := ReplaceAll(segment, '-', ' ');
    TitleCaseAt(spaced, false, i);
  }
}
