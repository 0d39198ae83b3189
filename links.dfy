/** Whitespace trimming as String.prototype.trim does it. */
module Text {

  /**
   * The characters trim removes: the ECMAScript WhiteSpace characters
   * (tab, vertical tab, form feed, space, no-break space, the byte order
   * mark and the other space separators) and the LineTerminator characters.
   */
  predicate IsSpace(ch: char) {
    ch == '\t' || ch == '\n' || ch == '\U{000B}' || ch == '\U{000C}' || ch == '\r' ||
    ch == ' ' || ch == '\U{00A0}' || ch == '\U{1680}' || ('\U{2000}' <= ch <= '\U{200A}') ||
    ch == '\U{2028}' || ch == '\U{2029}' || ch == '\U{202F}' || ch == '\U{205F}' ||
    ch == '\U{3000}' || ch == '\U{FEFF}'
  }

  /** `s` without its leading whitespace. */
  function TrimStart(s: string): (r: string)
    ensures |r| <= |s| && r == s[|s| - |r|..]
    ensures forall i :: 0 <= i < |s| - |r| ==> IsSpace(s[i])
    ensures r != [] ==> !IsSpace(r[0])
  {
    if s != [] && IsSpace(s[0]) then TrimStart(s[1..]) else s
  }

  /** `s` without its trailing whitespace. */
  function TrimEnd(s: string): (r: string)
    ensures |r| <= |s| && r == s[..|r|]
    ensures forall i :: |r| <= i < |s| ==> IsSpace(s[i])
    ensures r != [] ==> !IsSpace(r[|r| - 1])
  {
    if s != [] && IsSpace(s[|s| - 1]) then TrimEnd(s[..|s| - 1]) else s
  }

  /** `r` is the piece of `s` starting at `k`, and everything of `s` outside it is whitespace. */
  ghost predicate TrimmedAt(s: string, r: string, k: int) {
    0 <= k <= |s| - |r| && r == s[k..k + |r|] &&
    (forall i :: 0 <= i < k ==> IsSpace(s[i])) &&
    (forall i :: k + |r| <= i < |s| ==> IsSpace(s[i]))
  }

  /** After trimming the start, trimming the end keeps a prefix of the rest. */
  lemma TrimKeepsPiece(s: string)
    ensures var t := TrimStart(s); var k := |s| - |t|;
            TrimEnd(t) == s[k..k + |TrimEnd(t)|]
  {
    var t := TrimStart(s);
    assert t == s[|s| - |t|..];
    assert TrimEnd(t) == t[..|TrimEnd(t)|];
  }

  /** What trimming the end drops after the piece is whitespace of `s`. */
  lemma TrimDropsTrailing(s: string)
    ensures var t := TrimStart(s); var k := |s| - |t|;
            forall i :: k + |TrimEnd(t)| <= i < |s| ==> IsSpace(s[i])
  {
    var t := TrimStart(s);
    var k := |s| - |t|;
    forall i | k + |TrimEnd(t)| <= i < |s|
      ensures IsSpace(s[i])
    {
      assert s[i] == t[i - k];
    }
  }

  /** Trimming the start and then the end leaves the piece of `s` after its leading whitespace. */
  lemma TrimPiece(s: string)
    ensures TrimmedAt(s, TrimEnd(TrimStart(s)), |s| - |TrimStart(s)|)
  {
    TrimKeepsPiece(s);
    TrimDropsTrailing(s);
  }

  /** Trimming yields nothing exactly when every character is whitespace. */
  lemma TrimEmpty(s: string)
    ensures TrimEnd(TrimStart(s)) == [] <==> forall i :: 0 <= i < |s| ==> IsSpace(s[i])
  {
    var t := TrimStart(s);
    if t != [] {
      assert !IsSpace(s[|s| - |t|]);
      assert TrimEnd(t) != [];
    }
  }

  /**
   * `s` without leading and trailing whitespace: the piece of `s` between
   * two all-whitespace ends, which neither starts nor ends with whitespace.
   * It is empty exactly when `s` is all whitespace.
   */
  function Trim(s: string): (r: string)
    ensures exists k :: TrimmedAt(s, r, k)
    ensures r != [] ==> !IsSpace(r[0]) && !IsSpace(r[|r| - 1])
    ensures r == [] <==> forall i :: 0 <= i < |s| ==> IsSpace(s[i])
  {
    TrimPiece(s);
    TrimEmpty(s);
    TrimEnd(TrimStart(s))
  }
}

/**
 * The link list: each link is a tile shown in the category whose name it
 * carries. These are the list operations of the link and category forms.
 */
module Links {
  import opened Options

  /**
   * A link id as the page holds it: a new link gets the number Date.now()
   * (`Num`); an edited link gets the text of its form's hidden id field,
   * the decimal string of that number (`Str`). `n` is the numeric value
   * either way, which is what loose equality (`==`) compares.
   */
  datatype LinkId = Num(n: int) | Str(n: int)

  datatype Link = Link(id: LinkId, title: string, url: string, icon: Option<string>, category: string)

  /** The tiles a category shows: the links carrying its name, in list order. */
  function InCategory(links: seq<Link>, name: string): (r: seq<Link>)
    ensures |r| <= |links|
    ensures forall l :: l in r <==> l in links && l.category == name
  {
    if links == [] then []
    else
      var rest := InCategory(links[1..], name);
      assert forall l :: l in links <==> l == links[0] || l in links[1..];
      if links[0].category == name then [links[0]] + rest else rest
  }

  /** The category filter keeps list order: it distributes over concatenation and keeps or drops each link alone. */
  lemma {:induction false} InCategoryKeepsOrder(s: seq<Link>, t: seq<Link>, name: string)
    ensures InCategory(s + t, name) == InCategory(s, name) + InCategory(t, name)
    ensures forall l :: InCategory([l], name) == if l.category == name then [l] else []
  {
    forall l ensures InCategory([l], name) == if l.category == name then [l] else [] {
      assert [l][1..] == [];
    }
    if s == [] {
      assert s + t == t;
    } else {
      assert (s + t)[0] == s[0] && (s + t)[1..] == s[1..] + t;
      InCategoryKeepsOrder(s[1..], t, name);
      if s[0].category == name {
        assert InCategory(s + t, name) == [s[0]] + (InCategory(s[1..], name) + InCategory(t, name));
      } else {
        assert InCategory(s + t, name) == InCategory(s[1..], name) + InCategory(t, name);
      }
    }
  }

  /** The rename cascade: every link of category `from` now carries `to`; every other field and link is as before. */
  function Relabel(links: seq<Link>, from: string, to: string): (r: seq<Link>)
    ensures |r| == |links|
    ensures forall i :: 0 <= i < |links| ==>
              r[i] == if links[i].category == from then links[i].(category := to) else links[i]
  {
    if links == [] then []
    else
      var l := links[0];
      [if l.category == from then l.(category := to) else l] + Relabel(links[1..], from, to)
  }

  /** Renaming a category to its own name leaves every link as it was. */
  lemma RelabelSameName(links: seq<Link>, name: string)
    ensures Relabel(links, name, name) == links
  {
    assert forall i :: 0 <= i < |links| ==> Relabel(links, name, name)[i] == links[i];
  }

  /**
   * A renamed category keeps its tiles: afterwards no tile shows under the
   * old name, the new name shows the tiles of both names, and every other
   * category shows exactly what it showed before.
   */
  lemma {:induction false} RelabelMovesTiles(links: seq<Link>, from: string, to: string)
    requires from != to
    ensures InCategory(Relabel(links, from, to), from) == []
    ensures |InCategory(Relabel(links, from, to), to)| == |InCategory(links, from)| + |InCategory(links, to)|
    ensures forall l: Link :: l in InCategory(Relabel(links, from, to), to) <==>
              l.category == to && (l in links || l.(category := from) in links)
    ensures forall n :: n != from && n != to ==> InCategory(Relabel(links, from, to), n) == InCategory(links, n)
  {
    var r := Relabel(links, from, to);
    forall l: Link | l in InCategory(r, to)
      ensures l in links || l.(category := from) in links
    {
      var i :| 0 <= i < |r| && r[i] == l;
      if links[i].category == from {
        assert links[i] == l.(category := from);
      }
    }
    forall l: Link | l.category == to && (l in links || l.(category := from) in links)
      ensures l in InCategory(r, to)
    {
      if l in links {
        var i :| 0 <= i < |links| && links[i] == l;
        assert r[i] == l;
      } else {
        var i :| 0 <= i < |links| && links[i] == l.(category := from);
        assert r[i] == l;
      }
    }
    if links != [] {
      RelabelMovesTiles(links[1..], from, to);
      assert r == [r[0]] + Relabel(links[1..], from, to);
      assert r[1..] == Relabel(links[1..], from, to);
    }
  }

  /**
   * The delete handler's filter as written: `l.id !== id` against the
   * number read from the form, a strict comparison that never matches a
   * string id.
   */
  function WithoutIdAsWritten(links: seq<Link>, n: int): (r: seq<Link>)
    ensures forall l :: l in r <==> l in links && l.id != Num(n)
  {
    if links == [] then []
    else
      var rest := WithoutIdAsWritten(links[1..], n);
      assert forall l :: l in links <==> l == links[0] || l in links[1..];
      if links[0].id != Num(n) then [links[0]] + rest else rest
  }

  /** The as-written delete keeps list order, like the corrected one. */
  lemma {:induction false} WithoutIdAsWrittenKeepsOrder(s: seq<Link>, t: seq<Link>, n: int)
    ensures WithoutIdAsWritten(s + t, n) == WithoutIdAsWritten(s, n) + WithoutIdAsWritten(t, n)
    ensures forall l :: WithoutIdAsWritten([l], n) == if l.id != Num(n) then [l] else []
  {
    forall l ensures WithoutIdAsWritten([l], n) == if l.id != Num(n) then [l] else [] {
      assert [l][1..] == [];
    }
    if s == [] {
      assert s + t == t;
    } else {
      assert (s + t)[0] == s[0] && (s + t)[1..] == s[1..] + t;
      WithoutIdAsWrittenKeepsOrder(s[1..], t, n);
      if s[0].id != Num(n) {
        assert WithoutIdAsWritten(s + t, n) == [s[0]] + (WithoutIdAsWritten(s[1..], n) + WithoutIdAsWritten(t, n));
      } else {
        assert WithoutIdAsWritten(s + t, n) == WithoutIdAsWritten(s[1..], n) + WithoutIdAsWritten(t, n);
      }
    }
  }

  /**
   * Deleting a link that has been edited once does nothing as written:
   * the edit gave it a string id, which the strict filter keeps. The
   * corrected filter removes it.
   */
  lemma EditedLinkSurvivesDelete(l: Link, edited: Link)
    requires edited.id == Str(l.id.n)
    ensures var links := ReplaceById([l], edited);
            links == [edited] &&
            WithoutIdAsWritten(links, l.id.n) == links &&
            WithoutId(links, l.id.n) == []
  {
    var links := ReplaceById([l], edited);
    assert links == [edited];
    assert WithoutIdAsWritten(links, l.id.n) == [edited] + WithoutIdAsWritten([], l.id.n);
  }

  /**
   * The delete handler's filter, corrected to compare ids loosely as the
   * other handlers do: the links whose id has another value, in order.
   * Afterwards no link has that id; a list without it is unchanged.
   */
  function WithoutId(links: seq<Link>, n: int): (r: seq<Link>)
    ensures |r| <= |links|
    ensures forall l :: l in r <==> l in links && l.id.n != n
    ensures (forall l :: l in links ==> l.id.n != n) ==> r == links
  {
    if links == [] then []
    else
      var rest := WithoutId(links[1..], n);
      assert forall l :: l in links <==> l == links[0] || l in links[1..];
      if links[0].id.n != n then [links[0]] + rest else rest
  }

  /**
   * The delete keeps the remaining links in list order: it distributes
   * over concatenation and keeps or drops each link alone.
   */
  lemma {:induction false} WithoutIdKeepsOrder(s: seq<Link>, t: seq<Link>, n: int)
    ensures WithoutId(s + t, n) == WithoutId(s, n) + WithoutId(t, n)
    ensures forall l :: WithoutId([l], n) == if l.id.n != n then [l] else []
  {
    forall l ensures WithoutId([l], n) == if l.id.n != n then [l] else [] {
      assert [l][1..] == [];
    }
    if s == [] {
      assert s + t == t;
    } else {
      assert (s + t)[0] == s[0] && (s + t)[1..] == s[1..] + t;
      WithoutIdKeepsOrder(s[1..], t, n);
      if s[0].id.n != n {
        assert WithoutId(s + t, n) == [s[0]] + (WithoutId(s[1..], n) + WithoutId(t, n));
      } else {
        assert WithoutId(s + t, n) == WithoutId(s[1..], n) + WithoutId(t, n);
      }
    }
  }

  /**
   * The edit branch of the link form: every link whose id has the edited
   * value is replaced by the new link; id values and order are unchanged.
   */
  function ReplaceById(links: seq<Link>, newLink: Link): (r: seq<Link>)
    ensures |r| == |links|
    ensures forall i :: 0 <= i < |links| ==> r[i].id.n == links[i].id.n
    ensures forall i :: 0 <= i < |links| ==> r[i] == if links[i].id.n == newLink.id.n then newLink else links[i]
  {
    if links == [] then []
    else [if links[0].id.n == newLink.id.n then newLink else links[0]] + ReplaceById(links[1..], newLink)
  }

  /** The index of the first link whose id has value `n` (the `find` of the drop handler). */
  function FirstWithId(links: seq<Link>, n: int): (r: Option<nat>)
    ensures r.None? <==> forall i :: 0 <= i < |links| ==> links[i].id.n != n
    ensures r.Some? ==> r.value < |links| && links[r.value].id.n == n &&
                        forall j :: 0 <= j < r.value ==> links[j].id.n != n
  {
    if links == [] then None
    else if links[0].id.n == n then Some(0)
    else
      match FirstWithId(links[1..], n)
      case None => None
      case Some(k) => Some(k + 1)
  }

  /** The icon a saved link gets: none when the clear box is ticked, else a newly uploaded icon, else the one it had. */
  function ChooseIcon(clear: bool, pending: Option<string>, original: Option<string>): (r: Option<string>)
    ensures clear ==> r.None?
    ensures !clear && pending.Some? && pending.value != "" ==> r == pending
    ensures r.Some? ==> r == pending || r == original
    ensures !clear && !(pending.Some? && pending.value != "") ==> r == original
  {
    if clear then None
    else if pending.Some? && pending.value != "" then pending
    else original
  }
}

/** The stored shape of a category, and the defaulting applied when loading it. */
module Records {
  import opened Options
  import opened Geometry

  /** A stored category as parsed; None stands for a missing or null field. */
  datatype RawCategory = RawCategory(name: string, x: Option<real>, y: Option<real>, w: Option<int>)
  /** A category's persisted fields. */
  datatype CategoryRecord = CategoryRecord(name: string, x: real, y: real, w: int)

  /** `v || d` for a number: missing or zero gives the default. */
  function OrReal(v: Option<real>, d: real): real {
    if v.Some? && v.value != 0.0 then v.value else d
  }
  function OrInt(v: Option<int>, d: int): int {
    if v.Some? && v.value != 0 then v.value else d
  }

  /**
   * The load-time record defaulting: the name is kept; a missing or zero
   * x or y becomes 0, a missing or zero width becomes DEFAULT_WIDTH, and
   * a present non-zero field is kept.
   */
  function Defaulted(c: RawCategory): (r: CategoryRecord)
    ensures r.name == c.name && r.w != 0
    ensures r.x == (if c.x.Some? then c.x.value else 0.0)
    ensures r.y == (if c.y.Some? then c.y.value else 0.0)
    ensures r.w == (if c.w.Some? && c.w.value != 0 then c.w.value else DEFAULT_WIDTH)
  {
    CategoryRecord(c.name, OrReal(c.x, 0.0), OrReal(c.y, 0.0), OrInt(c.w, DEFAULT_WIDTH))
  }

  /** The categories' `map` at load (and import) time. */
  function LoadCategories(raw: seq<RawCategory>): (r: seq<CategoryRecord>)
    ensures |r| == |raw| && forall i :: 0 <= i < |raw| ==> r[i] == Defaulted(raw[i])
  {
    seq(|raw|, i requires 0 <= i < |raw| => Defaulted(raw[i]))
  }

  /** What saving writes for a category: all four fields present. */
  function Saved(c: CategoryRecord): RawCategory {
    RawCategory(c.name, Some(c.x), Some(c.y), Some(c.w))
  }

  /**
   * Saving then loading gives back the same categories exactly when no
   * width is zero (a zero width comes back as DEFAULT_WIDTH).
   */
  lemma SaveLoadRoundTrip(cs: seq<CategoryRecord>)
    ensures LoadCategories(seq(|cs|, i requires 0 <= i < |cs| => Saved(cs[i]))) == cs <==>
            forall i :: 0 <= i < |cs| ==> cs[i].w != 0
  {
    var back := LoadCategories(seq(|cs|, i requires 0 <= i < |cs| => Saved(cs[i])));
    if forall i :: 0 <= i < |cs| ==> cs[i].w != 0 {
      assert forall i :: 0 <= i < |cs| ==> back[i] == cs[i];
    } else {
      var i :| 0 <= i < |cs| && cs[i].w == 0;
      assert back[i].w != cs[i].w;
    }
  }
}
