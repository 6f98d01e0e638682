/** Lists cut into sections by the elements that open one. */
module Sections {

  /** The elements before the first that opens a section, */
  function Before<T>(xs: seq<T>, opens: T -> bool): seq<T> {
    if xs == [] || opens(xs[0]) then [] else [xs[0]] + Before(xs[1..], opens)
  }

  /** and the elements from there on. */
  function From<T>(xs: seq<T>, opens: T -> bool): seq<T> {
    if xs == [] || opens(xs[0]) then xs else From(xs[1..], opens)
  }

  predicate Has<T>(xs: seq<T>, named: T -> bool) {
    xs != [] && (named(xs[0]) || Has(xs[1..], named))
  }

  /** The elements up to the first that is named, with it; */
  function UpTo<T>(xs: seq<T>, named: T -> bool): seq<T> {
    if xs == [] then [] else if named(xs[0]) then [xs[0]] else [xs[0]] + UpTo(xs[1..], named)
  }

  /** the elements after it; */
  function After<T>(xs: seq<T>, named: T -> bool): seq<T> {
    if xs == [] then [] else if named(xs[0]) then xs[1..] else After(xs[1..], named)
  }

  /** and of these the ones that belong to its section. */
  function Body<T>(xs: seq<T>, opens: T -> bool, named: T -> bool): seq<T> {
    Before(After(xs, named), opens)
  }

  predicate NoneOpen<T>(xs: seq<T>, opens: T -> bool) {
    forall k :: 0 <= k < |xs| ==> !opens(xs[k])
  }

  lemma {:induction false} Halves<T>(xs: seq<T>, opens: T -> bool)
    ensures Before(xs, opens) + From(xs, opens) == xs && NoneOpen(Before(xs, opens), opens)
    ensures Before(From(xs, opens), opens) == [] && From(From(xs, opens), opens) == From(xs, opens)
  {
    if xs != [] && !opens(xs[0]) { Halves(xs[1..], opens); }
  }

  lemma {:induction false} HalvesOf<T>(a: seq<T>, b: seq<T>, opens: T -> bool)
    requires NoneOpen(a, opens)
    ensures Before(a + b, opens) == a + Before(b, opens) && From(a + b, opens) == From(b, opens)
    decreases |a|
  {
    if a == [] {
      assert a + b == b;
    } else {
      assert (a + b)[0] == a[0] && (a + b)[1..] == a[1..] + b;
      HalvesOf(a[1..], b, opens);
      FirstPutBack(a, Before(b, opens));
    }
  }

  lemma {:induction false} CutAtName<T>(xs: seq<T>, named: T -> bool)
    requires Has(xs, named)
    ensures UpTo(xs, named) + After(xs, named) == xs && UpTo(xs, named) != []
  {
    if !named(xs[0]) { CutAtName(xs[1..], named); }
  }

  /** Whatever begins in the same way is cut at the same place. */
  lemma {:induction false} CutAtNameOf<T>(xs: seq<T>, tail: seq<T>, named: T -> bool)
    requires Has(xs, named)
    ensures var all := UpTo(xs, named) + tail;
            Has(all, named) && UpTo(all, named) == UpTo(xs, named) && After(all, named) == tail
  {
    var all := UpTo(xs, named) + tail;
    assert all[0] == xs[0];
    if named(xs[0]) {
      assert all[1..] == tail;
    } else {
      assert all[1..] == UpTo(xs[1..], named) + tail;
      CutAtNameOf(xs[1..], tail, named);
    }
  }

  /** What follows the name does not matter to what comes before the first section. */
  lemma HeadKept<T>(xs: seq<T>, tail: seq<T>)
    requires xs != []
    ensures (xs + tail)[0] == xs[0] && (xs + tail)[1..] == xs[1..] + tail
  {
  }

  lemma {:induction false} StartIsBeforeName<T>(xs: seq<T>, tail: seq<T>, opens: T -> bool, named: T -> bool)
    requires Has(xs, named) && forall x :: named(x) ==> opens(x)
    ensures Before(UpTo(xs, named) + tail, opens) == Before(xs, opens)
  {
    if named(xs[0]) {
      HeadKept(UpTo(xs, named), tail);
    } else {
      HeadKept(UpTo(xs, named), tail);
      assert UpTo(xs, named)[1..] == UpTo(xs[1..], named);
      if !opens(xs[0]) { StartIsBeforeName(xs[1..], tail, opens, named); }
    }
  }

  lemma FirstPutBack<T>(xs: seq<T>, tail: seq<T>)
    requires xs != []
    ensures [xs[0]] + (xs[1..] + tail) == xs + tail
  {
  }

  /** Without the name, a list goes on until the name comes in what follows. */
  lemma {:induction false} NameComesLater<T>(xs: seq<T>, tail: seq<T>, named: T -> bool)
    requires !Has(xs, named)
    ensures Has(xs + tail, named) == Has(tail, named)
    ensures Has(tail, named) ==>
      UpTo(xs + tail, named) == xs + UpTo(tail, named) && After(xs + tail, named) == After(tail, named)
  {
    var all := xs + tail;
    if xs == [] {
      assert all == tail && [] + UpTo(tail, named) == UpTo(tail, named);
    } else {
      assert all[0] == xs[0] && all[1..] == xs[1..] + tail;
      NameComesLater(xs[1..], tail, named);
      FirstPutBack(xs, UpTo(tail, named));
    }
  }

  /** Adding at the end adds nothing before the first section, unless there is none. */
  lemma {:induction false} StartGrows<T>(xs: seq<T>, tail: seq<T>, opens: T -> bool)
    ensures Before(xs + tail, opens) == Before(xs, opens) + if NoneOpen(xs, opens) then Before(tail, opens) else []
  {
    var all := xs + tail;
    if xs == [] {
      assert all == tail;
    } else {
      assert all[0] == xs[0] && all[1..] == xs[1..] + tail;
      if !opens(xs[0]) {
        StartGrows(xs[1..], tail, opens);
        assert NoneOpen(xs, opens) <==> NoneOpen(xs[1..], opens) by {
          assert forall k :: 1 <= k < |xs| ==> xs[k] == xs[1..][k - 1];
        }
      }
    }
  }

  /** A name that opens a section is found from the first section on, or not at all. */
  lemma {:induction false} NameIsInASection<T>(xs: seq<T>, opens: T -> bool, named: T -> bool)
    requires forall x :: named(x) ==> opens(x)
    ensures Has(From(xs, opens), named) == Has(xs, named)
  {
    if xs != [] && !opens(xs[0]) { NameIsInASection(xs[1..], opens, named); }
  }

  /** The section of a name lies after the start. */
  lemma {:induction false} SectionIsInRest<T>(xs: seq<T>, opens: T -> bool, named: T -> bool)
    requires Has(xs, named) && forall x :: named(x) ==> opens(x)
    ensures Has(From(xs, opens), named) && After(From(xs, opens), named) == After(xs, named)
  {
    if !opens(xs[0]) { SectionIsInRest(xs[1..], opens, named); }
  }

  /** The cut before the first section, by position. */
  lemma {:induction false} FirstAt<T>(xs: seq<T>, opens: T -> bool, r: nat)
    requires r <= |xs| && (forall k :: 0 <= k < r ==> !opens(xs[k])) && (r < |xs| ==> opens(xs[r]))
    ensures Before(xs, opens) == xs[..r] && From(xs, opens) == xs[r..]
    decreases |xs|
  {
    if r > 0 {
      FirstAt(xs[1..], opens, r - 1);
      assert xs[..r] == [xs[0]] + xs[1..][..r - 1];
      assert xs[r..] == xs[1..][r - 1..];
    } else {
      assert xs[0..] == xs;
    }
  }

  /** The cut at the name, by position. */
  lemma {:induction false} NameAt<T>(xs: seq<T>, named: T -> bool, h: nat)
    requires h < |xs| && (forall k :: 0 <= k < h ==> !named(xs[k])) && named(xs[h])
    ensures Has(xs, named) && UpTo(xs, named) == xs[..h + 1] && After(xs, named) == xs[h + 1..]
    decreases |xs|
  {
    if h > 0 {
      NameAt(xs[1..], named, h - 1);
      assert xs[..h + 1] == [xs[0]] + xs[1..][..h];
      assert xs[h + 1..] == xs[1..][h..];
    }
  }

  lemma {:induction false} NameNowhere<T>(xs: seq<T>, named: T -> bool)
    requires forall k :: 0 <= k < |xs| ==> !named(xs[k])
    ensures !Has(xs, named)
  {
    if xs != [] { NameNowhere(xs[1..], named); }
  }

  /** A named header after at most one element that opens nothing. */
  lemma HeaderComesNext<T>(blank: seq<T>, header: T, added: seq<T>, opens: T -> bool, named: T -> bool)
    requires |blank| <= 1 && NoneOpen(blank, opens) && opens(header) && named(header)
    requires forall x :: named(x) ==> opens(x)
    ensures var tail := blank + [header] + added;
            Has(tail, named) && After(tail, named) == added && Before(tail, opens) == blank
  {
    var rest, tail := [header] + added, blank + [header] + added;
    assert rest[0] == header && rest[1..] == added;
    if blank == [] {
      assert tail == rest;
    } else {
      assert tail[0] == blank[0] && tail[1..] == rest && !opens(blank[0]);
      assert blank == [blank[0]] + [];
    }
  }

  // ---- Elements replaced by several ----

  function Expanded<T>(xs: seq<T>, f: T -> seq<T>): seq<T> {
    if xs == [] then [] else f(xs[0]) + Expanded(xs[1..], f)
  }

  /** An element is replaced by one that opens the same and others that open nothing. */
  ghost predicate Harmless<T>(x: T, f: T -> seq<T>, opens: T -> bool, named: T -> bool) {
    && f(x) != [] && opens(f(x)[0]) == opens(x) && named(f(x)[0]) == named(x)
    && forall k :: 0 < k < |f(x)| ==> !opens(f(x)[k]) && !named(f(x)[k])
  }

  ghost predicate AllHarmless<T>(xs: seq<T>, f: T -> seq<T>, opens: T -> bool, named: T -> bool) {
    forall k :: 0 <= k < |xs| ==> Harmless(xs[k], f, opens, named)
  }

  /** What the named element is replaced by, but its first. */
  function NameTail<T>(xs: seq<T>, f: T -> seq<T>, named: T -> bool): seq<T> {
    if xs == [] then []
    else if named(xs[0]) then (if f(xs[0]) == [] then [] else f(xs[0])[1..])
    else NameTail(xs[1..], f, named)
  }

  lemma AllHarmlessSplit<T>(xs: seq<T>, f: T -> seq<T>, opens: T -> bool, named: T -> bool)
    requires AllHarmless(xs, f, opens, named) && xs != []
    ensures Harmless(xs[0], f, opens, named) && AllHarmless(xs[1..], f, opens, named)
  {
    assert forall k :: 0 <= k < |xs[1..]| ==> xs[1..][k] == xs[k + 1];
  }

  lemma {:induction false} BeforeExpanded<T>(xs: seq<T>, f: T -> seq<T>, opens: T -> bool, named: T -> bool)
    requires AllHarmless(xs, f, opens, named)
    ensures Before(Expanded(xs, f), opens) == Expanded(Before(xs, opens), f)
  {
    if xs != [] {
      AllHarmlessSplit(xs, f, opens, named);
      BeforeExpanded(xs[1..], f, opens, named);
      if opens(xs[0]) {
        assert Expanded(xs, f)[0] == f(xs[0])[0];
      } else {
        HalvesOf(f(xs[0]), Expanded(xs[1..], f), opens);
        BeforeFirst(xs, f, opens);
      }
    }
  }

  lemma BeforeFirst<T>(xs: seq<T>, f: T -> seq<T>, opens: T -> bool)
    requires xs != [] && !opens(xs[0])
    ensures Expanded(Before(xs, opens), f) == f(xs[0]) + Expanded(Before(xs[1..], opens), f)
  {
    var rest := Before(xs[1..], opens);
    assert ([xs[0]] + rest)[0] == xs[0] && ([xs[0]] + rest)[1..] == rest;
  }

  /** None of these is the named element. */
  lemma {:induction false} NoName<T>(a: seq<T>, b: seq<T>, named: T -> bool)
    requires forall k :: 0 <= k < |a| ==> !named(a[k])
    ensures Has(a + b, named) == Has(b, named) && (Has(b, named) ==> After(a + b, named) == After(b, named))
  {
    NameNowhere(a, named);
    NameComesLater(a, b, named);
  }

  lemma {:induction false} NameExpanded<T>(xs: seq<T>, f: T -> seq<T>, opens: T -> bool, named: T -> bool)
    requires AllHarmless(xs, f, opens, named)
    ensures Has(Expanded(xs, f), named) == Has(xs, named)
    ensures Has(xs, named) ==> After(Expanded(xs, f), named) == NameTail(xs, f, named) + Expanded(After(xs, named), f)
  {
    if xs != [] {
      AllHarmlessSplit(xs, f, opens, named);
      NameExpanded(xs[1..], f, opens, named);
      var rest := Expanded(xs[1..], f);
      if named(xs[0]) {
        var all := f(xs[0]) + rest;
        assert all[0] == f(xs[0])[0] && all[1..] == f(xs[0])[1..] + rest;
      } else {
        NoName(f(xs[0]), rest, named);
      }
    }
  }
}
