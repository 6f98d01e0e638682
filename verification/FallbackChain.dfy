/**
 * Routing over execution profiles: expanding a profile into its fallback chain, and running the chain's attempts.
 */
module FallbackChain {
  import opened Wrappers
  import opened Graphs

  type Name = string

  /** Profile name to the names it falls back to, in order. */
  type Fallbacks = Graph<Name>

  datatype Outcome =
    | Chain(names: seq<Name>)
    | Cycle(at: Name)
    | Unknown(at: Name)

  /** Every fallback named by a profile is itself a profile. */
  ghost predicate Validated(g: Fallbacks) {
    forall n, i :: n in g && 0 <= i < |g[n]| ==> g[n][i] in g
  }

  // ---- Expanding a profile ----

  /** The depth-first expansion of one name; `seen` holds the names on the way down to it. */
  function Visit(g: Fallbacks, name: Name, seen: set<Name>): Outcome
    decreases |g.Keys - seen|, 0, 0
  {
    if name in seen then Cycle(name)
    else if name !in g then Unknown(name)
    else
      assert name in g.Keys - seen && g.Keys - (seen + {name}) == g.Keys - seen - {name};
      var rest := VisitEach(g, g[name], 0, seen + {name});
      if rest.Chain? then Chain([name] + rest.names) else rest
  }

  /** The expansions of `names[i..]`, one after the other, up to the first fault. */
  function VisitEach(g: Fallbacks, names: seq<Name>, i: nat, seen: set<Name>): Outcome
    requires i <= |names|
    decreases |g.Keys - seen|, 1, |names| - i
  {
    if i == |names| then Chain([])
    else
      var first := Visit(g, names[i], seen);
      if !first.Chain? then first
      else
        var rest := VisitEach(g, names, i + 1, seen);
        if rest.Chain? then Chain(first.names + rest.names) else rest
  }

  function FallbackChain(g: Fallbacks, start: Name): Outcome {
    Visit(g, start, {})
  }

  // ---- Faults ----

  /** A fault while expanding `name` names a profile `name` reaches: one on a cycle, or one that does not exist. */
  ghost predicate FaultIsReal(g: Fallbacks, name: Name, o: Outcome) {
    match o
    case Chain(_) => true
    case Cycle(at) => Reaches(g, name, at) && LeadsTo(g, at, at)
    case Unknown(at) => Reaches(g, name, at) && at !in g
  }

  lemma LeadsOn(g: Fallbacks, name: Name, seen: set<Name>, i: nat)
    requires name in g && i < |g[name]| && (forall s :: s in seen ==> LeadsTo(g, s, name))
    ensures forall s :: s in seen + {name} ==> LeadsTo(g, s, g[name][i])
  {
    LeadsInOne(g, name, i);
    forall s | s in seen ensures LeadsTo(g, s, g[name][i]) {
      LeadsTransitively(g, s, name, g[name][i]);
    }
  }

  lemma {:induction false} VisitFaultIsReal(g: Fallbacks, name: Name, seen: set<Name>)
    requires forall s :: s in seen ==> LeadsTo(g, s, name)
    ensures FaultIsReal(g, name, Visit(g, name, seen))
    decreases |g.Keys - seen|, 0, 0
  {
    assert Walk(g, name, []) && End(g, name, []) == name;
    if name !in seen && name in g {
      assert name in g.Keys - seen && g.Keys - (seen + {name}) == g.Keys - seen - {name};
      EachFaultIsReal(g, name, 0, seen);
    }
  }

  lemma {:induction false} EachFaultIsReal(g: Fallbacks, name: Name, i: nat, seen: set<Name>)
    requires name in g && i <= |g[name]| && (forall s :: s in seen ==> LeadsTo(g, s, name))
    ensures FaultIsReal(g, name, VisitEach(g, g[name], i, seen + {name}))
    decreases |g.Keys - (seen + {name})|, 1, |g[name]| - i
  {
    if i < |g[name]| {
      LeadsOn(g, name, seen, i);
      VisitFaultIsReal(g, g[name][i], seen + {name});
      EachFaultIsReal(g, name, i + 1, seen);
      var first := Visit(g, g[name][i], seen + {name});
      if !first.Chain? {
        ReachesInOne(g, name, i);
        ReachesTransitively(g, name, g[name][i], first.at);
      }
    }
  }

  /** Below an expansion that succeeds, every fallback in turn was expanded successfully. */
  lemma {:induction false} EachSucceeds(g: Fallbacks, names: seq<Name>, i: nat, seen: set<Name>, k: nat)
    requires i <= k < |names| && VisitEach(g, names, i, seen).Chain?
    ensures Visit(g, names[k], seen).Chain?
    decreases k - i
  {
    if i < k { EachSucceeds(g, names, i + 1, seen, k); }
  }

  /** Every walk from a name expanded successfully stays inside the config and off the names already on the way. */
  lemma {:induction false} WalksAvoidSeen(g: Fallbacks, name: Name, seen: set<Name>, w: seq<nat>)
    requires Visit(g, name, seen).Chain? && Walk(g, name, w)
    ensures End(g, name, w) in g && End(g, name, w) !in seen
    ensures w != [] ==> End(g, name, w) != name
    ensures exists below :: Visit(g, End(g, name, w), below).Chain?
    decreases |w|
  {
    if w != [] {
      EachSucceeds(g, g[name], 0, seen + {name}, w[0]);
      WalksAvoidSeen(g, g[name][w[0]], seen + {name}, w[1..]);
    }
  }

  /** The expansion succeeds exactly when no cycle and no unknown profile can be reached from the start. */
  lemma SucceedsExactlyWhen(g: Fallbacks, start: Name)
    ensures FallbackChain(g, start).Chain? <==> forall n :: Reaches(g, start, n) ==> n in g && !LeadsTo(g, n, n)
  {
    VisitFaultIsReal(g, start, {});
    if FallbackChain(g, start).Chain? {
      forall n | Reaches(g, start, n) ensures n in g && !LeadsTo(g, n, n) {
        var w :| Walk(g, start, w) && End(g, start, w) == n;
        WalksAvoidSeen(g, start, {}, w);
        var below :| Visit(g, n, below).Chain?;
        forall c | Walk(g, n, c) && c != [] ensures End(g, n, c) != n {
          WalksAvoidSeen(g, n, below, c);
        }
      }
    }
  }

  lemma {:induction false} ValidatedStaysInside(g: Fallbacks, start: Name, w: seq<nat>)
    requires Validated(g) && start in g && Walk(g, start, w)
    ensures End(g, start, w) in g
    decreases |w|
  {
    if w != [] { ValidatedStaysInside(g, g[start][w[0]], w[1..]); }
  }

  /** On a validated config the only fault is a cycle, raised exactly when one can be reached, and on that cycle. */
  lemma RaisesExactlyOnCycles(g: Fallbacks, start: Name)
    requires Validated(g) && start in g
    ensures !FallbackChain(g, start).Unknown?
    ensures FallbackChain(g, start).Cycle? <==> exists n :: Reaches(g, start, n) && LeadsTo(g, n, n)
    ensures FallbackChain(g, start).Cycle? ==>
              (Reaches(g, start, FallbackChain(g, start).at)
                  && LeadsTo(g, FallbackChain(g, start).at, FallbackChain(g, start).at))
  {
    SucceedsExactlyWhen(g, start);
    VisitFaultIsReal(g, start, {});
    forall n | Reaches(g, start, n) ensures n in g {
      var w :| Walk(g, start, w) && End(g, start, w) == n;
      ValidatedStaysInside(g, start, w);
    }
  }

  // ---- The chain is the preorder ----

  /** Depth-first preorder on walks: a walk comes before its extensions, and otherwise the smaller edge comes first. */
  predicate Earlier(w: seq<nat>, v: seq<nat>) {
    v != [] && (w == [] || w[0] < v[0] || (w[0] == v[0] && Earlier(w[1..], v[1..])))
  }

  /** The walks below one name, in the order the expansion takes them. */
  ghost function Walks(g: Fallbacks, name: Name, seen: set<Name>): seq<seq<nat>>
    decreases |g.Keys - seen|, 0, 0
  {
    if name in seen || name !in g then []
    else
      assert name in g.Keys - seen && g.Keys - (seen + {name}) == g.Keys - seen - {name};
      [[]] + WalksEach(g, g[name], 0, seen + {name})
  }

  ghost function WalksEach(g: Fallbacks, names: seq<Name>, i: nat, seen: set<Name>): seq<seq<nat>>
    requires i <= |names|
    decreases |g.Keys - seen|, 1, |names| - i
  {
    if i == |names| then [] else Under(i, Walks(g, names[i], seen)) + WalksEach(g, names, i + 1, seen)
  }

  /** The same walks, each taken after edge `i`. */
  ghost function Under(i: nat, walks: seq<seq<nat>>): (r: seq<seq<nat>>)
    ensures |r| == |walks| && forall k :: 0 <= k < |r| ==> r[k] == [i] + walks[k]
  {
    seq(|walks|, k requires 0 <= k < |walks| => [i] + walks[k])
  }

  ghost predicate InPreorder(walks: seq<seq<nat>>) {
    forall i, j :: 0 <= i < j < |walks| ==> Earlier(walks[i], walks[j])
  }

  /** `walks` are all the walks from `start`, in preorder, and `names` are the profiles at their ends. */
  ghost predicate Enumerates(g: Fallbacks, start: Name, walks: seq<seq<nat>>, names: seq<Name>) {
    && |walks| == |names|
    && InPreorder(walks)
    && (forall k :: 0 <= k < |walks| ==> Walk(g, start, walks[k]) && End(g, start, walks[k]) == names[k])
    && (forall w :: Walk(g, start, w) ==> w in walks)
  }

  /** What `Enumerates` says of one name, for the fallbacks `names[i..]` of a profile. */
  ghost predicate EnumeratesEach(g: Fallbacks, names: seq<Name>, i: nat, walks: seq<seq<nat>>, found: seq<Name>) {
    && |walks| == |found|
    && InPreorder(walks)
    && (forall k :: 0 <= k < |walks| ==>
          && walks[k] != [] && i <= walks[k][0] < |names|
          && Walk(g, names[walks[k][0]], walks[k][1..])
          && End(g, names[walks[k][0]], walks[k][1..]) == found[k])
    && (forall w: seq<nat> :: w != [] && i <= w[0] < |names| && Walk(g, names[w[0]], w[1..]) ==> w in walks)
  }

  lemma {:induction false} VisitEnumerates(g: Fallbacks, name: Name, seen: set<Name>)
    requires Visit(g, name, seen).Chain?
    ensures Enumerates(g, name, Walks(g, name, seen), Visit(g, name, seen).names)
    decreases |g.Keys - seen|, 0, 0
  {
    assert name in g.Keys - seen && g.Keys - (seen + {name}) == g.Keys - seen - {name};
    VisitEachEnumerates(g, g[name], 0, seen + {name});
    StartThenEach(g, name, WalksEach(g, g[name], 0, seen + {name}), VisitEach(g, g[name], 0, seen + {name}).names);
  }

  /** The empty walk, then the walks by way of each fallback. */
  lemma StartThenEach(g: Fallbacks, name: Name, each: seq<seq<nat>>, found: seq<Name>)
    requires name in g && EnumeratesEach(g, g[name], 0, each, found)
    ensures Enumerates(g, name, [[]] + each, [name] + found)
  {
    var walks, names := [[]] + each, [name] + found;
    assert walks[0] == [] && names[0] == name;
    forall k | 0 < k < |walks| ensures Walk(g, name, walks[k]) && End(g, name, walks[k]) == names[k] {
      assert walks[k] == each[k - 1] && names[k] == found[k - 1];
    }
    forall i, j | 0 <= i < j < |walks| ensures Earlier(walks[i], walks[j]) {
      assert walks[j] == each[j - 1];
      if i > 0 { assert walks[i] == each[i - 1]; }
    }
    forall w | Walk(g, name, w) ensures w in walks {
      if w != [] { assert w in each; }
    }
  }

  lemma {:induction false} VisitEachEnumerates(g: Fallbacks, names: seq<Name>, i: nat, seen: set<Name>)
    requires i <= |names| && VisitEach(g, names, i, seen).Chain?
    ensures EnumeratesEach(g, names, i, WalksEach(g, names, i, seen), VisitEach(g, names, i, seen).names)
    decreases |g.Keys - seen|, 1, |names| - i
  {
    if i < |names| {
      VisitEnumerates(g, names[i], seen);
      VisitEachEnumerates(g, names, i + 1, seen);
      Concatenates(g, names, i, Walks(g, names[i], seen), Visit(g, names[i], seen).names,
                   WalksEach(g, names, i + 1, seen), VisitEach(g, names, i + 1, seen).names);
    }
  }

  lemma UnderEnumerates(g: Fallbacks, names: seq<Name>, i: nat, first: seq<seq<nat>>, firstNames: seq<Name>)
    requires i < |names| && Enumerates(g, names[i], first, firstNames)
    ensures InPreorder(Under(i, first))
    ensures forall k :: 0 <= k < |first| ==>
              (var w := Under(i, first)[k];
               w[0] == i && Walk(g, names[i], w[1..]) && End(g, names[i], w[1..]) == firstNames[k])
    ensures forall w: seq<nat> :: w != [] && w[0] == i && Walk(g, names[i], w[1..]) ==> w in Under(i, first)
  {
    var under := Under(i, first);
    forall k | 0 <= k < |first| ensures under[k][0] == i && under[k][1..] == first[k] {
      assert under[k] == [i] + first[k];
    }
    forall w: seq<nat> | w != [] && w[0] == i && Walk(g, names[i], w[1..]) ensures w in under {
      var k :| 0 <= k < |first| && first[k] == w[1..];
      assert under[k] == [i] + w[1..] == w;
    }
    forall a, b | 0 <= a < b < |under| ensures Earlier(under[a], under[b]) {
      assert Earlier(first[a], first[b]);
    }
  }

  lemma SortedJoin(a: seq<seq<nat>>, b: seq<seq<nat>>)
    requires InPreorder(a) && InPreorder(b) && forall i, j :: 0 <= i < |a| && 0 <= j < |b| ==> Earlier(a[i], b[j])
    ensures InPreorder(a + b)
  {
    var all := a + b;
    forall i, j | 0 <= i < j < |all| ensures Earlier(all[i], all[j]) {
      if j < |a| {
        assert all[i] == a[i] && all[j] == a[j];
      } else if i >= |a| {
        assert all[i] == b[i - |a|] && all[j] == b[j - |a|];
      } else {
        assert all[i] == a[i] && all[j] == b[j - |a|];
      }
    }
  }

  /** The walks under edge `i` followed by those under later edges. */
  lemma Concatenates(g: Fallbacks, names: seq<Name>, i: nat, first: seq<seq<nat>>, firstNames: seq<Name>,
                     rest: seq<seq<nat>>, restNames: seq<Name>)
    requires i < |names|
    requires Enumerates(g, names[i], first, firstNames) && EnumeratesEach(g, names, i + 1, rest, restNames)
    ensures EnumeratesEach(g, names, i, Under(i, first) + rest, firstNames + restNames)
  {
    UnderEnumerates(g, names, i, first, firstNames);
    var under := Under(i, first);
    forall a, b | 0 <= a < |under| && 0 <= b < |rest| ensures Earlier(under[a], rest[b]) {
      assert under[a][0] == i < rest[b][0];
    }
    SortedJoin(under, rest);
    var all, found := under + rest, firstNames + restNames;
    forall k | 0 <= k < |all|
      ensures all[k] != [] && i <= all[k][0] < |names| && Walk(g, names[all[k][0]], all[k][1..])
      ensures End(g, names[all[k][0]], all[k][1..]) == found[k]
    {
      if k < |under| {
        assert all[k] == under[k] && found[k] == firstNames[k];
      } else {
        assert all[k] == rest[k - |under|] && found[k] == restNames[k - |under|];
      }
    }
    forall w: seq<nat> | w != [] && i <= w[0] < |names| && Walk(g, names[w[0]], w[1..]) ensures w in all {
      if w[0] == i { assert w in under; } else { assert w in rest; }
    }
  }

  /** A chain that is returned lists the ends of all walks from the start profile, each once, in preorder. */
  lemma ChainIsThePreorder(g: Fallbacks, start: Name)
    requires FallbackChain(g, start).Chain?
    ensures Enumerates(g, start, Walks(g, start, {}), FallbackChain(g, start).names)
  {
    VisitEnumerates(g, start, {});
  }

  lemma ReachableProfilesAreListed(g: Fallbacks, start: Name, n: Name)
    requires FallbackChain(g, start).Chain?
    ensures n in FallbackChain(g, start).names <==> Reaches(g, start, n)
  {
    ChainIsThePreorder(g, start);
    var walks, names := Walks(g, start, {}), FallbackChain(g, start).names;
    if Reaches(g, start, n) {
      var w :| Walk(g, start, w) && End(g, start, w) == n;
      var k :| 0 <= k < |walks| && walks[k] == w;
      assert names[k] == n;
    }
    if n in names {
      var k :| 0 <= k < |names| && names[k] == n;
      assert Walk(g, start, walks[k]) && End(g, start, walks[k]) == n;
    }
  }

  /** The walks from `start` that end at `n`, out of a complete list of walks. */
  ghost function WalksTo(g: Fallbacks, start: Name, walks: seq<seq<nat>>, n: Name): set<seq<nat>> {
    set w | w in walks && Walk(g, start, w) && End(g, start, w) == n
  }

  lemma {:induction false} BeforeIsIrreflexive(w: seq<nat>)
    ensures !Earlier(w, w)
    decreases |w|
  {
    if w != [] { BeforeIsIrreflexive(w[1..]); }
  }

  lemma SortedHasNoRepeats(walks: seq<seq<nat>>, i: nat, j: nat)
    requires InPreorder(walks) && i < j < |walks|
    ensures walks[i] != walks[j]
  {
    BeforeIsIrreflexive(walks[i]);
  }

  lemma OneMoreWalk(g: Fallbacks, start: Name, walks: seq<seq<nat>>, w: seq<nat>, n: Name)
    requires Walk(g, start, w) && w !in walks
    ensures |WalksTo(g, start, walks + [w], n)|
            == |WalksTo(g, start, walks, n)| + if End(g, start, w) == n then 1 else 0
  {
    var before := WalksTo(g, start, walks, n);
    assert WalksTo(g, start, walks + [w], n) == if End(g, start, w) == n then before + {w} else before;
  }

  lemma LastIsNew(walks: seq<seq<nat>>, last: nat)
    requires InPreorder(walks) && |walks| == last + 1
    ensures walks[last] !in walks[..last] && walks == walks[..last] + [walks[last]]
  {
    forall k | 0 <= k < last ensures walks[k] != walks[last] { SortedHasNoRepeats(walks, k, last); }
  }

  lemma OneMoreName(names: seq<Name>, last: nat, n: Name)
    requires |names| == last + 1
    ensures multiset(names)[n] == multiset(names[..last])[n] + if names[last] == n then 1 else 0
  {
    assert names == names[..last] + [names[last]];
  }

  lemma {:induction false} CountIsWalks(g: Fallbacks, start: Name, walks: seq<seq<nat>>, names: seq<Name>, n: Name)
    requires |walks| == |names| && InPreorder(walks)
    requires forall k :: 0 <= k < |walks| ==> Walk(g, start, walks[k]) && End(g, start, walks[k]) == names[k]
    ensures multiset(names)[n] == |WalksTo(g, start, walks, n)|
    decreases |walks|
  {
    if walks != [] {
      var last := |walks| - 1;
      CountIsWalks(g, start, walks[..last], names[..last], n);
      OneMoreName(names, last, n);
      LastIsNew(walks, last);
      OneMoreWalk(g, start, walks[..last], walks[last], n);
    }
  }

  /** A profile occurs in the chain once for every walk that leads to it. */
  lemma OccurrencesAreWalks(g: Fallbacks, start: Name, n: Name)
    requires FallbackChain(g, start).Chain?
    ensures multiset(FallbackChain(g, start).names)[n] == |WalksTo(g, start, Walks(g, start, {}), n)|
    ensures forall w :: w in WalksTo(g, start, Walks(g, start, {}), n) <==> Walk(g, start, w) && End(g, start, w) == n
  {
    ChainIsThePreorder(g, start);
    CountIsWalks(g, start, Walks(g, start, {}), FallbackChain(g, start).names, n);
  }

  // ---- The builder ----

  /** With `have` resolved so far from `base` on, expanding what is left gives the whole expansion. */
  ghost predicate Still(whole: Outcome, base: seq<Name>, have: seq<Name>, left: Outcome) {
    if whole.Chain? then left.Chain? && have + left.names == base + whole.names else left == whole
  }

  lemma StillAfterOne(
      g: Fallbacks, names: seq<Name>, i: nat, seen: set<Name>, whole: Outcome, base: seq<Name>, have: seq<Name>)
    requires i < |names| && Still(whole, base, have, VisitEach(g, names, i, seen))
    ensures var first := Visit(g, names[i], seen);
            if first.Chain? then Still(whole, base, have + first.names, VisitEach(g, names, i + 1, seen))
            else whole == first
  {
    var first, rest := Visit(g, names[i], seen), VisitEach(g, names, i + 1, seen);
    if first.Chain? && rest.Chain? {
      assert have + (first.names + rest.names) == (have + first.names) + rest.names;
    }
  }

  /** The mutable state of one expansion. */
  class ChainBuilder {
    const g: Fallbacks
    var seen: set<Name>
    var resolved: seq<Name>

    constructor (g: Fallbacks)
      ensures this.g == g && seen == {} && resolved == []
    {
      this.g := g;
      seen, resolved := {}, [];
    }

    /** Appends the expansion of `name`; a fault, as returned, ends the whole expansion. */
    method VisitName(name: Name) returns (fault: Option<Outcome>)
      modifies this
      ensures var o := Visit(g, name, old(seen));
              if o.Chain? then fault == None && seen == old(seen) && resolved == old(resolved) + o.names
              else fault == Some(o)
      decreases |g.Keys - seen|
    {
      if name in seen { return Some(Cycle(name)); }
      if name !in g { return Some(Unknown(name)); }
      assert name in g.Keys - seen && g.Keys - (seen + {name}) == g.Keys - seen - {name};
      seen, resolved := seen + {name}, resolved + [name];
      var fallbacks := g[name];
      ghost var base, inside := resolved, seen;
      ghost var all := VisitEach(g, fallbacks, 0, inside);
      assert Still(all, base, base, all);
      var i := 0;
      while i < |fallbacks|
        invariant 0 <= i <= |fallbacks| && seen == inside
        invariant Still(all, base, resolved, VisitEach(g, fallbacks, i, inside))
      {
        StillAfterOne(g, fallbacks, i, inside, all, base, resolved);
        fault := VisitName(fallbacks[i]);
        if fault.Some? { return; }
        i := i + 1;
      }
      fault := None;
      seen := seen - {name};
      assert all.Chain? ==> resolved == resolved + [] == base + all.names;
      assert all.Chain? ==> base + all.names == old(resolved) + ([name] + all.names);
    }

    /** One whole expansion, by a fresh builder. */
    method Build(start: Name) returns (o: Outcome)
      requires seen == {} && resolved == []
      modifies this
      ensures o == FallbackChain(g, start)
    {
      var fault := VisitName(start);
      o := match fault case Some(f) => f case None => Chain(resolved);
    }
  }

  // ---- Running the chain ----

  datatype Status = Success | Failed | Error | Timeout | Cancelled | BudgetExceeded | Unavailable

  /** What one attempt came back with; `session` says that a persistent session was opened. */
  datatype Result = Result(status: Status, session: bool)

  datatype Profile = Profile(readOnly: bool, fallbackOn: set<Status>)

  /** The kinds of run: a task through the workflow path, or a direct agent session. */
  datatype Path = Workflow | Direct

  /**
   * Tries the profiles in order; `provider(i)` is what the provider of the i-th profile would come back with. A profile
   * that may not write is not run when the task writes. The chain goes on after a failure its profile falls back on,
   * but not after a cancellation, nor on the direct path once a session was opened.
   */
  method RunChain(chain: seq<Profile>, path: Path, writes: bool, provider: nat -> Result)
      returns (attempts: seq<Result>, last: Result)
    requires |chain| > 0
    ensures 0 < |attempts| <= |chain| && last == attempts[|attempts| - 1]
    ensures forall i :: 0 <= i < |attempts| ==>
      attempts[i] == if writes && chain[i].readOnly then Result(Error, false) else provider(i)
    ensures forall i :: 0 <= i < |attempts| - 1 ==>
      && attempts[i].status in chain[i].fallbackOn - {Success, Cancelled}
      && (path == Direct ==> !attempts[i].session)
    ensures |attempts| < |chain| ==>
      || last.status !in chain[|attempts| - 1].fallbackOn || last.status == Success || last.status == Cancelled
      || (path == Direct && last.session)
  {
    attempts := [];
    last := Result(Error, false);
    var i := 0;
    while i < |chain|
      invariant 0 <= i <= |chain| && |attempts| == i && (i > 0 ==> last == attempts[i - 1])
      invariant forall k :: 0 <= k < i ==>
        attempts[k] == if writes && chain[k].readOnly then Result(Error, false) else provider(k)
      invariant forall k :: 0 <= k < i ==>
        attempts[k].status in chain[k].fallbackOn - {Success, Cancelled} && (path == Direct ==> !attempts[k].session)
    {
      if writes && chain[i].readOnly {
        last := Result(Error, false);
      } else {
        last := provider(i);
      }
      attempts := attempts + [last];
      if path == Direct && last.session { return; }
      if last.status == Success || last.status == Cancelled { return; }
      if last.status !in chain[i].fallbackOn { return; }
      i := i + 1;
    }
  }
}
