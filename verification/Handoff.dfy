/**
 * Handing a worker's worktree over to the source checkout, or discarding it. Calls of one source are serialised by a
 * lock; what Git answers, and what others do between calls, is arbitrary. A hash stands for what it was taken of.
 */
module Handoff {
  import opened Wrappers

  type Token = nat
  type Patch = nat

  const NoChanges: Patch := 0

  /** How far the handover of an attempt has come, as recorded. */
  datatype Status = Open | Applied | Discarded | BranchRemains

  /** An inspection of a managed worktree: its head and its status. */
  datatype Inspection = Inspection(head: nat, status: nat)

  /** All that is read of a managed worktree: its head, its status, its patch against the base, and files the patch
      leaves out. */
  datatype Reading = Reading(head: nat, status: nat, patch: Patch, excluded: seq<string>)

  datatype Confirmation = Confirmation(token: Token, digest: Reading, expires: Instant)

  /** `present` says that the worktree is on disk. */
  datatype Attempt = Attempt(number: int, status: Status, confirmation: Option<Confirmation>, present: bool)

  /**
   * What an apply saw, and what has been done to the source, to worktrees and to branches, and tokens given out;
   * attempts by position. A source seen has a head if it is clean.
   */
  datatype Effect =
    | Inspected(attempt: nat, look: Inspection)
    | PatchRead(attempt: nat, patch: Patch)
    | LeftOut(attempt: nat, files: seq<string>)
    | SourceSeen(attempt: nat, head: Option<nat>)
    | PatchFits(attempt: nat, patch: Patch)
    | PatchApplied(attempt: nat, patch: Patch)
    | TokenIssued(attempt: nat, token: Token, digest: Reading, expires: Instant)
    | WorktreeRemoved(attempt: nat, token: Token, digest: Reading, at: Instant)
    | BranchDeleted(attempt: nat)

  datatype World = World(terminal: bool, attempts: seq<Attempt>, log: seq<Effect>)

  datatype Reason =
    | UnknownAttempt | NotTerminal | WasDiscarded | WasApplied | CannotInspect | SourceDirty | Incomplete | NoPatch
    | DoesNotApply | SourceChanged | WorkerChanged | ApplyFailed | BadToken | Expired | ChangedSinceConfirmation
    | RemoveFailed | BranchLeft

  datatype Reply =
    | Refused(reason: Reason)
    | AlreadyApplied
    | ApplyDone(patch: Patch)
    | AlreadyDiscarded
    | ConfirmationRequired(token: Token)
    | DiscardDone

  /** A confirmation is good for five minutes. */
  const ConfirmationSeconds: int := 300

  // ---- Calls ----

  /** The positions of the attempts with this number. */
  function Matches(attempts: seq<Attempt>, number: int): (r: seq<nat>)
    ensures forall k :: 0 <= k < |r| ==> r[k] < |attempts| && attempts[r[k]].number == number
  {
    if attempts == [] then []
    else
      var last := |attempts| - 1;
      Matches(attempts[..last], number) + if attempts[last].number == number then [last] else []
  }

  /** The attempt meant: the one of that number, or the only one. */
  function Select(attempts: seq<Attempt>, which: Option<int>): (r: Option<nat>)
    ensures r.Some? ==> r.value < |attempts|
  {
    match which
    case None => if |attempts| == 1 then Some(0) else None
    case Some(number) =>
      var found := Matches(attempts, number);
      if |found| == 1 then Some(found[0]) else None
  }

  /**
   * What Git answers during one apply: three inspections of the worktree and two readings of its patch against the
   * base, which files that leaves out, two looks at the source (its head, if it is clean), whether the patch would
   * apply, and whether it did.
   */
  datatype ApplyAnswers = ApplyAnswers(
    first: Option<Inspection>, source: Option<nat>, patch: Option<Patch>, excluded: Option<seq<string>>, checks: bool,
    sourceAgain: Option<nat>, second: Option<Inspection>, patchAgain: Option<Patch>, third: Option<Inspection>,
    applies: bool)

  /** Why an apply of an open attempt is refused, if it is; the checks are in order. */
  function ApplyFault(present: bool, g: ApplyAnswers): Option<Reason> {
    if !present || g.first.None? then Some(CannotInspect)
    else if g.source.None? then Some(SourceDirty)
    else if g.patch.None? || g.excluded.None? then Some(CannotInspect)
    else if g.excluded.value != [] then Some(Incomplete)
    else if g.patch.value == NoChanges then Some(NoPatch)
    else if !g.checks then Some(DoesNotApply)
    else if g.sourceAgain != g.source then Some(SourceChanged)
    else if g.second.None? || g.patchAgain.None? then Some(CannotInspect)
    else if g.patchAgain != g.patch || g.second.value.head != g.first.value.head then Some(WorkerChanged)
    else if g.third.None? then Some(CannotInspect)
    else if g.third.value.status != g.first.value.status then Some(WorkerChanged)
    else if !g.applies then Some(ApplyFailed)
    else None
  }

  /** What an apply of an open attempt sees before it applies the patch, up to the first check that fails. */
  function Sights(a: nat, present: bool, g: ApplyAnswers): (r: seq<Effect>)
    ensures forall k :: 0 <= k < |r| ==> Sight(r[k], a)
  {
    if !present || g.first.None? then []
    else
      var looked := [Inspected(a, g.first.value), SourceSeen(a, g.source)];
      if g.source.None? || g.patch.None? then looked
      else
        var read := looked + [PatchRead(a, g.patch.value)];
        if g.excluded.None? then read
        else
          var whole := read + [LeftOut(a, g.excluded.value)];
          if g.excluded.value != [] || g.patch.value == NoChanges || !g.checks then whole
          else
            var checked := whole + [PatchFits(a, g.patch.value), SourceSeen(a, g.sourceAgain)];
            if g.sourceAgain != g.source || g.second.None? then checked
            else
              var lookedAgain := checked + [Inspected(a, g.second.value)];
              if g.patchAgain.None? then lookedAgain
              else
                var readAgain := lookedAgain + [PatchRead(a, g.patchAgain.value)];
                if g.patchAgain != g.patch || g.second.value.head != g.first.value.head || g.third.None? then readAgain
                else readAgain + [Inspected(a, g.third.value)]
  }

  /** Something seen of attempt `a`. */
  predicate Sight(e: Effect, a: nat) {
    e.attempt == a && (e.Inspected? || e.PatchRead? || e.LeftOut? || e.SourceSeen? || e.PatchFits?)
  }

  function Apply(w: World, which: Option<int>, g: ApplyAnswers): (World, Reply) {
    match Select(w.attempts, which)
    case None => (w, Refused(UnknownAttempt))
    case Some(a) =>
      var item := w.attempts[a];
      if !w.terminal then (w, Refused(NotTerminal))
      else if item.status == Applied then (w, AlreadyApplied)
      else if item.status == Discarded then (w, Refused(WasDiscarded))
      else
        var seen := w.log + Sights(a, item.present, g);
        match ApplyFault(item.present, g)
        case Some(reason) => (w.(log := seen), Refused(reason))
        case None =>
          var patch := g.patch.value;
          (w.(attempts := w.attempts[a := item.(status := Applied)], log := seen + [PatchApplied(a, patch)]),
           ApplyDone(patch))
  }

  /** What happens during one discard: the look at the worktree, the time, the token made, and what Git manages. */
  datatype DiscardAnswers = DiscardAnswers(
    look: Option<Reading>, now: Instant, token: Token, removes: bool, deletes: bool)

  /** Why a confirmed discard is refused, if it is. */
  function ConfirmFault(item: Attempt, token: Token, g: DiscardAnswers): Option<Reason> {
    if item.confirmation.None? || item.confirmation.value.token != token then Some(BadToken)
    else if g.now > item.confirmation.value.expires then Some(Expired)
    else if g.look != Some(item.confirmation.value.digest) then Some(ChangedSinceConfirmation)
    else if !g.removes then Some(RemoveFailed)
    else None
  }

  function Discard(w: World, which: Option<int>, token: Option<Token>, g: DiscardAnswers): (World, Reply) {
    match Select(w.attempts, which)
    case None => (w, Refused(UnknownAttempt))
    case Some(a) =>
      var item := w.attempts[a];
      if !w.terminal then (w, Refused(NotTerminal))
      else if item.status == Discarded then (w, AlreadyDiscarded)
      else if item.status == Applied then (w, Refused(WasApplied))
      else if !item.present || g.look.None? then (w, Refused(CannotInspect))
      else if token.None? then
        var expires := g.now + ConfirmationSeconds;
        (w.(attempts := w.attempts[a := item.(confirmation := Some(Confirmation(g.token, g.look.value, expires)))],
            log := w.log + [TokenIssued(a, g.token, g.look.value, expires)]),
         ConfirmationRequired(g.token))
      else
        match ConfirmFault(item, token.value, g)
        case Some(reason) => (w, Refused(reason))
        case None =>
          var gone := w.log + [WorktreeRemoved(a, token.value, g.look.value, g.now)];
          if !g.deletes then
            (w.(attempts := w.attempts[a := item.(status := BranchRemains, present := false)], log := gone),
             Refused(BranchLeft))
          else
            (w.(attempts := w.attempts[a := item.(status := Discarded, confirmation := None, present := false)],
                log := gone + [BranchDeleted(a)]),
             DiscardDone)
  }

  // ---- What a call comes to ----

  lemma {:induction false} MatchesAre(attempts: seq<Attempt>, number: int, a: nat)
    ensures a in Matches(attempts, number) <==> a < |attempts| && attempts[a].number == number
    ensures forall i, j :: 0 <= i < j < |Matches(attempts, number)| ==>
      Matches(attempts, number)[i] < Matches(attempts, number)[j]
  {
    if attempts != [] {
      MatchesAre(attempts[..|attempts| - 1], number, a);
    }
  }

  /** An attempt is meant when it alone has the number given, or is the only one and none is given. */
  lemma SelectsExactlyWhen(attempts: seq<Attempt>, which: Option<int>, a: nat)
    ensures Select(attempts, which) == Some(a)
            <==> && a < |attempts|
                 && (which == None ==> |attempts| == 1)
                 && (which != None ==>
                      (forall b :: 0 <= b < |attempts| ==> (attempts[b].number == which.value <==> b == a)))
  {
    if which.Some? {
      var found := Matches(attempts, which.value);
      forall b: nat ensures b in found <==> b < |attempts| && attempts[b].number == which.value {
        MatchesAre(attempts, which.value, b);
      }
      MatchesAre(attempts, which.value, a);
      OneAlone(attempts, which.value, found, a);
    }
  }

  lemma OneAlone(attempts: seq<Attempt>, number: int, found: seq<nat>, a: nat)
    requires forall b: nat :: b in found <==> b < |attempts| && attempts[b].number == number
    requires forall i, j :: 0 <= i < j < |found| ==> found[i] < found[j]
    ensures found == [a]
            <==> a < |attempts| && forall b :: 0 <= b < |attempts| ==> (attempts[b].number == number <==> b == a)
  {
    if found == [a] {
      assert a in found;
    } else if a < |attempts| && attempts[a].number == number {
      assert a in found;
      var k :| 0 <= k < |found| && found[k] == a;
      var m := if k > 0 then 0 else 1;
      assert found[m] in found && found[m] != a;
    }
  }

  /** Nothing is done when no one attempt is meant. */
  lemma NobodyMeant(w: World, which: Option<int>, token: Option<Token>, g: ApplyAnswers, d: DiscardAnswers)
    requires Select(w.attempts, which) == None
    ensures Apply(w, which, g) == (w, Refused(UnknownAttempt))
        && Discard(w, which, token, d) == (w, Refused(UnknownAttempt))
  {
  }

  /** Attempt `a` may still be handed over or discarded. */
  ghost predicate InHand(w: World, a: nat) {
    a < |w.attempts| && w.terminal && w.attempts[a].present
    && (w.attempts[a].status == Open || w.attempts[a].status == BranchRemains)
  }

  /** Everything Git says during an apply is in order: complete, clean, unchanged, fitting, and carried out. */
  ghost predicate AllInOrder(g: ApplyAnswers) {
    && g.first != None && g.second != None && g.third != None && g.patch != None && g.source != None
    && g.second.value.head == g.first.value.head && g.third.value.status == g.first.value.status
    && g.patch.value != NoChanges && g.patchAgain == g.patch && g.excluded == Some([])
    && g.sourceAgain == g.source && g.checks && g.applies
  }

  /** An apply goes through exactly when the attempt is in hand and everything is in order; it then applies the patch
      that was read and puts that on record. Any other changes no record and applies nothing. */
  lemma AppliesExactlyWhen(w: World, which: Option<int>, a: nat, g: ApplyAnswers)
    requires Select(w.attempts, which) == Some(a)
    ensures var (after, reply) := Apply(w, which, g);
      && (reply.ApplyDone? <==> InHand(w, a) && AllInOrder(g))
      && (reply.ApplyDone? ==>
            && reply.patch == g.patch.value
            && after.attempts == w.attempts[a := w.attempts[a].(status := Applied)]
            && after.log != [] && after.log[|after.log| - 1] == PatchApplied(a, g.patch.value))
      && (!reply.ApplyDone? ==>
            && after.attempts == w.attempts
            && |w.log| <= |after.log| && after.log[..|w.log|] == w.log
            && forall k :: |w.log| <= k < |after.log| ==> Sight(after.log[k], a))
      && after.terminal == w.terminal
      && (reply == AlreadyApplied <==> w.terminal && w.attempts[a].status == Applied)
  {
    if w.terminal && w.attempts[a].status in {Open, BranchRemains} {
      var seen := Sights(a, w.attempts[a].present, g);
      assert (w.log + seen)[..|w.log|] == w.log;
      if AllInOrder(g) && InHand(w, a) { assert ApplyFault(w.attempts[a].present, g).None?; }
    }
  }

  /** A refused apply names something that is so. */
  lemma ApplyRefusalsAreTrue(w: World, which: Option<int>, a: nat, g: ApplyAnswers)
    requires Select(w.attempts, which) == Some(a) && Apply(w, which, g).1.Refused?
    ensures match Apply(w, which, g).1.reason
      case NotTerminal => !w.terminal
      case WasDiscarded => w.attempts[a].status == Discarded
      case CannotInspect =>
        !w.attempts[a].present || None in [g.first, g.second, g.third] || None in [g.patch, g.patchAgain]
            || g.excluded == None
      case SourceDirty => g.source == None && g.first != None
      case Incomplete => g.excluded != None && g.excluded != Some([])
      case NoPatch => g.patch == Some(NoChanges)
      case DoesNotApply => !g.checks && g.excluded == Some([])
      case SourceChanged => g.source != None && g.sourceAgain != g.source && g.checks
      case WorkerChanged =>
        || (g.patch != None && g.patchAgain != None && g.patchAgain != g.patch)
        || (g.first != None && g.second != None && g.second.value.head != g.first.value.head)
        || (g.first != None && g.third != None && g.third.value.status != g.first.value.status)
      case ApplyFailed => !g.applies && g.checks
      case _ => false
  {
  }

  /** Asking to discard an attempt in hand gives out a token for what its worktree is, good for three hundred
      seconds. */
  lemma AsksExactlyWhen(w: World, which: Option<int>, a: nat, g: DiscardAnswers)
    requires Select(w.attempts, which) == Some(a)
    ensures var (after, reply) := Discard(w, which, None, g);
      && (reply == ConfirmationRequired(g.token) <==> InHand(w, a) && g.look != None)
      && (reply.ConfirmationRequired? ==>
            && reply.token == g.token
            && var given := Confirmation(g.token, g.look.value, g.now + 300);
            && after.attempts == w.attempts[a := w.attempts[a].(confirmation := Some(given))]
            && after.log == w.log + [TokenIssued(a, g.token, g.look.value, g.now + 300)])
      && (!reply.ConfirmationRequired? ==> after == w)
      && after.terminal == w.terminal
      && (reply == AlreadyDiscarded <==> w.terminal && w.attempts[a].status == Discarded)
  {
  }

  /** A token discards exactly when it is the one on record, in time, for the worktree as it was, and Git does its
      part. */
  lemma DiscardsExactlyWhen(w: World, which: Option<int>, a: nat, token: Token, g: DiscardAnswers)
    requires Select(w.attempts, which) == Some(a)
    ensures var (after, reply) := Discard(w, which, Some(token), g);
      var confirmed := && InHand(w, a) && w.attempts[a].confirmation != None && g.look != None
                       && w.attempts[a].confirmation.value.token == token
                       && g.now <= w.attempts[a].confirmation.value.expires
                       && w.attempts[a].confirmation.value.digest == g.look.value;
      && (reply == DiscardDone <==> confirmed && g.removes && g.deletes)
      && (reply == Refused(BranchLeft) <==> confirmed && g.removes && !g.deletes)
      && (reply == DiscardDone ==>
            && after.attempts
               == w.attempts[a := w.attempts[a].(status := Discarded, confirmation := None, present := false)]
            && after.log == w.log + [WorktreeRemoved(a, token, g.look.value, g.now), BranchDeleted(a)])
      && (reply == Refused(BranchLeft) ==>
            && after.attempts == w.attempts[a := w.attempts[a].(status := BranchRemains, present := false)]
            && after.log == w.log + [WorktreeRemoved(a, token, g.look.value, g.now)])
      && (reply != DiscardDone && reply != Refused(BranchLeft) ==> after == w)
      && after.terminal == w.terminal
  {
    if ConfirmFault(w.attempts[a], token, g).None? && g.look != None {
      var gone, deleted := WorktreeRemoved(a, token, g.look.value, g.now), BranchDeleted(a);
      assert w.log + [gone] + [deleted] == w.log + [gone, deleted];
    }
  }

  /** A refused discard names something that is so. */
  lemma DiscardRefusalsAreTrue(w: World, which: Option<int>, a: nat, token: Option<Token>, g: DiscardAnswers)
    requires Select(w.attempts, which) == Some(a) && Discard(w, which, token, g).1.Refused?
    ensures var item := w.attempts[a];
      match Discard(w, which, token, g).1.reason
      case NotTerminal => !w.terminal
      case WasApplied => item.status == Applied
      case CannotInspect => !item.present || g.look == None
      case BadToken => item.confirmation == None || Some(item.confirmation.value.token) != token
      case Expired => item.confirmation != None && g.now > item.confirmation.value.expires
      case ChangedSinceConfirmation => item.confirmation != None && g.look != Some(item.confirmation.value.digest)
      case RemoveFailed => !g.removes && g.look != None
      case BranchLeft => !g.deletes && g.removes
      case _ => false
  {
  }

  // ---- Runs ----

  /** A completed call, or something done by others: to the task's status, to a worktree, or a new attempt. */
  datatype Step =
    | ApplyCall(which: Option<int>, apply: ApplyAnswers)
    | DiscardCall(which: Option<int>, token: Option<Token>, discard: DiscardAnswers)
    | SetTerminal(terminal: bool)
    | SetPresent(attempt: nat, present: bool)
    | AddAttempt(number: int)

  function Next(w: World, step: Step): World {
    match step
    case ApplyCall(which, g) => Apply(w, which, g).0
    case DiscardCall(which, token, g) => Discard(w, which, token, g).0
    case SetTerminal(t) => w.(terminal := t)
    case SetPresent(a, p) =>
      if a < |w.attempts| then w.(attempts := w.attempts[a := w.attempts[a].(present := p)]) else w
    case AddAttempt(n) => w.(attempts := w.attempts + [Attempt(n, Open, None, true)])
  }

  function Run(w: World, steps: seq<Step>): World
    decreases |steps|
  {
    if steps == [] then w else Run(Next(w, steps[0]), steps[1..])
  }

  const Start: World := World(false, [], [])

  // ---- What a log says of one attempt ----

  /** The effects on one attempt, in order. */
  function Of(log: seq<Effect>, a: nat): seq<Effect> {
    if log == [] then [] else Of(log[..|log| - 1], a) + if log[|log| - 1].attempt == a then [log[|log| - 1]] else []
  }

  lemma OfLast(log: seq<Effect>, e: Effect, a: nat)
    ensures Of(log + [e], a) == if e.attempt == a then Of(log, a) + [e] else Of(log, a)
  {
    assert (log + [e])[..|log|] == log;
    assert Of(log, a) + [] == Of(log, a);
  }

  /** Effects on one attempt alone. */
  ghost predicate AllOf(more: seq<Effect>, a: nat) {
    forall k :: 0 <= k < |more| ==> more[k].attempt == a
  }

  lemma {:induction false} OfAll(log: seq<Effect>, more: seq<Effect>, a: nat, b: nat)
    requires AllOf(more, a)
    ensures Of(log + more, b) == if a == b then Of(log, b) + more else Of(log, b)
  {
    if more == [] {
      assert log + more == log && Of(log, b) + more == Of(log, b);
    } else {
      var front, last := more[..|more| - 1], more[|more| - 1];
      assert AllOf(front, a) && last.attempt == a;
      OfAll(log, front, a, b);
      OfLast(log + front, last, b);
      assert more == front + [last];
      Regrouped(log, front, last);
      Regrouped(Of(log, b), front, last);
    }
  }

  lemma Regrouped(log: seq<Effect>, front: seq<Effect>, last: Effect)
    ensures log + front + [last] == log + (front + [last])
  {
  }

  /** The confirmation last issued among these effects. */
  function LastIssue(mine: seq<Effect>): Option<Confirmation> {
    if mine == [] then None
    else
      match mine[|mine| - 1]
      case TokenIssued(_, token, digest, expires) => Some(Confirmation(token, digest, expires))
      case _ => LastIssue(mine[..|mine| - 1])
  }

  /** The removal at `k` used the last token issued before it, in time, for what the worktree still was. */
  ghost predicate Confirmed(mine: seq<Effect>, k: nat)
    requires k < |mine| && mine[k].WorktreeRemoved?
  {
    var issue := LastIssue(mine[..k]);
    && issue.Some? && issue.value.token == mine[k].token && issue.value.digest == mine[k].digest
    && mine[k].at <= issue.value.expires
  }

  ghost predicate RemovalsConfirmed(mine: seq<Effect>) {
    forall k :: 0 <= k < |mine| && mine[k].WorktreeRemoved? ==> Confirmed(mine, k)
  }

  /**
   * The last nine things seen agree on the patch: it was read from the worktree and left nothing out, the source was
   * clean, the patch fits it, the source was still clean and at that head, the patch was read again, and inspections
   * found the worktree at the same head before that and with the same status after it.
   */
  ghost predicate Agreed(seen: seq<Effect>, patch: Patch) {
    var n := |seen|;
    && n >= 9 && patch != NoChanges
    && seen[n - 9].Inspected? && seen[n - 8].SourceSeen? && seen[n - 7].PatchRead? && seen[n - 6].LeftOut?
    && seen[n - 5].PatchFits? && seen[n - 4].SourceSeen?
    && seen[n - 3].Inspected? && seen[n - 2].PatchRead? && seen[n - 1].Inspected?
    && seen[n - 7].patch == seen[n - 5].patch == seen[n - 2].patch == patch && seen[n - 6].files == []
    && seen[n - 8].head.Some? && seen[n - 4].head == seen[n - 8].head
    && seen[n - 3].look.head == seen[n - 9].look.head && seen[n - 1].look.status == seen[n - 9].look.status
  }

  ghost predicate AppliedAsAgreed(mine: seq<Effect>) {
    forall k :: 0 <= k < |mine| && mine[k].PatchApplied? ==> Agreed(mine[..k], mine[k].patch)
  }

  /** Among these effects a patch is applied, or a branch deleted, only at the very end. */
  ghost predicate EndsItAll(mine: seq<Effect>) {
    forall k :: 0 <= k < |mine| && (mine[k].PatchApplied? || mine[k].BranchDeleted?) ==> k == |mine| - 1
  }

  /** The record of an attempt tells how its effects ended and what was last confirmed. */
  ghost predicate InLine(item: Attempt, mine: seq<Effect>) {
    && EndsItAll(mine) && RemovalsConfirmed(mine) && AppliedAsAgreed(mine)
    && (item.status == Applied <==> mine != [] && mine[|mine| - 1].PatchApplied?)
    && (item.status == Discarded <==> mine != [] && mine[|mine| - 1].BranchDeleted?)
    && (item.confirmation.Some? ==> LastIssue(mine) == item.confirmation)
  }

  ghost predicate Inv(w: World) {
    && (forall a :: 0 <= a < |w.attempts| ==> InLine(w.attempts[a], Of(w.log, a)))
    && (forall k :: 0 <= k < |w.log| ==> w.log[k].attempt < |w.attempts|)
  }

  // ---- Every step keeps log and records in line ----

  lemma StaysConfirmed(mine: seq<Effect>, e: Effect)
    requires RemovalsConfirmed(mine)
    requires e.WorktreeRemoved? ==>
               (var issue := LastIssue(mine);
                issue.Some? && issue.value.token == e.token && issue.value.digest == e.digest
                && e.at <= issue.value.expires)
    ensures RemovalsConfirmed(mine + [e])
  {
    var all := mine + [e];
    forall k | 0 <= k < |all| && all[k].WorktreeRemoved? ensures Confirmed(all, k) {
      if k < |mine| {
        assert all[..k] == mine[..k] && Confirmed(mine, k);
      } else {
        assert all[..k] == mine;
      }
    }
  }

  lemma StaysAgreed(mine: seq<Effect>, e: Effect)
    requires AppliedAsAgreed(mine)
    requires e.PatchApplied? ==> Agreed(mine, e.patch)
    ensures AppliedAsAgreed(mine + [e])
  {
    var all := mine + [e];
    forall k | 0 <= k < |all| && all[k].PatchApplied? ensures Agreed(all[..k], all[k].patch) {
      if k < |mine| {
        assert all[..k] == mine[..k];
      } else {
        assert all[..k] == mine;
      }
    }
  }

  lemma IssueLast(mine: seq<Effect>, e: Effect)
    ensures LastIssue(mine + [e])
            == if e.TokenIssued? then Some(Confirmation(e.token, e.digest, e.expires)) else LastIssue(mine)
  {
    assert (mine + [e])[..|mine|] == mine;
  }

  /** Effects that have not ended can go on. */
  lemma EndsItAllNext(mine: seq<Effect>, e: Effect)
    requires EndsItAll(mine)
    requires mine != [] ==> !mine[|mine| - 1].PatchApplied? && !mine[|mine| - 1].BranchDeleted?
    ensures EndsItAll(mine + [e])
  {
    forall k | 0 <= k < |mine| ensures !mine[k].PatchApplied? && !mine[k].BranchDeleted? {
      assert mine[k].PatchApplied? || mine[k].BranchDeleted? ==> k == |mine| - 1;
    }
  }

  /** One more effect on an attempt that has been neither applied nor discarded. */
  lemma InLineNext(item: Attempt, mine: seq<Effect>, e: Effect, after: Attempt)
    requires InLine(item, mine) && item.status != Applied && item.status != Discarded
    requires after.status == Applied <==> e.PatchApplied?
    requires e.PatchApplied? ==> Agreed(mine, e.patch)
    requires after.status == Discarded <==> e.BranchDeleted?
    requires e.WorktreeRemoved? ==>
               (item.confirmation.Some? && item.confirmation.value.token == e.token
                && item.confirmation.value.digest == e.digest && e.at <= item.confirmation.value.expires)
    requires after.confirmation.Some? ==>
               (if e.TokenIssued? then after.confirmation.value == Confirmation(e.token, e.digest, e.expires)
                else after.confirmation == item.confirmation)
    ensures InLine(after, mine + [e])
  {
    EndsItAllNext(mine, e);
    StaysConfirmed(mine, e);
    StaysAgreed(mine, e);
    IssueLast(mine, e);
    var all := mine + [e];
    assert all != [] && all[|all| - 1] == e;
  }

  /** Looking at an attempt that has been neither applied nor discarded changes nothing in its record. */
  lemma {:induction false} InLineSeen(item: Attempt, a: nat, mine: seq<Effect>, seen: seq<Effect>)
    requires InLine(item, mine) && item.status != Applied && item.status != Discarded
    requires forall k :: 0 <= k < |seen| ==> Sight(seen[k], a)
    ensures InLine(item, mine + seen)
  {
    if seen == [] {
      assert mine + seen == mine;
    } else {
      var last := |seen| - 1;
      InLineSeen(item, a, mine, seen[..last]);
      assert Sight(seen[last], a);
      InLineNext(item, mine + seen[..last], seen[last], item);
      assert mine + seen[..last] + [seen[last]] == mine + seen;
    }
  }

  /** Effects on one attempt, with its record brought up to date, keep all in line. */
  lemma EffectsKeepInv(w: World, a: nat, after: Attempt, more: seq<Effect>)
    requires Inv(w) && a < |w.attempts| && AllOf(more, a) && InLine(after, Of(w.log, a) + more)
    ensures Inv(w.(attempts := w.attempts[a := after], log := w.log + more))
  {
    var w1 := w.(attempts := w.attempts[a := after], log := w.log + more);
    forall b | 0 <= b < |w1.attempts| ensures InLine(w1.attempts[b], Of(w1.log, b)) {
      OfAll(w.log, more, a, b);
      assert b != a ==> InLine(w.attempts[b], Of(w.log, b));
    }
  }

  /** An apply with no fault has seen the patch agreed. */
  lemma SightsAgree(mine: seq<Effect>, a: nat, present: bool, g: ApplyAnswers)
    requires ApplyFault(present, g).None?
    ensures Agreed(mine + Sights(a, present, g), g.patch.value)
  {
    var patch := g.patch.value;
    assert Sights(a, present, g)
        == [Inspected(a, g.first.value), SourceSeen(a, g.source), PatchRead(a, patch), LeftOut(a, []),
            PatchFits(a, patch), SourceSeen(a, g.source), Inspected(a, g.second.value), PatchRead(a, patch),
            Inspected(a, g.third.value)];
  }

  lemma LooksKeepInv(w: World, a: nat, g: ApplyAnswers)
    requires Inv(w) && a < |w.attempts| && w.attempts[a].status != Applied && w.attempts[a].status != Discarded
    ensures Inv(w.(log := w.log + Sights(a, w.attempts[a].present, g)))
  {
    var item := w.attempts[a];
    InLineSeen(item, a, Of(w.log, a), Sights(a, item.present, g));
    EffectsKeepInv(w, a, item, Sights(a, item.present, g));
    assert w.attempts[a := item] == w.attempts;
  }

  lemma EffectKeepsInv(w: World, a: nat, after: Attempt, e: Effect)
    requires Inv(w) && a < |w.attempts| && e.attempt == a && InLine(after, Of(w.log, a) + [e])
    ensures Inv(w.(attempts := w.attempts[a := after], log := w.log + [e]))
  {
    EffectsKeepInv(w, a, after, [e]);
  }

  lemma AppliedInLine(item: Attempt, mine: seq<Effect>, a: nat, patch: Patch)
    requires InLine(item, mine) && item.status != Applied && item.status != Discarded && Agreed(mine, patch)
    ensures InLine(item.(status := Applied), mine + [PatchApplied(a, patch)])
  {
    InLineNext(item, mine, PatchApplied(a, patch), item.(status := Applied));
  }

  lemma AgreedAfterLooks(log: seq<Effect>, a: nat, present: bool, g: ApplyAnswers)
    requires ApplyFault(present, g).None?
    ensures Agreed(Of(log + Sights(a, present, g), a), g.patch.value)
  {
    OfAll(log, Sights(a, present, g), a, a);
    SightsAgree(Of(log, a), a, present, g);
  }

  lemma ApplyKeepsInv(w: World, which: Option<int>, g: ApplyAnswers)
    requires Inv(w)
    ensures Inv(Apply(w, which, g).0)
  {
    var sel := Select(w.attempts, which);
    if sel.Some? && w.terminal && w.attempts[sel.value].status in {Open, BranchRemains} {
      var a := sel.value;
      var present := w.attempts[a].present;
      LooksKeepInv(w, a, g);
      if ApplyFault(present, g).None? {
        AgreedAfterLooks(w.log, a, present, g);
        var w1 := w.(log := w.log + Sights(a, present, g));
        AppliedInLine(w1.attempts[a], Of(w1.log, a), a, g.patch.value);
        EffectKeepsInv(w1, a, w1.attempts[a].(status := Applied), PatchApplied(a, g.patch.value));
      }
    }
  }

  lemma IssueKeepsInv(w: World, a: nat, token: Token, look: Reading, expires: Instant)
    requires Inv(w) && a < |w.attempts| && w.attempts[a].status != Applied && w.attempts[a].status != Discarded
    ensures Inv(w.(attempts :=
                     w.attempts[a := w.attempts[a].(confirmation := Some(Confirmation(token, look, expires)))],
                   log := w.log + [TokenIssued(a, token, look, expires)]))
  {
    var item, e := w.attempts[a], TokenIssued(a, token, look, expires);
    var after := item.(confirmation := Some(Confirmation(token, look, expires)));
    InLineNext(item, Of(w.log, a), e, after);
    EffectKeepsInv(w, a, after, e);
  }

  lemma RemovalKeepsInv(w: World, a: nat, e: Effect)
    requires Inv(w) && a < |w.attempts| && w.attempts[a].status != Applied && w.attempts[a].status != Discarded
    requires e.WorktreeRemoved? && e.attempt == a && w.attempts[a].confirmation.Some?
    requires var c := w.attempts[a].confirmation.value; c.token == e.token && c.digest == e.digest && e.at <= c.expires
    ensures Inv(w.(attempts := w.attempts[a := w.attempts[a].(status := BranchRemains, present := false)],
                   log := w.log + [e]))
  {
    var item := w.attempts[a];
    var left := item.(status := BranchRemains, present := false);
    InLineNext(item, Of(w.log, a), e, left);
    EffectKeepsInv(w, a, left, e);
  }

  lemma DeletionKeepsInv(w: World, a: nat)
    requires Inv(w) && a < |w.attempts| && w.attempts[a].status != Applied && w.attempts[a].status != Discarded
    ensures Inv(w.(attempts := w.attempts[a := w.attempts[a].(status := Discarded, confirmation := None)],
                   log := w.log + [BranchDeleted(a)]))
  {
    var item, gone := w.attempts[a], BranchDeleted(a);
    var done := item.(status := Discarded, confirmation := None);
    InLineNext(item, Of(w.log, a), gone, done);
    EffectKeepsInv(w, a, done, gone);
  }

  lemma UpdatedTwice(attempts: seq<Attempt>, a: nat, x: Attempt, y: Attempt)
    requires a < |attempts|
    ensures attempts[a := x][a := y] == attempts[a := y]
  {
  }

  lemma DiscardKeepsInv(w: World, which: Option<int>, token: Option<Token>, g: DiscardAnswers)
    requires Inv(w)
    ensures Inv(Discard(w, which, token, g).0)
  {
    var reply := Discard(w, which, token, g).1;
    var sel := Select(w.attempts, which);
    if reply.ConfirmationRequired? {
      IssueKeepsInv(w, sel.value, g.token, g.look.value, g.now + ConfirmationSeconds);
    } else if reply.DiscardDone? || reply == Refused(BranchLeft) {
      var a, e := sel.value, WorktreeRemoved(sel.value, token.value, g.look.value, g.now);
      RemovalKeepsInv(w, a, e);
      if reply.DiscardDone? {
        var left := w.attempts[a].(status := BranchRemains, present := false);
        DeletionKeepsInv(w.(attempts := w.attempts[a := left], log := w.log + [e]), a);
        UpdatedTwice(w.attempts, a, left, left.(status := Discarded, confirmation := None));
      }
    }
  }

  lemma {:induction false} OfNone(log: seq<Effect>, a: nat)
    requires forall k :: 0 <= k < |log| ==> log[k].attempt != a
    ensures Of(log, a) == []
  {
    if log != [] { OfNone(log[..|log| - 1], a); }
  }

  lemma StepKeepsInv(w: World, step: Step)
    requires Inv(w)
    ensures Inv(Next(w, step))
  {
    match step
    case ApplyCall(which, g) => ApplyKeepsInv(w, which, g);
    case DiscardCall(which, token, g) => DiscardKeepsInv(w, which, token, g);
    case SetTerminal(t) =>
    case SetPresent(a, p) =>
      var w1 := Next(w, step);
      forall b | 0 <= b < |w1.attempts| ensures InLine(w1.attempts[b], Of(w1.log, b)) {
        assert InLine(w.attempts[b], Of(w.log, b));
      }
    case AddAttempt(n) =>
      OfNone(w.log, |w.attempts|);
  }

  lemma {:induction false} RunKeepsInv(w: World, steps: seq<Step>)
    requires Inv(w)
    ensures Inv(Run(w, steps))
    decreases |steps|
  {
    if steps != [] {
      StepKeepsInv(w, steps[0]);
      RunKeepsInv(Next(w, steps[0]), steps[1..]);
    }
  }

  /** No effect on an attempt that does not exist. */
  lemma EffectsAreInLine(w: World, a: nat)
    requires Inv(w)
    ensures var mine := Of(w.log, a); EndsItAll(mine) && RemovalsConfirmed(mine) && AppliedAsAgreed(mine)
  {
    if a >= |w.attempts| { OfNone(w.log, a); }
  }

  /**
   * In every run: an attempt's patch reaches the source at most once; after that, or once its branch is deleted,
   * nothing more is done to it, so an applied attempt is never discarded and a discarded one never applied.
   */
  lemma HandedOverOnceInEveryRun(steps: seq<Step>, a: nat, i: nat, j: nat)
    requires var mine := Of(Run(Start, steps).log, a);
             i < |mine| && j < |mine| && (mine[i].PatchApplied? || mine[i].BranchDeleted?)
    ensures j <= i
    ensures var mine := Of(Run(Start, steps).log, a); mine[j].PatchApplied? || mine[j].BranchDeleted? ==> i == j
  {
    RunKeepsInv(Start, steps);
    EffectsAreInLine(Run(Start, steps), a);
  }

  /** In every run: a worktree is removed only with the last token issued for it, in time, and unchanged since. */
  lemma RemovalsAreConfirmedInEveryRun(steps: seq<Step>, a: nat, k: nat)
    requires var mine := Of(Run(Start, steps).log, a); k < |mine| && mine[k].WorktreeRemoved?
    ensures Confirmed(Of(Run(Start, steps).log, a), k)
  {
    RunKeepsInv(Start, steps);
    EffectsAreInLine(Run(Start, steps), a);
  }

  /**
   * In every run: a patch reaches the source only if the nine things seen just before agree on it: it was read twice
   * and is complete, the source was clean and at the same head twice, the patch fits, and three inspections agree.
   * Until then the attempt had been neither applied nor discarded.
   */
  lemma AppliedAsAgreedInEveryRun(steps: seq<Step>, a: nat, k: nat)
    requires var mine := Of(Run(Start, steps).log, a); k < |mine| && mine[k].PatchApplied?
    ensures var mine := Of(Run(Start, steps).log, a);
            && Agreed(mine[..k], mine[k].patch)
            && forall j :: 0 <= j < k ==> !mine[j].PatchApplied? && !mine[j].BranchDeleted?
  {
    RunKeepsInv(Start, steps);
    EffectsAreInLine(Run(Start, steps), a);
  }

  /** And such a run is there: the one attempt of a task that is over, with everything in order, is applied. */
  lemma PatchesReachTheSource(number: int, g: ApplyAnswers)
    requires AllInOrder(g)
    ensures var w := Run(Start, [AddAttempt(number), SetTerminal(true), ApplyCall(Some(number), g)]);
      w.log != [] && w.log[|w.log| - 1] == PatchApplied(0, g.patch.value)
      && w.attempts != [] && w.attempts[0].status == Applied
  {
    var s1, s2, s3 := AddAttempt(number), SetTerminal(true), ApplyCall(Some(number), g);
    var item := Attempt(number, Open, None, true);
    var w := World(true, [item], []);
    assert Next(Next(Start, s1), s2) == w by { assert [] + [item] == [item]; }
    SelectsExactlyWhen([item], Some(number), 0);
    AppliesExactlyWhen(w, Some(number), 0, g);
    assert [s1, s2, s3][1..] == [s2, s3] && [s2, s3][1..] == [s3] && [s3][1..] == [];
    assert Run(w, [s3]) == Run(Next(w, s3), []) == Next(w, s3);
    assert Run(Next(Start, s1), [s2, s3]) == Run(w, [s3]);
  }

  // ---- A removed worktree ----

  /** Nobody puts the worktree of `a` back. */
  ghost predicate NotPutBack(steps: seq<Step>, a: nat) {
    forall k :: 0 <= k < |steps| ==> !(steps[k].SetPresent? && steps[k].attempt == a && steps[k].present)
  }

  /** Nothing was done to `a`, and it is still gone. */
  ghost predicate LeftAlone(w: World, w1: World, a: nat) {
    && a < |w.attempts| <= |w1.attempts| && w1.attempts[a].present == w.attempts[a].present
    && Of(w1.log, a) == Of(w.log, a)
  }

  lemma ApplyLeavesTheGone(w: World, which: Option<int>, g: ApplyAnswers, a: nat)
    requires a < |w.attempts| && !w.attempts[a].present
    ensures LeftAlone(w, Apply(w, which, g).0, a)
  {
    var sel := Select(w.attempts, which);
    if sel.Some? && w.attempts[sel.value].status in {Open, BranchRemains} {
      var b := sel.value;
      var seen := Sights(b, w.attempts[b].present, g);
      OfAll(w.log, seen, b, a);
      OfLast(w.log + seen, PatchApplied(b, if g.patch.Some? then g.patch.value else NoChanges), a);
      if b == a {
        assert seen == [] && Of(w.log, a) + seen == Of(w.log, a);
        assert ApplyFault(w.attempts[b].present, g).Some?;
      }
    }
  }

  lemma DiscardLeavesTheGone(w: World, which: Option<int>, token: Option<Token>, g: DiscardAnswers, a: nat)
    requires a < |w.attempts| && !w.attempts[a].present
    ensures LeftAlone(w, Discard(w, which, token, g).0, a)
  {
    var reply, sel := Discard(w, which, token, g).1, Select(w.attempts, which);
    if reply.ConfirmationRequired? {
      OfLast(w.log, TokenIssued(sel.value, g.token, g.look.value, g.now + ConfirmationSeconds), a);
      assert sel.value != a;
    } else if reply.DiscardDone? || reply == Refused(BranchLeft) {
      var e := WorktreeRemoved(sel.value, token.value, g.look.value, g.now);
      OfLast(w.log, e, a);
      OfLast(w.log + [e], BranchDeleted(sel.value), a);
      assert sel.value != a;
    }
  }

  lemma GoneForAStep(w: World, step: Step, a: nat)
    requires a < |w.attempts| && !w.attempts[a].present
    requires !(step.SetPresent? && step.attempt == a && step.present)
    ensures LeftAlone(w, Next(w, step), a)
  {
    match step
    case ApplyCall(which, g) => ApplyLeavesTheGone(w, which, g, a);
    case DiscardCall(which, token, g) => DiscardLeavesTheGone(w, which, token, g, a);
    case _ =>
  }

  /** Unless somebody puts it back, nothing more is done to an attempt whose worktree is gone. */
  lemma {:induction false} GoneStaysGone(w: World, steps: seq<Step>, a: nat)
    requires a < |w.attempts| && !w.attempts[a].present && NotPutBack(steps, a)
    ensures LeftAlone(w, Run(w, steps), a)
    decreases |steps|
  {
    if steps != [] {
      GoneForAStep(w, steps[0], a);
      GoneStaysGone(Next(w, steps[0]), steps[1..], a);
    }
  }

  // ---- Asking and confirming ----

  /** Asking without a token and then answering with one discards exactly when it is the token given, not more than
      three hundred seconds later, with nothing changed. */
  lemma AskedAndConfirmed(w: World, which: Option<int>, ask: DiscardAnswers, token: Token, confirm: DiscardAnswers)
    requires Discard(w, which, None, ask).1.ConfirmationRequired? && confirm.removes && confirm.deletes
    ensures var w1 := Discard(w, which, None, ask).0;
      Discard(w1, which, Some(token), confirm).1 == DiscardDone
      <==> token == ask.token && confirm.now <= ask.now + 300 && confirm.look == ask.look
  {
    var w1, a := Discard(w, which, None, ask).0, Select(w.attempts, which).value;
    SelectKept(w.attempts, w1.attempts, which);
    AsksExactlyWhen(w, which, a, ask);
    DiscardsExactlyWhen(w1, which, a, token, confirm);
  }

  lemma {:induction false} MatchesKept(before: seq<Attempt>, after: seq<Attempt>, number: int)
    requires |before| == |after| && forall k :: 0 <= k < |before| ==> before[k].number == after[k].number
    ensures Matches(before, number) == Matches(after, number)
  {
    if before != [] { MatchesKept(before[..|before| - 1], after[..|after| - 1], number); }
  }

  lemma SelectKept(before: seq<Attempt>, after: seq<Attempt>, which: Option<int>)
    requires |before| == |after| && forall k :: 0 <= k < |before| ==> before[k].number == after[k].number
    ensures Select(before, which) == Select(after, which)
  {
    if which.Some? { MatchesKept(before, after, which.value); }
  }

  // ---- The handoff ----

  class WorktreeHandoff {
    var terminal: bool
    var attempts: seq<Attempt>
    ghost var log: seq<Effect>

    ghost function Contents(): World
      reads this
    {
      World(terminal, attempts, log)
    }

    constructor ()
      ensures Contents() == Start
    {
      terminal, attempts, log := false, [], [];
    }

    method FindMatches(number: int) returns (found: seq<nat>)
      ensures found == Matches(attempts, number)
    {
      found := [];
      for n := 0 to |attempts|
        invariant found == Matches(attempts[..n], number)
      {
        assert attempts[..n + 1][..n] == attempts[..n];
        if attempts[n].number == number { found := found + [n]; }
      }
      assert attempts[..|attempts|] == attempts;
    }

    method SelectAttempt(which: Option<int>) returns (a: Option<nat>)
      ensures a == Select(attempts, which)
    {
      if which.None? { return if |attempts| == 1 then Some(0) else None; }
      var found := FindMatches(which.value);
      a := if |found| == 1 then Some(found[0]) else None;
    }

    method ApplyAttempt(which: Option<int>, g: ApplyAnswers) returns (reply: Reply)
      modifies this
      ensures (Contents(), reply) == Apply(old(Contents()), which, g)
    {
      var sel := SelectAttempt(which);
      if sel.None? { return Refused(UnknownAttempt); }
      if !terminal { return Refused(NotTerminal); }
      var a := sel.value;
      var item := attempts[a];
      if item.status == Applied { return AlreadyApplied; }
      if item.status == Discarded { return Refused(WasDiscarded); }
      ghost var was := log;
      assert was + [] == was;
      if !item.present || g.first.None? { return Refused(CannotInspect); }
      ghost var seen := [Inspected(a, g.first.value), SourceSeen(a, g.source)];
      log := was + seen;
      if g.source.None? { return Refused(SourceDirty); }
      if g.patch.None? { return Refused(CannotInspect); }
      var patch := g.patch.value;
      seen := seen + [PatchRead(a, patch)];
      log := was + seen;
      if g.excluded.None? { return Refused(CannotInspect); }
      seen := seen + [LeftOut(a, g.excluded.value)];
      log := was + seen;
      if g.excluded.value != [] { return Refused(Incomplete); }
      if patch == NoChanges { return Refused(NoPatch); }
      if !g.checks { return Refused(DoesNotApply); }
      seen := seen + [PatchFits(a, patch), SourceSeen(a, g.sourceAgain)];
      log := was + seen;
      if g.sourceAgain != g.source { return Refused(SourceChanged); }
      if g.second.None? { return Refused(CannotInspect); }
      seen := seen + [Inspected(a, g.second.value)];
      log := was + seen;
      if g.patchAgain.None? { return Refused(CannotInspect); }
      seen := seen + [PatchRead(a, g.patchAgain.value)];
      log := was + seen;
      if g.patchAgain.value != patch || g.second.value.head != g.first.value.head { return Refused(WorkerChanged); }
      if g.third.None? { return Refused(CannotInspect); }
      seen := seen + [Inspected(a, g.third.value)];
      log := was + seen;
      if g.third.value.status != g.first.value.status { return Refused(WorkerChanged); }
      if !g.applies { return Refused(ApplyFailed); }
      log := log + [PatchApplied(a, patch)];
      attempts := attempts[a := item.(status := Applied)];
      reply := ApplyDone(patch);
    }

    method DiscardAttempt(which: Option<int>, token: Option<Token>, g: DiscardAnswers) returns (reply: Reply)
      modifies this
      ensures (Contents(), reply) == Discard(old(Contents()), which, token, g)
    {
      var sel := SelectAttempt(which);
      if sel.None? { return Refused(UnknownAttempt); }
      if !terminal { return Refused(NotTerminal); }
      var a := sel.value;
      var item := attempts[a];
      if item.status == Discarded { return AlreadyDiscarded; }
      if item.status == Applied { return Refused(WasApplied); }
      if !item.present || g.look.None? { return Refused(CannotInspect); }
      if token.None? {
        var expires := g.now + ConfirmationSeconds;
        attempts := attempts[a := item.(confirmation := Some(Confirmation(g.token, g.look.value, expires)))];
        log := log + [TokenIssued(a, g.token, g.look.value, expires)];
        return ConfirmationRequired(g.token);
      }
      if item.confirmation.None? || item.confirmation.value.token != token.value { return Refused(BadToken); }
      if g.now > item.confirmation.value.expires { return Refused(Expired); }
      if item.confirmation.value.digest != g.look.value { return Refused(ChangedSinceConfirmation); }
      if !g.removes { return Refused(RemoveFailed); }
      log := log + [WorktreeRemoved(a, token.value, g.look.value, g.now)];
      if !g.deletes {
        attempts := attempts[a := item.(status := BranchRemains, present := false)];
        return Refused(BranchLeft);
      }
      log := log + [BranchDeleted(a)];
      attempts := attempts[a := item.(status := Discarded, confirmation := None, present := false)];
      reply := DiscardDone;
    }
  }
}
