/// What one run of the action does to the outside world: the outward calls it makes,
/// in order, and how the run ends. A run stops at the first call the outside world
/// rejects (a command that exits non-zero, an API request that fails): that error's
/// message becomes the run's failure message.
module Effects {
  import opened JsString

  /** The repository an API request is addressed to. */
  datatype Target = Target(owner: string, repo: string)

  datatype Reaction = Eyes | Rocket

  /** An outward call: a reaction on a comment, a new comment on an issue, or a command. */
  datatype Effect =
    | React(target: Target, commentId: int, content: Reaction)
    | Comment(target: Target, issue: nat, body: string)
    | Exec(command: string, args: seq<string>)

  /** How the run ends: normally, or through `core.setFailed(message)`. */
  datatype Outcome = Success | Failed(message: string)

  datatype Trace = Trace(effects: seq<Effect>, outcome: Outcome)

  /** The outward call at position `at` (counted from 0) is rejected with `message`. */
  datatype Fault = Fault(at: nat, message: string)

  predicate Rejects(fault: Option<Fault>, k: nat) {
    fault.Some? && fault.value.at == k
  }

  /** No call before position k is rejected. */
  predicate SpareBefore(fault: Option<Fault>, k: nat) {
    fault.None? || fault.value.at >= k
  }

  /** The run that actually happens when the run that would happen if every call succeeded
      meets a fault: it ends at the rejected call, with the rejection's message. */
  function Abort(plan: Trace, fault: Option<Fault>): (r: Trace)
    ensures |r.effects| <= |plan.effects| && r.effects == plan.effects[..|r.effects|]
    ensures SpareBefore(fault, |plan.effects|) ==> r == plan
    ensures !SpareBefore(fault, |plan.effects|) ==>
              |r.effects| == fault.value.at + 1 && r.outcome == Failed(fault.value.message)
  {
    if SpareBefore(fault, |plan.effects|) then plan
    else Trace(plan.effects[..fault.value.at + 1], Failed(fault.value.message))
  }

  /** Starting after the calls `before`, the calls `calls` were attempted in order, and
      `after` records what was made: all of them, or those up to and including the one
      the fault rejects (`rejected`). */
  ghost predicate Ran(before: seq<Effect>, calls: seq<Effect>, fault: Option<Fault>, after: seq<Effect>, rejected: bool) {
    if rejected then
      |before| < |after| <= |before| + |calls| && after == before + calls[..|after| - |before|]
      && Rejects(fault, |after| - 1)
    else
      after == before + calls && SpareBefore(fault, |after|)
  }

  /** One awaited outward call: it is recorded after the calls made so far, and the
      fault says whether the outside world rejects it. */
  method Call(done: seq<Effect>, e: Effect, fault: Option<Fault>) returns (trace: seq<Effect>, rejected: bool)
    requires SpareBefore(fault, |done|)
    ensures trace == done + [e]
    ensures rejected <==> Rejects(fault, |done|)
    ensures Ran(done, [e], fault, trace, rejected)
  {
    trace := done + [e];
    rejected := fault.Some? && fault.value.at == |done|;
  }

  /** Two stages run one after the other are one stage running both lists of calls. */
  lemma RanThen(before: seq<Effect>, first: seq<Effect>, mid: seq<Effect>, second: seq<Effect>,
                fault: Option<Fault>, after: seq<Effect>, rejected: bool)
    requires Ran(before, first, fault, mid, false)
    requires Ran(mid, second, fault, after, rejected)
    ensures Ran(before, first + second, fault, after, rejected)
  {
    if rejected {
      var n := |after| - |mid|;
      assert (first + second)[..|after| - |before|] == first + second[..n];
    }
  }

  /** Extending a stage by the next planned call. */
  lemma RanNext(before: seq<Effect>, planned: seq<Effect>, j: nat, mid: seq<Effect>,
                fault: Option<Fault>, after: seq<Effect>, rejected: bool)
    requires j < |planned|
    requires Ran(before, planned[..j], fault, mid, false)
    requires Ran(mid, [planned[j]], fault, after, rejected)
    ensures Ran(before, planned[..j + 1], fault, after, rejected)
  {
    assert planned[..j + 1] == planned[..j] + [planned[j]];
    RanThen(before, planned[..j], mid, [planned[j]], fault, after, rejected);
  }

  /** One more call of a planned list: the stage so far grows by it, and when it is
      rejected the whole planned list has been cut short there. */
  lemma RanStep(before: seq<Effect>, done: seq<Effect>, whole: seq<Effect>, mid: seq<Effect>, e: Effect,
                fault: Option<Fault>, after: seq<Effect>, rejected: bool)
    requires |done| < |whole| && whole[..|done| + 1] == done + [e]
    requires Ran(before, done, fault, mid, false)
    requires Ran(mid, [e], fault, after, rejected)
    ensures Ran(before, done + [e], fault, after, rejected)
    ensures rejected ==> Ran(before, whole, fault, after, true)
  {
    RanThen(before, done, mid, [e], fault, after, rejected);
    if rejected {
      RanPrefix(before, done + [e], whole, fault, after);
    }
  }

  /** Attempting no calls changes nothing. */
  lemma RanNothing(before: seq<Effect>, fault: Option<Fault>)
    requires SpareBefore(fault, |before|)
    ensures Ran(before, [], fault, before, false)
  {
  }

  /** A stage cut short by a rejection is also a cut-short run of any longer list of calls
      that begins with the stage's calls. */
  lemma RanPrefix(before: seq<Effect>, calls: seq<Effect>, whole: seq<Effect>, fault: Option<Fault>, after: seq<Effect>)
    requires Ran(before, calls, fault, after, true)
    requires |calls| <= |whole| && calls == whole[..|calls|]
    ensures Ran(before, whole, fault, after, true)
  {
    assert calls[..|after| - |before|] == whole[..|after| - |before|];
  }

  /** The stages of a four-stage run are prefixes of the whole run. */
  lemma Prefixes(a: seq<Effect>, b: seq<Effect>, c: seq<Effect>, d: seq<Effect>)
    ensures var whole := a + b + c + d;
            && a == whole[..|a|] && a + b == whole[..|a + b|] && a + b + c == whole[..|a + b + c|]
  {
    var whole := a + b + c + d;
    assert whole == (a + b + c) + d;
    assert whole == (a + b) + (c + d);
    assert whole == a + (b + c + d);
  }

  /** A whole run attempted from the start is the planned run cut at its first rejected call. */
  lemma RanAbort(plan: Trace, fault: Option<Fault>, after: seq<Effect>, rejected: bool)
    requires Ran([], plan.effects, fault, after, rejected)
    ensures rejected ==> Abort(plan, fault) == Trace(after, Failed(fault.value.message))
    ensures !rejected ==> Abort(plan, fault) == plan && after == plan.effects
  {
  }

  /** The calls `pre` followed by the run `t`. */
  function Then(pre: seq<Effect>, t: Trace): Trace {
    Trace(pre + t.effects, t.outcome)
  }

  /** Starting after `before`, the run `plan` was attempted: either every call was made
      and the run ended as planned, or it stopped at the rejected call with that
      rejection's message. */
  ghost predicate Performed(before: seq<Effect>, plan: Trace, fault: Option<Fault>, after: seq<Effect>, outcome: Outcome) {
    || (Ran(before, plan.effects, fault, after, false) && outcome == plan.outcome)
    || (Ran(before, plan.effects, fault, after, true) && outcome == Failed(fault.value.message))
  }

  /** A run that makes no call ends as planned. */
  lemma PerformedEnd(before: seq<Effect>, outcome: Outcome, fault: Option<Fault>)
    requires SpareBefore(fault, |before|)
    ensures Performed(before, Trace([], outcome), fault, before, outcome)
  {
  }

  /** Calls made in full, then a run: together, the run that starts with those calls. */
  lemma PerformedThen(before: seq<Effect>, pre: seq<Effect>, mid: seq<Effect>, t: Trace,
                      fault: Option<Fault>, after: seq<Effect>, outcome: Outcome)
    requires Ran(before, pre, fault, mid, false)
    requires Performed(mid, t, fault, after, outcome)
    ensures Performed(before, Then(pre, t), fault, after, outcome)
  {
    if Ran(mid, t.effects, fault, after, false) && outcome == t.outcome {
      RanThen(before, pre, mid, t.effects, fault, after, false);
    } else {
      RanThen(before, pre, mid, t.effects, fault, after, true);
    }
  }

  /** Calls cut short by a rejection end every run that starts with them. */
  lemma PerformedCut(before: seq<Effect>, pre: seq<Effect>, t: Trace, fault: Option<Fault>, after: seq<Effect>)
    requires Ran(before, pre, fault, after, true)
    ensures Performed(before, Then(pre, t), fault, after, Failed(fault.value.message))
  {
    assert (pre + t.effects)[..|pre|] == pre;
    RanPrefix(before, pre, pre + t.effects, fault, after);
  }

  /** A run attempted from the start is the planned run cut at its first rejected call. */
  lemma PerformedAbort(plan: Trace, fault: Option<Fault>, after: seq<Effect>, outcome: Outcome)
    requires Performed([], plan, fault, after, outcome)
    ensures Trace(after, outcome) == Abort(plan, fault)
  {
    if Ran([], plan.effects, fault, after, false) && outcome == plan.outcome {
      RanAbort(plan, fault, after, false);
    } else {
      RanAbort(plan, fault, after, true);
    }
  }
}
