/**
 The five-node graph (agent/graph.py): its routes, and what any run of it can do when every
 node answers as it may.
 */
module Graph {
  import opened Prelude
  import opened RecipeRenderer
  import opened Reason
  import Protocol

  datatype Node = Observe | Recall | Propose | Gate | Act | End

  datatype Phase = Initial | Observed | Recalled | Reasoned | GateOpen | Replan | Finished

  /** The part of the agent's state that routing and the bounds depend on. */
  datatype State = State(phase: Phase, fingerprint: bool, proposal: Option<Args>, approved: bool,
                         candidate: Option<string>, replans: nat)

  datatype GateVerdict = Approved | Rejected | Expired

  /** How one execution of the next node turns out; `Raises` ends the run with an exception. */
  datatype Outcome =
    | Anomaly(found: bool, candidate: Option<string>)
    | Recollected
    | Answers(llm: Model, opening: seq<Message>)
    | Verdict(verdict: GateVerdict)
    | Measured(improved: bool)
    | Raises

  function RouteAfterObserve(s: State): Node {
    if s.fingerprint then Recall else End
  }

  function RouteAfterGate(s: State): Node {
    match s.phase
    case GateOpen => Act
    case Replan => Propose
    case _ => End
  }

  function RouteAfterAct(s: State): Node {
    if s.phase == Replan then Propose else End
  }

  function Route(n: Node, s: State): Node {
    match n
    case Observe => RouteAfterObserve(s)
    case Recall => Propose
    case Propose => Gate
    case Gate => RouteAfterGate(s)
    case Act => RouteAfterAct(s)
    case End => End
  }

  function Replanned(s: State): State {
    s.(proposal := None, approved := false, replans := s.replans + 1, phase := Replan)
  }

  /** The state a node returns; None when it raises. A node asked for what it cannot answer raises. */
  function Update(n: Node, s: State, o: Outcome): Option<State> {
    match (n, o)
    case (Observe, Anomaly(found, candidate)) =>
      Some(s.(phase := Observed, fingerprint := found, candidate := candidate))
    case (Recall, Recollected) => Some(s.(phase := Recalled))
    case (Propose, Answers(llm, opening)) =>
      (match FirstAccepted(opening, llm, s.candidate, MAX_ROUNDS)
       case None => None
       case Some(a) => Some(s.(phase := Reasoned, proposal := Some(a))))
    case (Gate, Verdict(verdict)) =>
      if s.proposal.None? then None
      else if verdict == Approved then Some(s.(phase := GateOpen, approved := true))
      else if verdict == Rejected && s.replans < Protocol.MAX_REPLANS then Some(Replanned(s))
      else Some(s.(phase := Finished, approved := false))
    case (Act, Measured(improved)) =>
      if !s.approved then None
      else if !improved && s.replans < Protocol.MAX_REPLANS then Some(Replanned(s))
      else Some(s.(phase := Finished))
    case _ => None
  }

  /** A run in progress, with what it has used. */
  datatype Run = Run(node: Node, state: State, executions: nat, proposals: nat, completions: nat, raised: bool)

  const START: Run := Run(Observe, State(Initial, false, None, false, None, 0), 0, 0, 0, false)

  function Advance(r: Run, o: Outcome): Run {
    if r.node == End then r
    else
      var asked :=
        if r.node == Propose && o.Answers? then RoundsUsed(o.opening, o.llm, r.state.candidate, MAX_ROUNDS) else 0;
      var spent := r.(executions := r.executions + 1, completions := r.completions + asked);
      match Update(r.node, r.state, o)
      case None => spent.(node := End, raised := true)
      case Some(s) =>
        var proposed := if r.node == Propose then 1 else 0;
        spent.(node := Route(r.node, s), state := s, proposals := r.proposals + proposed)
  }

  function RunAll(r: Run, os: seq<Outcome>): Run {
    if |os| == 0 then r else Advance(RunAll(r, os[..|os| - 1]), os[|os| - 1])
  }

  function PositionLeft(n: Node): nat {
    match n
    case Observe => 5
    case Recall => 4
    case Propose => 3
    case Gate => 2
    case Act => 1
    case End => 0
  }

  /** Node executions left at most: the rest of this pass and three for every re-plan left. */
  function Left(r: Run): int {
    if r.node == End then 0 else PositionLeft(r.node) + 3 * (Protocol.MAX_REPLANS - r.state.replans)
  }

  /** Proposals still possible. */
  function ProposalsLeft(r: Run): int {
    if r.node == End then 0
    else Protocol.MAX_REPLANS - r.state.replans + if PositionLeft(r.node) >= 3 then 1 else 0
  }

  predicate ProposalOk(s: State) {
    s.proposal.Some? && Reject(s.candidate, s.proposal).None?
  }

  /** Nothing is gated but an acceptable proposal, nothing acted on but an approved one. */
  predicate Inv(r: Run) {
    && r.state.replans <= Protocol.MAX_REPLANS
    && (r.raised ==> r.node == End)
    && (r.node == Gate ==> ProposalOk(r.state))
    && (r.node == Act ==> ProposalOk(r.state) && r.state.approved)
    && r.executions + Left(r) <= 11
    && r.proposals + ProposalsLeft(r) <= 3
    && r.completions + 3 * ProposalsLeft(r) <= 9
  }

  /** Every execution of a node uses up some of what is left. */
  lemma AdvanceOk(r: Run, o: Outcome)
    requires Inv(r)
    ensures Inv(Advance(r, o))
    ensures r.node != End ==> Left(Advance(r, o)) < Left(r)
  {
    hide Reject, FirstAccepted, RoundsUsed;
    if o.Answers? {
      NoneAccepted(o.opening, o.llm, r.state.candidate, MAX_ROUNDS);
    }
  }

  lemma {:induction false} RunOk(r: Run, os: seq<Outcome>)
    requires Inv(r)
    ensures Inv(RunAll(r, os))
    ensures RunAll(r, os).node == End || Left(RunAll(r, os)) + |os| <= Left(r)
  {
    hide Inv, Left;
    if |os| > 0 {
      RunOk(r, os[..|os| - 1]);
      AdvanceOk(RunAll(r, os[..|os| - 1]), os[|os| - 1]);
    }
  }

  /**
   However every node behaves, a run ends within 11 node executions, 3 proposals and 9
   completions, and whatever reaches the gate is schema-valid and not contradicted.
   */
  lemma EveryRunTerminates(os: seq<Outcome>)
    ensures
      var r := RunAll(START, os);
      && r.executions <= 11 && r.proposals <= 3 && r.completions <= 9
      && (|os| >= 11 ==> r.node == End)
      && (r.node == Gate || r.node == Act ==> ProposalOk(r.state))
  {
    RunOk(START, os);
    hide RunAll, Reject;
    var r := RunAll(START, os);
    assert r.node != End ==> Left(r) > 0;
  }

  /** A run picked up from a checkpoint ends too, within what its state had left. */
  lemma ResumedRunTerminates(r: Run, os: seq<Outcome>)
    requires Inv(r) && |os| >= Left(r)
    ensures RunAll(r, os).node == End
  {
    RunOk(r, os);
    hide RunAll, Reject;
    assert RunAll(r, os).node != End ==> Left(RunAll(r, os)) > 0;
  }

  /** The gate re-plans exactly on a rejection with budget left; an expiry always ends the run. */
  lemma GateReplansIff(r: Run, verdict: GateVerdict)
    requires Inv(r) && r.node == Gate
    ensures Advance(r, Verdict(verdict)).node == Propose <==>
      verdict == Rejected && r.state.replans < 2
    ensures Advance(r, Verdict(verdict)).node == Act <==> verdict == Approved
    ensures verdict == Expired ==> Advance(r, Verdict(verdict)).node == End
  {
    hide Reject;
  }

  lemma {:induction false} RunConcat(r: Run, xs: seq<Outcome>, ys: seq<Outcome>)
    ensures RunAll(r, xs + ys) == RunAll(RunAll(r, xs), ys)
    decreases |ys|
  {
    hide Advance;
    if |ys| == 0 {
      assert xs + ys == xs;
    } else {
      RunConcat(r, xs, ys[..|ys| - 1]);
      assert (xs + ys)[..|xs + ys| - 1] == xs + ys[..|ys| - 1];
    }
  }

  lemma {:induction false} EndedStays(r: Run, os: seq<Outcome>)
    requires r.node == End
    ensures RunAll(r, os) == r
  {
    if |os| > 0 {
      EndedStays(r, os[..|os| - 1]);
    }
  }

  /** Whatever could have followed, an expiry at the gate ends the run: nothing is proposed or asked again. */
  lemma ExpiryEndsTheRun(os: seq<Outcome>, more: seq<Outcome>)
    requires RunAll(START, os).node == Gate
    ensures
      var r, t := RunAll(START, os), RunAll(START, os + [Verdict(Expired)] + more);
      && t.node == End && !t.raised && t.executions == r.executions + 1
      && t.proposals == r.proposals && t.completions == r.completions && t.state.replans == r.state.replans
  {
    RunOk(START, os);
    var r := RunAll(START, os);
    GateReplansIff(r, Expired);
    ExpiryOnly(r);
    RunConcat(START, os, [Verdict(Expired)]);
    RunConcat(START, os + [Verdict(Expired)], more);
    assert [Verdict(Expired)][..0] == [] && RunAll(r, []) == r;
    hide Advance, Inv;
    EndedStays(Advance(r, Verdict(Expired)), more);
  }

  lemma ExpiryOnly(r: Run)
    requires Inv(r) && r.node == Gate
    ensures
      var t := Advance(r, Verdict(Expired));
      && !t.raised && t.executions == r.executions + 1
      && t.proposals == r.proposals && t.completions == r.completions && t.state.replans == r.state.replans
  {
    hide Reject;
  }

  /** A probe without an anomaly ends the run at once; with one, the run goes on to propose. */
  lemma NoAnomalyEndsTheRun(candidate: Option<string>, more: seq<Outcome>)
    ensures
      var r := RunAll(START, [Anomaly(false, candidate)] + more);
      r.node == End && !r.raised && r.executions == 1 && r.proposals == 0 && r.completions == 0
    ensures RunAll(START, [Anomaly(true, candidate), Recollected]).node == Propose
  {
    var none, found := [Anomaly(false, candidate)], [Anomaly(true, candidate), Recollected];
    assert none[..0] == [] && found[..1] == [Anomaly(true, candidate)] && found[..1][..0] == [];
    assert RunAll(START, []) == START;
    assert RunAll(START, none) == Advance(START, Anomaly(false, candidate));
    assert RunAll(START, found[..1]) == Advance(START, Anomaly(true, candidate));
    assert RunAll(START, found) == Advance(RunAll(START, found[..1]), Recollected);
    RunConcat(START, none, more);
    EndedStays(RunAll(START, none), more);
  }

  /** The node's work is done and there is nothing more to try. */
  predicate Concludes(r: Run, o: Outcome) {
    match r.node
    case Observe => o.Anomaly? && !o.found
    case Gate => o == Verdict(Expired) || (o == Verdict(Rejected) && r.state.replans == 2)
    case Act => o == Measured(true) || (o == Measured(false) && r.state.replans == 2)
    case _ => false
  }

  /** A rejection or a regression with re-plans left. */
  predicate GoesBack(r: Run, o: Outcome) {
    ((r.node == Gate && o == Verdict(Rejected)) || (r.node == Act && o == Measured(false))) && r.state.replans < 2
  }

  /** One of the three replies is acceptable. */
  predicate SomeAccepted(o: Outcome, candidate: Option<string>) {
    o.Answers? && exists k | 0 <= k < 3 :: AcceptedAt(o.opening, o.llm, candidate, k)
  }

  /** One move of a run in progress, by the node it comes from. */
  lemma MoveIsExplained(r: Run, o: Outcome)
    requires Inv(r) && r.node != End
    ensures
      var t := Advance(r, o);
      && (t.node == Recall <==> r.node == Observe && o.Anomaly? && o.found)
      && (t.node == Propose <==> (r.node == Recall && o.Recollected?) || GoesBack(r, o))
      && (t.node == Act <==> r.node == Gate && o == Verdict(Approved))
      && (t.node == End && !t.raised <==> Concludes(r, o))
      && t.node != Observe
  {
    hide Reject, AcceptedAt, FirstAccepted, RoundsUsed, Left, ProposalsLeft;
  }

  lemma GateIsExplained(r: Run, o: Outcome)
    requires r.node != End
    ensures Advance(r, o).node == Gate <==> r.node == Propose && SomeAccepted(o, r.state.candidate)
  {
    if o.Answers? {
      NoneAccepted(o.opening, o.llm, r.state.candidate, 3);
    }
    hide Reject, AcceptedAt, FirstAccepted, RoundsUsed;
  }

  /** How a run that has not ended can come to each node, or end, or raise. */
  lemma EveryMoveIsExplained(front: seq<Outcome>, o: Outcome)
    requires RunAll(START, front).node != End
    ensures
      var r, t := RunAll(START, front), RunAll(START, front + [o]);
      && (t.node == Recall <==> r.node == Observe && o.Anomaly? && o.found)
      && (t.node == Propose <==> (r.node == Recall && o.Recollected?) || GoesBack(r, o))
      && (t.node == Gate <==> r.node == Propose && SomeAccepted(o, r.state.candidate))
      && (t.node == Act <==> r.node == Gate && o == Verdict(Approved))
      && (t.node == End && !t.raised <==> Concludes(r, o))
      && t.node != Observe
  {
    StartOk();
    RunOk(START, front);
    assert (front + [o])[..|front|] == front;
    assert RunAll(START, front + [o]) == Advance(RunAll(START, front), o);
    hide RunAll, Advance, Inv, GoesBack, Concludes, SomeAccepted;
    MoveIsExplained(RunAll(START, front), o);
    GateIsExplained(RunAll(START, front), o);
  }

  /** A person rejected, or the measurement showed a regression. */
  predicate Setback(r: Run, o: Outcome) {
    (r.node == Gate && o == Verdict(Rejected)) || (r.node == Act && o == Measured(false))
  }

  function Setbacks(os: seq<Outcome>): nat {
    if |os| == 0 then 0
    else
      var front := os[..|os| - 1];
      Setbacks(front) + if Setback(RunAll(START, front), os[|os| - 1]) then 1 else 0
  }

  lemma SetbackStep(r: Run, o: Outcome)
    requires Inv(r)
    ensures
      var t, spent := Advance(r, o), r.state.replans == Protocol.MAX_REPLANS;
      && t.state.replans == r.state.replans + (if Setback(r, o) && !spent then 1 else 0)
      && (Setback(r, o) && spent ==> t.node == End)
      && (r.node == End ==> t == r && !Setback(r, o))
  {
    hide Reject, FirstAccepted, RoundsUsed;
  }

  /**
   Over every run, each rejection and each measured regression is re-planned while the budget
   lasts, and nothing else is.
   */
  lemma {:induction false} ReplansCountSetbacks(os: seq<Outcome>)
    ensures
      var r := RunAll(START, os);
      && Setbacks(os) <= 3
      && r.state.replans == (if Setbacks(os) <= 2 then Setbacks(os) else 2)
      && (Setbacks(os) > 2 ==> r.node == End)
  {
    hide Inv, Advance, Setback;
    if |os| > 0 {
      var front := os[..|os| - 1];
      ReplansCountSetbacks(front);
      StartOk();
      RunOk(START, front);
      SetbackStep(RunAll(START, front), os[|os| - 1]);
    }
  }

  lemma StartOk()
    ensures Inv(START)
  {
  }

  // ----- the bounds are exact

  const GOOD: Args := Args(Some("r"), Some("h"), Some("analyze_table"), Some(Parameters(Some("t"), [], None)),
                           Some("e"), Some("low"), Some(0.5))

  /** Prose twice, then a good proposal. */
  const SLOW: Outcome := Answers((m: seq<Message>) => if |m| >= 3 then Some(GOOD) else None, [Context("c")])

  lemma SlowAnswers()
    ensures FirstAccepted(SLOW.opening, SLOW.llm, None, MAX_ROUNDS) == Some(GOOD)
    ensures RoundsUsed(SLOW.opening, SLOW.llm, None, MAX_ROUNDS) == 3
  {
    var start, llm := SLOW.opening, SLOW.llm;
    assert Conversation(start, llm, None, 1) == [Context("c"), Pushback(Prose)];
    assert Conversation(start, llm, None, 2) == [Context("c"), Pushback(Prose), Pushback(Prose)];
    assert !AcceptedAt(start, llm, None, 0) && !AcceptedAt(start, llm, None, 1);
    assert KindOf("analyze_table").Some?;
    assert "low" in ["low", "medium", "high"];
    assert SchemaValid(GOOD) && Falsification(None, GOOD) == None;
    assert Reject(None, Some(GOOD)).None?;
    assert AcceptedAt(start, llm, None, 2);
    assert RejectedBefore(start, llm, None, 2);
    AcceptedIsKept(start, llm, None, 2, MAX_ROUNDS);
  }

  /** One pass of proposing slowly, being approved and measuring a regression. */
  lemma FailingPass(r: Run)
    requires r.node == Propose && r.state.candidate.None?
    ensures
      var t := Advance(Advance(Advance(r, SLOW), Verdict(Approved)), Measured(false));
      && t.executions == r.executions + 3 && t.proposals == r.proposals + 1 && t.completions == r.completions + 3
      && t.state.candidate.None? && t.raised == r.raised
      && (r.state.replans < Protocol.MAX_REPLANS ==> t.node == Propose && t.state.replans == r.state.replans + 1)
      && (r.state.replans >= Protocol.MAX_REPLANS ==> t.node == End)
  {
    SlowAnswers();
    hide FirstAccepted, RoundsUsed, Reject;
  }

  const PASS: seq<Outcome> := [SLOW, Verdict(Approved), Measured(false)]

  lemma RunPass(r: Run, os: seq<Outcome>)
    ensures RunAll(r, os + PASS) == Advance(Advance(Advance(RunAll(r, os), SLOW), Verdict(Approved)), Measured(false))
  {
    hide Advance;
    var all := os + PASS;
    var two, one := all[..|os| + 2], all[..|os| + 1];
    assert all[..|all| - 1] == two && two[..|two| - 1] == one && one[..|one| - 1] == os;
    assert RunAll(r, all) == Advance(RunAll(r, two), Measured(false));
    assert RunAll(r, two) == Advance(RunAll(r, one), Verdict(Approved));
    assert RunAll(r, one) == Advance(RunAll(r, os), SLOW);
  }

  const OPEN: seq<Outcome> := [Anomaly(true, None), Recollected]

  lemma Opened()
    ensures
      var r := RunAll(START, OPEN);
      && r.node == Propose && r.state.candidate.None? && r.state.replans == 0 && !r.raised
      && r.executions == 2 && r.proposals == 0 && r.completions == 0
  {
    assert OPEN[..1] == [Anomaly(true, None)] && OPEN[..1][..0] == [];
    assert RunAll(START, OPEN[..1][..0]) == START;
    assert RunAll(START, OPEN[..1]) == Advance(START, Anomaly(true, None));
    assert RunAll(START, OPEN) == Advance(RunAll(START, OPEN[..1]), Recollected);
  }

  /** Two regressions and a last one use up every bound at once. */
  lemma BoundsAreReached() returns (os: seq<Outcome>)
    ensures
      var r := RunAll(START, os);
      r.executions == 11 && r.proposals == 3 && r.completions == 9 && r.node == End && !r.raised
  {
    Opened();
    RunPass(START, OPEN);
    RunPass(START, OPEN + PASS);
    RunPass(START, OPEN + PASS + PASS);
    hide RunAll, Advance;
    FailingPass(RunAll(START, OPEN));
    FailingPass(RunAll(START, OPEN + PASS));
    FailingPass(RunAll(START, OPEN + PASS + PASS));
    os := OPEN + PASS + PASS + PASS;
  }
}
