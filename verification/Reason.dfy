/**
 The reasoning node (agent/nodes/reason.py with agent/schemas.py): ask the model, reject
 what is malformed or contradicts the optimizer, and ask again with the rejection, a
 bounded number of times. The model is any function of the conversation so far.
 */
module Reason {
  import opened Prelude
  import opened RecipeRenderer

  const MAX_ROUNDS: nat := 3

  /** The arguments of a `propose_remediation` call, any of which may be missing. */
  datatype Args = Args(reasoning: Option<string>, hypothesis: Option<string>, kind: Option<string>,
                       parameters: Option<Parameters>, effect: Option<string>, risk: Option<string>,
                       confidence: Option<real>)

  /** A completion: a tool call, or prose. */
  type Reply = Option<Args>

  datatype Rejection = Prose | SchemaInvalid | Contradicted

  datatype Message = Context(text: string) | ReplanNote(text: string) | Pushback(why: Rejection)

  type Model = seq<Message> -> Reply

  /** `Proposal.model_validate`, on the fields the model supplies. */
  predicate SchemaValid(a: Args) {
    && a.reasoning.Some? && |a.reasoning.value| > 0
    && a.hypothesis.Some? && a.effect.Some? && a.parameters.Some?
    && a.kind.Some? && KindOf(a.kind.value).Some?
    && a.risk.Some? && a.risk.value in ["low", "medium", "high"]
    && a.confidence.Some? && 0.0 <= a.confidence.value <= 1.0
  }

  /** Python's `s.split(',')`. */
  function SplitCommas(s: string): seq<string> {
    if |s| == 0 then [""]
    else
      var parts := SplitCommas(s[..|s| - 1]);
      var c := s[|s| - 1];
      if c == ',' then parts + [""] else Extend(parts, c)
  }

  function Extend(parts: seq<string>, c: char): seq<string> {
    if |parts| == 0 then [[c]] else parts[..|parts| - 1] + [parts[|parts| - 1] + [c]]
  }

  function Recommended(candidate: string): set<string> {
    set part | part in SplitCommas(candidate) && Strip(part) != "" :: Strip(part)
  }

  function ProposedColumns(a: Args): seq<string> {
    if a.parameters.Some? then a.parameters.value.columns else []
  }

  /** `_compute_falsification`: None when there is no recommendation to compare with. */
  function Falsification(candidate: Option<string>, a: Args): Option<bool> {
    if candidate.None? || candidate.value == "" then None
    else Some(Recommended(candidate.value) * (set c | c in ProposedColumns(a) :: Strip(c)) != {})
  }

  /** Why a reply is rejected; None when it is accepted. */
  function Reject(candidate: Option<string>, r: Reply): Option<Rejection> {
    if r.None? then Some(Prose)
    else if !SchemaValid(r.value) then Some(SchemaInvalid)
    else if Falsification(candidate, r.value) == Some(false) then Some(Contradicted)
    else None
  }

  /** The conversation as it stands before round `k + 1`, when the first `k` replies were rejected. */
  function Conversation(start: seq<Message>, llm: Model, candidate: Option<string>, k: nat): seq<Message> {
    if k == 0 then start
    else
      var before := Conversation(start, llm, candidate, k - 1);
      match Reject(candidate, llm(before))
      case None => before
      case Some(why) => before + [Pushback(why)]
  }

  function ReplyAt(start: seq<Message>, llm: Model, candidate: Option<string>, k: nat): Reply {
    llm(Conversation(start, llm, candidate, k))
  }

  predicate AcceptedAt(start: seq<Message>, llm: Model, candidate: Option<string>, k: nat) {
    Reject(candidate, ReplyAt(start, llm, candidate, k)).None?
  }

  predicate RejectedBefore(start: seq<Message>, llm: Model, candidate: Option<string>, n: nat) {
    forall k: nat | k < n :: !AcceptedAt(start, llm, candidate, k)
  }

  /** The first acceptable reply among the first `n`. */
  function FirstAccepted(start: seq<Message>, llm: Model, candidate: Option<string>, n: nat): Option<Args> {
    if n == 0 then None
    else match FirstAccepted(start, llm, candidate, n - 1)
      case Some(a) => Some(a)
      case None => if AcceptedAt(start, llm, candidate, n - 1) then ReplyAt(start, llm, candidate, n - 1) else None
  }

  /** The rounds used of `n`: up to and including the first acceptable reply. */
  function RoundsUsed(start: seq<Message>, llm: Model, candidate: Option<string>, n: nat): nat {
    if n == 0 then 0
    else if FirstAccepted(start, llm, candidate, n - 1).Some? then RoundsUsed(start, llm, candidate, n - 1)
    else n
  }

  lemma {:induction false} NoneAccepted(start: seq<Message>, llm: Model, candidate: Option<string>, n: nat)
    ensures FirstAccepted(start, llm, candidate, n).None? <==> RejectedBefore(start, llm, candidate, n)
    ensures FirstAccepted(start, llm, candidate, n).Some? ==>
      Reject(candidate, FirstAccepted(start, llm, candidate, n)).None?
    ensures RoundsUsed(start, llm, candidate, n) <= n
    ensures RejectedBefore(start, llm, candidate, n) ==> RoundsUsed(start, llm, candidate, n) == n
  {
    hide Reject, ReplyAt;
    if n > 0 {
      NoneAccepted(start, llm, candidate, n - 1);
      ProseIsRejected(candidate, ReplyAt(start, llm, candidate, n - 1));
    }
  }

  lemma ProseIsRejected(candidate: Option<string>, r: Reply)
    ensures Reject(candidate, r).None? ==> r.Some?
  {
  }

  lemma {:induction false} AcceptedIsKept(start: seq<Message>, llm: Model, candidate: Option<string>, k: nat, n: nat)
    requires k < n && RejectedBefore(start, llm, candidate, k) && AcceptedAt(start, llm, candidate, k)
    ensures FirstAccepted(start, llm, candidate, n) == ReplyAt(start, llm, candidate, k)
    ensures RoundsUsed(start, llm, candidate, n) == k + 1
  {
    hide Reject, ReplyAt;
    NoneAccepted(start, llm, candidate, k);
    ProseIsRejected(candidate, ReplyAt(start, llm, candidate, k));
    if k < n - 1 {
      AcceptedIsKept(start, llm, candidate, k, n - 1);
    }
  }

  /** `_build_context_message` and the note that a re-plan adds. */
  function Opening(context: string, replan: Option<string>): seq<Message> {
    if replan.Some? && replan.value != "" then [Context(context), ReplanNote(replan.value)] else [Context(context)]
  }

  /**
   The repair loop: the first acceptable reply is returned, every rejected one is answered
   with its own reason, and the error is raised only when all rounds were used in vain.
   */
  method RunReason(context: string, replan: Option<string>, candidate: Option<string>, llm: Model, maxRounds: nat)
    returns (r: Result<Args, Option<Rejection>>, rounds: nat)
    ensures
      var start := [Context(context)] + if replan == None || replan == Some("") then [] else [ReplanNote(replan.value)];
      && rounds == RoundsUsed(start, llm, candidate, maxRounds)
      && match r
         case Ok(a) => FirstAccepted(start, llm, candidate, maxRounds) == Some(a)
         case Err(last) =>
           && RejectedBefore(start, llm, candidate, maxRounds)
           && last == if maxRounds == 0 then None else Reject(candidate, ReplyAt(start, llm, candidate, maxRounds - 1))
  {
    ghost var start := [Context(context)] +
      if replan == None || replan == Some("") then [] else [ReplanNote(replan.value)];
    var messages := Opening(context, replan);
    assert messages == start;
    var lastError: Option<Rejection> := None;
    rounds := 0;
    while rounds < maxRounds
      invariant rounds <= maxRounds && RejectedBefore(start, llm, candidate, rounds)
      invariant Conversation(start, llm, candidate, rounds) ==
        messages + if lastError.Some? then [Pushback(lastError.value)] else []
      invariant lastError == if rounds == 0 then None else Reject(candidate, ReplyAt(start, llm, candidate, rounds - 1))
    {
      if lastError.Some? {
        messages := messages + [Pushback(lastError.value)];
      }
      assert messages == Conversation(start, llm, candidate, rounds);
      var reply := llm(messages);
      rounds := rounds + 1;
      if reply.None? {
        lastError := Some(Prose);
        continue;
      }
      if !SchemaValid(reply.value) {
        lastError := Some(SchemaInvalid);
        continue;
      }
      if Falsification(candidate, reply.value) == Some(false) {
        lastError := Some(Contradicted);
        continue;
      }
      AcceptedIsKept(start, llm, candidate, rounds - 1, maxRounds);
      return Ok(reply.value), rounds;
    }
    if maxRounds > 0 {
      NoneAccepted(start, llm, candidate, maxRounds - 1);
    }
    r := Err(lastError);
  }

  /** While every reply is rejected, the model sees the opening and then each rejection in its turn. */
  lemma {:induction false} ConversationIs(start: seq<Message>, llm: Model, candidate: Option<string>, k: nat)
    requires RejectedBefore(start, llm, candidate, k)
    ensures
      var seen := Conversation(start, llm, candidate, k);
      && |seen| == |start| + k && seen[..|start|] == start
      && forall j | 0 <= j < k ::
           !AcceptedAt(start, llm, candidate, j)
           && seen[|start| + j] == Pushback(Reject(candidate, ReplyAt(start, llm, candidate, j)).value)
  {
    hide Reject;
    if k > 0 {
      ConversationIs(start, llm, candidate, k - 1);
      assert !AcceptedAt(start, llm, candidate, k - 1);
    }
  }

  // ----- what acceptance means

  /**
   A proposal is contradicted exactly when there is a recommendation and no proposed column is in
   it, whatever its kind.
   */
  lemma ContradictedIff(candidate: Option<string>, a: Args)
    ensures Falsification(candidate, a) == Some(false) <==>
      && candidate.Some? && candidate.value != ""
      && forall c | c in ProposedColumns(a) :: Strip(c) !in Recommended(candidate.value)
  {
    if candidate.Some? && candidate.value != "" {
      var wanted, columns := Recommended(candidate.value), set c | c in ProposedColumns(a) :: Strip(c);
      if wanted * columns != {} {
        var x :| x in wanted * columns;
        assert exists c | c in ProposedColumns(a) :: Strip(c) == x;
      } else {
        forall c | c in ProposedColumns(a) ensures Strip(c) !in wanted {
          assert Strip(c) in columns;
          assert Strip(c) in wanted ==> Strip(c) in wanted * columns;
        }
      }
    }
  }

  /** `analyze_table` needs no column, yet without a recommended one it is never accepted. */
  lemma AnalyzeNeedsRecommendedColumn(candidate: string, a: Args)
    requires candidate != "" && a.kind == Some("analyze_table") && Recommended(candidate) != {}
    requires forall c | c in ProposedColumns(a) :: Strip(c) !in Recommended(candidate)
    ensures Reject(Some(candidate), Some(a)).Some?
  {
    ContradictedIff(Some(candidate), a);
  }

  /**
   Some reply can be accepted exactly when there is no recommendation or it names a column;
   under one such as "," every proposal there is gets rejected.
   */
  lemma AcceptableIff(candidate: Option<string>)
    ensures (exists a :: Reject(candidate, Some(a)).None?) <==>
      candidate.None? || candidate.value == "" || Recommended(candidate.value) != {}
  {
    var free := candidate.None? || candidate.value == "";
    if !free && Recommended(candidate.value) == {} {
      forall a ensures Reject(candidate, Some(a)).Some? {
        ContradictedIff(candidate, a);
      }
    } else {
      var column := if free then "c" else Pick(candidate.value);
      var a := Args(Some("r"), Some("h"), Some("create_index"), Some(Parameters(Some("t"), [column], None)),
                    Some("e"), Some("low"), Some(0.5));
      assert column in ProposedColumns(a);
      ContradictedIff(candidate, a);
      assert Reject(candidate, Some(a)).None?;
    }
  }

  /** A recommended column, as the recommendation spells it. */
  ghost function Pick(candidate: string): (c: string)
    requires Recommended(candidate) != {}
    ensures Strip(c) in Recommended(candidate)
  {
    var x :| x in Recommended(candidate);
    var part :| part in SplitCommas(candidate) && Strip(part) == x && Strip(part) != "";
    part
  }

  /**
   Such a recommendation exists as a value; the probe takes its column list from a printed
   CREATE INDEX (agent/tools/sql_probe.py:51-80), where it does not occur.
   */
  lemma CommaRecommendsNothing()
    ensures Recommended(",") == {}
  {
    assert ","[..0] == "";
    assert SplitCommas("") == [""];
    assert SplitCommas(",") == ["", ""];
    assert Strip("") == "";
  }

  /** Under a recommendation that names no column the node raises whatever the model answers. */
  lemma NothingAcceptedUnderEmptyRecommendation(start: seq<Message>, llm: Model, candidate: string, n: nat)
    requires candidate != "" && Recommended(candidate) == {}
    ensures RejectedBefore(start, llm, Some(candidate), n)
  {
    AcceptableIff(Some(candidate));
    forall k: nat | k < n ensures !AcceptedAt(start, llm, Some(candidate), k) {
      var reply := ReplyAt(start, llm, Some(candidate), k);
      if reply.Some? {
        ContradictedIff(Some(candidate), reply.value);
      }
    }
  }
}
