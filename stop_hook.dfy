/**
 * The learning stop hook's `main`: the loop guard, then at most one of three flows, in
 * priority order. Flow 1 captures user corrections (whole-word keywords), flow 1b voluntary
 * captures (substring phrases); both append a block with context to the pending document.
 * Flow 2 appends the assistant's self-discovered learnings to the corrections document.
 * Each flow first marks what it captured in the seen ledger, so no index is captured twice.
 */
module StopHook {
  import opened Wrappers
  import opened Strings
  import opened Transcript
  import opened Rules
  import opened Classifier
  import opened Indices
  import opened Ledger
  import opened Context
  import opened Learnings
  import opened Documents
  import opened LoopControl

  const CorrectionTag := "VORBIT:CORRECTION-CAPTURE"
  const VoluntaryTag := "VORBIT:VOLUNTARY-CAPTURE"
  const CorrectionMsg := "Stop hook found correction keywords. "
    + "Run the Stop-Hook Correction Flow from vorbit-learning-rules.md."
  const VoluntaryMsg := "Stop hook found voluntary capture keywords. "
    + "Run the Stop-Hook Voluntary Capture Flow from vorbit-learning-rules.md."

  /** The newest transcript: its stem is the session id; None where it cannot be read. */
  datatype Session = Session(id: string, transcript: Option<string>)

  /**
   * What the hook finds around it: the rules source (None when missing or unreadable), the
   * loop-state file, the newest session transcript (None when there is none), the project
   * root and today's date as `strftime("%d %b %Y")` renders it.
   */
  datatype Inputs = Inputs(
    rulesText: Option<string>,
    loopState: Option<StateFile>,
    session: Option<Session>,
    projectRoot: string,
    date: string)

  /** `loop_state.get("active") is True`: exactly the JSON value `true`, not mere truthiness. */
  predicate LoopGuard(loopState: Option<StateFile>) {
    loopState.Some? && loopState.value.Parsed? && loopState.value.state.active == Flag(true)
  }

  /**
   * The new indices of a keyword flow: the positives of the matcher built from the comment's
   * entries that the ledger does not record for the session and flow. A blank comment
   * disables the flow.
   */
  function NewFor(csv: string, mode: Mode, msgs: seq<Message>, ledger: Option<string>, sid: string, flow: string)
    : (r: seq<nat>)
    ensures csv == "" ==> r == []
    ensures ValidIndices(msgs, r)
  {
    if csv == "" then []
    else
      var m := Matcher(mode, CsvEntries(csv));
      var r := Without(Positives(msgs, m), Seen(ledger, sid, flow));
      NewForMembers(csv, mode, msgs, ledger, sid, flow, r);
      assert forall k :: 0 <= k < |r| ==> r[k] in r;
      r
  }

  lemma NewForMembers(csv: string, mode: Mode, msgs: seq<Message>, ledger: Option<string>, sid: string, flow: string,
                      r: seq<nat>)
    requires r == Without(Positives(msgs, Matcher(mode, CsvEntries(csv))), Seen(ledger, sid, flow))
    ensures forall i :: i in r <==>
      (0 <= i < |msgs| && IsPositive(msgs[i], Matcher(mode, CsvEntries(csv))) && i !in Seen(ledger, sid, flow))
    ensures Increasing(r)
  {
    var m := Matcher(mode, CsvEntries(csv));
    var seen := Seen(ledger, sid, flow);
    PositivesSpec(msgs, m);
    WithoutMembers(Positives(msgs, m), seen);
    WithoutIncreasing(Positives(msgs, m), seen);
  }

  /**
   * A keyword flow's new indices are exactly the positives the ledger does not record, in
   * ascending order; a blank comment gives none.
   */
  lemma NewForSpec(csv: string, mode: Mode, msgs: seq<Message>, ledger: Option<string>, sid: string, flow: string)
    ensures var r := NewFor(csv, mode, msgs, ledger, sid, flow);
      (csv != "" ==> forall i :: i in r <==>
        (0 <= i < |msgs| && IsPositive(msgs[i], Matcher(mode, CsvEntries(csv))) && i !in Seen(ledger, sid, flow)))
      && Increasing(r)
  {
    if csv != "" {
      NewForMembers(csv, mode, msgs, ledger, sid, flow, NewFor(csv, mode, msgs, ledger, sid, flow));
    }
  }

  /** Flow 1's new correction indices. */
  function NewCorrections(rules: string, msgs: seq<Message>, ledger: Option<string>, sid: string): seq<nat> {
    NewFor(ReadComment(rules, "correction-keywords"), WholeWord, msgs, ledger, sid, "f1")
  }

  /** Flow 1b's new voluntary-capture indices. */
  function NewVoluntary(rules: string, msgs: seq<Message>, ledger: Option<string>, sid: string): seq<nat> {
    NewFor(ReadComment(rules, "voluntary-keywords"), Substring, msgs, ledger, sid, "fv")
  }

  /** Flow 2's labels, None when the `learning-fields` comment names fewer than three fields. */
  function FlowLabels(rules: string): (r: Option<Labels>)
    ensures r.Some? ==> WellFormed(r.value)
  {
    LearningLabels(ReadComment(rules, "learning-fields"))
  }

  /** Flow 2's new learnings. */
  function NewLearnings(rules: string, msgs: seq<Message>, ledger: Option<string>, sid: string): seq<Learning> {
    match FlowLabels(rules)
    case None => []
    case Some(labels) => LearningsOf(msgs, Seen(ledger, sid, "f2"), labels)
  }

  /** What a run writes: nothing, a pending block for flow `f1` or `fv`, or a corrections block. */
  datatype Plan = Nothing | Pending(flow: string, xs: seq<nat>) | Corrections(ls: seq<Learning>)

  /** The priority f1 > fv > f2: a flow runs only when every earlier one found nothing new. */
  function Decide(rules: string, msgs: seq<Message>, ledger: Option<string>, sid: string): (p: Plan)
    ensures p.Pending? ==> p.xs != [] && ValidIndices(msgs, p.xs)
    ensures p.Pending? ==> (
      (p.flow == "f1" && p.xs == NewCorrections(rules, msgs, ledger, sid))
      || (p.flow == "fv" && NewCorrections(rules, msgs, ledger, sid) == [] && p.xs == NewVoluntary(rules, msgs, ledger, sid)))
    ensures p.Corrections? ==> (
      NewCorrections(rules, msgs, ledger, sid) == [] && NewVoluntary(rules, msgs, ledger, sid) == []
      && p.ls == NewLearnings(rules, msgs, ledger, sid) && p.ls != [])
    ensures p.Nothing? <==> (
      NewCorrections(rules, msgs, ledger, sid) == [] && NewVoluntary(rules, msgs, ledger, sid) == []
      && NewLearnings(rules, msgs, ledger, sid) == [])
  {
    var n1 := NewCorrections(rules, msgs, ledger, sid);
    var nv := NewVoluntary(rules, msgs, ledger, sid);
    var nl := NewLearnings(rules, msgs, ledger, sid);
    if n1 != [] then Pending("f1", n1)
    else if nv != [] then Pending("fv", nv)
    else if nl != [] then Corrections(nl)
    else Nothing
  }

  function TagOf(flow: string): string {
    if flow == "f1" then CorrectionTag else VoluntaryTag
  }

  function DirectiveOf(flow: string): string {
    if flow == "f1" then CorrectionMsg else VoluntaryMsg
  }

  /** The files after carrying out a plan: one document block and the marks of its indices. */
  function Apply(plan: Plan, fs: Files, msgs: seq<Message>, sid: string, root: string, date: string): Files
    requires plan.Pending? ==> ValidIndices(msgs, plan.xs)
  {
    match plan
    case Nothing => fs
    case Pending(flow, xs) =>
      var context := Join(ContextLines(msgs, xs), "\n");
      Files(Appended(fs.pending, PendingHeader, PendingBlock(TagOf(flow), root, date, DirectiveOf(flow), context)),
            fs.corrections,
            Marks(plan, fs.ledger, sid))
    case Corrections(ls) =>
      Files(fs.pending,
            Appended(fs.corrections, CorrectionsHeader, SessionBlock(sid, root, date, RenderLearnings(ls))),
            Marks(plan, fs.ledger, sid))
  }

  /** The ledger after carrying out a plan: the plan's indices marked under its flow. */
  function Marks(plan: Plan, ledger: Option<string>, sid: string): Option<string> {
    match plan
    case Nothing => ledger
    case Pending(flow, xs) => Marked(ledger, sid, flow, xs)
    case Corrections(ls) => Marked(ledger, sid, "f2", IndicesOf(ls))
  }

  /** Why a run ended. */
  datatype Outcome = NoRules | LoopActive | NoTranscript | NoMessages | NothingNew | Captured(plan: Plan)

  /** The early exits, which do not depend on the files the run may write. */
  function Early(inp: Inputs, parse: Parser): Option<Outcome> {
    if inp.rulesText.None? then Some(NoRules)
    else if LoopGuard(inp.loopState) then Some(LoopActive)
    else if inp.session.None? then Some(NoTranscript)
    else if Load(inp.session.value.transcript, parse) == [] then Some(NoMessages)
    else None
  }

  /**
   * One run of the hook on the files `fs`. It writes nothing unless it captures; it only
   * appends; it touches at most one of the two documents; with the loop guard up it writes
   * nothing at all.
   */
  function Run(inp: Inputs, parse: Parser, fs: Files): (r: (Outcome, Files))
    ensures !r.0.Captured? ==> r.1 == fs
    ensures LoopGuard(inp.loopState) ==> r.1 == fs
    ensures fs.pending.GetOr("") <= r.1.pending.GetOr("") && (fs.pending.Some? ==> r.1.pending.Some?)
    ensures fs.corrections.GetOr("") <= r.1.corrections.GetOr("") && (fs.corrections.Some? ==> r.1.corrections.Some?)
    ensures fs.ledger.GetOr("") <= r.1.ledger.GetOr("") && (fs.ledger.Some? ==> r.1.ledger.Some?)
    ensures r.1.pending == fs.pending || r.1.corrections == fs.corrections
  {
    match Early(inp, parse)
    case Some(o) => (o, fs)
    case None =>
      Carry(inp.rulesText.value, Load(inp.session.value.transcript, parse), inp.session.value.id,
            inp.projectRoot, inp.date, fs)
  }

  /** Deciding and carrying out the plan on the files `fs`. */
  function Carry(rules: string, msgs: seq<Message>, sid: string, root: string, date: string, fs: Files)
    : (Outcome, Files)
  {
    var plan := Decide(rules, msgs, fs.ledger, sid);
    if plan.Nothing? then (NothingNew, fs) else (Captured(plan), Apply(plan, fs, msgs, sid, root, date))
  }

  /**
   * Flows 1 and 1b: collect the positives, drop those the ledger records, and when any are
   * left append the pending block with their context and mark them in the ledger.
   */
  method KeywordFlow(store: Store, csv: string, mode: Mode, flow: string, msgs: seq<Message>, sid: string,
                     root: string, date: string) returns (xs: seq<nat>)
    modifies store`pending, store`ledger
    ensures xs == NewFor(csv, mode, msgs, old(store.ledger), sid, flow)
    ensures xs == [] ==> store.pending == old(store.pending) && store.ledger == old(store.ledger)
    ensures xs != [] ==> (
      ValidIndices(msgs, xs)
      && store.pending == Appended(old(store.pending), PendingHeader,
                                   PendingBlock(TagOf(flow), root, date, DirectiveOf(flow), Join(ContextLines(msgs, xs), "\n")))
      && store.ledger == Marked(old(store.ledger), sid, flow, xs))
  {
    xs := [];
    if csv != "" {
      var allMatching := CollectPositives(msgs, Matcher(mode, CsvEntries(csv)));
      var seen := LoadSeen(store.ledger, sid, flow);
      xs := Without(allMatching, seen);
      assert xs == NewFor(csv, mode, msgs, store.ledger, sid, flow);
      if xs != [] {
        var context := BuildContext(msgs, xs);
        store.WritePending(root, TagOf(flow), DirectiveOf(flow), context, date);
        store.MarkSeen(sid, flow, xs);
      }
    }
  }

  /**
   * Flow 2: read the field names, collect the learnings of unseen assistant messages, and when
   * there are any mark their indices, then append the session block.
   */
  method LearningFlow(store: Store, rules: string, msgs: seq<Message>, sid: string, root: string, date: string)
    returns (ls: seq<Learning>)
    modifies store`corrections, store`ledger
    ensures ls == NewLearnings(rules, msgs, old(store.ledger), sid)
    ensures ls == [] ==> store.corrections == old(store.corrections) && store.ledger == old(store.ledger)
    ensures ls != [] ==>
      store.corrections == Appended(old(store.corrections), CorrectionsHeader,
                                    SessionBlock(sid, root, date, RenderLearnings(ls)))
      && store.ledger == Marked(old(store.ledger), sid, "f2", IndicesOf(ls))
  {
    ls := [];
    var fieldsDef := ReadComment(rules, "learning-fields");
    if fieldsDef == "" {
      assert FlowLabels(rules).None?;
      return;
    }
    var fieldNames := FieldNames(fieldsDef);
    if |fieldNames| < 3 {
      assert FlowLabels(rules).None?;
      return;
    }
    var labels := Labels(fieldNames[0] + ": ", fieldNames[1] + ": ", fieldNames[2] + ": ");
    assert FlowLabels(rules) == Some(labels);
    var seenF2 := LoadSeen(store.ledger, sid, "f2");
    ls := CollectLearnings(msgs, seenF2, labels);
    assert ls == NewLearnings(rules, msgs, store.ledger, sid);
    if ls != [] {
      store.MarkSeen(sid, "f2", IndicesOf(ls));
      var learningsText := RenderBlocks(ls);
      store.WriteCorrections(sid, root, date, learningsText);
    }
  }

  /** `main()` against the store; the exit code is 0 on every path. */
  method Invoke(store: Store, inp: Inputs, parse: Parser) returns (outcome: Outcome, exitCode: int)
    modifies store
    ensures exitCode == 0
    ensures (outcome, store.Contents()) == Run(inp, parse, old(store.Contents()))
  {
    exitCode := 0;
    if inp.rulesText.None? {
      return NoRules, 0;
    }
    var rules := inp.rulesText.value;
    if LoopGuard(inp.loopState) {
      return LoopActive, 0;
    }
    if inp.session.None? {
      return NoTranscript, 0;
    }
    var sid := inp.session.value.id;
    var msgs := LoadTranscript(inp.session.value.transcript, parse);
    if msgs == [] {
      return NoMessages, 0;
    }
    outcome := Flows(store, rules, msgs, sid, inp.projectRoot, inp.date);
  }

  /** The three flows in priority order, each tried only when the earlier ones found nothing. */
  method Flows(store: Store, rules: string, msgs: seq<Message>, sid: string, root: string, date: string)
    returns (outcome: Outcome)
    modifies store
    ensures (outcome, store.Contents()) == Carry(rules, msgs, sid, root, date, old(store.Contents()))
  {
    ghost var fs := store.Contents();
    var xs := KeywordFlow(store, ReadComment(rules, "correction-keywords"), WholeWord, "f1", msgs, sid, root, date);
    if xs != [] {
      outcome := Captured(Pending("f1", xs));
      assert (outcome, store.Contents()) == Carry(rules, msgs, sid, root, date, fs) by {
        assert Decide(rules, msgs, fs.ledger, sid) == Pending("f1", xs);
        CarryPending(rules, msgs, sid, root, date, fs, "f1", xs);
      }
      return;
    }
    assert store.Contents() == fs;
    outcome := LaterFlows(store, rules, msgs, sid, root, date);
  }

  /** Flow 1b, and flow 2 when flow 1b finds nothing new either. */
  method LaterFlows(store: Store, rules: string, msgs: seq<Message>, sid: string, root: string, date: string)
    returns (outcome: Outcome)
    requires NewCorrections(rules, msgs, store.ledger, sid) == []
    modifies store
    ensures (outcome, store.Contents()) == Carry(rules, msgs, sid, root, date, old(store.Contents()))
  {
    ghost var fs := store.Contents();
    var xs := KeywordFlow(store, ReadComment(rules, "voluntary-keywords"), Substring, "fv", msgs, sid, root, date);
    if xs != [] {
      outcome := Captured(Pending("fv", xs));
      assert (outcome, store.Contents()) == Carry(rules, msgs, sid, root, date, fs) by {
        assert Decide(rules, msgs, fs.ledger, sid) == Pending("fv", xs);
        CarryPending(rules, msgs, sid, root, date, fs, "fv", xs);
      }
      return;
    }
    assert store.Contents() == fs;
    outcome := LastFlow(store, rules, msgs, sid, root, date);
  }

  /** Flow 2, reached when flows 1 and 1b found nothing new. */
  method LastFlow(store: Store, rules: string, msgs: seq<Message>, sid: string, root: string, date: string)
    returns (outcome: Outcome)
    requires NewCorrections(rules, msgs, store.ledger, sid) == []
    requires NewVoluntary(rules, msgs, store.ledger, sid) == []
    modifies store
    ensures (outcome, store.Contents()) == Carry(rules, msgs, sid, root, date, old(store.Contents()))
  {
    ghost var fs := store.Contents();
    var ls := LearningFlow(store, rules, msgs, sid, root, date);
    if ls == [] {
      assert Decide(rules, msgs, fs.ledger, sid) == Nothing;
      return NothingNew;
    }
    outcome := Captured(Corrections(ls));
    assert (outcome, store.Contents()) == Carry(rules, msgs, sid, root, date, fs) by {
      assert Decide(rules, msgs, fs.ledger, sid) == Corrections(ls);
      CarryCorrections(rules, msgs, sid, root, date, fs, ls);
    }
  }

  /** Carrying out a pending plan: its block appended to the pending document, its indices marked. */
  lemma CarryPending(rules: string, msgs: seq<Message>, sid: string, root: string, date: string, fs: Files,
                     flow: string, xs: seq<nat>)
    requires Decide(rules, msgs, fs.ledger, sid) == Pending(flow, xs)
    ensures ValidIndices(msgs, xs)
    ensures Carry(rules, msgs, sid, root, date, fs) == (Captured(Pending(flow, xs)), Files(
      Appended(fs.pending, PendingHeader, PendingBlock(TagOf(flow), root, date, DirectiveOf(flow),
                                                       Join(ContextLines(msgs, xs), "\n"))),
      fs.corrections, Marked(fs.ledger, sid, flow, xs)))
  {
  }

  /** Carrying out a corrections plan: the session block appended, the learnings' indices marked. */
  lemma CarryCorrections(rules: string, msgs: seq<Message>, sid: string, root: string, date: string, fs: Files,
                         ls: seq<Learning>)
    requires Decide(rules, msgs, fs.ledger, sid) == Corrections(ls)
    ensures Carry(rules, msgs, sid, root, date, fs) == (Captured(Corrections(ls)), Files(
      fs.pending, Appended(fs.corrections, CorrectionsHeader, SessionBlock(sid, root, date, RenderLearnings(ls))),
      Marked(fs.ledger, sid, "f2", IndicesOf(ls))))
  {
  }

  /* ---- what a run leaves for the next one ---- */

  /** Marking one flow leaves what every other flow reads from the ledger unchanged. */
  lemma SeenOtherFlow(ledger: Option<string>, sid: string, flow: string, xs: seq<nat>, other: string)
    requires WellTerminated(ledger) && ValidSessionId(sid) && ValidFlow(flow) && other != flow
    ensures Seen(Marked(ledger, sid, flow, xs), sid, other) == Seen(ledger, sid, other)
    ensures WellTerminated(Marked(ledger, sid, flow, xs))
  {
    SeenAfterMark(ledger, sid, flow, xs, sid, other);
  }

  /** Marking a flow adds exactly the marked indices to what that flow reads from the ledger. */
  lemma SeenOwnFlow(ledger: Option<string>, sid: string, flow: string, xs: seq<nat>)
    requires WellTerminated(ledger) && ValidSessionId(sid) && ValidFlow(flow)
    ensures Seen(Marked(ledger, sid, flow, xs), sid, flow) == Seen(ledger, sid, flow) + Elems(xs)
  {
    SeenAfterMark(ledger, sid, flow, xs, sid, flow);
  }

  /** After a keyword flow marks its new indices, it finds none on the next run. */
  lemma NewForAfterOwnMark(csv: string, mode: Mode, msgs: seq<Message>, ledger: Option<string>, sid: string, flow: string)
    requires WellTerminated(ledger) && ValidSessionId(sid) && ValidFlow(flow)
    ensures NewFor(csv, mode, msgs, Marked(ledger, sid, flow, NewFor(csv, mode, msgs, ledger, sid, flow)), sid, flow) == []
  {
    if csv != "" {
      var m := Matcher(mode, CsvEntries(csv));
      var ps := Positives(msgs, m);
      var seen := Seen(ledger, sid, flow);
      var xs := NewFor(csv, mode, msgs, ledger, sid, flow);
      assert xs == Without(ps, seen);
      SeenOwnFlow(ledger, sid, flow, xs);
      var more := Seen(Marked(ledger, sid, flow, xs), sid, flow);
      assert more == seen + Elems(xs);
      WithoutMembers(ps, seen);
      WithoutAll(ps, more);
    }
  }

  /** The number of flows that would capture something on a run over this ledger. */
  function Weight(rules: string, msgs: seq<Message>, ledger: Option<string>, sid: string): (w: nat)
    ensures w <= 3
  {
    (if NewCorrections(rules, msgs, ledger, sid) != [] then 1 else 0)
    + (if NewVoluntary(rules, msgs, ledger, sid) != [] then 1 else 0)
    + (if NewLearnings(rules, msgs, ledger, sid) != [] then 1 else 0)
  }

  /** Marking f1 clears flow 1 and leaves the other two flows as they were. */
  lemma AfterF1(rules: string, msgs: seq<Message>, ledger: Option<string>, sid: string)
    requires WellTerminated(ledger) && ValidSessionId(sid)
    ensures var l := Marked(ledger, sid, "f1", NewCorrections(rules, msgs, ledger, sid));
      NewCorrections(rules, msgs, l, sid) == []
      && NewVoluntary(rules, msgs, l, sid) == NewVoluntary(rules, msgs, ledger, sid)
      && NewLearnings(rules, msgs, l, sid) == NewLearnings(rules, msgs, ledger, sid)
      && WellTerminated(l)
  {
    var xs := NewCorrections(rules, msgs, ledger, sid);
    NewForAfterOwnMark(ReadComment(rules, "correction-keywords"), WholeWord, msgs, ledger, sid, "f1");
    SeenOtherFlow(ledger, sid, "f1", xs, "fv");
    SeenOtherFlow(ledger, sid, "f1", xs, "f2");
  }

  /** Marking fv clears flow 1b and leaves the other two flows as they were. */
  lemma AfterFv(rules: string, msgs: seq<Message>, ledger: Option<string>, sid: string)
    requires WellTerminated(ledger) && ValidSessionId(sid)
    ensures var l := Marked(ledger, sid, "fv", NewVoluntary(rules, msgs, ledger, sid));
      NewVoluntary(rules, msgs, l, sid) == []
      && NewCorrections(rules, msgs, l, sid) == NewCorrections(rules, msgs, ledger, sid)
      && NewLearnings(rules, msgs, l, sid) == NewLearnings(rules, msgs, ledger, sid)
      && WellTerminated(l)
  {
    var xs := NewVoluntary(rules, msgs, ledger, sid);
    NewForAfterOwnMark(ReadComment(rules, "voluntary-keywords"), Substring, msgs, ledger, sid, "fv");
    SeenOtherFlow(ledger, sid, "fv", xs, "f1");
    SeenOtherFlow(ledger, sid, "fv", xs, "f2");
  }

  /** Marking f2 clears flow 2 and leaves the other two flows as they were. */
  lemma AfterF2(rules: string, msgs: seq<Message>, ledger: Option<string>, sid: string)
    requires WellTerminated(ledger) && ValidSessionId(sid)
    ensures var l := Marked(ledger, sid, "f2", IndicesOf(NewLearnings(rules, msgs, ledger, sid)));
      NewLearnings(rules, msgs, l, sid) == []
      && NewCorrections(rules, msgs, l, sid) == NewCorrections(rules, msgs, ledger, sid)
      && NewVoluntary(rules, msgs, l, sid) == NewVoluntary(rules, msgs, ledger, sid)
      && WellTerminated(l)
  {
    var xs := IndicesOf(NewLearnings(rules, msgs, ledger, sid));
    SeenOtherFlow(ledger, sid, "f2", xs, "f1");
    SeenOtherFlow(ledger, sid, "f2", xs, "fv");
    LearningsAfterOwnMark(rules, msgs, ledger, sid);
  }

  lemma LearningsAfterOwnMark(rules: string, msgs: seq<Message>, ledger: Option<string>, sid: string)
    requires WellTerminated(ledger) && ValidSessionId(sid)
    ensures NewLearnings(rules, msgs, Marked(ledger, sid, "f2", IndicesOf(NewLearnings(rules, msgs, ledger, sid))), sid) == []
  {
    match FlowLabels(rules)
    case None =>
    case Some(labels) =>
      MarkedLearnings(msgs, ledger, sid, labels, IndicesOf(LearningsOf(msgs, Seen(ledger, sid, "f2"), labels)));
  }

  lemma MarkedLearnings(msgs: seq<Message>, ledger: Option<string>, sid: string, labels: Labels, xs: seq<nat>)
    requires WellTerminated(ledger) && ValidSessionId(sid) && WellFormed(labels)
    requires Elems(IndicesOf(LearningsOf(msgs, Seen(ledger, sid, "f2"), labels))) <= Elems(xs)
    ensures LearningsOf(msgs, Seen(Marked(ledger, sid, "f2", xs), sid, "f2"), labels) == []
  {
    SeenOwnFlow(ledger, sid, "f2", xs);
    LearningsAfterMark(msgs, Seen(ledger, sid, "f2"), Seen(Marked(ledger, sid, "f2", xs), sid, "f2"), labels);
  }

  /**
   * Marking what a run decides to capture leaves the ledger well terminated and one flow fewer
   * with anything new, unless no flow had anything new.
   */
  lemma LedgerStep(rules: string, msgs: seq<Message>, ledger: Option<string>, sid: string)
    requires WellTerminated(ledger) && ValidSessionId(sid)
    ensures var l := Marks(Decide(rules, msgs, ledger, sid), ledger, sid);
      WellTerminated(l)
      && (Weight(rules, msgs, ledger, sid) == 0 ==> l == ledger)
      && (Weight(rules, msgs, ledger, sid) > 0 ==>
            Weight(rules, msgs, l, sid) == Weight(rules, msgs, ledger, sid) - 1)
  {
    var plan := Decide(rules, msgs, ledger, sid);
    var l := Marks(plan, ledger, sid);
    match plan
    case Nothing =>
    case Pending(flow, xs) =>
      if flow == "f1" {
        assert l == Marked(ledger, sid, "f1", NewCorrections(rules, msgs, ledger, sid));
        AfterF1(rules, msgs, ledger, sid);
      } else {
        assert NewCorrections(rules, msgs, ledger, sid) == [];
        assert l == Marked(ledger, sid, "fv", NewVoluntary(rules, msgs, ledger, sid));
        AfterFv(rules, msgs, ledger, sid);
      }
    case Corrections(ls) =>
      assert l == Marked(ledger, sid, "f2", IndicesOf(NewLearnings(rules, msgs, ledger, sid)));
      AfterF2(rules, msgs, ledger, sid);
  }

  /**
   * A run over an unchanged transcript either finds nothing and writes nothing, or writes
   * one flow's block and leaves one flow fewer with anything to capture.
   */
  lemma CarryStep(rules: string, msgs: seq<Message>, sid: string, root: string, date: string, fs: Files)
    requires WellTerminated(fs.ledger) && ValidSessionId(sid)
    ensures var fs' := Carry(rules, msgs, sid, root, date, fs).1;
      WellTerminated(fs'.ledger)
      && (Weight(rules, msgs, fs.ledger, sid) == 0 ==> fs' == fs)
      && (Weight(rules, msgs, fs.ledger, sid) > 0 ==>
            Weight(rules, msgs, fs'.ledger, sid) == Weight(rules, msgs, fs.ledger, sid) - 1)
  {
    var plan := Decide(rules, msgs, fs.ledger, sid);
    assert Carry(rules, msgs, sid, root, date, fs).1.ledger == Marks(plan, fs.ledger, sid);
    LedgerStep(rules, msgs, fs.ledger, sid);
  }

  /** Three runs on the same rules and messages leave nothing for a fourth to capture. */
  lemma ThreeCarries(rules: string, msgs: seq<Message>, sid: string, root: string, date: string, fs: Files)
    requires WellTerminated(fs.ledger) && ValidSessionId(sid)
    ensures var fs3 := Carry(rules, msgs, sid, root, date,
                         Carry(rules, msgs, sid, root, date,
                           Carry(rules, msgs, sid, root, date, fs).1).1).1;
      Carry(rules, msgs, sid, root, date, fs3) == (NothingNew, fs3)
  {
    var fs1 := Carry(rules, msgs, sid, root, date, fs).1;
    var fs2 := Carry(rules, msgs, sid, root, date, fs1).1;
    var fs3 := Carry(rules, msgs, sid, root, date, fs2).1;
    var w0 := Weight(rules, msgs, fs.ledger, sid);
    var w1 := Weight(rules, msgs, fs1.ledger, sid);
    var w2 := Weight(rules, msgs, fs2.ledger, sid);
    var w3 := Weight(rules, msgs, fs3.ledger, sid);
    assert WellTerminated(fs1.ledger) && w1 <= 2 && (w0 == 0 ==> w1 == 0) by {
      CarryStep(rules, msgs, sid, root, date, fs);
    }
    assert WellTerminated(fs2.ledger) && w2 <= 1 && (w1 == 0 ==> w2 == 0) by {
      CarryStep(rules, msgs, sid, root, date, fs1);
    }
    assert w3 == 0 by {
      CarryStep(rules, msgs, sid, root, date, fs2);
    }
    Settled(rules, msgs, sid, root, date, fs3);
  }

  /** With nothing left to capture, a run writes nothing. */
  lemma Settled(rules: string, msgs: seq<Message>, sid: string, root: string, date: string, fs: Files)
    requires Weight(rules, msgs, fs.ledger, sid) == 0
    ensures Carry(rules, msgs, sid, root, date, fs) == (NothingNew, fs)
  {
  }

  /**
   * On an unchanged transcript and rules, three consecutive runs capture everything there is,
   * and a fourth run writes nothing at all.
   */
  lemma FourthRunWritesNothing(inp: Inputs, parse: Parser, fs: Files)
    requires WellTerminated(fs.ledger)
    requires inp.session.Some? ==> ValidSessionId(inp.session.value.id)
    ensures var fs3 := Run(inp, parse, Run(inp, parse, Run(inp, parse, fs).1).1).1;
      Run(inp, parse, fs3).1 == fs3 && !Run(inp, parse, fs3).0.Captured?
  {
    if Early(inp, parse).None? {
      ThreeCarries(inp.rulesText.value, Load(inp.session.value.transcript, parse), inp.session.value.id,
                   inp.projectRoot, inp.date, fs);
    }
  }

  /** Flow 2 marks the indices of its learnings in ascending order, and they are unseen. */
  lemma LearningMarksAscend(rules: string, msgs: seq<Message>, ledger: Option<string>, sid: string)
    ensures Increasing(IndicesOf(NewLearnings(rules, msgs, ledger, sid)))
    ensures forall i :: i in IndicesOf(NewLearnings(rules, msgs, ledger, sid)) ==> i !in Seen(ledger, sid, "f2")
  {
    match FlowLabels(rules)
    case None =>
    case Some(labels) =>
      LearningsSpec(msgs, Seen(ledger, sid, "f2"), labels);
  }
}
