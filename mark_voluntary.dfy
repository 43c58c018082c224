/**
 * The voluntary-capture helper, run mid-session after a learning has been written by hand: it
 * marks every current voluntary-phrase message of the session as seen for flow `fv`, so the
 * stop hook does not capture them again at the end of the session. It only ever appends to the
 * seen ledger and always exits 0.
 */
module MarkVoluntary {
  import opened Wrappers
  import opened Strings
  import opened Transcript
  import opened Rules
  import opened Classifier
  import opened Indices
  import opened Ledger
  import opened Context
  import opened Learnings
  import opened Documents
  import opened StopHook

  const CommentName := "voluntary-keywords"
  const Flow := "fv"

  /**
   * The phrases of the first `voluntary-keywords` comment, stripped, blanks dropped; none when
   * there is no such comment.
   */
  function Phrases(rules: string): seq<string> {
    match FindComment(rules, CommentName)
    case None => []
    case Some(v) => CsvEntries(v)
  }

  /** The positives of the phrase matcher the ledger does not record for `fv`; none without phrases. */
  function NewMarks(rules: string, msgs: seq<Message>, ledger: Option<string>, sid: string): seq<nat> {
    var phrases := Phrases(rules);
    if phrases == [] then []
    else Without(Positives(msgs, Matcher(Substring, phrases)), Seen(ledger, sid, Flow))
  }

  /**
   * The ledger after one run: unchanged when the rules or the session are missing, when the
   * comment has no phrases, or when nothing new matches; otherwise one `fv` line is appended
   * per new index, in ascending order.
   */
  function Run(rulesText: Option<string>, session: Option<Session>, parse: Parser, ledger: Option<string>)
    : (r: Option<string>)
    ensures ledger.GetOr("") <= r.GetOr("") && (ledger.Some? ==> r.Some?)
    ensures rulesText.None? || session.None? ==> r == ledger
    ensures rulesText.Some? && Phrases(rulesText.value) == [] ==> r == ledger
    ensures (rulesText.Some? && session.Some?
             && NewMarks(rulesText.value, Load(session.value.transcript, parse), ledger, session.value.id) == [])
            ==> r == ledger
  {
    if rulesText.None? || session.None? then ledger
    else
      var xs := NewMarks(rulesText.value, Load(session.value.transcript, parse), ledger, session.value.id);
      if xs == [] then ledger else Marked(ledger, session.value.id, Flow, xs)
  }

  /** `main()` against the store; only the ledger may change, and the exit code is always 0. */
  method Invoke(store: Store, rulesText: Option<string>, session: Option<Session>, parse: Parser)
    returns (exitCode: int)
    modifies store`ledger
    ensures exitCode == 0
    ensures store.ledger == Run(rulesText, session, parse, old(store.ledger))
  {
    exitCode := 0;
    if rulesText.None? {
      return;
    }
    var found := FindComment(rulesText.value, CommentName);
    if found.None? {
      return;
    }
    var phrases := CsvEntries(found.value);
    if phrases == [] {
      return;
    }
    if session.None? {
      return;
    }
    var sid := session.value.id;
    var messages := LoadTranscript(session.value.transcript, parse);
    var matchingIndices := CollectPositives(messages, Matcher(Substring, phrases));
    if matchingIndices == [] {
      return;
    }
    var seen := LoadSeen(store.ledger, sid, Flow);
    var newIndices := Without(matchingIndices, seen);
    assert newIndices == NewMarks(rulesText.value, messages, store.ledger, sid);
    if newIndices != [] {
      store.MarkSeen(sid, Flow, newIndices);
    }
  }

  /* ---- what it marks ---- */

  /**
   * The marked indices are exactly the unseen messages that pass the false-positive filters and
   * hold one of the phrases, case-insensitively, as a substring; they ascend.
   */
  lemma NewMarksSpec(rules: string, msgs: seq<Message>, ledger: Option<string>, sid: string)
    ensures var r := NewMarks(rules, msgs, ledger, sid);
      (Phrases(rules) != [] ==> forall i :: i in r <==>
        (0 <= i < |msgs| && IsPositive(msgs[i], Matcher(Substring, Phrases(rules))) && i !in Seen(ledger, sid, Flow)))
      && Increasing(r)
  {
    var phrases := Phrases(rules);
    if phrases != [] {
      var m := Matcher(Substring, phrases);
      PositivesSpec(msgs, m);
      WithoutMembers(Positives(msgs, m), Seen(ledger, sid, Flow));
      WithoutIncreasing(Positives(msgs, m), Seen(ledger, sid, Flow));
    }
  }

  /** One run appends exactly one `fv` entry line per newly marked index, in order, and nothing else. */
  lemma RunAppends(rules: string, session: Session, parse: Parser, ledger: Option<string>)
    ensures var xs := NewMarks(rules, Load(session.transcript, parse), ledger, session.id);
      Run(Some(rules), Some(session), parse, ledger).GetOr("") == ledger.GetOr("") + Entries(session.id, Flow, xs)
  {
    var xs := NewMarks(rules, Load(session.transcript, parse), ledger, session.id);
    if xs == [] {
      assert Entries(session.id, Flow, xs) == "";
    }
  }

  /**
   * After one run, `load_seen` for the session and `fv` gives the old set plus exactly the newly
   * marked indices; every other session and flow reads what it read before.
   */
  lemma RunSeen(rules: string, session: Session, parse: Parser, ledger: Option<string>, s': string, f': string)
    requires WellTerminated(ledger) && ValidSessionId(session.id)
    ensures var xs := NewMarks(rules, Load(session.transcript, parse), ledger, session.id);
      Seen(Run(Some(rules), Some(session), parse, ledger), s', f')
      == Seen(ledger, s', f') + (if s' == session.id && f' == Flow then Elems(xs) else {})
  {
    var xs := NewMarks(rules, Load(session.transcript, parse), ledger, session.id);
    if xs != [] {
      var l := Run(Some(rules), Some(session), parse, ledger);
      assert l == Marked(ledger, session.id, Flow, xs);
      assert Seen(Marked(ledger, session.id, Flow, xs), s', f')
          == Seen(ledger, s', f') + (if session.id == s' && Flow == f' then Elems(xs) else {}) by {
        SeenAfterMark(ledger, session.id, Flow, xs, s', f');
      }
    } else {
      assert Elems(xs) == {};
    }
  }

  /** A message carrying the teammate marker is never marked. */
  lemma TeammateNeverMarked(rules: string, msgs: seq<Message>, ledger: Option<string>, sid: string, i: nat)
    requires i < |msgs| && Contains(ExtractText(msgs[i].content), "<teammate-message")
    ensures i !in NewMarks(rules, msgs, ledger, sid)
  {
    var phrases := Phrases(rules);
    if phrases != [] {
      var m := Matcher(Substring, phrases);
      TeammateNeverPositive(msgs, m, i);
      WithoutMembers(Positives(msgs, m), Seen(ledger, sid, Flow));
    }
  }

  /** The one comment read by both scripts, where the hook's `read_comment` is absent-as-blank. */
  lemma ReadCommentOfFound(rules: string)
    ensures ReadComment(rules, CommentName) == FindComment(rules, CommentName).GetOr("")
  {
  }

  /** A blank comment has no phrases. */
  lemma NoEntriesOfBlank()
    ensures CsvEntries("") == []
  {
    assert SplitOn("", ',') == [""];
  }

  /** Whenever there are phrases, the helper marks exactly what the stop hook's flow 1b would capture. */
  lemma AgreesWithStopHook(rules: string, msgs: seq<Message>, ledger: Option<string>, sid: string)
    requires Phrases(rules) != []
    ensures NewMarks(rules, msgs, ledger, sid) == NewVoluntary(rules, msgs, ledger, sid)
  {
    var csv := ReadComment(rules, CommentName);
    ReadCommentOfFound(rules);
    NoEntriesOfBlank();
    assert csv != "" && CsvEntries(csv) == Phrases(rules);
    NewForOfEntries(csv, Substring, msgs, ledger, sid, Flow);
  }

  lemma NewForOfEntries(csv: string, mode: Mode, msgs: seq<Message>, ledger: Option<string>, sid: string, flow: string)
    requires csv != ""
    ensures NewFor(csv, mode, msgs, ledger, sid, flow)
         == Without(Positives(msgs, Matcher(mode, CsvEntries(csv))), Seen(ledger, sid, flow))
  {
  }

  /**
   * After the helper has run, the stop hook's flow 1b finds nothing new in the same transcript,
   * and what flows 1 and 2 find is as before.
   */
  lemma StopHookSkipsMarked(rules: string, session: Session, parse: Parser, ledger: Option<string>)
    requires WellTerminated(ledger) && ValidSessionId(session.id)
    requires Phrases(rules) != []
    ensures var msgs := Load(session.transcript, parse);
      var l := Run(Some(rules), Some(session), parse, ledger);
      NewVoluntary(rules, msgs, l, session.id) == []
      && NewCorrections(rules, msgs, l, session.id) == NewCorrections(rules, msgs, ledger, session.id)
      && NewLearnings(rules, msgs, l, session.id) == NewLearnings(rules, msgs, ledger, session.id)
  {
    var msgs := Load(session.transcript, parse);
    var xs := NewMarks(rules, msgs, ledger, session.id);
    assert xs == NewVoluntary(rules, msgs, ledger, session.id) by {
      AgreesWithStopHook(rules, msgs, ledger, session.id);
    }
    if xs != [] {
      assert Run(Some(rules), Some(session), parse, ledger) == Marked(ledger, session.id, Flow, xs);
      AfterFv(rules, msgs, ledger, session.id);
    }
  }

  /** A second run on the same transcript appends nothing. */
  lemma Idempotent(rulesText: Option<string>, session: Option<Session>, parse: Parser, ledger: Option<string>)
    requires WellTerminated(ledger)
    requires session.Some? ==> ValidSessionId(session.value.id)
    ensures Run(rulesText, session, parse, Run(rulesText, session, parse, ledger))
         == Run(rulesText, session, parse, ledger)
  {
    if rulesText.Some? && session.Some? && Phrases(rulesText.value) != [] {
      var rules := rulesText.value;
      var sid := session.value.id;
      var msgs := Load(session.value.transcript, parse);
      var l := Run(rulesText, session, parse, ledger);
      StopHookSkipsMarked(rules, session.value, parse, ledger);
      AgreesWithStopHook(rules, msgs, l, sid);
      assert NewMarks(rules, msgs, l, sid) == [];
    }
  }

  /**
   * A comment of blanks only (`<!-- voluntary-keywords: , -->`) gives the helper no phrases, so
   * it marks nothing, while the stop hook's empty pattern matches every candidate message.
   */
  lemma BlankPhrasesDiverge(rules: string, msgs: seq<Message>, ledger: Option<string>, sid: string, i: nat)
    requires ReadComment(rules, CommentName) != "" && Phrases(rules) == []
    requires i < |msgs| && Candidate(msgs[i]) && i !in Seen(ledger, sid, Flow)
    ensures NewMarks(rules, msgs, ledger, sid) == []
    ensures i in NewVoluntary(rules, msgs, ledger, sid)
  {
    var csv := ReadComment(rules, CommentName);
    assert CsvEntries(csv) == [] by {
      ReadCommentOfFound(rules);
    }
    BlankEntriesMatchAll(csv, msgs, ledger, sid, i);
  }

  /** With a non-empty comment of blanks only, flow 1b takes every unseen candidate. */
  lemma BlankEntriesMatchAll(csv: string, msgs: seq<Message>, ledger: Option<string>, sid: string, i: nat)
    requires csv != "" && CsvEntries(csv) == []
    requires i < |msgs| && Candidate(msgs[i]) && i !in Seen(ledger, sid, Flow)
    ensures i in NewFor(csv, Substring, msgs, ledger, sid, Flow)
  {
    EmptyPatternPositive(msgs[i]);
    NewForOfEntries(csv, Substring, msgs, ledger, sid, Flow);
    NewForMembers(csv, Substring, msgs, ledger, sid, Flow, NewFor(csv, Substring, msgs, ledger, sid, Flow));
  }

  /** The empty pattern matches at the start of every text, so every candidate is positive. */
  lemma EmptyPatternPositive(msg: Message)
    requires Candidate(msg)
    ensures IsPositive(msg, Matcher(Substring, []))
  {
    var t := ExtractText(msg.content);
    assert MatchAt(Substring, t, 0, Alternatives([])[0]);
  }
}
