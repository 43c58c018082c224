/**
 * Flow 2: self-discovered learnings. An assistant message that states the three labelled
 * fields (by default `ROOT_CAUSE: `, `RULE: `, `DESTINATION: `) yields one learning.
 */
module Learnings {
  import opened Wrappers
  import opened Strings
  import opened Transcript
  import opened Rules
  import opened Indices

  /** The three labels, each a field name followed by `": "`. */
  datatype Labels = Labels(rootCause: string, rule: string, destination: string)

  /**
   * The labels from the `learning-fields` value; None where the hook stops: an empty value,
   * or fewer than three comma-separated names (blank names are kept).
   */
  function LearningLabels(def: string): (r: Option<Labels>)
    ensures r.Some? <==> def != "" && |SplitOn(def, ',')| >= 3
    ensures r.Some? ==> |r.value.rootCause| >= 2 && |r.value.rule| >= 2 && |r.value.destination| >= 2
    ensures r.Some? ==>
      var pieces := SplitOn(def, ',');
      r.value == Labels(Strip(pieces[0]) + ": ", Strip(pieces[1]) + ": ", Strip(pieces[2]) + ": ")
  {
    if def == "" then None
    else
      var names := FieldNames(def);
      if |names| < 3 then None
      else Some(Labels(names[0] + ": ", names[1] + ": ", names[2] + ": "))
  }

  /** Field names written as a comma-separated list read back as labels of those names. */
  lemma LabelsOfJoin(ns: seq<string>)
    requires |ns| >= 3
    requires forall j :: 0 <= j < |ns| ==> Trimmed(ns[j]) && ',' !in ns[j]
    ensures LearningLabels(Join(ns, ",")) == Some(Labels(ns[0] + ": ", ns[1] + ": ", ns[2] + ": "))
  {
    var def := Join(ns, ",");
    assert def == ns[0] + "," + Join(ns[1..], ",");
    FieldNamesOfJoin(ns);
  }

  /** The text carries all three labels. */
  predicate Qualifies(t: string, labels: Labels) {
    Contains(t, labels.rootCause) && Contains(t, labels.rule) && Contains(t, labels.destination)
  }

  /** `text.split(label)[1]`: what lies between the first and the second occurrence of the label. */
  function AfterFirst(t: string, lab: string): (r: string)
    requires lab != [] && Contains(t, lab)
  {
    IndexFromContains(t, lab);
    var i := IndexFrom(t, lab, 0).value;
    var rest := t[i + |lab|..];
    match IndexFrom(rest, lab, 0)
    case Some(j) => rest[..j]
    case None => rest
  }

  /** `text.split(label)[1].split("\n")[0].strip()`: one stripped line. */
  function FieldValue(t: string, lab: string): (r: string)
    requires lab != [] && Contains(t, lab)
    ensures '\n' !in r && Trimmed(r)
  {
    var first := SplitOn(AfterFirst(t, lab), '\n')[0];
    StripChars(first);
    Strip(first)
  }

  /**
   * Writing a field and reading it back: when the label first occurs at the end of `pre`
   * and the value, a stripped line that does not hold the label, is followed by a newline,
   * the value read is the value written.
   */
  lemma FieldValueOf(pre: string, lab: string, v: string, post: string)
    requires lab != [] && '\n' !in lab
    requires forall k :: 0 <= k < |pre| ==> !StartsAt(pre + lab, k, lab)
    requires '\n' !in v && Trimmed(v) && !Contains(v, lab)
    ensures Contains(pre + lab + v + "\n" + post, lab)
    ensures FieldValue(pre + lab + v + "\n" + post, lab) == v
  {
    var t := pre + lab + v + "\n" + post;
    var rest := v + "\n" + post;
    assert t == (pre + lab) + rest;
    assert StartsAt(t, |pre|, lab) by {
      assert t[|pre|..|pre| + |lab|] == lab;
    }
    forall k | 0 <= k < |pre|
      ensures !StartsAt(t, k, lab)
    {
      var pl := pre + lab;
      assert k + |lab| <= |pl|;
      assert t[..|pl|] == pl;
      assert t[k..k + |lab|] == pl[k..k + |lab|];
      assert !StartsAt(pl, k, lab);
    }
    assert IndexFrom(t, lab, 0) == Some(|pre|) by {
      IndexFromContains(t, lab);
      IndexFromSpec(t, lab, 0);
    }
    assert t[|pre| + |lab|..] == rest;
    match IndexFrom(rest, lab, 0)
    case Some(j) =>
      NoLabelBeforeNewline(v, post, lab, j);
      assert rest[..j] == v + "\n" + rest[|v| + 1..j];
      SplitOnFirst(v, '\n', rest[|v| + 1..j]);
    case None =>
      assert rest == v + "\n" + post;
      SplitOnFirst(v, '\n', post);
  }

  /** A label without newlines cannot occur in `v + "\n" + post` before the newline. */
  lemma NoLabelBeforeNewline(v: string, post: string, lab: string, j: nat)
    requires lab != [] && '\n' !in lab && !Contains(v, lab)
    requires StartsAt(v + "\n" + post, j, lab)
    ensures j > |v|
  {
    var rest := v + "\n" + post;
    if j + |lab| <= |v| {
      assert rest[j..j + |lab|] == v[j..j + |lab|];
      assert StartsAt(v, j, lab);
    }
    assert rest[|v|] == '\n';
  }

  /** `entry["root_cause"].split(".")[0][:80]`. */
  function Title(rootCause: string): (r: string)
    ensures |r| <= 80 && '.' !in r && r <= rootCause
    ensures |r| == 80 || r == rootCause || (|r| < |rootCause| && rootCause[|r|] == '.')
  {
    var first := SplitOn(rootCause, '.')[0];
    assert first == rootCause || (|first| < |rootCause| && rootCause[|first|] == '.');
    Take(first, 80)
  }

  /** One extracted learning: the message index and the three stripped values. */
  datatype Learning = Learning(idx: nat, rootCause: string, rule: string, dest: string)

  /** The first text carrying all three labels (the `break` after the first hit). */
  function FirstQualifying(texts: seq<string>, labels: Labels): (r: Option<string>)
    ensures r.Some? ==> r.value in texts && Qualifies(r.value, labels)
    ensures r.None? <==> forall k :: 0 <= k < |texts| ==> !Qualifies(texts[k], labels)
  {
    if texts == [] then None
    else if Qualifies(texts[0], labels) then Some(texts[0])
    else
      var r := FirstQualifying(texts[1..], labels);
      assert forall k :: 1 <= k < |texts| ==> texts[k] == texts[1..][k - 1];
      r
  }

  /** The text chosen is the first that qualifies: every earlier text lacks a label. */
  lemma {:induction false} FirstQualifyingIsFirst(texts: seq<string>, labels: Labels, k: nat)
    requires k < |texts| && Qualifies(texts[k], labels)
    requires forall j :: 0 <= j < k ==> !Qualifies(texts[j], labels)
    ensures FirstQualifying(texts, labels) == Some(texts[k])
  {
    if k > 0 {
      var tail := texts[1..];
      assert tail[k - 1] == texts[k];
      assert forall j :: 0 <= j < k - 1 ==> tail[j] == texts[j + 1];
      FirstQualifyingIsFirst(tail, labels, k - 1);
    }
  }

  /** The learning a message yields, if any: only unseen assistant records are inspected. */
  function LearningOf(msg: Message, idx: nat, seen: set<int>, labels: Labels): Option<Learning>
    requires |labels.rootCause| >= 1 && |labels.rule| >= 1 && |labels.destination| >= 1
  {
    if msg.kind != Some("assistant") || idx as int in seen then None
    else match FirstQualifying(Texts(msg.content), labels)
      case None => None
      case Some(t) =>
        Some(Learning(idx, FieldValue(t, labels.rootCause), FieldValue(t, labels.rule),
                      FieldValue(t, labels.destination)))
  }

  predicate WellFormed(labels: Labels) {
    |labels.rootCause| >= 1 && |labels.rule| >= 1 && |labels.destination| >= 1
  }

  /** What each message yields, by index. */
  function Candidates(msgs: seq<Message>, seen: set<int>, labels: Labels): (r: seq<Option<Learning>>)
    requires WellFormed(labels)
    ensures |r| == |msgs|
  {
    seq(|msgs|, i requires 0 <= i < |msgs| => LearningOf(msgs[i], i, seen, labels))
  }

  /** The present learnings of a list of options, in order. */
  function Gathered(os: seq<Option<Learning>>): seq<Learning> {
    if os == [] then [] else Gathered(os[..|os| - 1]) + Listed(os[|os| - 1])
  }

  /** The learning as a list of at most one. */
  function Listed(l: Option<Learning>): seq<Learning> {
    if l.Some? then [l.value] else []
  }

  /** The learnings of the transcript, in message order. */
  function LearningsOf(msgs: seq<Message>, seen: set<int>, labels: Labels): seq<Learning>
    requires WellFormed(labels)
  {
    Gathered(Candidates(msgs, seen, labels))
  }

  /** The message indices of the learnings, in order: what flow 2 marks as seen. */
  function IndicesOf(ls: seq<Learning>): seq<nat> {
    seq(|ls|, k requires 0 <= k < |ls| => ls[k].idx)
  }

  /** The message at `i` yields a learning: an unseen assistant record with a qualifying text. */
  predicate Yields(msgs: seq<Message>, i: int, seen: set<int>, labels: Labels) {
    0 <= i < |msgs| && msgs[i].kind == Some("assistant") && i !in seen
    && exists k :: 0 <= k < |Texts(msgs[i].content)| && Qualifies(Texts(msgs[i].content)[k], labels)
  }

  /** What one message contributes: a learning exactly when it yields one, at its own index. */
  lemma LearningOfYields(msgs: seq<Message>, i: nat, seen: set<int>, labels: Labels)
    requires i < |msgs| && WellFormed(labels)
    ensures LearningOf(msgs[i], i, seen, labels).Some? <==> Yields(msgs, i, seen, labels)
    ensures LearningOf(msgs[i], i, seen, labels).Some? ==> LearningOf(msgs[i], i, seen, labels).value.idx == i
  {
    var texts := Texts(msgs[i].content);
    assert FirstQualifying(texts, labels).None? <==> forall k :: 0 <= k < |texts| ==> !Qualifies(texts[k], labels);
  }

  lemma IndicesOfAppend(ls: seq<Learning>, extra: seq<Learning>)
    ensures IndicesOf(ls + extra) == IndicesOf(ls) + IndicesOf(extra)
  {
  }

  lemma IndicesOfListed(l: Option<Learning>)
    ensures IndicesOf(Listed(l)) == if l.Some? then [l.value.idx] else []
  {
  }

  /** Each option is absent or a learning that carries its own position. */
  predicate AtOwnIndex(os: seq<Option<Learning>>) {
    forall i :: 0 <= i < |os| && os[i].Some? ==> os[i].value.idx == i
  }

  lemma GatheredSnoc(os: seq<Option<Learning>>, i: nat)
    requires i < |os|
    ensures Gathered(os[..i + 1]) == Gathered(os[..i]) + Listed(os[i])
  {
    assert os[..i + 1][..i] == os[..i];
  }

  lemma AtOwnIndexInit(os: seq<Option<Learning>>)
    requires os != [] && AtOwnIndex(os)
    ensures AtOwnIndex(os[..|os| - 1])
  {
    var init := os[..|os| - 1];
    forall i | 0 <= i < |init| && init[i].Some?
      ensures init[i].value.idx == i
    {
      assert init[i] == os[i];
    }
  }

  /** A position is gathered exactly when its option is present. */
  lemma {:induction false} GatheredMembers(os: seq<Option<Learning>>)
    requires AtOwnIndex(os)
    ensures forall i :: i in IndicesOf(Gathered(os)) <==> 0 <= i < |os| && os[i].Some?
  {
    if os != [] {
      var n := |os| - 1;
      var init := os[..n];
      AtOwnIndexInit(os);
      GatheredMembers(init);
      IndicesOfAppend(Gathered(init), Listed(os[n]));
      IndicesOfListed(os[n]);
      assert forall i :: 0 <= i < n ==> init[i] == os[i];
    }
  }

  /** The gathered positions ascend. */
  lemma {:induction false} GatheredIncreasing(os: seq<Option<Learning>>)
    requires AtOwnIndex(os)
    ensures Increasing(IndicesOf(Gathered(os)))
  {
    if os != [] {
      var n := |os| - 1;
      var init := os[..n];
      var pi := IndicesOf(Gathered(init));
      AtOwnIndexInit(os);
      GatheredIncreasing(init);
      IndicesOfAppend(Gathered(init), Listed(os[n]));
      IndicesOfListed(os[n]);
      if os[n].Some? {
        GatheredMembers(init);
        forall k | 0 <= k < |pi|
          ensures pi[k] < n
        {
          assert pi[k] in pi;
        }
        IncreasingSnoc(pi, n);
      } else {
        assert pi + [] == pi;
      }
    }
  }

  /** Every gathered learning is one of the present options. */
  lemma {:induction false} GatheredValues(os: seq<Option<Learning>>)
    ensures forall l :: l in Gathered(os) ==> Some(l) in os
  {
    if os != [] {
      var n := |os| - 1;
      GatheredValues(os[..n]);
      assert forall o :: o in os[..n] ==> o in os;
    }
  }

  /** A message's learning holds stripped single-line values. */
  lemma LearningOfValues(msg: Message, idx: nat, seen: set<int>, labels: Labels)
    requires WellFormed(labels)
    ensures var l := LearningOf(msg, idx, seen, labels);
      l.Some? ==> ('\n' !in l.value.rootCause && Trimmed(l.value.rootCause) && '\n' !in l.value.rule
        && Trimmed(l.value.rule) && '\n' !in l.value.dest && Trimmed(l.value.dest))
  {
  }

  /** Every message's option is present exactly when it yields, and carries its own index. */
  lemma CandidatesSpec(msgs: seq<Message>, seen: set<int>, labels: Labels)
    requires WellFormed(labels)
    ensures var cs := Candidates(msgs, seen, labels);
      AtOwnIndex(cs) && forall i :: 0 <= i < |msgs| ==> (cs[i].Some? <==> Yields(msgs, i, seen, labels))
  {
    var cs := Candidates(msgs, seen, labels);
    forall i | 0 <= i < |msgs|
      ensures (cs[i].Some? <==> Yields(msgs, i, seen, labels)) && (cs[i].Some? ==> cs[i].value.idx == i)
    {
      LearningOfYields(msgs, i, seen, labels);
    }
  }

  /**
   * Flow 2 collects one learning per yielding message, in ascending index order, and nothing
   * else; every learning's values are stripped single lines.
   */
  lemma LearningsSpec(msgs: seq<Message>, seen: set<int>, labels: Labels)
    requires WellFormed(labels)
    ensures forall i :: i in IndicesOf(LearningsOf(msgs, seen, labels)) <==> Yields(msgs, i, seen, labels)
    ensures Increasing(IndicesOf(LearningsOf(msgs, seen, labels)))
    ensures forall l :: l in LearningsOf(msgs, seen, labels) ==>
      '\n' !in l.rootCause && Trimmed(l.rootCause) && '\n' !in l.rule && Trimmed(l.rule)
      && '\n' !in l.dest && Trimmed(l.dest)
    ensures forall l :: l in LearningsOf(msgs, seen, labels) ==>
      l.idx < |msgs| && LearningOf(msgs[l.idx], l.idx, seen, labels) == Some(l)
  {
    var cs := Candidates(msgs, seen, labels);
    CandidatesSpec(msgs, seen, labels);
    GatheredMembers(cs);
    GatheredIncreasing(cs);
    GatheredValues(cs);
    forall l | l in Gathered(cs)
      ensures l.idx < |msgs| && LearningOf(msgs[l.idx], l.idx, seen, labels) == Some(l)
    {
      var i :| 0 <= i < |cs| && cs[i] == Some(l);
      assert cs[i].value.idx == i;
    }
    forall l | l in Gathered(cs)
      ensures '\n' !in l.rootCause && Trimmed(l.rootCause) && '\n' !in l.rule && Trimmed(l.rule)
        && '\n' !in l.dest && Trimmed(l.dest)
    {
      var i :| 0 <= i < |cs| && cs[i] == Some(l);
      LearningOfValues(msgs[i], i, seen, labels);
    }
  }

  /** Once flow 2 has marked its learnings, no message yields one again. */
  lemma LearningsAfterMark(msgs: seq<Message>, seen: set<int>, more: set<int>, labels: Labels)
    requires WellFormed(labels)
    requires Elems(IndicesOf(LearningsOf(msgs, seen, labels))) <= more
    requires seen <= more
    ensures LearningsOf(msgs, more, labels) == []
  {
    LearningsSpec(msgs, seen, labels);
    LearningsSpec(msgs, more, labels);
    var ri := IndicesOf(LearningsOf(msgs, more, labels));
    assert |ri| > 0 ==> ri[0] in ri && Yields(msgs, ri[0], seen, labels);
  }

  /** The loop over the messages with its inner loop over the texts and its `break`. */
  method CollectLearnings(msgs: seq<Message>, seen: set<int>, labels: Labels) returns (ls: seq<Learning>)
    requires WellFormed(labels)
    ensures ls == LearningsOf(msgs, seen, labels)
  {
    ls := [];
    var idx := 0;
    while idx < |msgs|
      invariant 0 <= idx <= |msgs|
      invariant ls == Gathered(Candidates(msgs, seen, labels)[..idx])
    {
      GatheredSnoc(Candidates(msgs, seen, labels), idx);
      var msg := msgs[idx];
      if msg.kind == Some("assistant") && idx !in seen {
        var texts := Texts(msg.content);
        var k := 0;
        while k < |texts|
          invariant 0 <= k <= |texts|
          invariant FirstQualifying(texts[k..], labels) == FirstQualifying(texts, labels)
        {
          var text := texts[k];
          if Qualifies(text, labels) {
            ls := ls + [Learning(idx, FieldValue(text, labels.rootCause), FieldValue(text, labels.rule),
                                 FieldValue(text, labels.destination))];
            break;
          }
          assert texts[k..][1..] == texts[k + 1..];
          k := k + 1;
        }
      }
      idx := idx + 1;
    }
    assert Candidates(msgs, seen, labels)[..idx] == Candidates(msgs, seen, labels);
  }

  /* ---- the unprocessed-corrections entries ---- */

  /**
   * One learning block: a titled header with `[msg:N]`, then the three labelled values, on
   * four lines separated by newlines (no newline after the last).
   */
  function LearningBlock(l: Learning): string {
    Join(BlockLines(l), "\n")
  }

  /** The four lines of a block, without their newlines. */
  function BlockLines(l: Learning): seq<string> {
    ["## " + Title(l.rootCause) + " [msg:" + NatToString(l.idx) + "]",
     "**Root cause:** " + l.rootCause, "**Rule:** " + l.rule, "**Destination:** " + l.dest]
  }

  /** One block per learning, in order. */
  function BlocksOf(ls: seq<Learning>): (r: seq<string>)
    ensures |r| == |ls|
  {
    if ls == [] then [] else BlocksOf(ls[..|ls| - 1]) + [LearningBlock(ls[|ls| - 1])]
  }

  /** `"\n\n".join(learning_blocks)`. */
  function RenderLearnings(ls: seq<Learning>): string {
    Join(BlocksOf(ls), "\n\n")
  }

  /** The loop that fills `learning_blocks`, then the join. */
  method RenderBlocks(ls: seq<Learning>) returns (text: string)
    ensures text == RenderLearnings(ls)
  {
    var blocks: seq<string> := [];
    var k := 0;
    while k < |ls|
      invariant 0 <= k <= |ls|
      invariant blocks == BlocksOf(ls[..k])
    {
      assert ls[..k + 1][..k] == ls[..k];
      blocks := blocks + [LearningBlock(ls[k])];
      k := k + 1;
    }
    assert ls[..k] == ls;
    text := Join(blocks, "\n\n");
  }

  /** The k-th block renders the k-th learning. */
  lemma {:induction false} BlocksOfAt(ls: seq<Learning>, k: nat)
    requires k < |ls|
    ensures BlocksOf(ls)[k] == LearningBlock(ls[k])
  {
    if k < |ls| - 1 {
      assert ls[..|ls| - 1][k] == ls[k];
      BlocksOfAt(ls[..|ls| - 1], k);
    }
  }

  /**
   * A block whose values are single lines splits back into exactly four lines: the header and
   * the three labelled values, so a reader can recover every field.
   */
  lemma LearningBlockLines(l: Learning)
    requires '\n' !in l.rootCause && '\n' !in l.rule && '\n' !in l.dest
    ensures SplitOn(LearningBlock(l), '\n') == [
      "## " + Title(l.rootCause) + " [msg:" + NatToString(l.idx) + "]",
      "**Root cause:** " + l.rootCause,
      "**Rule:** " + l.rule,
      "**Destination:** " + l.dest]
  {
    var ls := BlockLines(l);
    assert '\n' !in Title(l.rootCause) by {
      TitleChars(l.rootCause);
    }
    assert ls == [ls[0], ls[1], ls[2], ls[3]];
    SplitFour(ls[0], ls[1], ls[2], ls[3]);
  }

  /** Four newline-free lines joined on newlines split back into those lines. */
  lemma SplitFour(a: string, b: string, c: string, d: string)
    requires '\n' !in a && '\n' !in b && '\n' !in c && '\n' !in d
    ensures SplitOn(Join([a, b, c, d], "\n"), '\n') == [a, b, c, d]
  {
    SplitJoin([a, b, c, d], '\n');
  }

  /** The title is taken from the root cause, so it holds no character the root cause lacks. */
  lemma TitleChars(rootCause: string)
    ensures forall x :: x in Title(rootCause) ==> x in rootCause
  {
    var t := Title(rootCause);
    assert forall k :: 0 <= k < |t| ==> t[k] == rootCause[k];
  }
}
