/**
 * The context block written with a capture: for each captured user message, the assistant
 * turns around it (abridged) and the message itself.
 */
module Context {
  import opened Wrappers
  import opened Strings
  import opened Transcript

  const UserPrefix := "USER: "
  const ExcerptPrefix := "A: ["

  /** The text of `message.content`. */
  function TextOf(msg: Message): string {
    ExtractText(msg.content)
  }

  /** Whether `message.role` is `"assistant"`. */
  predicate FromAssistant(msg: Message) {
    msg.role == Some("assistant")
  }

  /** `f"A: [{text[:200]}]"`. */
  function Excerpt(msg: Message): string {
    ExcerptPrefix + Take(TextOf(msg), 200) + "]"
  }

  /** An excerpt starts with `A: [` and has at most 205 characters. */
  lemma ExcerptShape(msg: Message)
    ensures |Excerpt(msg)| <= 205 && StartsAt(Excerpt(msg), 0, ExcerptPrefix)
  {
    var r := Excerpt(msg);
    assert r[..4] == ExcerptPrefix;
  }

  predicate ValidIndices(msgs: seq<Message>, xs: seq<nat>) {
    forall k :: 0 <= k < |xs| ==> xs[k] < |msgs|
  }

  /** The lines for one index: preceding excerpt, the user line, following excerpt, a blank. */
  function Window(msgs: seq<Message>, idx: nat): seq<string>
    requires idx < |msgs|
  {
    Preceding(msgs, idx) + [UserLine(msgs[idx])] + Following(msgs, idx) + [""]
  }

  /** The excerpt of the preceding message when it is an assistant turn. */
  function Preceding(msgs: seq<Message>, idx: nat): seq<string>
    requires idx < |msgs|
  {
    if idx > 0 && FromAssistant(msgs[idx - 1]) then [Excerpt(msgs[idx - 1])] else []
  }

  /** The excerpt of the following message when it is an assistant turn. */
  function Following(msgs: seq<Message>, idx: nat): seq<string>
    requires idx < |msgs|
  {
    if idx + 1 < |msgs| && FromAssistant(msgs[idx + 1]) then [Excerpt(msgs[idx + 1])] else []
  }

  /** `f"USER: {text}"`. */
  function UserLine(msg: Message): string {
    UserPrefix + TextOf(msg)
  }

  /** The `lines` list after the loop has handled the given indices. */
  function ContextLines(msgs: seq<Message>, xs: seq<nat>): seq<string>
    requires ValidIndices(msgs, xs)
  {
    if xs == [] then []
    else ContextLines(msgs, xs[..|xs| - 1]) + Window(msgs, xs[|xs| - 1])
  }

  /** `build_context(messages, indices)`. */
  method BuildContext(msgs: seq<Message>, xs: seq<nat>) returns (context: string)
    requires ValidIndices(msgs, xs)
    ensures context == Join(ContextLines(msgs, xs), "\n")
  {
    var lines: seq<string> := [];
    var k := 0;
    while k < |xs|
      invariant 0 <= k <= |xs|
      invariant lines == ContextLines(msgs, xs[..k])
    {
      var idx := xs[k];
      ContextLinesSnoc(msgs, xs, k);
      ghost var before := lines;
      if idx > 0 && FromAssistant(msgs[idx - 1]) {
        lines := lines + [Excerpt(msgs[idx - 1])];
      }
      assert lines == before + Preceding(msgs, idx);
      lines := lines + [UserLine(msgs[idx])];
      ghost var middle := lines;
      if idx + 1 < |msgs| && FromAssistant(msgs[idx + 1]) {
        lines := lines + [Excerpt(msgs[idx + 1])];
      }
      assert lines == middle + Following(msgs, idx);
      lines := lines + [""];
      assert lines == before + Window(msgs, idx) by {
        WindowStep(before, msgs, idx);
      }
      k := k + 1;
    }
    assert xs[..k] == xs;
    context := Join(lines, "\n");
  }

  lemma ContextLinesSnoc(msgs: seq<Message>, xs: seq<nat>, k: nat)
    requires ValidIndices(msgs, xs) && k < |xs|
    ensures ContextLines(msgs, xs[..k + 1]) == ContextLines(msgs, xs[..k]) + Window(msgs, xs[k])
  {
    assert xs[..k + 1][..k] == xs[..k];
  }

  lemma WindowStep(before: seq<string>, msgs: seq<Message>, idx: nat)
    requires idx < |msgs|
    ensures before + Preceding(msgs, idx) + [UserLine(msgs[idx])] + Following(msgs, idx) + [""]
         == before + Window(msgs, idx)
  {
  }

  /* ---- what the block says ---- */

  /** The texts of the `USER: ` lines, in order. */
  function UserTexts(lines: seq<string>): seq<string> {
    if lines == [] then []
    else
      UserTexts(lines[..|lines| - 1]) + UserText(lines[|lines| - 1])
  }

  /** The text of a `USER: ` line; nothing for any other line. */
  function UserText(l: string): seq<string> {
    if StartsAt(l, 0, UserPrefix) then [l[6..]] else []
  }

  /** The texts of the given messages, in the given order. */
  function TextsAt(msgs: seq<Message>, xs: seq<nat>): seq<string>
    requires ValidIndices(msgs, xs)
  {
    if xs == [] then [] else TextsAt(msgs, xs[..|xs| - 1]) + [TextOf(msgs[xs[|xs| - 1]])]
  }

  lemma {:induction false} UserTextsAppend(a: seq<string>, b: seq<string>)
    ensures UserTexts(a + b) == UserTexts(a) + UserTexts(b)
    decreases |b|
  {
    if b == [] {
      assert a + b == a;
    } else {
      assert (a + b)[..|a + b| - 1] == a + b[..|b| - 1];
      UserTextsAppend(a, b[..|b| - 1]);
    }
  }

  lemma UserTextsOne(l: string)
    ensures UserTexts([l]) == UserText(l)
  {
    assert [l][..0] == [];
  }

  lemma ExcerptNotUser(msg: Message)
    ensures !StartsAt(Excerpt(msg), 0, UserPrefix)
  {
    var r := Excerpt(msg);
    assert r[0] == 'A';
  }

  /** The optional excerpt line contributes no user text. */
  lemma NoUserTextInExcerpts(ls: seq<string>, msg: Message)
    requires ls == [] || ls == [Excerpt(msg)]
    ensures UserTexts(ls) == []
  {
    if ls != [] {
      UserTextsOne(Excerpt(msg));
      ExcerptNotUser(msg);
    }
  }

  /** Each window holds exactly one `USER: ` line, carrying the full text of its message. */
  lemma WindowUserText(msgs: seq<Message>, idx: nat)
    requires idx < |msgs|
    ensures UserTexts(Window(msgs, idx)) == [TextOf(msgs[idx])]
  {
    var before, after := Preceding(msgs, idx), Following(msgs, idx);
    var user := UserLine(msgs[idx]);
    var t := TextOf(msgs[idx]);
    assert UserTexts(before) == [] by {
      if idx > 0 {
        NoUserTextInExcerpts(before, msgs[idx - 1]);
      }
    }
    assert UserTexts(after) == [] by {
      if idx + 1 < |msgs| {
        NoUserTextInExcerpts(after, msgs[idx + 1]);
      }
    }
    assert UserTexts([user]) == [t] by {
      UserTextsOne(user);
      assert user[..6] == UserPrefix;
      assert user[6..] == t;
    }
    assert UserTexts([""]) == [] by {
      UserTextsOne("");
    }
    var a := before + [user];
    assert UserTexts(a) == [t] by {
      UserTextsAppend(before, [user]);
    }
    var b := a + after;
    assert UserTexts(b) == [t] by {
      UserTextsAppend(a, after);
    }
    UserTextsAppend(b, [""]);
  }

  /**
   * The `lines` list, before the newline-join, carries every captured message in full, once, in
   * index order, and no other `USER: ` lines.
   */
  lemma {:induction false} ContextUserTexts(msgs: seq<Message>, xs: seq<nat>)
    requires ValidIndices(msgs, xs)
    ensures UserTexts(ContextLines(msgs, xs)) == TextsAt(msgs, xs)
  {
    if xs != [] {
      var n := |xs| - 1;
      ContextUserTexts(msgs, xs[..n]);
      UserTextsAppend(ContextLines(msgs, xs[..n]), Window(msgs, xs[n]));
      WindowUserText(msgs, xs[n]);
    }
  }

  /** An element of the `lines` list, before the newline-join: blank, an excerpt of at most 205 characters, or a `USER: ` line. */
  predicate ContextLine(l: string) {
    l == "" || (StartsAt(l, 0, ExcerptPrefix) && |l| <= 205) || StartsAt(l, 0, UserPrefix)
  }

  lemma WindowShapes(msgs: seq<Message>, idx: nat)
    requires idx < |msgs|
    ensures forall l :: l in Window(msgs, idx) ==> ContextLine(l)
  {
    var before, after := Preceding(msgs, idx), Following(msgs, idx);
    var user := UserLine(msgs[idx]);
    assert forall l :: l in before ==> ContextLine(l) by {
      if idx > 0 {
        ExcerptShape(msgs[idx - 1]);
      }
    }
    assert forall l :: l in after ==> ContextLine(l) by {
      if idx + 1 < |msgs| {
        ExcerptShape(msgs[idx + 1]);
      }
    }
    assert ContextLine(user) by {
      assert user[..6] == UserPrefix;
    }
    assert ContextLine("");
  }

  /** Every element of the `lines` list is blank, an excerpt of at most 205 characters, or a `USER: ` line. */
  lemma {:induction false} ContextLineShapes(msgs: seq<Message>, xs: seq<nat>)
    requires ValidIndices(msgs, xs)
    ensures forall l :: l in ContextLines(msgs, xs) ==> ContextLine(l)
  {
    if xs != [] {
      var n := |xs| - 1;
      ContextLineShapes(msgs, xs[..n]);
      WindowShapes(msgs, xs[n]);
    }
  }
}
