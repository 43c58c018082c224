/**
 * Which user messages count as corrections (whole-word keyword match) or voluntary
 * captures (substring phrase match), after the false-positive filters.
 */
module Classifier {
  import opened Wrappers
  import opened Strings
  import opened Transcript
  import opened Indices

  /**
   * How the alternatives are searched: `\b(k1|k2|...)\b` (flow 1) or `p1|p2|...` (flow 1b),
   * both case-insensitively.
   */
  datatype Mode = WholeWord | Substring

  datatype Matcher = Matcher(mode: Mode, entries: seq<string>)

  /**
   * The alternatives of the joined pattern. An empty list still leaves one empty
   * alternative: `\b()\b` and the empty pattern.
   */
  function Alternatives(xs: seq<string>): (r: seq<string>)
    ensures |r| >= 1 && (xs != [] ==> r == xs)
  {
    if xs == [] then [""] else xs
  }

  /** `p` occurs at `i` in `t` up to ASCII case. */
  predicate CIOccursAt(t: string, i: nat, p: string) {
    i + |p| <= |t| && Lower(t[i..i + |p|]) == Lower(p)
  }

  /** `\b` at position `i`: exactly one of the neighbouring characters is a word character. */
  predicate Boundary(t: string, i: nat)
    requires i <= |t|
  {
    (i > 0 && IsWordChar(t[i - 1])) != (i < |t| && IsWordChar(t[i]))
  }

  /** The alternative `p` matches at `i` under the mode. */
  predicate MatchAt(mode: Mode, t: string, i: nat, p: string) {
    CIOccursAt(t, i, p) && (mode == WholeWord ==> Boundary(t, i) && Boundary(t, i + |p|))
  }

  /** `re.search(pattern, t, re.IGNORECASE)` finds a match. */
  predicate Matches(m: Matcher, t: string) {
    var alts := Alternatives(m.entries);
    exists i, j :: 0 <= i <= |t| && 0 <= j < |alts| && MatchAt(m.mode, t, i, alts[j])
  }

  /** The false-positive filters: a user record, 1 to 500 characters, no teammate marker. */
  predicate Candidate(msg: Message) {
    var t := ExtractText(msg.content);
    msg.kind == Some("user") && t != "" && |t| <= 500 && !Contains(t, "<teammate-message")
  }

  predicate IsPositive(msg: Message, m: Matcher) {
    Candidate(msg) && Matches(m, ExtractText(msg.content))
  }

  /** The positive indices among the first `n` messages, in index order. */
  function PositivesUpTo(msgs: seq<Message>, m: Matcher, n: nat): seq<nat>
    requires n <= |msgs|
  {
    if n == 0 then []
    else PositivesUpTo(msgs, m, n - 1) + (if IsPositive(msgs[n - 1], m) then [n - 1] else [])
  }

  function Positives(msgs: seq<Message>, m: Matcher): seq<nat> {
    PositivesUpTo(msgs, m, |msgs|)
  }

  /** An index is collected exactly when its message is positive; the list ascends. */
  lemma {:induction false} PositivesUpToSpec(msgs: seq<Message>, m: Matcher, n: nat)
    requires n <= |msgs|
    ensures forall i :: i in PositivesUpTo(msgs, m, n) <==> 0 <= i < n && IsPositive(msgs[i], m)
    ensures Increasing(PositivesUpTo(msgs, m, n))
  {
    if n > 0 {
      PositivesUpToSpec(msgs, m, n - 1);
      var prev := PositivesUpTo(msgs, m, n - 1);
      assert forall k :: 0 <= k < |prev| ==> prev[k] < n - 1 by {
        forall k | 0 <= k < |prev| ensures prev[k] < n - 1 {
          assert prev[k] in prev;
        }
      }
    }
  }

  lemma PositivesSpec(msgs: seq<Message>, m: Matcher)
    ensures forall i :: i in Positives(msgs, m) <==> 0 <= i < |msgs| && IsPositive(msgs[i], m)
    ensures Increasing(Positives(msgs, m))
  {
    PositivesUpToSpec(msgs, m, |msgs|);
  }

  /** A message holding the teammate marker is never positive, whatever it contains. */
  lemma TeammateNeverPositive(msgs: seq<Message>, m: Matcher, i: nat)
    requires i < |msgs| && Contains(ExtractText(msgs[i].content), "<teammate-message")
    ensures i !in Positives(msgs, m)
  {
    PositivesSpec(msgs, m);
  }

  /** The loop over `enumerate(messages)` that collects the matching indices. */
  method CollectPositives(msgs: seq<Message>, m: Matcher) returns (found: seq<nat>)
    ensures found == Positives(msgs, m)
    ensures Increasing(found)
    ensures forall i :: i in found <==> 0 <= i < |msgs| && IsPositive(msgs[i], m)
  {
    found := [];
    var idx := 0;
    while idx < |msgs|
      invariant 0 <= idx <= |msgs|
      invariant found == PositivesUpTo(msgs, m, idx)
    {
      var msg := msgs[idx];
      var text := ExtractText(msg.content);
      if msg.kind == Some("user") && text != "" && |text| <= 500
         && !Contains(text, "<teammate-message") && Matches(m, text)
      {
        found := found + [idx];
      }
      idx := idx + 1;
    }
    PositivesSpec(msgs, m);
  }

  /* ---- word boundaries on the examples the hook's tests use ---- */

  /**
   * The words of the example sentence "the script is not ready, I know another way, we cannot
   * use that" that hold "no": none matches it as a whole word, while the substring phrase "no"
   * matches "cannot".
   */
  lemma NoInsideWords()
    ensures !Matches(Matcher(WholeWord, ["no"]), "not")
    ensures !Matches(Matcher(WholeWord, ["no"]), "know")
    ensures !Matches(Matcher(WholeWord, ["no"]), "another")
    ensures !Matches(Matcher(WholeWord, ["no"]), "cannot")
    ensures Matches(Matcher(Substring, ["no"]), "cannot")
  {
    var t := "cannot";
    var alts := Alternatives(["no"]);
    assert alts[0] == "no";
    assert MatchAt(Substring, t, 3, alts[0]) by {
      assert t[3..5] == "no";
    }
    assert Matches(Matcher(Substring, ["no"]), t);
    NotWholeWordNo("not");
    NotWholeWordNo("know");
    NotWholeWordNo("another");
    NotWholeWordNo("cannot");
  }

  /** In a text that is a single word, "no" occurs only inside that word, never as a whole one. */
  lemma NotWholeWordNo(t: string)
    requires |t| > 2 && forall k :: 0 <= k < |t| ==> 'a' <= t[k] <= 'z'
    ensures !Matches(Matcher(WholeWord, ["no"]), t)
  {
    assert Alternatives(["no"]) == ["no"];
    forall i | 0 <= i <= |t|
      ensures !MatchAt(WholeWord, t, i, "no")
    {
      if 0 < i {
        assert IsWordChar(t[i - 1]);
      }
      if i + 2 < |t| {
        assert IsWordChar(t[i + 2]);
      }
      if i + 2 <= |t| {
        assert IsWordChar(t[i]) && IsWordChar(t[i + 1]);
      }
    }
  }

  lemma NopeMatches()
    ensures Matches(Matcher(WholeWord, ["nope"]), "Nope, line 12")
  {
    var t := "Nope, line 12";
    assert t[0..4] == "Nope";
    assert Lower("Nope") == Lower("nope") by {
      var a, b := Lower("Nope"), Lower("nope");
      assert |a| == 4 == |b|;
      assert forall k :: 0 <= k < 4 ==> a[k] == b[k];
    }
    var alts := Alternatives(["nope"]);
    assert alts[0] == "nope";
    assert Boundary(t, 0) && Boundary(t, 4);
    assert MatchAt(WholeWord, t, 0, alts[0]);
  }
}
