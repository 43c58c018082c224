/**
 * The seen ledger: an append-only text file of `session<TAB>flow<TAB>index` lines recording
 * which message indices a flow has already captured in a session.
 */
module Ledger {
  import opened Wrappers
  import opened Strings
  import opened Indices

  /**
   * A session id that survives the round trip through a ledger line: the reader strips
   * each line, so the id must not start with whitespace, and it must hold no tab, no newline
   * and no carriage return (which the reader's universal-newline mode also ends a line at).
   */
  predicate ValidSessionId(s: string) {
    s != [] && !IsSpace(s[0]) && '\t' !in s && '\n' !in s && '\r' !in s
  }

  predicate ValidFlow(f: string) {
    '\t' !in f && '\n' !in f
  }

  /** The ledger is absent, empty or ends with a newline, so appended lines start afresh. */
  predicate WellTerminated(ledger: Option<string>) {
    ledger.None? || EndsWithNewline(ledger.value)
  }

  /** `f"{session_id}\t{flow}\t{idx}\n"`. */
  function EntryLine(s: string, f: string, i: nat): string {
    s + "\t" + f + "\t" + NatToString(i) + "\n"
  }

  /** The lines `mark_seen` appends, one per index, in the given order. */
  function Entries(s: string, f: string, xs: seq<nat>): (r: string)
    ensures EndsWithNewline(r)
  {
    if xs == [] then "" else Entries(s, f, xs[..|xs| - 1]) + EntryLine(s, f, xs[|xs| - 1])
  }

  /** What one ledger line contributes to `load_seen(s, f)`. */
  function ParseEntry(line: string, s: string, f: string): Option<int> {
    var parts := SplitOn(Strip(line), '\t');
    if |parts| == 3 && parts[0] == s && parts[1] == f then ParseInt(parts[2]) else None
  }

  /** The indices the first lines record for session `s` and flow `f`, in file order. */
  function SeenList(lines: seq<string>, s: string, f: string): seq<int> {
    if lines == [] then []
    else
      var last := ParseEntry(lines[|lines| - 1], s, f);
      SeenList(lines[..|lines| - 1], s, f) + Found(last)
  }

  function SeenIn(text: string, s: string, f: string): seq<int> {
    SeenList(Lines(text), s, f)
  }

  function SeqSet(xs: seq<int>): (r: set<int>)
    ensures forall x :: x in r <==> x in xs
  {
    set x | x in xs
  }

  /** `load_seen(seen_file, s, f)`; a missing ledger records nothing. */
  function Seen(ledger: Option<string>, s: string, f: string): set<int> {
    SeqSet(SeenIn(ledger.GetOr(""), s, f))
  }

  /** The ledger after `mark_seen(seen_file, s, f, xs)`: opening for append creates it. */
  function Marked(ledger: Option<string>, s: string, f: string, xs: seq<nat>): (r: Option<string>)
    ensures r.Some? && ledger.GetOr("") <= r.value
  {
    Some(ledger.GetOr("") + Entries(s, f, xs))
  }

  /* ---- the round trip ---- */

  /** An entry line holds exactly one newline, at its end. */
  lemma EntryLineIsOneLine(s: string, f: string, i: nat)
    requires '\n' !in s && '\n' !in f
    ensures Lines(EntryLine(s, f, i)) == [EntryLine(s, f, i)]
  {
    var line := EntryLine(s, f, i);
    var body := s + "\t" + f + "\t" + NatToString(i);
    assert line == body + "\n";
    assert '\n' !in body;
    assert forall j :: 0 <= j < |line| - 1 ==> line[j] == body[j];
    LinesOfLine(line);
  }

  /** One entry line per index. */
  function EntryLines(s: string, f: string, xs: seq<nat>): seq<string> {
    if xs == [] then [] else EntryLines(s, f, xs[..|xs| - 1]) + [EntryLine(s, f, xs[|xs| - 1])]
  }

  /** The indices as integers, as `int(parts[2])` reads them back. */
  function Ints(xs: seq<nat>): seq<int> {
    seq(|xs|, k requires 0 <= k < |xs| => xs[k] as int)
  }

  lemma IntsSnoc(xs: seq<nat>)
    requires xs != []
    ensures Ints(xs) == Ints(xs[..|xs| - 1]) + [xs[|xs| - 1] as int]
  {
  }

  /** The integers read back are the indices written. */
  lemma IntsElems(xs: seq<nat>)
    ensures SeqSet(Ints(xs)) == Elems(xs)
  {
    var ys := Ints(xs);
    forall x | x in SeqSet(ys)
      ensures x in Elems(xs)
    {
      var k :| 0 <= k < |ys| && ys[k] == x;
      assert xs[k] in xs;
    }
    forall x | x in Elems(xs)
      ensures x in SeqSet(ys)
    {
      var k :| 0 <= k < |xs| && xs[k] == x;
      assert ys[k] in ys;
    }
  }

  /** Reading back the entries gives one line per index. */
  lemma {:induction false} EntriesLines(s: string, f: string, xs: seq<nat>)
    requires '\n' !in s && '\n' !in f
    ensures Lines(Entries(s, f, xs)) == EntryLines(s, f, xs)
  {
    if xs != [] {
      var n := |xs| - 1;
      EntriesLines(s, f, xs[..n]);
      LinesAppend(Entries(s, f, xs[..n]), EntryLine(s, f, xs[n]));
      EntryLineIsOneLine(s, f, xs[n]);
    }
  }

  /** The stripped entry line is the line without its newline. */
  lemma StripEntryLine(s: string, f: string, i: nat)
    requires ValidSessionId(s)
    ensures Strip(EntryLine(s, f, i)) == s + "\t" + (f + "\t" + NatToString(i))
  {
    var digits := NatToString(i);
    var body := s + "\t" + (f + "\t" + digits);
    assert EntryLine(s, f, i) == body + "\n";
    assert body[0] == s[0];
    assert body[|body| - 1] == digits[|digits| - 1];
    StripNewline(body);
  }

  /** The tab-separated parts of an entry are the session, the flow and the number. */
  lemma SplitEntryBody(s: string, f: string, digits: string)
    requires '\t' !in s && '\t' !in f && '\t' !in digits
    ensures SplitOn(s + "\t" + (f + "\t" + digits), '\t') == [s, f, digits]
  {
    var parts := [s, f, digits];
    assert parts[1..] == [f, digits] && parts[1..][1..] == [digits];
    assert Join([digits], "\t") == digits;
    assert Join([f, digits], "\t") == f + "\t" + digits;
    assert Join(parts, "\t") == s + "\t" + (f + "\t" + digits);
    SplitJoin(parts, '\t');
  }

  /** An entry line is read back as its index by its own session and flow, and ignored by others. */
  lemma ParseEntryLine(s: string, f: string, i: nat, s': string, f': string)
    requires ValidSessionId(s) && ValidFlow(f)
    ensures ParseEntry(EntryLine(s, f, i), s', f') == if s == s' && f == f' then Some(i as int) else None
  {
    StripEntryLine(s, f, i);
    SplitEntryBody(s, f, NatToString(i));
    ParseIntOfNatToString(i);
  }

  /** Stripping a line that starts and ends with non-space text removes only the final newline. */
  lemma StripNewline(body: string)
    requires body != [] && !IsSpace(body[0]) && !IsSpace(body[|body| - 1])
    ensures Strip(body + "\n") == body
  {
    var line := body + "\n";
    var t := TrimStart(line);
    assert t == line;
    assert TrimEnd(line) == TrimEnd(body) by {
      assert line[..|line| - 1] == body;
    }
  }

  lemma {:induction false} SeenListAppend(xs: seq<string>, ys: seq<string>, s: string, f: string)
    ensures SeenList(xs + ys, s, f) == SeenList(xs, s, f) + SeenList(ys, s, f)
    decreases |ys|
  {
    if ys == [] {
      assert xs + ys == xs;
    } else {
      var n := |ys| - 1;
      var last := Found(ParseEntry(ys[n], s, f));
      assert (xs + ys)[..|xs + ys| - 1] == xs + ys[..n];
      assert (xs + ys)[|xs + ys| - 1] == ys[n];
      assert SeenList(xs + ys, s, f) == SeenList(xs + ys[..n], s, f) + last;
      assert SeenList(ys, s, f) == SeenList(ys[..n], s, f) + last;
      SeenListAppend(xs, ys[..n], s, f);
    }
  }

  lemma {:induction false} SeenListOfEntries(s: string, f: string, xs: seq<nat>, s': string, f': string)
    requires ValidSessionId(s) && ValidFlow(f)
    ensures SeenList(EntryLines(s, f, xs), s', f') == if s == s' && f == f' then Ints(xs) else []
  {
    if xs != [] {
      var n := |xs| - 1;
      var lines := EntryLines(s, f, xs);
      SeenListOfEntries(s, f, xs[..n], s', f');
      assert lines[..|lines| - 1] == EntryLines(s, f, xs[..n]);
      ParseEntryLine(s, f, xs[n], s', f');
      IntsSnoc(xs);
    }
  }

  /**
   * `mark_seen` then `load_seen`: the entries read back for `(s', f')` are the old ones plus,
   * when the pair is the one marked, the marked indices in order.
   */
  lemma MarkThenLoad(ledger: Option<string>, s: string, f: string, xs: seq<nat>, s': string, f': string)
    requires WellTerminated(ledger) && ValidSessionId(s) && ValidFlow(f)
    ensures SeenIn(Marked(ledger, s, f, xs).value, s', f')
      == SeenIn(ledger.GetOr(""), s', f') + (if s == s' && f == f' then Ints(xs) else [])
  {
    var old_ := ledger.GetOr("");
    var e := Entries(s, f, xs);
    assert Marked(ledger, s, f, xs).value == old_ + e;
    LinesAppend(old_, e);
    EntriesLines(s, f, xs);
    SeenListAppend(Lines(old_), EntryLines(s, f, xs), s', f');
    SeenListOfEntries(s, f, xs, s', f');
  }

  /**
   * After `mark_seen(s, f, xs)`, `load_seen(s, f)` is the old set together with `xs`, and
   * every other session and flow reads the same set as before.
   */
  lemma SeenAfterMark(ledger: Option<string>, s: string, f: string, xs: seq<nat>, s': string, f': string)
    requires WellTerminated(ledger) && ValidSessionId(s) && ValidFlow(f)
    ensures Seen(Marked(ledger, s, f, xs), s', f')
      == Seen(ledger, s', f') + (if s == s' && f == f' then Elems(xs) else {})
    ensures WellTerminated(Marked(ledger, s, f, xs))
  {
    var old_ := ledger.GetOr("");
    var e := Entries(s, f, xs);
    var extra := if s == s' && f == f' then Ints(xs) else [];
    assert SeenIn(old_ + e, s', f') == SeenIn(old_, s', f') + extra by {
      MarkThenLoad(ledger, s, f, xs, s', f');
    }
    assert SeqSet(SeenIn(old_ + e, s', f')) == SeqSet(SeenIn(old_, s', f')) + SeqSet(extra) by {
      SeqSetAppend(SeenIn(old_, s', f'), extra);
    }
    assert SeqSet(extra) == (if s == s' && f == f' then Elems(xs) else {}) by {
      IntsElems(xs);
    }
    assert EndsWithNewline(old_ + e) by {
      if e == [] {
        assert old_ + e == old_;
      } else {
        assert (old_ + e)[|old_ + e| - 1] == e[|e| - 1];
      }
    }
  }

  /** `load_seen`: an absent ledger records nothing, otherwise its lines are scanned. */
  method LoadSeen(ledger: Option<string>, s: string, f: string) returns (seen: set<int>)
    ensures seen == Seen(ledger, s, f)
  {
    var lines := Lines(ledger.GetOr(""));
    seen := SeenOfLines(lines, s, f);
  }

  /** The loop of `load_seen` over the lines of the file. */
  method SeenOfLines(lines: seq<string>, s: string, f: string) returns (seen: set<int>)
    ensures seen == SeqSet(SeenList(lines, s, f))
  {
    seen := {};
    var i := 0;
    while i < |lines|
      invariant 0 <= i <= |lines|
      invariant seen == SeqSet(SeenList(lines[..i], s, f))
    {
      var v := ParseEntry(lines[i], s, f);
      SeenListStep(lines, i, s, f, v);
      seen := seen + FoundSet(v);
      i := i + 1;
    }
    assert lines[..i] == lines;
  }

  lemma SeenListStep(lines: seq<string>, i: nat, s: string, f: string, v: Option<int>)
    requires i < |lines| && v == ParseEntry(lines[i], s, f)
    ensures SeqSet(SeenList(lines[..i + 1], s, f)) == SeqSet(SeenList(lines[..i], s, f)) + FoundSet(v)
  {
    SeenListSnoc(lines, i, s, f);
    var prev := SeenList(lines[..i], s, f);
    SeqSetAppend(prev, Found(v));
    FoundSetOf(v);
  }

  /** What a parsed entry contributes, as a list and as a set. */
  function Found(v: Option<int>): seq<int> {
    if v.Some? then [v.value] else []
  }

  function FoundSet(v: Option<int>): set<int> {
    if v.Some? then {v.value} else {}
  }

  lemma FoundSetOf(v: Option<int>)
    ensures SeqSet(Found(v)) == FoundSet(v)
  {
  }

  lemma SeenListSnoc(lines: seq<string>, i: nat, s: string, f: string)
    requires i < |lines|
    ensures SeenList(lines[..i + 1], s, f) == SeenList(lines[..i], s, f) + Found(ParseEntry(lines[i], s, f))
  {
    assert lines[..i + 1][..i] == lines[..i];
    assert lines[..i + 1][i] == lines[i];
  }

  lemma SeqSetAppend(a: seq<int>, b: seq<int>)
    ensures SeqSet(a + b) == SeqSet(a) + SeqSet(b)
  {
  }
}
