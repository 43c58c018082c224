/**
 * The three files under `~/.claude/rules/` the stop hook and the voluntary-capture helper
 * write: `pending-capture.md`, `unprocessed-corrections.md` and the seen ledger. An absent
 * file is None. Every writer only appends, and a document gets its fixed header exactly when
 * it is created.
 */
module Documents {
  import opened Wrappers
  import opened Strings
  import opened Ledger

  const PendingHeader := "# Pending Captures\n\n"
    + "**Action required:** The stop hook wrote unprocessed captures below.\n"
    + "Run the appropriate learn skill flow for each block, then delete this file.\n\n"
    + "---\n\n"

  const CorrectionsHeader := "# Unprocessed Session Corrections\n\n"
    + "**Action required:** Route each entry to its destination file.\n"
    + "Check existing rules files before writing \U{2014} append to matching topic\n"
    + "files, never create duplicates. Use the absolute project path in each\n"
    + "block header for routing. Delete this file after processing.\n\n"
    + "---\n\n"

  /** The block `write_pending` appends: tag, project, date, directive, then the context. */
  function PendingBlock(tag: string, root: string, date: string, msg: string, context: string): string {
    "## [" + tag + "] | Project: " + root + " | " + date + "\n"
    + msg + "\n\n"
    + context + "\n"
    + "---\n\n"
  }

  /** The block flow 2 appends: session, project, date, then the rendered learnings. */
  function SessionBlock(sid: string, root: string, date: string, learnings: string): string {
    "## Session: " + sid + " | Project: " + root + " | " + date + "\n\n"
    + learnings + "\n\n"
    + "---\n\n"
  }

  /** A document after one append: created with its header when absent, then the block. */
  function Appended(doc: Option<string>, header: string, block: string): (r: Option<string>)
    ensures r.Some? && doc.GetOr("") <= r.value
  {
    Some(doc.GetOr(header) + block)
  }

  /** The header is written only by the append that creates the file, never again. */
  lemma HeaderOnce(header: string, b1: string, b2: string)
    ensures Appended(Appended(None, header, b1), header, b2) == Some(header + b1 + b2)
  {
    assert (header + b1) + b2 == header + b1 + b2;
  }

  /** A document that starts with its header keeps starting with it. */
  lemma AppendedKeepsHeader(doc: Option<string>, header: string, block: string)
    requires doc.None? || StartsAt(doc.value, 0, header)
    ensures StartsAt(Appended(doc, header, block).value, 0, header)
  {
    var r := Appended(doc, header, block).value;
    var base := doc.GetOr(header);
    assert base[..|header|] == header;
    assert r[..|header|] == base[..|header|];
  }

  /** The contents of the three files. */
  datatype Files = Files(pending: Option<string>, corrections: Option<string>, ledger: Option<string>)

  /** The rules directory: the three files, each rewritten in place by appending. */
  class Store {
    var pending: Option<string>
    var corrections: Option<string>
    var ledger: Option<string>

    constructor(fs: Files)
      ensures Contents() == fs
    {
      pending := fs.pending;
      corrections := fs.corrections;
      ledger := fs.ledger;
    }

    function Contents(): Files
      reads this
    {
      Files(pending, corrections, ledger)
    }

    /** `mark_seen`: the ledger is opened for append and one line is written per index. */
    method MarkSeen(s: string, f: string, xs: seq<nat>)
      modifies this`ledger
      ensures ledger == Marked(old(ledger), s, f, xs)
    {
      var text := ledger.GetOr("");
      var k := 0;
      while k < |xs|
        invariant 0 <= k <= |xs|
        invariant text == old(ledger).GetOr("") + Entries(s, f, xs[..k])
      {
        assert xs[..k + 1][..k] == xs[..k];
        text := text + EntryLine(s, f, xs[k]);
        k := k + 1;
      }
      assert xs[..k] == xs;
      ledger := Some(text);
    }

    /** `write_pending`: the header if the file is absent, then the block. */
    method WritePending(root: string, tag: string, msg: string, context: string, date: string)
      modifies this`pending
      ensures pending == Appended(old(pending), PendingHeader, PendingBlock(tag, root, date, msg, context))
    {
      var block := PendingBlock(tag, root, date, msg, context);
      if pending.None? {
        pending := Some(PendingHeader);
      }
      pending := Some(pending.value + block);
    }

    /** Flow 2's writer: the header if the file is absent, then the session block. */
    method WriteCorrections(sid: string, root: string, date: string, learnings: string)
      modifies this`corrections
      ensures corrections == Appended(old(corrections), CorrectionsHeader, SessionBlock(sid, root, date, learnings))
    {
      if corrections.None? {
        corrections := Some(CorrectionsHeader);
      }
      corrections := Some(corrections.value + SessionBlock(sid, root, date, learnings));
    }
  }
}
