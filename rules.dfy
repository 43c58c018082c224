/**
 * Configuration read from the rules document: `<!-- name: value -->` comments and the
 * comma-separated lists inside them.
 */
module Rules {
  import opened Wrappers
  import opened Strings

  /** The end of the run of whitespace starting at `i` (greedy `\s*`). */
  function SkipSpace(s: string, i: nat): (j: nat)
    requires i <= |s|
    ensures i <= j <= |s|
    ensures j == |s| || !IsSpace(s[j])
    decreases |s| - i
  {
    if i < |s| && IsSpace(s[i]) then SkipSpace(s, i + 1) else i
  }

  /** `\s*-->` matches at `e`. */
  predicate ClosesAt(s: string, e: nat)
    requires e <= |s|
  {
    StartsAt(s, SkipSpace(s, e), "-->")
  }

  /**
   * The lazy group `(.*?)` starting at `q`: the first end `e`, reached over non-newline
   * characters only, where the comment can close.
   */
  function ValueEnd(s: string, q: nat, e: nat): (r: Option<nat>)
    requires q <= e <= |s|
    requires forall k :: q <= k < e ==> s[k] != '\n'
    requires forall k :: q <= k < e ==> !ClosesAt(s, k)
    ensures r.Some? ==> e <= r.value <= |s| && ClosesAt(s, r.value)
    ensures r.Some? ==> forall k :: q <= k < r.value ==> s[k] != '\n'
    ensures r.Some? ==> forall k :: q <= k < r.value ==> !ClosesAt(s, k)
    decreases |s| - e
  {
    if ClosesAt(s, e) then Some(e)
    else if e < |s| && s[e] != '\n' then ValueEnd(s, q, e + 1)
    else None
  }

  /**
   * The match of `<!--\s*name:\s*(.*?)\s*-->` starting at `i`, if any, as its group.
   * For a name that begins with a non-space character the first `\s*` must take the whole
   * run of whitespace; the second may give some back, but that never helps the group close
   * (every end inside the run closes exactly when the end of the run does), so the group
   * starts after the whole run as well.
   */
  function CommentAt(s: string, name: string, i: nat): (r: Option<string>)
    requires i <= |s|
  {
    if !StartsAt(s, i, "<!--") then None
    else
      var p := SkipSpace(s, i + 4);
      if !StartsAt(s, p, name + ":") then None
      else
        var q := SkipSpace(s, p + |name| + 1);
        match ValueEnd(s, q, q)
        case None => None
        case Some(e) => Some(s[q..e])
  }

  /** The lazy group never ends on whitespace: the comment would already close one earlier. */
  lemma LazyEndNotSpace(s: string, e: nat)
    requires 0 < e <= |s| && ClosesAt(s, e) && !ClosesAt(s, e - 1)
    ensures !IsSpace(s[e - 1])
  {
  }

  /** The group found from a non-space start holds no newline and is stripped. */
  lemma ValueShape(s: string, q: nat)
    requires q <= |s| && (q == |s| || !IsSpace(s[q]))
    requires ValueEnd(s, q, q).Some?
    ensures '\n' !in s[q..ValueEnd(s, q, q).value]
    ensures Trimmed(s[q..ValueEnd(s, q, q).value])
  {
    var e := ValueEnd(s, q, q).value;
    SliceShape(s, q, e);
    if e > q {
      LazyEndNotSpace(s, e);
    }
  }

  /** A slice over non-newline characters whose end characters are not whitespace. */
  lemma SliceShape(s: string, q: nat, e: nat)
    requires q <= e <= |s| && forall k :: q <= k < e ==> s[k] != '\n'
    ensures '\n' !in s[q..e]
    ensures q < e && !IsSpace(s[q]) && !IsSpace(s[e - 1]) ==> Trimmed(s[q..e])
  {
    var v := s[q..e];
    forall c | c in v
      ensures c != '\n'
    {
      var k :| 0 <= k < |v| && v[k] == c;
      assert v[k] == s[q + k];
    }
  }

  /** A comment value holds no newline and has no whitespace at either end. */
  lemma CommentValueShape(s: string, name: string, i: nat)
    requires i <= |s| && CommentAt(s, name, i).Some?
    ensures '\n' !in CommentAt(s, name, i).value
    ensures Trimmed(CommentAt(s, name, i).value)
  {
    var p := SkipSpace(s, i + 4);
    var q := SkipSpace(s, p + |name| + 1);
    var e := ValueEnd(s, q, q).value;
    assert CommentAt(s, name, i) == Some(s[q..e]);
    ValueShape(s, q);
  }

  /** The leftmost position at or after `from` where a matching comment starts (`re.search`). */
  function FirstComment(s: string, name: string, from: nat): (r: Option<nat>)
    requires from <= |s|
    ensures r.Some? ==> from <= r.value <= |s| && CommentAt(s, name, r.value).Some?
    decreases |s| - from
  {
    if CommentAt(s, name, from).Some? then Some(from)
    else if from == |s| then None
    else FirstComment(s, name, from + 1)
  }

  /** The scan stops at the leftmost match, and finds none only when there is none. */
  lemma {:induction false} FirstCommentSpec(s: string, name: string, from: nat)
    requires from <= |s|
    decreases |s| - from
    ensures var r := FirstComment(s, name, from);
      (r.Some? ==> forall k :: from <= k < r.value ==> CommentAt(s, name, k).None?)
      && (r.None? ==> forall k :: from <= k <= |s| ==> CommentAt(s, name, k).None?)
  {
    var r := FirstComment(s, name, from);
    var here := CommentAt(s, name, from);
    if here.None? && from < |s| {
      var rest := FirstComment(s, name, from + 1);
      FirstCommentSpec(s, name, from + 1);
      assert r == rest;
      if rest.Some? {
        forall k | from <= k < rest.value
          ensures CommentAt(s, name, k).None?
        {
          if k == from {
            assert CommentAt(s, name, k) == here;
          }
        }
      }
    }
  }

  /** The group of the first match, or None where `re.search` returns None. */
  function FindComment(s: string, name: string): (r: Option<string>)
    requires name != [] && !IsSpace(name[0])
  {
    match FirstComment(s, name, 0)
    case None => None
    case Some(i) => CommentAt(s, name, i)
  }

  /**
   * `read_comment`: the value of the first `<!-- name: value -->` comment, or `""` when
   * there is none; the value never holds a newline and is stripped.
   */
  function ReadComment(s: string, name: string): (r: string)
    requires name != [] && !IsSpace(name[0])
    ensures '\n' !in r && Trimmed(r)
    ensures FindComment(s, name).None? ==> r == ""
  {
    match FirstComment(s, name, 0)
    case None => ""
    case Some(i) =>
      CommentValueShape(s, name, i);
      CommentAt(s, name, i).value
  }

  /** A non-blank value read is the value of a comment that occurs in the text. */
  lemma ReadCommentSource(s: string, name: string)
    requires name != [] && !IsSpace(name[0])
    ensures var r := ReadComment(s, name);
      r != "" ==> exists i :: 0 <= i <= |s| && CommentAt(s, name, i) == Some(r)
  {
    var r := ReadComment(s, name);
    if r != "" {
      var i := FirstComment(s, name, 0).value;
      assert CommentAt(s, name, i) == Some(r);
    }
  }

  /** The stripped pieces of `csv.split(",")` that are not blank. */
  function NonBlank(pieces: seq<string>): (r: seq<string>)
    ensures forall j :: 0 <= j < |r| ==> r[j] != "" && Trimmed(r[j])
    ensures |r| <= |pieces|
  {
    if pieces == [] then []
    else
      var t := Strip(pieces[0]);
      (if t == "" then [] else [t]) + NonBlank(pieces[1..])
  }

  /** A keyword or phrase list: `[p.strip() for p in csv.split(",") if p.strip()]`. */
  function CsvEntries(csv: string): (r: seq<string>)
    ensures forall j :: 0 <= j < |r| ==> r[j] != "" && Trimmed(r[j]) && ',' !in r[j]
  {
    var pieces := SplitOn(csv, ',');
    SplitOnSpec(csv, ',');
    var r := NonBlank(pieces);
    NonBlankFrom(pieces, ',');
    r
  }

  lemma {:induction false} NonBlankFrom(pieces: seq<string>, c: char)
    requires forall j :: 0 <= j < |pieces| ==> c !in pieces[j]
    ensures forall j :: 0 <= j < |NonBlank(pieces)| ==> c !in NonBlank(pieces)[j]
  {
    if pieces != [] {
      NonBlankFrom(pieces[1..], c);
      var t := Strip(pieces[0]);
      StripChars(pieces[0]);
      assert c !in t;
      var r := NonBlank(pieces);
      var rest := NonBlank(pieces[1..]);
      assert r == (if t == "" then [] else [t]) + rest;
    }
  }

  /** Field names: `[f.strip() for f in fields_def.split(",")]`, blanks kept. */
  function FieldNames(def: string): (r: seq<string>)
    ensures |r| == |SplitOn(def, ',')|
    ensures forall j :: 0 <= j < |r| ==> r[j] == Strip(SplitOn(def, ',')[j])
    ensures forall j :: 0 <= j < |r| ==> Trimmed(r[j]) && ',' !in r[j]
    ensures '\n' !in def ==> forall j :: 0 <= j < |r| ==> '\n' !in r[j]
  {
    var pieces := SplitOn(def, ',');
    SplitOnSpec(def, ',');
    assert '\n' !in def ==> forall j :: 0 <= j < |pieces| ==> '\n' !in pieces[j] by {
      if '\n' !in def {
        forall j | 0 <= j < |pieces| ensures '\n' !in pieces[j] {
          PieceIn(pieces, ',', j);
        }
      }
    }
    var r := seq(|pieces|, j requires 0 <= j < |pieces| => Strip(pieces[j]));
    forall j | 0 <= j < |pieces| ensures ',' !in r[j] && ('\n' !in def ==> '\n' !in r[j]) {
      StripChars(pieces[j]);
    }
    r
  }

  /** Stripped, comma-free names written as a comma-separated list read back as those names. */
  lemma FieldNamesOfJoin(ns: seq<string>)
    requires |ns| >= 1
    requires forall j :: 0 <= j < |ns| ==> Trimmed(ns[j]) && ',' !in ns[j]
    ensures FieldNames(Join(ns, ",")) == ns
  {
    SplitJoin(ns, ',');
  }

  /** Non-blank, stripped, comma-free entries written as a comma-separated list read back as those entries. */
  lemma CsvEntriesOfJoin(ks: seq<string>)
    requires forall j :: 0 <= j < |ks| ==> ks[j] != "" && Trimmed(ks[j]) && ',' !in ks[j]
    ensures CsvEntries(Join(ks, ",")) == ks
  {
    if ks == [] {
      assert SplitOn("", ',') == [""];
    } else {
      SplitJoin(ks, ',');
      NonBlankOfClean(ks);
    }
  }

  /** Pieces that are already non-blank and stripped are kept as they are. */
  lemma {:induction false} NonBlankOfClean(pieces: seq<string>)
    requires forall j :: 0 <= j < |pieces| ==> pieces[j] != "" && Trimmed(pieces[j])
    ensures NonBlank(pieces) == pieces
  {
    if pieces != [] {
      NonBlankOfClean(pieces[1..]);
      assert [pieces[0]] + pieces[1..] == pieces;
    }
  }

  /** The entries are exactly the non-blank stripped pieces of the list. */
  lemma CsvEntriesMembers(csv: string)
    ensures var pieces := SplitOn(csv, ',');
      forall x :: x in CsvEntries(csv) <==> x != "" && exists j :: 0 <= j < |pieces| && Strip(pieces[j]) == x
  {
    assert CsvEntries(csv) == NonBlank(SplitOn(csv, ','));
    NonBlankMembers(SplitOn(csv, ','));
  }

  lemma {:induction false} NonBlankMembers(pieces: seq<string>)
    ensures forall x :: x in NonBlank(pieces) <==> x != "" && exists j :: 0 <= j < |pieces| && Strip(pieces[j]) == x
  {
    if pieces != [] {
      var t := Strip(pieces[0]);
      var rest := pieces[1..];
      NonBlankMembers(rest);
      assert NonBlank(pieces) == (if t == "" then [] else [t]) + NonBlank(rest);
      forall x
        ensures x in NonBlank(pieces) <==> x != "" && exists j :: 0 <= j < |pieces| && Strip(pieces[j]) == x
      {
        if x in NonBlank(pieces) && x != t {
          assert x in NonBlank(rest);
          var j :| 0 <= j < |rest| && Strip(rest[j]) == x;
          assert pieces[j + 1] == rest[j];
        }
        if x != "" && exists j :: 0 <= j < |pieces| && Strip(pieces[j]) == x {
          var j :| 0 <= j < |pieces| && Strip(pieces[j]) == x;
          if j > 0 {
            assert rest[j - 1] == pieces[j];
          }
        }
      }
    }
  }

  /** Every character of a piece occurs in the joined text. */
  lemma {:induction false} PieceIn(pieces: seq<string>, c: char, j: nat)
    requires j < |pieces|
    ensures forall x :: x in pieces[j] ==> x in Join(pieces, [c])
  {
    if |pieces| > 1 {
      var rest := Join(pieces[1..], [c]);
      assert Join(pieces, [c]) == pieces[0] + [c] + rest;
      if j > 0 {
        PieceIn(pieces[1..], c, j - 1);
        assert pieces[1..][j - 1] == pieces[j];
        assert forall x :: x in rest ==> x in pieces[0] + [c] + rest;
      }
    }
  }
}
