/**
 * The file-edit tool the model may invoke: replace every occurrence of
 * `old` by `new` in the file at `path`. The `create` parameter is
 * declared but never consulted.
 */
module EditTool {
  import opened Options
  import opened Substitution

  /** The files the tool can see, by path. */
  type Files = map<string, string>

  /** The files after the call, and the text the tool returns to the model. */
  datatype EditOutcome = EditOutcome(files: Files, reply: string)

  function EditedReply(path: string): string { "[✓ Edited " + path + "]" }
  function MissingFileReply(path: string): string {
    "[✗ Error: No such file or directory @ rb_sysopen - " + path + "]"
  }

  /** `EditFile#execute`: a missing file is an error reply; otherwise the file is rewritten. */
  function EditFile(files: Files, path: string, oldText: string, newText: string, create: bool): (r: EditOutcome)
    ensures path !in files <==> r.reply == MissingFileReply(path)
    ensures path !in files ==> r.files == files
    ensures path in files ==> r.reply == EditedReply(path) && r.files.Keys == files.Keys
    ensures forall other :: other in files && other != path ==> other in r.files && r.files[other] == files[other]
  {
    if path !in files then EditOutcome(files, MissingFileReply(path))
    else EditOutcome(files[path := ReplaceAll(files[path], oldText, newText)], EditedReply(path))
  }

  /** The `create` flag makes no difference: a missing file is never created. */
  lemma CreateIsIgnored(files: Files, path: string, oldText: string, newText: string)
    ensures EditFile(files, path, oldText, newText, true) == EditFile(files, path, oldText, newText, false)
    ensures path !in files ==> path !in EditFile(files, path, oldText, newText, true).files
  {
  }

  /** When `old` does not occur, the file keeps its content though the tool reports an edit. */
  lemma {:induction false} EditWithoutMatchKeepsContent(files: Files, path: string, oldText: string, newText: string, create: bool)
    requires path in files && oldText != [] && !Occurs(files[path], oldText)
    ensures EditFile(files, path, oldText, newText, create).files == files
    ensures EditFile(files, path, oldText, newText, create).reply == EditedReply(path)
  {
    ReplaceAllAbsent(files[path], oldText, newText);
    assert files[path := files[path]] == files;
  }

  /** Replacing a text by itself leaves every file as it was. */
  lemma {:induction false} EditSameTextKeepsContent(files: Files, path: string, text: string, create: bool)
    requires text != []
    ensures EditFile(files, path, text, text, create).files == files
  {
    if path in files {
      ReplaceAllSelf(files[path], text);
      assert files[path := files[path]] == files;
    }
  }

  /**
   * An empty `old` inserts `new` before every character and at the end:
   * block `k` of the new content is `new` followed by the `k`-th
   * character, and the content ends with `new`.
   */
  lemma EmptyOldInsertsEverywhere(files: Files, path: string, newText: string, create: bool)
    requires path in files
    ensures var before, after, m := files[path], EditFile(files, path, [], newText, create).files[path], |newText| + 1;
      |after| == |before| * m + |newText| &&
      (forall k :: 0 <= k < |before| ==> after[k * m..(k + 1) * m] == newText + [before[k]]) &&
      after[|before| * m..] == newText
  {
    EmptyPatternInserts(files[path], newText);
  }

  function ErrorReply(message: string): string { "[✗ Error: " + message + "]" }

  /**
   * `EditFile#execute` as written: `gsub` expands backslash sequences in
   * `new`, and when that raises the rescue replies with the error's
   * message and nothing is written.
   */
  function EditFileAsWritten(files: Files, path: string, oldText: string, newText: string, create: bool): (r: EditOutcome)
    ensures path !in files ==> r == EditOutcome(files, MissingFileReply(path))
    ensures r.files.Keys == files.Keys
    ensures forall other :: other in files && other != path ==> r.files[other] == files[other]
    ensures r.reply != EditedReply(path) ==> r.files == files
  {
    if path !in files then EditOutcome(files, MissingFileReply(path))
    else match GsubAsWritten(files[path], oldText, newText)
      case None => EditOutcome(files, ErrorReply(RaisedBy(newText)))
      case Some(text) => EditOutcome(files[path := text], EditedReply(path))
  }

  /** A failed edit reports a non-empty error message. */
  lemma EditFailureHasMessage(files: Files, path: string, oldText: string, newText: string, create: bool)
    requires path in files
    ensures var r := EditFileAsWritten(files, path, oldText, newText, create);
      r.reply == EditedReply(path) || (r.files == files && r.reply == ErrorReply(RaisedBy(newText)) && RaisedBy(newText) != [])
  {
    GsubRaisesWithMessage(files[path], oldText, newText, 0);
  }

  /** Without a backslash in `new`, the edit as written is the literal replacement. */
  lemma EditAsWrittenAgreesWithoutBackslash(files: Files, path: string, oldText: string, newText: string, create: bool)
    requires NoBackslash(newText)
    ensures EditFileAsWritten(files, path, oldText, newText, create) == EditFile(files, path, oldText, newText, create)
  {
    if path in files {
      GsubAgreesWithoutBackslash(files[path], oldText, newText, 0);
      assert files[path][0..] == files[path];
    }
  }

  /** As written, replacing a backslash-free text by itself still keeps every file. */
  lemma SameTextKeepsContentAsWritten(files: Files, path: string, text: string, create: bool)
    requires text != [] && NoBackslash(text)
    ensures EditFileAsWritten(files, path, text, text, create).files == files
  {
    EditAsWrittenAgreesWithoutBackslash(files, path, text, text, create);
    EditSameTextKeepsContent(files, path, text, create);
  }

  /**
   * As written, a named group reference in `new` makes the edit fail with
   * Ruby's error message, where the literal replacement writes it out:
   * here the file holds exactly `old`.
   */
  lemma GroupReferenceAsWritten(files: Files, path: string, oldText: string, rep: string)
    requires path in files && files[path] == oldText && oldText != [] && rep == "\\k<y>"
    ensures EditFileAsWritten(files, path, oldText, rep, false) == EditOutcome(files, ErrorReply("undefined group name reference: y"))
    ensures EditFile(files, path, oldText, rep, false).files[path] == rep
  {
    var s := files[path];
    assert OccursAt(s, oldText, 0) && s[..0] == [] && s[|oldText|..] == [];
    GroupReferenceRaises(rep, [], oldText, []);
    assert ReplaceAll(s, oldText, rep) == rep + ReplaceAll([], oldText, rep);
  }

  /**
   * As written, a replacement text holding two backslashes (as in source
   * code escaping one) is written back with a single backslash.
   */
  lemma DoubleBackslashAsWritten()
    ensures GsubAsWritten("old", "old", "a\\\\b") == Some("a\\b")
    ensures EditFile(map["f" := "old"], "f", "old", "a\\\\b", false).files["f"] == "a\\\\b"
  {
    var s, rep := "old", "a\\\\b";
    assert OccursAt(s, "old", 0);
    assert |s| == 3;
    assert s[..0] == [] && s[3..] == [];
    assert Expand(rep, [], s, []) == Some("a\\b") by {
      assert "b"[1..] == [] && "b"[0] == 'b' && ['b'] + [] == "b";
      assert Expand([], [], s, []) == Some([]);
      assert Expand("b", [], s, []) == Some("b");
      assert "\\\\b"[2..] == "b";
      assert "\\\\b"[0] == '\\' && "\\\\b"[1] == '\\' && ['\\'] + "b" == "\\b";
      assert Expand("\\\\b", [], s, []) == Some("\\b");
      assert rep[1..] == "\\\\b";
      assert ['a'] + "\\b" == "a\\b";
    }
    assert GsubFrom(s, "old", rep, 3) == Some([]);
    assert "a\\b" + [] == "a\\b";
    assert rep + ReplaceAll([], "old", rep) == rep;
  }
}
