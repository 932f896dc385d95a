/**
 * Prompt resolution and templating: a prompt named `n` is the file
 * `.detritus/prompts/n.txt` of the working directory, or failing that of
 * the home directory; its text has every `{{ARGS}}` replaced by the
 * arguments.
 */
module Prompts {
  import opened Options
  import opened Substitution

  /** The local (working-directory) or global (home-directory) prompt file of a name. */
  datatype PromptPath = Local(name: string) | Global(name: string)

  /** The prompt files that exist, with their contents. */
  type PromptFiles = map<PromptPath, string>

  const Placeholder := "{{ARGS}}"

  /** `find_prompt_file`: the local file shadows the global one. */
  function FindPromptFile(files: PromptFiles, name: string): (r: Option<PromptPath>)
    ensures r.Some? ==> r.value in files && r.value.name == name
    ensures Local(name) in files ==> r == Some(Local(name))
    ensures r == Some(Global(name)) <==> Local(name) !in files && Global(name) in files
    ensures r.None? <==> Local(name) !in files && Global(name) !in files
  {
    if Local(name) in files then Some(Local(name))
    else if Global(name) in files then Some(Global(name))
    else None
  }

  /** `build_prompt`: nil when no file is found, else the text with `{{ARGS}}` filled in. */
  function BuildPrompt(files: PromptFiles, name: string, args: string): (r: Option<string>)
    ensures r.None? <==> Local(name) !in files && Global(name) !in files
  {
    match FindPromptFile(files, name)
    case None => None
    case Some(path) => Some(ReplaceAll(files[path], Placeholder, args))
  }

  /** The text of the file a name resolves to, local before global. */
  function Template(files: PromptFiles, name: string): string
    requires FindPromptFile(files, name).Some?
  {
    files[FindPromptFile(files, name).value]
  }

  /** A prompt present in both directories is rendered from the local copy. */
  lemma LocalShadowsGlobal(files: PromptFiles, name: string, args: string)
    requires Local(name) in files && Global(name) in files
    ensures BuildPrompt(files, name, args) == Some(ReplaceAll(files[Local(name)], Placeholder, args))
  {
  }

  /** A template without the placeholder comes back unchanged, whatever the arguments. */
  lemma {:induction false} BuildPromptWithoutPlaceholder(files: PromptFiles, name: string, args: string)
    requires FindPromptFile(files, name).Some?
    requires !Occurs(Template(files, name), Placeholder)
    ensures BuildPrompt(files, name, args) == Some(Template(files, name))
  {
    ReplaceAllAbsent(Template(files, name), Placeholder, args);
  }

  /** Every placeholder between the pieces of a template is replaced by the arguments. */
  lemma {:induction false} BuildPromptFillsEveryPlaceholder(files: PromptFiles, name: string, args: string, pieces: seq<string>)
    requires FindPromptFile(files, name).Some?
    requires Segmented(pieces, Placeholder) && Template(files, name) == Join(pieces, Placeholder)
    ensures BuildPrompt(files, name, args) == Some(Join(pieces, args))
  {
    ReplaceAllJoin(pieces, Placeholder, args);
  }

  /**
   * Every template renders as its pieces between occurrences of
   * `{{ARGS}}`, joined by the arguments.
   */
  lemma BuildPromptFillsAnyTemplate(files: PromptFiles, name: string, args: string)
    requires FindPromptFile(files, name).Some?
    ensures exists pieces ::
              Segmented(pieces, Placeholder) && Template(files, name) == Join(pieces, Placeholder) &&
              BuildPrompt(files, name, args) == Some(Join(pieces, args))
  {
    var pieces := Segment(Template(files, name), Placeholder);
    BuildPromptFillsEveryPlaceholder(files, name, args, pieces);
  }

  /** Text without `{` can neither hold the placeholder nor start one before its end. */
  lemma NoBraceIsClear(p: string)
    requires BraceFree(p)
    ensures Clear(p, Placeholder) && !Occurs(p, Placeholder)
  {
    forall i: nat | i < |p| ensures !OccursAt(p + Placeholder, Placeholder, i) {
      if i + |Placeholder| <= |p + Placeholder| {
        assert (p + Placeholder)[i..i + |Placeholder|][0] == p[i];
      }
    }
    forall i: nat | i <= |p| ensures !OccursAt(p, Placeholder, i) {
      if i + |Placeholder| <= |p| {
        assert p[i..i + |Placeholder|][0] == p[i];
      }
    }
  }

  predicate BraceFree(p: string) {
    forall k :: 0 <= k < |p| ==> p[k] != '{'
  }

  lemma JoinThree(a: string, b: string, c: string, sep: string)
    ensures Join([a, b, c], sep) == a + sep + b + sep + c
  {
    var parts := [a, b, c];
    assert parts[1..] == [b, c] && parts[1..][1..] == [c];
    assert Join([b, c], sep) == b + sep + c;
    assert a + sep + (b + sep + c) == a + sep + b + sep + c;
  }

  /** A template with two placeholders between brace-free texts: both are filled in. */
  lemma {:induction false} FillTwoPlaceholders(files: PromptFiles, name: string, args: string, p0: string, p1: string, p2: string)
    requires FindPromptFile(files, name).Some?
    requires BraceFree(p0) && BraceFree(p1) && BraceFree(p2)
    requires Template(files, name) == p0 + Placeholder + p1 + Placeholder + p2
    ensures BuildPrompt(files, name, args) == Some(p0 + args + p1 + args + p2)
  {
    NoBraceIsClear(p0);
    NoBraceIsClear(p1);
    NoBraceIsClear(p2);
    JoinThree(p0, p1, p2, Placeholder);
    JoinThree(p0, p1, p2, args);
    BuildPromptFillsEveryPlaceholder(files, name, args, [p0, p1, p2]);
  }

  /** A template with one placeholder, filled in with any arguments. */
  lemma OnePlaceholderExample(args: string)
    ensures BuildPrompt(map[Local("test_prompt") := "Description line\nHello {{ARGS}}, welcome!"], "test_prompt", args)
            == Some("Description line\nHello " + args + ", welcome!")
  {
    var files := map[Local("test_prompt") := "Description line\nHello {{ARGS}}, welcome!"];
    var pieces := ["Description line\nHello ", ", welcome!"];
    NoBraceIsClear(pieces[0]);
    NoBraceIsClear(pieces[1]);
    assert Join(pieces, Placeholder) == pieces[0] + Placeholder + pieces[1];
    assert Template(files, "test_prompt") == Join(pieces, Placeholder);
    BuildPromptFillsEveryPlaceholder(files, "test_prompt", args, pieces);
    assert Join(pieces, args) == pieces[0] + args + pieces[1];
  }

  // ---------------------------------------------------------------------
  // build_prompt as written, with Ruby's gsub

  datatype Rendering = NoPrompt | Rendered(text: string) | Raised

  function BuildPromptAsWritten(files: PromptFiles, name: string, args: string): Rendering {
    match FindPromptFile(files, name)
    case None => NoPrompt
    case Some(path) =>
      match GsubAsWritten(files[path], Placeholder, args)
      case None => Raised
      case Some(text) => Rendered(text)
  }

  /**
   * Arguments `a\0b` put into the template `{{ARGS}}` come back as
   * `a{{ARGS}}b`: the `\0` is read as "the whole match".
   */
  lemma ArgsBackslashZeroAsWritten()
    ensures BuildPromptAsWritten(map[Local("p") := "{{ARGS}}"], "p", "a\\0b") == Rendered("a{{ARGS}}b")
    ensures BuildPrompt(map[Local("p") := "{{ARGS}}"], "p", "a\\0b") == Some("a\\0b")
  {
    var s := "{{ARGS}}";
    assert OccursAt(s, Placeholder, 0);
    assert s[..0] == [] && s[8..] == [];
    assert Expand("a\\0b", [], s, []) == Some("a{{ARGS}}b") by {
      assert "b"[1..] == [] && "b"[0] == 'b' && ['b'] + [] == "b";
      assert Expand([], [], s, []) == Some([]);
      assert Expand("b", [], s, []) == Some("b");
      assert "\\0b"[2..] == "b";
      assert Expand("\\0b", [], s, []) == Some(s + "b");
      assert "a\\0b"[1..] == "\\0b";
      assert ['a'] + (s + "b") == "a{{ARGS}}b";
    }
    assert GsubFrom(s, Placeholder, "a\\0b", 8) == Some([]);
    assert s[8..] == [];
    assert "a\\0b" + ReplaceAll([], Placeholder, "a\\0b") == "a\\0b";
  }

  /** Arguments without a backslash render as written exactly as the literal replacement renders them. */
  lemma RenderingAgreesWithoutBackslash(files: PromptFiles, name: string, args: string)
    requires NoBackslash(args)
    ensures BuildPrompt(files, name, args).None? ==> BuildPromptAsWritten(files, name, args) == NoPrompt
    ensures BuildPrompt(files, name, args).Some? ==> BuildPromptAsWritten(files, name, args) == Rendered(BuildPrompt(files, name, args).value)
  {
    if FindPromptFile(files, name).Some? {
      var text := Template(files, name);
      GsubAgreesWithoutBackslash(text, Placeholder, args, 0);
      assert text[0..] == text;
    }
  }

  /**
   * As written, arguments `\k<y>` make rendering raise (the REPL does not
   * rescue it, so the process ends), where the literal replacement
   * renders them unchanged; here the template is exactly `{{ARGS}}`.
   */
  lemma ArgsGroupReferenceAsWritten(files: PromptFiles, name: string, args: string)
    requires FindPromptFile(files, name).Some? && Template(files, name) == Placeholder
    requires args == "\\k<y>"
    ensures BuildPromptAsWritten(files, name, args) == Raised
    ensures BuildPrompt(files, name, args) == Some(args)
  {
    var s := Template(files, name);
    assert OccursAt(s, Placeholder, 0) && s[..0] == [] && s[8..] == [];
    GroupReferenceRaises(args, [], Placeholder, []);
    assert ReplaceAll(s, Placeholder, args) == args + ReplaceAll([], Placeholder, args);
    assert ReplaceAll([], Placeholder, args) == [] && args + [] == args;
  }
}
