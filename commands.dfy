/**
 * Classification of an input line by the command dispatcher: string
 * equality for the fixed commands, and Ruby regular expressions for the
 * rest, tried in order, the first that matches deciding. A regular
 * expression `^...` may match at the start of any line of the input, and
 * the leftmost such line is the one whose captures are used.
 */
module Commands {
  import opened Options

  datatype Command =
    | Exit                              // `/exit`, `/quit`
    | New                               // `/new`, `/clear`
    | Load(name: string, args: string)  // `^/load\s+(\w+)\s*(.*)`
    | Resume(id: string)                // `^/resume\s+(\w+)`
    | ListResume                        // `^/resume\z`
    | Status                            // `/status`
    | Bang(cmd: string)                 // `^!(.+)\z`, dot matching newlines
    | Model(word: string)               // `^/model\s+(\w+)`
    | Named(name: string, args: string) // `^/(\w+)\s*(.*)`
    | Ask(line: string)                 // anything else

  /** Ruby's `\s`. */
  predicate IsSpace(c: char) {
    c == ' ' || c == '\t' || c == '\n' || c == '\r' || c == '\U{000C}' || c == '\U{000B}'
  }

  /** Ruby's `\w`: an ASCII letter, digit or underscore. */
  predicate IsWord(c: char) {
    ('a' <= c <= 'z') || ('A' <= c <= 'Z') || ('0' <= c <= '9') || c == '_'
  }

  /** A text `\w+` matches entirely. */
  predicate IsWordText(w: string) {
    |w| > 0 && forall k :: 0 <= k < |w| ==> IsWord(w[k])
  }

  predicate NoNewline(s: string) {
    forall k :: 0 <= k < |s| ==> s[k] != '\n'
  }

  /** End of the longest run of word characters starting at `i` (greedy `\w*`). */
  function WordEnd(s: string, i: nat): (j: nat)
    requires i <= |s|
    ensures i <= j <= |s|
    ensures forall k :: i <= k < j ==> IsWord(s[k])
    ensures j == |s| || !IsWord(s[j])
    decreases |s| - i
  {
    if i < |s| && IsWord(s[i]) then WordEnd(s, i + 1) else i
  }

  /** End of the longest run of whitespace starting at `i` (greedy `\s*`, newlines included). */
  function SpaceEnd(s: string, i: nat): (j: nat)
    requires i <= |s|
    ensures i <= j <= |s|
    ensures forall k :: i <= k < j ==> IsSpace(s[k])
    ensures j == |s| || !IsSpace(s[j])
    decreases |s| - i
  {
    if i < |s| && IsSpace(s[i]) then SpaceEnd(s, i + 1) else i
  }

  /** End of the line containing `i` (greedy `.*`: everything up to a newline). */
  function LineEnd(s: string, i: nat): (j: nat)
    requires i <= |s|
    ensures i <= j <= |s|
    ensures forall k :: i <= k < j ==> s[k] != '\n'
    ensures j == |s| || s[j] == '\n'
    decreases |s| - i
  {
    if i < |s| && s[i] != '\n' then LineEnd(s, i + 1) else i
  }

  /** Where Ruby's `^` succeeds: the start of the text or just after a newline. */
  predicate LineStart(s: string, p: nat) {
    p <= |s| && (p == 0 || s[p - 1] == '\n')
  }

  predicate HasAt(s: string, p: nat, lit: string) {
    p + |lit| <= |s| && s[p..p + |lit|] == lit
  }

  datatype Pattern = LoadPattern | ResumeIdPattern | ResumeBarePattern | BangPattern | ModelPattern | NamedPattern

  datatype Captures = Captures(first: string, second: string)

  /** `kw\s+(\w+)` at `p`: the bounds of the captured word. */
  function KeywordWord(s: string, p: nat, kw: string): (r: Option<(nat, nat)>)
    requires p <= |s|
    ensures r.Some? ==> HasAt(s, p, kw) && p + |kw| < r.value.0 < r.value.1 <= |s|
    ensures r.Some? ==> IsWordText(s[r.value.0..r.value.1])
  {
    if !HasAt(s, p, kw) then None
    else
      var b := SpaceEnd(s, p + |kw|);
      var c := WordEnd(s, b);
      if p + |kw| < b < c then Some((b, c)) else None
  }

  /** `\s*(.*)` from `i`: skip whitespace, newlines included, then capture to the end of that line. */
  function RestOfLine(s: string, i: nat): (r: string)
    requires i <= |s|
    ensures NoNewline(r)
  {
    var d := SpaceEnd(s, i);
    s[d..LineEnd(s, d)]
  }

  /** What each pattern's captures look like: `(\w+)` a word, `(.*)` one line, `(.+)` something. */
  predicate WellFormed(pat: Pattern, c: Captures) {
    match pat
    case LoadPattern => IsWordText(c.first) && NoNewline(c.second)
    case NamedPattern => IsWordText(c.first) && NoNewline(c.second)
    case ResumeIdPattern => IsWordText(c.first)
    case ModelPattern => IsWordText(c.first)
    case BangPattern => |c.first| > 0
    case ResumeBarePattern => true
  }

  /** The captures of one pattern anchored at position `p`, if it matches there. */
  function MatchAt(pat: Pattern, s: string, p: nat): (r: Option<Captures>)
    requires p <= |s|
    ensures r.Some? ==> WellFormed(pat, r.value)
  {
    match pat
    case LoadPattern =>
      (match KeywordWord(s, p, "/load")
       case None => None
       case Some(bc) => Some(Captures(s[bc.0..bc.1], RestOfLine(s, bc.1))))
    case ResumeIdPattern =>
      (match KeywordWord(s, p, "/resume")
       case None => None
       case Some(bc) => Some(Captures(s[bc.0..bc.1], [])))
    case ModelPattern =>
      (match KeywordWord(s, p, "/model")
       case None => None
       case Some(bc) => Some(Captures(s[bc.0..bc.1], [])))
    case ResumeBarePattern =>
      if s[p..] == "/resume" then Some(Captures([], [])) else None
    case BangPattern =>
      if p + 1 < |s| && s[p] == '!' then Some(Captures(s[p + 1..], [])) else None
    case NamedPattern =>
      if HasAt(s, p, "/") && p + 1 < WordEnd(s, p + 1) then
        Some(Captures(s[p + 1..WordEnd(s, p + 1)], RestOfLine(s, WordEnd(s, p + 1))))
      else None
  }

  /** The pattern matches with its `^` at position `p`. */
  predicate Hit(pat: Pattern, s: string, p: nat) {
    LineStart(s, p) && MatchAt(pat, s, p).Some?
  }

  /** The leftmost match at or after `p`. */
  function Search(pat: Pattern, s: string, p: nat): (r: Option<Captures>)
    requires p <= |s|
    ensures r.Some? ==> WellFormed(pat, r.value)
    decreases |s| - p
  {
    if Hit(pat, s, p) then MatchAt(pat, s, p)
    else if p == |s| then None
    else Search(pat, s, p + 1)
  }

  /** The search finds nothing exactly when no position matches. */
  lemma {:induction false} SearchNone(pat: Pattern, s: string, p: nat)
    requires p <= |s|
    ensures Search(pat, s, p).None? <==> forall q :: p <= q <= |s| ==> !Hit(pat, s, q)
    decreases |s| - p
  {
    if !Hit(pat, s, p) && p < |s| {
      SearchNone(pat, s, p + 1);
    }
  }

  /** What the search finds is the match at the leftmost matching position. */
  lemma {:induction false} SearchLeftmost(pat: Pattern, s: string, p: nat, q: nat)
    requires p <= q <= |s| && Hit(pat, s, q)
    requires forall q' :: p <= q' < q ==> !Hit(pat, s, q')
    ensures Search(pat, s, p) == MatchAt(pat, s, q)
    decreases q - p
  {
    if p < q {
      SearchLeftmost(pat, s, p + 1, q);
    }
  }

  /** `case line when ...` of `handle_prompt`. */
  function Classify(line: string): (r: Command)
    ensures r.Exit? <==> line == "/exit" || line == "/quit"
    ensures r.New? <==> line == "/new" || line == "/clear"
    ensures r.Load? ==> IsWordText(r.name) && NoNewline(r.args)
    ensures r.Resume? ==> IsWordText(r.id)
    ensures r.Model? ==> IsWordText(r.word)
    ensures r.Named? ==> IsWordText(r.name) && NoNewline(r.args)
    ensures r.Bang? ==> |r.cmd| > 0
    ensures r.Ask? ==> r.line == line
  {
    if line == "/exit" || line == "/quit" then Exit
    else if line == "/new" || line == "/clear" then New
    else if Search(LoadPattern, line, 0).Some? then
      var c := Search(LoadPattern, line, 0).value; Load(c.first, c.second)
    else if Search(ResumeIdPattern, line, 0).Some? then Resume(Search(ResumeIdPattern, line, 0).value.first)
    else if Search(ResumeBarePattern, line, 0).Some? then ListResume
    else if line == "/status" then Status
    else if Search(BangPattern, line, 0).Some? then Bang(Search(BangPattern, line, 0).value.first)
    else if Search(ModelPattern, line, 0).Some? then Model(Search(ModelPattern, line, 0).value.first)
    else if Search(NamedPattern, line, 0).Some? then
      var c := Search(NamedPattern, line, 0).value; Named(c.first, c.second)
    else Ask(line)
  }

  // ---------------------------------------------------------------------
  // Properties of the classification

  /** A line of the input that begins with `!` and something after it, or with `/` and a word character. */
  predicate CommandAt(s: string, q: nat) {
    LineStart(s, q) && q + 1 < |s| && (s[q] == '!' || (s[q] == '/' && IsWord(s[q + 1])))
  }

  lemma HasAtChars(s: string, p: nat, lit: string, k: nat)
    requires HasAt(s, p, lit) && k < |lit|
    ensures s[p + k] == lit[k]
  {
    assert s[p..p + |lit|][k] == s[p + k];
  }

  /** A keyword `/<letter>...` matching at a line start is a command character there. */
  lemma KeywordIsCommand(s: string, q: nat, kw: string)
    requires q <= |s| && LineStart(s, q) && KeywordWord(s, q, kw).Some?
    requires |kw| >= 2 && kw[0] == '/' && IsWord(kw[1])
    ensures CommandAt(s, q)
  {
    HasAtChars(s, q, kw, 0);
    HasAtChars(s, q, kw, 1);
  }

  /** Every pattern needs a command character at its line start. */
  lemma HitIsCommand(pat: Pattern, s: string, q: nat)
    requires Hit(pat, s, q)
    ensures CommandAt(s, q)
  {
    match pat
    case LoadPattern => KeywordIsCommand(s, q, "/load");
    case ResumeIdPattern => KeywordIsCommand(s, q, "/resume");
    case ModelPattern => KeywordIsCommand(s, q, "/model");
    case ResumeBarePattern =>
      assert s[q..] == "/resume";
      assert s[q..][0] == s[q] && s[q..][1] == s[q + 1];
    case BangPattern =>
    case NamedPattern => HasAtChars(s, q, "/", 0);
  }

  /** A command character at a line start is a match of `!(.+)` or of `/(\w+)`. */
  lemma CommandIsHit(s: string, q: nat)
    requires CommandAt(s, q)
    ensures Hit(BangPattern, s, q) || Hit(NamedPattern, s, q)
  {
    if s[q] == '/' {
      assert s[q..q + 1] == "/";
    }
  }

  /** Without a command character at any line start, no pattern matches. */
  lemma NoCommandNoMatch(pat: Pattern, line: string)
    requires forall q :: !CommandAt(line, q)
    ensures Search(pat, line, 0).None?
  {
    forall q | 0 <= q <= |line| ensures !Hit(pat, line, q) {
      if Hit(pat, line, q) { HitIsCommand(pat, line, q); }
    }
    SearchNone(pat, line, 0);
  }

  lemma NoCommandIsAsk(line: string)
    requires forall q :: !CommandAt(line, q)
    ensures Classify(line) == Ask(line)
  {
    NoCommandNoMatch(LoadPattern, line);
    NoCommandNoMatch(ResumeIdPattern, line);
    NoCommandNoMatch(ResumeBarePattern, line);
    NoCommandNoMatch(BangPattern, line);
    NoCommandNoMatch(ModelPattern, line);
    NoCommandNoMatch(NamedPattern, line);
    if |line| >= 2 {
      assert !CommandAt(line, 0);
    }
  }

  /** A line reaches the final branch only when neither `!` nor `/<word>` matched. */
  lemma AskOnlyWithoutMatch(line: string)
    ensures Classify(line).Ask? ==> Search(BangPattern, line, 0).None? && Search(NamedPattern, line, 0).None?
  {
  }

  lemma CommandIsNotAsk(line: string, q: nat)
    requires CommandAt(line, q)
    ensures !Classify(line).Ask?
  {
    CommandIsHit(line, q);
    if Hit(BangPattern, line, q) {
      SearchNone(BangPattern, line, 0);
    } else {
      SearchNone(NamedPattern, line, 0);
    }
    AskOnlyWithoutMatch(line);
  }

  /**
   * A line is forwarded to the model verbatim exactly when none of its
   * lines begins with `!` followed by something or with `/` followed by
   * a word character.
   */
  lemma AskIffNoCommand(line: string)
    ensures Classify(line).Ask? <==> forall q :: !CommandAt(line, q)
  {
    if forall q :: !CommandAt(line, q) {
      NoCommandIsAsk(line);
    } else {
      var q :| CommandAt(line, q);
      CommandIsNotAsk(line, q);
    }
  }

  /** In a text without newlines only position 0 is a line start. */
  lemma {:induction false} SearchSingleLine(pat: Pattern, s: string)
    requires NoNewline(s)
    ensures Search(pat, s, 0) == MatchAt(pat, s, 0)
  {
    if Hit(pat, s, 0) {
      SearchLeftmost(pat, s, 0, 0);
    } else {
      SearchNone(pat, s, 0);
    }
  }

  /**
   * `/status` and a bare `/resume` never reach the prompt lookup of
   * `/<name> <args>`. The two lines come in as parameters pinned by the
   * precondition rather than as literals in the body, so that the
   * verifier does not unfold the whole pattern search on them up front.
   */
  lemma StatusAndBareResume(st: string, re: string)
    requires st == "/status" && re == "/resume"
    ensures Classify(st) == Status
    ensures Classify(re) == ListResume
  {
    assert NoNewline(st) && NoNewline(re);
    SearchSingleLine(LoadPattern, st);
    SearchSingleLine(ResumeIdPattern, st);
    SearchSingleLine(ResumeBarePattern, st);
    assert !HasAt(st, 0, "/load") by { assert st[1] != "/load"[1]; }
    assert !HasAt(st, 0, "/resume") by { assert st[1] != "/resume"[1]; }
    assert st[0..] != "/resume" by { assert st[0..][1] != re[1]; }
    SearchSingleLine(LoadPattern, re);
    SearchSingleLine(ResumeIdPattern, re);
    SearchSingleLine(ResumeBarePattern, re);
    assert !HasAt(re, 0, "/load") by { assert re[1] != "/load"[1]; }
    assert HasAt(re, 0, "/resume") && SpaceEnd(re, 7) == 7;
    assert re[0..] == re;
  }

  /** `!<cmd>` on one line is a shell escape of exactly `<cmd>`. */
  lemma BangLine(cmd: string)
    requires |cmd| > 0 && NoNewline(cmd)
    ensures Classify("!" + cmd) == Bang(cmd)
  {
    var s := "!" + cmd;
    assert s[0] == '!' && s[1..] == cmd;
    assert NoNewline(s) by {
      forall k | 0 <= k < |s| ensures s[k] != '\n' { if k > 0 { assert s[k] == cmd[k - 1]; } }
    }
    BangSkipsEarlierPatterns(s);
    SearchSingleLine(BangPattern, s);
  }

  /** A one-line text starting `!` matches none of the patterns tried before `!(.+)`. */
  lemma BangSkipsEarlierPatterns(s: string)
    requires |s| >= 2 && s[0] == '!' && NoNewline(s)
    ensures Search(LoadPattern, s, 0).None? && Search(ResumeIdPattern, s, 0).None?
    ensures Search(ResumeBarePattern, s, 0).None?
  {
    SearchSingleLine(LoadPattern, s);
    SearchSingleLine(ResumeIdPattern, s);
    SearchSingleLine(ResumeBarePattern, s);
    assert !HasAt(s, 0, "/load") by {
      if |s| >= 5 { assert s[0..5][0] == s[0]; }
    }
    assert !HasAt(s, 0, "/resume") by {
      if |s| >= 7 { assert s[0..7][0] == s[0]; }
    }
    assert s[0..] != "/resume" by { assert s[0..][0] == '!'; }
  }

  /** Where the keyword, the space, the word and the rest sit in `kw + " " + w + rest`. */
  lemma KeywordLineChars(kw: string, w: string, rest: string)
    ensures var s := kw + " " + w + rest;
      |s| == |kw| + 1 + |w| + |rest| && s[|kw|] == ' ' &&
      s[0..|kw|] == kw && s[|kw| + 1..|kw| + 1 + |w|] == w &&
      (forall k :: |kw| + 1 <= k < |kw| + 1 + |w| ==> s[k] == w[k - |kw| - 1]) &&
      (rest != [] ==> s[|kw| + 1 + |w|] == rest[0])
  {
  }

  /** Prefix facts shared by the `/model` and `/resume` lemmas. */
  lemma KeywordLine(kw: string, w: string, rest: string)
    requires |kw| > 0 && IsWordText(w) && NoNewline(rest) && (rest == [] || !IsWord(rest[0]))
    ensures var s := kw + " " + w + rest;
      SpaceEnd(s, |kw|) == |kw| + 1 && WordEnd(s, |kw| + 1) == |kw| + 1 + |w| &&
      s[|kw| + 1..|kw| + 1 + |w|] == w && HasAt(s, 0, kw)
  {
    var s := kw + " " + w + rest;
    KeywordLineChars(kw, w, rest);
    assert IsWord(w[0]);
    assert SpaceEnd(s, |kw| + 1) == |kw| + 1;
    WordRun(s, |kw| + 1, |kw| + 1 + |w|);
  }

  /** WordEnd over a known maximal run of word characters. */
  lemma {:induction false} WordRun(s: string, i: nat, j: nat)
    requires i <= j <= |s|
    requires forall k :: i <= k < j ==> IsWord(s[k])
    requires j == |s| || !IsWord(s[j])
    ensures WordEnd(s, i) == j
    decreases j - i
  {
    if i < j {
      WordRun(s, i + 1, j);
    }
  }

  /** A one-line text starting `/m` matches none of the patterns tried before `/model`. */
  lemma SlashMSkipsEarlierPatterns(s: string)
    requires |s| >= 2 && s[0] == '/' && s[1] == 'm' && NoNewline(s)
    ensures Search(LoadPattern, s, 0).None? && Search(ResumeIdPattern, s, 0).None?
    ensures Search(ResumeBarePattern, s, 0).None? && Search(BangPattern, s, 0).None?
    ensures s != "/exit" && s != "/quit" && s != "/new" && s != "/clear" && s != "/status"
  {
    SearchSingleLine(LoadPattern, s);
    SearchSingleLine(ResumeIdPattern, s);
    SearchSingleLine(ResumeBarePattern, s);
    SearchSingleLine(BangPattern, s);
    assert !HasAt(s, 0, "/load") by {
      if |s| >= 5 { assert s[0..5][1] == s[1]; }
    }
    assert !HasAt(s, 0, "/resume") by {
      if |s| >= 7 { assert s[0..7][1] == s[1]; }
    }
    assert s[0..] != "/resume" by { assert s[0..][1] == 'm'; }
    assert s != "/status" by { assert "/status"[1] == 's'; }
    assert s != "/exit" && s != "/quit" && s != "/new" && s != "/clear";
  }

  /**
   * `/model <word><rest>` switches to the captured word only: in
   * `/model ollama/llama2` the model becomes `ollama`.
   */
  lemma {:induction false} ModelLine(w: string, rest: string)
    requires IsWordText(w) && NoNewline(w) && NoNewline(rest) && (rest == [] || !IsWord(rest[0]))
    ensures Classify("/model " + w + rest) == Model(w)
  {
    var s := "/model " + w + rest;
    KeywordLine("/model", w, rest);
    assert s == "/model" + " " + w + rest;
    assert NoNewline(s) by {
      forall k | 0 <= k < |s| ensures s[k] != '\n' {
        if 7 <= k < 7 + |w| { assert s[k] == w[k - 7]; }
        else if k >= 7 + |w| { assert s[k] == rest[k - 7 - |w|]; }
      }
    }
    assert s[1] == 'm';
    SlashMSkipsEarlierPatterns(s);
    SearchSingleLine(ModelPattern, s);
  }

  /** `/resume <id>` for a word `<id>` resumes exactly that id. */
  lemma {:induction false} ResumeLine(id: string)
    requires IsWordText(id)
    ensures Classify("/resume " + id) == Resume(id)
  {
    var s := "/resume " + id;
    KeywordLine("/resume", id, []);
    assert s == "/resume" + " " + id + [];
    assert NoNewline(s) by {
      forall k | 0 <= k < |s| ensures s[k] != '\n' {
        if k >= 8 { assert s[k] == id[k - 8]; }
      }
    }
    assert s[1] == 'r';
    SearchSingleLine(LoadPattern, s);
    SearchSingleLine(ResumeIdPattern, s);
    assert !HasAt(s, 0, "/load") by {
      if |s| >= 5 { assert s[0..5][1] == s[1]; }
    }
    assert s != "/exit" && s != "/quit" && s != "/new" && s != "/clear";
  }

  /** `/load <name>` with a word `<name>` and nothing after it loads that prompt with empty arguments. */
  lemma {:induction false} LoadLine(name: string)
    requires IsWordText(name)
    ensures Classify("/load " + name) == Load(name, [])
  {
    var s := "/load " + name;
    KeywordLine("/load", name, []);
    assert s == "/load" + " " + name + [];
    assert |s| == 6 + |name| && LineEnd(s, |s|) == |s| && SpaceEnd(s, |s|) == |s|;
    assert s[|s|..|s|] == [];
    assert s != "/exit" && s != "/quit" && s != "/new" && s != "/clear";
  }
}
