/**
 * Replace-all of a literal pattern, as `String#gsub(String, String)` is
 * meant to be used by the prompt builder and the file-edit tool, and
 * `gsub` as Ruby actually evaluates it, with the backslash sequences it
 * interprets in the replacement text.
 */
module Substitution {
  import opened Options

  /** `pat` occurs in `s` starting at index `i`. */
  predicate OccursAt(s: string, pat: string, i: nat) {
    i + |pat| <= |s| && s[i..i + |pat|] == pat
  }

  predicate Occurs(s: string, pat: string) {
    exists i: nat | i <= |s| :: OccursAt(s, pat, i)
  }

  /**
   * Literal replace-all, scanning left to right and replacing each
   * leftmost non-overlapping occurrence. An empty pattern matches at
   * every position, before each character and at the end.
   */
  function ReplaceAll(s: string, pat: string, rep: string): string
    decreases |s|
  {
    if pat == [] then
      (if s == [] then rep else rep + [s[0]] + ReplaceAll(s[1..], pat, rep))
    else if OccursAt(s, pat, 0) then rep + ReplaceAll(s[|pat|..], pat, rep)
    else if s == [] then []
    else [s[0]] + ReplaceAll(s[1..], pat, rep)
  }

  /** A slice of `a + t` that lies past `a` is a slice of `t`. */
  lemma SliceAfterPrefix(a: string, t: string, i: nat, j: nat)
    requires |a| <= i <= j <= |a + t|
    ensures (a + t)[i..j] == t[i - |a|..j - |a|]
  {
  }

  /** Block `k + 1` starts one block length after block `k`. */
  lemma BlockOffsets(k: nat, m: nat)
    ensures (k + 1) * m == k * m + m
  {
  }

  /** With an empty pattern, block `k` of the result is the replacement followed by `s[k]`. */
  lemma {:induction false} EmptyPatternBlock(s: string, rep: string, k: nat)
    requires k < |s|
    ensures var r, m := ReplaceAll(s, [], rep), |rep| + 1;
      (k + 1) * m <= |r| && r[k * m..(k + 1) * m] == rep + [s[k]]
    decreases k
  {
    var m := |rep| + 1;
    var head, t := rep + [s[0]], ReplaceAll(s[1..], [], rep);
    assert ReplaceAll(s, [], rep) == head + t;
    if k == 0 {
      assert (head + t)[0..m] == head;
    } else {
      EmptyPatternBlock(s[1..], rep, k - 1);
      BlockOffsets(k - 1, m);
      BlockOffsets(k, m);
      SliceAfterPrefix(head, t, k * m, (k + 1) * m);
      assert s[1..][k - 1] == s[k];
    }
  }

  /** With an empty pattern, the result ends with the replacement after the last block. */
  lemma {:induction false} EmptyPatternTail(s: string, rep: string)
    ensures var r, m := ReplaceAll(s, [], rep), |rep| + 1;
      |s| * m <= |r| && r[|s| * m..] == rep
    decreases |s|
  {
    if s != [] {
      var m := |rep| + 1;
      var head, t := rep + [s[0]], ReplaceAll(s[1..], [], rep);
      assert ReplaceAll(s, [], rep) == head + t;
      EmptyPatternTail(s[1..], rep);
      BlockOffsets(|s| - 1, m);
      SliceAfterPrefix(head, t, |s| * m, |head + t|);
    }
  }

  /**
   * An empty pattern inserts the replacement before every character and
   * at the end: block `k` of the result, of length `|rep| + 1`, is the
   * replacement followed by the `k`-th character, and the last block is
   * the replacement alone.
   */
  lemma EmptyPatternInserts(s: string, rep: string)
    ensures var r := ReplaceAll(s, [], rep);
      |r| == |s| * (|rep| + 1) + |rep| &&
      (forall k :: 0 <= k < |s| ==> r[k * (|rep| + 1)..(k + 1) * (|rep| + 1)] == rep + [s[k]]) &&
      r[|s| * (|rep| + 1)..] == rep
  {
    var r, m := ReplaceAll(s, [], rep), |rep| + 1;
    EmptyPatternTail(s, rep);
    assert |r| == |s| * m + |r[|s| * m..]|;
    forall k | 0 <= k < |s|
      ensures (k + 1) * m <= |r| && r[k * m..(k + 1) * m] == rep + [s[k]]
    {
      EmptyPatternBlock(s, rep, k);
    }
  }

  /** A text without the pattern comes back unchanged. */
  lemma {:induction false} ReplaceAllAbsent(s: string, pat: string, rep: string)
    requires pat != [] && !Occurs(s, pat)
    ensures ReplaceAll(s, pat, rep) == s
    decreases |s|
  {
    if s != [] {
      assert !OccursAt(s, pat, 0);
      forall i: nat | OccursAt(s[1..], pat, i) ensures OccursAt(s, pat, i + 1) {
        assert s[i + 1..i + 1 + |pat|] == s[1..][i..i + |pat|];
      }
      ReplaceAllAbsent(s[1..], pat, rep);
    }
  }

  /** Replacing a pattern by itself changes nothing. */
  lemma {:induction false} ReplaceAllSelf(s: string, pat: string)
    requires pat != []
    ensures ReplaceAll(s, pat, pat) == s
    decreases |s|
  {
    if s == [] {
    } else if OccursAt(s, pat, 0) {
      ReplaceAllSelf(s[|pat|..], pat);
      assert s == s[..|pat|] + s[|pat|..];
    } else {
      ReplaceAllSelf(s[1..], pat);
      assert s == [s[0]] + s[1..];
    }
  }

  /**
   * No occurrence of `pat` starts inside `p` when `p` is followed by `pat`:
   * the scan reaches the end of `p` before it finds a match.
   */
  predicate Clear(p: string, pat: string) {
    forall i: nat :: i < |p| ==> !OccursAt(p + pat, pat, i)
  }

  /** One step of the scan where the pattern does not start. */
  lemma ReplaceAllMiss(s: string, pat: string, rep: string)
    requires pat != [] && s != [] && !OccursAt(s, pat, 0)
    ensures ReplaceAll(s, pat, rep) == [s[0]] + ReplaceAll(s[1..], pat, rep)
  {
  }

  /** One step of the scan where the pattern starts. */
  lemma ReplaceAllHit(pat: string, rest: string, rep: string)
    requires pat != []
    ensures ReplaceAll(pat + rest, pat, rep) == rep + ReplaceAll(rest, pat, rep)
  {
    var s := pat + rest;
    assert s[..|pat|] == pat && s[|pat|..] == rest;
  }

  /** A mismatch at the start of `p + pat` is a mismatch at the start of any longer text. */
  lemma MissExtends(p: string, pat: string, rest: string)
    requires p != [] && !OccursAt(p + pat, pat, 0)
    ensures p + pat + rest != [] && !OccursAt(p + pat + rest, pat, 0)
  {
    assert (p + pat + rest)[..|pat|] == (p + pat)[..|pat|];
  }

  /** Clearness survives dropping the first character. */
  lemma ClearTail(p: string, pat: string)
    requires p != [] && Clear(p, pat)
    ensures Clear(p[1..], pat) && !OccursAt(p + pat, pat, 0)
  {
    forall i: nat | i < |p[1..]| ensures !OccursAt(p[1..] + pat, pat, i) {
      assert !OccursAt(p + pat, pat, i + 1);
      assert p[1..] + pat == (p + pat)[1..];
    }
  }

  /** Putting back the first character of a non-empty text. */
  lemma PrependFirst(p: string, r: string, tail: string)
    requires p != [] && r == [p[0]] + (p[1..] + tail)
    ensures r == p + tail
  {
    assert p == [p[0]] + p[1..];
  }

  /** A clear prefix is copied, and the pattern after it is replaced. */
  lemma {:induction false} ReplaceAllClearPrefix(p: string, pat: string, rep: string, rest: string)
    requires pat != [] && Clear(p, pat)
    ensures ReplaceAll(p + pat + rest, pat, rep) == p + (rep + ReplaceAll(rest, pat, rep))
    decreases |p|
  {
    if p == [] {
      ReplaceAllHit(pat, rest, rep);
      assert p + pat + rest == pat + rest;
    } else {
      var s := p + pat + rest;
      ClearTail(p, pat);
      MissExtends(p, pat, rest);
      ReplaceAllMiss(s, pat, rep);
      assert s[1..] == p[1..] + pat + rest && s[0] == p[0];
      ReplaceAllClearPrefix(p[1..], pat, rep, rest);
      PrependFirst(p, ReplaceAll(s, pat, rep), rep + ReplaceAll(rest, pat, rep));
    }
  }

  /** `parts` joined with `sep` between consecutive parts. */
  function Join(parts: seq<string>, sep: string): string
    decreases |parts|
  {
    if parts == [] then []
    else if |parts| == 1 then parts[0]
    else parts[0] + sep + Join(parts[1..], sep)
  }

  /**
   * `parts` are the pieces between the occurrences the left-to-right scan
   * finds: each piece but the last is clear, the last holds no occurrence.
   */
  predicate Segmented(parts: seq<string>, pat: string) {
    |parts| > 0 &&
    (forall i :: 0 <= i < |parts| - 1 ==> Clear(parts[i], pat)) &&
    !Occurs(parts[|parts| - 1], pat)
  }

  /**
   * Reference characterisation of replace-all: a text made of pieces
   * separated by the pattern becomes the same pieces separated by the
   * replacement.
   */
  lemma {:induction false} ReplaceAllJoin(parts: seq<string>, pat: string, rep: string)
    requires pat != [] && Segmented(parts, pat)
    ensures ReplaceAll(Join(parts, pat), pat, rep) == Join(parts, rep)
    decreases |parts|
  {
    if |parts| == 1 {
      ReplaceAllAbsent(parts[0], pat, rep);
    } else {
      assert Segmented(parts[1..], pat) by {
        forall i | 0 <= i < |parts[1..]| - 1 ensures Clear(parts[1..][i], pat) {
          assert parts[1..][i] == parts[i + 1];
        }
      }
      ReplaceAllJoin(parts[1..], pat, rep);
      ReplaceAllClearPrefix(parts[0], pat, rep, Join(parts[1..], pat));
      assert Join(parts, pat) == parts[0] + pat + Join(parts[1..], pat);
    }
  }

  /** The first occurrence of `pat` at or after `i`, as `String#index` finds it. */
  function FindFrom(s: string, pat: string, i: nat): (r: Option<nat>)
    requires i <= |s|
    ensures r.Some? ==> i <= r.value <= |s| && OccursAt(s, pat, r.value)
    ensures r.Some? ==> forall j :: i <= j < r.value ==> !OccursAt(s, pat, j)
    ensures r.None? ==> forall j :: i <= j <= |s| ==> !OccursAt(s, pat, j)
    decreases |s| - i
  {
    if OccursAt(s, pat, i) then Some(i)
    else if i == |s| then None
    else FindFrom(s, pat, i + 1)
  }

  /** The text before the first occurrence of the pattern is clear. */
  lemma FirstOccurrenceClear(s: string, pat: string, i: nat)
    requires OccursAt(s, pat, i) && forall j :: 0 <= j < i ==> !OccursAt(s, pat, j)
    ensures Clear(s[..i], pat) && s[..i] + pat == s[..i + |pat|]
  {
    assert s[..i] + pat == s[..i + |pat|];
    forall j: nat | j < |s[..i]| ensures !OccursAt(s[..i] + pat, pat, j) {
      assert !OccursAt(s, pat, j);
      if j + |pat| <= |s[..i] + pat| {
        assert (s[..i] + pat)[j..j + |pat|] == s[j..j + |pat|];
      }
    }
  }

  /**
   * Every text is the pieces between the occurrences the left-to-right
   * scan finds, joined by the pattern; with `ReplaceAllJoin` this makes
   * replace-all replace every occurrence of any text.
   */
  lemma {:induction false} Segment(s: string, pat: string) returns (parts: seq<string>)
    requires pat != []
    ensures Segmented(parts, pat) && Join(parts, pat) == s
    decreases |s|
  {
    var first := FindFrom(s, pat, 0);
    if first.None? {
      parts := [s];
      assert !Occurs(s, pat);
    } else {
      var i := first.value;
      var rest := s[i + |pat|..];
      FirstOccurrenceClear(s, pat, i);
      var tail := Segment(rest, pat);
      parts := [s[..i]] + tail;
      assert parts[1..] == tail;
      assert s == s[..i + |pat|] + rest;
      assert Join(parts, pat) == s[..i] + pat + Join(tail, pat);
      forall k | 0 <= k < |parts| - 1 ensures Clear(parts[k], pat) {
        if k > 0 { assert parts[k] == tail[k - 1]; }
      }
    }
  }

  /** Replace-all turns every text into its pieces joined by the replacement. */
  lemma ReplaceAllReplacesEvery(s: string, pat: string, rep: string)
    requires pat != []
    ensures exists parts :: Segmented(parts, pat) && Join(parts, pat) == s && ReplaceAll(s, pat, rep) == Join(parts, rep)
  {
    var parts := Segment(s, pat);
    ReplaceAllJoin(parts, pat, rep);
  }

  // ---------------------------------------------------------------------
  // gsub as Ruby evaluates it with a String replacement

  function Then(a: Option<string>, b: Option<string>): Option<string> {
    if a.Some? && b.Some? then Some(a.value + b.value) else None
  }

  /**
   * Expansion of the replacement text for one match, as Ruby does even
   * for a String pattern: `\0` and `\&` give the match, `\1`..`\9` give
   * nothing (there are no groups), `` \` `` the text before the match,
   * `\'` the text after it, `\\` one backslash, `\k<` raises (None); any
   * other backslash pair and a trailing backslash are kept.
   */
  function Expand(rep: string, pre: string, matched: string, post: string): Option<string>
    decreases |rep|
  {
    if rep == [] then Some([])
    else if rep[0] != '\\' || |rep| == 1 then Then(Some([rep[0]]), Expand(rep[1..], pre, matched, post))
    else
      var c, rest := rep[1], rep[2..];
      if c == '0' || c == '&' then Then(Some(matched), Expand(rest, pre, matched, post))
      else if '1' <= c <= '9' then Expand(rest, pre, matched, post)
      else if c == '`' then Then(Some(pre), Expand(rest, pre, matched, post))
      else if c == '\'' then Then(Some(post), Expand(rest, pre, matched, post))
      else if c == '\\' then Then(Some(['\\']), Expand(rest, pre, matched, post))
      else if c == 'k' && rest != [] && rest[0] == '<' then None
      else Then(Some(rep[..2]), Expand(rest, pre, matched, post))
  }

  function GsubFrom(s: string, pat: string, rep: string, i: nat): Option<string>
    requires i <= |s|
    decreases |s| - i
  {
    if pat == [] then
      Then(Expand(rep, s[..i], [], s[i..]),
           if i < |s| then Then(Some([s[i]]), GsubFrom(s, pat, rep, i + 1)) else Some([]))
    else if OccursAt(s, pat, i) then
      Then(Expand(rep, s[..i], pat, s[i + |pat|..]), GsubFrom(s, pat, rep, i + |pat|))
    else if i < |s| then Then(Some([s[i]]), GsubFrom(s, pat, rep, i + 1))
    else Some([])
  }

  /** `s.gsub(pat, rep)` for String arguments; None when Ruby raises. */
  function GsubAsWritten(s: string, pat: string, rep: string): Option<string> {
    GsubFrom(s, pat, rep, 0)
  }

  /** The group name after `\k<`, up to the closing `>`, if there is one. */
  function GroupName(rest: string): (r: Option<string>)
    ensures r.Some? ==> |r.value| < |rest| && rest[|r.value|] == '>' && '>' !in r.value
    ensures r.None? ==> '>' !in rest
  {
    if rest == [] then None
    else if rest[0] == '>' then Some([])
    else match GroupName(rest[1..])
      case None => None
      case Some(name) => Some([rest[0]] + name)
  }

  /** The message of the error `\k<` raises when no group of that name exists. */
  function GroupReferenceMessage(rest: string): string {
    match GroupName(rest)
    case Some(name) => "undefined group name reference: " + name
    case None => "invalid group name reference format"
  }

  /**
   * The message Ruby raises while expanding `rep`, found by the same scan
   * as `Expand`; empty when the expansion does not raise.
   */
  function RaisedBy(rep: string): string
    decreases |rep|
  {
    if |rep| < 2 then []
    else if rep[0] != '\\' then RaisedBy(rep[1..])
    else if rep[1] == 'k' && |rep| > 2 && rep[2] == '<' then GroupReferenceMessage(rep[3..])
    else RaisedBy(rep[2..])
  }

  /** An expansion fails exactly when the scan finds a message to raise. */
  lemma {:induction false} ExpandFailsIffRaised(rep: string, pre: string, matched: string, post: string)
    ensures Expand(rep, pre, matched, post).None? <==> RaisedBy(rep) != []
    decreases |rep|
  {
    if |rep| >= 2 {
      if rep[0] != '\\' {
        ExpandFailsIffRaised(rep[1..], pre, matched, post);
      } else if !(rep[1] == 'k' && rep[2..] != [] && rep[2] == '<') {
        ExpandFailsIffRaised(rep[2..], pre, matched, post);
      }
    } else if |rep| == 1 {
      assert Expand(rep[1..], pre, matched, post) == Some([]);
    }
  }

  /** When gsub raises, the replacement's scan has a message for it. */
  lemma {:induction false} GsubRaisesWithMessage(s: string, pat: string, rep: string, i: nat)
    requires i <= |s|
    ensures GsubFrom(s, pat, rep, i).None? ==> RaisedBy(rep) != []
    decreases |s| - i
  {
    if pat == [] {
      ExpandFailsIffRaised(rep, s[..i], [], s[i..]);
      if i < |s| { GsubRaisesWithMessage(s, pat, rep, i + 1); }
    } else if OccursAt(s, pat, i) {
      ExpandFailsIffRaised(rep, s[..i], pat, s[i + |pat|..]);
      GsubRaisesWithMessage(s, pat, rep, i + |pat|);
    } else if i < |s| {
      GsubRaisesWithMessage(s, pat, rep, i + 1);
    }
  }

  /** Expanding `\k<y>` raises Ruby's undefined-group error for `y`. */
  lemma GroupReferenceRaises(rep: string, pre: string, matched: string, post: string)
    requires rep == "\\k<y>"
    ensures Expand(rep, pre, matched, post) == None
    ensures RaisedBy(rep) == "undefined group name reference: y"
  {
    var rest := rep[3..];
    assert rep[0] == '\\' && rep[1] == 'k' && rep[2] == '<';
    assert rest[0] == 'y' && rest[1..] == ">";
    assert GroupName(rest[1..]) == Some([]);
    assert [rest[0]] + [] == "y";
  }

  lemma {:induction false} ExpandPlain(rep: string, pre: string, matched: string, post: string)
    requires NoBackslash(rep)
    ensures Expand(rep, pre, matched, post) == Some(rep)
    decreases |rep|
  {
    if rep != [] {
      ExpandPlain(rep[1..], pre, matched, post);
      assert rep == [rep[0]] + rep[1..];
    }
  }

  predicate NoBackslash(rep: string) {
    forall k :: 0 <= k < |rep| ==> rep[k] != '\\'
  }

  lemma AgreeEmptyPatternStep(s: string, rep: string, i: nat)
    requires i < |s| && NoBackslash(rep)
    requires GsubFrom(s, [], rep, i + 1) == Some(ReplaceAll(s[i + 1..], [], rep))
    ensures GsubFrom(s, [], rep, i) == Some(ReplaceAll(s[i..], [], rep))
  {
    ExpandPlain(rep, s[..i], [], s[i..]);
    var t := s[i..];
    assert t[0] == s[i] && t[1..] == s[i + 1..];
    var tail := ReplaceAll(t[1..], [], rep);
    assert rep + ([s[i]] + tail) == rep + [t[0]] + tail;
  }

  lemma AgreeHitStep(s: string, pat: string, rep: string, i: nat)
    requires pat != [] && i <= |s| && OccursAt(s, pat, i) && NoBackslash(rep)
    requires GsubFrom(s, pat, rep, i + |pat|) == Some(ReplaceAll(s[i + |pat|..], pat, rep))
    ensures GsubFrom(s, pat, rep, i) == Some(ReplaceAll(s[i..], pat, rep))
  {
    ExpandPlain(rep, s[..i], pat, s[i + |pat|..]);
    var t := s[i..];
    assert t[..|pat|] == s[i..i + |pat|];
    assert OccursAt(t, pat, 0);
    assert t[|pat|..] == s[i + |pat|..];
  }

  lemma AgreeMissStep(s: string, pat: string, rep: string, i: nat)
    requires pat != [] && i < |s| && !OccursAt(s, pat, i) && NoBackslash(rep)
    requires GsubFrom(s, pat, rep, i + 1) == Some(ReplaceAll(s[i + 1..], pat, rep))
    ensures GsubFrom(s, pat, rep, i) == Some(ReplaceAll(s[i..], pat, rep))
  {
    var t := s[i..];
    assert !OccursAt(t, pat, 0) by {
      if |pat| <= |t| { assert t[..|pat|] == s[i..i + |pat|]; }
    }
    assert t[0] == s[i] && t[1..] == s[i + 1..];
  }

  /**
   * With no backslash in the replacement, Ruby's gsub and the literal
   * replace-all agree on every text and pattern.
   */
  lemma {:induction false} GsubAgreesWithoutBackslash(s: string, pat: string, rep: string, i: nat)
    requires i <= |s| && NoBackslash(rep)
    ensures GsubFrom(s, pat, rep, i) == Some(ReplaceAll(s[i..], pat, rep))
    decreases |s| - i
  {
    if pat == [] {
      if i < |s| {
        GsubAgreesWithoutBackslash(s, pat, rep, i + 1);
        AgreeEmptyPatternStep(s, rep, i);
      } else {
        ExpandPlain(rep, s[..i], [], s[i..]);
        assert s[i..] == [] && rep + [] == rep;
      }
    } else if OccursAt(s, pat, i) {
      GsubAgreesWithoutBackslash(s, pat, rep, i + |pat|);
      AgreeHitStep(s, pat, rep, i);
    } else if i < |s| {
      GsubAgreesWithoutBackslash(s, pat, rep, i + 1);
      AgreeMissStep(s, pat, rep, i);
    } else {
      assert s[i..] == [];
    }
  }
}
