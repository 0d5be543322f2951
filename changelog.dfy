/** The release changelog generator (src/utils/changelog.ts): reading
    commit summaries in the Conventional Commits 1.0.0 form, grouping
    commits by type, and laying out the Markdown changelog. The `git log`
    output is a parameter. */
module Changelog {
  import opened Wrappers
  import Text
  import Lists

  /** The parts of a summary matched by
      `^(\w+)(?:\(([^)]+)\))?(!)?:\s*(.+)$`. */
  datatype Summary = Summary(kind: string, scope: Option<string>, bang: bool, description: string)

  /** The end of the run of `\w` characters starting at `i`. */
  function WordEnd(s: string, i: nat): (j: nat)
    requires i <= |s|
    ensures i <= j <= |s|
    ensures forall k :: i <= k < j ==> Text.IsWordChar(s[k])
    ensures j == |s| || !Text.IsWordChar(s[j])
    decreases |s| - i
  {
    if i < |s| && Text.IsWordChar(s[i]) then WordEnd(s, i + 1) else i
  }

  /** The end of the run of `\s` characters starting at `i`. */
  function SpaceEnd(s: string, i: nat): (j: nat)
    requires i <= |s|
    ensures i <= j <= |s|
    ensures forall k :: i <= k < j ==> Text.IsSpace(s[k])
    ensures j == |s| || !Text.IsSpace(s[j])
    decreases |s| - i
  {
    if i < |s| && Text.IsSpace(s[i]) then SpaceEnd(s, i + 1) else i
  }

  /** Text that `.+` can match entirely. */
  predicate OneLine(s: string) {
    forall k :: 0 <= k < |s| ==> !Text.IsLineTerminator(s[k])
  }

  predicate AllSpace(s: string) {
    forall k :: 0 <= k < |s| ==> Text.IsSpace(s[k])
  }

  /** `\s*(.+)$` on the text after the colon. The greedy `\s*` takes all the
      leading white space unless nothing would be left for `(.+)`, in which
      case it gives back the last character; a line terminator after the
      white space makes the match fail. */
  function Description(rest: string): Option<string> {
    var w := SpaceEnd(rest, 0);
    var start := if w < |rest| || rest == [] then w else |rest| - 1;
    if rest != [] && OneLine(rest[start..]) then Some(rest[start..]) else None
  }

  /** What `(.+)` captures follows white space and is one non-empty line. */
  lemma DescriptionSound(rest: string) returns (w: nat)
    requires Description(rest).Some?
    ensures w < |rest| && AllSpace(rest[..w]) && rest[w..] == Description(rest).value
    ensures OneLine(Description(rest).value)
  {
    w := SpaceEnd(rest, 0);
    if w < |rest| {
      assert AllSpace(rest[..w]);
    } else {
      w := |rest| - 1;
      assert AllSpace(rest[..w]);
      assert OneLine(rest[w..]);
    }
  }

  /** The optional `(scope)` group after the type ending at `t`: the scope
      and where the text continues, or `None` when the match fails (an open
      parenthesis that the group cannot consume). */
  function ScopeGroup(s: string, t: nat): (r: Option<(Option<string>, nat)>)
    requires t <= |s|
    ensures r.Some? ==> t <= r.value.1 <= |s|
  {
    if t < |s| && s[t] == '(' then
      match Text.IndexOf(s[t + 1..], ")")
      case None => None
      case Some(k) => if k == 0 then None else Some((Some(s[t + 1..t + 1 + k]), t + k + 2))
    else Some((None, t))
  }

  /** The group is either absent, or a non-empty scope without `)` in
      parentheses. */
  lemma ScopeGroupSound(s: string, t: nat)
    requires t <= |s| && ScopeGroup(s, t).Some?
    ensures var (scope, p) := ScopeGroup(s, t).value;
      s[t..p] == ScopeText(scope) && (scope.Some? ==> scope.value != [] && ')' !in scope.value)
  {
    var (scope, p) := ScopeGroup(s, t).value;
    if scope.Some? {
      var body := s[t + 1..];
      var k := Text.IndexOf(body, ")").value;
      BeforeFirst(body, ')');
      assert scope.value == body[..k];
      assert forall j :: 0 <= j < k ==> body[..k][j] != ')';
      assert s[t..p] == [s[t]] + body[..k] + [body[k]];
    }
  }

  /** No occurrence of `c` comes before the one `IndexOf` finds. */
  lemma {:induction false} BeforeFirst(s: string, c: char)
    ensures Text.IndexOf(s, [c]).Some? ==>
      s[Text.IndexOf(s, [c]).value] == c && forall m :: 0 <= m < Text.IndexOf(s, [c]).value ==> s[m] != c
    decreases |s|
  {
    if s != [] && !([c] <= s) {
      BeforeFirst(s[1..], c);
      assert s[0] != c by {
        assert [c] != s[..1];
      }
    }
  }

  /** The regular expression of `parseCommit`, as the scanner the
      backtracking matcher amounts to: the type is the whole leading run of
      word characters, the scope runs to the first `)`, and `!` is taken
      when present. */
  function ParseSummary(s: string): Option<Summary> {
    var t := WordEnd(s, 0);
    if t == 0 then None else AfterType(s, t)
  }

  /** The rest of the match once the type `s[..t]` is read. */
  function AfterType(s: string, t: nat): Option<Summary>
    requires t <= |s|
  {
    var g := ScopeGroup(s, t);
    if g.None? then None else AfterScope(s, t, g.value.0, g.value.1)
  }

  /** The rest of the match once the scope group, ending at `p`, is read. */
  function AfterScope(s: string, t: nat, scope: Option<string>, p: nat): Option<Summary>
    requires t <= p <= |s|
  {
    var bang := p < |s| && s[p] == '!';
    var q := if bang then p + 1 else p;
    if q < |s| && s[q] == ':' then
      var d := Description(s[q + 1..]);
      if d.Some? then Some(Summary(s[..t], scope, bang, d.value)) else None
    else None
  }

  /** `(scope)`, or nothing. */
  function ScopeText(scope: Option<string>): string {
    if scope.Some? then "(" + scope.value + ")" else ""
  }

  /** A summary in the form `type(scope)!:<white space>description`. */
  function RenderSummary(h: Summary, gap: string): string {
    h.kind + ScopeText(h.scope) + (if h.bang then "!" else "") + ":" + gap + h.description
  }

  /** What the regular expression accepts: a non-empty word type, a
      non-empty scope without `)`, then the colon, white space, and a
      non-empty one-line description. */
  predicate WellFormed(h: Summary) {
    h.kind != [] && (forall k :: 0 <= k < |h.kind| ==> Text.IsWordChar(h.kind[k]))
    && (h.scope.Some? ==> h.scope.value != [] && ')' !in h.scope.value)
    && h.description != [] && OneLine(h.description)
  }

  /** Every match is a summary in that form: the summary is the rendering
      of what it matched, with the white space `gap` after the colon. */
  lemma ParseSummarySound(s: string) returns (gap: string)
    requires ParseSummary(s).Some?
    ensures WellFormed(ParseSummary(s).value)
    ensures AllSpace(gap) && s == RenderSummary(ParseSummary(s).value, gap)
  {
    var t, scope, p := ParseSummaryParts(s);
    ScopeGroupSound(s, t);
    gap := AfterScopeSound(s, t, scope, p);
    RenderGlue(s, t, p, ParseSummary(s).value, gap);
  }

  /** The positions `ParseSummary` reads: the type ends at `t`, the scope
      group at `p`. */
  lemma ParseSummaryParts(s: string) returns (t: nat, scope: Option<string>, p: nat)
    requires ParseSummary(s).Some?
    ensures 0 < t <= p <= |s| && (forall k :: 0 <= k < t ==> Text.IsWordChar(s[k]))
    ensures ScopeGroup(s, t) == Some((scope, p)) && ParseSummary(s) == AfterScope(s, t, scope, p)
  {
    t := WordEnd(s, 0);
    scope, p := ScopeGroup(s, t).value.0, ScopeGroup(s, t).value.1;
  }

  lemma RenderGlue(s: string, t: nat, p: nat, h: Summary, gap: string)
    requires t <= p <= |s| && s[..t] == h.kind && s[t..p] == ScopeText(h.scope)
    requires s[p..] == (if h.bang then "!" else "") + ":" + gap + h.description
    ensures s == RenderSummary(h, gap)
  {
    assert s == s[..t] + s[t..p] + s[p..];
  }

  /** After the scope group comes an optional `!`, the colon, white space
      and the description. */
  lemma AfterScopeSound(s: string, t: nat, scope: Option<string>, p: nat) returns (gap: string)
    requires t <= p <= |s| && AfterScope(s, t, scope, p).Some?
    ensures var h := AfterScope(s, t, scope, p).value;
      h.kind == s[..t] && h.scope == scope && h.description != [] && OneLine(h.description)
      && AllSpace(gap) && s[p..] == (if h.bang then "!" else "") + ":" + gap + h.description
  {
    var bang, q, rest := AfterScopeParts(s, t, scope, p);
    var w := DescriptionSound(rest);
    gap := rest[..w];
    Glue(s, p, q, bang, gap, Description(rest).value);
  }

  /** The positions `AfterScope` reads. */
  lemma AfterScopeParts(s: string, t: nat, scope: Option<string>, p: nat) returns (bang: bool, q: nat, rest: string)
    requires t <= p <= |s| && AfterScope(s, t, scope, p).Some?
    ensures q == (if bang then p + 1 else p) && q < |s| && s[q] == ':' && (bang ==> s[p] == '!') && rest == s[q + 1..]
    ensures Description(rest).Some? && AfterScope(s, t, scope, p).value == Summary(s[..t], scope, bang, Description(rest).value)
  {
    bang := p < |s| && s[p] == '!';
    q := if bang then p + 1 else p;
    assert q < |s| && s[q] == ':';
    rest := s[q + 1..];
    var d := Description(rest);
    assert AfterScope(s, t, scope, p) == if d.Some? then Some(Summary(s[..t], scope, bang, d.value)) else None;
  }

  lemma Glue(s: string, p: nat, q: nat, bang: bool, gap: string, d: string)
    requires p <= q < |s| && q == (if bang then p + 1 else p) && (bang ==> s[p] == '!') && s[q] == ':'
    requires s[q + 1..] == gap + d
    ensures s[p..] == (if bang then "!" else "") + ":" + gap + d
  {
    assert s[p..] == s[p..q] + [s[q]] + s[q + 1..];
  }

  /** The scope group rendered at `t` reads back. */
  lemma ScopeGroupRendered(s: string, t: nat, scope: Option<string>)
    requires scope.Some? ==> scope.value != [] && ')' !in scope.value
    requires t + |ScopeText(scope)| < |s| && s[t..t + |ScopeText(scope)|] == ScopeText(scope)
    requires s[t + |ScopeText(scope)|] != '('
    ensures ScopeGroup(s, t) == Some((scope, t + |ScopeText(scope)|))
  {
    if scope.Some? {
      var body := s[t + 1..];
      var k := |scope.value|;
      assert s[t] == ScopeText(scope)[0] == '(';
      forall m | 0 <= m < k ensures body[m] == scope.value[m] && body[m] != ')' {
        assert body[m] == ScopeText(scope)[m + 1] == scope.value[m];
      }
      assert body[k] == ScopeText(scope)[k + 1] == ')';
      ScopeCloses(body, k);
      assert s[t + 1..t + 1 + k] == body[..k] == scope.value;
    }
  }

  lemma SuffixRendered(s: string, p: nat, bang: bool, rest: string)
    requires p <= |s| && s[p..] == (if bang then "!" else "") + ":" + rest
    ensures var b := p < |s| && s[p] == '!';
      var q := if b then p + 1 else p;
      b == bang && q < |s| && s[q] == ':' && s[q + 1..] == rest
  {
    if bang {
      assert s[p] == '!' && s[p + 1] == ':';
      assert s[p + 2..] == s[p..][2..];
    } else {
      assert s[p] == ':';
      assert s[p + 1..] == s[p..][1..];
    }
  }

  lemma DescriptionRendered(gap: string, d: string)
    requires AllSpace(gap) && d != [] && !Text.IsSpace(d[0]) && OneLine(d)
    ensures Description(gap + d) == Some(d)
  {
    var rest := gap + d;
    SpaceEndAt(rest, 0, |gap|);
    assert rest[|gap|..] == d;
  }

  /** Conversely, a well-formed summary whose description starts with a
      non-space character reads back as itself, with any white space
      after the colon, including none. */
  lemma ParseSummaryRendered(h: Summary, gap: string)
    requires WellFormed(h) && AllSpace(gap) && !Text.IsSpace(h.description[0])
    ensures ParseSummary(RenderSummary(h, gap)) == Some(h)
  {
    var s := RenderSummary(h, gap);
    RenderedParts(h, gap);
    ReadBack(s, h, gap);
  }

  /** Where the pieces of a rendered summary sit. */
  lemma RenderedParts(h: Summary, gap: string)
    ensures var s := RenderSummary(h, gap);
      var t := |h.kind|;
      var p := t + |ScopeText(h.scope)|;
      p < |s| && s[..t] == h.kind && s[t..p] == ScopeText(h.scope)
      && s[p..] == (if h.bang then "!" else "") + ":" + gap + h.description
      && s[p] in "!:" && s[t] == (if h.scope.Some? then '(' else s[p])
  {
    var s := RenderSummary(h, gap);
    var after := (if h.bang then "!" else "") + ":" + gap + h.description;
    var t := |h.kind|;
    var p := t + |ScopeText(h.scope)|;
    assert s == h.kind + ScopeText(h.scope) + after;
    assert s[p..] == after;
    assert s[p] == after[0];
  }

  /** A text laid out as a rendered summary parses as that summary. */
  lemma ReadBack(s: string, h: Summary, gap: string)
    requires WellFormed(h) && AllSpace(gap) && !Text.IsSpace(h.description[0])
    requires var t := |h.kind|;
      var p := t + |ScopeText(h.scope)|;
      p < |s| && s[..t] == h.kind && s[t..p] == ScopeText(h.scope)
      && s[p..] == (if h.bang then "!" else "") + ":" + gap + h.description
      && s[p] in "!:" && s[t] == (if h.scope.Some? then '(' else s[p])
    ensures ParseSummary(s) == Some(h)
  {
    var t := |h.kind|;
    var p := t + |ScopeText(h.scope)|;
    assert forall k :: 0 <= k < t ==> Text.IsWordChar(s[k]) by {
      assert forall k :: 0 <= k < t ==> s[k] == h.kind[k];
    }
    TypeAndScopeRead(s, t, h.scope);
    AfterScopeRendered(s, t, h.scope, p, h.bang, gap, h.description);
  }

  /** A word ending at `t` followed by a rendered scope group leaves the
      rest of the match to `AfterScope`. */
  lemma TypeAndScopeRead(s: string, t: nat, scope: Option<string>)
    requires 0 < t && t + |ScopeText(scope)| < |s| && s[t..t + |ScopeText(scope)|] == ScopeText(scope)
    requires forall k :: 0 <= k < t ==> Text.IsWordChar(s[k])
    requires scope.Some? ==> scope.value != [] && ')' !in scope.value
    requires s[t + |ScopeText(scope)|] in "!:" && s[t] == (if scope.Some? then '(' else s[t + |ScopeText(scope)|])
    ensures ParseSummary(s) == AfterScope(s, t, scope, t + |ScopeText(scope)|)
  {
    WordEndAt(s, 0, t);
    ScopeGroupRendered(s, t, scope);
    ParseSummaryLayers(s, t, scope, t + |ScopeText(scope)|);
  }

  /** `ParseSummary` as the composition of its layers. */
  lemma ParseSummaryLayers(s: string, t: nat, scope: Option<string>, p: nat)
    requires 0 < t <= p <= |s| && WordEnd(s, 0) == t && ScopeGroup(s, t) == Some((scope, p))
    ensures ParseSummary(s) == AfterScope(s, t, scope, p)
  {
  }

  lemma AfterScopeRendered(s: string, t: nat, scope: Option<string>, p: nat, bang: bool, gap: string, d: string)
    requires t <= p <= |s| && s[p..] == (if bang then "!" else "") + ":" + gap + d
    requires AllSpace(gap) && d != [] && !Text.IsSpace(d[0]) && OneLine(d)
    ensures AfterScope(s, t, scope, p) == Some(Summary(s[..t], scope, bang, d))
  {
    SuffixRendered(s, p, bang, gap + d);
    DescriptionRendered(gap, d);
  }

  lemma {:induction false} WordEndAt(s: string, i: nat, j: nat)
    requires i <= j <= |s|
    requires forall k :: i <= k < j ==> Text.IsWordChar(s[k])
    requires j == |s| || !Text.IsWordChar(s[j])
    ensures WordEnd(s, i) == j
    decreases j - i
  {
    if i < j {
      WordEndAt(s, i + 1, j);
    }
  }

  lemma {:induction false} SpaceEndAt(s: string, i: nat, j: nat)
    requires i <= j <= |s|
    requires forall k :: i <= k < j ==> Text.IsSpace(s[k])
    requires j == |s| || !Text.IsSpace(s[j])
    ensures SpaceEnd(s, i) == j
    decreases j - i
  {
    if i < j {
      SpaceEndAt(s, i + 1, j);
    }
  }

  /** The first `)` of `body` is at `k` when none comes before. */
  lemma ScopeCloses(body: string, k: nat)
    requires k < |body| && body[k] == ')'
    requires forall m :: 0 <= m < k ==> body[m] != ')'
    ensures Text.IndexOf(body, ")") == Some(k)
  {
    Text.ContainsAt(body, ")", k);
    BeforeFirst(body, ')');
    assert [')'] == ")";
    var j := Text.IndexOf(body, ")").value;
    assert body[j] == ')' && forall m :: 0 <= m < j ==> body[m] != ')';
    assert j == k;
  }

  /** `CommitInfo`. */
  datatype CommitInfo = CommitInfo(hash: string, kind: string, scope: Option<string>, subject: string,
                                   body: Option<string>, breaking: bool)

  /** Release commits are skipped: the lower-cased summary mentions
      `release` or `version`. */
  predicate IsRelease(subject: string) {
    var lower := Text.ToLowerAscii(subject);
    Text.Contains(lower, "release") || Text.Contains(lower, "version")
  }

  /** `body?.trim() || undefined`. */
  function TrimmedBody(body: Option<string>): Option<string> {
    if body.Some? && Text.Trim(body.value) != "" then Some(Text.Trim(body.value)) else None
  }

  /** `hash.substring(0, 7)`. */
  function ShortHash(hash: string): (r: string)
    ensures r <= hash && |r| == if |hash| < 7 then |hash| else 7
  {
    if |hash| <= 7 then hash else hash[..7]
  }

  /** `parseCommit`; `None` is `null`. */
  function ParseCommit(hash: string, subject: string, body: Option<string>): Option<CommitInfo> {
    if hash == "" || subject == "" || IsRelease(subject) then None
    else match ParseSummary(subject)
      case Some(h) =>
        Some(CommitInfo(ShortHash(hash), Text.ToLowerAscii(h.kind), h.scope, Text.Trim(h.description),
                        TrimmedBody(body), h.bang || (body.Some? && Text.Contains(body.value, "BREAKING CHANGE:"))))
      case None =>
        Some(CommitInfo(ShortHash(hash), "chore", None, Text.Trim(subject), TrimmedBody(body), false))
  }

  /** A summary that mentions `release` or `version`, in any mix of upper
      and lower case, is dropped whatever the hash and the body. */
  lemma ReleaseDropped(hash: string, subject: string, body: Option<string>, word: string, i: nat)
    requires word == "release" || word == "version"
    requires i + |word| <= |subject| && Text.ToLowerAscii(subject[i..i + |word|]) == word
    ensures ParseCommit(hash, subject, body) == None
  {
    var lower := Text.ToLowerAscii(subject);
    assert lower[i..i + |word|] == Text.ToLowerAscii(subject[i..i + |word|]);
    Text.ContainsAt(lower, word, i);
  }

  /** A commit without a hash or a summary is dropped. */
  lemma EmptyDropped(hash: string, subject: string, body: Option<string>)
    requires hash == "" || subject == ""
    ensures ParseCommit(hash, subject, body) == None
  {
  }

  /** A summary that has no colon, or that does not start with a word
      character, is not conventional: the commit becomes a chore with no
      scope whose summary is the trimmed text, and it is not breaking even
      when its body mentions `BREAKING CHANGE:`. */
  lemma PlainSummaryIsChore(hash: string, subject: string, body: Option<string>)
    requires hash != "" && subject != "" && !IsRelease(subject)
    requires ':' !in subject || !Text.IsWordChar(subject[0])
    ensures ParseCommit(hash, subject, body) ==
      Some(CommitInfo(ShortHash(hash), "chore", None, Text.Trim(subject), TrimmedBody(body), false))
  {
    NotConventional(subject);
  }

  /** The scanner finds no summary in such a text. */
  lemma NotConventional(s: string)
    requires s != [] && (':' !in s || !Text.IsWordChar(s[0]))
    ensures ParseSummary(s) == None
  {
    var t := WordEnd(s, 0);
    if t > 0 {
      var g := ScopeGroup(s, t);
      if g.Some? {
        var p := g.value.1;
        var q := if p < |s| && s[p] == '!' then p + 1 else p;
        assert q < |s| ==> s[q] in s;
      }
    }
  }

  /** A conventional summary gives its lower-cased type, its scope and its
      trimmed description. */
  lemma ParseConventionalCommit(hash: string, h: Summary, gap: string, body: Option<string>)
    requires hash != "" && WellFormed(h) && AllSpace(gap) && !Text.IsSpace(h.description[0])
    requires !IsRelease(RenderSummary(h, gap))
    ensures ParseCommit(hash, RenderSummary(h, gap), body) ==
      Some(CommitInfo(ShortHash(hash), Text.ToLowerAscii(h.kind), h.scope, Text.Trim(h.description), TrimmedBody(body),
                      h.bang || (body.Some? && Text.Contains(body.value, "BREAKING CHANGE:"))))
  {
    ParseSummaryRendered(h, gap);
  }

  /** One line of `git log --pretty=format:%H|||%s|||%b|||%D`, destructured
      as `[hash, subject, body]`; a missing subject is `undefined`, which
      `parseCommit` rejects like the empty one. */
  function CommitOfLine(line: string): Option<CommitInfo> {
    var parts := Text.Split(line, "|||");
    ParseCommit(parts[0], if |parts| > 1 then parts[1] else "", if |parts| > 2 then Some(parts[2]) else None)
  }

  /** `stdout.split('\n').filter(line => line.trim())`. */
  function LogLines(stdout: string): (lines: seq<string>)
    ensures forall line :: line in lines <==> line in Text.Split(stdout, "\n") && Text.Trim(line) != ""
  {
    Lists.Filter(Text.Split(stdout, "\n"), (line: string) => Text.Trim(line) != "")
  }

  /** The readings of the lines that succeed, in order. */
  function Collect<T>(lines: seq<string>, read: string -> Option<T>): seq<T> {
    if lines == [] then []
    else
      var last := read(lines[|lines| - 1]);
      Collect(lines[..|lines| - 1], read) + (if last.Some? then [last.value] else [])
  }

  /** The commits `getCommitsSinceTag` returns for the `git log` output. */
  function CommitsFromLog(stdout: string): seq<CommitInfo> {
    if stdout == "" then [] else Collect(LogLines(stdout), CommitOfLine)
  }

  /** Every collected value is the reading of one of the lines, and every
      line that reads as a value contributes it. */
  lemma {:induction false} CollectSound<T(!new)>(lines: seq<string>, read: string -> Option<T>)
    ensures |Collect(lines, read)| <= |lines|
    ensures forall c :: c in Collect(lines, read) <==> exists i :: 0 <= i < |lines| && read(lines[i]) == Some(c)
  {
    if lines != [] {
      var init := lines[..|lines| - 1];
      CollectSound(init, read);
      forall c | (exists i :: 0 <= i < |lines| && read(lines[i]) == Some(c))
        ensures c in Collect(lines, read)
      {
        var i :| 0 <= i < |lines| && read(lines[i]) == Some(c);
        if i < |init| {
          assert read(init[i]) == Some(c);
        }
      }
      forall c | c in Collect(lines, read)
        ensures exists i :: 0 <= i < |lines| && read(lines[i]) == Some(c)
      {
        if c in Collect(init, read) {
          var i :| 0 <= i < |init| && read(init[i]) == Some(c);
          assert lines[i] == init[i];
        } else {
          assert read(lines[|lines| - 1]) == Some(c);
        }
      }
    }
  }

  /** A commit is in the log's list exactly when some non-blank line of the
      output reads as it. */
  lemma CommitsFromLogSound(stdout: string)
    ensures forall c :: c in CommitsFromLog(stdout) <==>
      exists i :: 0 <= i < |LogLines(stdout)| && stdout != "" && CommitOfLine(LogLines(stdout)[i]) == Some(c)
  {
    CollectSound(LogLines(stdout), CommitOfLine);
  }

  /** The line loop of `getCommitsSinceTag`. */
  method GetCommits(stdout: string) returns (commits: seq<CommitInfo>)
    ensures commits == CommitsFromLog(stdout)
  {
    if stdout == "" {
      return [];
    }
    var commitLines := LogLines(stdout);
    commits := CollectLines(commitLines, CommitOfLine);
  }

  /** The loop over the lines: read each, keep the successful readings. */
  method CollectLines<T>(lines: seq<string>, read: string -> Option<T>) returns (values: seq<T>)
    ensures values == Collect(lines, read)
  {
    values := [];
    for i := 0 to |lines|
      invariant values == Collect(lines[..i], read)
    {
      assert lines[..i + 1] == lines[..i] + [lines[i]];
      var value := read(lines[i]);
      if value.Some? {
        values := values + [value.value];
      }
    }
    assert lines[..|lines|] == lines;
  }

  /** The groups of `categorizeCommits`: each type seen maps to its commits
      in input order. */
  function Groups(commits: seq<CommitInfo>): map<string, seq<CommitInfo>> {
    if commits == [] then map[]
    else
      var c := commits[|commits| - 1];
      var g := Groups(commits[..|commits| - 1]);
      g[c.kind := (if c.kind in g then g[c.kind] else []) + [c]]
  }

  /** The commits of one type, in order. */
  function OfKind(commits: seq<CommitInfo>, kind: string): seq<CommitInfo> {
    Lists.Filter(commits, (c: CommitInfo) => c.kind == kind)
  }

  /** Every commit lands in exactly the group of its type, groups keep the
      input order, and there is a group exactly for each type that occurs. */
  lemma GroupsAreFilters(commits: seq<CommitInfo>)
    ensures forall kind :: kind in Groups(commits) <==> exists c :: c in commits && c.kind == kind
    ensures forall kind :: kind in Groups(commits) ==> Groups(commits)[kind] == OfKind(commits, kind)
  {
    GroupKeys(commits);
    GroupContents(commits);
  }

  /** There is a group exactly for each type that occurs. */
  lemma {:induction false} GroupKeys(commits: seq<CommitInfo>)
    ensures forall kind :: kind in Groups(commits) <==> exists c :: c in commits && c.kind == kind
  {
    if commits != [] {
      var init, c := commits[..|commits| - 1], commits[|commits| - 1];
      GroupKeys(init);
      assert commits == init + [c];
      forall kind ensures kind in Groups(commits) <==> exists x :: x in commits && x.kind == kind {
        if kind in Groups(init) {
          var x :| x in init && x.kind == kind;
          assert x in commits;
        }
        if exists x :: x in commits && x.kind == kind {
          var x :| x in commits && x.kind == kind;
          if x != c {
            assert x in init;
          }
        }
      }
    }
  }

  /** Each group holds the commits of its type, in input order. */
  lemma {:induction false} GroupContents(commits: seq<CommitInfo>)
    ensures forall kind :: kind in Groups(commits) ==> Groups(commits)[kind] == OfKind(commits, kind)
  {
    if commits != [] {
      var init, c := commits[..|commits| - 1], commits[|commits| - 1];
      GroupContents(init);
      GroupKeys(init);
      assert commits == init + [c];
      forall kind | kind in Groups(commits)
        ensures Groups(commits)[kind] == OfKind(commits, kind)
      {
        GroupStep(init, c, kind);
      }
    }
  }

  /** Appending one commit extends its own group by it and leaves the
      others as they were. */
  lemma GroupStep(init: seq<CommitInfo>, c: CommitInfo, kind: string)
    requires kind in Groups(init + [c])
    requires kind in Groups(init) ==> Groups(init)[kind] == OfKind(init, kind)
    requires kind !in Groups(init) ==> forall x :: x in init ==> x.kind != kind
    ensures Groups(init + [c])[kind] == OfKind(init + [c], kind)
  {
    var g := Groups(init);
    assert (init + [c])[..|init + [c]| - 1] == init;
    assert Groups(init + [c]) == g[c.kind := (if c.kind in g then g[c.kind] else []) + [c]];
    OfKindAppend(init, c, kind);
    if kind !in g {
      Lists.FilterNone(init, (x: CommitInfo) => x.kind == kind);
    }
  }

  lemma OfKindAppend(init: seq<CommitInfo>, c: CommitInfo, kind: string)
    ensures OfKind(init + [c], kind) == OfKind(init, kind) + (if c.kind == kind then [c] else [])
  {
    Lists.FilterAppend(init, [c], (x: CommitInfo) => x.kind == kind);
    assert Lists.Filter([c], (x: CommitInfo) => x.kind == kind) == if c.kind == kind then [c] else [];
  }

  /** `categorizeCommits`, with the dictionary as a map. */
  method CategorizeCommits(commits: seq<CommitInfo>) returns (categorized: map<string, seq<CommitInfo>>)
    ensures categorized == Groups(commits)
  {
    categorized := map[];
    for i := 0 to |commits|
      invariant categorized == Groups(commits[..i])
    {
      assert commits[..i + 1][..i] == commits[..i];
      var commit := commits[i];
      if commit.kind !in categorized {
        categorized := categorized[commit.kind := []];
      }
      categorized := categorized[commit.kind := categorized[commit.kind] + [commit]];
    }
    assert commits[..|commits|] == commits;
  }

  /** Own members of `Object.prototype` whose names a lower-cased `\w+`
      type can spell. */
  const InheritedKeys: set<string> := {"constructor", "__proto__"}

  /** `categorizeCommits` as written, on a plain object literal: a type
      naming an inherited member finds that member, which is truthy, so no
      array is created, and calling `push` on it throws (`None`). */
  function CategorizeAsWritten(commits: seq<CommitInfo>): Option<map<string, seq<CommitInfo>>> {
    if commits == [] then Some(map[])
    else
      var c := commits[|commits| - 1];
      match CategorizeAsWritten(commits[..|commits| - 1])
      case None => None
      case Some(g) =>
        if c.kind !in g && c.kind in InheritedKeys then None
        else Some(g[c.kind := (if c.kind in g then g[c.kind] else []) + [c]])
  }

  /** A commit typed `constructor` makes the loop throw. */
  lemma ConstructorTypeThrows()
    ensures CategorizeAsWritten([CommitInfo("1a2b3c4", "constructor", None, "add factory", None, false)]) == None
  {
  }

  /** Without such types, the code as written builds exactly the groups. */
  lemma {:induction false} AsWrittenAgrees(commits: seq<CommitInfo>)
    requires forall c :: c in commits ==> c.kind !in InheritedKeys
    ensures CategorizeAsWritten(commits) == Some(Groups(commits))
  {
    if commits != [] {
      AsWrittenAgrees(commits[..|commits| - 1]);
    }
  }

  /** Such a type comes from an ordinary conventional summary, since the
      type is only lower-cased: `constructor: add factory` or
      `__proto__: fix` makes the loop throw. */
  lemma InheritedTypeThrows(hash: string, h: Summary, gap: string, body: Option<string>)
    requires hash != "" && WellFormed(h) && AllSpace(gap) && !Text.IsSpace(h.description[0])
    requires !IsRelease(RenderSummary(h, gap)) && Text.ToLowerAscii(h.kind) in InheritedKeys
    ensures ParseCommit(hash, RenderSummary(h, gap), body).Some?
    ensures CategorizeAsWritten([ParseCommit(hash, RenderSummary(h, gap), body).value]) == None
  {
    ParseConventionalCommit(hash, h, gap, body);
  }

  /** `COMMIT_TYPES`, in its insertion order. */
  const CommitTypes: seq<(string, string)> := [
    ("feat", "Features"), ("fix", "Bug Fixes"), ("docs", "Documentation"), ("style", "Code Style"),
    ("refactor", "Code Refactoring"), ("test", "Tests"), ("chore", "Chores"),
    ("perf", "Performance Improvements"), ("build", "Build System"), ("ci", "Continuous Integration")]

  /** The types that get a section. */
  predicate Listed(kind: string) {
    exists i :: 0 <= i < |CommitTypes| && CommitTypes[i].0 == kind
  }

  /** `new Date().toISOString().split('T')[0]`, the instant given as text. */
  function DateOf(nowIso: string): string {
    Text.Split(nowIso, "T")[0]
  }

  function Header(version: string, date: string): string {
    "## [" + version + "] - " + date + "\n\n"
  }

  const BreakingTitle := "### \U{26A0}\U{FE0F} BREAKING CHANGES\n\n"

  /** A JavaScript truthiness test on an optional string. */
  predicate Truthy(o: Option<string>) {
    o.Some? && o.value != ""
  }

  /** A breaking change: its subject, then its body with every line
      indented by two spaces. */
  function BreakingEntry(c: CommitInfo): string {
    "- " + c.subject + "\n" + (if Truthy(c.body) then "  " + Text.ReplaceAll(c.body.value, "\n", "\n  ") + "\n" else "")
  }

  /** A commit in its type section, with `**scope:** ` before the subject
      when there is a scope. */
  function TypeEntry(c: CommitInfo): string {
    "- " + (if Truthy(c.scope) then "**" + c.scope.value + ":** " else "") + c.subject + "\n"
  }

  /** The entries of the commits, in order. */
  function Entries(commits: seq<CommitInfo>, entry: CommitInfo -> string): string {
    if commits == [] then "" else Entries(commits[..|commits| - 1], entry) + entry(commits[|commits| - 1])
  }

  predicate IsBreaking(c: CommitInfo) {
    c.breaking
  }

  function Breaking(commits: seq<CommitInfo>): seq<CommitInfo> {
    Lists.Filter(commits, IsBreaking)
  }

  /** The breaking section, present exactly when some commit is breaking. */
  function BreakingSection(commits: seq<CommitInfo>): string {
    var breakingChanges := Breaking(commits);
    if |breakingChanges| > 0 then BreakingTitle + Entries(breakingChanges, BreakingEntry) + "\n" else ""
  }

  /** The section of one type, present when its group is not empty. */
  function TypeSection(groups: map<string, seq<CommitInfo>>, kind: string, title: string): string {
    if kind in groups && |groups[kind]| > 0 then "### " + title + "\n\n" + Entries(groups[kind], TypeEntry) + "\n" else ""
  }

  /** The sections of the given types, in their order. */
  function TypeSections(groups: map<string, seq<CommitInfo>>, types: seq<(string, string)>): string {
    if types == [] then ""
    else TypeSections(groups, types[..|types| - 1]) + TypeSection(groups, types[|types| - 1].0, types[|types| - 1].1)
  }

  /** The changelog of a release: header, breaking changes, then the
      sections of the listed types. */
  function Changelog(version: string, date: string, commits: seq<CommitInfo>): string {
    Header(version, date) + BreakingSection(commits) + TypeSections(Groups(commits), CommitTypes)
  }

  /** `generateChangelog`; the `git log` output and the current instant are
      parameters. */
  method GenerateChangelog(newVersion: string, stdout: string, nowIso: string) returns (changelog: string)
    ensures changelog == Changelog(newVersion, DateOf(nowIso), CommitsFromLog(stdout))
  {
    var commits := GetCommits(stdout);
    var categorizedCommits := CategorizeCommits(commits);
    var date := DateOf(nowIso);
    changelog := Header(newVersion, date);
    var breakingChanges := Breaking(commits);
    if |breakingChanges| > 0 {
      changelog := AppendBreaking(changelog, breakingChanges);
    }
    assert changelog == Header(newVersion, date) + BreakingSection(commits);
    changelog := AppendTypeSections(changelog, categorizedCommits, CommitTypes);
  }

  /** The loop over `COMMIT_TYPES` in `generateChangelog`. */
  method AppendTypeSections(changelog0: string, categorizedCommits: map<string, seq<CommitInfo>>,
                            types: seq<(string, string)>) returns (changelog: string)
    ensures changelog == changelog0 + TypeSections(categorizedCommits, types)
  {
    changelog := changelog0;
    for j := 0 to |types|
      invariant changelog == changelog0 + TypeSections(categorizedCommits, types[..j])
    {
      var (kind, title) := types[j];
      assert types[..j + 1][..j] == types[..j];
      ghost var before := TypeSections(categorizedCommits, types[..j]);
      ghost var section := TypeSection(categorizedCommits, kind, title);
      assert TypeSections(categorizedCommits, types[..j + 1]) == before + section;
      if kind in categorizedCommits && |categorizedCommits[kind]| > 0 {
        changelog := AppendTypeSection(changelog, title, categorizedCommits[kind]);
      }
      assert changelog == changelog0 + before + section;
      Assoc(changelog0, before, section);
    }
    assert types[..|types|] == types;
  }

  /** `a + b + c` does not depend on the grouping. */
  lemma Assoc(a: string, b: string, c: string)
    ensures a + (b + c) == a + b + c
  {
  }

  /** The breaking-changes block of `generateChangelog`. */
  method AppendBreaking(changelog0: string, breakingChanges: seq<CommitInfo>) returns (changelog: string)
    ensures changelog == changelog0 + (BreakingTitle + Entries(breakingChanges, BreakingEntry) + "\n")
  {
    changelog := changelog0 + BreakingTitle;
    for i := 0 to |breakingChanges|
      invariant changelog == changelog0 + BreakingTitle + Entries(breakingChanges[..i], BreakingEntry)
    {
      var commit := breakingChanges[i];
      assert breakingChanges[..i + 1][..i] == breakingChanges[..i];
      ghost var before := changelog;
      changelog := changelog + ("- " + commit.subject + "\n");
      if Truthy(commit.body) {
        changelog := changelog + ("  " + Text.ReplaceAll(commit.body.value, "\n", "\n  ") + "\n");
      }
      assert changelog == before + BreakingEntry(commit);
      Assoc(changelog0 + BreakingTitle, Entries(breakingChanges[..i], BreakingEntry), BreakingEntry(commit));
    }
    assert breakingChanges[..|breakingChanges|] == breakingChanges;
    ghost var entries := Entries(breakingChanges, BreakingEntry);
    changelog := changelog + "\n";
    assert changelog == changelog0 + BreakingTitle + entries + "\n";
  }

  /** One type section of `generateChangelog`. */
  method AppendTypeSection(changelog0: string, title: string, typeCommits: seq<CommitInfo>) returns (changelog: string)
    ensures changelog == changelog0 + ("### " + title + "\n\n" + Entries(typeCommits, TypeEntry) + "\n")
  {
    changelog := changelog0 + ("### " + title + "\n\n");
    for i := 0 to |typeCommits|
      invariant changelog == changelog0 + ("### " + title + "\n\n") + Entries(typeCommits[..i], TypeEntry)
    {
      var commit := typeCommits[i];
      assert typeCommits[..i + 1][..i] == typeCommits[..i];
      var scope := if Truthy(commit.scope) then "**" + commit.scope.value + ":** " else "";
      Assoc(changelog0 + ("### " + title + "\n\n"), Entries(typeCommits[..i], TypeEntry), TypeEntry(commit));
      changelog := changelog + ("- " + scope + commit.subject + "\n");
    }
    assert typeCommits[..|typeCommits|] == typeCommits;
    ghost var entries := Entries(typeCommits, TypeEntry);
    changelog := changelog + "\n";
    assert changelog == changelog0 + ("### " + title + "\n\n") + entries + "\n";
  }

  /** Without a type section, no entries: an empty group map lays out
      nothing. */
  lemma {:induction false} TypeSectionsEmpty(types: seq<(string, string)>)
    ensures TypeSections(map[], types) == ""
  {
    if types != [] {
      TypeSectionsEmpty(types[..|types| - 1]);
    }
  }

  /** Without commits the changelog is just its header. */
  lemma NoCommitsOnlyHeader(version: string, date: string)
    ensures Changelog(version, date, []) == Header(version, date)
  {
    TypeSectionsEmpty(CommitTypes);
    assert Breaking([]) == [];
  }

  /** The breaking section is there exactly when some commit is breaking,
      and then it opens with its title. */
  lemma BreakingSectionRule(commits: seq<CommitInfo>)
    ensures BreakingSection(commits) != "" <==> exists c :: c in commits && c.breaking
    ensures BreakingSection(commits) != "" ==> BreakingTitle <= BreakingSection(commits)
  {
    var b := Breaking(commits);
    if exists c :: c in commits && c.breaking {
      var c :| c in commits && c.breaking;
      assert c in b;
    }
    if |b| > 0 {
      assert b[0] in b;
    }
  }

  /** The sections of the listed types ignore the groups of other types. */
  lemma {:induction false} TypeSectionsIgnore(groups: map<string, seq<CommitInfo>>, types: seq<(string, string)>,
                                              kind: string, group: seq<CommitInfo>)
    requires forall i :: 0 <= i < |types| ==> types[i].0 != kind
    ensures TypeSections(groups[kind := group], types) == TypeSections(groups, types)
  {
    if types != [] {
      TypeSectionsIgnore(groups, types[..|types| - 1], kind, group);
      assert types[|types| - 1].0 != kind;
    }
  }

  /** A commit of an unlisted type changes no type section. */
  lemma UnlistedTypeOmitted(commits: seq<CommitInfo>, c: CommitInfo)
    requires !Listed(c.kind)
    ensures TypeSections(Groups(commits + [c]), CommitTypes) == TypeSections(Groups(commits), CommitTypes)
  {
    var g := Groups(commits);
    assert (commits + [c])[..|commits|] == commits;
    TypeSectionsIgnore(g, CommitTypes, c.kind, (if c.kind in g then g[c.kind] else []) + [c]);
  }

  /** The section of a type is there exactly when some commit has that
      type, and lists those commits in input order. */
  lemma TypeSectionRule(commits: seq<CommitInfo>, kind: string, title: string)
    ensures TypeSection(Groups(commits), kind, title) != "" <==> exists c :: c in commits && c.kind == kind
    ensures TypeSection(Groups(commits), kind, title) != "" ==>
      TypeSection(Groups(commits), kind, title) == "### " + title + "\n\n" + Entries(OfKind(commits, kind), TypeEntry) + "\n"
  {
    GroupsAreFilters(commits);
    if exists c :: c in commits && c.kind == kind {
      var c :| c in commits && c.kind == kind;
      assert c in OfKind(commits, kind);
    }
  }

  /** Each commit's entry is among the entries. */
  lemma {:induction false} EntriesContain(commits: seq<CommitInfo>, entry: CommitInfo -> string, c: CommitInfo)
    requires c in commits
    ensures Text.Contains(Entries(commits, entry), entry(c))
  {
    var init, last := commits[..|commits| - 1], commits[|commits| - 1];
    assert Entries(commits, entry) == Entries(init, entry) + entry(last);
    if c == last {
      Text.ContainsSelf(entry(c));
      Text.ContainsInBack(Entries(init, entry), entry(c), entry(c));
    } else {
      assert c in init;
      EntriesContain(init, entry, c);
      Text.ContainsInFront(Entries(init, entry), entry(last), entry(c));
    }
  }

  /** What one type section contains, all the type sections contain. */
  lemma {:induction false} TypeSectionsContain(groups: map<string, seq<CommitInfo>>, types: seq<(string, string)>,
                                               i: nat, sub: string)
    requires i < |types| && Text.Contains(TypeSection(groups, types[i].0, types[i].1), sub)
    ensures Text.Contains(TypeSections(groups, types), sub)
  {
    var init := types[..|types| - 1];
    var last := TypeSection(groups, types[|types| - 1].0, types[|types| - 1].1);
    assert TypeSections(groups, types) == TypeSections(groups, init) + last;
    if i == |types| - 1 {
      Text.ContainsInBack(TypeSections(groups, init), last, sub);
    } else {
      assert init[i] == types[i];
      TypeSectionsContain(groups, init, i, sub);
      Text.ContainsInFront(TypeSections(groups, init), last, sub);
    }
  }

  /** A breaking commit of a listed type appears both among the breaking
      changes and in the section of its type. */
  lemma BreakingListedInBoth(commits: seq<CommitInfo>, c: CommitInfo)
    requires c in commits && c.breaking && Listed(c.kind)
    ensures Text.Contains(BreakingSection(commits), BreakingEntry(c))
    ensures Text.Contains(TypeSections(Groups(commits), CommitTypes), TypeEntry(c))
  {
    var b := Breaking(commits);
    assert c in b;
    EntriesContain(b, BreakingEntry, c);
    Text.ContainsWithin(BreakingTitle, Entries(b, BreakingEntry), "\n", BreakingEntry(c));
    var i :| 0 <= i < |CommitTypes| && CommitTypes[i].0 == c.kind;
    var (kind, title) := CommitTypes[i];
    TypeSectionRule(commits, kind, title);
    assert c in OfKind(commits, kind);
    EntriesContain(OfKind(commits, kind), TypeEntry, c);
    Text.ContainsWithin("### " + title + "\n\n", Entries(OfKind(commits, kind), TypeEntry), "\n", TypeEntry(c));
    TypeSectionsContain(Groups(commits), CommitTypes, i, TypeEntry(c));
  }
}
