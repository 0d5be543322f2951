/** The reading of `claude mcp list` output in `verifyInstallations`
    (src/installer.ts): each line of the form `<id>: <command> - ✓` or
    `... - ✗` reports one server. The regular expression
    `^(\S+):\s+(.+?)\s+-\s+(✓|✗)` is modelled as an explicit scanner that
    tries the alternatives in the order the regular expression engine
    backtracks through them. */
module StatusLine {
  import opened Wrappers
  import Text

  const ConnectedMark: char := '\U{2713}'
  const FailedMark: char := '\U{2717}'

  predicate IsMark(c: char) {
    c == ConnectedMark || c == FailedMark
  }

  /** The length of the white-space run starting at `i` (greedy `\s+`). */
  function SpaceRun(s: string, i: nat): (n: nat)
    requires i <= |s|
    ensures i + n <= |s|
    ensures forall k :: i <= k < i + n ==> Text.IsSpace(s[k])
    ensures i + n == |s| || !Text.IsSpace(s[i + n])
    decreases |s| - i
  {
    if i < |s| && Text.IsSpace(s[i]) then 1 + SpaceRun(s, i + 1) else 0
  }

  /** The length of the non-white-space run starting at `i` (greedy `\S+`). */
  function TokenRun(s: string, i: nat): (n: nat)
    requires i <= |s|
    ensures i + n <= |s|
    ensures forall k :: i <= k < i + n ==> !Text.IsSpace(s[k])
    ensures i + n == |s| || Text.IsSpace(s[i + n])
    decreases |s| - i
  {
    if i < |s| && !Text.IsSpace(s[i]) then 1 + TokenRun(s, i + 1) else 0
  }

  /** `\s+-\s+(✓|✗)` matches at `q`. The two white-space runs must be
      maximal, since neither `-` nor a mark is white space. */
  predicate TailAt(s: string, q: nat)
    requires q <= |s|
  {
    var a := SpaceRun(s, q);
    a >= 1 && q + a < |s| && s[q + a] == '-'
    && var b := SpaceRun(s, q + a + 1);
    b >= 1 && q + a + 1 + b < |s| && IsMark(s[q + a + 1 + b])
  }

  /** The positions of a match: the colon that ends the id, the command
      `s[start..end]`, the dash and the mark. */
  datatype Spans = Spans(colon: nat, start: nat, end: nat, dash: nat, mark: nat)

  /** `s[lo..hi]` is all white space. */
  predicate AllSpace(s: string, lo: nat, hi: nat)
    requires lo <= hi <= |s|
  {
    forall k :: lo <= k < hi ==> Text.IsSpace(s[k])
  }

  /** The positions describe a match of the regular expression. */
  predicate Matches(s: string, sp: Spans) {
    1 <= sp.colon < sp.start < sp.end < sp.dash < sp.mark < |s|
    && s[sp.colon] == ':'
    && (forall k :: 0 <= k < sp.colon ==> !Text.IsSpace(s[k]))
    && AllSpace(s, sp.colon + 1, sp.start)
    && (forall k :: sp.start <= k < sp.end ==> !Text.IsLineTerminator(s[k]))
    && AllSpace(s, sp.end, sp.dash) && s[sp.dash] == '-'
    && AllSpace(s, sp.dash + 1, sp.mark) && sp.dash + 1 < sp.mark && IsMark(s[sp.mark])
  }

  /** The positions of the tail that matches at `q`. */
  function TailSpans(s: string, colon: nat, start: nat, q: nat): (sp: Spans)
    requires q <= |s| && TailAt(s, q)
  {
    var a := SpaceRun(s, q);
    var b := SpaceRun(s, q + a + 1);
    Spans(colon, start, q, q + a, q + a + 1 + b)
  }

  /** The lazy `(.+?)`: the shortest command ending at `end` or later that
      is followed by a tail, as long as no line terminator is crossed. */
  function LazyEnd(s: string, end: nat): (r: Option<nat>)
    requires 1 <= end <= |s|
    ensures r.Some? ==> end <= r.value < |s| && TailAt(s, r.value)
    ensures r.Some? ==> forall k :: end - 1 <= k < r.value ==> !Text.IsLineTerminator(s[k])
    decreases |s| - end
  {
    if Text.IsLineTerminator(s[end - 1]) then None
    else if TailAt(s, end) then Some(end)
    else if end < |s| then LazyEnd(s, end + 1)
    else None
  }

  /** The greedy `\s+` after the colon gives back one character at a time:
      the command starts after `k` white-space characters, for `k` from the
      longest run down to 1. */
  function TryGap(s: string, colon: nat, k: nat): Option<Spans>
    requires colon < |s| && s[colon] == ':' && colon + 1 + k <= |s|
    requires AllSpace(s, colon + 1, colon + 1 + k)
    decreases k
  {
    if k == 0 then None
    else
      var start := colon + 1 + k;
      var found := if start < |s| then LazyEnd(s, start + 1) else None;
      if found.Some? then Some(TailSpans(s, colon, start, found.value))
      else TryGap(s, colon, k - 1)
  }

  /** A command found after some gap starts after white space only, holds
      no line terminator, and is followed by a tail. */
  lemma {:induction false} TryGapSound(s: string, colon: nat, k: nat, sp: Spans)
    requires colon < |s| && s[colon] == ':' && colon + 1 + k <= |s|
    requires AllSpace(s, colon + 1, colon + 1 + k)
    requires TryGap(s, colon, k) == Some(sp)
    ensures sp.colon == colon && colon + 1 <= sp.start <= colon + 1 + k && sp.start < sp.end < |s|
    ensures AllSpace(s, colon + 1, sp.start)
    ensures forall j :: sp.start <= j < sp.end ==> !Text.IsLineTerminator(s[j])
    ensures TailAt(s, sp.end) && sp == TailSpans(s, colon, sp.start, sp.end)
    decreases k
  {
    var start := colon + 1 + k;
    var found := if start < |s| then LazyEnd(s, start + 1) else None;
    if found.None? {
      assert AllSpace(s, colon + 1, colon + k);
      TryGapSound(s, colon, k - 1, sp);
    }
  }

  /** Where the regular expression matches `s`, if it does. */
  function Locate(s: string): Option<Spans> {
    var t := TokenRun(s, 0);
    if t >= 2 && s[t - 1] == ':' && t < |s| then TryGap(s, t - 1, SpaceRun(s, t)) else None
  }

  /** Every span found is a match of the regular expression. */
  lemma LocateSound(s: string)
    requires Locate(s).Some?
    ensures Matches(s, Locate(s).value)
  {
    var t := TokenRun(s, 0);
    GapMatches(s, t, Locate(s).value);
  }

  /** A command found after the colon that ends the leading token makes a
      match. */
  lemma GapMatches(s: string, t: nat, sp: Spans)
    requires t == TokenRun(s, 0) && 2 <= t < |s| && s[t - 1] == ':'
    requires TryGap(s, t - 1, SpaceRun(s, t)) == Some(sp)
    ensures Matches(s, sp)
  {
    assert forall k :: 0 <= k < t - 1 ==> !Text.IsSpace(s[k]);
    TryGapSound(s, t - 1, SpaceRun(s, t), sp);
    TailSpansSound(s, t - 1, sp.start, sp.end);
  }

  /** The tail spans run over white space, the dash, white space and the
      mark. */
  lemma TailSpansSound(s: string, colon: nat, start: nat, q: nat)
    requires q <= |s| && TailAt(s, q)
    ensures var sp := TailSpans(s, colon, start, q);
      sp.colon == colon && sp.start == start && sp.end == q && q < sp.dash && sp.dash + 1 < sp.mark < |s|
      && AllSpace(s, q, sp.dash) && s[sp.dash] == '-' && AllSpace(s, sp.dash + 1, sp.mark) && IsMark(s[sp.mark])
  {
  }

  /** One server's reported state. */
  datatype ServerStatus = ServerStatus(command: string, connected: bool)

  /** `line.match(...)`: the id, the command and whether the mark is ✓. */
  function ParseLine(line: string): Option<(string, ServerStatus)> {
    match Locate(line)
    case None => None
    case Some(sp) =>
      LocateSound(line);
      Some((line[..sp.colon], ServerStatus(line[sp.start..sp.end], line[sp.mark] == ConnectedMark)))
  }

  /** A result always comes from a match of the regular expression: a
      non-empty id without white space, a colon, white space, a command
      without line terminators, white space, a dash, white space and the
      mark, `connected` holding exactly when the mark is ✓. */
  lemma ParseLineSound(line: string)
    requires ParseLine(line).Some?
    ensures ParseLine(line).value.0 != [] && Text.NoSpace(ParseLine(line).value.0)
    ensures exists sp :: (Matches(line, sp)
      && ParseLine(line).value == (line[..sp.colon], ServerStatus(line[sp.start..sp.end], line[sp.mark] == ConnectedMark)))
  {
    LocateSound(line);
    var sp := Locate(line).value;
    assert Matches(line, sp);
  }

  /** The line `claude mcp list` prints for a server. */
  function Render(id: string, st: ServerStatus, rest: string): string {
    id + ": " + st.command + " - " + [if st.connected then ConnectedMark else FailedMark] + rest
  }

  /** A command the parser gives back unchanged: non-empty, starting and
      ending with a visible character, without line terminators and marks. */
  predicate PlainCommand(cmd: string) {
    cmd != [] && !Text.IsSpace(cmd[0]) && !Text.IsSpace(cmd[|cmd| - 1])
    && forall k :: 0 <= k < |cmd| ==> !Text.IsLineTerminator(cmd[k]) && !IsMark(cmd[k])
  }

  /** Reading a rendered line gives back its id, command and state, whatever
      follows the mark. */
  lemma ParseRender(id: string, st: ServerStatus, rest: string)
    requires id != [] && Text.NoSpace(id) && PlainCommand(st.command)
    ensures ParseLine(Render(id, st, rest)) == Some((id, st))
  {
    RenderLayout(id, st.command, if st.connected then ConnectedMark else FailedMark, rest);
    ParseLaidOut(Render(id, st, rest), id, st, |id| + 1 + |st.command|);
  }

  /** Reading a line whose pieces sit where `Render` puts them, the command
      ending at `last`. */
  lemma ParseLaidOut(s: string, id: string, st: ServerStatus, last: nat)
    requires id != [] && Text.NoSpace(id) && PlainCommand(st.command)
    requires |id| + 2 <= last && last + 4 < |s|
    requires s[..|id|] == id && s[|id|] == ':' && s[|id| + 1] == ' ' && s[|id| + 2..last + 1] == st.command
    requires s[last + 1] == ' ' && s[last + 2] == '-' && s[last + 3] == ' '
    requires s[last + 4] == (if st.connected then ConnectedMark else FailedMark)
    ensures ParseLine(s) == Some((id, st))
  {
    var sp := Spans(|id|, |id| + 2, last + 1, last + 2, last + 4);
    assert (s[sp.mark] == ConnectedMark) == st.connected;
    LocateRendered(s, |id|, last);
    ParseLocated(s, sp, id, st);
  }

  lemma ParseLocated(s: string, sp: Spans, id: string, st: ServerStatus)
    requires Locate(s) == Some(sp)
    requires sp.colon <= sp.start <= sp.end <= sp.mark < |s|
    requires s[..sp.colon] == id && s[sp.start..sp.end] == st.command
    requires (s[sp.mark] == ConnectedMark) == st.connected
    ensures ParseLine(s) == Some((id, st))
  {
  }

  /** Where the pieces of a rendered line sit, the command ending at
      `last`. */
  lemma RenderLayout(id: string, cmd: string, mark: char, rest: string)
    requires cmd != []
    ensures var s := id + ": " + cmd + " - " + [mark] + rest;
      var last := |id| + 1 + |cmd|;
      last + 4 < |s|
      && s[..|id|] == id && s[|id|] == ':' && s[|id| + 1] == ' ' && s[|id| + 2..last + 1] == cmd
      && s[last + 1] == ' ' && s[last + 2] == '-' && s[last + 3] == ' ' && s[last + 4] == mark
  {
    var s := id + ": " + cmd + " - " + [mark] + rest;
    var last := |id| + 1 + |cmd|;
    assert s[|id| + 2..last + 1] == cmd;
  }

  /** The positions found in a line laid out as `id: cmd - <mark>...`. */
  lemma LocateRendered(s: string, colon: nat, last: nat)
    requires 1 <= colon && colon + 2 <= last && last + 4 < |s|
    requires Text.NoSpace(s[..colon])
    requires s[colon] == ':' && s[colon + 1] == ' '
    requires PlainCommand(s[colon + 2..last + 1])
    requires s[last + 1] == ' ' && s[last + 2] == '-' && s[last + 3] == ' ' && IsMark(s[last + 4])
    ensures Locate(s) == Some(Spans(colon, colon + 2, last + 1, last + 2, last + 4))
  {
    RenderedRuns(s, colon, last);
    LocateFrom(s, colon, Spans(colon, colon + 2, last + 1, last + 2, last + 4));
  }

  /** The runs and the gap the scanner reads in a printed line. */
  lemma RenderedRuns(s: string, colon: nat, last: nat)
    requires 1 <= colon && colon + 2 <= last && last + 4 < |s|
    requires Text.NoSpace(s[..colon])
    requires s[colon] == ':' && s[colon + 1] == ' '
    requires PlainCommand(s[colon + 2..last + 1])
    requires s[last + 1] == ' ' && s[last + 2] == '-' && s[last + 3] == ' ' && IsMark(s[last + 4])
    ensures TokenRun(s, 0) == colon + 1 && SpaceRun(s, colon + 1) == 1
    ensures TryGap(s, colon, 1) == Some(Spans(colon, colon + 2, last + 1, last + 2, last + 4))
  {
    assert forall k :: 0 <= k < colon ==> s[..colon][k] == s[k];
    TokenRunExact(s, 0, colon + 1);
    SpaceRunExact(s, colon + 1, colon + 2);
    RenderedLazy(s, colon + 2, last);
    GapRendered(s, colon, last);
  }

  /** `Locate` once the id, the gap and the rest are known. */
  lemma LocateFrom(s: string, colon: nat, sp: Spans)
    requires 1 <= colon && colon + 1 < |s| && s[colon] == ':'
    requires TokenRun(s, 0) == colon + 1 && SpaceRun(s, colon + 1) == 1 && TryGap(s, colon, 1) == Some(sp)
    ensures Locate(s) == Some(sp)
  {
    var t := TokenRun(s, 0);
    assert t - 1 == colon && t == colon + 1;
    assert TryGap(s, t - 1, SpaceRun(s, t)) == Some(sp);
  }

  /** After a one-space gap the command runs to `last`. */
  lemma GapRendered(s: string, colon: nat, last: nat)
    requires colon + 2 <= last && last + 4 < |s|
    requires s[colon] == ':' && s[colon + 1] == ' '
    requires LazyEnd(s, colon + 3) == Some(last + 1)
    requires s[last + 1] == ' ' && s[last + 2] == '-' && s[last + 3] == ' ' && IsMark(s[last + 4])
    ensures TryGap(s, colon, 1) == Some(Spans(colon, colon + 2, last + 1, last + 2, last + 4))
  {
    RenderedTail(s, colon, colon + 2, last);
    TryGapOne(s, colon, last + 1, Spans(colon, colon + 2, last + 1, last + 2, last + 4));
  }

  /** A one-character gap is taken when a command can follow it. */
  lemma TryGapOne(s: string, colon: nat, e: nat, sp: Spans)
    requires colon + 2 < |s| && s[colon] == ':' && Text.IsSpace(s[colon + 1])
    requires LazyEnd(s, colon + 3) == Some(e) && TailSpans(s, colon, colon + 2, e) == sp
    ensures TryGap(s, colon, 1) == Some(sp)
  {
    assert AllSpace(s, colon + 1, colon + 2);
  }

  /** The tail right after a rendered command. */
  lemma RenderedTail(s: string, colon: nat, start: nat, last: nat)
    requires last + 4 < |s|
    requires s[last + 1] == ' ' && s[last + 2] == '-' && s[last + 3] == ' ' && IsMark(s[last + 4])
    ensures TailAt(s, last + 1) && TailSpans(s, colon, start, last + 1) == Spans(colon, start, last + 1, last + 2, last + 4)
  {
    SpaceRunExact(s, last + 1, last + 2);
    SpaceRunExact(s, last + 3, last + 4);
  }

  /** The lazy scan over a rendered command stops right after it. */
  lemma RenderedLazy(s: string, c0: nat, last: nat)
    requires c0 <= last && last + 4 < |s|
    requires PlainCommand(s[c0..last + 1])
    requires s[last + 1] == ' ' && s[last + 2] == '-' && s[last + 3] == ' ' && IsMark(s[last + 4])
    ensures LazyEnd(s, c0 + 1) == Some(last + 1)
  {
    var cmd := s[c0..last + 1];
    assert forall k :: c0 <= k <= last ==> s[k] == cmd[k - c0];
    assert !Text.IsSpace(s[last]);
    RenderedTail(s, 0, 0, last);
    NoTailsInside(s, c0, last);
    LazyEndSkips(s, c0 + 1, last + 1);
  }

  lemma {:induction false} TokenRunExact(s: string, i: nat, j: nat)
    requires i <= j < |s| && Text.IsSpace(s[j])
    requires forall k :: i <= k < j ==> !Text.IsSpace(s[k])
    ensures TokenRun(s, i) == j - i
    decreases j - i
  {
    if i < j {
      TokenRunExact(s, i + 1, j);
    }
  }

  lemma {:induction false} SpaceRunExact(s: string, i: nat, j: nat)
    requires i <= j < |s| && !Text.IsSpace(s[j])
    requires forall k :: i <= k < j ==> Text.IsSpace(s[k])
    ensures SpaceRun(s, i) == j - i
    decreases j - i
  {
    if i < j {
      SpaceRunExact(s, i + 1, j);
    }
  }

  /** No tail can start strictly inside a command that ends with a visible
      character, is followed by ` - `, and holds no mark. */
  lemma NoTailInside(s: string, c0: nat, last: nat, e: nat)
    requires c0 < e <= last && last + 4 < |s|
    requires !Text.IsSpace(s[last]) && s[last + 1] == ' ' && s[last + 2] == '-' && s[last + 3] == ' '
    requires forall k :: c0 <= k <= last ==> !IsMark(s[k])
    ensures !TailAt(s, e)
  {
    var a := SpaceRun(s, e);
    var dash := e + a;
    if a >= 1 && dash < |s| && s[dash] == '-' {
      if dash == last {
        SpaceRunExact(s, last + 1, last + 2);
      } else {
        var b := SpaceRun(s, dash + 1);
      }
    }
  }

  lemma NoTailsInside(s: string, c0: nat, last: nat)
    requires c0 <= last && last + 4 < |s|
    requires !Text.IsSpace(s[last]) && s[last + 1] == ' ' && s[last + 2] == '-' && s[last + 3] == ' '
    requires forall k :: c0 <= k <= last ==> !IsMark(s[k])
    ensures forall e :: c0 < e <= last ==> !TailAt(s, e)
  {
    forall e | c0 < e <= last ensures !TailAt(s, e) {
      NoTailInside(s, c0, last, e);
    }
  }

  /** The lazy command scan passes every end before `stop` and stops at
      `stop`. */
  lemma {:induction false} LazyEndSkips(s: string, end: nat, stop: nat)
    requires 1 <= end <= stop < |s| && TailAt(s, stop)
    requires forall k :: end - 1 <= k < stop ==> !Text.IsLineTerminator(s[k])
    requires forall e :: end <= e < stop ==> !TailAt(s, e)
    ensures LazyEnd(s, end) == Some(stop)
    decreases stop - end
  {
    if end < stop {
      LazyEndSkips(s, end + 1, stop);
    }
  }

  /** Lines the loop skips before matching. */
  predicate Skipped(line: string) {
    Text.Contains(line, "Checking MCP server health") || Text.Trim(line) == ""
  }

  /** What one line contributes: nothing for a skipped or unmatched line,
      otherwise the id and its state. */
  function Reading(line: string): Option<(string, ServerStatus)> {
    if Skipped(line) then None else ParseLine(line)
  }

  /** The map left by readings that each set the entry of their id. */
  function Collect(lines: seq<string>, read: string -> Option<(string, ServerStatus)>): map<string, ServerStatus>
    decreases |lines|
  {
    if lines == [] then map[]
    else
      var m := Collect(lines[..|lines| - 1], read);
      match read(lines[|lines| - 1])
      case None => m
      case Some(entry) => m[entry.0 := entry.1]
  }

  /** An id has an entry exactly when some reading names it. */
  lemma {:induction false} CollectKeys(lines: seq<string>, read: string -> Option<(string, ServerStatus)>)
    ensures forall id :: id in Collect(lines, read) <==>
      exists i :: 0 <= i < |lines| && read(lines[i]).Some? && read(lines[i]).value.0 == id
    decreases |lines|
  {
    if lines != [] {
      var init := lines[..|lines| - 1];
      CollectKeys(init, read);
      assert forall i :: 0 <= i < |init| ==> init[i] == lines[i];
      forall id | id in Collect(lines, read)
        ensures exists i :: 0 <= i < |lines| && read(lines[i]).Some? && read(lines[i]).value.0 == id
      {
        if id !in Collect(init, read) {
          assert read(lines[|lines| - 1]).Some?;
        } else {
          var i :| 0 <= i < |init| && read(init[i]).Some? && read(init[i]).value.0 == id;
          assert lines[i] == init[i];
        }
      }
    }
  }

  /** The entry of an id is what the last reading that names it says. */
  lemma {:induction false} CollectLast(lines: seq<string>, read: string -> Option<(string, ServerStatus)>, id: string, i: nat)
    requires i < |lines| && read(lines[i]).Some? && read(lines[i]).value.0 == id
    requires forall j :: i < j < |lines| ==> read(lines[j]).None? || read(lines[j]).value.0 != id
    ensures id in Collect(lines, read) && Collect(lines, read)[id] == read(lines[i]).value.1
    decreases |lines|
  {
    var init := lines[..|lines| - 1];
    if i < |init| {
      assert init[i] == lines[i];
      forall j | i < j < |init| ensures read(init[j]).None? || read(init[j]).value.0 != id {
        assert init[j] == lines[j];
      }
      CollectLast(init, read, id, i);
    }
  }

  lemma CollectStep(lines: seq<string>, i: nat, read: string -> Option<(string, ServerStatus)>)
    requires i < |lines|
    ensures Collect(lines[..i + 1], read) ==
      match read(lines[i])
      case None => Collect(lines[..i], read)
      case Some(entry) => Collect(lines[..i], read)[entry.0 := entry.1]
  {
    assert lines[..i + 1][..i] == lines[..i];
  }

  /** The `serversStatus` map after the lines. */
  function StatusMap(lines: seq<string>): map<string, ServerStatus> {
    Collect(lines, Reading)
  }

  /** `verifyInstallations`' reading of the output: nothing unless the
      output contains a colon, then the lines split on `\n`. */
  function ParseStatusOutput(stdout: string): map<string, ServerStatus> {
    if Text.Contains(stdout, ":") then StatusMap(Text.Split(stdout, "\n")) else map[]
  }

  /** The `for (const line of lines)` loop of `verifyInstallations`. */
  method ReadStatuses(stdout: string) returns (statuses: map<string, ServerStatus>)
    ensures statuses == ParseStatusOutput(stdout)
  {
    statuses := map[];
    if stdout != "" && Text.IndexOf(stdout, ":").Some? {
      var lines := Text.Split(stdout, "\n");
      for i := 0 to |lines|
        invariant statuses == StatusMap(lines[..i])
      {
        var line := lines[i];
        CollectStep(lines, i, Reading);
        if Text.IndexOf(line, "Checking MCP server health").Some? || Text.Trim(line) == "" {
          assert Reading(line) == None;
          continue;
        }
        var parsed := ParseLine(line);
        assert Reading(line) == parsed;
        if parsed.Some? {
          statuses := statuses[parsed.value.0 := parsed.value.1];
        }
      }
      assert lines[..|lines|] == lines;
    }
  }
}
