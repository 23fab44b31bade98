/**
  The registry notes patcher of the standalone page: a registry file is cut
  into `- id:` blocks by lines; a block whose id has new notes loses its old
  `notes:` entry and gets the new one appended as a literal block scalar
  (`|`, section 8.1.2 of YAML 1.2), with every other line kept.
*/
module ScriptYaml {
  import opened Text
  import opened Base

  /** `' '.repeat(n)`. */
  function Spaces(n: nat): (r: string)
    ensures |r| == n && forall i :: 0 <= i < n ==> r[i] == ' '
  {
    if n == 0 then "" else " " + Spaces(n - 1)
  }

  /** The length of the `^(\s*)` group: the leading whitespace. */
  function Indent(line: string): (n: nat)
    ensures n <= |line|
  {
    if line != [] && IsJsSpace(line[0]) then 1 + Indent(line[1..]) else 0
  }

  /** `line.trim() === ''`. */
  predicate IsBlank(line: string)
  {
    line == [] || (IsJsSpace(line[0]) && IsBlank(line[1..]))
  }

  /** The characters that `.` does not match and before which `$` matches in
      multi-line mode. */
  predicate IsTerminator(c: char)
  {
    c == '\n' || c == '\r' || c as int == 0x2028 || c as int == 0x2029
  }

  predicate NoTerminator(s: string)
  {
    forall i :: 0 <= i < |s| ==> !IsTerminator(s[i])
  }

  /** `\s*(.*)$` matches all of `s`: after the leading whitespace no line
      terminator follows. */
  predicate RestOfLine(s: string)
  {
    if s != [] && IsJsSpace(s[0]) then RestOfLine(s[1..]) else NoTerminator(s)
  }

  /** `/^(\s*)notes:\s*(.*)$/` matches the line: "notes:" after the
      indentation, and nothing but whitespace may stand between it and a
      line terminator. */
  predicate IsNotesLine(line: string)
  {
    if line != [] && IsJsSpace(line[0]) then IsNotesLine(line[1..])
    else StartsWith(line, "notes:") && RestOfLine(line[6..])
  }

  /** The recursive tests agree with trimming. */
  lemma {:induction false} LineTests(line: string)
    ensures IsBlank(line) <==> JsTrim(line) == ""
    ensures Indent(line) == |line| - |TrimStart(line, IsJsSpace)|
    ensures IsNotesLine(line) <==>
              var t := TrimStart(line, IsJsSpace);
              StartsWith(t, "notes:") && RestOfLine(t[6..])
  {
    if line != [] && IsJsSpace(line[0]) {
      LineTests(line[1..]);
    }
  }

  /** The state of `removeExistingNotes`' loop. */
  datatype Scan = Scan(output: seq<string>, skipping: bool, baseIndent: nat)

  const Start := Scan([], false, 0)

  /** One line of the loop: outside a notes entry a notes line starts one
      and is dropped; inside, blank and deeper lines are dropped and the
      first other line ends it and is kept. */
  function Step(st: Scan, line: string): (r: Scan)
  {
    if !st.skipping then
      if IsNotesLine(line) then Scan(st.output, true, Indent(line)) else st.(output := st.output + [line])
    else if IsBlank(line) || Indent(line) > st.baseIndent then st
    else Scan(st.output + [line], false, st.baseIndent)
  }

  function Run(st: Scan, lines: seq<string>): (r: Scan)
  {
    if lines == [] then st else Step(Run(st, lines[..|lines| - 1]), lines[|lines| - 1])
  }

  /** `removeExistingNotes(block)`. */
  function RemoveNotes(block: string): (r: string)
  {
    Join(Run(Start, Split(block, '\n')).output, '\n')
  }

  lemma {:induction false} RunConcat(st: Scan, a: seq<string>, b: seq<string>)
    ensures Run(st, a + b) == Run(Run(st, a), b)
  {
    if b == [] {
      assert a + b == a;
    } else {
      RunConcat(st, a, b[..|b| - 1]);
      assert (a + b)[..|a + b| - 1] == a + b[..|b| - 1];
    }
  }

  /** Outside a notes entry, lines that are not notes lines are kept. */
  lemma {:induction false} RunKeeps(st: Scan, a: seq<string>)
    requires !st.skipping
    requires forall i :: 0 <= i < |a| ==> !IsNotesLine(a[i])
    ensures Run(st, a) == st.(output := st.output + a)
  {
    if a != [] {
      RunKeeps(st, a[..|a| - 1]);
      assert st.output + a[..|a| - 1] + [a[|a| - 1]] == st.output + a;
    }
  }

  /** Inside a notes entry, blank and deeper lines are consumed. */
  lemma {:induction false} RunSkips(st: Scan, a: seq<string>)
    requires st.skipping
    requires forall i :: 0 <= i < |a| ==> IsBlank(a[i]) || Indent(a[i]) > st.baseIndent
    ensures Run(st, a) == st
  {
    if a != [] {
      RunSkips(st, a[..|a| - 1]);
    }
  }

  /** A block without a notes line comes back unchanged. */
  lemma RemoveNothing(block: string)
    requires forall l :: l in Split(block, '\n') ==> !IsNotesLine(l)
    ensures RemoveNotes(block) == block
  {
    var lines := Split(block, '\n');
    assert forall i :: 0 <= i < |lines| ==> !IsNotesLine(lines[i]) by {
      forall i | 0 <= i < |lines|
        ensures !IsNotesLine(lines[i])
      {
        assert lines[i] in lines;
      }
    }
    RunKeeps(Start, lines);
    assert Run(Start, lines).output == lines;
    JoinSplit(block, '\n');
  }

  method RemoveExistingNotes(block: string) returns (r: string)
    ensures r == RemoveNotes(block)
  {
    var lines := Split(block, '\n');
    var output := [];
    var skipping := false;
    var baseIndent := 0;
    for i := 0 to |lines|
      invariant Scan(output, skipping, baseIndent) == Run(Start, lines[..i])
    {
      assert lines[..i + 1][..i] == lines[..i];
      var line := lines[i];
      if !skipping {
        if IsNotesLine(line) {
          skipping := true;
          baseIndent := Indent(line);
          continue;
        }
        output := output + [line];
      } else {
        var indent := Indent(line);
        if IsBlank(line) || indent > baseIndent {
          continue;
        } else {
          skipping := false;
          output := output + [line];
        }
      }
    }
    assert lines[..|lines|] == lines;
    r := Join(output, '\n');
  }

  // ---------------------------------------------------------------------------
  // Writing notes
  // ---------------------------------------------------------------------------

  function IndentAll(lines: seq<string>, pad: string): (r: seq<string>)
    ensures |r| == |lines|
    ensures forall i :: 0 <= i < |lines| ==> r[i] == pad + lines[i]
  {
    if lines == [] then [] else [pad + lines[0]] + IndentAll(lines[1..], pad)
  }

  function Unindent(lines: seq<string>, n: nat): (r: seq<string>)
    ensures |r| == |lines|
    ensures forall i :: 0 <= i < |lines| ==> r[i] == if n <= |lines[i]| then lines[i][n..] else ""
  {
    if lines == [] then [] else [if n <= |lines[0]| then lines[0][n..] else ""] + Unindent(lines[1..], n)
  }

  /** `formatNotesForYaml(content, baseIndent)`. */
  function FormatNotes(content: string, baseIndent: nat): (r: string)
  {
    if content == "" || JsTrim(content) == "" then ""
    else "|" + "\n" + Join(IndentAll(Split(TrimEnd(content, IsJsSpace), '\n'), Spaces(baseIndent)), '\n')
  }

  predicate IsNewline(c: char)
  {
    c == '\n'
  }

  /** `block.replace(/\n+$/, '')`. */
  function CleanBlock(block: string): (r: string)
  {
    TrimEnd(block, IsNewline)
  }

  /** The text `addNotesToBlock` puts after the block and a newline. */
  function NotesText(notes: string, indent: nat): (r: string)
  {
    if notes == "" || JsTrim(notes) == "" then Spaces(indent) + "notes:\n"
    else Spaces(indent) + "notes: " + FormatNotes(notes, indent + 2) + "\n"
  }

  /** `addNotesToBlock(block, notes, indent)`. */
  function AddNotes(block: string, notes: string, indent: nat): (r: string)
  {
    CleanBlock(block) + "\n" + NotesText(notes, indent)
  }

  lemma SpacesNoSep(n: nat, c: char)
    requires c != ' '
    ensures c !in Spaces(n)
  {
  }

  /** Blank notes give nothing; otherwise a `|` line, then every line of the
      end-trimmed text behind `baseIndent` spaces, which taking the spaces
      off again gives back. */
  lemma FormatNotesSpec(content: string, baseIndent: nat)
    ensures JsTrim(content) == "" ==> FormatNotes(content, baseIndent) == ""
    ensures JsTrim(content) != "" ==>
              var lines := Split(FormatNotes(content, baseIndent), '\n');
              && lines[0] == "|"
              && (forall i :: 1 <= i < |lines| ==> StartsWith(lines[i], Spaces(baseIndent)))
              && Join(Unindent(lines[1..], baseIndent), '\n') == TrimEnd(content, IsJsSpace)
  {
    if JsTrim(content) != "" {
      var body := Split(TrimEnd(content, IsJsSpace), '\n');
      var ind := IndentAll(body, Spaces(baseIndent));
      var lines := Split(FormatNotes(content, baseIndent), '\n');
      assert lines == ["|"] + ind by {
        FormatNotesLines(content, baseIndent);
      }
      assert lines[0] == "|" && lines[1..] == ind;
      assert Unindent(ind, baseIndent) == body by {
        UnindentIndentAll(body, baseIndent);
      }
      JoinSplit(TrimEnd(content, IsJsSpace), '\n');
    }
  }

  /** The lines of non-blank formatted notes: the `|` and the indented
      lines of the text. */
  lemma FormatNotesLines(content: string, baseIndent: nat)
    requires JsTrim(content) != ""
    ensures Split(FormatNotes(content, baseIndent), '\n')
         == ["|"] + IndentAll(Split(TrimEnd(content, IsJsSpace), '\n'), Spaces(baseIndent))
  {
    var ind := IndentAll(Split(TrimEnd(content, IsJsSpace), '\n'), Spaces(baseIndent));
    assert NoSep(ind, '\n') by {
      SpacesNoSep(baseIndent, '\n');
    }
    assert FormatNotes(content, baseIndent) == "|" + "\n" + Join(ind, '\n');
    SplitJoin(ind, '\n');
    SplitConcat("|", Join(ind, '\n'), '\n');
  }

  lemma UnindentIndentAll(body: seq<string>, n: nat)
    ensures Unindent(IndentAll(body, Spaces(n)), n) == body
  {
    var ind := IndentAll(body, Spaces(n));
    forall i | 0 <= i < |body|
      ensures Unindent(ind, n)[i] == body[i]
    {
      assert (Spaces(n) + body[i])[n..] == body[i];
    }
  }

  lemma {:induction false} PaddedLine(n: nat, s: string)
    ensures Indent(Spaces(n) + s) == n + Indent(s)
    ensures IsNotesLine(Spaces(n) + s) == IsNotesLine(s)
  {
    if n > 0 {
      var p := Spaces(n) + s;
      assert p[0] == ' ' && p[1..] == Spaces(n - 1) + s;
      PaddedLine(n - 1, s);
    } else {
      assert Spaces(n) + s == s;
    }
  }

  /** The notes line `addNotesToBlock` writes is one `removeExistingNotes`
      recognises, at the indentation it was written with. */
  lemma WrittenNotesLine(indent: nat, tail: string)
    requires tail == "notes:" || tail == "notes: |"
    ensures IsNotesLine(Spaces(indent) + tail)
    ensures Indent(Spaces(indent) + tail) == indent
  {
    PaddedLine(indent, tail);
    assert !IsJsSpace(tail[0]);
    if tail == "notes: |" {
      assert tail[6..] == " |";
      assert IsJsSpace(tail[6..][0]) && tail[6..][1..] == "|";
      assert RestOfLine(tail[6..][1..]);
    } else {
      assert tail[6..] == "";
    }
    assert IsNotesLine(tail);
  }

  /** The lines of a cleaned block are lines of the block. */
  lemma CleanLines(block: string)
    ensures forall l :: l in Split(CleanBlock(block), '\n') ==> l in Split(block, '\n')
  {
    var clean := CleanBlock(block);
    if clean != block {
      assert block == clean + ['\n'] + block[|clean| + 1..];
      SplitAppend(clean, block[|clean| + 1..], '\n');
    }
  }

  /** The notes line `addNotesToBlock` writes. */
  function WrittenHead(notes: string, indent: nat): string
  {
    if notes == "" || JsTrim(notes) == "" then Spaces(indent) + "notes:" else Spaces(indent) + "notes: |"
  }

  /** The lines `addNotesToBlock` writes after the notes line. */
  function WrittenBody(notes: string, indent: nat): seq<string>
  {
    if notes == "" || JsTrim(notes) == "" then [""]
    else IndentAll(Split(TrimEnd(notes, IsJsSpace), '\n'), Spaces(indent + 2)) + [""]
  }

  lemma RegroupBlank(p: string)
    ensures p + "notes:\n" == (p + "notes:") + "\n" + ""
  {
  }

  lemma RegroupNotes(p: string, j: string)
    ensures p + "notes: " + ("|" + "\n" + j) + "\n" == (p + "notes: |") + "\n" + (j + "\n" + "")
  {
  }

  lemma WrittenTail(notes: string, indent: nat)
    ensures Split(NotesText(notes, indent), '\n') == [WrittenHead(notes, indent)] + WrittenBody(notes, indent)
  {
    var head := WrittenHead(notes, indent);
    assert '\n' !in head by {
      SpacesNoSep(indent, '\n');
    }
    SplitNoSep(head, '\n');
    if notes == "" || JsTrim(notes) == "" {
      RegroupBlank(Spaces(indent));
      SplitAppend(head, "", '\n');
    } else {
      var ind := IndentAll(Split(TrimEnd(notes, IsJsSpace), '\n'), Spaces(indent + 2));
      assert NoSep(ind, '\n') by {
        SpacesNoSep(indent + 2, '\n');
      }
      var j := Join(ind, '\n');
      assert FormatNotes(notes, indent + 2) == "|" + "\n" + j;
      RegroupNotes(Spaces(indent), j);
      SplitAppend(head, j + "\n" + "", '\n');
      SplitAppend(j, "", '\n');
      SplitJoin(ind, '\n');
    }
  }

  lemma AddedLines(block: string, notes: string, indent: nat)
    ensures Split(AddNotes(block, notes, indent), '\n')
            == Split(CleanBlock(block), '\n') + ([WrittenHead(notes, indent)] + WrittenBody(notes, indent))
  {
    SplitAppend(CleanBlock(block), NotesText(notes, indent), '\n');
    WrittenTail(notes, indent);
  }

  /** The written lines are read back as one notes entry, all consumed. */
  lemma WrittenConsumed(st: Scan, notes: string, indent: nat)
    requires !st.skipping
    ensures Run(st, [WrittenHead(notes, indent)] + WrittenBody(notes, indent)) == Scan(st.output, true, indent)
  {
    var head := WrittenHead(notes, indent);
    var body := WrittenBody(notes, indent);
    WrittenNotesLine(indent, if notes == "" || JsTrim(notes) == "" then "notes:" else "notes: |");
    assert Run(st, [head]) == Scan(st.output, true, indent) by {
      assert [head][..0] == [];
    }
    forall i | 0 <= i < |body|
      ensures IsBlank(body[i]) || Indent(body[i]) > indent
    {
      if i < |body| - 1 {
        PaddedLine(indent + 2, Split(TrimEnd(notes, IsJsSpace), '\n')[i]);
      }
    }
    RunSkips(Scan(st.output, true, indent), body);
    RunConcat(st, [head], body);
  }

  /** Removing the notes of a block just given notes yields the block
      without its trailing newlines, when it had no notes of its own. */
  lemma RemoveAdded(block: string, notes: string, indent: nat)
    requires forall l :: l in Split(block, '\n') ==> !IsNotesLine(l)
    ensures RemoveNotes(AddNotes(block, notes, indent)) == CleanBlock(block)
  {
    var clean := CleanBlock(block);
    CleanLines(block);
    var head := Split(clean, '\n');
    var written := [WrittenHead(notes, indent)] + WrittenBody(notes, indent);
    forall i | 0 <= i < |head|
      ensures !IsNotesLine(head[i])
    {
      assert head[i] in head;
    }
    RunKeeps(Start, head);
    assert Run(Start, head) == Scan(head, false, 0) by {
      assert Start.output + head == head;
    }
    var lines := Split(AddNotes(block, notes, indent), '\n');
    assert lines == head + written by {
      AddedLines(block, notes, indent);
    }
    assert Run(Start, lines) == Scan(head, true, indent) by {
      RunConcat(Start, head, written);
      WrittenConsumed(Scan(head, false, 0), notes, indent);
    }
    assert RemoveNotes(AddNotes(block, notes, indent)) == Join(head, '\n');
    JoinSplit(clean, '\n');
  }

  // ---------------------------------------------------------------------------
  // Blocks, ids and indentation
  // ---------------------------------------------------------------------------

  /** The text after the leading whitespace. */
  function SkipWs(s: string): (r: string)
  {
    if s != [] && IsJsSpace(s[0]) then SkipWs(s[1..]) else s
  }

  // The test `^\-\s+id:` with the whitespace after "id:" still to skip:
  // what follows "id:", when `s` opens with '-', whitespace and "id:".
  function IdStart(s: string): (r: Option<string>)
  {
    if |s| >= 2 && s[0] == '-' && IsJsSpace(s[1]) then
      var t := SkipWs(s[1..]);
      if StartsWith(t, "id:") then Some(t[3..]) else None
    else None
  }

  predicate IsBlockStart(line: string)
  {
    IdStart(line).Some?
  }

  /** The text up to the first line terminator. */
  function UpToTerminator(s: string): (r: string)
  {
    if s == [] || IsTerminator(s[0]) then [] else [s[0]] + UpToTerminator(s[1..])
  }

  predicate IsQuote(c: char)
  {
    c == '\'' || c == '"'
  }

  /** `.replace(/^['"]|['"]$/g, '')`: one quote off each end. */
  function StripQuotes(s: string): (r: string)
  {
    var a := if s != [] && IsQuote(s[0]) then s[1..] else s;
    if a != [] && IsQuote(a[|a| - 1]) then a[..|a| - 1] else a
  }

  /** The id `patchRegistryYaml` reads from a block ("" when there is none):
      the `(.+?)$` group of `/^\-\s+id:\s*(.+?)$/m` at the block's start,
      trimmed and unquoted. An id that is only whitespace is "". */
  function BlockId(block: string): (id: string)
  {
    match IdStart(block)
    case None => ""
    case Some(rest) => StripQuotes(JsTrim(UpToTerminator(SkipWs(rest))))
  }

  predicate KeyChar(c: char)
  {
    'a' <= c <= 'z' || 'A' <= c <= 'Z' || c == '_'
  }

  /** The leftmost match of `/\n(\s+)[a-zA-Z_]/`, as the length of its
      group. The `\s+` run may itself hold newlines. */
  function IndentMatch(s: string): (r: Option<nat>)
  {
    if s == [] then None
    else if s[0] == '\n' && 1 <= Indent(s[1..]) < |s| - 1 && KeyChar(s[1 + Indent(s[1..])]) then Some(Indent(s[1..]))
    else IndentMatch(s[1..])
  }

  /** The indentation `patchRegistryYaml` gives a block's notes: that of
      the first indented key, 2 when there is none. */
  function IndentOf(block: string): (n: nat)
  {
    match IndentMatch(block)
    case None => 2
    case Some(k) => k
  }

  lemma {:induction false} IndentMatchSkips(a: string, s: string)
    requires '\n' !in a
    ensures IndentMatch(a + s) == IndentMatch(s)
  {
    if a != [] {
      assert (a + s)[0] == a[0] && (a + s)[1..] == a[1..] + s;
      IndentMatchSkips(a[1..], s);
    } else {
      assert a + s == s;
    }
  }

  /** The notes go at the indentation of the first indented key below the
      id line. */
  lemma IndentOfFirstKey(first: string, n: nat, key: string, rest: string)
    requires '\n' !in first && n >= 1
    requires key != [] && KeyChar(key[0])
    ensures IndentOf(first + "\n" + Spaces(n) + key + rest) == n
  {
    var s := "\n" + (Spaces(n) + (key + rest));
    assert first + "\n" + Spaces(n) + key + rest == first + s;
    IndentMatchSkips(first, s);
    PaddedLine(n, key + rest);
    assert s[1..] == Spaces(n) + (key + rest);
    assert Indent(key + rest) == 0 by {
      assert (key + rest)[0] == key[0];
    }
    assert s[1 + n] == key[0];
  }

  lemma {:induction false} SkipWsOver(w: string, s: string)
    requires forall i :: 0 <= i < |w| ==> IsJsSpace(w[i])
    requires s == [] || !IsJsSpace(s[0])
    ensures SkipWs(w + s) == s
  {
    if w != [] {
      assert (w + s)[1..] == w[1..] + s;
      SkipWsOver(w[1..], s);
    } else {
      assert w + s == s;
    }
  }

  lemma {:induction false} UpToTerminatorOf(v: string, tail: string)
    requires NoTerminator(v)
    requires tail == [] || IsTerminator(tail[0])
    ensures UpToTerminator(v + tail) == v
  {
    if v != [] {
      assert (v + tail)[1..] == v[1..] + tail;
      UpToTerminatorOf(v[1..], tail);
      assert [v[0]] + v[1..] == v;
    } else {
      assert v + tail == tail;
    }
  }

  lemma IdStartOf(r: string)
    ensures IdStart("- id:" + r) == Some(r)
  {
    var block := "- id:" + r;
    assert block[0] == '-' && block[1] == ' ';
    assert block[1..] == " " + ("id:" + r);
    SkipWsOver(" ", "id:" + r);
    assert ("id:" + r)[3..] == r;
  }

  lemma ReadValue(w: string, tail: string)
    requires w != [] && NoTerminator(w) && !IsJsSpace(w[0]) && !IsJsSpace(w[|w| - 1])
    requires tail == [] || tail[0] == '\n'
    ensures JsTrim(UpToTerminator(SkipWs(" " + (w + tail)))) == w
  {
    SkipWsOver(" ", w + tail);
    UpToTerminatorOf(w, tail);
    assert JsTrim(w) == w;
  }

  lemma StripQuotesOf(v: string)
    requires v != [] && !IsQuote(v[0]) && !IsQuote(v[|v| - 1])
    ensures StripQuotes(v) == v
    ensures StripQuotes("'" + v + "'") == v
  {
    var q := "'" + v + "'";
    assert q[1..] == v + "'";
    assert (v + "'")[..|v|] == v;
  }

  /** A block written as "- id: " and an id, bare or quoted, then the end of
      the line, is read back with that id. */
  lemma BlockIdOf(v: string, quoted: bool, tail: string)
    requires v != [] && NoTerminator(v) && !IsJsSpace(v[0]) && !IsJsSpace(v[|v| - 1])
    requires !IsQuote(v[0]) && !IsQuote(v[|v| - 1])
    requires tail == [] || tail[0] == '\n'
    ensures BlockId("- id: " + (if quoted then "'" + v + "'" else v) + tail) == v
  {
    var w := if quoted then "'" + v + "'" else v;
    assert "- id: " + w + tail == "- id:" + (" " + (w + tail));
    IdStartOf(" " + (w + tail));
    assert NoTerminator(w) by {
      if quoted {
        assert forall i :: 1 <= i < |w| - 1 ==> w[i] == v[i - 1];
      }
    }
    ReadValue(w, tail);
    StripQuotesOf(v);
  }

  // ---------------------------------------------------------------------------
  // Patching
  // ---------------------------------------------------------------------------

  /** The indices of the lines that open a block, in order. */
  function StartIndices(lines: seq<string>): (r: seq<nat>)
  {
    if lines == [] then []
    else
      StartIndices(lines[..|lines| - 1]) + (if IsBlockStart(lines[|lines| - 1]) then [|lines| - 1] else [])
  }

  /** The start indices are the block-start lines, each once, ascending. */
  lemma StartIndicesSpec(lines: seq<string>)
    ensures var r := StartIndices(lines);
      && Ascending(r, |lines|)
      && (forall k :: 0 <= k < |r| ==> IsBlockStart(lines[r[k]]))
      && (forall i :: 0 <= i < |lines| && IsBlockStart(lines[i]) ==> i in r)
  {
    StartIndicesAscending(lines);
    StartIndicesSound(lines);
    StartIndicesComplete(lines);
  }

  /** The last step of `StartIndices`. */
  lemma StartIndicesLast(lines: seq<string>)
    requires lines != []
    ensures StartIndices(lines) ==
            StartIndices(lines[..|lines| - 1]) + (if IsBlockStart(lines[|lines| - 1]) then [|lines| - 1] else [])
  {
  }

  lemma {:induction false} StartIndicesAscending(lines: seq<string>)
    ensures Ascending(StartIndices(lines), |lines|)
  {
    if lines != [] {
      var n := |lines|;
      var t: seq<nat> := if IsBlockStart(lines[n - 1]) then [n - 1] else [];
      StartIndicesLast(lines);
      StartIndicesAscending(lines[..n - 1]);
      AscendingSnoc(StartIndices(lines[..n - 1]), t, n);
    }
  }

  lemma {:induction false} StartIndicesSound(lines: seq<string>)
    ensures var r := StartIndices(lines);
            forall k :: 0 <= k < |r| ==> 0 <= r[k] < |lines| && IsBlockStart(lines[r[k]])
  {
    if lines != [] {
      var n := |lines|;
      var init := lines[..n - 1];
      var r0 := StartIndices(init);
      var r := StartIndices(lines);
      StartIndicesLast(lines);
      StartIndicesSound(init);
      forall k | 0 <= k < |r|
        ensures 0 <= r[k] < n && IsBlockStart(lines[r[k]])
      {
        if k < |r0| {
          assert r[k] == r0[k] && lines[r0[k]] == init[r0[k]];
        }
      }
    }
  }

  lemma {:induction false} StartIndicesComplete(lines: seq<string>)
    ensures forall i :: 0 <= i < |lines| && IsBlockStart(lines[i]) ==> i in StartIndices(lines)
  {
    if lines != [] {
      var n := |lines|;
      var init := lines[..n - 1];
      var r0 := StartIndices(init);
      var r := StartIndices(lines);
      StartIndicesLast(lines);
      StartIndicesComplete(init);
      forall i | 0 <= i < n && IsBlockStart(lines[i])
        ensures i in r
      {
        if i < n - 1 {
          assert init[i] == lines[i];
          assert i in r0;
        } else {
          assert r[|r| - 1] == i;
        }
      }
    }
  }

  lemma AscendingSnoc(r0: seq<nat>, t: seq<nat>, n: nat)
    requires n >= 1 && Ascending(r0, n - 1) && (t == [] || t == [n - 1])
    ensures Ascending(r0 + t, n)
  {
  }

  ghost predicate Ascending(starts: seq<nat>, n: nat)
  {
    && (forall k :: 0 <= k < |starts| ==> starts[k] < n)
    && (forall j, k :: 0 <= j < k < |starts| ==> starts[j] < starts[k])
  }

  function BlockEnd(starts: seq<nat>, b: nat, n: nat): nat
    requires b < |starts|
  {
    if b + 1 < |starts| then starts[b + 1] else n
  }

  /** Block `b`: its start line up to the next start line. */
  function BlockAt(lines: seq<string>, starts: seq<nat>, b: nat): string
    requires Ascending(starts, |lines|) && b < |starts|
  {
    Join(lines[starts[b]..BlockEnd(starts, b, |lines|)], '\n')
  }

  function Blocks(lines: seq<string>, starts: seq<nat>): (bs: seq<string>)
    requires Ascending(starts, |lines|)
  {
    seq(|starts|, b requires 0 <= b < |starts| => BlockAt(lines, starts, b))
  }

  /** The blocks of a registry split into lines. */
  function AllBlocks(lines: seq<string>): (bs: seq<string>)
  {
    StartIndicesSpec(lines);
    Blocks(lines, StartIndices(lines))
  }

  /** A block whose id has an entry in the notes map. */
  predicate Patched(block: string, notesMap: Option<map<string, string>>)
  {
    var id := BlockId(block);
    id != "" && notesMap.Some? && id in notesMap.value
  }

  /** One element of `processedBlocks`. */
  function Process(block: string, notesMap: Option<map<string, string>>): (r: string)
  {
    if !Patched(block, notesMap) then block
    else AddNotes(RemoveNotes(block), notesMap.value[BlockId(block)], IndentOf(block))
  }

  function ProcessAll(blocks: seq<string>, notesMap: Option<map<string, string>>): (r: seq<string>)
  {
    seq(|blocks|, i requires 0 <= i < |blocks| => Process(blocks[i], notesMap))
  }

  /** The result gets a final newline when it lacks one. */
  function Finish(result: string): (r: string)
  {
    if EndsWith(result, "\n") then result else result + "\n"
  }

  /** `patchRegistryYaml(origYaml, notesMap)` as written: the text before
      the first block is put back only when it is not empty. */
  function Patch(orig: string, notesMap: Option<map<string, string>>): (out: string)
  {
    var lines := Split(orig, '\n');
    var starts := StartIndices(lines);
    StartIndicesSpec(lines);
    if starts == [] then orig
    else
      var prefix := Join(lines[..starts[0]], '\n');
      Finish((if prefix != "" then prefix + "\n" else "") + Join(ProcessAll(AllBlocks(lines), notesMap), '\n'))
  }

  /** `patchRegistryYaml` with the text before the first block put back
      whenever there are lines before it. */
  function PatchFixed(orig: string, notesMap: Option<map<string, string>>): (out: string)
  {
    var lines := Split(orig, '\n');
    var starts := StartIndices(lines);
    StartIndicesSpec(lines);
    if starts == [] then orig
    else
      var prefix := Join(lines[..starts[0]], '\n');
      Finish((if starts[0] > 0 then prefix + "\n" else "") + Join(ProcessAll(AllBlocks(lines), notesMap), '\n'))
  }

  /** The first loop of `patchRegistryYaml`. */
  method FindBlockStarts(lines: seq<string>) returns (blockStartIndices: seq<nat>)
    ensures blockStartIndices == StartIndices(lines)
  {
    blockStartIndices := [];
    for i := 0 to |lines|
      invariant blockStartIndices == StartIndices(lines[..i])
    {
      assert lines[..i + 1][..i] == lines[..i];
      if IsBlockStart(lines[i]) {
        blockStartIndices := blockStartIndices + [i];
      }
    }
    assert lines[..|lines|] == lines;
  }

  /** The second loop: each block's lines joined back. */
  method ExtractBlocks(lines: seq<string>, blockStartIndices: seq<nat>) returns (blocks: seq<string>)
    requires Ascending(blockStartIndices, |lines|)
    ensures blocks == Blocks(lines, blockStartIndices)
  {
    blocks := [];
    for b := 0 to |blockStartIndices|
      invariant |blocks| == b
      invariant forall k :: 0 <= k < b ==> blocks[k] == BlockAt(lines, blockStartIndices, k)
    {
      var start := blockStartIndices[b];
      var end := if b + 1 < |blockStartIndices| then blockStartIndices[b + 1] else |lines|;
      blocks := blocks + [Join(lines[start..end], '\n')];
    }
  }

  /** The callback of `blocks.map(...)`: a block whose id has notes loses
      its old notes and gets the new ones. */
  method ProcessBlock(block: string, notesMap: Option<map<string, string>>) returns (next: string)
    ensures next == Process(block, notesMap)
  {
    var id := BlockId(block);
    if id == "" || notesMap.None? || id !in notesMap.value {
      next := block;
    } else {
      var withoutNotes := RemoveExistingNotes(block);
      next := AddNotes(withoutNotes, notesMap.value[id], IndentOf(block));
    }
  }

  /** The `blocks.map(...)` step. */
  method ProcessBlocks(blocks: seq<string>, notesMap: Option<map<string, string>>) returns (processed: seq<string>)
    ensures processed == ProcessAll(blocks, notesMap)
  {
    processed := [];
    for b := 0 to |blocks|
      invariant processed == ProcessAll(blocks[..b], notesMap)
    {
      var next := ProcessBlock(blocks[b], notesMap);
      ProcessAllSnoc(blocks, b, notesMap);
      processed := processed + [next];
    }
    assert blocks[..|blocks|] == blocks;
  }

  lemma ProcessAllSnoc(blocks: seq<string>, b: nat, notesMap: Option<map<string, string>>)
    requires b < |blocks|
    ensures ProcessAll(blocks[..b + 1], notesMap) == ProcessAll(blocks[..b], notesMap) + [Process(blocks[b], notesMap)]
  {
    var l := ProcessAll(blocks[..b + 1], notesMap);
    var r := ProcessAll(blocks[..b], notesMap) + [Process(blocks[b], notesMap)];
    assert |l| == |r|;
    forall k | 0 <= k < |l|
      ensures l[k] == r[k]
    {
      if k < b {
        assert blocks[..b + 1][k] == blocks[..b][k];
      }
    }
  }

  method PatchRegistryYaml(origYaml: string, notesMap: Option<map<string, string>>) returns (out: string)
    ensures out == Patch(origYaml, notesMap)
  {
    var lines := Split(origYaml, '\n');
    var blockStartIndices := FindBlockStarts(lines);
    if |blockStartIndices| == 0 {
      return origYaml;
    }
    StartIndicesSpec(lines);
    var prefix := Join(lines[..blockStartIndices[0]], '\n');
    var blocks := ExtractBlocks(lines, blockStartIndices);
    var processed := ProcessBlocks(blocks, notesMap);
    var result := (if prefix != "" then prefix + "\n" else "") + Join(processed, '\n');
    out := if EndsWith(result, "\n") then result else result + "\n";
  }

  lemma FinishSpec(result: string)
    ensures EndsWith(Finish(result), "\n")
    ensures EndsWith(result, "\n") ==> Finish(result) == result
  {
    if !EndsWith(result, "\n") {
      var r := result + "\n";
      assert r[|r| - 1..] == "\n";
    }
  }

  /** A registry without a block comes back as it is; otherwise the result
      ends with a newline. */
  lemma PatchShape(orig: string, notesMap: Option<map<string, string>>)
    ensures (forall l :: l in Split(orig, '\n') ==> !IsBlockStart(l)) ==> Patch(orig, notesMap) == orig && PatchFixed(orig, notesMap) == orig
    ensures (exists l :: l in Split(orig, '\n') && IsBlockStart(l)) ==> EndsWith(Patch(orig, notesMap), "\n") && EndsWith(PatchFixed(orig, notesMap), "\n")
  {
    var lines := Split(orig, '\n');
    StartIndicesSpec(lines);
    if exists l :: l in lines && IsBlockStart(l) {
      var l :| l in lines && IsBlockStart(l);
      var i :| 0 <= i < |lines| && lines[i] == l;
      assert i in StartIndices(lines);
      PatchEndsWithNewline(orig, notesMap);
    } else {
      assert StartIndices(lines) == [];
    }
  }

  lemma PatchEndsWithNewline(orig: string, notesMap: Option<map<string, string>>)
    requires StartIndices(Split(orig, '\n')) != []
    ensures EndsWith(Patch(orig, notesMap), "\n") && EndsWith(PatchFixed(orig, notesMap), "\n")
  {
    var lines := Split(orig, '\n');
    var starts := StartIndices(lines);
    StartIndicesSpec(lines);
    var prefix := Join(lines[..starts[0]], '\n');
    var body := Join(ProcessAll(AllBlocks(lines), notesMap), '\n');
    var asWritten := (if prefix != "" then prefix + "\n" else "") + body;
    var fixed := (if starts[0] > 0 then prefix + "\n" else "") + body;
    assert Patch(orig, notesMap) == Finish(asWritten);
    assert PatchFixed(orig, notesMap) == Finish(fixed);
    FinishSpec(asWritten);
    FinishSpec(fixed);
  }

  /** A block keeps its lines unless its id has notes; a block that has, once
      its own notes are gone, no notes line left loses exactly the notes
      entry the patch appended when its notes are removed again. */
  lemma ProcessSpec(block: string, notesMap: Option<map<string, string>>)
    ensures !Patched(block, notesMap) ==> Process(block, notesMap) == block
    ensures Patched(block, notesMap) && (forall l :: l in Split(RemoveNotes(block), '\n') ==> !IsNotesLine(l)) ==>
              RemoveNotes(Process(block, notesMap)) == CleanBlock(RemoveNotes(block))
  {
    if Patched(block, notesMap) && (forall l :: l in Split(RemoveNotes(block), '\n') ==> !IsNotesLine(l)) {
      RemoveAdded(RemoveNotes(block), notesMap.value[BlockId(block)], IndentOf(block));
    }
  }

  /** The first `k` blocks joined are the lines from the first start to the
      end of block `k - 1`. */
  lemma {:induction false} JoinBlocks(lines: seq<string>, starts: seq<nat>, k: nat)
    requires Ascending(starts, |lines|) && 1 <= k <= |starts|
    ensures Join(Blocks(lines, starts)[..k], '\n') == Join(lines[starts[0]..BlockEnd(starts, k - 1, |lines|)], '\n')
  {
    var bs := Blocks(lines, starts);
    if k == 1 {
      assert bs[..1] == [bs[0]];
    } else {
      JoinBlocks(lines, starts, k - 1);
      var a := lines[starts[0]..starts[k - 1]];
      var c := lines[starts[k - 1]..BlockEnd(starts, k - 1, |lines|)];
      assert bs[..k] == bs[..k - 1] + [bs[k - 1]];
      JoinAppend(bs[..k - 1], [bs[k - 1]], '\n');
      assert lines[starts[0]..BlockEnd(starts, k - 1, |lines|)] == a + c;
      JoinAppend(a, c, '\n');
    }
  }

  lemma JoinAllBlocks(lines: seq<string>, starts: seq<nat>)
    requires Ascending(starts, |lines|) && starts != []
    ensures Join(Blocks(lines, starts), '\n') == Join(lines[starts[0]..], '\n')
  {
    var bs := Blocks(lines, starts);
    JoinBlocks(lines, starts, |starts|);
    assert |bs| == |starts|;
    assert bs[..|starts|] == bs;
    assert BlockEnd(starts, |starts| - 1, |lines|) == |lines|;
    assert lines[starts[0]..|lines|] == lines[starts[0]..];
  }

  lemma JoinSplitAt(lines: seq<string>, k: nat)
    requires 0 < k < |lines|
    ensures Join(lines[..k], '\n') + "\n" + Join(lines[k..], '\n') == Join(lines, '\n')
  {
    JoinAppend(lines[..k], lines[k..], '\n');
    assert lines[..k] + lines[k..] == lines;
  }

  /** Putting the text before the first block back in front of the blocks
      gives all the lines. */
  lemma Reassemble(lines: seq<string>, starts: seq<nat>)
    requires Ascending(starts, |lines|) && starts != []
    ensures (if starts[0] > 0 then Join(lines[..starts[0]], '\n') + "\n" else "") + Join(Blocks(lines, starts), '\n')
            == Join(lines, '\n')
  {
    var k := starts[0];
    var body := Join(Blocks(lines, starts), '\n');
    assert body == Join(lines[k..], '\n') by {
      JoinAllBlocks(lines, starts);
    }
    if k > 0 {
      JoinSplitAt(lines, k);
    } else {
      assert lines[k..] == lines;
      EmptyCat(body);
    }
  }

  lemma ProcessNone(bs: seq<string>, notesMap: Option<map<string, string>>)
    requires forall b :: b in bs ==> !Patched(b, notesMap)
    ensures ProcessAll(bs, notesMap) == bs
  {
    forall i | 0 <= i < |bs|
      ensures Process(bs[i], notesMap) == bs[i]
    {
      assert bs[i] in bs;
    }
  }

  /** The corrected patch, when no block gets notes, gives the registry back
      with at most a final newline added. */
  lemma PatchFixedPreserves(orig: string, notesMap: Option<map<string, string>>)
    requires var lines := Split(orig, '\n');
             forall b :: b in AllBlocks(lines) ==> !Patched(b, notesMap)
    ensures PatchFixed(orig, notesMap) == if StartIndices(Split(orig, '\n')) == [] then orig else Finish(orig)
  {
    var lines := Split(orig, '\n');
    var starts := StartIndices(lines);
    StartIndicesSpec(lines);
    if starts != [] {
      var bs := Blocks(lines, starts);
      ProcessNone(bs, notesMap);
      Reassemble(lines, starts);
      JoinSplit(orig, '\n');
    }
  }

  /** The two readings differ only when the text before the first block is a
      single empty line. */
  lemma PatchAgrees(orig: string, notesMap: Option<map<string, string>>)
    requires var lines := Split(orig, '\n');
             var starts := StartIndices(lines);
             starts == [] || starts[0] != 1 || lines[0] != ""
    ensures Patch(orig, notesMap) == PatchFixed(orig, notesMap)
  {
    var lines := Split(orig, '\n');
    var starts := StartIndices(lines);
    StartIndicesSpec(lines);
    if starts != [] && starts[0] >= 2 {
      var pre := lines[..starts[0]];
      assert Join(pre, '\n') == pre[0] + "\n" + Join(pre[1..], '\n');
    }
  }

  lemma LeadingBlankLayout(first: string)
    requires '\n' !in first && IsBlockStart(first)
    ensures Split("\n" + first, '\n') == ["", first]
    ensures StartIndices(["", first]) == [1]
    ensures AllBlocks(["", first]) == [first]
  {
    LeadingBlankSplit(first);
    LeadingBlankStarts(first);
    LeadingBlankBlocks(first);
  }

  lemma LeadingBlankSplit(first: string)
    requires '\n' !in first
    ensures Split("\n" + first, '\n') == ["", first]
  {
    assert "\n" + first == "" + ['\n'] + first;
    SplitAppend("", first, '\n');
    SplitNoSep(first, '\n');
  }

  lemma LeadingBlankStarts(first: string)
    requires IsBlockStart(first)
    ensures StartIndices(["", first]) == [1]
  {
    var lines := ["", first];
    assert lines[..1] == [""] && lines[..1][..0] == [];
    assert StartIndices(lines[..1]) == [];
  }

  lemma LeadingBlankBlocks(first: string)
    ensures Ascending([1], 2)
    ensures Blocks(["", first], [1]) == [first]
  {
    var lines := ["", first];
    assert lines[1..2] == [first];
  }

  lemma EmptyCat(s: string)
    ensures "" + s == s
    ensures "" + "\n" + s == "\n" + s
  {
  }

  lemma PatchOfLayout(orig: string, first: string, notesMap: Option<map<string, string>>)
    requires Split(orig, '\n') == ["", first] && StartIndices(["", first]) == [1]
    requires AllBlocks(["", first]) == [first] && !Patched(first, notesMap)
    ensures Patch(orig, notesMap) == Finish(first)
    ensures PatchFixed(orig, notesMap) == Finish("\n" + first)
  {
    var lines := ["", first];
    assert ProcessAll([first], notesMap) == [first] by {
      ProcessNone([first], notesMap);
    }
    assert Join(lines[..1], '\n') == "" by {
      assert lines[..1] == [""];
    }
    EmptyCat(first);
  }

  lemma FinishAdds(s: string)
    requires s != [] && s[|s| - 1] != '\n'
    ensures Finish(s) == s + "\n"
  {
    assert s[|s| - 1..] != "\n" by {
      assert s[|s| - 1..][0] == s[|s| - 1];
    }
  }

  /** The one-line block `- id: <id>` is a block start without a newline. */
  lemma IdLine(id: string)
    requires NoTerminator(id) && id != [] && id[|id| - 1] != '\n'
    ensures var first := "- id: " + id;
      '\n' !in first && IsBlockStart(first) && first[|first| - 1] != '\n'
  {
    var first := "- id: " + id;
    assert forall i :: 6 <= i < |first| ==> first[i] == id[i - 6];
    IdStartOf(" " + id);
    assert first == "- id:" + (" " + id);
  }

  /** As written: a registry whose first block follows one empty line loses
      that line, which the corrected reading keeps. */
  lemma PatchDropsLeadingBlankLine(id: string, notesMap: Option<map<string, string>>)
    requires NoTerminator(id) && id != [] && id[|id| - 1] != '\n'
    requires !Patched("- id: " + id, notesMap)
    ensures Patch("\n- id: " + id, notesMap) == "- id: " + id + "\n"
    ensures PatchFixed("\n- id: " + id, notesMap) == "\n- id: " + id + "\n"
  {
    var first := "- id: " + id;
    var orig := "\n" + first;
    assert "\n- id: " + id == orig;
    IdLine(id);
    LeadingBlankLayout(first);
    PatchOfLayout(orig, first, notesMap);
    FinishAdds(first);
    assert orig[|orig| - 1] == first[|first| - 1];
    FinishAdds(orig);
  }

}
