/**
 The environment-text language: one KEY=value binding a line, blank lines and # comments
 ignored. The program reads it with three parsers (the server's line loop and the two
 browser editors), prints it with two printers and merges two texts with last-one-wins
 override that keeps first-insertion order.
 */
module EnvText {
  import opened Options
  import opened Text

  datatype Entry = Entry(key: string, value: string)

  // ---- Lines that carry a binding ----

  predicate IsContent(line: string) {
    line != "" && line[0] != '#'
  }

  /** What a line parser receives: trimmed, not blank, not a comment, one line. */
  predicate IsContentLine(line: string) {
    IsContent(line) && IsTrimmed(line) && Lacks(line, '\n')
  }

  predicate AllContent(lines: seq<string>) {
    forall i :: 0 <= i < |lines| ==> IsContentLine(lines[i])
  }

  function Contents(lines: seq<string>): seq<string>
  {
    if lines == [] then []
    else if IsContent(Trim(lines[0])) then [Trim(lines[0])] + Contents(lines[1..])
    else Contents(lines[1..])
  }

  lemma {:induction false} ContentsAreContent(lines: seq<string>)
    requires AllLack(lines, '\n')
    ensures AllContent(Contents(lines))
  {
    if lines != [] {
      TrimLacks(lines[0], '\n');
      ContentsAreContent(lines[1..]);
    }
  }

  function ContentLines(text: string): (r: seq<string>)
    ensures AllContent(r)
  {
    ContentsAreContent(Split(text, '\n'));
    Contents(Split(text, '\n'))
  }

  // ---- The three line parsers ----

  /** The launch form's field: a missing "=" makes a key without a value. */
  function FieldEntry(line: string): Entry {
    var sep := IndexOf(line, '=');
    if sep < 0 then Entry(line, "") else Entry(line[..sep], line[sep + 1..])
  }

  /** The deployment page's editor: a leading "=" also makes a key without a value. */
  function EditorEntry(line: string): Entry {
    var sep := IndexOf(line, '=');
    if sep < 1 then Entry(line, "") else Entry(line[..sep], line[sep + 1..])
  }

  /** The server: a line without a key is dropped, and the key is trimmed. */
  function ServerEntry(line: string): Option<Entry> {
    var sep := IndexOf(line, '=');
    if sep > 0 then Some(Entry(Trim(line[..sep]), line[sep + 1..])) else None
  }

  function FieldEntries(lines: seq<string>): (r: seq<Entry>)
    ensures |r| == |lines| && forall i :: 0 <= i < |r| ==> r[i] == FieldEntry(lines[i])
  {
    seq(|lines|, i requires 0 <= i < |lines| => FieldEntry(lines[i]))
  }

  function EditorEntries(lines: seq<string>): (r: seq<Entry>)
    ensures |r| == |lines| && forall i :: 0 <= i < |r| ==> r[i] == EditorEntry(lines[i])
  {
    seq(|lines|, i requires 0 <= i < |lines| => EditorEntry(lines[i]))
  }

  function ServerEntries(lines: seq<string>): (r: seq<Entry>)
    ensures |r| <= |lines|
  {
    if lines == [] then []
    else
      var rest := ServerEntries(lines[1..]);
      match ServerEntry(lines[0]) case Some(e) => [e] + rest case None => rest
  }

  function ParseField(text: string): seq<Entry> {
    if Trim(text) == "" then [] else FieldEntries(ContentLines(text))
  }

  function ParseEditor(text: string): seq<Entry> {
    if Trim(text) == "" then [] else EditorEntries(ContentLines(text))
  }

  /** The bindings of a text, in line order, as the server's loops see them. */
  function Bindings(text: string): seq<Entry> {
    ServerEntries(ContentLines(text))
  }

  // ---- The printers ----

  function Line(e: Entry): string {
    e.key + "=" + e.value
  }

  function PrintedLines(es: seq<Entry>): (r: seq<string>)
    ensures |r| == |es| && forall i :: 0 <= i < |r| ==> r[i] == Line(es[i])
  {
    seq(|es|, i requires 0 <= i < |es| => Line(es[i]))
  }

  function Print(es: seq<Entry>): string {
    Join(PrintedLines(es), "\n")
  }

  /** Entries with a key that is not blank; the field also trims the key, the editor does not. */
  function Kept(es: seq<Entry>, trimKey: bool): seq<Entry>
  {
    if es == [] then []
    else if Trim(es[0].key) == "" then Kept(es[1..], trimKey)
    else [if trimKey then Entry(Trim(es[0].key), es[0].value) else es[0]] + Kept(es[1..], trimKey)
  }

  /** Blank keys are left out and the rest stays in order; the launch form's field trims the key it prints, the editor does not. */
  lemma {:induction false} KeptInOrder(a: seq<Entry>, e: Entry, b: seq<Entry>, trimKey: bool)
    ensures Kept([], trimKey) == []
    ensures Kept(a + [e] + b, trimKey) ==
            Kept(a, trimKey)
            + (if Trim(e.key) == "" then [] else if trimKey then [Entry(Trim(e.key), e.value)] else [e])
            + Kept(b, trimKey)
  {
    if a == [] {
      assert [] + [e] + b == [e] + b;
      assert ([e] + b)[1..] == b;
    } else {
      assert (a + [e] + b)[1..] == a[1..] + [e] + b;
      KeptInOrder(a[1..], e, b, trimKey);
    }
  }

  function PrintField(es: seq<Entry>): string {
    Print(Kept(es, true))
  }

  function PrintEditor(es: seq<Entry>): string {
    Print(Kept(es, false))
  }

  // ---- Parsing what was printed ----

  /** An entry whose printed line reads back as itself. */
  predicate Legible(e: Entry) {
    && e.key != "" && e.key[0] != '#' && NoLeadingSpace(e.key)
    && Lacks(e.key, '=') && Lacks(e.key, '\n')
    && NoTrailingSpace(e.value) && Lacks(e.value, '\n')
  }

  /** The form of every binding the server reads. */
  predicate Clean(e: Entry) {
    Legible(e) && NoTrailingSpace(e.key)
  }

  predicate AllLegible(es: seq<Entry>) {
    forall i :: 0 <= i < |es| ==> Legible(es[i])
  }

  predicate AllClean(es: seq<Entry>) {
    forall i :: 0 <= i < |es| ==> Clean(es[i])
  }

  lemma LegibleLine(e: Entry)
    requires Legible(e)
    ensures IsContentLine(Line(e))
    ensures FieldEntry(Line(e)) == e && EditorEntry(Line(e)) == e
    ensures ServerEntry(Line(e)) == Some(Entry(Trim(e.key), e.value))
  {
    var l := Line(e);
    assert l == e.key + ['='] + e.value;
    IndexOfUnique(e.key, '=', e.value);
    assert l[..|e.key|] == e.key && l[|e.key| + 1..] == e.value;
    assert l[0] == e.key[0];
    assert l[|l| - 1] == if e.value == "" then '=' else e.value[|e.value| - 1];
  }

  lemma {:induction false} ContentsOfContent(lines: seq<string>)
    requires AllContent(lines)
    ensures Contents(lines) == lines
  {
    if lines != [] {
      ContentsOfContent(lines[1..]);
    }
  }

  /** Printed legible entries come back line for line. */
  lemma ContentLinesOfPrint(es: seq<Entry>)
    requires AllLegible(es)
    ensures ContentLines(Print(es)) == PrintedLines(es)
  {
    var lines := PrintedLines(es);
    forall i | 0 <= i < |lines| ensures IsContentLine(lines[i]) {
      LegibleLine(es[i]);
    }
    if es == [] {
      assert Split("", '\n') == [""];
      assert Contents([""]) == [];
    } else {
      SplitJoin(lines, '\n');
      ContentsOfContent(lines);
    }
  }

  /** A blank text has no content lines, so the editors' early return changes nothing. */
  lemma {:induction false} BlankHasNoContent(text: string)
    requires IsBlank(text)
    ensures ContentLines(text) == []
  {
    BlankLines(text);
    BlankContents(Split(text, '\n'));
  }

  predicate AllBlank(lines: seq<string>) {
    forall i :: 0 <= i < |lines| ==> Trim(lines[i]) == ""
  }

  lemma {:induction false} BlankLines(text: string)
    requires IsBlank(text)
    ensures AllBlank(Split(text, '\n'))
  {
    if text != "" {
      BlankLines(text[1..]);
      var rest := Split(text[1..], '\n');
      TrimBlank(rest[0]);
      TrimBlank([text[0]] + rest[0]);
    }
  }

  lemma {:induction false} BlankContents(lines: seq<string>)
    requires AllBlank(lines)
    ensures Contents(lines) == []
  {
    if lines != [] {
      BlankContents(lines[1..]);
    }
  }

  lemma ParsersSkipNothing(text: string)
    ensures ParseField(text) == FieldEntries(ContentLines(text))
    ensures ParseEditor(text) == EditorEntries(ContentLines(text))
  {
    if Trim(text) == "" {
      TrimBlank(text);
      BlankHasNoContent(text);
    }
  }

  // ---- Round trips of the two editors, with their exact conditions ----

  lemma {:induction false} ServerReadsPrinted(es: seq<Entry>)
    requires AllClean(es)
    ensures ServerEntries(PrintedLines(es)) == es
  {
    if es != [] {
      LegibleLine(es[0]);
      assert PrintedLines(es)[1..] == PrintedLines(es[1..]);
      ServerReadsPrinted(es[1..]);
    }
  }

  /** Clean entries survive every printer and every parser. */
  lemma CleanRoundTrip(es: seq<Entry>)
    requires AllClean(es)
    ensures Bindings(Print(es)) == es
    ensures ParseField(Print(es)) == es && ParseEditor(Print(es)) == es
  {
    ContentLinesOfPrint(es);
    ServerReadsPrinted(es);
    ParsersSkipNothing(Print(es));
    LegibleRoundTrip(es);
  }

  lemma LegibleRoundTrip(es: seq<Entry>)
    requires AllLegible(es)
    ensures ParseField(Print(es)) == es && ParseEditor(Print(es)) == es
  {
    ContentLinesOfPrint(es);
    ParsersSkipNothing(Print(es));
    forall i | 0 <= i < |es|
      ensures FieldEntry(Line(es[i])) == es[i] && EditorEntry(Line(es[i])) == es[i]
    {
      LegibleLine(es[i]);
    }
  }

  /** What either browser parser can produce from a content line. */
  lemma ParsedShape(line: string)
    requires IsContentLine(line)
    ensures FieldEntry(line).key != "" ==> Legible(FieldEntry(line))
    ensures Lacks(EditorEntry(line).key, '\n') && Lacks(EditorEntry(line).value, '\n')
    ensures NoTrailingSpace(EditorEntry(line).value)
    ensures NoLeadingSpace(EditorEntry(line).key) && IsContent(EditorEntry(line).key)
    ensures Lacks(EditorEntry(line).key, '=') ==> Legible(EditorEntry(line))
    ensures !Lacks(EditorEntry(line).key, '=') ==> line[0] == '=' && EditorEntry(line) == Entry(line, "")
  {
    var sep := IndexOf(line, '=');
    if sep >= 0 {
      var v := line[sep + 1..];
      assert v != "" ==> v[|v| - 1] == line[|line| - 1];
    }
  }

  lemma {:induction false} KeptShape(es: seq<Entry>, trimKey: bool)
    ensures forall i :: 0 <= i < |Kept(es, trimKey)| ==>
              Trim(Kept(es, trimKey)[i].key) != "" && (trimKey ==> IsTrimmed(Kept(es, trimKey)[i].key))
  {
    if es != [] {
      KeptShape(es[1..], trimKey);
      if Trim(es[0].key) != "" { TrimOfTrimmed(Trim(es[0].key)); }
    }
  }

  lemma FieldParsesLegible(lines: seq<string>, i: nat)
    requires AllContent(lines) && i < |lines|
    requires Trim(FieldEntry(lines[i]).key) != ""
    ensures Legible(FieldEntry(lines[i]))
  {
    ParsedShape(lines[i]);
    TrimBlank(FieldEntry(lines[i]).key);
  }

  /**
   The launch form's field keeps its entries over a print and a parse exactly when each kept
   entry is legible: no "=" or newline or leading "#" in the key, no newline or trailing
   white space in the value.
   */
  lemma {:induction false} FieldRoundTrip(es: seq<Entry>)
    ensures ParseField(PrintField(es)) == Kept(es, true) <==> AllLegible(Kept(es, true))
  {
    var kept := Kept(es, true);
    var lines := ContentLines(Print(kept));
    ParsersSkipNothing(Print(kept));
    KeptShape(es, true);
    if AllLegible(kept) {
      LegibleRoundTrip(kept);
    }
    if FieldEntries(lines) == kept {
      forall i | 0 <= i < |kept| ensures Legible(kept[i]) {
        FieldParsesLegible(lines, i);
      }
    }
  }

  lemma {:induction false} ContentsAllKept(lines: seq<string>)
    requires |Contents(lines)| == |lines|
    ensures forall i :: 0 <= i < |lines| ==> Contents(lines)[i] == Trim(lines[i])
  {
    ContentsShrink(lines);
    if lines != [] {
      ContentsShrink(lines[1..]);
      ContentsAllKept(lines[1..]);
    }
  }

  lemma {:induction false} ContentsShrink(lines: seq<string>)
    ensures |Contents(lines)| <= |lines|
  {
    if lines != [] { ContentsShrink(lines[1..]); }
  }

  /** The deployment page's editor: the same, but it prints keys as they stand. */
  lemma {:induction false} EditorRoundTrip(es: seq<Entry>)
    ensures ParseEditor(PrintEditor(es)) == Kept(es, false) <==> AllLegible(Kept(es, false))
  {
    var kept := Kept(es, false);
    ParsersSkipNothing(Print(kept));
    if AllLegible(kept) {
      LegibleRoundTrip(kept);
    }
    if ParseEditor(Print(kept)) == kept {
      EditorEchoIsLegible(kept);
    }
  }

  lemma EditorEchoIsLegible(es: seq<Entry>)
    requires EditorEntries(ContentLines(Print(es))) == es
    ensures AllLegible(es)
  {
    var lines := ContentLines(Print(es));
    forall i | 0 <= i < |es|
      ensures Lacks(Line(es[i]), '\n') && IsContent(es[i].key) && NoLeadingSpace(es[i].key) && NoTrailingSpace(es[i].value)
    {
      ParsedShape(lines[i]);
    }
    if es != [] {
      SplitJoin(PrintedLines(es), '\n');
      ContentsAllKept(PrintedLines(es));
      forall i | 0 <= i < |es| ensures Legible(es[i]) {
        assert lines[i] == Trim(Line(es[i]));
        EchoHasNoEquals(es[i]);
      }
    }
  }

  lemma EchoHasNoEquals(e: Entry)
    requires Lacks(Line(e), '\n') && IsContent(e.key) && NoLeadingSpace(e.key) && NoTrailingSpace(e.value)
    requires EditorEntry(Trim(Line(e))) == e
    ensures Legible(e)
  {
    var l := Line(e);
    assert l[0] == e.key[0];
    assert l[|l| - 1] == if e.value == "" then '=' else e.value[|e.value| - 1];
    TrimOfTrimmed(l);
    ParsedShape(l);
    assert e.key != l by { assert |l| > |e.key|; }
    assert Lacks(e.key, '\n') by { assert forall i :: 0 <= i < |e.key| ==> e.key[i] == l[i]; }
    assert Lacks(e.value, '\n') by { assert forall i :: 0 <= i < |e.value| ==> e.value[i] == l[|e.key| + 1 + i]; }
  }

  // ---- Where the parsers agree ----

  /** The two browser parsers read the same entries exactly when no content line starts with "=". */
  lemma EditorsAgree(text: string)
    ensures ParseField(text) == ParseEditor(text)
            <==> forall i :: 0 <= i < |ContentLines(text)| ==> ContentLines(text)[i][0] != '='
  {
    ParsersSkipNothing(text);
    var lines := ContentLines(text);
    if ParseField(text) == ParseEditor(text) {
      forall i | 0 <= i < |lines| ensures lines[i][0] != '=' {
        assert FieldEntry(lines[i]) == EditorEntry(lines[i]);
      }
    }
  }

  /** A line every parser reads alike: a key, flush against its "=". */
  predicate Regular(line: string) {
    var sep := IndexOf(line, '=');
    sep > 0 && NoTrailingSpace(line[..sep])
  }

  lemma {:induction false} ServerShrinks(lines: seq<string>)
    ensures |ServerEntries(lines)| <= |lines|
  {
    if lines != [] { ServerShrinks(lines[1..]); }
  }

  lemma RegularEntry(line: string)
    requires IsContentLine(line)
    ensures Regular(line) <==> ServerEntry(line) == Some(EditorEntry(line))
  {
    var sep := IndexOf(line, '=');
    if Regular(line) {
      TrimOfTrimmed(line[..sep]);
    }
  }

  lemma {:induction false} ServerMatchesEditor(lines: seq<string>)
    requires AllContent(lines)
    ensures ServerEntries(lines) == EditorEntries(lines)
            <==> forall i :: 0 <= i < |lines| ==> Regular(lines[i])
  {
    if lines != [] {
      var tail := lines[1..];
      ServerShrinks(tail);
      ServerMatchesEditor(tail);
      RegularEntry(lines[0]);
      assert EditorEntries(lines) == [EditorEntry(lines[0])] + EditorEntries(tail);
      assert forall i :: 1 <= i < |lines| ==> lines[i] == tail[i - 1];
      if ServerEntry(lines[0]).Some? {
        assert ServerEntries(lines) == [ServerEntry(lines[0]).value] + ServerEntries(tail);
        assert ServerEntries(lines)[0] == ServerEntry(lines[0]).value && ServerEntries(lines)[1..] == ServerEntries(tail);
        assert EditorEntries(lines)[0] == EditorEntry(lines[0]) && EditorEntries(lines)[1..] == EditorEntries(tail);
      }
    }
  }

  /** The deployment editor and the server read the same list exactly when every content line is regular. */
  lemma EditorAgreesWithServer(text: string)
    ensures ParseEditor(text) == Bindings(text)
            <==> forall i :: 0 <= i < |ContentLines(text)| ==> Regular(ContentLines(text)[i])
  {
    ParsersSkipNothing(text);
    ServerMatchesEditor(ContentLines(text));
  }

  /** Every binding the server reads is clean. */
  lemma {:induction false} ServerEntriesClean(lines: seq<string>)
    requires AllContent(lines)
    ensures AllClean(ServerEntries(lines))
  {
    if lines != [] {
      ServerEntriesClean(lines[1..]);
      if ServerEntry(lines[0]).Some? { ServerEntryClean(lines[0]); }
    }
  }

  lemma ServerEntryClean(line: string)
    requires IsContentLine(line) && ServerEntry(line).Some?
    ensures Clean(ServerEntry(line).value)
  {
    var sep := IndexOf(line, '=');
    var key := line[..sep];
    TrimLacks(key, '=');
    TrimLacks(key, '\n');
    assert TrimLeft(key) == key;
    TrimRightKeepsFirst(key);
    var v := line[sep + 1..];
    assert v != "" ==> v[|v| - 1] == line[|line| - 1];
  }

  lemma BindingsClean(text: string)
    ensures AllClean(Bindings(text))
  {
    ServerEntriesClean(ContentLines(text));
  }
}
