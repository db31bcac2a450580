/**
 The container's stored environment: bindings joined by NUL characters. Writing checks every
 line and refuses the whole text on a bad key; reading splits at NUL and prints text again.
 */
module EnvConfig {
  import opened Options
  import opened Text
  import opened EnvText

  // ---- Writing ----

  predicate IsWordStart(c: char) {
    'A' <= c <= 'Z' || 'a' <= c <= 'z' || c == '_'
  }

  /** [A-Za-z_][A-Za-z0-9_]* */
  predicate IsWordKey(key: string) {
    key != "" && IsWordStart(key[0]) && forall i :: 0 <= i < |key| ==> IsWordStart(key[i]) || '0' <= key[i] <= '9'
  }

  predicate IsLetter(c: char) {
    c in "ABCDEFGHIJKLMNOPQRSTUVWXYZ" || c in "abcdefghijklmnopqrstuvwxyz"
  }

  /** A key is a word when it begins with a letter or an underscore and goes on with those or digits. */
  lemma WordsGrow(key: string, c: char)
    ensures !IsWordKey("")
    ensures IsWordKey([c]) <==> IsLetter(c) || c == '_'
    ensures key != "" ==> (IsWordKey(key + [c]) <==> IsWordKey(key) && (IsLetter(c) || c == '_' || c in "0123456789"))
  {
    Letters(c);
    if key != "" {
      var longer := key + [c];
      assert longer[|key|] == c;
      assert forall i :: 0 <= i < |key| ==> longer[i] == key[i];
    }
  }

  lemma Letters(c: char)
    ensures IsLetter(c) <==> 'A' <= c <= 'Z' || 'a' <= c <= 'z'
    ensures c in "0123456789" <==> '0' <= c <= '9'
  {
    Capitals(c);
    Smalls(c);
  }

  lemma Capitals(c: char)
    ensures c in "ABCDEFGHIJKLMNOPQRSTUVWXYZ" <==> 'A' <= c <= 'Z'
  {
  }

  lemma Smalls(c: char)
    ensures c in "abcdefghijklmnopqrstuvwxyz" <==> 'a' <= c <= 'z'
  {
  }

  /** Splitting at a newline with an optional carriage return before it. */
  function SplitLines(text: string): seq<string> {
    DropReturns(Split(text, '\n'))
  }

  function DropReturns(lines: seq<string>): seq<string> {
    if |lines| <= 1 then lines
    else
      var l := lines[0];
      [if l != "" && l[|l| - 1] == '\r' then l[..|l| - 1] else l] + DropReturns(lines[1..])
  }

  /** The line is rejected when it has no key or the key is not a word. */
  function EncodeLine(line: string): Option<string> {
    match ServerEntry(line)
    case Some(e) => if IsWordKey(e.key) then Some(Line(e)) else None
    case None => None
  }

  function EncodeLines(lines: seq<string>): Option<seq<string>> {
    if lines == [] then Some([])
    else match (EncodeLine(lines[0]), EncodeLines(lines[1..]))
      case (Some(l), Some(rest)) => Some([l] + rest)
      case _ => None
  }

  function Encode(text: string): Option<string> {
    match EncodeLines(Contents(SplitLines(text)))
    case Some(lines) => Some(Join(lines, "\0"))
    case None => None
  }

  // ---- Reading ----

  function NonEmpty(parts: seq<string>): seq<string> {
    if parts == [] then []
    else (if Trim(parts[0]) == "" then [] else [Trim(parts[0])]) + NonEmpty(parts[1..])
  }

  function Stored(config: string): seq<Entry> {
    if config == "" then [] else FieldEntries(NonEmpty(Split(config, '\0')))
  }

  function Decode(config: string): string {
    Print(Stored(config))
  }

  // ---- What a write accepts ----

  predicate AllWordKeys(es: seq<Entry>) {
    forall i :: 0 <= i < |es| ==> IsWordKey(es[i].key)
  }

  predicate NoNul(es: seq<Entry>) {
    forall i :: 0 <= i < |es| ==> Lacks(es[i].value, '\0')
  }

  lemma {:induction false} ReturnsAreTrimmed(lines: seq<string>)
    ensures Contents(DropReturns(lines)) == Contents(lines)
  {
    if |lines| > 1 {
      var l := lines[0];
      ReturnsAreTrimmed(lines[1..]);
      if l != "" && l[|l| - 1] == '\r' {
        assert l == l[..|l| - 1] + ['\r'];
        TrimDropsTrailing(l[..|l| - 1], '\r');
      }
    }
  }

  lemma {:induction false} EncodedLines(lines: seq<string>)
    ensures EncodeLines(lines).Some? <==>
            |ServerEntries(lines)| == |lines| && AllWordKeys(ServerEntries(lines))
    ensures EncodeLines(lines).Some? ==> EncodeLines(lines).value == PrintedLines(ServerEntries(lines))
  {
    if lines != [] {
      EncodedLines(lines[1..]);
      ServerShrinks(lines[1..]);
      var e := ServerEntry(lines[0]);
      if e.Some? { ConsEntry(e.value, ServerEntries(lines[1..])); }
    }
  }

  lemma ConsEntry(e: Entry, es: seq<Entry>)
    ensures AllWordKeys([e] + es) <==> IsWordKey(e.key) && AllWordKeys(es)
    ensures PrintedLines([e] + es) == [Line(e)] + PrintedLines(es)
  {
    WordsCons(e, es);
    ConsLine(e, es);
  }

  lemma WordsCons(e: Entry, es: seq<Entry>)
    ensures AllWordKeys([e] + es) <==> IsWordKey(e.key) && AllWordKeys(es)
  {
    var all := [e] + es;
    assert all[0] == e;
    if AllWordKeys(all) {
      forall i | 0 <= i < |es| ensures IsWordKey(es[i].key) { assert all[i + 1] == es[i]; }
    }
  }

  lemma ConsLine(e: Entry, es: seq<Entry>)
    ensures PrintedLines([e] + es) == [Line(e)] + PrintedLines(es)
  {
  }

  /** A text is written exactly when every content line binds a word key; then its bindings are what is written. */
  lemma EncodeMeaning(text: string)
    ensures Encode(text).Some? <==>
            |Bindings(text)| == |ContentLines(text)| && AllWordKeys(Bindings(text))
    ensures Encode(text).Some? ==> Encode(text).value == Join(PrintedLines(Bindings(text)), "\0")
  {
    ReturnsAreTrimmed(Split(text, '\n'));
    EncodedLines(ContentLines(text));
  }

  // ---- Reading back what was written ----

  lemma {:induction false} NonEmptyLines(lines: seq<string>)
    requires forall i :: 0 <= i < |lines| ==> IsTrimmed(lines[i]) && lines[i] != ""
    ensures NonEmpty(lines) == lines
  {
    if lines != [] {
      TrimOfTrimmed(lines[0]);
      NonEmptyLines(lines[1..]);
    }
  }

  lemma NulFreeLines(es: seq<Entry>)
    requires AllWordKeys(es) && NoNul(es)
    ensures AllLack(PrintedLines(es), '\0')
  {
  }

  lemma {:induction false} StoredOfWritten(es: seq<Entry>)
    requires AllClean(es) && AllWordKeys(es) && NoNul(es)
    ensures Stored(Join(PrintedLines(es), "\0")) == es
  {
    var lines := PrintedLines(es);
    if es != [] {
      forall i | 0 <= i < |es| ensures IsTrimmed(lines[i]) && lines[i] != "" && FieldEntry(lines[i]) == es[i] {
        LegibleLine(es[i]);
      }
      NulFreeLines(es);
      SplitJoin(lines, '\0');
      NonEmptyLines(lines);
      JoinNotEmpty(lines, "\0");
    }
  }

  lemma {:induction false} JoinNotEmpty(lines: seq<string>, sep: string)
    requires lines != [] && lines[0] != ""
    ensures Join(lines, sep) != ""
  {
  }

  lemma {:induction false} NonEmptyNulFree(parts: seq<string>)
    requires AllLack(parts, '\0')
    ensures AllLack(NonEmpty(parts), '\0')
  {
    if parts != [] {
      TrimLacks(parts[0], '\0');
      NonEmptyNulFree(parts[1..]);
    }
  }

  lemma StoredNulFree(config: string)
    ensures NoNul(Stored(config)) && AllLack(PrintedLines(Stored(config)), '\0')
  {
    if config != "" {
      NonEmptyNulFree(Split(config, '\0'));
      var lines := NonEmpty(Split(config, '\0'));
      forall i | 0 <= i < |lines| ensures Lacks(Line(FieldEntry(lines[i])), '\0') && Lacks(FieldEntry(lines[i]).value, '\0') {
      }
    }
  }

  /** A written text reads back with its bindings exactly when no value holds a NUL. */
  lemma WriteThenRead(text: string)
    requires Encode(text).Some?
    ensures Stored(Encode(text).value) == Bindings(text) <==> NoNul(Bindings(text))
  {
    EncodeMeaning(text);
    BindingsClean(text);
    StoredNulFree(Encode(text).value);
    if NoNul(Bindings(text)) { StoredOfWritten(Bindings(text)); }
  }

  lemma WrittenText(text: string)
    requires Encode(text).Some? && NoNul(Bindings(text))
    ensures Decode(Encode(text).value) == Print(Bindings(text))
    ensures Bindings(Decode(Encode(text).value)) == Bindings(text)
  {
    WriteThenRead(text);
    BindingsClean(text);
    CleanRoundTrip(Bindings(text));
  }

  // ---- Reading a stored environment and writing it again ----

  /** A stored entry the text form can carry. */
  predicate Portable(e: Entry) {
    IsWordKey(e.key) && Lacks(e.value, '\n')
  }

  predicate AllPortable(es: seq<Entry>) {
    forall i :: 0 <= i < |es| ==> Portable(es[i])
  }

  lemma {:induction false} NonEmptyTrimmed(parts: seq<string>)
    ensures forall i :: 0 <= i < |NonEmpty(parts)| ==> IsTrimmed(NonEmpty(parts)[i])
  {
    if parts != [] { NonEmptyTrimmed(parts[1..]); }
  }

  lemma FieldValueEnd(line: string)
    requires IsTrimmed(line)
    ensures NoTrailingSpace(FieldEntry(line).value)
  {
    var sep := IndexOf(line, '=');
    var v := if sep >= 0 then line[sep + 1..] else "";
    assert v != "" ==> v[|v| - 1] == line[|line| - 1];
  }

  lemma WordKeyClean(e: Entry)
    requires Portable(e) && NoTrailingSpace(e.value)
    ensures Clean(e)
  {
  }

  lemma StoredPortable(config: string)
    ensures AllPortable(Stored(config)) ==> AllClean(Stored(config))
  {
    if config != "" {
      var lines := NonEmpty(Split(config, '\0'));
      NonEmptyTrimmed(Split(config, '\0'));
      forall i | 0 <= i < |lines| && Portable(FieldEntry(lines[i])) ensures Clean(FieldEntry(lines[i])) {
        FieldValueEnd(lines[i]);
        WordKeyClean(FieldEntry(lines[i]));
      }
    }
  }

  /**
   Reading an environment and writing the text back keeps every entry exactly when each key is
   a word and no value spans lines; otherwise the write fails or stores something else.
   */
  lemma ReadThenWrite(config: string)
    ensures Encode(Decode(config)).Some? && Stored(Encode(Decode(config)).value) == Stored(config)
            <==> AllPortable(Stored(config))
  {
    var text := Decode(config);
    StoredPortable(config);
    EncodeMeaning(text);
    DecodedNulFree(config);
    if Encode(text).Some? {
      WriteThenRead(text);
      BindingsClean(text);
      CleanWordsPortable(Bindings(text));
    }
    if AllPortable(Stored(config)) {
      CleanRoundTrip(Stored(config));
      ContentLinesOfPrint(Stored(config));
    }
  }

  lemma CleanWordsPortable(es: seq<Entry>)
    requires AllClean(es) && AllWordKeys(es)
    ensures AllPortable(es)
  {
  }

  /** Text read from a stored environment holds no NUL. */
  lemma DecodedNulFree(config: string)
    ensures NoNul(Bindings(Decode(config)))
  {
    StoredNulFree(config);
    JoinLacks(PrintedLines(Stored(config)), '\0', "\n");
    BindingsLackNul(Decode(config));
  }

  lemma {:induction false} SplitLacks(s: string, sep: char, c: char)
    requires Lacks(s, c)
    ensures AllLack(Split(s, sep), c)
  {
    if s != "" { SplitLacks(s[1..], sep, c); }
  }

  lemma BindingsLackNul(text: string)
    requires Lacks(text, '\0')
    ensures NoNul(Bindings(text))
  {
    SplitLacks(text, '\n', '\0');
    LinesLackNul(Split(text, '\n'));
  }

  lemma {:induction false} LinesLackNul(lines: seq<string>)
    requires AllLack(lines, '\0')
    ensures NoNul(ServerEntries(Contents(lines)))
  {
    if lines != [] {
      LinesLackNul(lines[1..]);
      TrimLacks(lines[0], '\0');
    }
  }
}
