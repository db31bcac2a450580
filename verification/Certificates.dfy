/** The CA certificate field: uploaded files become PEM text, and the field counts its certificates. */
module Certificates {
  import opened Options
  import opened Text
  import opened Base64

  const BEGIN := "-----BEGIN CERTIFICATE-----"
  const END := "-----END CERTIFICATE-----"

  /** A file's bytes, and the text the browser's UTF-8 decoder makes of them. */
  datatype CertFile = CertFile(bytes: seq<byte>, text: string)

  predicate MarkerAtStart(s: string) {
    |BEGIN| <= |s| && s[..|BEGIN|] == BEGIN
  }

  predicate Includes(s: string) {
    MarkerAtStart(s) || (s != "" && Includes(s[1..]))
  }

  /** Non-overlapping matches of the begin marker, left to right. */
  function Count(s: string): nat {
    if s == "" then 0
    else if MarkerAtStart(s) then MarkerSize(); 1 + Count(s[|BEGIN|..])
    else Count(s[1..])
  }

  // ---- Wrapping a binary file ----

  function Chunks(s: string): seq<string> {
    if s == "" then [] else if |s| <= 64 then [s] else [s[..64]] + Chunks(s[64..])
  }

  function WrapPem(bytes: seq<byte>): string {
    BEGIN + "\n" + Join(Chunks(Encode(bytes)), "\n") + "\n" + END
  }

  function FilePem(file: CertFile): string {
    if Includes(file.text) then Trim(file.text) else WrapPem(file.bytes)
  }

  function FilePems(files: seq<CertFile>): (r: seq<string>)
    ensures |r| == |files| && forall i :: 0 <= i < |r| ==> r[i] == FilePem(files[i])
  {
    seq(|files|, i requires 0 <= i < |files| => FilePem(files[i]))
  }

  // ---- The loops ----

  method SplitColumns(b64: string) returns (lines: seq<string>)
    ensures lines == Chunks(b64)
  {
    lines := [];
    var i := 0;
    while i < |b64|
      invariant i <= |b64| || Chunks(b64) == lines
      invariant i <= |b64| ==> Chunks(b64) == lines + Chunks(b64[i..])
      decreases |b64| - i
    {
      var end := if i + 64 <= |b64| then i + 64 else |b64|;
      ghost var rest := b64[i..];
      assert end == i + 64 ==> rest[..64] == b64[i..end] && rest[64..] == b64[end..];
      assert end == |b64| ==> rest == b64[i..end];
      lines := lines + [b64[i..end]];
      i := i + 64;
    }
  }

  method ReadOne(file: CertFile) returns (pem: string)
    ensures pem == FilePem(file)
  {
    if Includes(file.text) {
      pem := Trim(file.text);
    } else {
      var lines := SplitColumns(Encode(file.bytes));
      pem := BEGIN + "\n" + Join(lines, "\n") + "\n" + END;
    }
  }

  method ReadCertFiles(files: seq<CertFile>) returns (text: string)
    ensures text == Join(FilePems(files), "\n")
  {
    var pems: seq<string> := [];
    for i := 0 to |files|
      invariant pems == FilePems(files[..i])
    {
      var pem := ReadOne(files[i]);
      OneMorePem(files, i);
      pems := pems + [pem];
    }
    assert files[..|files|] == files;
    text := Join(pems, "\n");
  }

  lemma OneMorePem(files: seq<CertFile>, i: nat)
    requires i < |files|
    ensures FilePems(files[..i + 1]) == FilePems(files[..i]) + [FilePem(files[i])]
  {
  }

  // ---- Columns ----

  function Concat(parts: seq<string>): string {
    if parts == [] then "" else parts[0] + Concat(parts[1..])
  }

  /** The columns hold the text; every line but the last is full, and the last is not empty. */
  lemma {:induction false} ChunksAreColumns(s: string)
    ensures Concat(Chunks(s)) == s
    ensures forall i :: 0 <= i < |Chunks(s)| - 1 ==> |Chunks(s)[i]| == 64
    ensures s != "" ==> Chunks(s) != [] && 1 <= |Chunks(s)[|Chunks(s)| - 1]| <= 64
  {
    if |s| > 64 {
      ChunksAreColumns(s[64..]);
    } else if s != "" {
      assert s + "" == s;
      assert [s][1..] == [];
    }
  }

  lemma {:induction false} ChunksLack(s: string, c: char)
    requires Lacks(s, c)
    ensures AllLack(Chunks(s), c)
  {
    if |s| > 64 { ChunksLack(s[64..], c); }
  }

  // ---- Unwrapping ----

  /** Without its frame lines, the joined body decoded. */
  function UnwrapPem(pem: string): Option<seq<byte>> {
    var lines := Split(pem, '\n');
    if |lines| < 2 || lines[0] != BEGIN || lines[|lines| - 1] != END then None
    else Decode(Concat(lines[1..|lines| - 1]))
  }

  lemma FrameLacksNewline()
    ensures Lacks(BEGIN, '\n') && Lacks(END, '\n')
  {
  }

  lemma {:induction false} EncodedLacks(bytes: seq<byte>, c: char)
    requires !IsBase64Char(c)
    ensures Lacks(Encode(bytes), c)
  {
    EncodedChars(bytes);
  }

  lemma {:induction false} FrameLines(joined: string)
    ensures Split(BEGIN + "\n" + joined + "\n" + END, '\n') == [BEGIN] + (Split(joined, '\n') + [END])
  {
    FrameLacksNewline();
    var tail := joined + ['\n'] + END;
    assert BEGIN + "\n" + joined + "\n" + END == BEGIN + ['\n'] + tail;
    SplitAppend(BEGIN, '\n', tail);
    SplitAppend(joined, '\n', END);
    SplitWithout(BEGIN, '\n');
    SplitWithout(END, '\n');
  }

  lemma {:induction false} BodyLines(bytes: seq<byte>)
    ensures var body := Chunks(Encode(bytes));
            Split(Join(body, "\n"), '\n') == if body == [] then [""] else body
  {
    var body := Chunks(Encode(bytes));
    EncodedLacks(bytes, '\n');
    ChunksLack(Encode(bytes), '\n');
    if body == [] { SplitWithout("", '\n'); } else { SplitJoin(body, '\n'); }
  }

  /** Every wrapped file unwraps to its bytes. */
  lemma PemRoundTrip(bytes: seq<byte>)
    ensures UnwrapPem(WrapPem(bytes)) == Some(bytes)
  {
    var body := Chunks(Encode(bytes));
    FrameLines(Join(body, "\n"));
    BodyLines(bytes);
    UnwrapLines(WrapPem(bytes), if body == [] then [""] else body);
    ChunksAreColumns(Encode(bytes));
    assert Concat([""]) == "" + Concat([""][1..]);
    RoundTrip(bytes);
  }

  lemma {:induction false} UnwrapLines(pem: string, inner: seq<string>)
    requires Split(pem, '\n') == [BEGIN] + (inner + [END])
    ensures UnwrapPem(pem) == Decode(Concat(inner))
  {
    var lines := [BEGIN] + (inner + [END]);
    assert lines[1..|lines| - 1] == inner;
  }

  // ---- What one file becomes ----

  /** The marker stands somewhere in the text. */
  predicate HasMarker(s: string) {
    exists i :: 0 <= i <= |s| && StartsWith(s[i..], "-----BEGIN CERTIFICATE-----")
  }

  lemma {:induction false} IncludesExactly(s: string)
    ensures Includes(s) <==> HasMarker(s)
  {
    assert s[0..] == s;
    if s != "" {
      var rest := s[1..];
      IncludesExactly(rest);
      assert forall i :: 1 <= i <= |s| ==> s[i..] == rest[i - 1..];
      if HasMarker(rest) {
        var i :| 0 <= i <= |rest| && StartsWith(rest[i..], "-----BEGIN CERTIFICATE-----");
        assert s[i + 1..] == rest[i..];
      }
    }
  }

  /** A wrapped file is the frame around the columns of its encoding. */
  lemma {:induction false} WrappedLines(bytes: seq<byte>)
    ensures var body := Chunks(Encode(bytes));
            Split(WrapPem(bytes), '\n') ==
            ["-----BEGIN CERTIFICATE-----"] + ((if bytes == [] then [""] else body) + ["-----END CERTIFICATE-----"])
  {
    FrameLines(Join(Chunks(Encode(bytes)), "\n"));
    BodyLines(bytes);
    if bytes != [] { EncodedLength(bytes); }
  }

  /** A file with the marker is taken over as text, trimmed; any other is wrapped so that its bytes can be had again. */
  lemma FileBecomes(file: CertFile)
    ensures HasMarker(file.text) ==> FilePem(file) == Trim(file.text)
    ensures !HasMarker(file.text) ==> UnwrapPem(FilePem(file)) == Some(file.bytes)
  {
    IncludesExactly(file.text);
    PemRoundTrip(file.bytes);
  }

  // ---- Counting certificates ----

  lemma MarkerSize()
    ensures |BEGIN| == 27 && BEGIN[0] == '-' && BEGIN[26] == '-'
  {
  }

  lemma MarkerLacks()
    ensures Lacks(BEGIN, '\n')
  {
  }

  lemma MarkerNeedsDash(s: string)
    requires s != "" && s[0] != '-'
    ensures !MarkerAtStart(s)
  {
    MarkerSize();
    assert |BEGIN| <= |s| ==> s[..|BEGIN|][0] == s[0];
  }

  lemma {:induction false} NoDashNoMarker(s: string)
    requires Lacks(s, '-')
    ensures Count(s) == 0
  {
    if s != "" {
      MarkerNeedsDash(s);
      NoDashNoMarker(s[1..]);
    }
  }

  lemma MarkerBeforeNewline(a: string, b: string)
    ensures MarkerAtStart(a + "\n" + b) <==> MarkerAtStart(a)
  {
    var s := a + "\n" + b;
    MarkerLacks();
    if |a| < |BEGIN| <= |s| {
      assert s[..|BEGIN|][|a|] == '\n';
    } else if |BEGIN| <= |a| {
      assert s[..|BEGIN|] == a[..|BEGIN|];
    }
  }

  /** The count adds up over text joined by a newline. */
  lemma {:induction false} CountJoin(a: string, b: string)
    ensures Count(a + "\n" + b) == Count(a) + Count(b)
  {
    var s := a + "\n" + b;
    MarkerSize();
    MarkerBeforeNewline(a, b);
    if a == "" {
      assert s[1..] == b;
    } else if MarkerAtStart(a) {
      assert s[|BEGIN|..] == a[|BEGIN|..] + "\n" + b;
      CountJoin(a[|BEGIN|..], b);
    } else {
      assert s[1..] == a[1..] + "\n" + b;
      CountJoin(a[1..], b);
    }
  }

  lemma EndHasNoMarker()
    ensures Count(END) == 0
  {
    assert |END| == 25;
    NoMarkerInShort(END);
  }

  lemma {:induction false} NoMarkerInShort(s: string)
    requires |s| < 27
    ensures Count(s) == 0
  {
    MarkerSize();
    if s != "" { NoMarkerInShort(s[1..]); }
  }

  lemma BeginCountsOne()
    ensures Count(BEGIN) == 1
  {
    MarkerSize();
    assert BEGIN[..|BEGIN|] == BEGIN && BEGIN[|BEGIN|..] == "";
  }

  /** A wrapped file counts as one certificate. */
  lemma WrappedCountsOne(bytes: seq<byte>)
    ensures Count(WrapPem(bytes)) == 1
  {
    var joined := Join(Chunks(Encode(bytes)), "\n");
    EncodedLacks(bytes, '-');
    ChunksLack(Encode(bytes), '-');
    JoinLacks(Chunks(Encode(bytes)), '-', "\n");
    NoDashNoMarker(joined);
    EndHasNoMarker();
    BeginCountsOne();
    CountJoin(BEGIN + "\n" + joined, END);
    CountJoin(BEGIN, joined);
  }

  /** Trimming loses no certificate. */
  lemma {:induction false} CountTrim(s: string)
    ensures Count(Trim(s)) == Count(s)
  {
    CountTrimLeft(s);
    CountTrimRight(TrimLeft(s));
  }

  lemma {:induction false} CountTrimLeft(s: string)
    ensures Count(TrimLeft(s)) == Count(s)
  {
    if s != "" && IsSpace(s[0]) {
      MarkerNeedsDash(s);
      CountTrimLeft(s[1..]);
    }
  }

  lemma {:induction false} CountTrimRight(s: string)
    ensures Count(TrimRight(s)) == Count(s)
    decreases |s|
  {
    if s != "" && IsSpace(s[|s| - 1]) {
      CountDropSpace(s[..|s| - 1], s[|s| - 1]);
      assert s == s[..|s| - 1] + [s[|s| - 1]];
      CountTrimRight(s[..|s| - 1]);
    }
  }

  lemma {:induction false} CountDropSpace(s: string, c: char)
    requires IsSpace(c)
    ensures Count(s + [c]) == Count(s)
  {
    var t := s + [c];
    MarkerSize();
    assert MarkerAtStart(t) <==> MarkerAtStart(s) by {
      if |s| < |BEGIN| <= |t| {
        assert t[..|BEGIN|][26] == c;
      } else if |BEGIN| <= |s| {
        assert t[..|BEGIN|] == s[..|BEGIN|];
      }
    }
    if s == "" {
      assert t[1..] == "";
    } else if MarkerAtStart(s) {
      assert t[|BEGIN|..] == s[|BEGIN|..] + [c];
      CountDropSpace(s[|BEGIN|..], c);
    } else {
      assert t[1..] == s[1..] + [c];
      CountDropSpace(s[1..], c);
    }
  }

  /** The certificates of an upload: those a text file holds, or one for a binary file. */
  function FileCount(file: CertFile): nat {
    if Includes(file.text) then Count(file.text) else 1
  }

  function TotalCount(files: seq<CertFile>): nat {
    if files == [] then 0 else FileCount(files[0]) + TotalCount(files[1..])
  }

  lemma {:induction false} UploadCount(files: seq<CertFile>)
    ensures Count(Join(FilePems(files), "\n")) == TotalCount(files)
  {
    if files != [] {
      var file := files[0];
      if Includes(file.text) { CountTrim(file.text); } else { WrappedCountsOne(file.bytes); }
      assert FilePems(files)[1..] == FilePems(files[1..]);
      UploadCount(files[1..]);
      if |files| > 1 { CountJoin(FilePem(file), Join(FilePems(files[1..]), "\n")); }
    }
  }

  /** The textarea after an upload. */
  function Appended(current: string, pem: string): string {
    if Trim(current) != "" then Trim(current) + "\n" + pem else pem
  }

  /** An upload replaces a blank field, and else comes on a new line after the trimmed text. */
  lemma {:induction false} AppendedText(current: string, pem: string)
    ensures IsBlank(current) ==> Appended(current, pem) == pem
    ensures !IsBlank(current) ==>
              Split(Appended(current, pem), '\n') == Split(Trim(current), '\n') + Split(pem, '\n')
  {
    TrimBlank(current);
    assert Trim(current) + "\n" + pem == Trim(current) + ['\n'] + pem;
    SplitAppend(Trim(current), '\n', pem);
  }

  /** Uploading adds exactly the files' certificates to the count shown. */
  lemma {:induction false} UploadAddsUp(current: string, files: seq<CertFile>)
    ensures Count(Appended(current, Join(FilePems(files), "\n"))) == Count(current) + TotalCount(files)
  {
    UploadCount(files);
    CountTrim(current);
    CountJoin(Trim(current), Join(FilePems(files), "\n"));
  }

  /** A file with a marker counts at least one: no uploaded file is lost. */
  lemma {:induction false} IncludedIsCounted(s: string)
    ensures Includes(s) <==> Count(s) >= 1
  {
    if s != "" && !MarkerAtStart(s) { IncludedIsCounted(s[1..]); }
  }

  /** Every uploaded file adds at least one to the count: none is lost. */
  lemma {:induction false} NoFileIsLost(files: seq<CertFile>)
    ensures Count(Join(FilePems(files), "\n")) >= |files|
  {
    UploadCount(files);
    EachFileCounts(files);
  }

  lemma {:induction false} EachFileCounts(files: seq<CertFile>)
    ensures TotalCount(files) >= |files|
  {
    if files != [] {
      IncludedIsCounted(files[0].text);
      EachFileCounts(files[1..]);
    }
  }
}
