/**
 Container image references: the normaliser that turns a pasted address into host/path:tag,
 the registry-host classifier and the Docker Hub parser.
 */
module OciReference {
  import opened Options
  import opened Text

  // ---- The steps of the normaliser ----

  const HTTPS := "https://"
  const HTTP := "http://"
  const LATEST := ":latest"

  /** /^https?:\/\/ / with and without the i flag. */
  predicate HadScheme(s: string, scheme: string) {
    |scheme| <= |s| && Lower(s[..|scheme|]) == scheme
  }

  /** Only a lower-case scheme is removed. */
  function StripScheme(s: string): string {
    if StartsWith(s, HTTPS) then s[|HTTPS|..] else if StartsWith(s, HTTP) then s[|HTTP|..] else s
  }

  function StripSlashes(s: string): string {
    if s != "" && s[|s| - 1] == '/' then StripSlashes(s[..|s| - 1]) else s
  }

  predicate AllNonEmpty(segs: seq<string>) {
    forall i :: 0 <= i < |segs| ==> segs[i] != ""
  }

  /** The image named by the segments host/…/-/packages/container/image[/tag] of a GitLab web page. */
  function GitLabImage(segs: seq<string>): Option<string> {
    var n := |segs|;
    if !AllNonEmpty(segs) then None
    else if n >= 5 && segs[n - 4..n - 1] == ["-", "packages", "container"] then
      Some(Join(segs[..n - 4], "/") + "/" + segs[n - 1] + LATEST)
    else if n >= 6 && segs[n - 5..n - 2] == ["-", "packages", "container"] then
      Some(Join(segs[..n - 5], "/") + "/" + segs[n - 2] + ":" + segs[n - 1])
    else None
  }

  function GitLabPath(ref: string): Option<string> {
    GitLabImage(Split(ref, '/'))
  }

  /** The image named by host/orgs/org/packages/container/package/image[/tag], of a GitHub web page. */
  function GhcrImage(segs: seq<string>): Option<string> {
    if !AllNonEmpty(segs) || |segs| < 7 || |segs| > 8 || segs[1] != "orgs"
       || segs[3..6] != ["packages", "container", "package"] then None
    else Some(segs[0] + "/" + segs[2] + "/" + segs[6] + (if |segs| == 8 then ":" + segs[7] else LATEST))
  }

  function GhcrPath(ref: string): Option<string> {
    GhcrImage(Split(ref, '/'))
  }

  function FromWebPath(ref: string): string {
    match GitLabPath(ref)
    case Some(r) => r
    case None => match GhcrPath(ref) case Some(r) => r case None => ref
  }

  /** A pasted address without scheme, trailing slashes or web path. */
  function Core(raw: string): string {
    FromWebPath(StripSlashes(StripScheme(Trim(raw))))
  }

  function Tagged(ref: string): string {
    var slash := IndexOf(ref, '/');
    if slash >= 0 && Lacks(ref[slash..], ':') then ref + LATEST else ref
  }

  /** The last position of c, or -1. */
  function LastIndexOf(s: string, c: char): (r: int)
    ensures -1 <= r < |s|
    ensures r >= 0 ==> s[r] == c
    ensures forall i :: r < i < |s| ==> s[i] != c
  {
    if s == "" then -1 else if s[|s| - 1] == c then |s| - 1 else LastIndexOf(s[..|s| - 1], c)
  }

  function LowerPath(ref: string): string {
    var colon, slash := LastIndexOf(ref, ':'), IndexOf(ref, '/');
    if slash >= 0 && colon > slash then ref[..slash] + Lower(ref[slash..colon]) + ref[colon..]
    else if slash >= 0 then ref[..slash] + Lower(ref[slash..])
    else ref
  }

  /** Where the host part ends: the first slash, or the end. */
  function HostEnd(ref: string): (n: nat)
    ensures n <= |ref|
  {
    if IndexOf(ref, '/') < 0 then |ref| else IndexOf(ref, '/')
  }

  /** A scheme on a bare host name becomes its port. */
  function WithPort(hadHttps: bool, hadHttp: bool, ref: string): string {
    var host := ref[..HostEnd(ref)];
    if (hadHttps || hadHttp) && Lacks(host, '.') && Lacks(host, ':') then
      host + (if hadHttps then ":443" else ":80") + ref[|host|..]
    else ref
  }

  function Normalize(raw: string): string {
    var trimmed := Trim(raw);
    WithPort(HadScheme(trimmed, HTTPS), HadScheme(trimmed, HTTP), LowerPath(Tagged(Core(raw))))
  }

  // ---- The normaliser as written: one variable reassigned step by step ----

  method NormalizeOciReference(raw: string) returns (ref: string)
    ensures ref == Normalize(raw)
  {
    var trimmed := Trim(raw);
    ref := StripAndRewrite(trimmed);
    ref := TagAndLower(ref);
    ref := AddPort(ref, HadScheme(trimmed, HTTPS), HadScheme(trimmed, HTTP));
  }

  method StripAndRewrite(trimmed: string) returns (ref: string)
    ensures ref == FromWebPath(StripSlashes(StripScheme(trimmed)))
  {
    ref := StripScheme(trimmed);
    while ref != "" && ref[|ref| - 1] == '/'
      invariant StripSlashes(ref) == StripSlashes(StripScheme(trimmed))
      decreases |ref|
    {
      ref := ref[..|ref| - 1];
    }
    var gitlab := GitLabPath(ref);
    if gitlab.Some? {
      ref := gitlab.value;
    } else {
      var ghcr := GhcrPath(ref);
      if ghcr.Some? {
        ref := ghcr.value;
      }
    }
  }

  method AddPort(core: string, hadHttps: bool, hadHttp: bool) returns (ref: string)
    ensures ref == WithPort(hadHttps, hadHttp, core)
  {
    ref := core;
    var end := IndexOf(ref, '/');
    var hostPart := ref[..if end == -1 then |ref| else end];
    if (hadHttps || hadHttp) && '.' !in hostPart && ':' !in hostPart {
      ref := hostPart + (if hadHttps then ":443" else ":80") + ref[|hostPart|..];
    }
  }

  /** The default tag and the lower-case path. */
  method TagAndLower(core: string) returns (ref: string)
    ensures ref == LowerPath(Tagged(core))
  {
    ref := core;
    var firstSlash := IndexOf(ref, '/');
    if firstSlash != -1 && ':' !in ref[firstSlash..] {
      ref := ref + LATEST;
    }
    var colon, slash := LastIndexOf(ref, ':'), IndexOf(ref, '/');
    if slash != -1 && colon > slash {
      ref := ref[..slash] + Lower(ref[slash..colon]) + ref[colon..];
    } else if slash != -1 {
      ref := ref[..slash] + Lower(ref[slash..]);
    }
  }

  // ---- The shape of every result with a slash ----

  /** slash is the first slash, colon the last colon, and the colon comes later. */
  predicate Marked(ref: string, slash: int, colon: int) {
    && 0 <= slash < colon < |ref| && ref[slash] == '/' && ref[colon] == ':'
    && (forall i :: 0 <= i < slash ==> ref[i] != '/')
    && (forall i :: colon < i < |ref| ==> ref[i] != ':')
  }

  predicate LowerBetween(ref: string, from: nat, to: nat)
    requires from <= to <= |ref|
  {
    forall i :: from <= i < to ==> LowerChar(ref[i]) == ref[i]
  }

  /** The reference reads host ref[..slash], lower-case path ref[slash..colon], ":", tag. */
  predicate Canonical(ref: string) {
    var slash, colon := IndexOf(ref, '/'), LastIndexOf(ref, ':');
    Marked(ref, slash, colon) && LowerBetween(ref, slash, colon)
  }

  lemma {:induction false} IndexOfIs(s: string, c: char, i: nat)
    requires i < |s| && s[i] == c && forall j :: 0 <= j < i ==> s[j] != c
    ensures IndexOf(s, c) == i
  {
  }

  lemma {:induction false} LastIndexOfIs(s: string, c: char, i: nat)
    requires i < |s| && s[i] == c && forall j :: i < j < |s| ==> s[j] != c
    ensures LastIndexOf(s, c) == i
  {
  }

  lemma {:induction false} MarksAre(ref: string, slash: int, colon: int)
    requires Marked(ref, slash, colon)
    ensures IndexOf(ref, '/') == slash && LastIndexOf(ref, ':') == colon
  {
    IndexOfIs(ref, '/', slash);
    LastIndexOfIs(ref, ':', colon);
  }

  lemma LatestTag()
    ensures |LATEST| == 7 && LATEST[0] == ':' && forall i :: 1 <= i < 7 ==> LATEST[i] != ':' && LATEST[i] != '/'
  {
  }

  /** After the default tag has been added, a colon follows the first slash: the untagged branch is never taken. */
  lemma {:induction false} UntaggedBranchUnreachable(core: string)
    ensures IndexOf(Tagged(core), '/') == IndexOf(core, '/')
    ensures IndexOf(core, '/') >= 0 ==> LastIndexOf(Tagged(core), ':') > IndexOf(core, '/')
  {
    var slash, ref := IndexOf(core, '/'), Tagged(core);
    LatestTag();
    if slash >= 0 {
      assert forall j :: 0 <= j < |core| ==> ref[j] == core[j];
      IndexOfIs(ref, '/', slash);
      if Lacks(core[slash..], ':') {
        assert ref[|core|] == LATEST[0];
      } else {
        var i :| 0 <= i < |core[slash..]| && core[slash..][i] == ':';
        assert core[slash + i] == ':';
      }
    }
  }

  lemma SpliceChars(ref: string, from: nat, to: nat, r: string)
    requires from <= to <= |ref| && r == ref[..from] + Lower(ref[from..to]) + ref[to..]
    ensures |r| == |ref|
    ensures forall i :: 0 <= i < |ref| ==> r[i] == if from <= i < to then LowerChar(ref[i]) else ref[i]
  {
  }

  lemma {:induction false} LowerPathCanonical(ref: string)
    requires 0 <= IndexOf(ref, '/') < LastIndexOf(ref, ':')
    ensures Canonical(LowerPath(ref)) && IndexOf(LowerPath(ref), '/') == IndexOf(ref, '/')
    ensures |LowerPath(ref)| == |ref| && LastIndexOf(LowerPath(ref), ':') == LastIndexOf(ref, ':')
  {
    var slash, colon, r := IndexOf(ref, '/'), LastIndexOf(ref, ':'), LowerPath(ref);
    LowerKeepsMarks(ref, r, slash, colon);
    MarksAre(r, slash, colon);
  }

  lemma LowerKeepsMarks(ref: string, r: string, slash: nat, colon: nat)
    requires Marked(ref, slash, colon)
    requires r == ref[..slash] + Lower(ref[slash..colon]) + ref[colon..]
    ensures |r| == |ref| && Marked(r, slash, colon) && LowerBetween(r, slash, colon)
  {
    SpliceChars(ref, slash, colon, r);
  }

  lemma InsertChars(ref: string, at: nat, text: string, r: string)
    requires at <= |ref| && r == ref[..at] + text + ref[at..]
    ensures |r| == |ref| + |text|
    ensures forall i :: 0 <= i < at ==> r[i] == ref[i]
    ensures forall i :: at <= i < at + |text| ==> r[i] == text[i - at]
    ensures forall i :: at + |text| <= i < |r| ==> r[i] == ref[i - |text|]
  {
  }

  lemma InsertKeepsMarks(ref: string, port: string, r: string, slash: nat, colon: nat)
    requires Marked(ref, slash, colon) && LowerBetween(ref, slash, colon)
    requires Lacks(port, '/') && r == ref[..slash] + port + ref[slash..]
    ensures Marked(r, slash + |port|, colon + |port|) && LowerBetween(r, slash + |port|, colon + |port|)
    ensures port != "" ==> r[slash + |port| - 1] == port[|port| - 1]
  {
    InsertChars(ref, slash, port, r);
  }

  lemma PortCanonical(hadHttps: bool, hadHttp: bool, ref: string)
    requires Canonical(ref)
    ensures Canonical(WithPort(hadHttps, hadHttp, ref))
    ensures WithPort(hadHttps, hadHttp, ref) != ref ==>
              var r := WithPort(hadHttps, hadHttp, ref);
              var slash := IndexOf(r, '/'); slash > 0 && r[slash - 1] in {'3', '0'}
  {
    var r := WithPort(hadHttps, hadHttp, ref);
    if r != ref {
      var port := if hadHttps then ":443" else ":80";
      var slash, colon := IndexOf(ref, '/'), LastIndexOf(ref, ':');
      InsertKeepsMarks(ref, port, r, slash, colon);
      MarksAre(r, slash + |port|, colon + |port|);
    }
  }

  lemma NoSlashCore(raw: string)
    requires Lacks(Core(raw), '/')
    ensures Lacks(Normalize(raw), '/')
  {
  }

  /** Every result that holds a slash is canonical: host, lower-case path, colon, tag. */
  lemma ResultIsCanonical(raw: string)
    requires !Lacks(Normalize(raw), '/')
    ensures Canonical(Normalize(raw))
  {
    var core := Core(raw);
    if Lacks(core, '/') { NoSlashCore(raw); }
    UntaggedBranchUnreachable(core);
    LowerPathCanonical(Tagged(core));
    PortCanonical(HadScheme(Trim(raw), HTTPS), HadScheme(Trim(raw), HTTP), LowerPath(Tagged(core)));
  }

  // ---- Idempotence, with its exact condition ----

  /** No guard of the first steps fires: nothing to trim, no lower-case scheme, no web path. */
  predicate Settled(ref: string) {
    IsTrimmed(ref) && StripScheme(ref) == ref && GitLabPath(ref).None? && GhcrPath(ref).None?
  }

  predicate NoFinalSlash(s: string) {
    s == "" || s[|s| - 1] != '/'
  }

  lemma {:induction false} StrippedSlashes(s: string)
    ensures NoFinalSlash(StripSlashes(s)) && |StripSlashes(s)| <= |s|
    ensures StripSlashes(s) == s[..|StripSlashes(s)|]
    ensures forall i :: |StripSlashes(s)| <= i < |s| ==> s[i] == '/'
    ensures NoFinalSlash(s) ==> StripSlashes(s) == s
    decreases |s|
  {
    if !NoFinalSlash(s) {
      var t := s[..|s| - 1];
      StrippedSlashes(t);
      assert t[..|StripSlashes(t)|] == s[..|StripSlashes(t)|];
      forall i | |StripSlashes(s)| <= i < |s| ensures s[i] == '/' { assert i < |s| - 1 ==> s[i] == t[i]; }
    }
  }

  lemma LatestEnds()
    ensures LATEST != "" && NoFinalSlash(LATEST)
  {
  }

  lemma PieceEnds(p: string)
    requires p != "" && Lacks(p, '/')
    ensures NoFinalSlash(p)
  {
  }

  lemma WebPathEnds(ref: string)
    requires NoFinalSlash(ref)
    ensures NoFinalSlash(FromWebPath(ref))
  {
    var segs := Split(ref, '/');
    var n := |segs|;
    LatestEnds();
    if AllNonEmpty(segs) { PieceEnds(segs[n - 1]); }
  }

  lemma CoreEnds(raw: string)
    ensures NoFinalSlash(Core(raw))
  {
    StrippedSlashes(StripScheme(Trim(raw)));
    WebPathEnds(StripSlashes(StripScheme(Trim(raw))));
  }

  lemma {:induction false} LowerPathEnds(ref: string)
    requires 0 <= IndexOf(ref, '/') < LastIndexOf(ref, ':') && NoFinalSlash(ref)
    ensures NoFinalSlash(LowerPath(ref))
  {
    SpliceEnds(ref, IndexOf(ref, '/'), LastIndexOf(ref, ':'), LowerPath(ref));
  }

  lemma SpliceEnds(ref: string, from: nat, to: nat, r: string)
    requires from <= to < |ref| && r == ref[..from] + Lower(ref[from..to]) + ref[to..]
    ensures |r| == |ref| && r[|r| - 1] == ref[|ref| - 1]
  {
  }

  lemma TaggedEnds(core: string)
    requires NoFinalSlash(core)
    ensures NoFinalSlash(Tagged(core))
  {
    LatestEnds();
  }

  lemma PortEnds(hadHttps: bool, hadHttp: bool, ref: string)
    requires Canonical(ref) && NoFinalSlash(ref)
    ensures NoFinalSlash(WithPort(hadHttps, hadHttp, ref))
  {
    var r := WithPort(hadHttps, hadHttp, ref);
    assert r[|r| - 1] == ref[|ref| - 1];
  }

  lemma ResultEnds(raw: string)
    ensures NoFinalSlash(Normalize(raw))
  {
    var core := Core(raw);
    if Lacks(core, '/') {
      NoSlashCore(raw);
    } else {
      CoreEnds(raw);
      TaggedEnds(core);
      UntaggedBranchUnreachable(core);
      LowerPathCanonical(Tagged(core));
      LowerPathEnds(Tagged(core));
      PortEnds(HadScheme(Trim(raw), HTTPS), HadScheme(Trim(raw), HTTP), LowerPath(Tagged(core)));
    }
  }

  /** In a reference with a scheme in any case, the first slash follows a colon. */
  lemma SchemeColon(s: string) returns (slash: nat)
    requires HadScheme(s, HTTPS) || HadScheme(s, HTTP)
    ensures 0 < slash < |s| && s[slash] == '/' && s[slash - 1] == ':' && forall i :: 0 <= i < slash ==> s[i] != '/'
    ensures IndexOf(s, '/') == slash
  {
    var scheme := if HadScheme(s, HTTPS) then HTTPS else HTTP;
    slash := |scheme| - 2;
    assert forall i :: 0 <= i < |scheme| ==> LowerChar(s[i]) == scheme[i];
    assert scheme[slash] == '/' && scheme[slash - 1] == ':' && forall i :: 0 <= i < slash ==> scheme[i] != '/';
    IndexOfIs(s, '/', slash);
  }

  lemma SettledCore(ref: string)
    requires Settled(ref) && NoFinalSlash(ref)
    ensures Core(ref) == ref
  {
    TrimOfTrimmed(ref);
    StrippedSlashes(ref);
  }

  /** A reference with a colon after some slash needs no default tag. */
  lemma ColonAfterSlash(ref: string, slash: nat, colon: nat)
    requires slash < colon < |ref| && ref[slash] == '/' && ref[colon] == ':'
    ensures Tagged(ref) == ref
  {
    var first := IndexOf(ref, '/');
    assert first <= slash;
    assert ref[first..][colon - first] == ':';
  }

  lemma CanonicalIsTagged(ref: string)
    requires Canonical(ref)
    ensures Tagged(ref) == ref && LowerPath(ref) == ref
  {
    ColonAfterSlash(ref, IndexOf(ref, '/'), LastIndexOf(ref, ':'));
    SpliceSame(ref, IndexOf(ref, '/'), LastIndexOf(ref, ':'));
  }

  lemma SpliceSame(ref: string, from: nat, to: nat)
    requires from <= to <= |ref| && LowerBetween(ref, from, to)
    ensures ref[..from] + Lower(ref[from..to]) + ref[to..] == ref
  {
    assert Lower(ref[from..to]) == ref[from..to];
  }

  lemma NoPortTwice(ref: string)
    requires Canonical(ref)
    ensures WithPort(HadScheme(ref, HTTPS), HadScheme(ref, HTTP), ref) == ref
  {
    if HadScheme(ref, HTTPS) || HadScheme(ref, HTTP) {
      var slash := SchemeColon(ref);
      var host := ref[..HostEnd(ref)];
      assert host[|host| - 1] == ':';
    }
  }

  lemma SettledIsFixed(ref: string)
    requires Settled(ref) && NoFinalSlash(ref) && (Lacks(ref, '/') || Canonical(ref))
    ensures Normalize(ref) == ref
  {
    SettledCore(ref);
    TrimOfTrimmed(ref);
    if Lacks(ref, '/') {
      if HadScheme(ref, HTTPS) || HadScheme(ref, HTTP) { var slash := SchemeColon(ref); }
    } else {
      CanonicalIsTagged(ref);
      NoPortTwice(ref);
    }
  }

  // The other direction: a result that stays fixed is settled.

  /** Rewriting a web path makes the reference shorter. */
  lemma WebPathShrinks(ref: string)
    ensures |FromWebPath(ref)| <= |ref|
    ensures |FromWebPath(ref)| == |ref| ==> GitLabPath(ref).None? && GhcrPath(ref).None?
  {
    GitLabShorter(ref);
    GhcrShorter(ref);
  }

  lemma GitLabShorter(ref: string)
    ensures GitLabPath(ref).Some? ==> |GitLabPath(ref).value| < |ref|
  {
    JoinSplit(ref, '/');
    GitLabShrinks(Split(ref, '/'));
  }

  lemma GhcrShorter(ref: string)
    ensures GhcrPath(ref).Some? ==> |GhcrPath(ref).value| < |ref|
  {
    JoinSplit(ref, '/');
    if GhcrPath(ref).Some? { GhcrShrinks(Split(ref, '/')); }
  }

  lemma {:induction false} GitLabShrinks(segs: seq<string>)
    ensures var n := |segs|; n >= 5 && segs[n - 4..n - 1] == ["-", "packages", "container"] ==>
              |Join(segs[..n - 4], "/") + "/" + segs[n - 1] + LATEST| < |Join(segs, "/")|
    ensures var n := |segs|; n >= 6 && segs[n - 5..n - 2] == ["-", "packages", "container"] ==>
              |Join(segs[..n - 5], "/") + "/" + segs[n - 2] + ":" + segs[n - 1]| < |Join(segs, "/")|
  {
    var n := |segs|;
    LatestTag();
    if n >= 5 && segs[n - 4..n - 1] == ["-", "packages", "container"] {
      TailLength(segs, n - 4);
      JoinPeel(segs, n - 1);
    }
    if n >= 6 && segs[n - 5..n - 2] == ["-", "packages", "container"] {
      TailLength(segs, n - 5);
      JoinPeel(segs, n - 2);
      JoinPeel(segs, n - 1);
    }
  }

  lemma TailLength(segs: seq<string>, k: nat)
    requires 0 < k && k + 3 < |segs| && segs[k..k + 3] == ["-", "packages", "container"]
    ensures |Join(segs, "/")| == |Join(segs[..k], "/")| + 1 + 21 + |Join(segs[k + 3..], "/")|
  {
    assert segs[k] == segs[k..k + 3][0] && segs[k + 1] == segs[k..k + 3][1] && segs[k + 2] == segs[k..k + 3][2];
    assert segs == segs[..k] + segs[k..];
    JoinAppend(segs[..k], segs[k..], "/");
    JoinPeel(segs, k);
    JoinPeel(segs, k + 1);
    JoinPeel(segs, k + 2);
  }

  lemma {:induction false} GhcrShrinks(segs: seq<string>)
    requires 7 <= |segs| <= 8 && segs[1] == "orgs" && segs[3..6] == ["packages", "container", "package"]
    ensures |segs[0] + "/" + segs[2] + "/" + segs[6] + (if |segs| == 8 then ":" + segs[7] else LATEST)| < |Join(segs, "/")|
  {
    LatestTag();
    LongJoin(segs);
    assert segs[3] == segs[3..6][0] && segs[4] == segs[3..6][1] && segs[5] == segs[3..6][2];
  }

  lemma {:induction false} LongJoin(segs: seq<string>)
    requires 7 <= |segs| <= 8
    ensures |Join(segs, "/")| >= |segs[0]| + |segs[1]| + |segs[2]| + |segs[3]| + |segs[4]| + |segs[5]| + |segs[6]| + 6
    ensures |segs| == 8 ==> |Join(segs, "/")| >= |segs[0]| + |segs[1]| + |segs[2]| + |segs[3]| + |segs[4]| + |segs[5]| + |segs[6]| + |segs[7]| + 7
  {
    JoinPeel(segs, 0);
    JoinPeel(segs, 1);
    JoinPeel(segs, 2);
    JoinPeel(segs, 3);
    LongTail(segs);
    assert segs[0..] == segs;
  }

  lemma LongTail(segs: seq<string>)
    requires 7 <= |segs| <= 8
    ensures |Join(segs[4..], "/")| >= |segs[4]| + |segs[5]| + |segs[6]| + 2
    ensures |segs| == 8 ==> |Join(segs[4..], "/")| >= |segs[4]| + |segs[5]| + |segs[6]| + |segs[7]| + 3
  {
    JoinPeel(segs, 4);
    JoinPeel(segs, 5);
    JoinPeel(segs, 6);
    if |segs| == 8 { JoinPeel(segs, 7); }
  }

  lemma JoinPeel(segs: seq<string>, k: nat)
    requires k < |segs|
    ensures |Join(segs[k..], "/")| == |segs[k]| + if k + 1 < |segs| then 1 + |Join(segs[k + 1..], "/")| else 0
  {
    assert segs[k..][1..] == segs[k + 1..];
  }

  lemma StripSchemeLength(s: string)
    ensures |StripScheme(s)| <= |s|
    ensures StripScheme(s) != s ==> |StripScheme(s)| + 7 <= |s|
    ensures StripScheme(s) != s && |StripScheme(s)| + 7 == |s| ==> StartsWith(s, HTTP) && s[7..] == StripScheme(s)
  {
    assert |HTTPS| == 8 && |HTTP| == 7;
  }

  lemma TrimLength(s: string)
    ensures |Trim(s)| <= |s| && (|Trim(s)| == |s| ==> Trim(s) == s)
  {
    var from, to := TrimSlice(s);
    if |Trim(s)| == |s| { assert s[0..|s|] == s; }
  }

  lemma CoreLength(raw: string)
    ensures |Core(raw)| <= |raw|
    ensures |Core(raw)| == |raw| ==> Settled(raw)
  {
    var y := Trim(raw);
    var z := StripScheme(y);
    var w := StripSlashes(z);
    TrimLength(raw);
    StripSchemeLength(y);
    StrippedSlashes(z);
    WebPathShrinks(w);
    assert Core(raw) == FromWebPath(w);
    if |Core(raw)| == |raw| {
      assert z[..|z|] == z;
      assert z == y && y == raw;
      assert w == raw && FromWebPath(w) == w;
    }
  }

  /** A port in a result stands before the first slash, where a scheme leaves its colon. */
  lemma PortShows(raw: string)
    requires !Lacks(Core(raw), '/') && Normalize(raw) != LowerPath(Tagged(Core(raw)))
    ensures HadScheme(Trim(raw), HTTPS) || HadScheme(Trim(raw), HTTP)
    ensures var r := Normalize(raw); IndexOf(r, '/') > 0 && r[IndexOf(r, '/') - 1] in {'3', '0'}
  {
    var n2 := LowerPath(Tagged(Core(raw)));
    UntaggedBranchUnreachable(Core(raw));
    LowerPathCanonical(Tagged(Core(raw)));
    PortCanonical(HadScheme(Trim(raw), HTTPS), HadScheme(Trim(raw), HTTP), n2);
  }

  lemma NoPortInFixed(ref: string)
    requires Canonical(ref) && Normalize(ref) == ref
    ensures ref == LowerPath(Tagged(Core(ref)))
  {
    FixedCoreHasSlash(ref);
    if ref != LowerPath(Tagged(Core(ref))) {
      PortShows(ref);
      TrimmedSchemeColon(ref);
    }
  }

  lemma FixedCoreHasSlash(ref: string)
    requires Canonical(ref) && Normalize(ref) == ref
    ensures !Lacks(Core(ref), '/')
  {
    if Lacks(Core(ref), '/') { NoSlashCore(ref); }
  }

  lemma {:induction false} TrimmedSchemeColon(ref: string)
    requires HadScheme(Trim(ref), HTTPS) || HadScheme(Trim(ref), HTTP)
    ensures IndexOf(ref, '/') > 0 && ref[IndexOf(ref, '/') - 1] == ':'
  {
    var from, to := TrimSlice(ref);
    SliceSchemeColon(ref, from, to);
  }

  lemma {:induction false} SliceSchemeColon(ref: string, from: nat, to: nat)
    requires from <= to <= |ref| && forall i :: 0 <= i < |ref| && !IsSpace(ref[i]) ==> from <= i < to
    requires HadScheme(ref[from..to], HTTPS) || HadScheme(ref[from..to], HTTP)
    ensures IndexOf(ref, '/') > 0 && ref[IndexOf(ref, '/') - 1] == ':'
  {
    var k := SchemeColon(ref[from..to]);
    FirstSlashOfSlice(ref, from, to, k);
    assert ref[from + k - 1] == ref[from..to][k - 1];
  }

  lemma {:induction false} FirstSlashOfSlice(ref: string, from: nat, to: nat, k: nat)
    requires from <= to <= |ref| && k < to - from
    requires forall i :: 0 <= i < |ref| && !IsSpace(ref[i]) ==> from <= i < to
    requires ref[from..to][k] == '/' && forall i :: 0 <= i < k ==> ref[from..to][i] != '/'
    ensures IndexOf(ref, '/') == from + k
  {
    forall i | 0 <= i < from + k ensures ref[i] != '/' {
      assert i >= from ==> ref[i] == ref[from..to][i - from];
    }
    IndexOfIs(ref, '/', from + k);
  }

  lemma WebPathTagged(ref: string)
    requires FromWebPath(ref) != ref
    ensures Tagged(FromWebPath(ref)) == FromWebPath(ref)
  {
    var segs := Split(ref, '/');
    var n := |segs|;
    if GitLabPath(ref).Some? {
      if n >= 5 && segs[n - 4..n - 1] == ["-", "packages", "container"] {
        TaggedForm(Join(segs[..n - 4], "/"), segs[n - 1], "latest", FromWebPath(ref));
      } else {
        TaggedForm(Join(segs[..n - 5], "/"), segs[n - 2], segs[n - 1], FromWebPath(ref));
      }
    } else {
      TaggedForm(segs[0] + "/" + segs[2], segs[6], if |segs| == 8 then segs[7] else "latest", FromWebPath(ref));
    }
  }

  lemma TaggedForm(a: string, b: string, tag: string, ref: string)
    requires ref == a + "/" + b + ":" + tag || (tag == "latest" && ref == a + "/" + b + LATEST)
          || (tag != "latest" && ref == a + "/" + b + (":" + tag))
    ensures Tagged(ref) == ref
  {
    LatestTag();
    assert ref[|a|] == '/' && ref[|a| + 1 + |b|] == ':';
    ColonAfterSlash(ref, |a|, |a| + 1 + |b|);
  }

  /** What is left of a reference when slashes go but slash and colon stay needs no default tag. */
  lemma TagSurvives(ref: string)
    requires Canonical(ref) && StripScheme(Trim(ref)) == Trim(ref)
    ensures Tagged(StripSlashes(Trim(ref))) == StripSlashes(Trim(ref))
  {
    var y := Trim(ref);
    var from, to := TrimSlice(ref);
    var slash, colon := IndexOf(ref, '/') - from, LastIndexOf(ref, ':') - from;
    assert y[slash] == '/' && y[colon] == ':';
    StrippedSlashes(y);
    var z := StripSlashes(y);
    assert colon < |z|;
    assert z[slash] == y[slash] && z[colon] == y[colon];
    ColonAfterSlash(z, slash, colon);
  }

  /** Stripping "http://" and adding ":latest" keeps the length, but never the text. */
  lemma HttpNeverRepeats(ref: string, core: string, slash: nat)
    requires |ref| == |core| + 7 && ref[..7] == HTTP && ref[7..] == core
    requires slash < |core| && ref[slash] == core[slash] == '/'
    requires forall i :: 0 <= i < slash ==> ref[i] == core[i] && ref[i] != '/'
    requires forall i :: slash <= i < |core| ==> ref[i] != ':'
    ensures ref[|core|..] != LATEST
  {
    LatestTag();
    assert forall i :: 0 <= i < 7 ==> ref[i] == ref[..7][i];
    assert ref[5] == HTTP[5] && HTTP[5] == '/' && ref[4] == HTTP[4] && HTTP[4] == ':';
    assert forall i :: 0 <= i < 5 ==> ref[i] == HTTP[i] && HTTP[i] != '/';
    assert slash == 5;
    assert ref[11] == core[4] == ref[4] == ':' && ref[12] == core[5];
    if |core| == 11 {
      assert ref[|core|..][1] == '/';
    } else {
      assert ref[|core|..][11 - |core|] == ':';
    }
  }

  /** A fixed result has not been given a default tag again. */
  lemma NoLatestInFixed(ref: string)
    requires Canonical(ref) && ref == LowerPath(Tagged(Core(ref))) && !Lacks(Core(ref), '/')
    ensures Tagged(Core(ref)) == Core(ref)
  {
    var core, y := Core(ref), Trim(ref);
    var z := StripSlashes(StripScheme(y));
    if FromWebPath(z) != z {
      WebPathTagged(z);
    } else if StripScheme(y) == y {
      TagSurvives(ref);
    } else if Tagged(core) != core {
      LatestSplice(core, ref);
      TrimLength(ref);
      StripSchemeLength(y);
      StrippedSlashes(StripScheme(y));
      assert core == ref[7..];
      HttpNeverRepeats(ref, core, IndexOf(core, '/'));
    }
  }

  lemma {:induction false} LatestSplice(core: string, ref: string)
    requires !Lacks(core, '/') && Tagged(core) != core && ref == LowerPath(Tagged(core))
    ensures var slash := IndexOf(core, '/');
            && |ref| == |core| + 7 && 0 <= slash < |core| && ref[slash] == '/' && ref[|core|..] == LATEST
            && (forall i :: 0 <= i < slash ==> ref[i] == core[i] && ref[i] != '/')
            && (forall i :: slash <= i < |core| ==> ref[i] != ':')
  {
    var slash := IndexOf(core, '/');
    UntaggedBranchUnreachable(core);
    LatestColon(core);
    LatestChars(core, slash, ref);
  }

  lemma {:induction false} LatestColon(core: string)
    ensures LastIndexOf(core + LATEST, ':') == |core|
  {
    var tagged := core + LATEST;
    LatestTag();
    assert tagged[|core|] == LATEST[0];
    assert forall i :: |core| < i < |tagged| ==> tagged[i] == LATEST[i - |core|];
    LastIndexOfIs(tagged, ':', |core|);
  }

  lemma LatestChars(core: string, slash: nat, ref: string)
    requires slash < |core| && core[slash] == '/' && (forall i :: 0 <= i < slash ==> core[i] != '/')
    requires Lacks(core[slash..], ':')
    requires var tagged := core + LATEST; ref == tagged[..slash] + Lower(tagged[slash..|core|]) + tagged[|core|..]
    ensures |ref| == |core| + 7 && ref[slash] == '/' && ref[|core|..] == LATEST
    ensures forall i :: 0 <= i < slash ==> ref[i] == core[i] && ref[i] != '/'
    ensures forall i :: slash <= i < |core| ==> ref[i] != ':'
  {
    LatestTag();
    SpliceChars(core + LATEST, slash, |core|, ref);
    assert forall i :: slash <= i < |core| ==> core[i] == core[slash..][i - slash];
    assert forall i :: |core| <= i < |ref| ==> ref[i] == LATEST[i - |core|];
  }

  lemma FixedIsSettled(ref: string)
    requires Lacks(ref, '/') || Canonical(ref)
    requires Normalize(ref) == ref
    ensures Settled(ref)
  {
    CoreLength(ref);
    if Lacks(ref, '/') {
      TrimLacks(ref, '/');
      PlainNormalize(ref);
    } else {
      NoPortInFixed(ref);
      FixedCoreHasSlash(ref);
      NoLatestInFixed(ref);
      LowerPathLength(Core(ref));
    }
  }

  lemma LowerPathLength(core: string)
    requires !Lacks(core, '/') && Tagged(core) == core
    ensures |LowerPath(core)| == |core|
  {
    UntaggedBranchUnreachable(core);
    LowerPathCanonical(core);
  }

  lemma PlainNormalize(ref: string)
    requires Lacks(ref, '/') && Lacks(Trim(ref), '/')
    ensures Core(ref) == Trim(ref) && Normalize(ref) == Trim(ref)
  {
    var y := Trim(ref);
    StrippedSlashes(y);
    SplitWithout(y, '/');
    NotSchemed(y);
    assert GitLabPath(y).None? && GhcrPath(y).None?;
  }

  lemma StartsHasSlash(y: string, prefix: string, k: nat)
    requires StartsWith(y, prefix) && k < |prefix| && prefix[k] == '/'
    ensures !Lacks(y, '/')
  {
    assert y[k] == y[..|prefix|][k];
  }

  lemma NotSchemed(y: string)
    requires Lacks(y, '/')
    ensures StripScheme(y) == y && !HadScheme(y, HTTPS) && !HadScheme(y, HTTP)
  {
    if HadScheme(y, HTTPS) || HadScheme(y, HTTP) { var slash := SchemeColon(y); }
    if StartsWith(y, HTTPS) { StartsHasSlash(y, HTTPS, 6); }
    if StartsWith(y, HTTP) { StartsHasSlash(y, HTTP, 6); }
  }

  /**
   Normalising twice is normalising once exactly when the result triggers none of the early
   steps again: it is trimmed, has no lower-case scheme and is no GitLab or GitHub web path.
   */
  lemma IdempotentExactly(raw: string)
    ensures Normalize(Normalize(raw)) == Normalize(raw) <==> Settled(Normalize(raw))
  {
    var ref := Normalize(raw);
    ResultEnds(raw);
    if !Lacks(ref, '/') { ResultIsCanonical(raw); }
    if Settled(ref) { SettledIsFixed(ref); }
    if Normalize(ref) == ref { FixedIsSettled(ref); }
  }

  // ---- What the result says, case by case ----

  predicate AllSegments(segs: seq<string>) {
    AllLack(segs, '/') && AllNonEmpty(segs)
  }

  lemma {:induction false} SegmentsOf(segs: seq<string>)
    requires segs != [] && AllSegments(segs)
    ensures Split(Join(segs, "/"), '/') == segs
  {
    SplitJoin(segs, '/');
  }

  /** A GitLab registry page names the image under its project path, with its tag or "latest". */
  lemma {:induction false} GitLabPageReads(project: seq<string>, image: string, tag: string)
    requires project != [] && AllSegments(project) && AllSegments([image, tag])
    ensures var page := project + ["-", "packages", "container", image];
            && FromWebPath(Join(page, "/")) == Join(project, "/") + "/" + image + LATEST
            && FromWebPath(Join(page + [tag], "/")) == Join(project, "/") + "/" + image + ":" + tag
  {
    GitLabLatest(project, image, tag);
    GitLabTagged(project, image, tag);
  }

  lemma PageSegments(project: seq<string>, rest: seq<string>)
    requires AllSegments(project) && AllSegments(rest)
    ensures AllSegments(project + ["-", "packages", "container"] + rest)
  {
    assert Lacks("-", '/') && Lacks("packages", '/') && Lacks("container", '/');
  }

  lemma {:induction false} GitLabLatest(project: seq<string>, image: string, tag: string)
    requires project != [] && AllSegments(project) && AllSegments([image, tag])
    ensures FromWebPath(Join(project + ["-", "packages", "container", image], "/"))
            == Join(project, "/") + "/" + image + LATEST
  {
    var segs := project + ["-", "packages", "container", image];
    assert [image, tag][0] == image;
    PageSegments(project, [image]);
    assert segs == project + ["-", "packages", "container"] + [image];
    SegmentsOf(segs);
    var n := |segs|;
    assert segs[n - 4..n - 1] == ["-", "packages", "container"] && segs[..n - 4] == project;
  }

  lemma {:induction false} GitLabTagged(project: seq<string>, image: string, tag: string)
    requires project != [] && AllSegments(project) && AllSegments([image, tag])
    ensures FromWebPath(Join(project + ["-", "packages", "container", image] + [tag], "/"))
            == Join(project, "/") + "/" + image + ":" + tag
  {
    var segs := project + ["-", "packages", "container", image] + [tag];
    PageSegments(project, [image, tag]);
    assert segs == project + ["-", "packages", "container"] + [image, tag];
    SegmentsOf(segs);
    var n := |segs|;
    assert segs[n - 4..n - 1][0] == "packages";
    assert segs[n - 5..n - 2] == ["-", "packages", "container"] && segs[..n - 5] == project;
  }

  /** A GitHub package page names the image under its organisation, with its tag or "latest". */
  lemma GhcrPageReads(host: string, org: string, image: string, tag: string)
    requires AllSegments([host, org, image, tag])
    ensures var page := [host, "orgs", org, "packages", "container", "package", image];
            && (org != "-" ==> FromWebPath(Join(page, "/")) == host + "/" + org + "/" + image + LATEST)
            && FromWebPath(Join(page + [tag], "/")) == host + "/" + org + "/" + image + (":" + tag)
  {
    var parts := [host, org, image, tag];
    assert parts[0] == host && parts[1] == org && parts[2] == image && parts[3] == tag;
    var page := [host, "orgs", org, "packages", "container", "package", image];
    if org != "-" { GhcrPage(page); }
    var tagged := page + [tag];
    assert tagged[0] == host && tagged[1] == "orgs" && tagged[2] == org && tagged[3] == "packages"
        && tagged[4] == "container" && tagged[5] == "package" && tagged[6] == image && tagged[7] == tag;
    GhcrPage(tagged);
  }

  /** The organisation "-" is the exception: its untagged page is read as a GitLab page of the project host/orgs. */
  lemma DashOrganisationReads(host: string, image: string)
    requires AllSegments([host, image])
    ensures FromWebPath(Join([host, "orgs", "-", "packages", "container", "package", image], "/"))
            == Join([host, "orgs"], "/") + "/" + "package" + ":" + image
  {
    assert [host, image][0] == host && [host, image][1] == image;
    assert Lacks("orgs", '/') && Lacks("package", '/');
    GitLabTagged([host, "orgs"], "package", image);
    assert [host, "orgs"] + ["-", "packages", "container", "package"] + [image]
        == [host, "orgs", "-", "packages", "container", "package", image];
  }

  predicate GhcrShape(segs: seq<string>) {
    && 7 <= |segs| <= 8 && AllNonEmpty(segs)
    && segs[1] == "orgs" && segs[3] == "packages" && segs[4] == "container" && segs[5] == "package"
  }

  lemma {:induction false} GhcrPage(segs: seq<string>)
    requires GhcrShape(segs) && (|segs| == 7 ==> segs[2] != "-")
    requires Lacks(segs[0], '/') && Lacks(segs[2], '/') && Lacks(segs[6], '/') && (|segs| == 8 ==> Lacks(segs[7], '/'))
    ensures FromWebPath(Join(segs, "/")) ==
            segs[0] + "/" + segs[2] + "/" + segs[6] + if |segs| == 8 then ":" + segs[7] else LATEST
  {
    GhcrSegments(segs);
    SegmentsOf(segs);
    NoGitLabPath(segs, Join(segs, "/"));
    GhcrValue(segs, Join(segs, "/"));
  }

  lemma {:induction false} GhcrValue(segs: seq<string>, ref: string)
    requires GhcrShape(segs) && Split(ref, '/') == segs
    ensures GhcrPath(ref) ==
            Some(segs[0] + "/" + segs[2] + "/" + segs[6] + if |segs| == 8 then ":" + segs[7] else LATEST)
  {
    assert segs[3..6] == ["packages", "container", "package"];
  }

  lemma {:induction false} NoGitLabPath(segs: seq<string>, ref: string)
    requires GhcrShape(segs) && (|segs| == 7 ==> segs[2] != "-") && Split(ref, '/') == segs
    ensures GitLabPath(ref).None?
  {
    NotGitLab(segs);
  }

  lemma GhcrSegments(segs: seq<string>)
    requires 7 <= |segs| <= 8
    requires segs[1] == "orgs" && segs[3] == "packages" && segs[4] == "container" && segs[5] == "package"
    requires Lacks(segs[0], '/') && Lacks(segs[2], '/') && Lacks(segs[6], '/') && (|segs| == 8 ==> Lacks(segs[7], '/'))
    ensures AllLack(segs, '/')
  {
    assert Lacks("orgs", '/') && Lacks("packages", '/') && Lacks("container", '/') && Lacks("package", '/');
  }

  /** No window of a GitHub page lines up with the GitLab marker, unless the organisation is "-". */
  lemma NotGitLab(segs: seq<string>)
    requires GhcrShape(segs) && (|segs| == 7 ==> segs[2] != "-")
    ensures var n := |segs|; segs[n - 4..n - 1] != ["-", "packages", "container"]
    ensures var n := |segs|; segs[n - 5..n - 2] != ["-", "packages", "container"]
  {
    var n := |segs|;
    var gitlab := ["-", "packages", "container"];
    assert |"container"| == 9 && |"packages"| == 8 && |"-"| == 1;
    assert segs[n - 4..n - 1][0] == segs[n - 4] && gitlab[0] == "-";
    assert segs[n - 5..n - 2][0] == segs[n - 5];
  }

  /** An address in final form, up to the case of its path: only the path changes, to lower case. */
  lemma TaggedReads(ref: string, slash: nat, colon: nat)
    requires Marked(ref, slash, colon) && Settled(ref) && NoFinalSlash(ref)
    ensures Normalize(ref) == ref[..slash] + Lower(ref[slash..colon]) + ref[colon..]
  {
    SettledCore(ref);
    TrimOfTrimmed(ref);
    MarksAre(ref, slash, colon);
    ColonAfterSlash(ref, slash, colon);
    KeepsHost(ref, LowerPath(ref), slash);
  }

  /** A scheme seen in the address itself never adds a port: the host it leaves holds a colon. */
  lemma {:induction false} KeepsHost(ref: string, r: string, slash: nat)
    requires IndexOf(ref, '/') == slash && slash <= |r| && r[..slash] == ref[..slash]
    requires slash < |r| && r[slash] == '/'
    ensures WithPort(HadScheme(ref, HTTPS), HadScheme(ref, HTTP), r) == r
  {
    assert forall i :: 0 <= i < slash ==> r[i] == ref[..slash][i] && r[i] != '/';
    IndexOfIs(r, '/', slash);
    if HadScheme(ref, HTTPS) || HadScheme(ref, HTTP) {
      var k := SchemeColon(ref);
      assert r[..slash][slash - 1] == ':';
    }
  }

  /** Without a colon after the first slash, the tag is "latest". */
  lemma UntaggedReads(ref: string, slash: nat)
    requires slash < |ref| && ref[slash] == '/' && (forall i :: 0 <= i < slash ==> ref[i] != '/')
    requires Lacks(ref[slash..], ':') && Settled(ref) && NoFinalSlash(ref)
    ensures Normalize(ref) == ref[..slash] + Lower(ref[slash..]) + LATEST
  {
    SettledCore(ref);
    TrimOfTrimmed(ref);
    IndexOfIs(ref, '/', slash);
    LatestLowered(ref, slash);
    KeepsHost(ref, LowerPath(ref + LATEST), slash);
  }

  lemma {:induction false} LatestLowered(ref: string, slash: nat)
    requires IndexOf(ref, '/') == slash && Lacks(ref[slash..], ':')
    ensures Tagged(ref) == ref + LATEST
    ensures LowerPath(ref + LATEST) == ref[..slash] + Lower(ref[slash..]) + LATEST
  {
    LatestColon(ref);
    UntaggedBranchUnreachable(ref);
    var tagged := ref + LATEST;
    assert tagged[..slash] == ref[..slash] && tagged[slash..|ref|] == ref[slash..] && tagged[|ref|..] == LATEST;
  }

  /** A lower-case scheme in front is dropped; a bare host name gets its port instead. */
  lemma SchemeReads(ref: string, slash: nat, colon: nat, https: bool)
    requires Marked(ref, slash, colon) && Settled(ref) && NoFinalSlash(ref)
    ensures var bare := Lacks(ref[..slash], '.') && Lacks(ref[..slash], ':');
            Normalize((if https then HTTPS else HTTP) + ref) ==
            ref[..slash] + (if !bare then "" else if https then ":443" else ":80") + (Lower(ref[slash..colon]) + ref[colon..])
  {
    SchemeStripped(ref, https);
    SchemeCore(ref, https);
    MarksAre(ref, slash, colon);
    ColonAfterSlash(ref, slash, colon);
    var r := ref[..slash] + (Lower(ref[slash..colon]) + ref[colon..]);
    LowerSplice(ref, slash, colon, r);
    PortAt(r, ref[..slash], Lower(ref[slash..colon]) + ref[colon..], https);
  }

  lemma SchemeCore(ref: string, https: bool)
    requires Settled(ref) && NoFinalSlash(ref) && ref != ""
    ensures Core((if https then HTTPS else HTTP) + ref) == ref
  {
    SchemeStripped(ref, https);
    StrippedSlashes(ref);
  }

  lemma {:induction false} LowerSplice(ref: string, slash: nat, colon: nat, r: string)
    requires Marked(ref, slash, colon) && IndexOf(ref, '/') == slash && LastIndexOf(ref, ':') == colon
    requires r == ref[..slash] + (Lower(ref[slash..colon]) + ref[colon..])
    ensures r == LowerPath(ref) && IndexOf(r, '/') == slash
  {
    LowerPathCanonical(ref);
    assert r == ref[..slash] + Lower(ref[slash..colon]) + ref[colon..];
  }

  lemma {:induction false} PortAt(r: string, host: string, rest: string, https: bool)
    requires r == host + rest && IndexOf(r, '/') == |host|
    ensures WithPort(https, !https, r) ==
            host + (if !(Lacks(host, '.') && Lacks(host, ':')) then "" else if https then ":443" else ":80") + rest
  {
    assert r[..|host|] == host && r[|host|..] == rest;
    assert host + "" + rest == r;
  }

  lemma SchemeStripped(ref: string, https: bool)
    requires IsTrimmed(ref) && ref != ""
    ensures var raw := (if https then HTTPS else HTTP) + ref;
            && Trim(raw) == raw && StripScheme(raw) == ref
            && HadScheme(raw, HTTPS) == https && HadScheme(raw, HTTP) == !https
  {
    var scheme := if https then HTTPS else HTTP;
    var raw := scheme + ref;
    assert raw[..|scheme|] == scheme && raw[|scheme|..] == ref;
    assert raw[0] == 'h' && raw[|raw| - 1] == ref[|ref| - 1];
    TrimOfTrimmed(raw);
    assert Lower(scheme) == scheme;
    assert HTTPS[4] == 's' && HTTP[4] == ':' && raw[4] == scheme[4];
    OnlyOneScheme(raw, https);
  }

  lemma OnlyOneScheme(raw: string, https: bool)
    requires |raw| >= 5 && raw[4] == if https then 's' else ':'
    ensures https ==> !StartsWith(raw, HTTP) && !HadScheme(raw, HTTP)
    ensures !https ==> !StartsWith(raw, HTTPS) && !HadScheme(raw, HTTPS)
  {
    assert HTTPS[4] == 's' && HTTP[4] == ':';
    if |raw| >= 8 { assert raw[..8][4] == raw[4] && Lower(raw[..8])[4] == LowerChar(raw[4]); }
    if |raw| >= 7 { assert raw[..7][4] == raw[4] && Lower(raw[..7])[4] == LowerChar(raw[4]); }
  }

  /** A concrete input that normalises differently twice: the host behind the scheme starts with a space. */
  lemma NotAlwaysIdempotent()
    ensures Normalize("http:// a") == " a:80" && Normalize(Normalize("http:// a")) != Normalize("http:// a")
  {
    TrimOfTrimmed("http:// a");
    SpacedScheme();
    SpacedCore();
    PlainTagged(" a");
    SpacedPort();
    TrimLacks(" a:80", '/');
    PlainNormalize(" a:80");
  }

  lemma SpacedScheme()
    ensures StripScheme("http:// a") == " a" && HadScheme("http:// a", HTTP) && !HadScheme("http:// a", HTTPS)
  {
    var raw := "http:// a";
    assert raw[..7] == HTTP && raw[7..] == " a";
    assert HTTPS[4] == 's' && raw[..8][4] == ':' && Lower(raw[..8])[4] == ':';
    assert Lower(HTTP) == HTTP;
  }

  lemma SpacedCore()
    ensures FromWebPath(StripSlashes(" a")) == " a"
  {
    SplitWithout(" a", '/');
  }

  lemma PlainTagged(ref: string)
    requires Lacks(ref, '/')
    ensures Tagged(ref) == ref && LowerPath(ref) == ref && HostEnd(ref) == |ref|
  {
  }

  lemma SpacedPort()
    ensures WithPort(false, true, " a") == " a:80"
  {
    PlainTagged(" a");
    assert " a"[..2] == " a" && " a"[2..] == "";
    assert " a" + ":80" + "" == " a:80";
  }
}
