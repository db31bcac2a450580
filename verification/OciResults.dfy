/**
 Container image references, seen from the pasted address: when normalising again changes nothing,
 decided on the address without scheme, trailing slashes and web path; and what the addresses of
 registry pages become.
 */
module OciResults {
  import opened Text
  import opened OciReference

  // ---- The result, from the core ----

  /** The guard of the last step: a scheme on a host name without dot and colon. */
  predicate GetsPort(hadScheme: bool, core: string) {
    var host := core[..HostEnd(core)];
    hadScheme && Lacks(host, '.') && Lacks(host, ':')
  }

  predicate Ported(raw: string) {
    GetsPort(HadScheme(Trim(raw), HTTPS) || HadScheme(Trim(raw), HTTP), Core(raw))
  }

  function PortOf(hadHttps: bool, hadHttp: bool, core: string): (port: string)
    ensures IsPort(port) && (port != "" <==> GetsPort(hadHttps || hadHttp, core))
  {
    if !GetsPort(hadHttps || hadHttp, core) then "" else if hadHttps then ":443" else ":80"
  }

  predicate IsPort(port: string) {
    port == "" || port == ":443" || port == ":80"
  }

  /** What the last steps make of the core. */
  function Finished(hadHttps: bool, hadHttp: bool, core: string): string {
    WithPort(hadHttps, hadHttp, LowerPath(Tagged(core)))
  }

  predicate Untagged(core: string) {
    IndexOf(core, '/') >= 0 && Lacks(core[IndexOf(core, '/')..], ':')
  }

  function TagOf(path: string): (tag: string)
    ensures tag == "" || tag == LATEST
  {
    if Lacks(path, ':') then LATEST else ""
  }

  /** Host and path: the path starts at the first slash. */
  predicate Parts(core: string, host: string, path: string) {
    core == host + path && Lacks(host, '/') && path != "" && path[0] == '/'
  }

  lemma {:induction false} PartsOf(core: string)
    requires IndexOf(core, '/') >= 0
    ensures Parts(core, core[..IndexOf(core, '/')], core[IndexOf(core, '/')..])
  {
  }

  lemma {:induction false} FirstSlash(core: string, host: string, path: string)
    requires Parts(core, host, path)
    ensures IndexOf(core, '/') == |host| && core[..|host|] == host && core[|host|..] == path
  {
    assert forall i :: 0 <= i < |host| ==> core[i] == host[i];
    assert core[|host|] == path[0];
    IndexOfIs(core, '/', |host|);
  }

  /** A path in lower case, up to the last colon. */
  function LoweredPath(path: string): string {
    var colon := LastIndexOf(path, ':');
    if colon >= 0 then Lower(path[..colon]) + path[colon..] else Lower(path)
  }

  lemma LoweredChars(path: string)
    requires path != ""
    ensures var r := LoweredPath(path);
            && |r| == |path| && (forall i :: 0 <= i < |path| ==> r[i] == path[i] || r[i] == LowerChar(path[i]))
            && (!Lacks(path, ':') ==> r[|path| - 1] == path[|path| - 1])
  {
  }

  lemma {:induction false} LastColon(core: string, host: string, path: string)
    requires Parts(core, host, path)
    ensures LastIndexOf(path, ':') >= 0 ==> LastIndexOf(core, ':') == |host| + LastIndexOf(path, ':')
    ensures LastIndexOf(path, ':') < 0 ==> LastIndexOf(core, ':') < |host|
  {
    var colon := LastIndexOf(path, ':');
    assert forall i :: 0 <= i < |path| ==> core[|host| + i] == path[i];
    if colon >= 0 { LastIndexOfIs(core, ':', |host| + colon); }
  }

  lemma {:induction false} LowerToColon(core: string, slash: nat, colon: nat)
    requires IndexOf(core, '/') == slash && LastIndexOf(core, ':') == colon && slash < colon
    ensures LowerPath(core) == core[..slash] + Lower(core[slash..colon]) + core[colon..]
  {
  }

  lemma {:induction false} LowerToEnd(core: string, slash: nat)
    requires IndexOf(core, '/') == slash && LastIndexOf(core, ':') < slash
    ensures LowerPath(core) == core[..slash] + Lower(core[slash..])
  {
  }

  lemma {:induction false} LoweredPathIs(path: string, colon: nat)
    requires LastIndexOf(path, ':') == colon
    ensures LoweredPath(path) == Lower(path[..colon]) + path[colon..]
  {
  }

  lemma {:induction false} LoweredWith(core: string, host: string, path: string, colon: nat)
    requires core == host + path && IndexOf(core, '/') == |host| && LastIndexOf(core, ':') == |host| + colon
    requires 0 < colon < |path| && LastIndexOf(path, ':') == colon
    ensures LowerPath(core) == host + LoweredPath(path)
  {
    LowerToColon(core, |host|, |host| + colon);
    LoweredPathIs(path, colon);
    LowerSlices(core, host, path, colon);
  }

  lemma {:induction false} LoweredWithout(core: string, host: string, path: string)
    requires core == host + path && IndexOf(core, '/') == |host| && LastIndexOf(core, ':') < |host|
    requires LastIndexOf(path, ':') < 0
    ensures LowerPath(core) == host + LoweredPath(path)
  {
    LowerToEnd(core, |host|);
    assert core[..|host|] == host && core[|host|..] == path;
  }

  lemma LoweredParts(core: string, host: string, path: string)
    requires Parts(core, host, path)
    ensures LowerPath(core) == host + LoweredPath(path)
  {
    FirstSlash(core, host, path);
    LastColon(core, host, path);
    if LastIndexOf(path, ':') >= 0 {
      LoweredWith(core, host, path, LastIndexOf(path, ':'));
    } else {
      LoweredWithout(core, host, path);
    }
  }

  lemma LowerSlices(core: string, host: string, path: string, colon: nat)
    requires core == host + path && colon <= |path|
    ensures core[..|host|] + Lower(core[|host|..|host| + colon]) + core[|host| + colon..] == host + (Lower(path[..colon]) + path[colon..])
  {
    assert core[..|host|] == host && core[|host|..|host| + colon] == path[..colon] && core[|host| + colon..] == path[colon..];
  }

  lemma TaggedParts(core: string, host: string, path: string)
    requires Parts(core, host, path)
    ensures LowerPath(Tagged(core)) == host + (LoweredPath(path) + TagOf(path))
  {
    FirstSlash(core, host, path);
    LoweredParts(core, host, path);
    if Lacks(path, ':') {
      LatestLowered(core, |host|);
      LastColon(core, host, path);
      Regroup(host, LoweredPath(path), LATEST);
    } else {
      Regroup(host, LoweredPath(path), "");
    }
  }

  lemma Regroup(a: string, b: string, c: string)
    ensures a + b + c == a + (b + c) && a + b + "" == a + b
  {
  }

  lemma PlainResult(core: string, hadHttps: bool, hadHttp: bool)
    requires Lacks(core, '/')
    ensures Finished(hadHttps, hadHttp, core) == core + PortOf(hadHttps, hadHttp, core)
  {
    PlainTagged(core);
    assert core[..|core|] == core && core[|core|..] == "";
    Regroup(core, PortOf(hadHttps, hadHttp, core), "");
    Regroup(core, "", "");
  }

  lemma PortSplice(host: string, rest: string, hadHttps: bool, hadHttp: bool)
    requires Parts(host + rest, host, rest)
    ensures WithPort(hadHttps, hadHttp, host + rest) ==
            host + (if (hadHttps || hadHttp) && Lacks(host, '.') && Lacks(host, ':') then (if hadHttps then ":443" else ":80") else "") + rest
  {
    FirstSlash(host + rest, host, rest);
    Regroup(host, "", rest);
  }

  /** Host, port, lower-case path, and the default tag where there was none. */
  lemma SlashResult(core: string, host: string, path: string, hadHttps: bool, hadHttp: bool)
    requires Parts(core, host, path)
    ensures Finished(hadHttps, hadHttp, core) == host + PortOf(hadHttps, hadHttp, core) + (LoweredPath(path) + TagOf(path))
  {
    FirstSlash(core, host, path);
    TaggedParts(core, host, path);
    LoweredStart(path);
    PortSplice(host, LoweredPath(path) + TagOf(path), hadHttps, hadHttp);
  }

  lemma LoweredStart(path: string)
    requires path != "" && path[0] == '/'
    ensures LoweredPath(path) != "" && LoweredPath(path)[0] == '/'
  {
    LoweredChars(path);
  }

  // ---- Web pages, by their segments ----

  predicate IsPage(segs: seq<string>) {
    var n := |segs|;
    AllNonEmpty(segs) &&
    (GitLabMarked(segs) || (7 <= n <= 8 && segs[1] == "orgs" && segs[3..6] == ["packages", "container", "package"]))
  }

  predicate NoPage(ref: string) {
    GitLabPath(ref).None? && GhcrPath(ref).None?
  }

  lemma {:induction false} PageBySegments(ref: string)
    ensures NoPage(ref) <==> !IsPage(Split(ref, '/'))
  {
    GitLabBySegments(Split(ref, '/'));
    GhcrBySegments(Split(ref, '/'));
  }

  predicate GitLabMarked(segs: seq<string>) {
    var n := |segs|;
    || (n >= 5 && segs[n - 4..n - 1] == ["-", "packages", "container"])
    || (n >= 6 && segs[n - 5..n - 2] == ["-", "packages", "container"])
  }

  lemma {:induction false} GitLabBySegments(segs: seq<string>)
    ensures GitLabImage(segs).Some? <==> AllNonEmpty(segs) && GitLabMarked(segs)
  {
  }

  lemma GhcrBySegments(segs: seq<string>)
    ensures GhcrImage(segs).Some? <==>
            AllNonEmpty(segs) && 7 <= |segs| <= 8 && segs[1] == "orgs" && segs[3..6] == ["packages", "container", "package"]
  {
  }

  /** Only which segments are empty, and the inner segments, matter. */
  lemma SamePage(a: seq<string>, b: seq<string>)
    requires |a| == |b| && AllNonEmpty(a) == AllNonEmpty(b)
    requires forall i :: 1 <= i < |a| - 1 ==> a[i] == b[i]
    ensures IsPage(a) <==> IsPage(b)
  {
    var n := |a|;
    if n >= 5 { SameSlice(a, b, n - 4, n - 1); }
    if n >= 6 { SameSlice(a, b, n - 5, n - 2); }
    if n >= 7 { SameSlice(a, b, 3, 6); }
  }

  lemma SameSlice(a: seq<string>, b: seq<string>, from: nat, to: nat)
    requires |a| == |b| && from <= to <= |a| && forall i :: from <= i < to ==> a[i] == b[i]
    ensures a[from..to] == b[from..to]
  {
  }

  lemma {:induction false} SplitSuffix(s: string, c: char, t: string)
    requires Lacks(t, c)
    ensures var a := Split(s, c); Split(s + t, c) == a[..|a| - 1] + [a[|a| - 1] + t]
  {
    if s == "" {
      SplitWithout(t, c);
      assert s + t == t;
    } else {
      SplitSuffix(s[1..], c, t);
      assert s == [s[0]] + s[1..] && s + t == [s[0]] + (s[1..] + t);
      SplitCons(s[0], s[1..], c);
      SplitCons(s[0], s[1..] + t, c);
      SuffixCons(s[0], Split(s[1..], c), t);
    }
  }

  lemma SuffixCons(x: char, rest: seq<string>, t: string)
    requires rest != []
    ensures var more, a := rest[..|rest| - 1] + [rest[|rest| - 1] + t], [""] + rest;
            [""] + more == a[..|a| - 1] + [a[|a| - 1] + t]
    ensures var more, b := rest[..|rest| - 1] + [rest[|rest| - 1] + t], [[x] + rest[0]] + rest[1..];
            [[x] + more[0]] + more[1..] == b[..|b| - 1] + [b[|b| - 1] + t]
  {
    assert [x] + (rest[0] + t) == [x] + rest[0] + t;
  }

  lemma {:induction false} LastSegment(s: string)
    requires s != "" && s[|s| - 1] != '/'
    ensures var segs := Split(s, '/'); segs[|segs| - 1] != ""
  {
    assert s == [s[0]] + s[1..];
    SplitCons(s[0], s[1..], '/');
    if |s| > 1 { LastSegment(s[1..]); }
  }

  /** The segments of host, some text and a path that starts with a slash. */
  lemma {:induction false} HostSegments(host: string, path: string)
    requires Lacks(host, '/') && path != "" && path[0] == '/'
    ensures Split(host + path, '/') == [host] + Split(path[1..], '/')
  {
    SplitPrefix(host, '/', path);
    assert path == ['/'] + path[1..];
    SplitCons('/', path[1..], '/');
    assert host + "" == host;
  }

  lemma {:induction false} DecoratedSplit(host: string, path: string, tag: string)
    requires Lacks(host, '/') && |path| >= 2 && path[0] == '/' && Lacks(tag, '/')
    ensures var segs := Split(path[1..], '/');
            Split(host + (path + tag), '/') == [host] + (segs[..|segs| - 1] + [segs[|segs| - 1] + tag])
  {
    HostSegments(host, path + tag);
    assert (path + tag)[1..] == path[1..] + tag;
    SplitSuffix(path[1..], '/', tag);
  }

  /** A default tag never makes or unmakes a page, nor does a port, apart from filling an empty host. */
  lemma {:induction false} DecorationsKeepPage(host: string, port: string, path: string, tag: string)
    requires Lacks(host, '/') && |path| >= 2 && path[0] == '/' && path[|path| - 1] != '/'
    requires IsPort(port) && (tag == "" || tag == LATEST)
    ensures NoPage(host + port + (path + tag)) <==> NoPage((if port == "" then "" else ":") + host + path)
  {
    var marked := (if port == "" then "" else ":") + host;
    LatestTag();
    DecoratedSplit(host + port, path, tag);
    HostSegments(marked, path);
    LastSegment(path[1..]);
    DecoratedSegments(host + port, marked, Split(path[1..], '/'), tag);
    SegmentsDecide(host + port + (path + tag), marked + path);
  }

  lemma {:induction false} SegmentsDecide(a: string, b: string)
    ensures (IsPage(Split(a, '/')) <==> IsPage(Split(b, '/'))) <==> (NoPage(a) <==> NoPage(b))
  {
    PageBySegments(a);
    PageBySegments(b);
  }

  lemma DecoratedSegments(a: string, b: string, segs: seq<string>, tag: string)
    requires segs != [] && segs[|segs| - 1] != "" && (a == "" <==> b == "")
    ensures IsPage([a] + (segs[..|segs| - 1] + [segs[|segs| - 1] + tag])) <==> IsPage([b] + segs)
  {
    var x, y := [a] + (segs[..|segs| - 1] + [segs[|segs| - 1] + tag]), [b] + segs;
    assert x[0] == a && y[0] == b && x[|segs|] == segs[|segs| - 1] + tag && y[|segs|] == segs[|segs| - 1];
    assert forall i :: 1 <= i < |segs| ==> x[i] == segs[i - 1] && y[i] == segs[i - 1];
    SamePage(x, y);
  }

  // ---- Idempotence, decided on the core ----

  /**
   No early step will fire again: the core has no leading space, and no trailing one that the result
   exposes; no lower-case scheme is left; and its path, once lower-case, is no web page.
   */
  predicate Stable(core: string, ported: bool) {
    && NoLeadingSpace(core)
    && (NoTrailingSpace(core) || Untagged(core) || (ported && Lacks(core, '/')))
    && StripScheme(core) == core
    && NoPage((if ported then ":" else "") + LowerPath(core))
  }

  lemma PlainIsStable(core: string, hadHttps: bool, hadHttp: bool)
    requires Lacks(core, '/')
    ensures Settled(Finished(hadHttps, hadHttp, core)) <==> Stable(core, GetsPort(hadHttps || hadHttp, core))
  {
    var port := PortOf(hadHttps, hadHttp, core);
    PlainResult(core, hadHttps, hadHttp);
    PlainTagged(core);
    NotSchemed(core);
    NotSchemed(core + port);
    NoSlashNoPage(core + port);
    NoSlashNoPage((if port != "" then ":" else "") + core);
    PlainTrimmed(core, port);
  }

  lemma NoSlashNoPage(ref: string)
    requires Lacks(ref, '/')
    ensures NoPage(ref)
  {
    SplitWithout(ref, '/');
  }

  lemma PlainTrimmed(core: string, port: string)
    requires port == "" || port == ":443" || port == ":80"
    ensures IsTrimmed(core + port) <==> NoLeadingSpace(core) && (NoTrailingSpace(core) || port != "")
  {
    var r := core + port;
    if port == "" {
      assert r == core;
    } else {
      assert r[|r| - 1] == port[|port| - 1] && r[0] == if core == "" then ':' else core[0];
    }
  }

  /** A scheme at the start is the host part before the first slash, and one more slash. */
  lemma StartsAtSlash(s: string, host: string, path: string, scheme: string, k: nat)
    requires Parts(s, host, path)
    requires |scheme| == k + 2 && scheme[k] == '/' && scheme[k + 1] == '/' && forall i :: 0 <= i < k ==> scheme[i] != '/'
    ensures StartsWith(s, scheme) <==> host == scheme[..k] && |path| >= 2 && path[1] == '/'
  {
    assert forall i :: 0 <= i < |host| ==> s[i] == host[i];
    assert forall i :: 0 <= i < |path| ==> s[|host| + i] == path[i];
    if StartsWith(s, scheme) {
      assert forall i :: 0 <= i < |scheme| ==> s[i] == s[..|scheme|][i];
      assert |host| == k;
      assert host == s[..k] == scheme[..k];
    }
    if host == scheme[..k] && |path| >= 2 && path[1] == '/' {
      assert s[..k + 2] == scheme;
    }
  }

  predicate Schemed(host: string, path: string) {
    (host == "https:" || host == "http:") && |path| >= 2 && path[1] == '/'
  }

  lemma StripBySlash(s: string, host: string, path: string)
    requires Parts(s, host, path)
    ensures StripScheme(s) == s <==> !Schemed(host, path)
  {
    assert HTTPS[..6] == "https:" && HTTP[..5] == "http:";
    StartsAtSlash(s, host, path, HTTPS, 6);
    StartsAtSlash(s, host, path, HTTP, 5);
    StripSchemeLength(s);
  }

  lemma ResultScheme(host: string, port: string, path: string, low: string, tag: string)
    requires Parts(host + path, host, path) && Parts(host + port + (low + tag), host + port, low + tag)
    requires IsPort(port) && (port != "" ==> Lacks(host, ':'))
    requires |path| >= 2 && |low| == |path| && (low[1] == path[1] || low[1] == LowerChar(path[1]))
    ensures var r, core := host + port + (low + tag), host + path; StripScheme(r) == r <==> StripScheme(core) == core
  {
    StripBySlash(host + path, host, path);
    StripBySlash(host + port + (low + tag), host + port, low + tag);
    if port == "" {
      assert host + port == host;
    } else {
      var full := host + port;
      assert full[|full| - 1] in {'3', '0'};
      assert "https:"[5] == ':' && "http:"[4] == ':';
    }
  }

  lemma ResultTrimmed(host: string, port: string, path: string, low: string, tag: string)
    requires path != "" && path[0] == '/' && |low| == |path| && low[0] == '/'
    requires IsPort(port) && tag == TagOf(path) && (tag == "" ==> low[|low| - 1] == path[|path| - 1])
    ensures IsTrimmed(host + port + (low + tag)) <==>
            NoLeadingSpace(host + path) && (NoTrailingSpace(host + path) || Lacks(path, ':'))
  {
    var r, core := host + port + (low + tag), host + path;
    LatestTag();
    assert LATEST[6] == 't';
    assert r[|r| - 1] == (low + tag)[|low + tag| - 1] && core[|core| - 1] == path[|path| - 1];
    if host != "" {
      assert r[0] == host[0] && core[0] == host[0];
    } else {
      assert core[0] == '/' && r[0] == if port == "" then '/' else ':';
    }
  }

  lemma PathEnds(core: string, host: string, path: string)
    requires Parts(core, host, path) && NoFinalSlash(core)
    ensures |path| >= 2 && path[|path| - 1] != '/'
  {
    assert core[|core| - 1] == path[|path| - 1];
  }

  lemma LoweredEnd(path: string)
    requires path != "" && path[|path| - 1] != '/'
    ensures LoweredPath(path)[|path| - 1] != '/'
  {
    LoweredChars(path);
  }

  /** The three parts of the condition, for an address whose core has a slash. */
  lemma PartsAreStable(host: string, port: string, path: string)
    requires Parts(host + path, host, path) && NoFinalSlash(host + path) && IsPort(port) && (port != "" ==> Lacks(host, ':'))
    ensures var r, core := host + port + (LoweredPath(path) + TagOf(path)), host + path;
            Settled(r) <==> && NoLeadingSpace(core) && (NoTrailingSpace(core) || Lacks(path, ':')) && StripScheme(core) == core
                            && NoPage((if port == "" then "" else ":") + host + LoweredPath(path))
  {
    var low, tag := LoweredPath(path), TagOf(path);
    PathEnds(host + path, host, path);
    LoweredChars(path);
    LoweredStart(path);
    LoweredEnd(path);
    ResultTrimmed(host, port, path, low, tag);
    ResultScheme(host, port, path, low, tag);
    DecorationsKeepPage(host, port, low, tag);
  }

  lemma StableParts(core: string, host: string, path: string, ported: bool)
    requires Parts(core, host, path)
    ensures Stable(core, ported) <==>
            && NoLeadingSpace(core) && (NoTrailingSpace(core) || Lacks(path, ':')) && StripScheme(core) == core
            && NoPage((if ported then ":" else "") + host + LoweredPath(path))
  {
    FirstSlash(core, host, path);
    LoweredParts(core, host, path);
    MarkedParts(if ported then ":" else "", host, path);
  }

  lemma SlashIsStable(core: string, host: string, path: string, hadHttps: bool, hadHttp: bool)
    requires Parts(core, host, path) && NoFinalSlash(core)
    ensures Settled(Finished(hadHttps, hadHttp, core)) <==> Stable(core, GetsPort(hadHttps || hadHttp, core))
  {
    var port := PortOf(hadHttps, hadHttp, core);
    SlashResult(core, host, path, hadHttps, hadHttp);
    PortNeedsNoColon(core, host, path, hadHttps || hadHttp);
    PartsAreStable(host, port, path);
    StableParts(core, host, path, port != "");
  }

  lemma PortNeedsNoColon(core: string, host: string, path: string, hadScheme: bool)
    requires Parts(core, host, path)
    ensures GetsPort(hadScheme, core) ==> Lacks(host, ':')
  {
    FirstSlash(core, host, path);
  }

  lemma MarkedParts(mark: string, host: string, path: string)
    ensures mark + host + LoweredPath(path) == mark + (host + LoweredPath(path))
  {
  }

  lemma FinishedIsStable(core: string, hadHttps: bool, hadHttp: bool)
    requires NoFinalSlash(core)
    ensures Settled(Finished(hadHttps, hadHttp, core)) <==> Stable(core, GetsPort(hadHttps || hadHttp, core))
  {
    if Lacks(core, '/') {
      PlainIsStable(core, hadHttps, hadHttp);
    } else {
      PartsOf(core);
      SlashIsStable(core, core[..IndexOf(core, '/')], core[IndexOf(core, '/')..], hadHttps, hadHttp);
    }
  }

  /** Normalising twice is normalising once exactly when the core of the address is stable. */
  lemma IdempotentOnCore(raw: string)
    ensures Normalize(Normalize(raw)) == Normalize(raw) <==> Stable(Core(raw), Ported(raw))
  {
    CoreEnds(raw);
    FinishedIsStable(Core(raw), HadScheme(Trim(raw), HTTPS), HadScheme(Trim(raw), HTTP));
    IdempotentExactly(raw);
  }

  // ---- A clean input that is not idempotent ----

  lemma CleanCore(raw: string)
    requires IsTrimmed(raw) && NoFinalSlash(raw) && StripScheme(raw) == raw
    ensures Core(raw) == FromWebPath(raw) && (FromWebPath(raw) == raw ==> Core(raw) == raw)
  {
    TrimOfTrimmed(raw);
    StrippedSlashes(raw);
  }

  /**
   An address without white space and scheme fails as soon as a marker of a web path is spelt with
   a capital: its path is no page as pasted, and one once it is in lower case.
   */
  lemma CapitalPageNotIdempotent(raw: string)
    requires IsTrimmed(raw) && NoFinalSlash(raw) && StripScheme(raw) == raw && NoPage(raw)
    requires !HadScheme(raw, HTTPS) && !HadScheme(raw, HTTP) && !NoPage(LowerPath(raw))
    ensures Normalize(Normalize(raw)) != Normalize(raw)
  {
    CleanCore(raw);
    TrimOfTrimmed(raw);
    IdempotentOnCore(raw);
    assert "" + LowerPath(raw) == LowerPath(raw);
  }

  function LowerAll(parts: seq<string>): (r: seq<string>)
    ensures |r| == |parts| && forall i :: 0 <= i < |r| ==> r[i] == Lower(parts[i])
  {
    seq(|parts|, i requires 0 <= i < |parts| => Lower(parts[i]))
  }

  lemma LowerAppend(a: string, b: string)
    ensures Lower(a + b) == Lower(a) + Lower(b)
  {
  }

  lemma {:induction false} LowerJoin(parts: seq<string>)
    ensures Lower(Join(parts, "/")) == Join(LowerAll(parts), "/")
  {
    if |parts| > 1 {
      var rest := parts[1..];
      LowerJoin(rest);
      assert LowerAll(parts)[1..] == LowerAll(rest);
      LowerAppend(parts[0] + "/", Join(rest, "/"));
      LowerAppend(parts[0], "/");
      assert Lower("/") == "/";
    }
  }

  lemma {:induction false} LowerKeepsSegments(parts: seq<string>)
    requires AllSegments(parts)
    ensures AllSegments(LowerAll(parts))
  {
    forall i | 0 <= i < |parts| ensures Lacks(LowerAll(parts)[i], '/') && LowerAll(parts)[i] != "" {
      assert Lacks(parts[i], '/') && parts[i] != "";
      assert forall j :: 0 <= j < |parts[i]| ==> LowerChar(parts[i][j]) != '/';
    }
  }

  /** The lower-case form of a colon-free address: the host keeps its case. */
  lemma {:induction false} LoweredAddress(host: string, rest: seq<string>)
    requires AllSegments([host] + rest) && rest != [] && Lacks(Join(rest, "/"), ':')
    ensures LowerPath(Join([host] + rest, "/")) == Join([host] + LowerAll(rest), "/")
  {
    var path := "/" + Join(rest, "/");
    assert ([host] + rest)[1..] == rest && ([host] + LowerAll(rest))[1..] == LowerAll(rest);
    assert ([host] + rest)[0] == host;
    assert Join([host] + rest, "/") == host + path;
    LoweredParts(host + path, host, path);
    NoColon(path);
    LowerAppend("/", Join(rest, "/"));
    LowerJoin(rest);
    assert Lower("/") == "/";
    Regroup(host, "/", Join(LowerAll(rest), "/"));
  }

  lemma NoColon(path: string)
    requires Lacks(path, ':')
    ensures LoweredPath(path) == Lower(path)
  {
  }

  /** By segments: no page as pasted, a page once its path is in lower case. */
  lemma {:induction false} CapitalSegments(host: string, rest: seq<string>)
    requires AllSegments([host] + rest) && rest != [] && Lacks(Join(rest, "/"), ':')
    ensures var raw := Join([host] + rest, "/");
            NoPage(raw) == !IsPage([host] + rest) && NoPage(LowerPath(raw)) == !IsPage([host] + LowerAll(rest))
  {
    LoweredAddress(host, rest);
    assert forall i :: 0 <= i < |rest| ==> ([host] + rest)[i + 1] == rest[i];
    LowerKeepsSegments(rest);
    assert ([host] + rest)[0] == host;
    assert AllSegments([host] + LowerAll(rest));
    SegmentsOf([host] + rest);
    SegmentsOf([host] + LowerAll(rest));
    PageBySegments(Join([host] + rest, "/"));
    PageBySegments(Join([host] + LowerAll(rest), "/"));
  }

  lemma OneProjectPage(segs: seq<string>)
    requires |segs| == 6 && AllNonEmpty(segs) && segs[2] == "-" && segs[4] == "container"
    ensures IsPage(segs) <==> segs[3] == "packages"
  {
    var marker := ["-", "packages", "container"];
    assert "-" != "packages" by { assert |"-"| == 1 && |"packages"| == 8; }
    assert segs[1..4][1] == segs[2] != marker[1];
    if segs[3] == "packages" {
      assert segs[2..5] == marker;
    } else {
      assert segs[2..5][1] == segs[3] != marker[1];
    }
  }

  lemma {:induction false} JoinStep(head: string, rest: seq<string>, text: string)
    requires rest != [] && Join(rest, "/") == text
    ensures Join([head] + rest, "/") == head + "/" + text
  {
    assert ([head] + rest)[1..] == rest;
  }

  /** A joined address starts and ends as its first and last segment do. */
  lemma {:induction false} JoinEnds(segs: seq<string>)
    requires segs != [] && AllNonEmpty(segs)
    ensures var s := Join(segs, "/");
            s != "" && s[0] == segs[0][0] && s[|s| - 1] == segs[|segs| - 1][|segs[|segs| - 1]| - 1]
  {
    if |segs| > 1 { JoinEnds(segs[1..]); }
  }

  lemma SchemeHasColon(raw: string, scheme: string)
    requires StartsWith(raw, scheme) && (scheme == HTTPS || scheme == HTTP)
    ensures !Lacks(raw, ':')
  {
    var k := |scheme| - 3;
    assert scheme[k] == ':';
    assert raw[k] == raw[..|scheme|][k];
  }

  lemma NoColonNoScheme(raw: string)
    requires Lacks(raw, ':')
    ensures StripScheme(raw) == raw && !HadScheme(raw, HTTPS) && !HadScheme(raw, HTTP)
  {
    if HadScheme(raw, HTTPS) || HadScheme(raw, HTTP) { var slash := SchemeColon(raw); }
    if StartsWith(raw, HTTPS) { SchemeHasColon(raw, HTTPS); }
    if StartsWith(raw, HTTP) { SchemeHasColon(raw, HTTP); }
  }

  /** The segments of a GitLab page of a one-level project, with some spelling of "packages". */
  function Spelt(project: string, word: string, image: string): seq<string> {
    [project, "-", word, "container", image]
  }

  lemma {:induction false} SpeltPage(host: string, project: string, word: string, image: string)
    requires AllSegments([host, project, word, image]) && AllLack([host, project, word, image], ':')
    ensures var segs := [host] + Spelt(project, word, image);
            && AllSegments(segs) && AllLack(segs, ':') && AllLack(Spelt(project, word, image), ':')
            && (IsPage(segs) <==> word == "packages")
            && (IsPage([host] + LowerAll(Spelt(project, word, image))) <==> Lower(word) == "packages")
  {
    var parts, segs := [host, project, word, image], [host] + Spelt(project, word, image);
    assert parts[0] == host && parts[1] == project && parts[2] == word && parts[3] == image;
    assert Lacks("-", '/') && Lacks("container", '/') && Lacks("-", ':') && Lacks("container", ':');
    assert segs[0] == host && segs[1] == project && segs[2] == "-" && segs[3] == word && segs[4] == "container" && segs[5] == image;
    OneProjectPage(segs);
    var low := [host] + LowerAll(Spelt(project, word, image));
    assert Lower("-") == "-" && Lower("container") == "container";
    assert low[2] == "-" && low[3] == Lower(word) && low[4] == "container";
    assert |Lower(project)| == |project| && |Lower(word)| == |word| && |Lower(image)| == |image|;
    assert low[0] == host && low[1] == Lower(project) && low[5] == Lower(image);
    OneProjectPage(low);
  }

  lemma {:induction false} AddressIsClean(segs: seq<string>)
    requires segs != [] && AllSegments(segs) && AllLack(segs, ':')
    requires NoLeadingSpace(segs[0]) && NoTrailingSpace(segs[|segs| - 1])
    ensures var raw := Join(segs, "/");
            && IsTrimmed(raw) && NoFinalSlash(raw) && StripScheme(raw) == raw && !HadScheme(raw, HTTPS) && !HadScheme(raw, HTTP)
  {
    JoinLacks(segs, ':', "/");
    JoinEnds(segs);
    assert Lacks(segs[|segs| - 1], '/');
    NoColonNoScheme(Join(segs, "/"));
  }

  /**
   Whatever host, project and image: host/project/-/Packages/container/image, in any spelling of
   that word but the small one, normalises to something that normalises differently.
   */
  lemma {:induction false} MisspeltPageNotIdempotent(host: string, project: string, word: string, image: string)
    requires AllSegments([host, project, word, image]) && AllLack([host, project, word, image], ':')
    requires word != "packages" && Lower(word) == "packages" && NoLeadingSpace(host) && NoTrailingSpace(image)
    ensures var raw := Join([host] + Spelt(project, word, image), "/"); Normalize(Normalize(raw)) != Normalize(raw)
  {
    var rest := Spelt(project, word, image);
    SpeltPage(host, project, word, image);
    JoinLacks(rest, ':', "/");
    AddressIsClean([host] + rest);
    CapitalSegments(host, rest);
    CapitalPageNotIdempotent(Join([host] + rest, "/"));
  }

  /** In particular h/x/-/Packages/container/i, whose first normal form ends in -/packages/container/i:latest. */
  lemma {:induction false} CapitalExample()
    ensures var raw := Join(["h", "x", "-", "Packages", "container", "i"], "/"); Normalize(Normalize(raw)) != Normalize(raw)
  {
    assert "Packages"[0] != "packages"[0] && Lower("Packages") == "packages";
    assert ["h"] + Spelt("x", "Packages", "i") == ["h", "x", "-", "Packages", "container", "i"];
    MisspeltPageNotIdempotent("h", "x", "Packages", "i");
  }

  // ---- The addresses of registry pages ----

  /** A lower-case scheme, or none. */
  predicate IsPrefix(scheme: string, page: string) {
    || scheme == HTTPS || scheme == HTTP
    || (scheme == "" && StripScheme(page) == page && !HadScheme(page, HTTPS) && !HadScheme(page, HTTP))
  }

  lemma {:induction false} PageCore(scheme: string, page: string)
    requires IsPrefix(scheme, page) && IsTrimmed(page) && page != "" && NoFinalSlash(page)
    ensures var raw := scheme + page;
            && Core(raw) == FromWebPath(page)
            && HadScheme(Trim(raw), HTTPS) == (scheme == HTTPS) && HadScheme(Trim(raw), HTTP) == (scheme == HTTP)
  {
    StrippedSlashes(page);
    if scheme == "" {
      TrimOfTrimmed(page);
      assert scheme + page == page;
    } else {
      SchemeStripped(page, scheme == HTTPS);
    }
    assert HTTPS != HTTP && HTTPS != "" && HTTP != "" by { assert |HTTPS| == 8 && |HTTP| == 7; }
  }

  /**
   The address of a page that names the image host path:tag normalises to that image: the path in
   lower case, and a port on a bare host name when the address had a scheme.
   */
  lemma {:induction false} PageAddressReads(scheme: string, page: string, host: string, path: string, tag: string)
    requires IsPrefix(scheme, page) && IsTrimmed(page) && page != "" && NoFinalSlash(page)
    requires FromWebPath(page) == host + (path + ":" + tag) && Lacks(host, '/') && path != "" && path[0] == '/' && Lacks(tag, ':')
    ensures var bare := Lacks(host, '.') && Lacks(host, ':');
            Normalize(scheme + page) ==
            host + (if !bare then "" else if scheme == HTTPS then ":443" else if scheme == HTTP then ":80" else "")
            + (Lower(path) + ":" + tag)
  {
    var core, rest := host + (path + ":" + tag), path + ":" + tag;
    PageCore(scheme, page);
    assert Parts(core, host, rest);
    SlashResult(core, host, rest, scheme == HTTPS, scheme == HTTP);
    TaggedPath(path, tag);
    FirstSlash(core, host, rest);
    Regroup(Lower(path) + ":", tag, "");
  }

  lemma TaggedPath(path: string, tag: string)
    requires Lacks(tag, ':')
    ensures LoweredPath(path + ":" + tag) == Lower(path) + ":" + tag && TagOf(path + ":" + tag) == ""
  {
    var rest := path + ":" + tag;
    assert rest[|path|] == ':' && forall i :: |path| < i < |rest| ==> rest[i] == tag[i - |path| - 1];
    LastIndexOfIs(rest, ':', |path|);
    LoweredPathIs(rest, |path|);
    assert rest[..|path|] == path && rest[|path|..] == ":" + tag;
    Regroup(Lower(path), ":", tag);
  }

  /** The image named by the path segments below a host. */
  function Below(segs: seq<string>): string {
    "/" + Join(segs, "/")
  }

  lemma {:induction false} HostAndBelow(host: string, segs: seq<string>)
    requires segs != []
    ensures Join([host] + segs, "/") == host + Below(segs)
  {
    JoinStep(host, segs, Join(segs, "/"));
    Regroup(host, "/", Join(segs, "/"));
  }

  /** A GitLab registry page, untagged or tagged, on a host with a project path of any length. */
  lemma {:induction false} GitLabAddress(scheme: string, host: string, project: seq<string>, image: string, tag: string)
    requires AllSegments([host] + project) && AllSegments([image, tag]) && Lacks(tag, ':')
    requires var page := Join([host] + project + ["-", "packages", "container", image], "/");
             IsPrefix(scheme, page) && IsTrimmed(page) && page != "" && NoFinalSlash(page)
    requires var tagged := Join([host] + project + ["-", "packages", "container", image] + [tag], "/");
             IsPrefix(scheme, tagged) && IsTrimmed(tagged) && tagged != "" && NoFinalSlash(tagged)
    ensures var port := if !(Lacks(host, '.') && Lacks(host, ':')) then "" else if scheme == HTTPS then ":443" else if scheme == HTTP then ":80" else "";
            var page := [host] + project + ["-", "packages", "container", image];
            && Normalize(scheme + Join(page, "/")) == host + port + (Lower(Below(project + [image])) + ":" + "latest")
            && Normalize(scheme + Join(page + [tag], "/")) == host + port + (Lower(Below(project + [image])) + ":" + tag)
  {
    var page := [host] + project + ["-", "packages", "container", image];
    GitLabPageReads([host] + project, image, tag);
    PageImage([host] + project, host, project + [image], image);
    LatestSplits();
    assert ([host] + project)[0] == host;
    var named := Join([host] + project, "/") + "/" + image;
    Regroup(host, Below(project + [image]), LATEST);
    Regroup(host, Below(project + [image]), ":" + tag);
    Regroup(Below(project + [image]), ":", "latest");
    Regroup(Below(project + [image]), ":", tag);
    Regroup(named, ":", tag);
    PageAddressReads(scheme, Join(page, "/"), host, Below(project + [image]), "latest");
    PageAddressReads(scheme, Join(page + [tag], "/"), host, Below(project + [image]), tag);
  }

  lemma LatestSplits()
    ensures LATEST == ":" + "latest" && Lacks("latest", ':')
  {
  }

  lemma {:induction false} PageImage(prefix: seq<string>, host: string, below: seq<string>, image: string)
    requires prefix != [] && below != [] && prefix + [image] == [host] + below
    ensures Join(prefix, "/") + "/" + image == host + Below(below)
  {
    JoinAppend(prefix, [image], "/");
    assert Join([image], "/") == image;
    HostAndBelow(host, below);
  }

  /** A GitHub package page with a tag, or without one when the organisation is not "-". */
  lemma {:induction false} GhcrAddress(scheme: string, host: string, org: string, image: string, tag: string)
    requires AllSegments([host, org, image, tag]) && Lacks(tag, ':')
    requires var page := Join([host, "orgs", org, "packages", "container", "package", image], "/");
             IsPrefix(scheme, page) && IsTrimmed(page) && page != "" && NoFinalSlash(page)
    requires var tagged := Join([host, "orgs", org, "packages", "container", "package", image] + [tag], "/");
             IsPrefix(scheme, tagged) && IsTrimmed(tagged) && tagged != "" && NoFinalSlash(tagged)
    ensures var port := if !(Lacks(host, '.') && Lacks(host, ':')) then "" else if scheme == HTTPS then ":443" else if scheme == HTTP then ":80" else "";
            var page := [host, "orgs", org, "packages", "container", "package", image];
            && (org != "-" ==> Normalize(scheme + Join(page, "/")) == host + port + (Lower(Below([org, image])) + ":" + "latest"))
            && Normalize(scheme + Join(page + [tag], "/")) == host + port + (Lower(Below([org, image])) + ":" + tag)
  {
    var page := [host, "orgs", org, "packages", "container", "package", image];
    GhcrPageReads(host, org, image, tag);
    TwoBelow(host, org, image);
    LatestSplits();
    assert Lacks([host, org, image, tag][0], '/');
    var below := Below([org, image]);
    Regroup(host, below, LATEST);
    Regroup(host, below, ":" + tag);
    Regroup(below, ":", "latest");
    Regroup(below, ":", tag);
    if org != "-" { PageAddressReads(scheme, Join(page, "/"), host, below, "latest"); }
    PageAddressReads(scheme, Join(page + [tag], "/"), host, below, tag);
  }

  lemma {:induction false} TwoBelow(host: string, first: string, second: string)
    ensures host + "/" + first + "/" + second == host + Below([first, second])
  {
    assert Join([second], "/") == second;
    JoinStep(first, [second], second);
    assert [first] + [second] == [first, second];
    Regroup(host, "/" + first, "/" + second);
  }

  /** The untagged page of the organisation "-" becomes the image host/orgs/package, with the real image as its tag. */
  lemma {:induction false} DashOrganisationAddress(scheme: string, host: string, image: string)
    requires AllSegments([host, image]) && Lacks(image, ':')
    requires var page := Join([host, "orgs", "-", "packages", "container", "package", image], "/");
             IsPrefix(scheme, page) && IsTrimmed(page) && page != "" && NoFinalSlash(page)
    ensures var port := if !(Lacks(host, '.') && Lacks(host, ':')) then "" else if scheme == HTTPS then ":443" else if scheme == HTTP then ":80" else "";
            Normalize(scheme + Join([host, "orgs", "-", "packages", "container", "package", image], "/"))
            == host + port + (Lower(Below(["orgs", "package"])) + ":" + image)
  {
    DashOrganisationReads(host, image);
    JoinStep(host, ["orgs"], "orgs");
    assert [host] + ["orgs"] == [host, "orgs"];
    TwoBelow(host, "orgs", "package");
    assert Lacks([host, image][0], '/');
    var below := Below(["orgs", "package"]);
    Regroup(host, below, ":" + image);
    Regroup(below, ":", image);
    Regroup(host + below, ":", image);
    PageAddressReads(scheme, Join([host, "orgs", "-", "packages", "container", "package", image], "/"), host, below, image);
  }

  // ---- Untagged references behind a scheme ----

  /** A lower-case scheme before an untagged reference: dropped, with the port on a bare host, and the tag is "latest". */
  lemma {:induction false} SchemeReadsUntagged(scheme: string, host: string, path: string)
    requires Parts(host + path, host, path) && Lacks(path, ':') && (scheme == HTTPS || scheme == HTTP)
    requires Settled(host + path) && NoFinalSlash(host + path)
    ensures var bare := Lacks(host, '.') && Lacks(host, ':');
            Normalize(scheme + (host + path)) ==
            host + (if !bare then "" else if scheme == HTTPS then ":443" else ":80") + (Lower(path) + LATEST)
  {
    var core := host + path;
    assert core != "";
    PageCore(scheme, core);
    SlashResult(core, host, path, scheme == HTTPS, scheme == HTTP);
    FirstSlash(core, host, path);
    NoColon(path);
  }
}
