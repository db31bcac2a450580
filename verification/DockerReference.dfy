/** Reading a normalised reference: the registry host and the Docker Hub parser. */
module DockerReference {
  import opened Options
  import opened Text
  import opened OciReference

  datatype HubImage = HubImage(namespace: string, repository: string, tag: string)

  const DOCKER_IO := "docker.io"

  /** A first segment that can only be a registry host. */
  predicate IsExplicitHost(segment: string) {
    segment == "localhost" || !Lacks(segment, '.') || !Lacks(segment, ':')
  }

  /** None stands for the error on an empty first segment. */
  function RegistryHost(ref: string): Option<string> {
    var first := Split(ref, '/')[0];
    if first == "" then None
    else if IsExplicitHost(first) then Some(first)
    else Some(DOCKER_IO)
  }

  predicate IsHubHost(host: string) {
    Lower(host) == DOCKER_IO || Lower(host) == "index.docker.io" || Lower(host) == "registry-1.docker.io"
  }

  /** repository[:tag]; a missing tag is "latest". */
  function Repository(last: string): string {
    var sep := LastIndexOf(last, ':');
    if sep >= 0 then last[..sep] else last
  }

  function Tag(last: string): string {
    var sep := LastIndexOf(last, ':');
    if sep >= 0 then last[sep + 1..] else "latest"
  }

  /** The segments after an explicit Docker Hub host, or all of them; None on another registry. */
  function HubPath(segs: seq<string>): Option<seq<string>>
    requires segs != []
  {
    if !IsExplicitHost(segs[0]) then Some(segs)
    else if IsHubHost(segs[0]) then Some(segs[1..])
    else None
  }

  function FromPath(path: seq<string>): Option<HubImage>
    requires path != []
  {
    var last := path[|path| - 1];
    var image := HubImage(Join(path[..|path| - 1], "/"), Repository(last), Tag(last));
    if image.namespace == "" || image.repository == "" || image.tag == "" then None else Some(image)
  }

  function ParseHub(ref: string): Option<HubImage> {
    var segs := Split(StripScheme(ref), '/');
    if |segs| < 2 then None
    else match HubPath(segs) case None => None case Some(path) => FromPath(path)
  }

  /** docker.io/namespace/repository:tag */
  function PrintHub(image: HubImage): string {
    DOCKER_IO + "/" + image.namespace + "/" + image.repository + ":" + image.tag
  }

  // ---- Printing and parsing ----

  /** What the parser can return. */
  predicate IsHubImage(image: HubImage) {
    && image.namespace != "" && image.repository != "" && image.tag != ""
    && Lacks(image.repository, '/') && Lacks(image.tag, '/') && Lacks(image.tag, ':')
  }

  lemma LastSegment(repository: string, tag: string)
    requires Lacks(tag, ':')
    ensures Repository(repository + ":" + tag) == repository && Tag(repository + ":" + tag) == tag
  {
    var last := repository + ":" + tag;
    assert last == repository + [':'] + tag;
    assert last[|repository|] == ':';
    assert forall i :: |repository| < i < |last| ==> last[i] == tag[i - |repository| - 1];
    LastIndexOfIs(last, ':', |repository|);
  }

  lemma PrintedSegments(image: HubImage)
    requires Lacks(image.repository, '/') && Lacks(image.tag, '/')
    ensures Split(PrintHub(image), '/')
            == [DOCKER_IO] + (Split(image.namespace, '/') + [image.repository + ":" + image.tag])
  {
    var last := image.repository + ":" + image.tag;
    var path := image.namespace + ['/'] + last;
    assert PrintHub(image) == DOCKER_IO + ['/'] + path;
    SplitAppend(DOCKER_IO, '/', path);
    SplitAppend(image.namespace, '/', last);
    SplitWithout(DOCKER_IO, '/');
    SplitWithout(last, '/');
  }

  lemma PrintedHasNoScheme(image: HubImage)
    ensures StripScheme(PrintHub(image)) == PrintHub(image)
  {
    var printed := PrintHub(image);
    assert printed[0] == DOCKER_IO[0] && DOCKER_IO[0] == 'd';
    assert HTTPS[0] == 'h' && HTTP[0] == 'h';
    if StartsWith(printed, HTTPS) { FirstChar(printed, HTTPS); }
    if StartsWith(printed, HTTP) { FirstChar(printed, HTTP); }
  }

  lemma FirstChar(s: string, prefix: string)
    requires StartsWith(s, prefix) && prefix != ""
    ensures s[0] == prefix[0]
  {
    assert s[..|prefix|][0] == s[0];
  }

  lemma DockerIoIsHub()
    ensures IsExplicitHost(DOCKER_IO) && IsHubHost(DOCKER_IO)
  {
    assert DOCKER_IO[6] == '.';
    assert Lower(DOCKER_IO) == DOCKER_IO;
  }

  lemma ParsePrinted(image: HubImage)
    requires Lacks(image.repository, '/') && Lacks(image.tag, '/')
    ensures var last := image.repository + ":" + image.tag;
            ParseHub(PrintHub(image)) == FromPath(Split(image.namespace, '/') + [last])
    ensures var path := Split(image.namespace, '/') + [image.repository + ":" + image.tag];
            Join(path[..|path| - 1], "/") == image.namespace
  {
    var last := image.repository + ":" + image.tag;
    var ns := Split(image.namespace, '/');
    PrintedSegments(image);
    PrintedHasNoScheme(image);
    DockerIoIsHub();
    assert ([DOCKER_IO] + (ns + [last]))[1..] == ns + [last];
    assert (ns + [last])[..|ns + [last]| - 1] == ns;
    JoinSplit(image.namespace, '/');
  }

  /** Parsing a printed image gives it back exactly when it is one the parser can return. */
  lemma PrintThenParse(image: HubImage)
    ensures ParseHub(PrintHub(image)) == Some(image) <==> IsHubImage(image)
  {
    if ParseHub(PrintHub(image)) == Some(image) { ParsedIsHubImage(PrintHub(image)); }
    if IsHubImage(image) {
      ParsePrinted(image);
      LastSegment(image.repository, image.tag);
    }
  }

  lemma SliceLacks(s: string, k: nat, c: char)
    requires k <= |s| && forall i :: k <= i < |s| ==> s[i] != c
    ensures Lacks(s[k..], c)
  {
  }

  lemma TagHasNoColon(last: string)
    ensures Lacks(Tag(last), ':')
  {
    if LastIndexOf(last, ':') >= 0 { SliceLacks(last, LastIndexOf(last, ':') + 1, ':'); }
  }

  lemma SegmentParts(last: string)
    requires Lacks(last, '/')
    ensures Lacks(Repository(last), '/') && Lacks(Tag(last), '/') && Lacks(Tag(last), ':')
  {
    TagHasNoColon(last);
  }

  /** Everything the parser returns is such an image. */
  lemma ParsedIsHubImage(ref: string)
    requires ParseHub(ref).Some?
    ensures IsHubImage(ParseHub(ref).value)
  {
    var segs := Split(StripScheme(ref), '/');
    var path := HubPath(segs).value;
    assert path[|path| - 1] == segs[|segs| - 1];
    SegmentParts(segs[|segs| - 1]);
  }

  /** The last segment: everything before its last colon and after it; without a colon the tag is "latest". */
  lemma LastSegmentReads(repository: string, tag: string)
    ensures Lacks(repository, ':') ==> Repository(repository) == repository && Tag(repository) == "latest"
    ensures Lacks(tag, ':') ==> Repository(repository + ":" + tag) == repository && Tag(repository + ":" + tag) == tag
  {
    if Lacks(tag, ':') { LastSegment(repository, tag); }
  }

  /** The registry named by a reference: its first segment, when that can only be a host; else Docker Hub. */
  lemma RegistryExactly(first: string, rest: string)
    requires Lacks(first, '/')
    ensures RegistryHost(first + "/" + rest) == RegistryHost(first)
    ensures RegistryHost(first) ==
            if first == "" then None
            else if first == "localhost" || '.' in first || ':' in first then Some(first)
            else Some("docker.io")
  {
    assert first + "/" + rest == first + ['/'] + rest;
    SplitAppend(first, '/', rest);
    SplitWithout(first, '/');
  }

  /** The three names of Docker Hub, in any case of letters. */
  predicate NamesHub(host: string) {
    Lower(host) == "docker.io" || Lower(host) == "index.docker.io" || Lower(host) == "registry-1.docker.io"
  }

  lemma NoSchemeAtHost(host: string, rest: string)
    requires Lacks(host, '/') && |host| >= 8
    ensures StripScheme(host + "/" + rest) == host + "/" + rest
  {
    var ref := host + "/" + rest;
    assert HTTPS[6] == '/' && HTTP[5] == '/' && |HTTPS| == 8 && |HTTP| == 7;
    assert ref[5] == host[5] && ref[6] == host[6];
    assert ref[..8][6] != HTTPS[6] && ref[..7][5] != HTTP[5];
  }

  lemma HubNameShape(host: string)
    requires NamesHub(host)
    ensures |host| >= 9 && Lacks(host, '/') && !Lacks(host, '.')
  {
    var l := Lower(host);
    assert "docker.io"[6] == '.' && "index.docker.io"[5] == '.' && "registry-1.docker.io"[10] == '.';
    forall i | 0 <= i < |host| ensures host[i] != '/' { assert l[i] == LowerChar(host[i]) && l[i] != '/'; }
    var d := if l == "docker.io" then 6 else if l == "index.docker.io" then 5 else 10;
    assert l[d] == LowerChar(host[d]) && host[d] == '.';
  }

  /** Behind each of them the same image is read. */
  lemma {:induction false} HubHostsAgree(host: string, rest: string)
    requires NamesHub(host)
    ensures ParseHub(host + "/" + rest) == FromPath(Split(rest, '/')) == ParseHub("docker.io/" + rest)
  {
    HubNameShape(host);
    BehindHost(host, rest);
    DockerIoIsHub();
    HubNameShape(DOCKER_IO);
    BehindHost(DOCKER_IO, rest);
    SlashAfter(rest);
  }

  lemma SlashAfter(rest: string)
    ensures DOCKER_IO + "/" + rest == "docker.io/" + rest
  {
    assert DOCKER_IO + "/" == "docker.io/";
  }

  lemma {:induction false} BehindHost(host: string, rest: string)
    requires Lacks(host, '/') && |host| >= 8
    ensures Split(StripScheme(host + "/" + rest), '/') == [host] + Split(rest, '/')
    ensures !Lacks(host, '.') ==>
              ParseHub(host + "/" + rest) == if NamesHub(host) then FromPath(Split(rest, '/')) else None
  {
    NoSchemeAtHost(host, rest);
    assert host + "/" + rest == host + ['/'] + rest;
    SplitAppend(host, '/', rest);
    SplitWithout(host, '/');
    assert ([host] + Split(rest, '/'))[1..] == Split(rest, '/');
  }

  /** A first segment with a dot or a colon, or "localhost", is a registry; any other than Docker Hub is refused. */
  lemma OtherRegistryIsRefused(host: string, rest: string)
    requires Lacks(host, '/') && !NamesHub(host) && (host == "localhost" || '.' in host || ':' in host)
    requires StripScheme(host + "/" + rest) == host + "/" + rest
    ensures ParseHub(host + "/" + rest) == None
  {
    assert host + "/" + rest == host + ['/'] + rest;
    SplitAppend(host, '/', rest);
    SplitWithout(host, '/');
  }

  /** Printing a parsed image and parsing it again changes nothing. */
  lemma ParseThenPrint(ref: string)
    requires ParseHub(ref).Some?
    ensures ParseHub(PrintHub(ParseHub(ref).value)) == ParseHub(ref)
  {
    ParsedIsHubImage(ref);
    PrintThenParse(ParseHub(ref).value);
  }

  // ---- The parser and the host classifier ----

  /** The segments a Docker Hub reference has after its optional host. */
  function PathSegments(ref: string): seq<string> {
    var segs := Split(ref, '/');
    if IsExplicitHost(segs[0]) then segs[1..] else segs
  }

  /**
   On a reference with a host or namespace and a path, a parse succeeds exactly when the
   registry host is Docker Hub's and namespace, repository and tag are all there.
   */
  lemma ParseAgreesWithHost(ref: string)
    requires StripScheme(ref) == ref && !Lacks(ref, '/') && ref[0] != '/'
    ensures RegistryHost(ref).Some?
    ensures PathSegments(ref) != []
    ensures var path := PathSegments(ref);
            var last := path[|path| - 1];
            ParseHub(ref).Some? <==>
            && IsHubHost(RegistryHost(ref).value)
            && Join(path[..|path| - 1], "/") != "" && Repository(last) != "" && Tag(last) != ""
  {
    HasTwoSegments(ref);
    DockerIoIsHub();
  }

  lemma {:induction false} HasTwoSegments(ref: string)
    requires !Lacks(ref, '/')
    ensures |Split(ref, '/')| >= 2
    ensures ref[0] != '/' ==> Split(ref, '/')[0] != ""
  {
    var i := IndexOf(ref, '/');
    assert ref == ref[..i] + ['/'] + ref[i + 1..];
    SplitAppend(ref[..i], '/', ref[i + 1..]);
    SplitWithout(ref[..i], '/');
  }

  /** Defaulting to docker.io always leaves a namespace: only repository and tag can be missing. */
  lemma {:induction false} DefaultedHostParses(ref: string)
    requires StripScheme(ref) == ref && !Lacks(ref, '/') && ref[0] != '/'
    requires !IsExplicitHost(Split(ref, '/')[0])
    ensures RegistryHost(ref) == Some(DOCKER_IO)
    ensures var segs := Split(ref, '/');
            ParseHub(ref).Some? <==> Repository(segs[|segs| - 1]) != "" && Tag(segs[|segs| - 1]) != ""
  {
    var segs := Split(ref, '/');
    HasTwoSegments(ref);
    ParseAgreesWithHost(ref);
    DockerIoIsHub();
    assert segs[..|segs| - 1][0] == segs[0];
  }

  /**
   The tag the normaliser sets off with the last colon is the tag the parser reads exactly when
   no slash follows that colon.
   */
  lemma {:induction false} TagsAgree(ref: string)
    requires Canonical(ref) && ParseHub(ref).Some? && StripScheme(ref) == ref
    ensures ParseHub(ref).value.tag == ref[LastIndexOf(ref, ':') + 1..]
            <==> Lacks(ref[LastIndexOf(ref, ':') + 1..], '/')
  {
    var colon := LastIndexOf(ref, ':');
    ParsedIsHubImage(ref);
    SliceLacks(ref, colon + 1, ':');
    if Lacks(ref[colon + 1..], '/') { SlashFreeTag(ref, colon); }
  }

  lemma SlashFreeTag(ref: string, colon: nat)
    requires ParseHub(ref).Some? && StripScheme(ref) == ref
    requires colon < |ref| && ref[colon] == ':' && Lacks(ref[colon + 1..], '/') && Lacks(ref[colon + 1..], ':')
    ensures ParseHub(ref).value.tag == ref[colon + 1..]
  {
    var tag := ref[colon + 1..];
    assert ref == ref[..colon] + ":" + tag;
    LastOfSplit(ref[..colon], tag);
    var before := Split(ref[..colon], '/');
    LastSegment(before[|before| - 1], tag);
    TagOfParse(ref);
  }

  lemma {:induction false} TagOfParse(ref: string)
    requires ParseHub(ref).Some? && StripScheme(ref) == ref
    ensures var segs := Split(ref, '/'); ParseHub(ref).value.tag == Tag(segs[|segs| - 1])
  {
    var segs := Split(ref, '/');
    var path := HubPath(segs).value;
    assert path[|path| - 1] == segs[|segs| - 1];
  }

  /** Text without a slash extends the last segment. */
  lemma {:induction false} LastOfSplit(a: string, tag: string)
    requires Lacks(tag, '/')
    ensures var s, t := Split(a + ":" + tag, '/'), Split(a, '/');
            |s| == |t| && s[|s| - 1] == t[|t| - 1] + ":" + tag
  {
    if a == "" {
      assert a + ":" + tag == ":" + tag;
      SplitWithout(":" + tag, '/');
    } else {
      assert (a + ":" + tag)[1..] == a[1..] + ":" + tag;
      LastOfSplit(a[1..], tag);
      var s, t := Split(a[1..] + ":" + tag, '/'), Split(a[1..], '/');
      if a[0] != '/' {
        assert [a[0]] + (t[0] + ":" + tag) == [a[0]] + t[0] + ":" + tag;
      }
    }
  }
}
