/**
 Recreating a container from its template: stop, delete, create, restore the environment,
 start. Any request can be refused and any task can fail; and since an answer or a status report
 can be lost, a request that is not reported finished may have taken effect all the same.
 */
module Recreate {
  import opened Options
  import opened Text
  import opened EnvText
  import opened EnvConfig

  datatype Guest = Guest(name: string, running: bool, env: string)

  datatype Request = Stop | Delete | Create(hostname: string) | SetEnv(config: string) | Start

  /**
   A request gets no good answer, or it is accepted but its task is not reported finished (it fails,
   or a status report is lost), or it succeeds. In the first two cases it may have taken effect or not.
   */
  datatype Result = Rejected(took: bool) | Unreported(took: bool) | Succeeds

  predicate Took(result: Result) {
    result.Succeeds? || result.took
  }

  datatype Event =
    | Refusal(request: Request, took: bool)
    | Issued(request: Request)
    | Finished(request: Request, ok: bool, took: bool)

  /** What the detail page reads: configuration and status are fetched separately and may each fail. */
  datatype Detail = Detail(name: string, wasRunning: bool, envText: string)

  datatype Form = Form(deploymentId: string, templateId: string, password: string)

  predicate FormComplete(f: Form) {
    f.deploymentId != "" && f.templateId != "" && |f.password| >= 8
  }

  function ReadDetail(guest: Option<Guest>, configRead: bool, statusRead: bool): Option<Detail> {
    if guest.None? || (!configRead && !statusRead) then None
    else Some(Detail(guest.value.name, statusRead && guest.value.running,
                     if configRead then Decode(guest.value.env) else ""))
  }

  // ---- The intended order, and where it is cut ----

  function RestoreStep(envText: string): seq<Request> {
    if Trim(envText) == "" then [] else match Encode(envText) case Some(c) => [SetEnv(c)] case None => []
  }

  function Script(d: Detail): seq<Request> {
    (if d.wasRunning then [Stop] else []) + [Delete, Create(d.name)] + RestoreStep(d.envText)
    + if d.wasRunning then [Start] else []
  }

  function Events(r: Request, result: Result): seq<Event> {
    match result
    case Rejected(took) => [Refusal(r, took)]
    case Unreported(took) => [Issued(r), Finished(r, false, took)]
    case Succeeds => [Issued(r), Finished(r, true, true)]
  }

  /** The next request goes out only after this one is reported finished; only the environment may fail silently. */
  predicate Continues(r: Request, result: Result) {
    r.SetEnv? || result.Succeeds?
  }

  function Execute(script: seq<Request>, results: Request -> Result): seq<Event> {
    if script == [] then []
    else Events(script[0], results(script[0]))
         + if Continues(script[0], results(script[0])) then Execute(script[1..], results) else []
  }

  /** The events of one recreation. */
  function Log(f: Form, templateFound: bool, detail: Option<Detail>, results: Request -> Result): seq<Event> {
    if FormComplete(f) && templateFound && detail.Some? then Execute(Script(detail.value), results) else []
  }

  function Apply(guest: Option<Guest>, r: Request): Option<Guest> {
    match r
    case Stop => (match guest case Some(g) => Some(g.(running := false)) case None => None)
    case Delete => None
    case Create(hostname) => Some(Guest(hostname, false, ""))
    case SetEnv(config) => (match guest case Some(g) => Some(g.(env := config)) case None => None)
    case Start => (match guest case Some(g) => Some(g.(running := true)) case None => None)
  }

  function Effect(guest: Option<Guest>, e: Event): Option<Guest> {
    if e.Issued? || !e.took then guest else Apply(guest, e.request)
  }

  function Replay(guest: Option<Guest>, log: seq<Event>): Option<Guest> {
    if log == [] then guest else Effect(Replay(guest, log[..|log| - 1]), log[|log| - 1])
  }

  lemma {:induction false} ReplayAppend(guest: Option<Guest>, a: seq<Event>, b: seq<Event>)
    ensures Replay(guest, a + b) == Replay(Replay(guest, a), b)
    decreases |b|
  {
    if b == [] {
      assert a + b == a;
    } else {
      assert (a + b)[..|a + b| - 1] == a + b[..|b| - 1];
      ReplayAppend(guest, a, b[..|b| - 1]);
    }
  }

  lemma {:induction false} ReplayRequest(guest: Option<Guest>, r: Request, result: Result)
    ensures Replay(guest, Events(r, result)) == if Took(result) then Apply(guest, r) else guest
  {
    var log := Events(r, result);
    if |log| == 1 {
      assert log[..0] == [];
    } else {
      assert log[..1] == [Issued(r)] && [Issued(r)][..0] == [];
      assert Replay(guest, [Issued(r)]) == guest;
    }
  }

  // ---- Order ----

  /** The requests sent, in order. */
  function Sent(log: seq<Event>): seq<Request> {
    if log == [] then []
    else (if log[0].Finished? then [] else [log[0].request]) + Sent(log[1..])
  }

  lemma {:induction false} SentAppend(a: seq<Event>, b: seq<Event>)
    ensures Sent(a + b) == Sent(a) + Sent(b)
  {
    if a == [] {
      assert a + b == b;
    } else {
      assert (a + b)[1..] == a[1..] + b;
      SentAppend(a[1..], b);
    }
  }

  lemma SentOne(r: Request, result: Result)
    ensures Sent(Events(r, result)) == [r]
  {
    var log := Events(r, result);
    if |log| == 1 {
      assert log[1..] == [];
    } else {
      var last := [Finished(r, result.Succeeds?, Took(result))];
      assert log[1..] == last && last[1..] == [];
      assert Sent(last) == [] + Sent(last[1..]);
    }
  }

  /** The requests sent are a prefix of the intended order. */
  lemma {:induction false} SentIsPrefix(script: seq<Request>, results: Request -> Result)
    ensures Sent(Execute(script, results)) <= script
    decreases |script|
  {
    if script != [] {
      var r := script[0];
      var rest := if Continues(r, results(r)) then Execute(script[1..], results) else [];
      SentAppend(Events(r, results(r)), rest);
      SentOne(r, results(r));
      SentIsPrefix(script[1..], results);
      PrefixCons(r, Sent(rest), script[1..]);
      assert script == [r] + script[1..];
    }
  }

  lemma PrefixCons(r: Request, a: seq<Request>, b: seq<Request>)
    requires a <= b
    ensures [r] + a <= [r] + b
  {
  }

  /**
   A request goes out only when every earlier one, the environment aside, was reported finished
   before it.
   */
  lemma {:induction false} SentAfterFinished(script: seq<Request>, results: Request -> Result, i: nat, at: nat)
    requires at < |Execute(script, results)| && !Execute(script, results)[at].Finished?
    requires |Sent(Execute(script, results)[..at])| == i
    ensures i < |script| && Execute(script, results)[at].request == script[i]
    ensures forall j :: 0 <= j < i && !script[j].SetEnv? ==> Finished(script[j], true, true) in Execute(script, results)[..at]
    decreases |script|
  {
    var log := Execute(script, results);
    var r := script[0];
    var head := Events(r, results(r));
    var rest := if Continues(r, results(r)) then Execute(script[1..], results) else [];
    assert log == head + rest;
    SentOne(r, results(r));
    if at < |head| {
      assert at == 0;
      assert log[..0] == [];
    } else {
      assert log[..at] == head + rest[..at - |head|];
      SentAppend(head, rest[..at - |head|]);
      SentAfterFinished(script[1..], results, i - 1, at - |head|);
      forall j | 0 <= j < i && !script[j].SetEnv? ensures Finished(script[j], true, true) in log[..at] {
        if j == 0 {
          assert head[1] == Finished(r, true, true) && log[..at][1] == head[1];
        } else {
          var f := Finished(script[1..][j - 1], true, true);
          assert f in rest[..at - |head|];
        }
      }
    }
  }

  /** Sending a script sends its first request, and the rest when that one allows it. */
  lemma {:induction false} SentCons(r: Request, rest: seq<Request>, results: Request -> Result)
    ensures Sent(Execute([r] + rest, results)) ==
            [r] + if Continues(r, results(r)) then Sent(Execute(rest, results)) else []
  {
    assert ([r] + rest)[1..] == rest;
    var more := if Continues(r, results(r)) then Execute(rest, results) else [];
    SentAppend(Events(r, results(r)), more);
    SentOne(r, results(r));
  }

  lemma {:induction false} DeleteAfterStop(rest: seq<Request>, results: Request -> Result)
    ensures Delete in Sent(Execute([Delete] + rest, results))
    ensures Delete in Sent(Execute([Stop] + ([Delete] + rest), results)) <==> results(Stop).Succeeds?
  {
    SentCons(Delete, rest, results);
    SentCons(Stop, [Delete] + rest, results);
  }

  lemma {:induction false} DeleteSentFor(f: Form, templateFound: bool, detail: Option<Detail>, results: Request -> Result)
    ensures Delete in Sent(Log(f, templateFound, detail, results)) <==>
            && FormComplete(f) && templateFound && detail.Some?
            && (detail.value.wasRunning ==> results(Stop).Succeeds?)
  {
    if FormComplete(f) && templateFound && detail.Some? {
      var rest := ScriptAfterDelete(detail.value);
      DeleteAfterStop(rest, results);
    }
  }

  /**
   The deletion is sent exactly when the form is complete with a password of at least eight
   characters, the template exists, the container does and its configuration or its status could be
   read, and, if its status said that it runs, it was stopped.
   */
  lemma {:induction false} DeleteSentExactly(f: Form, templateFound: bool, guest: Option<Guest>, configRead: bool, statusRead: bool,
                                             results: Request -> Result)
    ensures Delete in Sent(Log(f, templateFound, ReadDetail(guest, configRead, statusRead), results)) <==>
            && f.deploymentId != "" && f.templateId != "" && |f.password| >= 8 && templateFound
            && guest.Some? && (configRead || statusRead)
            && (statusRead && guest.value.running ==> results(Stop).Succeeds?)
  {
    DeleteSentFor(f, templateFound, ReadDetail(guest, configRead, statusRead), results);
  }

  /** A container of which nothing can be read is left alone, and so is every one when the form or the template is missing. */
  lemma NothingSent(f: Form, templateFound: bool, guest: Option<Guest>, configRead: bool, statusRead: bool, results: Request -> Result)
    requires f.deploymentId == "" || f.templateId == "" || |f.password| < 8 || !templateFound
             || guest.None? || (!configRead && !statusRead)
    ensures Log(f, templateFound, ReadDetail(guest, configRead, statusRead), results) == []
  {
  }

  lemma ScriptAfterDelete(d: Detail) returns (rest: seq<Request>)
    ensures Script(d) == if d.wasRunning then [Stop] + ([Delete] + rest) else [Delete] + rest
  {
    rest := [Create(d.name)] + RestoreStep(d.envText) + if d.wasRunning then [Start] else [];
  }

  // ---- What is left of the container ----

  /** The container after a script, without the log. */
  function After(guest: Option<Guest>, script: seq<Request>, results: Request -> Result): Option<Guest>
    decreases |script|
  {
    if script == [] then guest
    else
      var r := script[0];
      var next := if Took(results(r)) then Apply(guest, r) else guest;
      if Continues(r, results(r)) then After(next, script[1..], results) else next
  }

  lemma {:induction false} ReplayExecute(guest: Option<Guest>, script: seq<Request>, results: Request -> Result)
    ensures Replay(guest, Execute(script, results)) == After(guest, script, results)
    decreases |script|
  {
    if script != [] {
      var r := script[0];
      var rest := if Continues(r, results(r)) then Execute(script[1..], results) else [];
      ReplayAppend(guest, Events(r, results(r)), rest);
      ReplayRequest(guest, r, results(r));
      if Continues(r, results(r)) { ReplayExecute(Replay(guest, Events(r, results(r))), script[1..], results); }
    }
  }

  /** The steps after creation. */
  function Tail(d: Detail): seq<Request> {
    RestoreStep(d.envText) + if d.wasRunning then [Start] else []
  }

  lemma ScriptShape(d: Detail)
    ensures Script(d) == (if d.wasRunning then [Stop] else []) + ([Delete] + ([Create(d.name)] + Tail(d)))
  {
  }

  lemma {:induction false} AfterCons(guest: Option<Guest>, r: Request, rest: seq<Request>, results: Request -> Result)
    ensures var next := if Took(results(r)) then Apply(guest, r) else guest;
            After(guest, [r] + rest, results) == if Continues(r, results(r)) then After(next, rest, results) else next
  {
    assert ([r] + rest)[1..] == rest;
  }

  /** Stop, delete and create, then the tail on the new container. */
  lemma {:induction false} AfterScript(guest: Option<Guest>, d: Detail, results: Request -> Result)
    requires guest.Some?
    ensures var g := if d.wasRunning && Took(results(Stop)) then Some(guest.value.(running := false)) else guest;
            var made := Some(Guest(d.name, false, ""));
            After(guest, Script(d), results) ==
            if d.wasRunning && !results(Stop).Succeeds? then g
            else if !results(Delete).Succeeds? then (if Took(results(Delete)) then None else g)
            else if !results(Create(d.name)).Succeeds? then (if Took(results(Create(d.name))) then made else None)
            else After(made, Tail(d), results)
  {
    ScriptShape(d);
    var g := if d.wasRunning then Some(guest.value.(running := false)) else guest;
    var rest := [Delete] + ([Create(d.name)] + Tail(d));
    AfterCons(g, Delete, [Create(d.name)] + Tail(d), results);
    AfterCons(None, Create(d.name), Tail(d), results);
    if d.wasRunning {
      AfterCons(guest, Stop, rest, results);
    } else {
      assert [] + rest == rest;
    }
  }

  /** What the tail does to the fresh container. */
  lemma {:induction false} AfterTail(name: string, d: Detail, results: Request -> Result)
    ensures var g := After(Some(Guest(name, false, "")), Tail(d), results);
            && g.Some? && g.value.name == name
            && g.value.running == (d.wasRunning && Took(results(Start)))
            && g.value.env == (match RestoreConfig(d.envText)
                               case Some(c) => if Took(results(SetEnv(c))) then c else ""
                               case None => "")
  {
    var empty := Some(Guest(name, false, ""));
    var start: seq<Request> := if d.wasRunning then [Start] else [];
    var config := RestoreConfig(d.envText);
    if config.Some? {
      AfterCons(empty, SetEnv(config.value), start, results);
      assert Tail(d) == [SetEnv(config.value)] + start;
      AfterStart(name, config.value, d.wasRunning, results);
    } else {
      assert Tail(d) == start;
    }
    AfterStart(name, "", d.wasRunning, results);
  }

  lemma {:induction false} AfterStart(name: string, env: string, wasRunning: bool, results: Request -> Result)
    ensures After(Some(Guest(name, false, env)), if wasRunning then [Start] else [], results)
            == Some(Guest(name, wasRunning && Took(results(Start)), env))
  {
    AfterCons(Some(Guest(name, false, env)), Start, [], results);
    assert [Start] + [] == [Start];
  }

  /** The configuration the restore step writes, if it writes one. */
  function RestoreConfig(envText: string): Option<string> {
    if Trim(envText) == "" then None else Encode(envText)
  }

  /**
   The container is gone exactly when its deletion took effect and no creation did: the creation is
   sent only after a deletion that is reported finished.
   */
  lemma {:induction false} LostExactly(guest: Option<Guest>, d: Detail, results: Request -> Result)
    requires guest.Some?
    ensures Replay(guest, Execute(Script(d), results)).None? <==>
            && (d.wasRunning ==> results(Stop).Succeeds?)
            && Took(results(Delete)) && !(results(Delete).Succeeds? && Took(results(Create(d.name))))
  {
    ReplayExecute(guest, Script(d), results);
    AfterScript(guest, d, results);
    AfterTail(d.name, d, results);
  }

  /** The creation is sent exactly when stop and deletion are reported finished. */
  lemma {:induction false} CreateSentExactly(d: Detail, results: Request -> Result)
    ensures Create(d.name) in Sent(Execute(Script(d), results)) <==>
            (d.wasRunning ==> results(Stop).Succeeds?) && results(Delete).Succeeds?
  {
    ScriptShape(d);
    var rest := [Delete] + ([Create(d.name)] + Tail(d));
    SentCons(Create(d.name), Tail(d), results);
    SentCons(Delete, [Create(d.name)] + Tail(d), results);
    SentCons(Stop, rest, results);
    assert [] + rest == rest;
  }

  /** The whole sequence of requests, each sent because the ones before it were reported finished. */
  lemma {:induction false} SentExactly(d: Detail, results: Request -> Result)
    ensures var stopped := d.wasRunning ==> results(Stop).Succeeds?;
            var restore := if Trim(d.envText) == "" || Encode(d.envText).None? then [] else [SetEnv(Encode(d.envText).value)];
            Sent(Execute(Script(d), results)) ==
            (if d.wasRunning then [Stop] else [])
            + if !stopped then []
              else [Delete]
                   + if !results(Delete).Succeeds? then []
                     else [Create(d.name)]
                          + if !results(Create(d.name)).Succeeds? then []
                            else restore + if d.wasRunning then [Start] else []
  {
    ScriptShape(d);
    var rest := [Delete] + ([Create(d.name)] + Tail(d));
    SentCons(Create(d.name), Tail(d), results);
    SentCons(Delete, [Create(d.name)] + Tail(d), results);
    SentCons(Stop, rest, results);
    assert [] + rest == rest;
    SentTail(d, results);
  }

  lemma {:induction false} SentTail(d: Detail, results: Request -> Result)
    ensures var restore := if Trim(d.envText) == "" || Encode(d.envText).None? then [] else [SetEnv(Encode(d.envText).value)];
            Sent(Execute(Tail(d), results)) == restore + if d.wasRunning then [Start] else []
  {
    var start: seq<Request> := if d.wasRunning then [Start] else [];
    assert [Start] + [] == [Start];
    SentCons(Start, [], results);
    if RestoreStep(d.envText) == [] {
      assert Tail(d) == start;
    } else {
      var r := RestoreStep(d.envText)[0];
      assert Tail(d) == [r] + start && RestoreStep(d.envText) == [r];
      SentCons(r, start, results);
    }
  }

  /** One lost status report of a deletion that succeeds loses the container: it is gone, and its creation is never sent. */
  lemma {:induction false} LostReportLoses(g: Guest, d: Detail, results: Request -> Result)
    requires results(Delete) == Unreported(true) && (d.wasRunning ==> results(Stop).Succeeds?)
    ensures var log := Execute(Script(d), results); Replay(Some(g), log).None? && Create(d.name) !in Sent(log)
  {
    LostExactly(Some(g), d, results);
    CreateSentExactly(d, results);
  }

  // ---- What a full success keeps ----

  ghost predicate AllSucceed(d: Detail, results: Request -> Result) {
    forall i :: 0 <= i < |Script(d)| ==> results(Script(d)[i]).Succeeds?
  }

  lemma {:induction false} SuccessOf(d: Detail, results: Request -> Result)
    requires AllSucceed(d, results)
    ensures d.wasRunning ==> results(Stop).Succeeds? && results(Start).Succeeds?
    ensures results(Delete).Succeeds? && results(Create(d.name)).Succeeds?
    ensures RestoreConfig(d.envText).Some? ==> results(SetEnv(RestoreConfig(d.envText).value)).Succeeds?
  {
    var k := if d.wasRunning then 1 else 0;
    var script := Script(d);
    assert d.wasRunning ==> script[0] == Stop && script[|script| - 1] == Start;
    assert script[k] == Delete && script[k + 1] == Create(d.name);
    assert RestoreConfig(d.envText).Some? ==> script[k + 2] == SetEnv(RestoreConfig(d.envText).value);
  }

  lemma PrintedNotBlank(es: seq<Entry>)
    ensures Trim(Print(es)) == "" <==> es == []
  {
    TrimBlank(Print(es));
    if es != [] {
      var k := |es[0].key|;
      assert Line(es[0])[k] == '=';
      assert Print(es)[..|Line(es[0])|] == Line(es[0]);
      assert Print(es)[k] == '=';
    }
  }

  /** Writing back what was read restores the stored entries exactly when there are none or all are portable. */
  lemma {:induction false} RestoreExactly(config: string)
    ensures var c := match RestoreConfig(Decode(config)) case Some(c) => c case None => "";
            Stored(c) == Stored(config) <==> Stored(config) == [] || AllPortable(Stored(config))
  {
    PrintedNotBlank(Stored(config));
    ReadThenWrite(config);
  }

  /**
   When every step succeeds, the container has its old name; it runs as before exactly when its
   status could be read or it was stopped; and its environment is the old one exactly when there
   was none, or it could be read and every entry has a word key and a one-line value.
   */
  lemma {:induction false} SuccessKeeps(g: Guest, configRead: bool, statusRead: bool, results: Request -> Result)
    requires configRead || statusRead
    requires AllSucceed(ReadDetail(Some(g), configRead, statusRead).value, results)
    ensures var d := ReadDetail(Some(g), configRead, statusRead).value;
            var after := Replay(Some(g), Execute(Script(d), results));
            && after.Some? && after.value.name == g.name
            && (after.value.running == g.running <==> statusRead || !g.running)
            && (Stored(after.value.env) == Stored(g.env) <==>
                  Stored(g.env) == [] || (configRead && AllPortable(Stored(g.env))))
  {
    var d := ReadDetail(Some(g), configRead, statusRead).value;
    SuccessOf(d, results);
    ReplayExecute(Some(g), Script(d), results);
    AfterScript(Some(g), d, results);
    AfterTail(d.name, d, results);
    RestoreExactly(g.env);
    TrimBlank("");
  }

  // ---- The action ----

  class Host {
    var guest: Option<Guest>
    var log: seq<Event>

    /** The log has grown by events, and the container is what they leave. */
    twostate predicate Did(events: seq<Event>)
      reads this
    {
      log == old(log) + events && guest == Replay(old(guest), events)
    }

    /** One request and, when it is accepted, its task. */
    method Send(r: Request, result: Result) returns (ok: bool)
      modifies this
      ensures Did(Events(r, result)) && ok == result.Succeeds?
    {
      ReplayRequest(guest, r, result);
      ok := false;
      match result {
        case Rejected(took) =>
          log := log + [Refusal(r, took)];
        case Unreported(took) =>
          log := log + [Issued(r), Finished(r, false, took)];
        case Succeeds =>
          log := log + [Issued(r), Finished(r, true, true)];
          ok := true;
      }
      if Took(result) { guest := Apply(guest, r); }
    }

    /** Restores the environment if there is one to write; a failure is only logged. */
    method Restore(envText: string, results: Request -> Result)
      modifies this
      ensures Did(Execute(RestoreStep(envText), results))
    {
      assert log + [] == log;
      if Trim(envText) != "" {
        var config := Encode(envText);
        if config.Some? {
          ExecuteOne(SetEnv(config.value), results);
          var _ := Send(SetEnv(config.value), results(SetEnv(config.value)));
        }
      }
    }

    /** Everything after the deletion. */
    method CreateAndRestore(d: Detail, results: Request -> Result)
      modifies this
      ensures Did(Created(d, results))
    {
      var ok := Send(Create(d.name), results(Create(d.name)));
      label Sent:
      ghost var first := Events(Create(d.name), results(Create(d.name)));
      assert first + [] == first;
      if !ok { return; }
      Restore(d.envText, results);
      ghost var second := Execute(RestoreStep(d.envText), results);
      Compose(old(log), old(guest), first, second);
      assert second + [] == second;
      if d.wasRunning {
        ghost var third := Events(Start, results(Start));
        ok := Send(Start, results(Start));
        Compose(old(log), old(guest), first + second, third);
        assert first + second + third == first + (second + third);
      }
    }

    method StopAndDelete(d: Detail, results: Request -> Result) returns (ok: bool)
      modifies this
      ensures ok <==> (d.wasRunning ==> results(Stop).Succeeds?) && results(Delete).Succeeds?
      ensures Did(Removed(d, results))
    {
      ok := true;
      assert [] + Events(Delete, results(Delete)) == Events(Delete, results(Delete));
      if d.wasRunning {
        ok := Send(Stop, results(Stop));
        assert Events(Stop, results(Stop)) + [] == Events(Stop, results(Stop));
      }
      if ok {
        ghost var first := if d.wasRunning then Events(Stop, results(Stop)) else [];
        Compose(old(log), old(guest), first, Events(Delete, results(Delete)));
        ok := Send(Delete, results(Delete));
      }
    }

    method RecreateFromTemplate(f: Form, templateFound: bool, configRead: bool, statusRead: bool, results: Request -> Result)
      modifies this
      ensures Did(Log(f, templateFound, ReadDetail(old(guest), configRead, statusRead), results))
    {
      assert log + [] == log;
      if f.deploymentId == "" || f.templateId == "" || f.password == "" || |f.password| < 8 || !templateFound {
        return;
      }
      var detail := ReadDetail(guest, configRead, statusRead);
      if detail.None? {
        return;
      }
      ghost var removed := Removed(detail.value, results);
      assert removed + [] == removed;
      ExecuteScript(detail.value, results);
      var ok := StopAndDelete(detail.value, results);
      if ok {
        CreateAndRestore(detail.value, results);
        Compose(old(log), old(guest), removed, Created(detail.value, results));
      }
    }
  }

  lemma {:induction false} Compose(log: seq<Event>, guest: Option<Guest>, a: seq<Event>, b: seq<Event>)
    ensures (log + a) + b == log + (a + b)
    ensures Replay(Replay(guest, a), b) == Replay(guest, a + b)
  {
    Associate(log, a, b);
    ReplayAppend(guest, a, b);
  }

  lemma {:induction false} Associate(log: seq<Event>, a: seq<Event>, b: seq<Event>)
    ensures (log + a) + b == log + (a + b)
  {
  }

  lemma {:induction false} ExecuteOne(r: Request, results: Request -> Result)
    ensures Execute([r], results) == Events(r, results(r))
  {
    ExecuteCons(r, [], results);
    assert [r] + [] == [r];
  }

  /** The events up to the deletion. */
  function Removed(d: Detail, results: Request -> Result): seq<Event> {
    (if d.wasRunning then Events(Stop, results(Stop)) else [])
    + if d.wasRunning ==> results(Stop).Succeeds? then Events(Delete, results(Delete)) else []
  }

  /** The events from the creation on. */
  function Created(d: Detail, results: Request -> Result): seq<Event> {
    Events(Create(d.name), results(Create(d.name)))
    + if results(Create(d.name)).Succeeds? then
        Execute(RestoreStep(d.envText), results) + if d.wasRunning then Events(Start, results(Start)) else []
      else []
  }

  /** The events of a script, one request after another. */
  lemma {:induction false} ExecuteScript(d: Detail, results: Request -> Result)
    ensures Execute(Script(d), results) ==
            Removed(d, results)
            + if (d.wasRunning ==> results(Stop).Succeeds?) && results(Delete).Succeeds? then Created(d, results) else []
  {
    ScriptShape(d);
    ExecuteFromDelete(d, results);
    var rest := [Delete] + ([Create(d.name)] + Tail(d));
    if d.wasRunning {
      ExecuteCons(Stop, rest, results);
      Associate(Events(Stop, results(Stop)), Events(Delete, results(Delete)), Created(d, results));
      if results(Stop).Succeeds? && !results(Delete).Succeeds? {
        assert Events(Delete, results(Delete)) + [] == Events(Delete, results(Delete));
      }
    } else {
      assert [] + rest == rest;
      assert Removed(d, results) == Events(Delete, results(Delete));
    }
  }

  lemma {:induction false} ExecuteFromDelete(d: Detail, results: Request -> Result)
    ensures Execute([Delete] + ([Create(d.name)] + Tail(d)), results) ==
            Events(Delete, results(Delete)) + if results(Delete).Succeeds? then Created(d, results) else []
  {
    ExecuteTail(d, results);
    ExecuteCons(Create(d.name), Tail(d), results);
    ExecuteCons(Delete, [Create(d.name)] + Tail(d), results);
  }

  lemma {:induction false} ExecuteCons(r: Request, rest: seq<Request>, results: Request -> Result)
    ensures Execute([r] + rest, results) ==
            Events(r, results(r)) + if Continues(r, results(r)) then Execute(rest, results) else []
  {
    assert ([r] + rest)[1..] == rest;
  }

  lemma {:induction false} ExecuteTail(d: Detail, results: Request -> Result)
    ensures Execute(Tail(d), results) ==
            Execute(RestoreStep(d.envText), results) + if d.wasRunning then Events(Start, results(Start)) else []
  {
    var start: seq<Request> := if d.wasRunning then [Start] else [];
    var log := if d.wasRunning then Events(Start, results(Start)) else [];
    ExecuteCons(Start, [], results);
    assert [Start] + [] == [Start];
    assert Execute(start, results) == log;
    if RestoreStep(d.envText) == [] {
      assert Tail(d) == start;
    } else {
      var r := RestoreStep(d.envText)[0];
      ExecuteCons(r, start, results);
      ExecuteCons(r, [], results);
      assert [r] + [] == [r] && RestoreStep(d.envText) == [r];
    }
  }
}
