// The message router of app_framework.cpp: a main queue, whose messages are
// distributed to the queues of the listed applications.

module AppFramework {
  import Bytes

  const APP_NAME_LEN: nat := 32
  const APP_MSG_TO_ALL: string := "[all]"
  const APP_MAIN_NAME: string := "main"

  /** A name as it fits a name field, its terminator included: its longest
      beginning of at most 31 characters. */
  function Name(s: string): (n: string)
    ensures n <= s && |n| <= 31 && (|n| < 31 ==> n == s)
  {
    if |s| < APP_NAME_LEN then s else s[..APP_NAME_LEN - 1]
  }

  datatype Msg = Msg(from: string, to: string, event: nat, data: seq<int>)

  /** An application: the messages it was given and has not taken yet, those
      it has taken, and the events it has callbacks for. */
  datatype App = App(name: string, queue: seq<Msg>, processed: seq<Msg>, events: seq<nat>)

  datatype Errno = Ok | InvalidParams | MainNotExist | NoMsg

  /** Whether a message is for the application of a name. */
  predicate Addressed(m: Msg, name: string) {
    if m.to == APP_MSG_TO_ALL then m.from != name else m.to == name
  }

  function Given(a: App, m: Msg): App {
    a.(queue := a.queue + [m])
  }

  /** Distribution: to all but the sender, or to the first of that name. */
  function Delivered(apps: seq<App>, m: Msg): seq<App> {
    if apps == [] then []
    else if m.to == APP_MSG_TO_ALL then
      [if m.from != apps[0].name then Given(apps[0], m) else apps[0]] + Delivered(apps[1..], m)
    else if m.to == apps[0].name then [Given(apps[0], m)] + apps[1..]
    else [apps[0]] + Delivered(apps[1..], m)
  }

  predicate Distinct(apps: seq<App>) {
    forall i, j :: 0 <= i < j < |apps| ==> apps[i].name != apps[j].name
  }

  /** With distinct names, exactly the addressed applications are given it. */
  lemma {:induction false} DeliveredTo(apps: seq<App>, m: Msg)
    requires Distinct(apps)
    ensures |Delivered(apps, m)| == |apps|
    ensures forall i :: 0 <= i < |apps| ==>
      var given := if m.to == "[all]" then apps[i].name != m.from else apps[i].name == m.to;
      Addressed(m, apps[i].name) == given && Delivered(apps, m)[i] == if given then Given(apps[i], m) else apps[i]
  {
    if apps != [] {
      DeliveredTo(apps[1..], m);
      var d, rest := Delivered(apps, m), Delivered(apps[1..], m);
      assert forall i :: 1 <= i < |apps| ==> apps[1..][i - 1] == apps[i];
      if m.to == APP_MSG_TO_ALL || m.to != apps[0].name {
        assert d[1..] == rest;
        assert forall i :: 1 <= i < |apps| ==> d[i] == rest[i - 1];
      }
    }
  }

  /** The event an application's callbacks are looked up by. */
  function EventBase(event: nat): nat {
    event - event % 256
  }

  const APP_EVENT_BASE_STEP: nat := 0x100

  /** The 256 events of one base, and no others, share their callbacks. */
  lemma SameBase(a: nat, b: nat)
    ensures EventBase(a) == EventBase(b) <==> a / APP_EVENT_BASE_STEP == b / APP_EVENT_BASE_STEP
    ensures EventBase(a) % APP_EVENT_BASE_STEP == 0 && EventBase(a) <= a < EventBase(a) + APP_EVENT_BASE_STEP
  {
  }

  // The framework, step by step.

  datatype State = State(main: seq<Msg>, apps: seq<App>)

  datatype Event = Send(msg: Msg) | Distribute | Join(name: string) | Leave(i: nat) | Process(i: nat)

  predicate Listed(apps: seq<App>, name: string) {
    exists i :: 0 <= i < |apps| && apps[i].name == name
  }

  /** Names are distinct and not that of the main application. */
  predicate Enabled(s: State, e: Event) {
    match e
    case Send(_) => true
    case Distribute => s.main != []
    case Join(name) => name != "" && name != APP_MAIN_NAME && !Listed(s.apps, Name(name))
    case Leave(i) => i < |s.apps|
    case Process(i) => i < |s.apps| && s.apps[i].queue != []
  }

  function NewApp(name: string): App {
    App(Name(name), [], [], [])
  }

  function Removed(apps: seq<App>, i: nat): seq<App>
    requires i < |apps|
  {
    apps[..i] + apps[i + 1..]
  }

  /** An application takes its oldest message. */
  function Advanced(a: App): App
    requires a.queue != []
  {
    a.(queue := a.queue[1..], processed := a.processed + [a.queue[0]])
  }

  function Next(s: State, e: Event): State
    requires Enabled(s, e)
  {
    match e
    case Send(m) => s.(main := s.main + [m])
    case Distribute => State(s.main[1..], Delivered(s.apps, s.main[0]))
    case Join(name) => s.(apps := [NewApp(name)] + s.apps)
    case Leave(i) => s.(apps := Removed(s.apps, i))
    case Process(i) => s.(apps := s.apps[i := Advanced(s.apps[i])])
  }

  // What happened, and what each application should have been given.

  datatype Entry = Joined(name: string) | Left(name: string) | Routed(msg: Msg)

  function EntryOf(s: State, e: Event): seq<Entry>
    requires Enabled(s, e)
  {
    match e
    case Distribute => [Routed(s.main[0])]
    case Join(name) => [Joined(Name(name))]
    case Leave(i) => [Left(s.apps[i].name)]
    case _ => []
  }

  function Init<T>(s: seq<T>): seq<T>
    requires s != []
  {
    s[..|s| - 1]
  }

  function LastOf<T>(s: seq<T>): T
    requires s != []
  {
    s[|s| - 1]
  }

  /** Whether the application of a name is listed after h. */
  predicate Member(h: seq<Entry>, name: string) {
    h != [] &&
    match LastOf(h)
    case Joined(n) => n == name || Member(Init(h), name)
    case Left(n) => n != name && Member(Init(h), name)
    case Routed(_) => Member(Init(h), name)
  }

  /** The messages routed to a name since its application was listed. */
  function Expected(h: seq<Entry>, name: string): seq<Msg> {
    if h == [] then []
    else match LastOf(h)
      case Joined(n) => if n == name then [] else Expected(Init(h), name)
      case Left(n) => if n == name then [] else Expected(Init(h), name)
      case Routed(m) => Expected(Init(h), name) + (if Member(Init(h), name) && Addressed(m, name) then [m] else [])
  }

  /** All messages distributed, in order. */
  function AllRouted(h: seq<Entry>): seq<Msg> {
    if h == [] then [] else AllRouted(Init(h)) + (if LastOf(h).Routed? then [LastOf(h).msg] else [])
  }

  predicate Subsequence(a: seq<Msg>, b: seq<Msg>) {
    a == [] || (b != [] && (Subsequence(a, Init(b)) || (LastOf(a) == LastOf(b) && Subsequence(Init(a), Init(b)))))
  }

  lemma {:induction false} SubsequenceMore(a: seq<Msg>, b: seq<Msg>, x: seq<Msg>)
    requires Subsequence(a, b) && |x| <= 1
    ensures Subsequence(a, b + x) && Subsequence(a + x, b + x)
  {
    if x == [] {
      assert a + x == a && b + x == b;
    } else {
      assert Init(b + x) == b && LastOf(b + x) == x[0];
      assert Init(a + x) == a && LastOf(a + x) == x[0];
    }
  }

  /** In order, and each at most once. */
  lemma {:induction false} ExpectedInOrder(h: seq<Entry>, name: string)
    ensures Subsequence(Expected(h, name), AllRouted(h))
  {
    if h != [] {
      ExpectedInOrder(Init(h), name);
      var e, all := Expected(Init(h), name), AllRouted(Init(h));
      match LastOf(h)
      case Joined(n) => assert all + [] == all;
      case Left(n) => assert all + [] == all;
      case Routed(m) =>
        SubsequenceMore(e, all, [m]);
        assert e + [] == e;
    }
  }

  /** Every application has taken, or still holds in order, just the messages
      it should have been given, and none of those sent is lost on the way. */
  ghost predicate Routing(s: State, h: seq<Entry>, sent: seq<Msg>) {
    && Distinct(s.apps)
    && AllRouted(h) + s.main == sent
    && (forall name :: Member(h, name) <==> Listed(s.apps, name))
    && (forall i :: 0 <= i < |s.apps| ==> s.apps[i].processed + s.apps[i].queue == Expected(h, s.apps[i].name))
  }

  lemma Entered(h: seq<Entry>, e: Entry)
    ensures Init(h + [e]) == h && LastOf(h + [e]) == e
  {
  }

  lemma SendKeeps(s: State, m: Msg, h: seq<Entry>, sent: seq<Msg>)
    requires Routing(s, h, sent)
    ensures Routing(Next(s, Send(m)), h, sent + [m])
  {
    assert AllRouted(h) + (s.main + [m]) == AllRouted(h) + s.main + [m];
    hide AllRouted, Member, Listed, Expected, Distinct;
  }

  lemma RoutedEntry(h: seq<Entry>, m: Msg, name: string)
    ensures Member(h + [Routed(m)], name) == Member(h, name)
    ensures AllRouted(h + [Routed(m)]) == AllRouted(h) + [m]
    ensures Member(h, name) ==>
        Expected(h + [Routed(m)], name) == Expected(h, name) + (if Addressed(m, name) then [m] else [])
  {
    Entered(h, Routed(m));
  }

  /** One application's share of a distribution. */
  lemma RoutedTo(a: App, m: Msg, h: seq<Entry>)
    requires Member(h, a.name) && a.processed + a.queue == Expected(h, a.name)
    ensures var b := if Addressed(m, a.name) then Given(a, m) else a;
            b.processed + b.queue == Expected(h + [Routed(m)], a.name)
  {
    RoutedEntry(h, m, a.name);
    hide Member, Expected, Addressed;
    assert a.processed + a.queue + [m] == a.processed + (a.queue + [m]);
    assert a.processed + a.queue + [] == a.processed + a.queue;
  }

  lemma DistributeKeeps(s: State, h: seq<Entry>, sent: seq<Msg>)
    requires Routing(s, h, sent) && s.main != []
    ensures Routing(Next(s, Distribute), h + [Routed(s.main[0])], sent)
  {
    var m, t := s.main[0], Next(s, Distribute);
    var h' := h + [Routed(m)];
    DeliveredTo(s.apps, m);
    assert s.main == [m] + s.main[1..];
    hide Delivered, AllRouted, Member, Listed, Expected, Addressed;
    RoutedEntry(h, m, "");
    forall name
      ensures Member(h', name) <==> Listed(t.apps, name)
    {
      RoutedEntry(h, m, name);
      SameListed(s.apps, t.apps, name);
    }
    forall i | 0 <= i < |t.apps|
      ensures t.apps[i].processed + t.apps[i].queue == Expected(h', t.apps[i].name)
    {
      ListedAt(s.apps, i);
      RoutedTo(s.apps[i], m, h);
    }
  }

  lemma ListedAt(apps: seq<App>, i: nat)
    ensures i < |apps| ==> Listed(apps, apps[i].name)
  {
  }

  lemma SameListed(a: seq<App>, b: seq<App>, name: string)
    requires |a| == |b| && forall i :: 0 <= i < |a| ==> a[i].name == b[i].name
    ensures Listed(a, name) == Listed(b, name)
  {
    if Listed(a, name) {
      var i :| 0 <= i < |a| && a[i].name == name;
      assert b[i].name == name;
    }
    if Listed(b, name) {
      var i :| 0 <= i < |b| && b[i].name == name;
      assert a[i].name == name;
    }
  }

  lemma JoinKeeps(s: State, name: string, h: seq<Entry>, sent: seq<Msg>)
    requires Routing(s, h, sent) && Enabled(s, Join(name))
    ensures Routing(Next(s, Join(name)), h + [Joined(Name(name))], sent)
  {
    var n, t := Name(name), Next(s, Join(name));
    var h' := h + [Joined(n)];
    Entered(h, Joined(n));
    assert AllRouted(h') == AllRouted(h) by { assert AllRouted(h) + [] == AllRouted(h); }
    assert t.apps[0] == NewApp(name) && t.apps[1..] == s.apps;
    forall x
      ensures Member(h', x) <==> Listed(t.apps, x)
    {
      ListedFirst(NewApp(name), s.apps, x);
    }
    forall i | 0 <= i < |t.apps|
      ensures t.apps[i].processed + t.apps[i].queue == Expected(h', t.apps[i].name)
    {
      if i > 0 {
        assert t.apps[i] == s.apps[i - 1];
        assert Listed(s.apps, t.apps[i].name);
      }
    }
    forall i, j | 0 <= i < j < |t.apps|
      ensures t.apps[i].name != t.apps[j].name
    {
      assert t.apps[j] == s.apps[j - 1];
      assert Listed(s.apps, t.apps[j].name);
      if i > 0 { assert t.apps[i] == s.apps[i - 1]; }
    }
    hide AllRouted, Member, Listed, Expected;
  }

  lemma ListedFirst(a: App, apps: seq<App>, name: string)
    ensures Listed([a] + apps, name) <==> a.name == name || Listed(apps, name)
  {
    var all := [a] + apps;
    if Listed(all, name) {
      var i :| 0 <= i < |all| && all[i].name == name;
      if i > 0 { assert apps[i - 1].name == name; }
    }
    if a.name == name { assert all[0].name == name; }
    if Listed(apps, name) {
      var i :| 0 <= i < |apps| && apps[i].name == name;
      assert all[i + 1].name == name;
    }
  }

  lemma LeaveKeeps(s: State, i: nat, h: seq<Entry>, sent: seq<Msg>)
    requires Routing(s, h, sent) && i < |s.apps|
    ensures Routing(Next(s, Leave(i)), h + [Left(s.apps[i].name)], sent)
  {
    var n, t := s.apps[i].name, Next(s, Leave(i));
    var h' := h + [Left(n)];
    Entered(h, Left(n));
    assert AllRouted(h') == AllRouted(h) by { assert AllRouted(h) + [] == AllRouted(h); }
    forall x
      ensures Member(h', x) <==> Listed(t.apps, x)
    {
      ListedRemoved(s.apps, i, x);
    }
    forall k | 0 <= k < |t.apps|
      ensures t.apps[k].processed + t.apps[k].queue == Expected(h', t.apps[k].name)
    {
      assert t.apps[k] == s.apps[if k < i then k else k + 1];
    }
    hide AllRouted, Member, Listed, Expected;
  }

  lemma ListedRemoved(apps: seq<App>, i: nat, name: string)
    requires Distinct(apps) && i < |apps|
    ensures Listed(Removed(apps, i), name) <==> name != apps[i].name && Listed(apps, name)
  {
    var t := Removed(apps, i);
    if Listed(t, name) {
      var k :| 0 <= k < |t| && t[k].name == name;
      assert apps[if k < i then k else k + 1].name == name;
    }
    if name != apps[i].name && Listed(apps, name) {
      var k :| 0 <= k < |apps| && apps[k].name == name;
      assert t[if k < i then k else k - 1].name == name;
    }
  }

  lemma ProcessKeeps(s: State, i: nat, h: seq<Entry>, sent: seq<Msg>)
    requires Routing(s, h, sent) && Enabled(s, Process(i))
    ensures Routing(Next(s, Process(i)), h, sent)
  {
    var a, t := s.apps[i], Next(s, Process(i));
    assert a.queue == [a.queue[0]] + a.queue[1..];
    assert a.processed + [a.queue[0]] + a.queue[1..] == a.processed + a.queue;
    forall x
      ensures Listed(t.apps, x) <==> Listed(s.apps, x)
    {
      SameListed(s.apps, t.apps, x);
    }
    hide AllRouted, Member, Listed, Expected;
  }

  lemma StepKeepsRouting(s: State, e: Event, h: seq<Entry>, sent: seq<Msg>)
    requires Routing(s, h, sent) && Enabled(s, e)
    ensures Routing(Next(s, e), h + EntryOf(s, e), if e.Send? then sent + [e.msg] else sent)
  {
    assert h + [] == h;
    match e
    case Send(m) => SendKeeps(s, m, h, sent);
    case Distribute => DistributeKeeps(s, h, sent);
    case Join(name) => JoinKeeps(s, name, h, sent);
    case Leave(i) => LeaveKeeps(s, i, h, sent);
    case Process(i) => ProcessKeeps(s, i, h, sent);
    hide Routing;
  }

  // Every run.

  predicate Runs(s: State, es: seq<Event>)
    decreases |es|
  {
    es == [] || (Enabled(s, es[0]) && Runs(Next(s, es[0]), es[1..]))
  }

  function After(s: State, es: seq<Event>): State
    requires Runs(s, es)
    decreases |es|
  {
    if es == [] then s else After(Next(s, es[0]), es[1..])
  }

  function History(s: State, es: seq<Event>): seq<Entry>
    requires Runs(s, es)
    decreases |es|
  {
    if es == [] then [] else EntryOf(s, es[0]) + History(Next(s, es[0]), es[1..])
  }

  function SentIn(es: seq<Event>): seq<Msg> {
    if es == [] then [] else (if es[0].Send? then [es[0].msg] else []) + SentIn(es[1..])
  }

  lemma {:induction false} RunKeepsRouting(s: State, es: seq<Event>, h: seq<Entry>, sent: seq<Msg>)
    requires Routing(s, h, sent) && Runs(s, es)
    ensures Routing(After(s, es), h + History(s, es), sent + SentIn(es))
    decreases |es|
  {
    hide Routing, Enabled, Next, EntryOf;
    if es == [] {
      assert h + [] == h && sent + [] == sent;
    } else {
      var e := es[0];
      StepKeepsRouting(s, e, h, sent);
      var more := if e.Send? then [e.msg] else [];
      assert sent + [] == sent;
      RunKeepsRouting(Next(s, e), es[1..], h + EntryOf(s, e), sent + more);
      Bytes.Assoc(h, EntryOf(s, e), History(Next(s, e), es[1..]));
      Bytes.Assoc(sent, more, SentIn(es[1..]));
    }
  }

  /** In every run from an empty framework: nothing sent is lost before it is
      distributed, and an application's messages taken, then those queued, are
      in order those distributed while it was listed that named it or came to
      all from another. */
  lemma RoutingOverRuns(es: seq<Event>, i: nat)
    requires Runs(State([], []), es)
    ensures var s, h := After(State([], []), es), History(State([], []), es);
            && AllRouted(h) + s.main == SentIn(es)
            && (i < |s.apps| ==>
                  && Member(h, s.apps[i].name)
                  && s.apps[i].processed + s.apps[i].queue == Expected(h, s.apps[i].name)
                  && Subsequence(s.apps[i].processed + s.apps[i].queue, AllRouted(h)))
  {
    var s0 := State([], []);
    assert Routing(s0, [], []) by { assert [] + s0.main == []; }
    RunKeepsRouting(s0, es, [], []);
    var s, h := After(s0, es), History(s0, es);
    assert [] + h == h && [] + SentIn(es) == SentIn(es);
    hide After, History, SentIn, AllRouted, Expected, Member, Subsequence, Runs;
    if i < |s.apps| {
      assert Listed(s.apps, s.apps[i].name);
      ExpectedInOrder(h, s.apps[i].name);
    }
  }

  /** Without distinct names a named message goes to the application listed
      last only; others of the name never get one. */
  lemma {:induction false} FirstOfName(apps: seq<App>, m: Msg, i: nat)
    requires m.to != APP_MSG_TO_ALL && i < |apps|
    ensures |Delivered(apps, m)| == |apps|
    ensures Delivered(apps, m)[i] ==
      if apps[i].name == m.to && (forall j :: 0 <= j < i ==> apps[j].name != m.to) then Given(apps[i], m) else apps[i]
  {
    if m.to == apps[0].name {
      assert apps[0].name == m.to;
    } else if |apps| == 1 {
      assert apps[1..] == [];
    } else {
      var k := if i > 0 then i - 1 else 0;
      FirstOfName(apps[1..], m, k);
      assert forall j :: 1 <= j < |apps| ==> apps[j] == apps[1..][j - 1];
    }
  }

  // The code.

  class Framework {
    var mainExists: bool
    var mainQueue: seq<Msg>
    var apps: seq<App>

    constructor ()
      ensures !mainExists && mainQueue == [] && apps == []
    {
      mainExists, mainQueue, apps := false, [], [];
    }

    ghost function View(): State
      reads this
    {
      State(mainQueue, apps)
    }

    /** Creates the main application once, any other at the head of the list. */
    method AppNew(name: string) returns (created: bool)
      modifies this
      ensures created <==> name != "" && (name == APP_MAIN_NAME || old(mainExists))
      ensures mainExists == (old(mainExists) || name == APP_MAIN_NAME)
      ensures View() ==
        if created && name != APP_MAIN_NAME then State(old(mainQueue), [NewApp(name)] + old(apps))
        else if created && !old(mainExists) then State([], [])
        else old(View())
    {
      if |name| == 0 { return false; }
      if name == APP_MAIN_NAME {
        if !mainExists {
          mainExists, mainQueue, apps := true, [], [];
        }
        return true;
      }
      if !mainExists { return false; }
      apps := [NewApp(name)] + apps;
      created := true;
    }

    method AppDelete(i: nat) returns (err: Errno)
      requires i < |apps|
      modifies this
      ensures mainExists == old(mainExists)
      ensures if old(mainExists) then err == Ok && View() == Next(old(View()), Leave(i))
              else err == InvalidParams && View() == old(View())
    {
      if !mainExists { return InvalidParams; }
      apps := apps[..i] + apps[i + 1..];
      err := Ok;
    }

    method SendMessage(from: string, to: string, event: nat, data: seq<int>) returns (err: Errno)
      modifies this
      ensures mainExists == old(mainExists)
      ensures if old(mainExists)
              then err == Ok && View() == Next(old(View()), Send(Msg(Name(from), Name(to), event, data)))
              else err == MainNotExist && View() == old(View())
    {
      if !mainExists { return MainNotExist; }
      mainQueue := mainQueue + [Msg(Name(from), Name(to), event, data)];
      err := Ok;
    }

    /** One round of the main application's dispatch. */
    method DistributeOne() returns (err: Errno)
      modifies this
      ensures mainExists == old(mainExists)
      ensures if old(mainQueue) == [] then err == NoMsg && View() == old(View())
              else err == Ok && View() == Next(old(View()), Distribute)
    {
      if mainQueue == [] { return NoMsg; }
      var m := mainQueue[0];
      mainQueue := mainQueue[1..];
      if m.to == APP_MSG_TO_ALL { GiveAll(m); } else { GiveNamed(m); }
      err := Ok;
    }

    method GiveAll(m: Msg)
      requires m.to == APP_MSG_TO_ALL
      modifies this`apps
      ensures apps == Delivered(old(apps), m)
    {
      ghost var apps0 := apps;
      var k := 0;
      while k < |apps|
        invariant k <= |apps| == |apps0| && apps[k..] == apps0[k..]
        invariant apps[..k] + Delivered(apps0[k..], m) == Delivered(apps0, m)
      {
        GivenStep(apps0, apps, k, m);
        hide Delivered;
        if apps[k].name != m.from {
          apps := apps[k := Given(apps[k], m)];
        }
        k := k + 1;
      }
    }

    method GiveNamed(m: Msg)
      requires m.to != APP_MSG_TO_ALL
      modifies this`apps
      ensures apps == Delivered(old(apps), m)
    {
      var k := 0;
      while k < |apps|
        invariant k <= |apps| && apps == old(apps)
        invariant apps[..k] + Delivered(apps[k..], m) == Delivered(apps, m)
      {
        PassedStep(apps, k, m);
        hide Delivered;
        if m.to == apps[k].name {
          apps := apps[k := Given(apps[k], m)];
          return;
        }
        k := k + 1;
      }
    }

    /** One round of an application's dispatch: its oldest message is taken and
        handled if there is a callback for its event. */
    method ProcessOne(i: nat) returns (err: Errno, handled: bool)
      requires i < |apps|
      modifies this`apps
      ensures if old(apps)[i].queue == [] then err == NoMsg && !handled && apps == old(apps)
              else err == Ok && View() == Next(old(View()), Process(i))
                   && (handled <==> EventBase(old(apps)[i].queue[0].event) in old(apps)[i].events)
    {
      handled := false;
      if apps[i].queue == [] { return NoMsg, false; }
      var m, events := apps[i].queue[0], apps[i].events;
      apps := apps[i := Advanced(apps[i])];
      var k := 0;
      while k < |events| && !handled
        invariant k <= |events| && (!handled ==> EventBase(m.event) !in events[..k])
        invariant handled ==> EventBase(m.event) in events
        decreases |events| - k, !handled
      {
        if events[k] == EventBase(m.event) { handled := true; }
        k := k + 1;
      }
      assert events[..|events|] == events;
      err := Ok;
    }
  }

  lemma DeliveredStep(apps: seq<App>, k: nat, m: Msg)
    requires k < |apps|
    ensures Delivered(apps[k..], m) ==
      if m.to == APP_MSG_TO_ALL
      then [if m.from != apps[k].name then Given(apps[k], m) else apps[k]] + Delivered(apps[k + 1..], m)
      else if m.to == apps[k].name then [Given(apps[k], m)] + apps[k + 1..]
      else [apps[k]] + Delivered(apps[k + 1..], m)
  {
    assert apps[k..][1..] == apps[k + 1..] && apps[k..][0] == apps[k];
  }

  /** One round of giving to all. */
  lemma GivenStep(apps0: seq<App>, apps: seq<App>, k: nat, m: Msg)
    requires m.to == APP_MSG_TO_ALL && k < |apps| == |apps0| && apps[k..] == apps0[k..]
    requires apps[..k] + Delivered(apps0[k..], m) == Delivered(apps0, m)
    ensures apps[k] == apps0[k]
    ensures var next := if apps[k].name != m.from then apps[k := Given(apps[k], m)] else apps;
            next[k + 1..] == apps0[k + 1..] && next[..k + 1] + Delivered(apps0[k + 1..], m) == Delivered(apps0, m)
  {
    DeliveredStep(apps0, k, m);
    assert apps[k] == apps[k..][0] == apps0[k];
    var x := if apps[k].name != m.from then Given(apps[k], m) else apps[k];
    Bytes.Assoc(apps[..k], [x], Delivered(apps0[k + 1..], m));
    hide Delivered, Given;
    var next := apps[k := x];
    Split(next, k, x);
    assert next[..k] == apps[..k];
    assert next[k + 1..] == apps[k..][1..] == apps0[k..][1..];
  }

  /** One round of looking for a name. */
  lemma PassedStep(apps: seq<App>, k: nat, m: Msg)
    requires m.to != APP_MSG_TO_ALL && k < |apps|
    requires apps[..k] + Delivered(apps[k..], m) == Delivered(apps, m)
    ensures if m.to == apps[k].name then apps[k := Given(apps[k], m)] == Delivered(apps, m)
            else apps[..k + 1] + Delivered(apps[k + 1..], m) == Delivered(apps, m)
  {
    DeliveredStep(apps, k, m);
    Bytes.Assoc(apps[..k], [apps[k]], Delivered(apps[k + 1..], m));
    Split(apps, k, Given(apps[k], m));
    hide Delivered, Given;
  }

  lemma Split(apps: seq<App>, k: nat, x: App)
    requires k < |apps|
    ensures apps[k := x] == apps[..k] + ([x] + apps[k + 1..])
    ensures apps[..k + 1] == apps[..k] + [apps[k]]
  {
  }
}
