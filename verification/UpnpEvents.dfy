// UPnP eventing (upnpevents.c): subscribers and the notifications under way point
// at each other, live in two lists and die independently; every operation keeps
// the pointers between them in step.

module UpnpEvents {
  import opened Bytes
  import opened Powers

  datatype Service = ConnectionManager | RenderingControl | AvTransport

  datatype NotifyState = Created | Connecting | Sending | WaitingForResponse | Finished | Error

  /** SEQ after so many acknowledgements: 0 before the first, then counting up
      in 32 bits with 0 left out (section 4.2 of the UPnP Device Architecture 1.0). */
  function SeqAfter(acknowledged: nat): nat {
    if acknowledged == 0 then 0 else 1 + (acknowledged - 1) % (TWO_32 - 1)
  }

  /** The increment of upnp_event_recv. */
  function Bumped(x: nat): nat {
    var y := (x + 1) % TWO_32;
    if y == 0 then 1 else y
  }

  lemma SeqBumped(k: nat)
    ensures Bumped(SeqAfter(k)) == SeqAfter(k + 1)
    ensures SeqAfter(k) == 0 <==> k == 0
    ensures SeqAfter(k) == TWO_32 - 1 ==> SeqAfter(k + 1) == 1
  {
    if k > 0 { NextRemainder(k - 1, TWO_32 - 1); }
  }

  /** Up to the largest 32-bit value SEQ is the number of acknowledgements; from
      then on it repeats, without the 0. */
  lemma SeqCounts(k: nat)
    ensures k < TWO_32 ==> SeqAfter(k) == k
    ensures k > 0 ==> SeqAfter(k + (TWO_32 - 1)) == SeqAfter(k)
    ensures SeqAfter(k) != SeqAfter(k + 1)
  {
    if 0 < k < TWO_32 { DivideShifted(k - 1, TWO_32 - 1, 0, k - 1); }
    if k > 0 {
      var q, r := (k - 1) / (TWO_32 - 1), (k - 1) % (TWO_32 - 1);
      DivideShifted(k - 1 + (TWO_32 - 1), TWO_32 - 1, q + 1, r);
      NextRemainder(k - 1, TWO_32 - 1);
    }
  }

  lemma NextRemainder(x: nat, m: nat)
    requires m > 1
    ensures (x + 1) % m == if x % m == m - 1 then 0 else x % m + 1
  {
    var q, r := x / m, x % m;
    assert x == q * m + r;
    if r == m - 1 {
      assert x + 1 == (q + 1) * m by { assert (q + 1) * m == q * m + m; }
      DivideShifted(x + 1, m, q + 1, 0);
    } else {
      DivideShifted(x + 1, m, q, r + 1);
    }
  }

  class Subscriber {
    const service: Service
    const uuid: string
    const callback: string
    var notify: Notify?
    var timeout: int          // 0 for none
    var seqNo: nat
    ghost var acknowledged: nat

    constructor (service: Service, uuid: string, callback: string, timeout: int)
      ensures this.service == service && this.uuid == uuid && this.callback == callback
      ensures notify == null && this.timeout == timeout && seqNo == 0 && acknowledged == 0
    {
      this.service, this.uuid, this.callback := service, uuid, callback;
      notify, this.timeout, seqNo, acknowledged := null, timeout, 0, 0;
    }
  }

  class Notify {
    var socket: int
    var state: NotifyState
    var sub: Subscriber?
    var path: Subscriber?     // whose callback the path points into; null for the constant "/"
    var seqSent: nat          // SEQ in the message of the buffer
    var toSend: nat
    var sent: nat

    constructor (sub: Subscriber, socket: int)
      ensures this.sub == sub && state == Created && this.socket == socket && path == null && toSend == 0 && sent == 0
    {
      this.sub, state, this.socket, path, seqSent, toSend, sent := sub, Created, socket, null, 0, 0, 0;
    }

    /** The path points into the callback of a live subscriber, and a message
        on its way carries that subscriber's SEQ. */
    ghost predicate Sound()
      reads this, sub
    {
      && sent <= toSend
      && (state == Created || state == Connecting ==> toSend == 0)
      && (sub != null ==> path == null || path == sub)
      && (sub != null && (state == Sending || state == WaitingForResponse) ==> seqSent == sub.seqNo)
    }
  }

  /** What the network does for one notification: the length of the message
      made, how much each send takes until one fails, and the result of recv. */
  datatype Io = Io(length: nat, sends: seq<nat>, received: int)

  /** What one step of a notification makes of its state: an orphan's subscriber
      is gone. */
  predicate Moves(before: NotifyState, orphan: bool, io: Io, after: NotifyState) {
    match before
    case Connecting => after == WaitingForResponse || (!orphan && after == Error)
    case Sending => after == WaitingForResponse || after == Error
    case WaitingForResponse => after == if io.received < 0 then Error else Finished
    case _ => after == before
  }

  predicate NoDuplicates<T(==)>(s: seq<T>) {
    forall i, j :: 0 <= i < j < |s| ==> s[i] != s[j]
  }

  function Without<T(==)>(s: seq<T>, x: T): seq<T> {
    if s == [] then [] else if s[0] == x then s[1..] else [s[0]] + Without(s[1..], x)
  }

  lemma {:induction false} WithoutIs<T>(s: seq<T>, x: T)
    requires NoDuplicates(s)
    ensures NoDuplicates(Without(s, x))
    ensures forall y :: y in Without(s, x) <==> y in s && y != x
  {
    if s != [] {
      WithoutIs(s[1..], x);
      assert s == [s[0]] + s[1..];
      if s[0] == x {
        assert x !in s[1..];
      } else {
        var w := Without(s[1..], x);
        assert s[0] !in w;
        assert forall i :: 1 <= i < |[s[0]] + w| ==> ([s[0]] + w)[i] == w[i - 1] && w[i - 1] in w;
      }
    }
  }

  /** The first subscriber of an id. */
  function FirstOf(s: seq<Subscriber>, sid: string): Subscriber? {
    if s == [] then null else if s[0].uuid == sid then s[0] else FirstOf(s[1..], sid)
  }

  /** The first subscriber of a service whose callback starts with the given one. */
  function FirstLike(s: seq<Subscriber>, service: Service, callback: string): Subscriber? {
    if s == [] then null
    else if s[0].service == service && callback <= s[0].callback then s[0]
    else FirstLike(s[1..], service, callback)
  }

  lemma {:induction false} FirstOfIs(s: seq<Subscriber>, sid: string)
    ensures FirstOf(s, sid) == null <==> forall x :: x in s ==> x.uuid != sid
    ensures FirstOf(s, sid) != null ==> FirstOf(s, sid) in s && FirstOf(s, sid).uuid == sid
  {
    if s != [] {
      FirstOfIs(s[1..], sid);
      assert s == [s[0]] + s[1..];
    }
  }

  class Eventing {
    var subs: seq<Subscriber>
    var notifies: seq<Notify>

    /** A listed subscriber and a listed notification point at each other or not
        at all, so no pointer leads out of the lists and no subscriber has two
        notifications; SEQ counts acknowledgements. */
    ghost predicate Valid()
      reads this, subs, notifies
    {
      && NoDuplicates(subs) && NoDuplicates(notifies)
      && (forall s :: s in subs ==> s.notify == null || (s.notify in notifies && s.notify.sub == s))
      && (forall n :: n in notifies ==> n.sub == null || (n.sub in subs && n.sub.notify == n))
      && (forall s :: s in subs ==> s.seqNo == SeqAfter(s.acknowledged))
      && (forall n :: n in notifies ==> n.Sound())
    }

    constructor ()
      ensures Valid() && subs == [] && notifies == []
    {
      subs, notifies := [], [];
    }

    /** Each points at the other exactly when it is pointed at. */
    lemma PointersAgree(s: Subscriber, n: Notify)
      requires Valid() && s in subs && n in notifies
      ensures s.notify == n <==> n.sub == s
    {
    }

    /** At most one notification of a subscription is under way. */
    lemma OneNotify(n: Notify, m: Notify)
      requires Valid() && n in notifies && m in notifies && n.sub == m.sub && n.sub != null
      ensures n == m
    {
    }

    // Subscriptions.

    /** The first listed subscriber of a service whose callback starts with the
        given one is kept; if there is none, a new one heads the list, unless
        its callback would be empty. */
    method AddSubscriber(service: Service, uuid: string, callback: string, timeout: nat, now: nat)
      returns (sub: Subscriber?)
      requires Valid()
      modifies this`subs
      ensures Valid()
      ensures sub == null <==> FirstLike(old(subs), service, callback) == null && callback == ""
      ensures sub == null ==> subs == old(subs)
      ensures sub != null ==> sub in subs && sub.service == service && callback <= sub.callback
      ensures FirstLike(old(subs), service, callback) != null ==>
        subs == old(subs) && sub == FirstLike(old(subs), service, callback)
      ensures FirstLike(old(subs), service, callback) == null && callback != "" ==>
        && fresh(sub) && subs == [sub] + old(subs) && sub.uuid == uuid && sub.callback == callback
        && sub.seqNo == 0 && sub.notify == null && sub.timeout == if timeout == 0 then 0 else now + timeout
    {
      var i := 0;
      while i < |subs|
        invariant 0 <= i <= |subs|
        invariant FirstLike(subs[i..], service, callback) == FirstLike(subs, service, callback)
      {
        assert subs[i..][1..] == subs[i + 1..];
        if subs[i].service == service && callback <= subs[i].callback { return subs[i]; }
        i := i + 1;
      }
      if callback == "" { return null; }
      sub := new Subscriber(service, uuid, callback, if timeout == 0 then 0 else now + timeout);
      subs := [sub] + subs;
    }

    method Find(sid: string) returns (sub: Subscriber?)
      ensures sub == FirstOf(subs, sid)
    {
      var i := 0;
      while i < |subs|
        invariant 0 <= i <= |subs|
        invariant FirstOf(subs[i..], sid) == FirstOf(subs, sid)
      {
        assert subs[i..][1..] == subs[i + 1..];
        if subs[i].uuid == sid { return subs[i]; }
        i := i + 1;
      }
      sub := null;
    }

    method Renew(sid: string, timeout: nat, now: nat) returns (ret: int)
      requires Valid()
      modifies subs`timeout
      ensures Valid() && ret == if FirstOf(subs, sid) == null then -1 else 0
      ensures forall s :: s in subs ==>
        s.timeout == if s != FirstOf(subs, sid) then old(s.timeout) else if timeout == 0 then 0 else now + timeout
    {
      var sub := Find(sid);
      FirstOfIs(subs, sid);
      if sub == null { return -1; }
      sub.timeout := if timeout == 0 then 0 else now + timeout;
      ret := 0;
    }

    /** Takes a subscriber off the list; its notification lives on alone. */
    method Drop(sub: Subscriber)
      requires Valid() && sub in subs
      modifies this`subs, notifies`sub
      ensures Valid() && subs == Without(old(subs), sub) && sub !in subs
      ensures forall n :: n in notifies ==> n.sub == if old(n.sub) == sub then null else old(n.sub)
    {
      WithoutIs(subs, sub);
      if sub.notify != null { sub.notify.sub := null; }
      subs := Without(subs, sub);
    }

    method RemoveSubscriber(sid: string) returns (ret: int)
      requires Valid()
      modifies this`subs, notifies`sub
      ensures Valid() && ret == if FirstOf(old(subs), sid) == null then -1 else 0
      ensures ret == -1 ==> subs == old(subs) && forall n :: n in notifies ==> n.sub == old(n.sub)
      ensures ret == 0 ==>
        var gone: Subscriber := FirstOf(old(subs), sid);
        && subs == Without(old(subs), gone) && gone !in subs
        && forall n :: n in notifies ==> n.sub == if old(n.sub) == gone then null else old(n.sub)
    {
      var sub := Find(sid);
      FirstOfIs(subs, sid);
      if sub == null { return -1; }
      Drop(sub);
      ret := 0;
    }

    method RemoveSubscribers()
      requires Valid()
      modifies this`subs, notifies`sub
      ensures Valid() && subs == [] && forall n :: n in notifies ==> n.sub == null
    {
      while subs != []
        invariant Valid() && notifies == old(notifies)
        decreases |subs|
      {
        WithoutShorter(subs, subs[0]);
        Drop(subs[0]);
      }
    }

    // Notifications.

    /** Starts a notification unless no socket can be had. */
    method CreateNotify(sub: Subscriber, socket: int)
      requires Valid() && sub in subs && sub.notify == null
      modifies this`notifies, sub`notify
      ensures Valid() && (socket < 0 ==> sub.notify == null && notifies == old(notifies))
      ensures socket >= 0 ==>
        && sub.notify != null && fresh(sub.notify) && notifies == [sub.notify] + old(notifies)
        && sub.notify.sub == sub && sub.notify.state == Created && sub.notify.socket == socket
    {
      if socket < 0 { return; }
      var n := new Notify(sub, socket);
      sub.notify := n;
      notifies := [n] + notifies;
    }

    /** A changed variable: every subscriber of the service that has no
        notification under way gets one, the others none. */
    method VarChangeNotify(service: Service, sockets: seq<int>)
      requires Valid() && |sockets| == |subs|
      modifies this`notifies, subs`notify
      ensures Valid() && subs == old(subs)
      ensures forall i :: 0 <= i < |subs| ==>
        if subs[i].service == service && old(subs[i].notify) == null && sockets[i] >= 0
        then subs[i].notify != null && fresh(subs[i].notify) && subs[i].notify.state == Created
        else subs[i].notify == old(subs[i].notify)
    {
      var i := 0;
      while i < |subs|
        invariant 0 <= i <= |subs| && subs == old(subs) && Valid()
        invariant forall k :: i <= k < |subs| ==> subs[k].notify == old(subs[k].notify)
        invariant forall k :: 0 <= k < i ==>
          if subs[k].service == service && old(subs[k].notify) == null && sockets[k] >= 0
          then subs[k].notify != null && fresh(subs[k].notify) && subs[k].notify.state == Created
          else subs[k].notify == old(subs[k].notify)
      {
        if subs[i].service == service && subs[i].notify == null { CreateNotify(subs[i], sockets[i]); }
        i := i + 1;
      }
    }

    // One notification's progress; results of the network are parameters.

    /** upnp_event_notify_connect: from here on the path points into the
        subscriber's callback, or is the constant for an empty one. */
    method NotifyConnect(n: Notify, rootPath: bool, connects: bool)
      requires Valid() && n in notifies && n.state == Created
      modifies n`state, n`path
      ensures Valid()
      ensures n.state == (if n.sub != null && connects then Connecting else Error)
      ensures n.sub != null ==> n.path == if rootPath then null else n.sub
    {
      if n.sub == null {
        n.state := Error;
        return;
      }
      n.path := if rootPath then null else n.sub;
      n.state := Connecting;
      if !connects { n.state := Error; }
    }

    /** upnp_event_prepare: the path is followed only here, and only into the
        callback of a subscriber that is still there. The text of the event is
        there for one of the three services only. */
    method Prepare(n: Notify, length: nat) returns (followed: bool, owner: Subscriber?, filled: bool)
      requires Valid() && n in notifies && n.state == Connecting
      modifies n`state, n`toSend, n`seqSent
      ensures Valid() && (followed <==> n.sub != null)
      ensures followed ==> (owner == null || (owner == n.sub && owner in subs))
      ensures filled <==> n.sub != null && n.sub.service == AvTransport
      ensures if followed then n.state == Sending && n.toSend == length && n.seqSent == n.sub.seqNo
              else n.state == Error && n.toSend == 0
    {
      owner := null;
      if n.sub == null {
        n.state := Error;
        return false, null, false;
      }
      match n.sub.service {
        case ConnectionManager => filled := false;
        case RenderingControl => filled := false;
        case AvTransport => filled := true;
      }
      followed, owner := true, n.path;
      n.toSend := length;
      n.seqSent := n.sub.seqNo;
      n.state := Sending;
    }

    /** upnp_event_send: sends on until all is sent or a send fails. */
    method SendAll(n: Notify, sends: seq<nat>)
      requires Valid() && n in notifies && (n.state == Sending || n.toSend == 0)
      requires n.sub != null ==> n.state == Sending
      modifies n`state, n`sent
      ensures Valid()
      ensures n.state == WaitingForResponse || n.state == Error
      ensures n.state == WaitingForResponse <==> n.sent == n.toSend
      ensures old(n.sent) == n.toSend ==> n.state == WaitingForResponse
    {
      hide SeqAfter, NoDuplicates;
      var i := 0;
      while n.sent < n.toSend
        invariant n.sent <= n.toSend && Valid() && n.state == old(n.state)
        invariant old(n.sent) == n.toSend ==> n.sent == n.toSend
        decreases |sends| - i
      {
        if i >= |sends| {
          n.state := Error;
          return;
        }
        n.sent := n.sent + (if sends[i] <= n.toSend - n.sent then sends[i] else n.toSend - n.sent);
        i := i + 1;
      }
      n.state := WaitingForResponse;
    }

    /** upnp_event_recv: a response acknowledges the event. */
    method Receive(n: Notify, received: int)
      requires Valid() && n in notifies && n.state == WaitingForResponse
      modifies n`state, subs`seqNo, subs`acknowledged
      ensures Valid() && n.state == if received < 0 then Error else Finished
      ensures forall s :: s in subs ==>
          s.acknowledged == if received >= 0 && n.sub == s then old(s.acknowledged) + 1 else old(s.acknowledged)
    {
      if received < 0 {
        n.state := Error;
        return;
      }
      n.state := Finished;
      if n.sub != null { Acknowledge(n); }
    }

    /** Counts SEQ up for a notification that is over. */
    method Acknowledge(n: Notify)
      requires Valid() && n in notifies && n.state == Finished && n.sub != null
      modifies n.sub`seqNo, n.sub`acknowledged
      ensures Valid() && n.sub.acknowledged == old(n.sub.acknowledged) + 1
    {
      forall m | m in notifies && m != n
        ensures m.sub != n.sub
      {
        if m.sub == n.sub { OneNotify(n, m); }
      }
      SeqBumped(n.sub.acknowledged);
      hide SeqAfter, NoDuplicates;
      n.sub.seqNo := Bumped(n.sub.seqNo);
      n.sub.acknowledged := n.sub.acknowledged + 1;
    }

    /** upnp_event_process_notify. A notification whose subscriber went away
        while it connected is not dropped: sending nothing succeeds, and that
        overwrites the error prepare had set. */
    method ProcessNotify(n: Notify, io: Io)
      requires Valid() && n in notifies
      modifies n`state, n`toSend, n`seqSent, n`sent, n`socket, subs`seqNo, subs`acknowledged
      ensures Valid()
      ensures Moves(old(n.state), n.sub == null, io, n.state)
      ensures old(n.state) == Connecting && n.sub != null ==> n.seqSent == n.sub.seqNo && n.toSend == io.length
      ensures forall s :: s in subs ==>
        var counted := old(n.state) == WaitingForResponse && io.received >= 0 && n.sub == s;
        s.acknowledged == old(s.acknowledged) + if counted then 1 else 0
      ensures n.socket == if old(n.state) == Finished then -1 else old(n.socket)
    {
      match n.state
      case Connecting =>
        var followed, owner, filled := Prepare(n, io.length);
        SendAll(n, io.sends);
      case Sending => SendAll(n, io.sends);
      case WaitingForResponse => Receive(n, io.received);
      case Finished => n.socket := -1;
      case _ =>
    }

    /** Frees a notification that is over. */
    method Retire(i: nat)
      requires Valid() && i < |notifies|
      modifies this`notifies, subs`notify
      ensures Valid() && notifies == old(notifies[..i] + notifies[i + 1..])
      ensures forall s :: s in subs ==> s.notify == if old(s.notify) == old(notifies[i]) then null else old(s.notify)
    {
      var n := notifies[i];
      SplitAround(notifies, i);
      if n.sub != null { n.sub.notify := null; }
      notifies := notifies[..i] + notifies[i + 1..];
    }

    /** Frees every notification that is over. */
    method RetireAll()
      requires Valid()
      modifies this`notifies, subs`notify
      ensures Valid()
      ensures forall n :: n in notifies <==> n in old(notifies) && n.state != Error && n.state != Finished
      ensures forall s :: s in subs ==>
        var over := old(s.notify) != null && (old(s.notify).state == Error || old(s.notify).state == Finished);
        s.notify == if over then null else old(s.notify)
    {
      var i := 0;
      while i < |notifies|
        invariant 0 <= i <= |notifies| && Valid() && subs == old(subs)
        invariant forall k :: 0 <= k < i ==> notifies[k].state != Error && notifies[k].state != Finished
        invariant forall n :: n in notifies ==> n in old(notifies)
        invariant forall n :: n in old(notifies) ==> n in notifies || n.state == Error || n.state == Finished
        invariant forall s :: s in subs ==> (
          || s.notify == old(s.notify)
          || (s.notify == null && old(s.notify) != null
            && (old(s.notify).state == Error || old(s.notify).state == Finished)))
        decreases |notifies| - i
      {
        if notifies[i].state == Error || notifies[i].state == Finished {
          SplitAround(notifies, i);
          Retire(i);
        } else {
          i := i + 1;
        }
      }
    }

    /** Drops the subscribers whose time is up, unless a notification of theirs
        is still under way. */
    method Expire(now: nat)
      requires Valid()
      modifies this`subs
      ensures Valid()
      ensures forall s :: s in subs <==> s in old(subs) && !(s.timeout != 0 && now > s.timeout && s.notify == null)
    {
      var i := 0;
      while i < |subs|
        invariant 0 <= i <= |subs| && Valid()
        invariant forall k :: 0 <= k < i ==> !(subs[k].timeout != 0 && now > subs[k].timeout && subs[k].notify == null)
        invariant forall s :: s in subs ==> s in old(subs)
        invariant forall s :: s in old(subs) ==> s in subs || (s.timeout != 0 && now > s.timeout && s.notify == null)
        decreases |subs| - i
      {
        if subs[i].timeout != 0 && now > subs[i].timeout && subs[i].notify == null {
          SplitAround(subs, i);
          subs := subs[..i] + subs[i + 1..];
        } else {
          i := i + 1;
        }
      }
    }

    /** upnpevents_select_fds: every new notification with a socket is connected,
        or fails at once when its subscriber is gone. */
    method SelectFds(rootPaths: seq<bool>, connects: seq<bool>)
      requires Valid() && |rootPaths| == |connects| == |notifies|
      modifies notifies`state, notifies`path
      ensures Valid()
      ensures forall k :: 0 <= k < |notifies| ==>
        var n := notifies[k];
        n.state == if n.socket < 0 || old(n.state) != Created then old(n.state)
                   else if n.sub != null && connects[k] then Connecting else Error
    {
      hide SeqAfter;
      var i := 0;
      while i < |notifies|
        invariant 0 <= i <= |notifies| && Valid()
        invariant forall k :: i <= k < |notifies| ==> notifies[k].state == old(notifies[k].state)
        invariant forall k :: 0 <= k < i ==>
          notifies[k].state ==
            if notifies[k].socket < 0 || old(notifies[k].state) != Created then old(notifies[k].state)
            else if notifies[k].sub != null && connects[k] then Connecting else Error
      {
        assert forall k :: 0 <= k < |notifies| && k != i ==> notifies[k] != notifies[i];
        if notifies[i].socket >= 0 && notifies[i].state == Created {
          NotifyConnect(notifies[i], rootPaths[i], connects[i]);
        }
        i := i + 1;
      }
    }

    /** upnpevents_process_fds: progress where a socket is ready, then both lists
        are cleaned. */
    method ProcessFds(ready: seq<bool>, ios: seq<Io>, now: nat)
      requires Valid() && |ready| == |ios| == |notifies|
      modifies this, subs`notify, subs`seqNo, subs`acknowledged
      modifies notifies`state, notifies`toSend, notifies`seqSent, notifies`sent, notifies`socket
      ensures Valid()
      ensures forall n :: n in notifies ==> n in old(notifies) && n.state != Error && n.state != Finished
      ensures forall k :: 0 <= k < |old(notifies)| ==>
        var n := old(notifies)[k];
        && (n in notifies <==> n.state != Error && n.state != Finished)
        && (if ready[k] && old(n.socket) >= 0 then Moves(old(n.state), n.sub == null, ios[k], n.state)
            else n.state == old(n.state))
      ensures forall s :: s in subs ==>
          s in old(subs) && old(s.acknowledged) <= s.acknowledged <= old(s.acknowledged) + 1
      ensures forall s :: s in old(subs) ==> s in subs || (s.timeout != 0 && now > s.timeout && s.notify == null)
    {
      hide SeqAfter, Moves, Notify.Sound;
      var i := 0;
      while i < |notifies|
        invariant 0 <= i <= |notifies| && Valid() && notifies == old(notifies) && subs == old(subs)
        invariant forall k :: i <= k < |notifies| ==>
            notifies[k].state == old(notifies[k].state) && notifies[k].socket == old(notifies[k].socket)
        invariant forall k :: 0 <= k < i ==>
          if ready[k] && old(notifies[k].socket) >= 0
          then Moves(old(notifies[k].state), notifies[k].sub == null, ios[k], notifies[k].state)
          else notifies[k].state == old(notifies[k].state)
        invariant forall s :: s in subs ==> s.notify == old(s.notify)
        invariant forall s :: s in subs ==> (
          || s.acknowledged == old(s.acknowledged)
          || (s.acknowledged == old(s.acknowledged) + 1 && s.notify in notifies[..i]))
      {
        assert notifies[..i + 1] == notifies[..i] + [notifies[i]];
        assert notifies[i] !in notifies[..i];
        if notifies[i].socket >= 0 && ready[i] { ProcessNotify(notifies[i], ios[i]); }
        i := i + 1;
      }
      RetireAll();
      Expire(now);
    }
  }

  /** A run whose notification should fail and does not: its subscriber is
      removed while it connects, and it ends up waiting for a response. */
  method OrphanWaits() returns (state: NotifyState)
    ensures state == WaitingForResponse
  {
    var e := new Eventing();
    var sub := e.AddSubscriber(AvTransport, "uuid:1", "http://a/", 0, 0);
    e.CreateNotify(sub, 3);
    var n := sub.notify;
    e.NotifyConnect(n, false, true);
    assert FirstOf(e.subs, "uuid:1") == sub;
    var _ := e.RemoveSubscriber("uuid:1");
    e.ProcessNotify(n, Io(100, [100], 0));
    state := n.state;
  }

  lemma SplitAround<T>(s: seq<T>, i: nat)
    requires i < |s| && NoDuplicates(s)
    ensures var t := s[..i] + s[i + 1..];
            NoDuplicates(t) && (forall y :: y in t <==> y in s && y != s[i])
  {
    var t := s[..i] + s[i + 1..];
    assert forall k :: 0 <= k < |t| ==> t[k] == s[if k < i then k else k + 1];
    forall y | y in s && y != s[i]
      ensures y in t
    {
      var k :| 0 <= k < |s| && s[k] == y;
      assert t[if k < i then k else k - 1] == y;
    }
  }

  lemma {:induction false} WithoutShorter<T>(s: seq<T>, x: T)
    requires x in s
    ensures |Without(s, x)| == |s| - 1
  {
    if s[0] != x {
      assert s == [s[0]] + s[1..];
      WithoutShorter(s[1..], x);
    }
  }
}
